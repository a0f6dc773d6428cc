/** The listeners: experience and levels on every message, and the answer to a
    command that is still on cooldown. */
module Events {

  import opened Tables
  import opened Database

  /** XP that one level needs, per level: level L is left at L * XP_PER_LEVEL. */
  const XP_PER_LEVEL := 100

  datatype LevelStep = LevelStep(row: LevelRow, leveledUp: bool)

  /** The level rule for one message worth `gain` xp. */
  function GainXp(current: LevelRow, gain: int): (r: LevelStep)
    ensures r.leveledUp <==> current.xp + gain >= current.level * XP_PER_LEVEL
    ensures r.row.level == if r.leveledUp then current.level + 1 else current.level
    ensures r.leveledUp ==> r.row.xp == 0
    ensures !r.leveledUp ==> r.row.xp == current.xp + gain
    ensures LevelConsistent(current) && gain >= 0 ==> LevelConsistent(r.row)
  {
    var xp := current.xp + gain;
    if xp >= current.level * XP_PER_LEVEL then LevelStep(LevelRow(0, current.level + 1), true)
    else LevelStep(LevelRow(xp, current.level), false)
  }

  /** Levels go up one at a time: after n messages the level has risen by at
      most n, whatever the gains, and the row stays consistent. */
  lemma {:induction false} OneLevelPerMessage(current: LevelRow, gains: seq<int>)
    requires forall i :: 0 <= i < |gains| ==> gains[i] >= 0
    ensures XpAfter(current, gains).level <= current.level + |gains|
    ensures LevelConsistent(current) ==> LevelConsistent(XpAfter(current, gains))
    decreases |gains|
  {
    if gains != [] {
      var next := GainXp(current, gains[0]).row;
      OneLevelPerMessage(next, gains[1..]);
    }
  }

  /** The level row after a run of messages. */
  function XpAfter(current: LevelRow, gains: seq<int>): LevelRow
    decreases |gains|
  {
    if gains == [] then current else XpAfter(GainXp(current, gains[0]).row, gains[1..])
  }

  /** A message: from a bot it changes nothing; otherwise its author gains `gain`
      xp (the draw from 5..15) by the level rule. The answer is the new level
      when the author leveled up. */
  method OnMessage(db: Db, author: UserId, isBot: bool, gain: int) returns (announce: Option<int>)
    requires db.Valid()
    requires 5 <= gain <= 15
    modifies db`levels
    ensures db.Valid()
    ensures isBot ==> db.levels == old(db.levels) && announce == None
    ensures !isBot ==>
              var step := GainXp(LevelOf(old(db.levels), author), gain);
              && db.levels == old(db.levels)[author := step.row]
              && (announce == if step.leveledUp then Some(step.row.level) else None)
  {
    announce := None;
    if !isBot {
      var current := db.GetLevelData(author);
      var newXp := current.xp + gain;
      var newLevel := current.level;
      if newXp >= current.level * 100 {
        newLevel := newLevel + 1;
        newXp := 0;
        announce := Some(newLevel);
      }
      db.UpdateLevel(author, LevelRow(newXp, newLevel));
    }
  }

  datatype Wait = Wait(minutes: nat, seconds: nat)

  /** The cooldown message: the remaining time, truncated to whole seconds, as
      minutes and seconds. */
  function CooldownWait(retryAfter: real): (w: Wait)
    requires retryAfter >= 0.0
    ensures w.seconds < 60
    ensures (w.minutes * 60 + w.seconds) as real <= retryAfter < (w.minutes * 60 + w.seconds + 1) as real
  {
    var total := retryAfter.Floor;
    Wait(total / 60, total % 60)
  }
}
