/** The profile commands: setting one's description and viewing a profile. */
module Profile {

  import opened Tables
  import opened Replies
  import opened Database

  /** What the profile card shows. */
  datatype ProfileView = ProfileView(balance: int, clan: Option<string>, description: string, level: LevelRow)

  /** Setting the invoker's description: refused above MAX_DESCRIPTION characters,
      otherwise stored without touching any balance. */
  method SetProfileDescription(db: Db, user: UserId, description: string) returns (reply: Reply)
    requires db.Valid()
    modifies db`users
    ensures db.Valid()
    ensures reply == if |description| > MAX_DESCRIPTION then DescriptionTooLong else DescriptionUpdated
    ensures reply.Rejected() ==> db.users == old(db.users)
    ensures reply == DescriptionUpdated ==>
              && db.users == SetDescription(old(db.users), user, description)
              && DescriptionOf(db.users, user) == (if description == "" then NO_DESCRIPTION else description)
              && (forall v :: Balance(db.users, v) == Balance(old(db.users), v))
  {
    if |description| > 200 {
      return DescriptionTooLong;
    }
    db.UpdateProfileDescription(user, description);
    reply := DescriptionUpdated;
  }

  /** The profile card of `member`: reads only. */
  method ShowProfile(db: Db, member: UserId) returns (view: ProfileView)
    requires db.Valid()
    ensures view.balance == Balance(db.users, member) >= 0
    ensures view.clan.Some? <==> member in db.userClans && db.userClans[member] != ""
    ensures view.clan.Some? ==> view.clan.value == db.userClans[member] && view.clan.value in db.clans
    ensures view.description == DescriptionOf(db.users, member)
    ensures |view.description| <= MAX_DESCRIPTION
    ensures view.level == LevelOf(db.levels, member) && LevelConsistent(view.level)
  {
    var balance := db.GetBalance(member);
    var clan := db.GetUserClan(member);
    var description := DescriptionOf(db.users, member);
    var level := db.GetLevelData(member);
    // An empty clan name is falsy and shows as "no clan".
    if clan.Some? && clan.value == "" {
      clan := None;
    }
    view := ProfileView(balance, clan, description, level);
  }
}
