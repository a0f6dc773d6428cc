/** The two leaderboards (richest users, richest clans): the query
    `SELECT key, balance FROM table ORDER BY balance DESC LIMIT 10` and the loop
    that numbers its rows from 1. */
module Leaderboard {

  /** LIMIT of both leaderboard queries. */
  const TOP_LIMIT: nat := 10

  datatype Row<K> = Row(key: K, balance: int)
  datatype Entry<K> = Entry(rank: nat, key: K, balance: int)

  /** The answer of a leaderboard command: the "table is empty" message or the
      numbered lines. */
  datatype Board<K> = Empty | Standings(entries: seq<Entry<K>>)

  function Min(a: int, b: int): int {
    if a < b then a else b
  }

  ghost function RowKeys<K>(rows: seq<Row<K>>): set<K> {
    set i | 0 <= i < |rows| :: rows[i].key
  }

  /** `rows` is a correct answer to ORDER BY balance DESC LIMIT `limit` over
      `table`: as many rows as the limit allows, each a distinct row of the table,
      in non-increasing balance order, and no row left out is richer than a row
      kept. Among equal balances any order is correct, as in SQL. */
  ghost predicate IsTop<K>(table: map<K, int>, rows: seq<Row<K>>, limit: nat) {
    && |rows| == Min(limit, |table.Keys|)
    && (forall i :: 0 <= i < |rows| ==> rows[i].key in table && table[rows[i].key] == rows[i].balance)
    && (forall i, j :: 0 <= i < j < |rows| ==> rows[i].key != rows[j].key)
    && (forall i, j :: 0 <= i < j < |rows| ==> rows[i].balance >= rows[j].balance)
    && (forall k, i :: k in table && k !in RowKeys(rows) && 0 <= i < |rows| ==> table[k] <= rows[i].balance)
  }

  /** A key of `among` with the largest balance. */
  method MaxKey<K>(table: map<K, int>, among: set<K>) returns (best: K)
    requires among != {} && among <= table.Keys
    ensures best in among
    ensures forall k :: k in among ==> table[k] <= table[best]
  {
    best :| best in among;
    var todo := among - {best};
    while todo != {}
      invariant todo <= among && best in among
      invariant forall k :: k in among && k !in todo ==> table[k] <= table[best]
      decreases todo
    {
      var k :| k in todo;
      if table[k] > table[best] {
        best := k;
      }
      todo := todo - {k};
    }
  }

  /** Loop state of the query: `rows` already taken, richest first, and
      `remaining` the keys not taken yet, none richer than a row taken. */
  ghost predicate Selecting<K>(table: map<K, int>, rows: seq<Row<K>>, remaining: set<K>) {
    && remaining <= table.Keys
    && |rows| + |remaining| == |table.Keys|
    && RowKeys(rows) == table.Keys - remaining
    && (forall i :: 0 <= i < |rows| ==> rows[i].key in table && table[rows[i].key] == rows[i].balance)
    && (forall i, j :: 0 <= i < j < |rows| ==> rows[i].key != rows[j].key)
    && (forall i, j :: 0 <= i < j < |rows| ==> rows[i].balance >= rows[j].balance)
    && (forall k, i :: k in remaining && 0 <= i < |rows| ==> table[k] <= rows[i].balance)
  }

  lemma RowKeysAppend<K>(rows: seq<Row<K>>, next: Row<K>)
    ensures RowKeys(rows + [next]) == RowKeys(rows) + {next.key}
  {
    var rows' := rows + [next];
    assert forall i :: 0 <= i < |rows| ==> rows'[i] == rows[i];
    assert rows'[|rows|] == next;
  }

  lemma SelectingStep<K>(table: map<K, int>, rows: seq<Row<K>>, remaining: set<K>, best: K)
    requires Selecting(table, rows, remaining)
    requires best in remaining
    requires forall k :: k in remaining ==> table[k] <= table[best]
    ensures Selecting(table, rows + [Row(best, table[best])], remaining - {best})
  {
    var next := Row(best, table[best]);
    var rows' := rows + [next];
    var remaining' := remaining - {best};
    RowKeysAppend(rows, next);
    assert RowKeys(rows') == table.Keys - remaining';
    forall i | 0 <= i < |rows'|
      ensures rows'[i].key in table && table[rows'[i].key] == rows'[i].balance
      ensures i < |rows| ==> rows'[i] == rows[i] && rows[i].key != best && rows[i].balance >= table[best]
    {
      if i < |rows| {
        assert rows[i].key in RowKeys(rows);
      }
    }
    forall i, j | 0 <= i < j < |rows'|
      ensures rows'[i].key != rows'[j].key && rows'[i].balance >= rows'[j].balance
    {
    }
    forall k, i | k in remaining' && 0 <= i < |rows'|
      ensures table[k] <= rows'[i].balance
    {
    }
  }

  lemma SelectingDone<K>(table: map<K, int>, rows: seq<Row<K>>, remaining: set<K>, limit: nat)
    requires Selecting(table, rows, remaining)
    requires |rows| <= limit
    requires |rows| == limit || remaining == {}
    ensures IsTop(table, rows, limit)
  {
  }

  /** The query itself: repeatedly take a richest remaining row. */
  method SelectTop<K>(table: map<K, int>, limit: nat) returns (rows: seq<Row<K>>)
    ensures IsTop(table, rows, limit)
  {
    rows := [];
    var remaining := table.Keys;
    while |rows| < limit && remaining != {}
      invariant |rows| <= limit
      invariant Selecting(table, rows, remaining)
      decreases remaining
    {
      var best := MaxKey(table, remaining);
      SelectingStep(table, rows, remaining, best);
      rows := rows + [Row(best, table[best])];
      remaining := remaining - {best};
    }
    SelectingDone(table, rows, remaining, limit);
  }

  /** `enumerate(rows, start=1)`: the i-th row becomes line number i + 1. */
  method Rank<K>(rows: seq<Row<K>>) returns (entries: seq<Entry<K>>)
    ensures |entries| == |rows|
    ensures forall i :: 0 <= i < |rows| ==> entries[i] == Entry(i + 1, rows[i].key, rows[i].balance)
  {
    entries := [];
    for i := 0 to |rows|
      invariant |entries| == i
      invariant forall j :: 0 <= j < i ==> entries[j] == Entry(j + 1, rows[j].key, rows[j].balance)
    {
      entries := entries + [Entry(i + 1, rows[i].key, rows[i].balance)];
    }
  }

  ghost function Unranked<K>(entries: seq<Entry<K>>): (rows: seq<Row<K>>)
    ensures |rows| == |entries|
    ensures forall i :: 0 <= i < |entries| ==> rows[i] == Row(entries[i].key, entries[i].balance)
  {
    seq(|entries|, i requires 0 <= i < |entries| => Row(entries[i].key, entries[i].balance))
  }

  /** A correct leaderboard of `table`: the top rows numbered 1, 2, ... */
  ghost predicate IsLeaderboard<K>(table: map<K, int>, entries: seq<Entry<K>>) {
    && IsTop(table, Unranked(entries), TOP_LIMIT)
    && (forall i :: 0 <= i < |entries| ==> entries[i].rank == i + 1)
  }

  /** The leaderboard command: the empty-table message exactly when there is no
      row, and otherwise at most ten numbered lines, richest first. */
  method TopBoard<K>(table: map<K, int>) returns (board: Board<K>)
    ensures board.Empty? <==> table == map[]
    ensures board.Standings? ==> 1 <= |board.entries| <= TOP_LIMIT && IsLeaderboard(table, board.entries)
  {
    var rows := SelectTop(table, TOP_LIMIT);
    if rows == [] {
      assert table.Keys == {};
      board := Empty;
    } else {
      var entries := Rank(rows);
      assert Unranked(entries) == rows;
      board := Standings(entries);
    }
  }
}
