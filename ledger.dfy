/**
 * The points ledger: one table `points(user_id INTEGER PRIMARY KEY, points INTEGER)`.
 * Because user_id is the primary key, the table is a map from user id to balance
 * (at most one row per user). The pure functions here give the meaning of each
 * SQL statement sequence; class DatabaseManager performs them step by step.
 */
module Ledger {
  import opened Wrappers

  type Table = map<int, int>

  /** One result row of the leaderboard query: (user_id, points). */
  datatype Row = Row(userId: int, points: int)

  /** The `limit` get_leaderboard uses when none is given. */
  const DefaultLimit: int := 10

  // ---------------------------------------------------------------------------
  // Row-level transitions

  /** What get_points returns: the stored balance, or 0 when the user has no row. */
  function Balance(t: Table, u: int): (b: int)
    ensures u in t ==> b == t[u]
    ensures u !in t ==> b == 0
  {
    if u in t then t[u] else 0
  }

  /** Every user other than u has the same row (or the same absence of one) in t and t'. */
  ghost predicate SameElsewhere(t: Table, t': Table, u: int) {
    forall v :: v != u ==> (v in t <==> v in t') && (v in t ==> t[v] == t'[v])
  }

  /** No stored balance is negative. */
  ghost predicate NonNegative(t: Table) {
    forall v :: v in t ==> t[v] >= 0
  }

  /** The table after get_points(u): a row with 0 is inserted when u had none. */
  function Touch(t: Table, u: int): (t': Table)
    ensures u in t' && t'[u] == Balance(t, u)
    ensures u !in t ==> t'[u] == 0
    ensures SameElsewhere(t, t', u)
  {
    if u in t then t else t[u := 0]
  }

  /** The table after update_points(u, d): the balance moves by d, with no floor. */
  function Add(t: Table, u: int, d: int): (t': Table)
    ensures u in t' && t'[u] == Balance(t, u) + d
    ensures SameElsewhere(t, t', u)
  {
    t[u := Balance(t, u) + d]
  }

  /** The table after set_points(u, v): the row exists and holds v, whatever it held. */
  function Put(t: Table, u: int, v: int): (t': Table)
    ensures u in t' && t'[u] == v
    ensures SameElsewhere(t, t', u)
  {
    t[u := v]
  }

  /** `max(0, current - points)`: the balance removepoints stores. */
  function RevokedBalance(current: int, points: int): (r: int)
    ensures r >= 0 && r >= current - points
    ensures r == 0 || r == current - points
  {
    if current - points > 0 then current - points else 0
  }

  /** The table after removepoints(u, p). */
  function Revoke(t: Table, u: int, p: int): (t': Table)
    ensures u in t' && t'[u] == RevokedBalance(Balance(t, u), p)
    ensures SameElsewhere(t, t', u)
  {
    Put(t, u, RevokedBalance(Balance(t, u), p))
  }

  // ---------------------------------------------------------------------------
  // Properties of the transitions

  /** A second get_points returns the same value and changes nothing. */
  lemma TouchIdempotent(t: Table, u: int)
    ensures Touch(Touch(t, u), u) == Touch(t, u)
    ensures Balance(Touch(t, u), u) == Balance(t, u)
  {
  }

  /** A table with a row for u is left alone by get_points. */
  lemma TouchKeepsExisting(t: Table, u: int)
    requires u in t
    ensures Touch(t, u) == t
  {
  }

  /** Two grants add up: update_points(u, a) then update_points(u, b) is update_points(u, a + b). */
  lemma AddCompose(t: Table, u: int, a: int, b: int)
    ensures Add(Add(t, u, a), u, b) == Add(t, u, a + b)
  {
  }

  /** Adding 5 then -3 to a new user leaves 2: update_points applies no floor. */
  lemma AddFiveThenMinusThree(t: Table, u: int)
    requires u !in t
    ensures Add(Add(t, u, 5), u, -3)[u] == 2
  {
  }

  /** update_points can drive a balance below zero: the floor is not a store invariant. */
  lemma AddCanGoNegative(u: int)
    ensures NonNegative(map[u := 3])
    ensures !NonNegative(Add(map[u := 3], u, -10))
  {
    assert Add(map[u := 3], u, -10)[u] == -7;
  }

  /** removepoints never leaves a negative balance, and keeps every balance non-negative if all were. */
  lemma RevokeKeepsFloor(t: Table, u: int, p: int)
    ensures Balance(Revoke(t, u, p), u) >= 0
    ensures NonNegative(t) ==> NonNegative(Revoke(t, u, p))
  {
  }

  /** Removing a non-negative amount from a non-negative balance never raises it. */
  lemma RevokeNeverRaises(current: int, p: int)
    requires current >= 0 && p >= 0
    ensures RevokedBalance(current, p) <= current
  {
  }

  /** A balance already below zero is raised to 0 by removing a non-negative amount. */
  lemma RevokeRaisesNegative()
    ensures RevokedBalance(-5, 2) == 0 > -5
  {
  }

  /** The two worked examples: balance 3 minus 10 gives 0, balance 5 minus 2 gives 3. */
  lemma RevokeExamples()
    ensures RevokedBalance(3, 10) == 0
    ensures RevokedBalance(5, 2) == 3
  {
  }

  /** get_points and a non-negative grant keep every balance non-negative. */
  lemma TouchAndGrantKeepFloor(t: Table, u: int, d: int)
    requires NonNegative(t) && d >= 0
    ensures NonNegative(Touch(t, u))
    ensures NonNegative(Add(t, u, d))
  {
  }

  // ---------------------------------------------------------------------------
  // SELECT user_id, points FROM points ORDER BY points DESC LIMIT ?

  /** The user ids of a row sequence. */
  ghost function Ids(rows: seq<Row>): set<int> {
    set i | 0 <= i < |rows| :: rows[i].userId
  }

  /** Each row is a row of the table. */
  ghost predicate RowsOf(t: Table, rows: seq<Row>) {
    forall i :: 0 <= i < |rows| ==> rows[i].userId in t && t[rows[i].userId] == rows[i].points
  }

  /** No user appears twice. */
  ghost predicate DistinctIds(rows: seq<Row>) {
    forall i, j :: 0 <= i < j < |rows| ==> rows[i].userId != rows[j].userId
  }

  /** Points are non-increasing down the sequence. */
  ghost predicate Descending(rows: seq<Row>) {
    forall i, j :: 0 <= i < j < |rows| ==> rows[i].points >= rows[j].points
  }

  /**
   * What `ORDER BY points DESC LIMIT limit` may return for table t. A negative
   * limit means no bound, as in SQLite. Ties may come in any order.
   */
  ghost predicate IsTopN(t: Table, limit: int, rows: seq<Row>): (top: bool)
    ensures top ==> Ids(rows) <= t.Keys && (limit >= 0 ==> |rows| <= limit)
    ensures top && rows != [] ==> forall u :: u in t ==> t[u] <= rows[0].points
  {
    && RowsOf(t, rows)
    && DistinctIds(rows)
    && Descending(rows)
    && |rows| == (if limit < 0 || |t| <= limit then |t| else limit)
    && ((limit < 0 || |t| <= limit) ==> Ids(rows) == t.Keys)
    && (forall u, i :: u in t && u !in Ids(rows) && 0 <= i < |rows| ==> t[u] <= rows[i].points)
  }

  /** rows lists every row of t exactly once, highest points first. */
  ghost predicate RanksAll(t: Table, rows: seq<Row>) {
    && |rows| == |t|
    && RowsOf(t, rows)
    && DistinctIds(rows)
    && Descending(rows)
    && Ids(rows) == t.Keys
  }

  /** u ranks first in t: highest points, and among equal points the smallest id. */
  predicate IsFirst(t: Table, u: int) {
    u in t && forall v :: v in t ==> t[u] > t[v] || (t[u] == t[v] && u <= v)
  }

  lemma RemoveOne(t: Table, x: int)
    requires x in t
    ensures (t - {x}).Keys == t.Keys - {x}
    ensures |t - {x}| == |t| - 1
  {
    assert (t - {x}).Keys == t.Keys - {x};
  }

  /** Some user of a non-empty table. */
  lemma PickKey(t: Table) returns (x: int)
    requires |t| > 0
    ensures x in t
  {
    if !exists k :: k in t {
      assert false;
    }
    x :| x in t;
  }

  /** Every non-empty table has a first-ranked user. */
  lemma {:induction false} FirstExists(t: Table)
    requires |t| > 0
    ensures exists u :: IsFirst(t, u)
    decreases |t|
  {
    var x := PickKey(t);
    var rest := t - {x};
    RemoveOne(t, x);
    if |rest| == 0 {
      assert IsFirst(t, x) by {
        forall v | v in t ensures v == x {
        }
      }
    } else {
      FirstExists(rest);
      var k :| IsFirst(rest, k);
      if t[x] > t[k] || (t[x] == t[k] && x <= k) {
        assert IsFirst(t, x) by {
          forall v | v in t ensures t[x] > t[v] || (t[x] == t[v] && x <= v) {
            if v != x { assert v in rest; }
          }
        }
      } else {
        assert IsFirst(t, k) by {
          forall v | v in t ensures t[k] > t[v] || (t[k] == t[v] && k <= v) {
            if v != x { assert v in rest; }
          }
        }
      }
    }
  }

  /** The user ids of a row put in front of a sequence. */
  lemma IdsCons(r: Row, tail: seq<Row>)
    ensures Ids([r] + tail) == {r.userId} + Ids(tail)
  {
    var rows := [r] + tail;
    forall v | v in Ids(rows) ensures v in {r.userId} + Ids(tail) {
      var i :| 0 <= i < |rows| && rows[i].userId == v;
      if i > 0 { assert tail[i - 1].userId == v; }
    }
    forall v | v in Ids(tail) ensures v in Ids(rows) {
      var i :| 0 <= i < |tail| && tail[i].userId == v;
      assert rows[i + 1].userId == v;
    }
    assert rows[0].userId == r.userId;
  }

  /** Putting the first-ranked row in front of a ranking of the rest ranks the whole table. */
  lemma PrependFirst(t: Table, u: int, tail: seq<Row>)
    requires IsFirst(t, u)
    requires RanksAll(t - {u}, tail)
    ensures RanksAll(t, [Row(u, t[u])] + tail)
  {
    RemoveOne(t, u);
    TailRowsOf(t, u, tail);
    PrependIds(t, u, tail);
    PrependRows(t, u, tail);
  }

  lemma PrependIds(t: Table, u: int, tail: seq<Row>)
    requires u in t && Ids(tail) == t.Keys - {u}
    ensures Ids([Row(u, t[u])] + tail) == t.Keys
  {
    IdsCons(Row(u, t[u]), tail);
    assert {u} + (t.Keys - {u}) == t.Keys;
  }

  lemma PrependRows(t: Table, u: int, tail: seq<Row>)
    requires u in t && DistinctIds(tail) && Descending(tail)
    requires forall i :: 0 <= i < |tail| ==>
      && tail[i].userId in t && tail[i].userId != u
      && t[tail[i].userId] == tail[i].points && t[u] >= tail[i].points
    ensures RowsOf(t, [Row(u, t[u])] + tail)
    ensures DistinctIds([Row(u, t[u])] + tail) && Descending([Row(u, t[u])] + tail)
  {
    var rows := [Row(u, t[u])] + tail;
    forall i | 0 <= i < |rows| ensures rows[i].userId in t && t[rows[i].userId] == rows[i].points {
      if i > 0 { assert rows[i] == tail[i - 1]; }
    }
    forall i, j | 0 <= i < j < |rows|
      ensures rows[i].userId != rows[j].userId && rows[i].points >= rows[j].points
    {
      assert rows[j] == tail[j - 1];
      if i > 0 { assert rows[i] == tail[i - 1]; }
    }
  }

  /** The rows ranking t - {u} are rows of t other than u's, and rank no higher than u. */
  lemma TailRowsOf(t: Table, u: int, tail: seq<Row>)
    requires IsFirst(t, u)
    requires RanksAll(t - {u}, tail)
    ensures forall i :: 0 <= i < |tail| ==>
      && tail[i].userId in t && tail[i].userId != u
      && t[tail[i].userId] == tail[i].points && t[u] >= tail[i].points
  {
    forall i | 0 <= i < |tail|
      ensures tail[i].userId in t && tail[i].userId != u
      ensures t[tail[i].userId] == tail[i].points && t[u] >= tail[i].points
    {
      assert tail[i].userId in (t - {u});
    }
  }

  /**
   * Every row of t, best first. Ties come in ascending user_id, the table's
   * storage order; IsTopN does not depend on that choice.
   */
  function SortedRows(t: Table): (rows: seq<Row>)
    ensures RanksAll(t, rows)
    decreases |t|
  {
    if |t| == 0 then []
    else
      FirstExists(t);
      var u :| u in t && IsFirst(t, u);
      RemoveOne(t, u);
      var tail := SortedRows(t - {u});
      PrependFirst(t, u, tail);
      [Row(u, t[u])] + tail
  }

  /** Cutting a full ranking after `limit` rows gives a top-`limit` answer. */
  lemma PrefixIsTopN(t: Table, all: seq<Row>, limit: int)
    requires RanksAll(t, all)
    requires 0 <= limit < |all|
    ensures IsTopN(t, limit, all[..limit])
  {
    var rows := all[..limit];
    forall u, i | u in t && u !in Ids(rows) && 0 <= i < |rows| ensures t[u] <= rows[i].points {
      assert u in Ids(all);
      var j :| 0 <= j < |all| && all[j].userId == u;
    }
  }

  /** ORDER BY points DESC LIMIT limit over t. */
  function TopRows(t: Table, limit: int): (rows: seq<Row>)
    ensures IsTopN(t, limit, rows)
  {
    var all := SortedRows(t);
    if limit < 0 || |all| <= limit then all
    else
      PrefixIsTopN(t, all, limit);
      all[..limit]
  }

  // ---------------------------------------------------------------------------
  // The store

  /**
   * DatabaseManager over one database file. `tableExists` says whether
   * `CREATE TABLE points` has happened in that file; `table` is its contents.
   * Each operation runs to completion before the next starts.
   */
  class DatabaseManager {
    var tableExists: bool
    var table: Table

    /** Opening a database file: `stored` is the points table already in it, if any. */
    constructor (stored: Option<Table>)
      ensures tableExists == stored.Some?
      ensures table == if stored.Some? then stored.value else map[]
    {
      tableExists := stored.Some?;
      table := if stored.Some? then stored.value else map[];
    }

    /** CREATE TABLE IF NOT EXISTS: a new table is empty, an existing one is kept. */
    method Initialize()
      modifies this
      ensures tableExists
      ensures table == if old(tableExists) then old(table) else map[]
    {
      if !tableExists {
        tableExists := true;
        table := map[];
      }
    }

    /** `UPDATE points SET points = v WHERE user_id = u`: nothing happens when u has no row. */
    method SqlUpdate(u: int, v: int)
      modifies this`table
      ensures table == if u in old(table) then Put(old(table), u, v) else old(table)
    {
      if u in table {
        table := table[u := v];
      }
    }

    /** get_points: the stored balance, inserting a row with 0 first when there is none. */
    method GetPoints(u: int) returns (p: int)
      requires tableExists
      modifies this`table
      ensures p == Balance(old(table), u)
      ensures table == Touch(old(table), u)
    {
      if u in table {
        p := table[u];
      } else {
        table := table[u := 0];
        p := 0;
      }
    }

    /** update_points: read (get-or-create), add the delta, write back, return the new balance. */
    method UpdatePoints(u: int, d: int) returns (n: int)
      requires tableExists
      modifies this`table
      ensures n == Balance(old(table), u) + d
      ensures table == Add(old(table), u, d)
    {
      var current := GetPoints(u);
      n := current + d;
      SqlUpdate(u, n);
    }

    /** set_points: make sure the row exists, then overwrite it with v. */
    method SetPoints(u: int, v: int)
      requires tableExists
      modifies this`table
      ensures table == Put(old(table), u, v)
    {
      var _ := GetPoints(u);
      SqlUpdate(u, v);
    }

    /** get_leaderboard: at most `limit` rows, highest points first. */
    function GetLeaderboard(limit: int): (rows: seq<Row>)
      reads this
      requires tableExists
      ensures IsTopN(table, limit, rows)
    {
      TopRows(table, limit)
    }
  }
}
