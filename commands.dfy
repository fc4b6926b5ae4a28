/**
 * The slash-command handlers over the ledger: mypoints, addpoints, removepoints
 * (where the zero floor is applied) and leaderboard (which renders the top rows
 * as ranked text). The display-name lookup is a parameter: `lookup(id)` is None
 * when fetching the user failed.
 */
module Commands {
  import opened Wrappers
  import opened Decimal
  import opened Ledger

  const Header: string := "**Leaderboard:**\n"
  const EmptyBoard: string := "No points have been recorded yet."
  const UnknownUser: string := "Unknown User"

  /** The fetched user's name, or the placeholder when the lookup failed. */
  function DisplayName(fetched: Option<string>): (name: string)
    ensures fetched.None? ==> name == UnknownUser
    ensures fetched.Some? ==> name == fetched.value
  {
    match fetched
    case Some(name) => name
    case None => UnknownUser
  }

  /** One leaderboard line: "{rank}. {name} - {points} points\n", 13 characters of fixed text around the three fields. */
  function BoardLine(rank: int, name: string, points: int): (line: string)
    ensures |line| == |IntToString(rank)| + |name| + |IntToString(points)| + 13
  {
    IntToString(rank) + ". " + name + " - " + IntToString(points) + " points\n"
  }

  /**
   * Whatever the name, the rank can be read back from the front of a line, the
   * name follows ". ", and the points can be read back from just before " points\n".
   */
  lemma BoardLineReadBack(rank: int, name: string, points: int)
    ensures var line, k, p := BoardLine(rank, name, points), |IntToString(rank)|, |IntToString(points)|;
      && ParseInt(line[..k]) == Some(rank)
      && line[k..k + 2] == ". "
      && line[k + 2..k + 2 + |name|] == name
      && ParseInt(line[|line| - 8 - p..|line| - 8]) == Some(points)
      && line[|line| - 8..] == " points\n"
  {
    var r, q := IntToString(rank), IntToString(points);
    IntToStringRoundTrip(rank);
    IntToStringRoundTrip(points);
    var line := BoardLine(rank, name, points);
    var front := ". " + name;
    var back := " - " + q + " points\n";
    assert line == r + front + back;
    assert line[..|r|] == r;
    assert line[|r|..|r| + 2] == front[..2] == ". ";
    assert line[|r| + 2..|r| + 2 + |name|] == front[2..] == name;
    var head := r + ". " + name + " - ";
    assert line == head + (q + " points\n");
    assert |line| - 8 - |q| == |head|;
    assert line[|head|..|line| - 8] == q;
    assert line[|line| - 8..] == " points\n";
  }

  /** The lines for rows, numbered from `rank` on; empty exactly when there are no rows. */
  function BoardLines(rows: seq<Row>, lookup: int -> Option<string>, rank: int): (text: string)
    ensures text == "" <==> rows == []
    decreases |rows|
  {
    if rows == [] then ""
    else
      BoardLine(rank, DisplayName(lookup(rows[0].userId)), rows[0].points)
      + BoardLines(rows[1..], lookup, rank + 1)
  }

  /**
   * The whole leaderboard reply for the rows the query returned: the fixed
   * message when there are none, otherwise the header and then the lines.
   */
  function LeaderboardMessage(rows: seq<Row>, lookup: int -> Option<string>): (msg: string)
    ensures msg == EmptyBoard <==> rows == []
  {
    if rows == [] then EmptyBoard
    else
      var m := Header + BoardLines(rows, lookup, 1);
      assert m[0] == Header[0] != EmptyBoard[0];
      m
  }

  /** The lines of a + b are those of a followed by those of b, numbering carried on. */
  lemma {:induction false} BoardLinesAppend(a: seq<Row>, b: seq<Row>, lookup: int -> Option<string>, rank: int)
    ensures BoardLines(a + b, lookup, rank) == BoardLines(a, lookup, rank) + BoardLines(b, lookup, rank + |a|)
    decreases |a|
  {
    if a == [] {
      assert a + b == b;
    } else {
      var ab := a + b;
      assert ab[0] == a[0] && ab[1..] == a[1..] + b;
      var line := BoardLine(rank, DisplayName(lookup(a[0].userId)), a[0].points);
      var restA := BoardLines(a[1..], lookup, rank + 1);
      var linesB := BoardLines(b, lookup, rank + |a|);
      assert BoardLines(ab, lookup, rank) == line + BoardLines(a[1..] + b, lookup, rank + 1);
      BoardLinesAppend(a[1..], b, lookup, rank + 1);
      AppendAssoc(line, restA, linesB);
    }
  }

  /** A single row renders as its one line. */
  lemma BoardLinesSingle(r: Row, lookup: int -> Option<string>, rank: int)
    ensures BoardLines([r], lookup, rank) == BoardLine(rank, DisplayName(lookup(r.userId)), r.points)
  {
    assert [r][1..] == [];
    var line := BoardLine(rank, DisplayName(lookup(r.userId)), r.points);
    assert line + "" == line;
  }

  /** Rendering one more row appends its line. */
  lemma BoardLinesSnoc(rows: seq<Row>, lookup: int -> Option<string>, i: int)
    requires 0 <= i < |rows|
    ensures BoardLines(rows[..i + 1], lookup, 1)
      == BoardLines(rows[..i], lookup, 1) + BoardLine(i + 1, DisplayName(lookup(rows[i].userId)), rows[i].points)
  {
    assert rows[..i + 1] == rows[..i] + [rows[i]];
    BoardLinesAppend(rows[..i], [rows[i]], lookup, 1);
    BoardLinesSingle(rows[i], lookup, i + 1);
  }

  /** String concatenation regroups freely. */
  lemma AppendAssoc(a: string, b: string, c: string)
    ensures (a + b) + c == a + (b + c)
  {
  }

  /**
   * Row i of a non-empty leaderboard is rendered, after the header and the lines
   * of the rows before it, as line number i + 1 with the looked-up name (or
   * "Unknown User") and the row's points.
   */
  lemma BoardLineAt(rows: seq<Row>, lookup: int -> Option<string>, i: int)
    requires 0 <= i < |rows|
    ensures LeaderboardMessage(rows, lookup)
      == Header + (BoardLines(rows[..i], lookup, 1)
         + (BoardLine(i + 1, DisplayName(lookup(rows[i].userId)), rows[i].points)
         + BoardLines(rows[i + 1..], lookup, i + 2)))
    ensures lookup(rows[i].userId).None? ==> DisplayName(lookup(rows[i].userId)) == UnknownUser
  {
    var before, after := rows[..i], rows[i + 1..];
    assert rows == before + ([rows[i]] + after);
    BoardLinesAppend(before, [rows[i]] + after, lookup, 1);
    BoardLinesAppend([rows[i]], after, lookup, i + 1);
    BoardLinesSingle(rows[i], lookup, i + 1);
  }

  /** The leaderboard says "No points have been recorded yet." exactly when the table has no rows. */
  lemma EmptyBoardIffEmptyTable(t: Table, lookup: int -> Option<string>)
    ensures LeaderboardMessage(TopRows(t, DefaultLimit), lookup) == EmptyBoard <==> |t| == 0
  {
    var rows := TopRows(t, DefaultLimit);
    assert |rows| == (if |t| <= DefaultLimit then |t| else DefaultLimit);
  }

  /** mypoints: the caller's balance, creating a zero row for a new caller. */
  method MyPoints(db: DatabaseManager, caller: int) returns (p: int)
    requires db.tableExists
    modifies db`table
    ensures p == Balance(old(db.table), caller)
    ensures db.table == Touch(old(db.table), caller)
  {
    p := db.GetPoints(caller);
  }

  /** addpoints: update_points with the given amount, no floor. */
  method AddPoints(db: DatabaseManager, member: int, points: int)
    requires db.tableExists
    modifies db`table
    ensures db.table == Add(old(db.table), member, points)
  {
    var _ := db.UpdatePoints(member, points);
  }

  /** removepoints: read the balance, clamp `current - points` at 0, overwrite. */
  method RemovePoints(db: DatabaseManager, member: int, points: int) returns (newAmount: int)
    requires db.tableExists
    modifies db`table
    ensures newAmount >= 0
    ensures newAmount == RevokedBalance(Balance(old(db.table), member), points)
    ensures db.table == Revoke(old(db.table), member, points)
  {
    var current := db.GetPoints(member);
    newAmount := RevokedBalance(current, points);
    db.SetPoints(member, newAmount);
  }

  /** leaderboard: the top DefaultLimit rows of the store, rendered. */
  method LeaderboardCommand(db: DatabaseManager, lookup: int -> Option<string>) returns (msg: string)
    requires db.tableExists
    ensures msg == LeaderboardMessage(db.GetLeaderboard(DefaultLimit), lookup)
  {
    var rows := db.GetLeaderboard(DefaultLimit);
    msg := RenderLeaderboard(rows, lookup);
  }

  /** The loop of the leaderboard handler: header, then one line per row appended in turn. */
  method RenderLeaderboard(rows: seq<Row>, lookup: int -> Option<string>) returns (msg: string)
    ensures msg == LeaderboardMessage(rows, lookup)
  {
    if |rows| > 0 {
      msg := Header;
      var i := 0;
      assert rows[..0] == [];
      assert Header + "" == Header;
      while i < |rows|
        invariant 0 <= i <= |rows|
        invariant msg == Header + BoardLines(rows[..i], lookup, 1)
      {
        var name := DisplayName(lookup(rows[i].userId));
        BoardLinesSnoc(rows, lookup, i);
        AppendAssoc(Header, BoardLines(rows[..i], lookup, 1), BoardLine(i + 1, name, rows[i].points));
        msg := msg + BoardLine(i + 1, name, rows[i].points);
        i := i + 1;
      }
      assert rows[..|rows|] == rows;
    } else {
      msg := EmptyBoard;
    }
  }

  /**
   * A new user A: granting 50 gives 50, revoking 70 then stores 0 (not -20),
   * and when A is the only row the leaderboard shows A at rank 1 with 0 points.
   */
  lemma GrantRevokeScenario(a: int, lookup: int -> Option<string>)
    ensures Balance(map[], a) == 0
    ensures Balance(Add(map[], a, 50), a) == 50
    ensures Revoke(Add(map[], a, 50), a, 70) == map[a := 0]
    ensures TopRows(map[a := 0], DefaultLimit) == [Row(a, 0)]
    ensures LeaderboardMessage(TopRows(map[a := 0], DefaultLimit), lookup)
      == "**Leaderboard:**\n1. " + DisplayName(lookup(a)) + " - 0 points\n"
  {
    var t := map[a := 0];
    assert Revoke(Add(map[], a, 50), a, 70) == t;
    OnlyRowTopRows(a);
    SingleZeroRowMessage(a, lookup);
  }

  /** A table with one row gives that row as the whole leaderboard. */
  lemma OnlyRowTopRows(a: int)
    ensures TopRows(map[a := 0], DefaultLimit) == [Row(a, 0)]
  {
    var t := map[a := 0];
    var rows := TopRows(t, DefaultLimit);
    assert |t| == 1;
    assert rows[0].userId in t;
  }

  /** The reply for one row with 0 points. */
  lemma SingleZeroRowMessage(a: int, lookup: int -> Option<string>)
    ensures LeaderboardMessage([Row(a, 0)], lookup)
      == "**Leaderboard:**\n1. " + DisplayName(lookup(a)) + " - 0 points\n"
  {
    var name := DisplayName(lookup(a));
    BoardLinesSingle(Row(a, 0), lookup, 1);
    assert IntToString(1) == "1" && IntToString(0) == "0";
    var tail := " - 0 points\n";
    assert " - " + "0" + " points\n" == tail;
    assert BoardLine(1, name, 0) == ("1" + ". ") + name + tail;
    assert "1" + ". " == "1. ";
    AppendAssoc(Header, "1. " + name, tail);
    AppendAssoc(Header, "1. ", name);
    assert Header + "1. " == "**Leaderboard:**\n1. ";
  }
}
