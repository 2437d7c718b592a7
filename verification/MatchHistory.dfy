/**
 An account's match history: newest first, page by page, with a printed cursor
 that names the last row of a page. Walking the pages is compared with the
 whole history sorted at once.
 */
module MatchHistory {
  import opened Common
  import opened MatchRecords
  import Decimals

  const MAX_SAFE_INTEGER := 9007199254740991
  const PAGE_SIZE := 50
  const MAX_EXPORTED := 10000
  const ID_LENGTH := 24

  datatype Key = Key(finishedAt: nat, id: string)

  /** One participant row of the account, with the match it belongs to. */
  datatype Row = Row(m: Match, seat: Seat)

  datatype Opponents = Players | Bots
  datatype Filters = Filters(opponent: Option<Opponents>, format: Option<Format>, heroId: Option<string>)

  /** The conjuncts of the query's WHERE clause. */
  datatype Condition = Mine(user: nat) | Mode(bot: bool) | InFormat(format: Format) | WithHero(heroId: string) | Before(key: Key)

  datatype Parsed = NoCursor | Malformed | Cursor(key: Key)

  function KeyOf(row: Row): Key { Key(row.m.finishedAt, row.m.id) }

  // ---------------------------------------------------------------- cursor text

  predicate IsHexDigit(c: char) { '0' <= c <= '9' || 'a' <= c <= 'f' }

  predicate IsId(s: string) { |s| == ID_LENGTH && forall i | 0 <= i < |s| :: IsHexDigit(s[i]) }

  function PrintCursor(key: Key): string { Decimals.Print(key.finishedAt) + "." + key.id }

  /** One to sixteen digits, a dot, and twenty-four lower-case hex digits. */
  predicate HasCursorShape(s: string) {
    && ID_LENGTH + 2 <= |s| <= ID_LENGTH + 17
    && s[|s| - ID_LENGTH - 1] == '.'
    && Decimals.AllDigits(s[..|s| - ID_LENGTH - 1])
    && IsId(s[|s| - ID_LENGTH..])
  }

  function ParseCursor(value: Option<string>): Parsed {
    if value.None? || value.value == "" then NoCursor
    else
      var s := value.value;
      if !HasCursorShape(s) then Malformed
      else
        var finishedAt := Decimals.Value(s[..|s| - ID_LENGTH - 1]);
        if finishedAt <= MAX_SAFE_INTEGER then Cursor(Key(finishedAt, s[|s| - ID_LENGTH..])) else Malformed
  }

  /** A key that a stored match can have. */
  predicate Storable(key: Key) { key.finishedAt <= MAX_SAFE_INTEGER && IsId(key.id) }

  lemma PowerOf16()
    ensures MAX_SAFE_INTEGER < Decimals.Power(16)
  {
    assert Decimals.Power(4) == 10000;
    assert Decimals.Power(8) == 100000000;
    assert Decimals.Power(12) == 1000000000000;
    assert Decimals.Power(16) == 10000000000000000;
  }

  /** The printed cursor parses back to itself exactly for keys a stored match can have; any other
      key prints as a malformed cursor, never as some other key. */
  lemma CursorRoundTrip(key: Key)
    ensures ParseCursor(Some(PrintCursor(key))) == if Storable(key) then Cursor(key) else Malformed
  {
    var digits := Decimals.Print(key.finishedAt);
    var s := PrintCursor(key);
    Decimals.ValueOfPrint(key.finishedAt);
    assert s[|digits|] == '.';
    if HasCursorShape(s) {
      // the only dot sits right after the digits
      assert forall i | 0 <= i < |s| - ID_LENGTH - 1 :: s[..|s| - ID_LENGTH - 1][i] == s[i];
      assert forall i | |s| - ID_LENGTH <= i < |s| :: s[|s| - ID_LENGTH..][i - |s| + ID_LENGTH] == s[i];
      assert |key.id| == ID_LENGTH;
    }
    if |key.id| == ID_LENGTH {
      assert s[..|s| - ID_LENGTH - 1] == digits;
      assert s[|s| - ID_LENGTH..] == key.id;
      if key.finishedAt <= MAX_SAFE_INTEGER {
        PowerOf16();
        Decimals.PrintIsShort(key.finishedAt, 16);
      }
    }
  }

  /** What is accepted as a cursor: one to sixteen digits of a safe integer, a dot, and an id. */
  lemma CursorsAccepted(s: string, digits: string, id: string)
    requires s == digits + "." + id && IsId(id)
    ensures ParseCursor(Some(s)).Cursor? <==>
      1 <= |digits| <= 16 && Decimals.AllDigits(digits) && Decimals.Value(digits) <= 9007199254740991
    ensures ParseCursor(Some(s)).Cursor? ==> ParseCursor(Some(s)).key == Key(Decimals.Value(digits), id)
  {
    assert s[..|s| - ID_LENGTH - 1] == digits && s[|s| - ID_LENGTH..] == id && s[|digits|] == '.';
  }

  lemma OnlySuchCursors(s: string)
    requires ParseCursor(Some(s)).Cursor?
    ensures |s| >= 26 && s == s[..|s| - 25] + "." + s[|s| - 24..] && IsId(s[|s| - 24..])
  {
    assert s == s[..|s| - 25] + [s[|s| - 25]] + s[|s| - 24..];
  }

  // ---------------------------------------------------------------- the order of the list

  predicate Less(a: string, b: string) {
    b != [] && (a == [] || a[0] < b[0] || (a[0] == b[0] && Less(a[1..], b[1..])))
  }

  predicate Older(a: Key, b: Key) { a.finishedAt < b.finishedAt || (a.finishedAt == b.finishedAt && Less(a.id, b.id)) }

  /** At the first difference the one that ends or has the smaller character comes first. */
  ghost predicate Precedes(a: string, b: string) { exists k :: 0 <= k <= |a| && DiffersAt(a, b, k) }

  predicate DiffersAt(a: string, b: string, k: nat)
    requires k <= |a|
  {
    k < |b| && (forall i | 0 <= i < k :: a[i] == b[i]) && (k == |a| || a[k] < b[k])
  }

  lemma {:induction false} LessMeans(a: string, b: string)
    ensures Less(a, b) <==> Precedes(a, b)
  {
    if a == [] {
      if b != [] { assert DiffersAt(a, b, 0); }
    } else if b != [] {
      LessMeans(a[1..], b[1..]);
      if a[0] < b[0] { assert DiffersAt(a, b, 0); }
      if a[0] == b[0] {
        forall k | 0 < k <= |a| ensures DiffersAt(a, b, k) <==> DiffersAt(a[1..], b[1..], k - 1) { DiffersInTail(a, b, k); }
        if k :| 0 <= k <= |a[1..]| && DiffersAt(a[1..], b[1..], k) { assert DiffersAt(a, b, k + 1); }
      }
    }
  }

  lemma DiffersInTail(a: string, b: string, k: nat)
    requires 0 < k <= |a| && b != [] && a[0] == b[0]
    ensures DiffersAt(a, b, k) <==> DiffersAt(a[1..], b[1..], k - 1)
  {
    assert forall i | 0 < i < k && i < |b| :: a[i] == a[1..][i - 1] && b[i] == b[1..][i - 1];
    if DiffersAt(a[1..], b[1..], k - 1) {
      forall i | 0 <= i < k ensures a[i] == b[i] {
        if i > 0 { assert a[1..][i - 1] == b[1..][i - 1]; }
      }
    }
  }

  /** The list's order: earlier finishes are older, and of equal ones the id that comes first in the alphabet. */
  lemma OlderMeans(a: Key, b: Key)
    ensures Older(a, b) <==> a.finishedAt < b.finishedAt || (a.finishedAt == b.finishedAt && Precedes(a.id, b.id))
  {
    LessMeans(a.id, b.id);
  }

  lemma {:induction false} LessIsTotal(a: string, b: string)
    ensures a == b ==> !Less(a, b)
    ensures a != b ==> (Less(a, b) <==> !Less(b, a))
  {
    if a != [] && b != [] {
      LessIsTotal(a[1..], b[1..]);
      HeadAndTail(a[0], a[1..]);
      assert a == [a[0]] + a[1..] && b == [b[0]] + b[1..];
    }
  }

  lemma {:induction false} LessTransitive(a: string, b: string, c: string)
    ensures Less(a, b) && Less(b, c) ==> Less(a, c)
  {
    if a != [] && b != [] && c != [] {
      LessTransitive(a[1..], b[1..], c[1..]);
    }
  }

  lemma OlderIsTotal(a: Key, b: Key)
    ensures a == b ==> !Older(a, b)
    ensures a != b ==> (Older(a, b) <==> !Older(b, a))
  {
    LessIsTotal(a.id, b.id);
  }

  lemma OlderTransitive(a: Key, b: Key, c: Key)
    ensures Older(a, b) && Older(b, c) ==> Older(a, c)
    ensures !Older(a, b) && !Older(b, c) ==> !Older(a, c)
  {
    LessTransitive(a.id, b.id, c.id);
    LessTransitive(c.id, b.id, a.id);
    LessIsTotal(a.id, b.id);
    LessIsTotal(b.id, c.id);
    LessIsTotal(a.id, c.id);
  }

  predicate NewestFirst(s: seq<Row>) { forall i, j | 0 <= i < j < |s| :: !Older(KeyOf(s[i]), KeyOf(s[j])) }

  predicate StrictlyNewestFirst(s: seq<Row>) { forall i, j | 0 <= i < j < |s| :: Older(KeyOf(s[j]), KeyOf(s[i])) }

  predicate Distinct(s: seq<Row>) { forall i, j | 0 <= i < j < |s| :: s[i] != s[j] }

  function Insert(row: Row, s: seq<Row>): seq<Row> {
    if s == [] || !Older(KeyOf(row), KeyOf(s[0])) then [row] + s else [s[0]] + Insert(row, s[1..])
  }

  /** ORDER BY finished_at DESC, id DESC. */
  function Ordered(s: seq<Row>): seq<Row> {
    if s == [] then [] else Insert(s[0], Ordered(s[1..]))
  }

  // ---------------------------------------------------------------- the query

  predicate Holds(row: Row, c: Condition) {
    match c
    case Mine(user) => At(row.m, row.seat).userId == Some(user)
    case Mode(bot) => row.m.botMode == bot
    case InFormat(format) => row.m.format == format
    case WithHero(heroId) => At(row.m, row.seat).heroId == heroId
    case Before(key) => Older(KeyOf(row), key)
  }

  predicate Satisfies(row: Row, where: seq<Condition>) { forall i | 0 <= i < |where| :: Holds(row, where[i]) }

  function Keep(rows: seq<Row>, where: seq<Condition>): seq<Row> {
    if rows == [] then []
    else if Satisfies(rows[0], where) then [rows[0]] + Keep(rows[1..], where)
    else Keep(rows[1..], where)
  }

  function Rows(table: seq<Match>): seq<Row> {
    if table == [] then [] else [Row(table[0], First), Row(table[0], Second)] + Rows(table[1..])
  }

  /** SELECT … WHERE … ORDER BY … without a limit. */
  function Select(table: seq<Match>, where: seq<Condition>): seq<Row> { Ordered(Keep(Rows(table), where)) }

  /** What the caller asked to see, without regard to paging. */
  predicate Wanted(row: Row, user: nat, filters: Filters) {
    && At(row.m, row.seat).userId == Some(user)
    && (filters.opponent.Some? ==> row.m.botMode == filters.opponent.value.Bots?)
    && (filters.format.Some? ==> row.m.format == filters.format.value)
    && (filters.heroId.Some? && filters.heroId.value != "" ==> At(row.m, row.seat).heroId == filters.heroId.value)
  }

  function Conditions(user: nat, filters: Filters): seq<Condition> {
    [Mine(user)]
    + (if filters.opponent.Some? then [Mode(filters.opponent.value.Bots?)] else [])
    + (if filters.format.Some? then [InFormat(filters.format.value)] else [])
    + (if filters.heroId.Some? && filters.heroId.value != "" then [WithHero(filters.heroId.value)] else [])
  }

  function History(table: seq<Match>, user: nat, filters: Filters): seq<Row> { Select(table, Conditions(user, filters)) }

  function PageLimit(limit: Option<int>): nat {
    var n := if limit.Some? then limit.value else PAGE_SIZE;
    if n < 1 then 1 else if n > MAX_EXPORTED then MAX_EXPORTED else n
  }

  /** The page size: the default without a limit, and otherwise the allowed size nearest to the one asked for. */
  lemma PageSizes(limit: Option<int>)
    ensures 1 <= PageLimit(limit) <= 10000
    ensures limit.None? ==> PageLimit(limit) == 50
    ensures limit.Some? && 1 <= limit.value <= 10000 ==> PageLimit(limit) == limit.value
    ensures limit.Some? && limit.value < 1 ==> PageLimit(limit) == 1
    ensures limit.Some? && limit.value > 10000 ==> PageLimit(limit) == 10000
  {
  }

  /** The rows a page is cut from. */
  function Remaining(table: seq<Match>, user: nat, filters: Filters, cursor: Option<Key>): seq<Row> {
    Select(table, Conditions(user, filters) + (if cursor.Some? then [Before(cursor.value)] else []))
  }

  function CutPage(rows: seq<Row>, limit: nat): (seq<Row>, Option<string>)
    requires limit > 0
  {
    if |rows| > limit then (rows[..limit], Some(PrintCursor(KeyOf(rows[limit - 1])))) else (rows, None)
  }

  /** A page is the first rows, as many as the limit allows, and names its last row exactly when more remain. */
  lemma PageMeans(rows: seq<Row>, limit: nat)
    requires limit > 0
    ensures var (page, next) := CutPage(rows, limit);
      && page <= rows && |page| == (if |rows| < limit then |rows| else limit) && (next.None? <==> page == rows)
      && (next.Some? ==> page != [] && next.value == PrintCursor(Key(page[|page| - 1].m.finishedAt, page[|page| - 1].m.id)))
  {
  }

  /** One request: read at most one row more than the page holds, and only then know there is a next page. */
  method ListMatches(table: seq<Match>, user: nat, filters: Filters, cursor: Option<Key>, limit: Option<int>)
    returns (page: seq<Row>, nextCursor: Option<string>)
    ensures (page, nextCursor) == CutPage(Remaining(table, user, filters, cursor), PageLimit(limit))
  {
    var max := PageLimit(limit);
    var where := WhereClause(user, filters);
    if cursor.Some? { where := where + [Before(cursor.value)]; }
    assert where == Conditions(user, filters) + if cursor.Some? then [Before(cursor.value)] else [];
    var found := Select(table, where);
    var rows := if |found| > max + 1 then found[..max + 1] else found;
    page := if |rows| > max then rows[..max] else rows;
    nextCursor := if |rows| > max then Some(PrintCursor(KeyOf(page[|page| - 1]))) else None;
    assert |found| > max ==> page == found[..max];
  }

  /** The conditions without the cursor, pushed one after the other. */
  method WhereClause(user: nat, filters: Filters) returns (where: seq<Condition>)
    ensures where == Conditions(user, filters)
  {
    where := [Mine(user)];
    if filters.opponent == Some(Players) { where := where + [Mode(false)]; }
    if filters.opponent == Some(Bots) { where := where + [Mode(true)]; }
    if filters.format.Some? { where := where + [InFormat(filters.format.value)]; }
    if filters.heroId.Some? && filters.heroId.value != "" { where := where + [WithHero(filters.heroId.value)]; }
  }

  // ---------------------------------------------------------------- the history is the sorted selection

  lemma {:induction false} InsertFacts(row: Row, s: seq<Row>)
    requires NewestFirst(s)
    ensures NewestFirst(Insert(row, s))
    ensures forall x :: x in Insert(row, s) <==> x == row || x in s
    ensures |Insert(row, s)| == |s| + 1
    ensures Distinct(s) && row !in s ==> Distinct(Insert(row, s))
  {
    if s != [] && Older(KeyOf(row), KeyOf(s[0])) {
      InsertFacts(row, s[1..]);
      var rest := Insert(row, s[1..]);
      assert s == [s[0]] + s[1..];
      OlderIsTotal(KeyOf(row), KeyOf(s[0]));
      forall j | 0 <= j < |rest| ensures !Older(KeyOf(s[0]), KeyOf(rest[j])) {
        assert rest[j] == row || rest[j] in s[1..];
      }
      if Distinct(s) && row !in s {
        forall j | 0 <= j < |rest| ensures s[0] != rest[j] {
          assert rest[j] == row || rest[j] in s[1..];
        }
      }
    } else {
      forall j | 0 <= j < |s| ensures !Older(KeyOf(row), KeyOf(s[j])) {
        if j > 0 { OlderTransitive(KeyOf(row), KeyOf(s[0]), KeyOf(s[j])); }
      }
    }
  }

  lemma {:induction false} OrderedFacts(s: seq<Row>)
    ensures NewestFirst(Ordered(s))
    ensures forall x :: x in Ordered(s) <==> x in s
    ensures Distinct(s) ==> Distinct(Ordered(s))
  {
    if s != [] {
      OrderedFacts(s[1..]);
      InsertFacts(s[0], Ordered(s[1..]));
      assert s == [s[0]] + s[1..];
    }
  }

  lemma {:induction false} KeepFacts(rows: seq<Row>, where: seq<Condition>)
    ensures forall x :: x in Keep(rows, where) <==> x in rows && Satisfies(x, where)
    ensures Distinct(rows) ==> Distinct(Keep(rows, where))
  {
    if rows != [] {
      KeepFacts(rows[1..], where);
      assert rows == [rows[0]] + rows[1..];
    }
  }

  lemma {:induction false} RowsFacts(table: seq<Match>)
    ensures forall x :: x in Rows(table) <==> x.m in table
    ensures RowsApart(table) ==> Distinct(Rows(table))
  {
    if table != [] {
      RowsFacts(table[1..]);
      assert table == [table[0]] + table[1..];
      forall x: Row ensures x in Rows(table) <==> x.m in table {
        var two := [Row(table[0], First), Row(table[0], Second)];
        assert x.seat == First || x.seat == Second;
        assert two[0] in two && two[1] in two;
        assert x == Row(x.m, x.seat);
      }
      if RowsApart(table) {
        forall x | x in Rows(table[1..]) ensures x.m != table[0] {
          var i :| 0 <= i < |table[1..]| && table[1..][i] == x.m;
          assert Apart(table[0], table[i + 1]);
        }
      }
    }
  }

  lemma ConditionsMeanWanted(row: Row, user: nat, filters: Filters)
    ensures Satisfies(row, Conditions(user, filters)) <==> Wanted(row, user, filters)
  {
    var where := Conditions(user, filters);
    assert where[0] == Mine(user);
    if filters.opponent.Some? { assert where[1] == Mode(filters.opponent.value.Bots?); }
    var n := if filters.opponent.Some? then 2 else 1;
    if filters.format.Some? { assert where[n] == InFormat(filters.format.value); }
    if filters.heroId.Some? && filters.heroId.value != "" { assert where[|where| - 1] == WithHero(filters.heroId.value); }
  }

  /** The history holds exactly the rows asked for, each once, newest first. */
  lemma HistoryIsComplete(table: seq<Match>, user: nat, filters: Filters)
    requires RowsApart(table)
    ensures var all := History(table, user, filters);
      && NewestFirst(all) && Distinct(all)
      && forall x: Row :: x in all <==> x.m in table && Wanted(x, user, filters)
  {
    var where := Conditions(user, filters);
    RowsFacts(table);
    KeepFacts(Rows(table), where);
    OrderedFacts(Keep(Rows(table), where));
    forall x: Row ensures x in History(table, user, filters) <==> x.m in table && Wanted(x, user, filters) {
      ConditionsMeanWanted(x, user, filters);
    }
  }

  // ---------------------------------------------------------------- a cursor cuts the history

  function OlderThan(s: seq<Row>, key: Key): seq<Row> {
    if s == [] then []
    else if Older(KeyOf(s[0]), key) then [s[0]] + OlderThan(s[1..], key)
    else OlderThan(s[1..], key)
  }

  lemma {:induction false} OlderThanFacts(s: seq<Row>, key: Key)
    ensures forall x :: x in OlderThan(s, key) <==> x in s && Older(KeyOf(x), key)
    ensures |OlderThan(s, key)| <= |s|
    ensures forall x :: x in s && !Older(KeyOf(x), key) ==> |OlderThan(s, key)| < |s|
  {
    if s != [] {
      OlderThanFacts(s[1..], key);
      assert s == [s[0]] + s[1..];
    }
  }

  lemma {:induction false} OlderThanAll(s: seq<Row>, key: Key)
    requires forall i | 0 <= i < |s| :: Older(KeyOf(s[i]), key)
    ensures OlderThan(s, key) == s
  {
    if s != [] {
      OlderThanAll(s[1..], key);
    }
  }

  lemma {:induction false} KeepThenCut(rows: seq<Row>, where: seq<Condition>, key: Key)
    ensures Keep(rows, where + [Before(key)]) == OlderThan(Keep(rows, where), key)
  {
    if rows != [] {
      KeepThenCut(rows[1..], where, key);
      var longer := where + [Before(key)];
      assert longer[|where|] == Before(key);
      assert forall i | 0 <= i < |where| :: longer[i] == where[i];
      assert Satisfies(rows[0], longer) <==> Satisfies(rows[0], where) && Older(KeyOf(rows[0]), key);
      if Satisfies(rows[0], where) { HeadAndTail(rows[0], Keep(rows[1..], where)); }
    }
  }

  lemma {:induction false} CutInsert(row: Row, s: seq<Row>, key: Key)
    requires NewestFirst(s)
    ensures OlderThan(Insert(row, s), key) ==
            if Older(KeyOf(row), key) then Insert(row, OlderThan(s, key)) else OlderThan(s, key)
  {
    if s != [] && Older(KeyOf(row), KeyOf(s[0])) {
      CutInsert(row, s[1..], key);
      HeadAndTail(s[0], Insert(row, s[1..]));
      OlderTransitive(KeyOf(row), KeyOf(s[0]), key);
      HeadAndTail(s[0], OlderThan(s[1..], key));
    } else {
      HeadAndTail(row, s);
      var rest := OlderThan(s, key);
      OlderThanFacts(s, key);
      if rest != [] {
        assert rest[0] in s;
        var j :| 0 <= j < |s| && s[j] == rest[0];
        if j > 0 { OlderTransitive(KeyOf(row), KeyOf(s[0]), KeyOf(s[j])); }
      }
    }
  }

  lemma {:induction false} CutOrdered(s: seq<Row>, key: Key)
    ensures Ordered(OlderThan(s, key)) == OlderThan(Ordered(s), key)
  {
    if s != [] {
      CutOrdered(s[1..], key);
      OrderedFacts(s[1..]);
      CutInsert(s[0], Ordered(s[1..]), key);
      HeadAndTail(s[0], OlderThan(s[1..], key));
    }
  }

  /** Asking with a cursor is cutting the whole history at that key. */
  lemma CursorCutsHistory(table: seq<Match>, user: nat, filters: Filters, key: Key)
    ensures Remaining(table, user, filters, Some(key)) == OlderThan(History(table, user, filters), key)
  {
    var where := Conditions(user, filters);
    KeepThenCut(Rows(table), where, key);
    CutOrdered(Keep(Rows(table), where), key);
  }

  lemma WithoutCursor(table: seq<Match>, user: nat, filters: Filters)
    ensures Remaining(table, user, filters, None) == History(table, user, filters)
  {
    assert Conditions(user, filters) + [] == Conditions(user, filters);
  }

  lemma {:induction false} CutTwice(s: seq<Row>, near: Key, far: Key)
    requires Older(far, near)
    ensures OlderThan(OlderThan(s, near), far) == OlderThan(s, far)
  {
    if s != [] {
      CutTwice(s[1..], near, far);
      OlderTransitive(KeyOf(s[0]), far, near);
      if Older(KeyOf(s[0]), near) { HeadAndTail(s[0], OlderThan(s[1..], near)); }
    }
  }

  /** In a list without repeated keys, the rows after the n-th are those older than it. */
  lemma {:induction false} CutAtRow(s: seq<Row>, n: nat)
    requires StrictlyNewestFirst(s) && 0 < n <= |s|
    ensures OlderThan(s, KeyOf(s[n - 1])) == s[n..]
  {
    var key := KeyOf(s[n - 1]);
    OlderIsTotal(KeyOf(s[0]), key);
    if n == 1 {
      OlderThanAll(s[1..], key);
    } else {
      CutAtRow(s[1..], n - 1);
      assert s[1..][n - 1..] == s[n..];
    }
  }

  // ---------------------------------------------------------------- following nextCursor

  /** Rows that came out of this system: ids of 24 hex digits, finish times that are safe integers. */
  predicate WellFormedTable(table: seq<Match>) {
    RowsApart(table) && forall m :: m in table ==> Storable(Key(m.finishedAt, m.id))
  }

  function RemainingAt(table: seq<Match>, user: nat, filters: Filters, cursor: Option<string>): seq<Row>
    requires !ParseCursor(cursor).Malformed?
  {
    var parsed := ParseCursor(cursor);
    Remaining(table, user, filters, if parsed.Cursor? then Some(parsed.key) else None)
  }

  /** The printed cursor of a page is accepted again and leaves strictly fewer rows: those of this
      request that are older than the page's last row. */
  lemma NextRequest(table: seq<Match>, user: nat, filters: Filters, cursor: Option<string>, limit: nat)
    requires WellFormedTable(table) && !ParseCursor(cursor).Malformed? && limit > 0
    requires |RemainingAt(table, user, filters, cursor)| > limit
    ensures var rows := RemainingAt(table, user, filters, cursor);
      var last := KeyOf(rows[limit - 1]);
      var next := CutPage(rows, limit).1;
      && next.Some? && ParseCursor(next) == Cursor(last)
      && RemainingAt(table, user, filters, next) == OlderThan(rows, last)
      && |RemainingAt(table, user, filters, next)| < |rows|
  {
    var all := History(table, user, filters);
    var rows := RemainingAt(table, user, filters, cursor);
    var row := rows[limit - 1];
    var last := KeyOf(row);
    HistoryIsComplete(table, user, filters);
    WithoutCursor(table, user, filters);
    if ParseCursor(cursor).Cursor? {
      CursorCutsHistory(table, user, filters, ParseCursor(cursor).key);
      OlderThanFacts(all, ParseCursor(cursor).key);
      assert row in rows;
      CutTwice(all, ParseCursor(cursor).key, last);
    }
    assert row in all;
    CursorRoundTrip(last);
    CursorCutsHistory(table, user, filters, last);
    OlderThanFacts(rows, last);
    OlderIsTotal(last, last);
  }

  /** All pages from a cursor until there is no next one. */
  function Walk(table: seq<Match>, user: nat, filters: Filters, cursor: Option<string>, limit: nat): seq<Row>
    requires WellFormedTable(table) && !ParseCursor(cursor).Malformed? && limit > 0
    decreases |RemainingAt(table, user, filters, cursor)|
  {
    var (page, next) := CutPage(RemainingAt(table, user, filters, cursor), limit);
    if next.None? then page
    else
      NextRequest(table, user, filters, cursor, limit);
      page + Walk(table, user, filters, next, limit)
  }

  lemma {:induction false} WalkVisitsAll(table: seq<Match>, user: nat, filters: Filters, cursor: Option<string>, limit: nat)
    requires WellFormedTable(table) && !ParseCursor(cursor).Malformed? && limit > 0
    requires StrictlyNewestFirst(RemainingAt(table, user, filters, cursor))
    ensures Walk(table, user, filters, cursor, limit) == RemainingAt(table, user, filters, cursor)
    decreases |RemainingAt(table, user, filters, cursor)|
  {
    var rows := RemainingAt(table, user, filters, cursor);
    if |rows| > limit {
      NextRequest(table, user, filters, cursor, limit);
      CutAtRow(rows, limit);
      WalkVisitsAll(table, user, filters, CutPage(rows, limit).1, limit);
    }
  }

  lemma {:induction false} SmallPagesAreStrict(table: seq<Match>, user: nat, filters: Filters, cursor: Option<string>)
    requires WellFormedTable(table) && !ParseCursor(cursor).Malformed?
    ensures var walked := Walk(table, user, filters, cursor, 1);
      && StrictlyNewestFirst(walked)
      && forall x :: x in walked ==> x in RemainingAt(table, user, filters, cursor)
    decreases |RemainingAt(table, user, filters, cursor)|
  {
    var rows := RemainingAt(table, user, filters, cursor);
    if |rows| > 1 {
      NextRequest(table, user, filters, cursor, 1);
      var next := CutPage(rows, 1).1;
      SmallPagesAreStrict(table, user, filters, next);
      OlderThanFacts(rows, KeyOf(rows[0]));
    }
  }

  predicate SelfMatch(m: Match, user: nat, filters: Filters) {
    Wanted(Row(m, First), user, filters) && Wanted(Row(m, Second), user, filters)
  }

  /** Two different rows with one key are the two seats of one match. */
  lemma EqualKeys(table: seq<Match>, x: Row, y: Row)
    requires RowsApart(table) && x.m in table && y.m in table && x != y && KeyOf(x) == KeyOf(y)
    ensures x.m == y.m && x.seat != y.seat
  {
    var a :| 0 <= a < |table| && table[a] == x.m;
    var b :| 0 <= b < |table| && table[b] == y.m;
    assert a == b;
  }

  lemma SelfMatchTies(table: seq<Match>, user: nat, filters: Filters, m: Match)
    requires RowsApart(table) && m in table && SelfMatch(m, user, filters)
    ensures !StrictlyNewestFirst(History(table, user, filters))
  {
    var all := History(table, user, filters);
    HistoryIsComplete(table, user, filters);
    assert Row(m, First) in all && Row(m, Second) in all;
    var i :| 0 <= i < |all| && all[i] == Row(m, First);
    var j :| 0 <= j < |all| && all[j] == Row(m, Second);
    OlderIsTotal(KeyOf(all[i]), KeyOf(all[j]));
    assert !Older(KeyOf(all[i]), KeyOf(all[j])) && !Older(KeyOf(all[j]), KeyOf(all[i]));
  }

  /** Two rows of one history share a key exactly when they are the two seats of one match. */
  lemma StrictUnlessSelfMatch(table: seq<Match>, user: nat, filters: Filters)
    requires RowsApart(table)
    ensures StrictlyNewestFirst(History(table, user, filters)) <==> forall m :: m in table ==> !SelfMatch(m, user, filters)
  {
    var all := History(table, user, filters);
    if m :| m in table && SelfMatch(m, user, filters) {
      SelfMatchTies(table, user, filters, m);
    } else {
      HistoryIsComplete(table, user, filters);
      forall i, j | 0 <= i < j < |all| ensures Older(KeyOf(all[j]), KeyOf(all[i])) {
        OlderIsTotal(KeyOf(all[i]), KeyOf(all[j]));
        assert all[i] in all && all[j] in all;
        if KeyOf(all[i]) == KeyOf(all[j]) {
          EqualKeys(table, all[i], all[j]);
          assert SelfMatch(all[i].m, user, filters);
        }
      }
    }
  }

  ghost predicate PagesCoverHistory(table: seq<Match>, user: nat, filters: Filters)
    requires WellFormedTable(table)
  {
    forall limit: nat :: limit > 0 ==> Walk(table, user, filters, None, limit) == History(table, user, filters)
  }

  /** Following the printed cursors always ends, and the pages concatenate to the complete history for
      every page size exactly when no match asked for has this account in both seats. */
  lemma PagesAreTheHistory(table: seq<Match>, user: nat, filters: Filters)
    requires WellFormedTable(table)
    ensures PagesCoverHistory(table, user, filters) <==> forall m :: m in table ==> !SelfMatch(m, user, filters)
  {
    WithoutCursor(table, user, filters);
    StrictUnlessSelfMatch(table, user, filters);
    if StrictlyNewestFirst(History(table, user, filters)) {
      forall limit: nat | limit > 0 ensures Walk(table, user, filters, None, limit) == History(table, user, filters) {
        WalkVisitsAll(table, user, filters, None, limit);
      }
    } else {
      SmallPagesAreStrict(table, user, filters, None);
      assert Walk(table, user, filters, None, 1) != History(table, user, filters);
    }
  }
}
