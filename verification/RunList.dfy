/** Listing runs page by page (crates/tideline-server/src/tlr/sqlite.rs, list_runs). */
module RunList {
  import opened Bytes
  import opened Decimal
  import opened Metadata
  import opened Ledger
  import opened Interleaving

  const COLON: byte := 58
  const EQUALS: byte := 61
  const PLUS: byte := 43
  const MINUS: byte := 45

  /** Byte-wise order on text, SQLite's default. */
  predicate TextLess(a: Text, b: Text) {
    if b == [] then false
    else if a == [] then true
    else if a[0] != b[0] then a[0] < b[0]
    else TextLess(a[1..], b[1..])
  }

  /** Where a run stands in the listing. */
  datatype Pos = Pos(ts: int, run: Text)

  /** Newest first, then by run id. */
  predicate Before(a: Pos, b: Pos) {
    a.ts > b.ts || (a.ts == b.ts && TextLess(a.run, b.run))
  }

  function PosOf(k: RunKey, row: RunRow): Pos {
    Pos(AsI64(row.startedTs), k.run)
  }

  // --- Queries --------------------------------------------------------------------------------

  datatype RunQuery = RunQuery(
    agent: Option<Text>, labelled: Option<Text>, since: Option<nat>, cursor: Option<Text>, limit: Option<nat>)

  /** What `json_extract` finds in a run's labels under a path; the path language is SQLite's. */
  type Extract = (map<Text, Text>, Text) -> Option<Text>

  function SplitOnce(s: Text, mark: byte): Option<(Text, Text)> {
    if s == [] then None
    else if s[0] == mark then Some(([], s[1..]))
    else
      match SplitOnce(s[1..], mark)
      case None => None
      case Some((a, b)) => Some(([s[0]] + a, b))
  }

  /** A signed decimal that fits in 64 bits. */
  function ParseI64(s: Text): Option<int> {
    var negative := s != [] && s[0] == MINUS;
    var digits := if s != [] && (s[0] == MINUS || s[0] == PLUS) then s[1..] else s;
    match Parse(digits)
    case None => None
    case Some(n) =>
      if negative then (if n <= TWO_TO_THE_63 then Some(-(n as int)) else None)
      else if n < TWO_TO_THE_63 then Some(n) else None
  }

  function ParseCursor(cursor: Text): Option<Pos> {
    match SplitOnce(cursor, COLON)
    case None => None
    case Some((ts, id)) =>
      match ParseI64(ts)
      case None => None
      case Some(n) => Some(Pos(n, id))
  }

  function CursorText(startedTs: nat, run: Text): Text {
    Print(startedTs) + [COLON] + run
  }

  /** The filters other than the cursor; a malformed label filter is refused. */
  datatype Filter = Filter(ns: Text, agent: Option<Text>, labelled: Option<(Text, Text)>, since: Option<nat>)

  predicate Matches(x: Extract, f: Filter, k: RunKey, row: RunRow) {
    && k.ns == f.ns
    && (f.agent.Some? ==> row.agentName == f.agent.value)
    && (f.labelled.Some? ==> x(row.labels, Ascii("$.") + f.labelled.value.0) == Some(f.labelled.value.1))
    && (f.since.Some? ==> AsI64(row.startedTs) >= AsI64(f.since.value))
  }

  /** `p` is where a matching run stands, and past the cursor. */
  predicate Hit(x: Extract, st: State, f: Filter, after: Option<Pos>, p: Pos) {
    var k := RunKey(f.ns, p.run);
    && k in st.runs && Matches(x, f, k, st.runs[k]) && p == PosOf(k, st.runs[k])
    && (after.Some? ==> Before(after.value, p))
  }

  /** The positions a query selects. */
  function Selected(x: Extract, st: State, f: Filter, after: Option<Pos>): (s: set<Pos>)
    ensures forall p :: p in s <==> Hit(x, st, f, after, p)
    ensures forall p :: p in s ==> IsRun(st, f.ns, p)
  {
    set k | k in st.runs && Hit(x, st, f, after, PosOf(k, st.runs[k])) && k.ns == f.ns :: PosOf(k, st.runs[k])
  }

  datatype Listed = Listed(k: RunKey, row: RunRow)

  datatype RunPage = RunPage(runs: seq<Listed>, nextCursor: Option<Text>)

  predicate IsRun(st: State, ns: Text, p: Pos) {
    RunKey(ns, p.run) in st.runs
  }

  /** The rows at the given positions. */
  function Fetch(st: State, ns: Text, at: seq<Pos>): seq<Listed>
    requires forall i :: 0 <= i < |at| ==> IsRun(st, ns, at[i])
  {
    seq(|at|, i requires 0 <= i < |at| && IsRun(st, ns, at[i]) => Listed(RunKey(ns, at[i].run), st.runs[RunKey(ns,
        at[i].run)]))
  }

  function PageSize(q: RunQuery): (n: nat)
    ensures 1 <= n <= 500
  {
    Clamp(if q.limit.Some? then q.limit.value else 50, 1, 500)
  }

  function FilterOf(ns: Text, q: RunQuery): Option<Filter> {
    match q.labelled
    case None => Some(Filter(ns, q.agent, None, q.since))
    case Some(text) =>
      match SplitOnce(text, EQUALS)
      case None => None
      case Some(kv) => Some(Filter(ns, q.agent, Some(kv), q.since))
  }

  /** One request: `ORDER BY started_ts DESC, run_id ASC LIMIT limit + 1`, the extra row telling whether more remain. */
  function ListRuns(x: Extract, st: State, ns: Text, q: RunQuery): Result<RunPage, StoreError> {
    var f := FilterOf(ns, q);
    var after := if q.cursor.Some? then ParseCursor(q.cursor.value) else None;
    if f.None? then Err(Invalid)
    else if q.cursor.Some? && after.None? then Err(Invalid)
    else
      var all := Sorted(Selected(x, st, f.value, after));
      assert forall i :: 0 <= i < |all| ==> all[i] in all;
      var rows := Fetch(st, ns, if |all| > PageSize(q) + 1 then all[..PageSize(q) + 1] else all);
      if |rows| > PageSize(q) then
        var last := rows[PageSize(q) - 1];
        Ok(RunPage(rows[..PageSize(q)], Some(CursorText(last.row.startedTs, last.k.run))))
      else Ok(RunPage(rows, None))
  }

  // --- The order --------------------------------------------------------------------------------

  lemma {:induction false} TextLessIsTotal(a: Text, b: Text)
    ensures a == b || TextLess(a, b) || TextLess(b, a)
    ensures !(TextLess(a, b) && TextLess(b, a)) && (a == b ==> !TextLess(a, b))
    decreases |a|
  {
    if a != [] && b != [] && a[0] == b[0] {
      TextLessIsTotal(a[1..], b[1..]);
      if a[1..] == b[1..] {
        assert a == [a[0]] + a[1..] && b == [b[0]] + b[1..];
      }
    }
  }

  lemma {:induction false} TextLessIsTransitive(a: Text, b: Text, c: Text)
    requires TextLess(a, b) && TextLess(b, c)
    ensures TextLess(a, c)
    decreases |a|
  {
    if a != [] && a[0] == b[0] && b[0] == c[0] {
      TextLessIsTransitive(a[1..], b[1..], c[1..]);
    }
  }

  lemma BeforeIsTotal(a: Pos, b: Pos)
    ensures a == b || Before(a, b) || Before(b, a)
    ensures !(Before(a, b) && Before(b, a)) && !Before(a, a)
  {
    TextLessIsTotal(a.run, b.run);
    TextLessIsTotal(a.run, a.run);
  }

  lemma BeforeIsTransitive(a: Pos, b: Pos, c: Pos)
    requires Before(a, b) && Before(b, c)
    ensures Before(a, c)
  {
    if a.ts == b.ts == c.ts {
      TextLessIsTransitive(a.run, b.run, c.run);
    }
  }

  predicate IsFirst(p: Pos, s: set<Pos>) {
    p in s && forall q :: q in s ==> p == q || Before(p, q)
  }

  lemma {:induction false} FirstExists(s: set<Pos>)
    requires s != {}
    ensures exists p :: IsFirst(p, s)
    decreases |s|
  {
    hide Before;
    var p :| p in s;
    var rest := s - {p};
    if rest == {} {
      assert s == {p};
      assert IsFirst(p, s);
    } else {
      FirstExists(rest);
      var q :| IsFirst(q, rest);
      BeforeIsTotal(p, q);
      if Before(p, q) {
        forall r | r in s ensures p == r || Before(p, r) {
          if r != p && r != q {
            BeforeIsTransitive(p, q, r);
          }
        }
        assert IsFirst(p, s);
      } else {
        assert IsFirst(q, s);
      }
    }
  }

  lemma FirstIsUnique(s: set<Pos>)
    ensures forall p, q :: IsFirst(p, s) && IsFirst(q, s) ==> p == q
  {
    forall p, q | IsFirst(p, s) && IsFirst(q, s) ensures p == q {
      BeforeIsTotal(p, q);
    }
  }

  predicate InOrder(at: seq<Pos>) {
    forall i, j :: 0 <= i < j < |at| ==> Before(at[i], at[j])
  }

  /** The positions of a set in listing order. */
  function Sorted(s: set<Pos>): (at: seq<Pos>)
    ensures InOrder(at) && (forall p :: p in at <==> p in s)
    ensures |at| == |s|
    decreases |s|
  {
    if s == {} then []
    else
      FirstExists(s);
      FirstIsUnique(s);
      var p :| IsFirst(p, s);
      [p] + Sorted(s - {p})
  }

  /** `a` comes before `b` byte by byte: a proper prefix of it, or smaller where they first differ. */
  lemma {:induction false} TextLessMeans(a: Text, b: Text)
    ensures TextLess(a, b) <==> exists n: nat :: SmallerFrom(a, b, n)
    decreases |a|
  {
    if b == [] || a == [] || a[0] != b[0] {
      if TextLess(a, b) {
        assert SmallerFrom(a, b, 0);
      }
    } else {
      TextLessMeans(a[1..], b[1..]);
      if TextLess(a, b) {
        var n: nat :| SmallerFrom(a[1..], b[1..], n);
        assert a[..n + 1] == [a[0]] + a[1..][..n] && b[..n + 1] == [b[0]] + b[1..][..n];
        assert SmallerFrom(a, b, n + 1);
      }
      forall n: nat | SmallerFrom(a, b, n) ensures TextLess(a, b) {
        SmallerRest(a, b, n);
      }
    }
  }

  predicate SmallerFrom(a: Text, b: Text, n: nat) {
    && n <= |a| && n < |b| && a[..n] == b[..n] && (n == |a| || a[n] < b[n])
  }

  lemma SmallerRest(a: Text, b: Text, n: nat)
    requires a != [] && b != [] && a[0] == b[0] && SmallerFrom(a, b, n)
    ensures n > 0 && SmallerFrom(a[1..], b[1..], n - 1)
  {
    assert n > 0;
    assert a[1..][..n - 1] == a[..n][1..] && b[1..][..n - 1] == b[..n][1..];
  }

  // --- Cursors --------------------------------------------------------------------------------------

  lemma {:induction false} SplitsAtFirst(a: Text, mark: byte, b: Text)
    requires forall i :: 0 <= i < |a| ==> a[i] != mark
    ensures SplitOnce(a + [mark] + b, mark) == Some((a, b))
    decreases |a|
  {
    var s := a + [mark] + b;
    if a == [] {
      assert s[1..] == b;
    } else {
      SplitsAtFirst(a[1..], mark, b);
      assert s[1..] == a[1..] + [mark] + b;
      assert a == [a[0]] + a[1..];
    }
  }

  /** Splitting finds the first mark, and fails exactly when there is none. */
  lemma {:induction false} SplitOnceIs(s: Text, mark: byte)
    ensures SplitOnce(s, mark).None? <==> mark !in s
    ensures SplitOnce(s, mark).Some? ==>
              var (a, b) := SplitOnce(s, mark).value; s == a + [mark] + b && mark !in a
    decreases |s|
  {
    if s != [] && s[0] != mark {
      SplitOnceIs(s[1..], mark);
    }
  }

  /** A time is read with or without a sign, down to -2^63 and up to 2^63 - 1. */
  lemma SignedTimes(n: nat)
    ensures ParseI64(Print(n)) == if n < 0x8000_0000_0000_0000 then Some(n) else None
    ensures ParseI64(Ascii("+") + Print(n)) == if n < 0x8000_0000_0000_0000 then Some(n) else None
    ensures ParseI64(Ascii("-") + Print(n)) == if n <= 0x8000_0000_0000_0000 then Some(-(n as int)) else None
  {
    ParseInvertsPrint(n);
    assert IsDigit(Print(n)[0]);
    assert Ascii("+") == [PLUS] && Ascii("-") == [MINUS];
    assert ([PLUS] + Print(n))[1..] == Print(n) && ([MINUS] + Print(n))[1..] == Print(n);
    hide Print, Parse, Ascii;
  }

  /** A cursor decodes to the position it was made from, colons in the run id and all. */
  lemma CursorDecodes(startedTs: nat, run: Text)
    ensures startedTs < TWO_TO_THE_63 ==> ParseCursor(CursorText(startedTs, run)) == Some(Pos(startedTs, run))
    ensures startedTs >= TWO_TO_THE_63 ==> ParseCursor(CursorText(startedTs, run)) == None
    ensures CursorText(startedTs, run) == Print(startedTs) + Ascii(":") + run
  {
    assert Ascii(":") == [COLON];
    var digits := Print(startedTs);
    SplitsAtFirst(digits, COLON, run);
    ParseInvertsPrint(startedTs);
    assert IsDigit(digits[0]);
  }

  // --- Following the cursor ---------------------------------------------------------------------------

  /** Every timestamp fits the signed column, so that no cursor is made that the server would refuse. */
  ghost predicate TimesFit(st: State) {
    forall k :: k in st.runs ==> st.runs[k].startedTs < TWO_TO_THE_63
  }

  function PosAt(all: seq<Listed>, i: nat): Pos
    requires i < |all|
  {
    PosOf(all[i].k, all[i].row)
  }

  /**
   * What has been listed when the next request starts after `after`: in order, none past `after`, each a matching run
   * as it then was, and no run that matched in `first` and is not past `after` missing.
   */
  ghost predicate ListedSoFar(
    env: Env, x: Extract, f: Filter, first: State, st: State, all: seq<Listed>, after: Option<Pos>)
  {
    && (forall i, j :: 0 <= i < j < |all| ==> Before(PosAt(all, i), PosAt(all, j)))
    && (forall i :: 0 <= i < |all| ==> IsListed(env, x, f, st, all[i]))
    && (after.None? ==> all == [])
    && (after.Some? ==> all != [] && after.value == PosAt(all, |all| - 1))
    && (forall p :: Hit(x, first, f, None, p) && !(after.None? || Before(after.value, p)) ==> Has(all, p))
  }

  ghost predicate Has(all: seq<Listed>, p: Pos) {
    exists i :: 0 <= i < |all| && PosAt(all, i) == p
  }

  /** A listed row is a matching run of the store, as it was at some earlier time. */
  ghost predicate IsListed(env: Env, x: Extract, f: Filter, st: State, listed: Listed) {
    && listed.k in st.runs && Matches(x, f, listed.k, listed.row)
    && var now := st.runs[listed.k];
       && listed.row.startedTs == now.startedTs && listed.row.agentName == now.agentName
       && listed.row.labels == now.labels
  }

  /** Matching and position depend only on what never changes about a run. */
  lemma HitLasts(env: Env, x: Extract, st: State, st': State, f: Filter, after: Option<Pos>, p: Pos)
    requires Extends(env.hash, st, st') && Hit(x, st, f, after, p)
    ensures Hit(x, st', f, after, p)
  {
    var k := RunKey(f.ns, p.run);
    assert RunGrew(env.hash, st.runs[k], Rows(st, k), st'.runs[k], Rows(st', k));
    hide Erasure;
  }

  lemma IsListedLasts(env: Env, x: Extract, f: Filter, st: State, st': State, listed: Listed)
    requires Extends(env.hash, st, st') && IsListed(env, x, f, st, listed)
    ensures IsListed(env, x, f, st', listed)
  {
    var k := listed.k;
    assert RunGrew(env.hash, st.runs[k], Rows(st, k), st'.runs[k], Rows(st', k));
    hide Erasure;
  }

  lemma ListedLasts(
    env: Env, x: Extract, f: Filter, first: State, st: State, st': State, all: seq<Listed>, after: Option<Pos>)
    requires ListedSoFar(env, x, f, first, st, all, after) && Extends(env.hash, st, st')
    ensures ListedSoFar(env, x, f, first, st', all, after)
  {
    hide Extends, IsListed, Before, Hit;
    forall i | 0 <= i < |all| ensures IsListed(env, x, f, st', all[i]) {
      IsListedLasts(env, x, f, st, st', all[i]);
    }
  }

  /** What one request returns, said of positions. */
  ghost predicate IsPage(
    x: Extract, st: State, f: Filter, after: Option<Pos>, size: nat, page: seq<Listed>, more: bool)
  {
    && |page| <= size && (more ==> |page| == size >= 1)
    && (forall i, j :: 0 <= i < j < |page| ==> Before(PosAt(page, i), PosAt(page, j)))
    && (forall i :: 0 <= i < |page| ==> IsListedNow(st, f, page[i]) && Hit(x, st, f, after, PosAt(page, i)))
    && (forall p :: Hit(x, st, f, after, p) ==> Has(page, p) || (more && Before(PosAt(page, |page| - 1), p)))
    && (more ==> exists p :: Hit(x, st, f, after, p) && Before(PosAt(page, |page| - 1), p))
  }

  ghost predicate IsListedNow(st: State, f: Filter, listed: Listed) {
    listed.k.ns == f.ns && listed.k in st.runs && listed.row == st.runs[listed.k]
  }

  lemma FetchIsAt(x: Extract, st: State, f: Filter, after: Option<Pos>, at: seq<Pos>)
    requires forall i :: 0 <= i < |at| ==> Hit(x, st, f, after, at[i])
    ensures forall i :: 0 <= i < |at| ==> IsRun(st, f.ns, at[i])
    ensures forall i :: 0 <= i < |at| ==>
              PosAt(Fetch(st, f.ns, at), i) == at[i] && IsListedNow(st, f, Fetch(st, f.ns, at)[i])
  {
  }

  /**
   * One request returns, in order, the first `limit` of the matching runs past the cursor, and a next cursor exactly
   * when another one follows; it is refused exactly when the label filter or the cursor is malformed.
   */
  lemma PageIsExact(x: Extract, st: State, ns: Text, q: RunQuery)
    ensures var r, f := ListRuns(x, st, ns, q), FilterOf(ns, q);
            && (r.Err? <==> f.None? || (q.cursor.Some? && ParseCursor(q.cursor.value).None?))
            && (r.Ok? ==>
                  && IsPage(x, st, f.value, if q.cursor.Some? then ParseCursor(q.cursor.value) else None,
                            PageSize(q), r.value.runs, r.value.nextCursor.Some?)
                  && (r.value.nextCursor.Some? ==>
                        && r.value.runs != []
                        && var last := r.value.runs[|r.value.runs| - 1];
                           r.value.nextCursor.value == CursorText(last.row.startedTs, last.k.run)))
  {
    hide Hit, InOrder, IsPage, ParseCursor, FilterOf, CursorText, PageSize, Fetch, IsRun;
    var r, f := ListRuns(x, st, ns, q), FilterOf(ns, q);
    if r.Ok? {
      var after := if q.cursor.Some? then ParseCursor(q.cursor.value) else None;
      var all := Sorted(Selected(x, st, f.value, after));
      assert forall i :: 0 <= i < |all| ==> all[i] in all;
      assert forall i :: 0 <= i < |all| ==> Hit(x, st, f.value, after, all[i]) && IsRun(st, f.value.ns, all[i]);
      NamespaceKept(ns, q);
      PageOfFetch(st, ns, all, PageSize(q));
      FirstOfAll(x, st, f.value, after, all, PageSize(q), r.value.runs, r.value.nextCursor.Some?);
    }
  }

  /** What was asked for: runs of the tenant, by agent, by label and by starting time, as far as each was given. */
  ghost predicate Wanted(x: Extract, ns: Text, q: RunQuery, k: RunKey, row: RunRow) {
    && k.ns == ns
    && (q.agent.Some? ==> row.agentName == q.agent.value)
    && (q.labelled.Some? ==>
          exists key, value {:trigger key + Ascii("=") + value} ::
            && q.labelled.value == key + Ascii("=") + value && Ascii("=")[0] !in key
            && x(row.labels, Ascii("$.") + key) == Some(value))
    && (q.since.Some? ==> AsI64(row.startedTs) >= AsI64(q.since.value))
  }

  /** The listing order: newest first, runs of one time by their ids. */
  predicate Newer(a: Listed, b: Listed) {
    || AsI64(a.row.startedTs) > AsI64(b.row.startedTs)
    || (AsI64(a.row.startedTs) == AsI64(b.row.startedTs) && TextLess(a.k.run, b.k.run))
  }

  lemma MatchesIsWanted(x: Extract, ns: Text, q: RunQuery, k: RunKey, row: RunRow)
    requires FilterOf(ns, q).Some?
    ensures Matches(x, FilterOf(ns, q).value, k, row) <==> Wanted(x, ns, q, k, row)
  {
    hide SplitOnce, AsI64;
    assert Ascii("=") == [EQUALS];
    if q.labelled.Some? {
      SplitOnceIs(q.labelled.value, EQUALS);
      var (a, b) := SplitOnce(q.labelled.value, EQUALS).value;
      assert q.labelled.value == a + Ascii("=") + b;
      forall key, value | q.labelled.value == key + Ascii("=") + value && EQUALS !in key ensures key == a
          && value == b {
        SplitsAtFirst(key, EQUALS, value);
      }
    }
  }

  /**
   * What a caller gets: only runs that are there and were asked for, newest first, 50 of them or as many as it asked
   * for between 1 and 500; and every run asked for, when it gave no cursor and is given none.
   */
  lemma PageMeans(x: Extract, st: State, ns: Text, q: RunQuery)
    requires ListRuns(x, st, ns, q).Ok?
    ensures var page := ListRuns(x, st, ns, q).value;
            var n := match q.limit
                     case None => 50
                     case Some(l) => if l == 0 then 1 else if l > 500 then 500 else l;
            && |page.runs| <= n && (page.nextCursor.Some? ==> |page.runs| == n)
            && (forall i :: 0 <= i < |page.runs| ==>
                  var k, row := page.runs[i].k, page.runs[i].row;
                  k in st.runs && row == st.runs[k] && Wanted(x, ns, q, k, row))
            && (forall i, j :: 0 <= i < j < |page.runs| ==> Newer(page.runs[i], page.runs[j]))
            && (q.cursor.None? && page.nextCursor.None? ==>
                  forall k :: k in st.runs && Wanted(x, ns, q, k, st.runs[k]) ==> ListsRun(page.runs, k))
  {
    hide ListRuns, Matches, Wanted, AsI64, TextLess, FilterOf;
    PageIsExact(x, st, ns, q);
    NamespaceKept(ns, q);
    var page, f := ListRuns(x, st, ns, q).value, FilterOf(ns, q).value;
    forall k, row ensures Matches(x, f, k, row) <==> Wanted(x, ns, q, k, row) {
      MatchesIsWanted(x, ns, q, k, row);
    }
    if q.cursor.None? && page.nextCursor.None? {
      forall k | k in st.runs && Wanted(x, ns, q, k, st.runs[k]) ensures ListsRun(page.runs, k) {
        RunHits(x, st, f, k);
        var i :| 0 <= i < |page.runs| && PosAt(page.runs, i) == PosOf(k, st.runs[k]);
        assert page.runs[i].k == k;
      }
    }
  }

  ghost predicate ListsRun(runs: seq<Listed>, k: RunKey) {
    exists i :: 0 <= i < |runs| && runs[i].k == k
  }

  lemma RunHits(x: Extract, st: State, f: Filter, k: RunKey)
    requires k in st.runs && Matches(x, f, k, st.runs[k])
    ensures Hit(x, st, f, None, PosOf(k, st.runs[k])) && k.ns == f.ns
  {
    assert RunKey(f.ns, k.run) == k;
  }

  lemma NamespaceKept(ns: Text, q: RunQuery)
    ensures FilterOf(ns, q).Some? ==> FilterOf(ns, q).value.ns == ns
  {
  }

  /** Fetching one row past the page and dropping it is fetching the page. */
  lemma PageOfFetch(st: State, ns: Text, all: seq<Pos>, size: nat)
    requires forall i :: 0 <= i < |all| ==> IsRun(st, ns, all[i])
    ensures |Fetch(st, ns, all)| == |all|
    ensures |all| > size + 1 ==> |Fetch(st, ns, all[..size + 1])| == size + 1
    ensures |all| > size + 1 ==> Fetch(st, ns, all[..size + 1])[..size] == Fetch(st, ns, all)[..size]
  {
  }

  lemma FirstOfAll(
    x: Extract, st: State, f: Filter, after: Option<Pos>, all: seq<Pos>, size: nat, page: seq<Listed>, more: bool)
    requires InOrder(all) && forall p :: p in all <==> Hit(x, st, f, after, p)
    requires size >= 1 && more == (|all| > size)
    requires forall i :: 0 <= i < |all| ==> Hit(x, st, f, after, all[i]) && IsRun(st, f.ns, all[i])
    requires page == Fetch(st, f.ns, all)[..if more then size else |all|]
    ensures IsPage(x, st, f, after, size, page, more)
  {
    hide Before, Hit, Fetch, IsListedNow, IsRun;
    FetchIsAt(x, st, f, after, all);
    PageOfFetch(st, f.ns, all, size);
    assert forall i :: 0 <= i < |page| ==> PosAt(page, i) == all[i];
    forall p | Hit(x, st, f, after, p) ensures Has(page, p) || (more && Before(PosAt(page, |page| - 1), p)) {
      var i :| 0 <= i < |all| && all[i] == p;
      if i < |page| {
        assert PosAt(page, i) == p;
      }
    }
    if more {
      assert Hit(x, st, f, after, all[size]) && Before(PosAt(page, |page| - 1), all[size]);
    }
  }

  /** Every matching run of `first` is among those listed. */
  ghost predicate NoneMissing(x: Extract, f: Filter, first: State, all: seq<Listed>) {
    forall p :: Hit(x, first, f, None, p) ==> Has(all, p)
  }

  ghost predicate ListedInOrder(env: Env, x: Extract, f: Filter, st: State, all: seq<Listed>) {
    && (forall i, j :: 0 <= i < j < |all| ==> Before(PosAt(all, i), PosAt(all, j)))
    && (forall i :: 0 <= i < |all| ==> IsListed(env, x, f, st, all[i]))
  }

  lemma HasLasts(all: seq<Listed>, page: seq<Listed>, p: Pos)
    ensures Has(all, p) || Has(page, p) ==> Has(all + page, p)
  {
    if Has(all, p) {
      var i :| 0 <= i < |all| && PosAt(all, i) == p;
      assert PosAt(all + page, i) == p;
    } else if Has(page, p) {
      var i :| 0 <= i < |page| && PosAt(page, i) == p;
      assert PosAt(all + page, |all| + i) == p;
    }
  }

  lemma PageIsListed(env: Env, x: Extract, st: State, f: Filter, after: Option<Pos>, listed: Listed)
    requires IsListedNow(st, f, listed) && Hit(x, st, f, after, PosOf(listed.k, listed.row))
    ensures IsListed(env, x, f, st, listed)
    ensures after.Some? ==> Before(after.value, PosOf(listed.k, listed.row))
  {
    assert listed.k == RunKey(f.ns, listed.k.run);
  }

  lemma JoinInOrder(
    env: Env, x: Extract, f: Filter, first: State, st: State,
    all: seq<Listed>, after: Option<Pos>, size: nat, page: seq<Listed>, more: bool)
    requires ListedSoFar(env, x, f, first, st, all, after) && IsPage(x, st, f, after, size, page, more)
    ensures ListedInOrder(env, x, f, st, all + page)
  {
    var both := all + page;
    forall i | 0 <= i < |page| ensures IsListed(env, x, f, st, page[i]) && (all != [] ==>
        Before(after.value, PosAt(page, i))) {
      PageIsListed(env, x, st, f, after, page[i]);
    }
    forall i | 0 <= i < |both| ensures PosAt(both, i) == if i < |all| then PosAt(all, i) else PosAt(page, i - |all|) {
    }
    hide Before, Hit, IsListed, PosAt;
    forall i, j | 0 <= i < j < |both| ensures Before(PosAt(both, i), PosAt(both, j)) {
      if i < |all| <= j {
        assert Before(after.value, PosAt(page, j - |all|));
        if i < |all| - 1 {
          assert Before(PosAt(all, i), PosAt(all, |all| - 1));
          BeforeIsTransitive(PosAt(all, i), after.value, PosAt(both, j));
        }
      }
    }
  }

  lemma JoinMissesNone(
    env: Env, x: Extract, f: Filter, first: State, st: State,
    all: seq<Listed>, after: Option<Pos>, size: nat, page: seq<Listed>, more: bool, p: Pos)
    requires ListedSoFar(env, x, f, first, st, all, after) && IsPage(x, st, f, after, size, page, more)
    requires Extends(env.hash, first, st) && Hit(x, first, f, None, p)
    ensures Has(all + page, p) || (more && Before(PosAt(page, |page| - 1), p))
  {
    hide Extends, IsListed, IsListedNow, Before, Has, PosAt;
    HasLasts(all, page, p);
    if after.None? || Before(after.value, p) {
      HitLasts(env, x, first, st, f, None, p);
      assert Hit(x, st, f, after, p);
    }
  }

  /** A page taken where the last one ended extends the listing; when it is the last page nothing is missing. */
  lemma PageExtends(
    env: Env, x: Extract, f: Filter, first: State, st: State,
    all: seq<Listed>, after: Option<Pos>, size: nat, page: seq<Listed>, more: bool)
    requires ListedSoFar(env, x, f, first, st, all, after) && IsPage(x, st, f, after, size, page, more)
    requires Extends(env.hash, first, st)
    ensures ListedInOrder(env, x, f, st, all + page)
    ensures !more ==> NoneMissing(x, f, first, all + page)
    ensures more ==> ListedSoFar(env, x, f, first, st, all + page, Some(PosAt(page, |page| - 1)))
  {
    JoinInOrder(env, x, f, first, st, all, after, size, page, more);
    forall p | Hit(x, first, f, None, p) ensures Has(all + page, p) || (more && Before(PosAt(page, |page| - 1), p)) {
      JoinMissesNone(env, x, f, first, st, all, after, size, page, more, p);
    }
    hide Before, Hit, IsListed, Extends, Has;
  }

  /** A page leaves fewer runs past the cursor than there were. */
  lemma SelectedShrinks(
    x: Extract, st: State, f: Filter, after: Option<Pos>, size: nat, page: seq<Listed>)
    requires IsPage(x, st, f, after, size, page, true)
    ensures |Selected(x, st, f, Some(PosAt(page, |page| - 1)))| < |Selected(x, st, f, after)|
  {
    var last := PosAt(page, |page| - 1);
    var before, now := Selected(x, st, f, after), Selected(x, st, f, Some(last));
    forall p | p in now ensures p in before {
      if after.Some? {
        BeforeIsTransitive(after.value, last, p);
      }
    }
    BeforeIsTotal(last, last);
    assert last in before && last !in now;
    Fewer(now, before, last);
  }

  lemma Fewer(a: set<Pos>, b: set<Pos>, p: Pos)
    requires a <= b && p in b && p !in a
    ensures |a| < |b|
  {
    assert a <= b - {p};
    SubsetIsSmaller(a, b - {p});
  }

  lemma {:induction false} SubsetIsSmaller(a: set<Pos>, b: set<Pos>)
    requires a <= b
    ensures |a| <= |b|
    decreases |a|
  {
    if a != {} {
      var p :| p in a;
      SubsetIsSmaller(a - {p}, b - {p});
    }
  }

  /** Every clock a scheduled creation reads fits the signed column. */
  ghost predicate ClocksFit(sched: seq<seq<Op>>) {
    forall n :: 0 <= n < |sched| ==> OpsFit(sched[n])
  }

  ghost predicate OpsFit(ops: seq<Op>) {
    forall i :: 0 <= i < |ops| && ops[i].OpCreate? ==> ops[i].ts < TWO_TO_THE_63
  }

  lemma ApplyFits(env: Env, st: State, op: Op)
    requires TimesFit(st) && (op.OpCreate? ==> op.ts < TWO_TO_THE_63)
    ensures TimesFit(Apply(env, st, op).0)
  {
    hide MakeEvent, Erase;
  }

  lemma {:induction false} RunFits(env: Env, st: State, ops: seq<Op>)
    requires TimesFit(st) && OpsFit(ops)
    ensures TimesFit(Run(env, st, ops))
    decreases |ops|
  {
    hide Apply, TimesFit;
    if ops != [] {
      ApplyFits(env, st, ops[0]);
      assert forall i :: 0 <= i < |ops[1..]| ==> ops[1..][i] == ops[i + 1];
      RunFits(env, Apply(env, st, ops[0]).0, ops[1..]);
    }
  }

  lemma {:induction false} AfterFits(env: Env, st: State, sched: seq<seq<Op>>, n: nat)
    requires TimesFit(st) && ClocksFit(sched)
    ensures TimesFit(After(env, st, sched, n))
  {
    hide Run, TimesFit, OpsFit;
    if n > 0 {
      AfterFits(env, st, sched, n - 1);
      if n - 1 < |sched| {
        RunFits(env, After(env, st, sched, n - 1), sched[n - 1]);
      } else {
        RunNothing(env, After(env, st, sched, n - 1));
      }
    }
  }

  /** The cursor the server hands out is read back as the position of the last row listed. */
  lemma CursorIsLast(st: State, f: Filter, page: seq<Listed>)
    requires page != [] && IsListedNow(st, f, page[|page| - 1]) && TimesFit(st)
    ensures var last := page[|page| - 1];
            ParseCursor(CursorText(last.row.startedTs, last.k.run)) == Some(PosAt(page, |page| - 1))
  {
    var last := page[|page| - 1];
    CursorDecodes(last.row.startedTs, last.k.run);
  }

  /**
   * Following `next_cursor` to the end with fixed filters, with any operations between the pages: the runs come in
   * listing order, so none comes twice; each matches; and every matching run there was at the first request is among
   * them.
   */
  method FollowCursor(env: Env, x: Extract, st0: State, ns: Text, q: RunQuery, sched: seq<seq<Op>>)
    returns (all: seq<Listed>, requests: nat)
    requires Inv(env, st0) && FilterOf(ns, q).Some? && q.cursor.None?
    requires TimesFit(st0) && ClocksFit(sched)
    ensures requests >= 1 && (requests - 1) * PageSize(q) <= |all| <= requests * PageSize(q)
    ensures ListedInOrder(env, x, FilterOf(ns, q).value, After(env, st0, sched, requests), all)
    ensures NoneMissing(x, FilterOf(ns, q).value, After(env, st0, sched, 1), all)
  {
    hide Inv, Extends, Run, ListedSoFar, ListedInOrder, IsPage, Hit, TimesFit, FilterOf, ParseCursor, PageSize, PosAt;
    hide NoneMissing, ListRuns, ClocksFit;
    AfterKeeps(env, st0, sched, 0, 1);
    all, requests := [], 1;
    var query := q;
    var st := After(env, st0, sched, 1);
    ghost var first, f := st, FilterOf(ns, q).value;
    ghost var after: Option<Pos> := None;
    ExtendsReflexive(env.hash, st);
    NothingListed(env, x, f, st);
    SameFilter(ns, q, query);
    while true
      invariant requests >= 1 && st == After(env, st0, sched, requests) && Inv(env, st)
      invariant FilterOf(ns, query) == Some(f)
      invariant after == (if query.cursor.Some? then ParseCursor(query.cursor.value) else None)
      invariant query.cursor.Some? ==> after.Some?
      invariant Extends(env.hash, first, st)
      invariant query.limit == q.limit && |all| == (requests - 1) * PageSize(q)
      invariant ListedSoFar(env, x, f, first, st, all, after)
      decreases if requests < |sched| then |sched| - requests else 0, |Selected(x, st, f, after)|
    {
      PageIsExact(x, st, ns, query);
      var page := ListRuns(x, st, ns, query).value;
      ghost var more := page.nextCursor.Some?;
      PageExtends(env, x, f, first, st, all, after, PageSize(query), page.runs, more);
      PageCount(x, st, f, after, q, query, page.runs, more, |all|, requests);
      all := all + page.runs;
      if page.nextCursor.None? {
        return;
      }
      LastIsListed(x, st, f, after, PageSize(query), page.runs);
      AfterFits(env, st0, sched, requests);
      CursorIsLast(st, f, page.runs);
      SelectedShrinks(x, st, f, after, PageSize(query), page.runs);
      query := q.(cursor := page.nextCursor);
      SameFilter(ns, q, query);
      after := Some(PosAt(page.runs, |page.runs| - 1));

      ghost var before := st;
      st := Run(env, st, Batch(sched, requests));
      requests := requests + 1;
      AfterKeeps(env, st0, sched, requests - 1, requests);
      ListedLasts(env, x, f, first, before, st, all, after);
      ExtendsTransitive(env.hash, first, before, st);
      RunNothing(env, before);
    }
  }

  lemma PageCount(
    x: Extract, st: State, f: Filter, after: Option<Pos>, q: RunQuery, query: RunQuery, page: seq<Listed>, more: bool,
    listed: nat, requests: nat)
    requires IsPage(x, st, f, after, PageSize(query), page, more) && query.limit == q.limit
    requires requests >= 1 && listed == (requests - 1) * PageSize(q)
    ensures PageSize(query) == PageSize(q) && |page| <= PageSize(q)
    ensures more ==> listed + |page| == requests * PageSize(q)
    ensures listed + PageSize(q) == requests * PageSize(q)
  {
    hide Hit, Has;
    var n := PageSize(q);
    assert (requests - 1) * n + n == requests * n;
  }

  lemma SameFilter(ns: Text, q: RunQuery, query: RunQuery)
    requires query == q.(cursor := query.cursor)
    ensures FilterOf(ns, query) == FilterOf(ns, q)
  {
  }

  lemma NothingListed(env: Env, x: Extract, f: Filter, st: State)
    ensures ListedSoFar(env, x, f, st, st, [], None)
  {
  }

  lemma LastIsListed(x: Extract, st: State, f: Filter, after: Option<Pos>, size: nat, page: seq<Listed>)
    requires IsPage(x, st, f, after, size, page, true)
    ensures page != [] && IsListedNow(st, f, page[|page| - 1])
  {
    assert Hit(x, st, f, after, PosAt(page, |page| - 1));
  }
}
