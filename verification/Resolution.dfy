/**
 Resolution: everything downstream of a source, by iterated queries over the derivation relation.
 A row derived from another row cites it as system `mutiny`, record `<table>/<key>`, and a citation
 names no branch, so contamination crosses branches through it.
 */
module Resolution {
  import opened Wrappers
  import opened Order

  datatype Source = Source(system: string, record: string)

  datatype RowId = RowId(branch: string, table: string, key: string)

  datatype Contaminated = Contaminated(branch: string, table: string, key: string, envelope: string)
  {
    function Id(): RowId { RowId(branch, table, key) }
  }

  /** One derivation row: `row` was derived from `source`. */
  datatype Edge = Edge(row: Contaminated, source: Source)

  datatype ResolveError = RoundsExceeded | InvalidSource(value: string)

  const INTERNAL_SOURCE_SYSTEM := "mutiny"
  const MAX_TAINT_ROUNDS: nat := 64
  const RESOLUTION_CHUNK: nat := 32

  function CitationRecord(c: Contaminated): string { c.table + "/" + c.key }

  function Citation(c: Contaminated): Source { Source(INTERNAL_SOURCE_SYSTEM, CitationRecord(c)) }

  predicate ControlOrQuote(c: char) { c == '\'' || c == '"' || c < ' ' || c == '\U{007F}' }

  /** A value that can sit inside a single-quoted SQL literal; anything else is refused. */
  predicate LiteralOk(s: string) {
    s != "" && forall i :: 0 <= i < |s| ==> !ControlOrQuote(s[i])
  }

  function Direct(edges: set<Edge>, src: Source): set<Contaminated> {
    set e | e in edges && e.source == src :: e.row
  }

  function Citations(rows: set<Contaminated>): set<Source> {
    set c | c in rows :: Citation(c)
  }

  function Citing(edges: set<Edge>, rows: set<Contaminated>): set<Contaminated> {
    set e | e in edges && e.source in Citations(rows) :: e.row
  }

  /** The rows at most `n` hops downstream of `src`. */
  function Within(edges: set<Edge>, src: Source, n: nat): set<Contaminated> {
    if n == 0 then {} else Direct(edges, src) + Citing(edges, Within(edges, src, n - 1))
  }

  ghost predicate Downstream(edges: set<Edge>, src: Source, c: Contaminated) {
    exists n: nat :: c in Within(edges, src, n)
  }

  /** Everything downstream of `src`, at any distance. */
  ghost function Closure(edges: set<Edge>, src: Source): set<Contaminated> {
    set e | e in edges && Downstream(edges, src, e.row) :: e.row
  }

  lemma {:induction false} WithinStep(edges: set<Edge>, src: Source, n: nat)
    ensures Within(edges, src, n) <= Within(edges, src, n + 1)
  {
    if n > 0 { WithinStep(edges, src, n - 1); }
  }

  lemma {:induction false} WithinMonotone(edges: set<Edge>, src: Source, m: nat, n: nat)
    requires m <= n
    ensures Within(edges, src, m) <= Within(edges, src, n)
    decreases n
  {
    if m < n { WithinMonotone(edges, src, m, n - 1); WithinStep(edges, src, n - 1); }
  }

  lemma WithinRows(edges: set<Edge>, src: Source, n: nat, c: Contaminated)
    requires c in Within(edges, src, n)
    ensures exists e :: e in edges && e.row == c
    ensures c in Closure(edges, src)
  {
    assert Downstream(edges, src, c);
  }

  lemma WithinNext(edges: set<Edge>, src: Source, n: nat, e: Edge)
    requires e in edges && (e.source == src || e.source in Citations(Within(edges, src, n)))
    ensures e.row in Within(edges, src, n + 1)
  {
  }

  /** The closure holds the source's own rows and every row citing one of its members. */
  lemma ClosureIsClosed(edges: set<Edge>, src: Source)
    ensures Direct(edges, src) <= Closure(edges, src)
    ensures Citing(edges, Closure(edges, src)) <= Closure(edges, src)
  {
    hide Within;
    forall c | c in Direct(edges, src) ensures c in Closure(edges, src) {
      var e :| e in edges && e.source == src && e.row == c;
      WithinNext(edges, src, 0, e);
      WithinRows(edges, src, 1, c);
    }
    forall c | c in Citing(edges, Closure(edges, src)) ensures c in Closure(edges, src) {
      var e :| e in edges && e.source in Citations(Closure(edges, src)) && e.row == c;
      var d :| d in Closure(edges, src) && e.source == Citation(d);
      var n: nat :| d in Within(edges, src, n);
      WithinNext(edges, src, n, e);
      WithinRows(edges, src, n + 1, c);
    }
  }

  lemma {:induction false} WithinLeast(edges: set<Edge>, src: Source, n: nat, closed: set<Contaminated>)
    requires Direct(edges, src) <= closed && Citing(edges, closed) <= closed
    ensures Within(edges, src, n) <= closed
  {
    if n > 0 { WithinLeast(edges, src, n - 1, closed); }
  }

  /** The closure is the least such set. */
  lemma ClosureIsLeast(edges: set<Edge>, src: Source, closed: set<Contaminated>)
    requires Direct(edges, src) <= closed && Citing(edges, closed) <= closed
    ensures Closure(edges, src) <= closed
  {
    forall c | c in Closure(edges, src) ensures c in closed {
      var n: nat :| c in Within(edges, src, n);
      WithinLeast(edges, src, n, closed);
    }
  }

  /**
   A derivation chain: the first edge derives from `src`, each later one from system `mutiny`, record
   `<table>/<key>` of the row before it.
   */
  ghost predicate IsChain(edges: set<Edge>, src: Source, path: seq<Edge>) {
    && |path| > 0
    && (forall i :: 0 <= i < |path| ==> path[i] in edges)
    && path[0].source == src
    && (forall i :: 0 < i < |path| ==>
          path[i].source.system == "mutiny" && path[i].source.record == path[i - 1].row.table + "/" + path[i - 1].row.key)
  }

  lemma {:induction false} ChainReaches(edges: set<Edge>, src: Source, path: seq<Edge>)
    requires IsChain(edges, src, path)
    ensures path[|path| - 1].row in Within(edges, src, |path|)
  {
    var n := |path|;
    if n == 1 {
      assert path[0].row in Direct(edges, src);
    } else {
      ChainReaches(edges, src, path[..n - 1]);
      assert path[n - 1].source == Citation(path[n - 2].row);
    }
  }

  lemma {:induction false} ReachedByChain(edges: set<Edge>, src: Source, n: nat, c: Contaminated)
    returns (path: seq<Edge>)
    requires c in Within(edges, src, n)
    ensures IsChain(edges, src, path) && |path| <= n && path[|path| - 1].row == c
  {
    if c in Direct(edges, src) {
      var e :| e in edges && e.source == src && e.row == c;
      path := [e];
    } else {
      var e, d :| e in edges && d in Within(edges, src, n - 1) && e.source == Citation(d) && e.row == c;
      var prefix := ReachedByChain(edges, src, n - 1, d);
      path := prefix + [e];
    }
  }

  /** The closure is exactly the set of rows some derivation chain from the source ends at. */
  lemma ClosureIsReachability(edges: set<Edge>, src: Source, c: Contaminated)
    ensures c in Closure(edges, src) <==> exists path: seq<Edge> :: IsChain(edges, src, path) && path[|path| - 1].row == c
  {
    if c in Closure(edges, src) {
      var n: nat :| c in Within(edges, src, n);
      var path := ReachedByChain(edges, src, n, c);
    }
    if path: seq<Edge> :| IsChain(edges, src, path) && path[|path| - 1].row == c {
      ChainReaches(edges, src, path);
      WithinRows(edges, src, |path|, c);
    }
  }

  /** Some row first reached at hop 64 is itself cited: the one shape the round limit refuses. */
  ghost predicate TooDeep(edges: set<Edge>, src: Source) {
    Citing(edges, Within(edges, src, MAX_TAINT_ROUNDS) - Within(edges, src, MAX_TAINT_ROUNDS - 1)) != {}
  }

  /** A shortest chain of 64 edges ends at a row that a further edge cites. */
  ghost predicate LongChain(edges: set<Edge>, src: Source) {
    exists path: seq<Edge> :: IsChain(edges, src, path) && |path| == 65 && Shortest(edges, src, path[..64])
  }

  ghost predicate Shortest(edges: set<Edge>, src: Source, path: seq<Edge>)
    requires |path| > 0
  {
    forall q: seq<Edge> :: IsChain(edges, src, q) && q[|q| - 1].row == path[|path| - 1].row ==> |q| >= |path|
  }

  lemma ChainMore(edges: set<Edge>, src: Source, path: seq<Edge>, e: Edge)
    requires IsChain(edges, src, path) && e in edges && e.source == Citation(path[|path| - 1].row)
    ensures IsChain(edges, src, path + [e])
  {
  }

  lemma ChainLess(edges: set<Edge>, src: Source, path: seq<Edge>)
    requires IsChain(edges, src, path) && |path| > 1
    ensures IsChain(edges, src, path[..|path| - 1]) && path[|path| - 1].source == Citation(path[|path| - 2].row)
  {
  }

  lemma DeepIsLong(edges: set<Edge>, src: Source)
    requires TooDeep(edges, src)
    ensures LongChain(edges, src)
  {
    var c :| c in Citing(edges, Within(edges, src, 64) - Within(edges, src, 63));
    hide Within;
    var e, d :| e in edges && d in Within(edges, src, 64) - Within(edges, src, 63) && e.source == Citation(d) && e.row == c;
    var prefix := ReachedByChain(edges, src, 64, d);
    NotWithin(edges, src, 63, d);
    ChainMore(edges, src, prefix, e);
    hide IsChain;
    assert (prefix + [e])[..64] == prefix && Shortest(edges, src, prefix);
  }

  lemma LongIsDeep(edges: set<Edge>, src: Source, path: seq<Edge>)
    requires IsChain(edges, src, path) && |path| == 65 && Shortest(edges, src, path[..64])
    ensures TooDeep(edges, src)
  {
    hide Within;
    var d := path[63].row;
    ChainLess(edges, src, path);
    assert path[64] in edges && path[..64][63] == path[63];
    hide IsChain;
    ChainReaches(edges, src, path[..64]);
    if d in Within(edges, src, 63) { var q := ReachedByChain(edges, src, 63, d); }
    assert path[64].row in Citing(edges, Within(edges, src, 64) - Within(edges, src, 63));
  }

  lemma TooDeepIsLong(edges: set<Edge>, src: Source)
    ensures TooDeep(edges, src) <==> LongChain(edges, src)
  {
    if TooDeep(edges, src) { DeepIsLong(edges, src); }
    hide TooDeep;
    if path: seq<Edge> :| IsChain(edges, src, path) && |path| == 65 && Shortest(edges, src, path[..64]) { LongIsDeep(edges, src, path); }
  }

  /** A row further than `n` hops is at the end of no chain that short. */
  lemma NotWithin(edges: set<Edge>, src: Source, n: nat, d: Contaminated)
    requires d !in Within(edges, src, n)
    ensures forall q: seq<Edge> :: IsChain(edges, src, q) && q[|q| - 1].row == d ==> |q| > n
  {
    forall q: seq<Edge> | IsChain(edges, src, q) && q[|q| - 1].row == d ensures |q| > n {
      ChainReaches(edges, src, q);
      if |q| <= n { WithinMonotone(edges, src, |q|, n); }
    }
  }

  /** What a quoted literal may hold, by code point: no control character and neither quote. */
  ghost predicate Quotable(s: string) {
    |s| > 0 && forall i :: 0 <= i < |s| ==> var c := s[i] as int; c >= 32 && c != 34 && c != 39 && c != 127
  }

  lemma LiteralIsQuotable(s: string)
    ensures LiteralOk(s) <==> Quotable(s)
  {
    if LiteralOk(s) {
      forall i | 0 <= i < |s| ensures var c := s[i] as int; c >= 32 && c != 34 && c != 39 && c != 127 { assert !ControlOrQuote(s[i]); }
    }
    if Quotable(s) {
      forall i | 0 <= i < |s| ensures !ControlOrQuote(s[i]) { assert s[i] as int >= 32; }
    }
  }

  ghost predicate CitationsOk(rows: set<Contaminated>) {
    forall c :: c in rows ==> LiteralOk(CitationRecord(c))
  }

  /** When resolution answers; otherwise it refuses. */
  ghost predicate Resolvable(edges: set<Edge>, src: Source) {
    !TooDeep(edges, src) && CitationsOk(Closure(edges, src))
  }

  lemma ShallowIsNotTooDeep(edges: set<Edge>, src: Source)
    requires Closure(edges, src) <= Within(edges, src, MAX_TAINT_ROUNDS - 1)
    ensures !TooDeep(edges, src)
  {
    forall c | c in Within(edges, src, MAX_TAINT_ROUNDS) ensures c in Within(edges, src, MAX_TAINT_ROUNDS - 1) {
      WithinRows(edges, src, MAX_TAINT_ROUNDS, c);
    }
  }

  /** One more round adds exactly the rows citing the rows of the last round. */
  lemma NextRound(edges: set<Edge>, src: Source, n: nat)
    requires n > 0
    ensures Within(edges, src, n + 1)
         == Within(edges, src, n) + Citing(edges, Within(edges, src, n) - Within(edges, src, n - 1))
  {
    WithinStep(edges, src, n - 1);
    WithinStep(edges, src, n);
    var newly := Within(edges, src, n) - Within(edges, src, n - 1);
    forall c | c in Within(edges, src, n + 1) && c !in Within(edges, src, n) ensures c in Citing(edges, newly) {
      var e, d :| e in edges && d in Within(edges, src, n) && e.source == Citation(d) && e.row == c;
      assert d in newly;
    }
  }

  lemma {:induction false} Saturated(edges: set<Edge>, src: Source, n: nat)
    requires Within(edges, src, n + 1) == Within(edges, src, n)
    ensures Within(edges, src, n) == Closure(edges, src)
  {
    var all := Within(edges, src, n);
    ClosureIsLeast(edges, src, all);
    forall c | c in all ensures c in Closure(edges, src) { WithinRows(edges, src, n, c); }
  }

  method Enumerate(s: set<string>) returns (q: seq<string>)
    ensures Elements(q) == s
  {
    q := [];
    var rest := s;
    while rest != {}
      invariant Elements(q) + rest == s
      decreases rest
    {
      var x :| x in rest;
      rest := rest - {x};
      q := q + [x];
    }
  }

  /** The next hop's query, 32 citations at a time: chunking loses no row and adds none. */
  method NextHop(edges: set<Edge>, newly: set<Contaminated>) returns (r: Result<set<Contaminated>, ResolveError>)
    ensures r.Ok? <==> CitationsOk(newly)
    ensures r.Ok? ==> r.value == Citing(edges, newly)
    ensures r.Err? ==> r.error.InvalidSource? && !LiteralOk(r.error.value)
  {
    var records := set c | c in newly :: CitationRecord(c);
    var citations := Enumerate(records);
    var next: set<Contaminated> := {};
    var i := 0;
    while i < |citations|
      invariant 0 <= i <= |citations|
      invariant forall j :: 0 <= j < i ==> LiteralOk(citations[j])
      invariant next == set e | e in edges && e.source.system == INTERNAL_SOURCE_SYSTEM && e.source.record in citations[..i] :: e.row
    {
      var end := if i + RESOLUTION_CHUNK <= |citations| then i + RESOLUTION_CHUNK else |citations|;
      var j := i;
      while j < end
        invariant i <= j <= end
        invariant forall k :: 0 <= k < j ==> LiteralOk(citations[k])
      {
        if !LiteralOk(citations[j]) {
          assert citations[j] in Elements(citations);
          return Err(InvalidSource(citations[j]));
        }
        j := j + 1;
      }
      var chunk := citations[i..end];
      assert citations[..end] == citations[..i] + chunk;
      next := next + set e | e in edges && e.source.system == INTERNAL_SOURCE_SYSTEM && e.source.record in chunk :: e.row;
      i := end;
    }
    assert citations[..i] == citations;
    assert forall x :: x in citations <==> x in Elements(citations);
    forall c | c in newly ensures LiteralOk(CitationRecord(c)) {
      assert CitationRecord(c) in citations;
    }
    forall e | e in edges
      ensures e.source in Citations(newly) <==> e.source.system == INTERNAL_SOURCE_SYSTEM && e.source.record in citations
    {
    }
    r := Ok(next);
  }

  /** The loop state after `n` rounds: the rows found so far and the rows the next query returned. */
  ghost predicate AtRound(edges: set<Edge>, src: Source, n: nat, all: set<Contaminated>, frontier: set<Contaminated>) {
    && n <= MAX_TAINT_ROUNDS
    && all == Within(edges, src, n)
    && all + frontier == Within(edges, src, n + 1)
    && (n > 0 ==> frontier == Citing(edges, all - Within(edges, src, n - 1)))
  }

  lemma Start(edges: set<Edge>, src: Source)
    ensures AtRound(edges, src, 0, {}, Direct(edges, src))
  {
    assert Citing(edges, {}) == {};
  }

  lemma Advance(edges: set<Edge>, src: Source, n: nat, all: set<Contaminated>, frontier: set<Contaminated>)
    requires AtRound(edges, src, n, all, frontier) && n < MAX_TAINT_ROUNDS
    ensures AtRound(edges, src, n + 1, all + frontier, Citing(edges, frontier - all))
  {
    NextRound(edges, src, n + 1);
    assert frontier - all == Within(edges, src, n + 1) - Within(edges, src, n);
  }

  lemma FrontierDownstream(edges: set<Edge>, src: Source, n: nat, all: set<Contaminated>, frontier: set<Contaminated>)
    requires AtRound(edges, src, n, all, frontier)
    ensures frontier <= Closure(edges, src)
  {
    forall c | c in frontier ensures c in Closure(edges, src) { WithinRows(edges, src, n + 1, c); }
  }

  /** What resolution promises: the whole closure, exactly when the relation is resolvable. */
  ghost predicate Answers(edges: set<Edge>, src: Source, r: Result<(set<Contaminated>, nat), ResolveError>) {
    match r
    case Ok((rows, rounds)) =>
      && Resolvable(edges, src)
      && rows == Closure(edges, src) == Within(edges, src, rounds)
      && 1 <= rounds <= MAX_TAINT_ROUNDS
    case Err(RoundsExceeded) => TooDeep(edges, src)
    case Err(InvalidSource(value)) => !LiteralOk(value) && !CitationsOk(Closure(edges, src))
  }

  lemma Finished(edges: set<Edge>, src: Source, n: nat, all: set<Contaminated>, frontier: set<Contaminated>)
    requires AtRound(edges, src, n, all, frontier) && frontier <= all
    requires n == MAX_TAINT_ROUNDS ==> frontier == {}
    ensures all == Closure(edges, src) && !TooDeep(edges, src)
    ensures all == Within(edges, src, n) == Within(edges, src, n + 1)
  {
    assert all + frontier == all;
    Saturated(edges, src, n);
    if n < MAX_TAINT_ROUNDS {
      WithinMonotone(edges, src, n, MAX_TAINT_ROUNDS - 1);
      ShallowIsNotTooDeep(edges, src);
    }
  }

  lemma Complete(edges: set<Edge>, src: Source, n: nat, all: set<Contaminated>, frontier: set<Contaminated>, rounds: nat)
    requires AtRound(edges, src, n, all, frontier) && frontier <= all && CitationsOk(all)
    requires n == MAX_TAINT_ROUNDS ==> frontier == {}
    requires n <= rounds <= n + 1 && 1 <= rounds <= MAX_TAINT_ROUNDS
    ensures Answers(edges, src, Ok((all, rounds)))
  {
    Finished(edges, src, n, all, frontier);
    assert Within(edges, src, rounds) == all by {
      if rounds != n { assert rounds == n + 1; }
    }
  }

  lemma Refused(edges: set<Edge>, src: Source, n: nat, all: set<Contaminated>, frontier: set<Contaminated>)
    requires AtRound(edges, src, n, all, frontier)
    ensures !CitationsOk(frontier - all) ==> !CitationsOk(Closure(edges, src))
    ensures n == MAX_TAINT_ROUNDS && frontier != {} ==> Answers(edges, src, Err(RoundsExceeded))
  {
    FrontierDownstream(edges, src, n, all, frontier);
  }

  /** One round: keep the rows not seen before, and query for the rows citing them. */
  method Round(edges: set<Edge>, src: Source, rounds: nat, all: set<Contaminated>, frontier: set<Contaminated>)
    returns (r: Result<(set<Contaminated>, set<Contaminated>), ResolveError>)
    requires AtRound(edges, src, rounds, all, frontier) && rounds < MAX_TAINT_ROUNDS
    requires CitationsOk(all)
    ensures r.Ok? ==> AtRound(edges, src, rounds + 1, r.value.0, r.value.1) && CitationsOk(r.value.0)
    ensures r.Err? ==> r.error.InvalidSource? && !LiteralOk(r.error.value) && !CitationsOk(Closure(edges, src))
  {
    Refused(edges, src, rounds, all, frontier);
    Advance(edges, src, rounds, all, frontier);
    var newly := frontier - all;
    if newly == {} {
      assert Citing(edges, newly) == {} && all + frontier == all;
      return Ok((all, {}));
    }
    var next := NextHop(edges, newly);
    if next.Err? {
      return Err(next.error);
    }
    r := Ok((all + frontier, next.value));
  }

  /** In chains: the answer is every row a chain of citations from the source ends at, and a refusal names what stops it. */
  ghost predicate EndsOfChains(edges: set<Edge>, src: Source, r: Result<(set<Contaminated>, nat), ResolveError>) {
    && (r.Ok? ==> && (forall c :: c in r.value.0 <==> exists path: seq<Edge> :: IsChain(edges, src, path) && path[|path| - 1].row == c)
                  && (forall c :: c in r.value.0 ==> Quotable(c.table + "/" + c.key))
                  && !LongChain(edges, src))
    && (r == Err(RoundsExceeded) ==> LongChain(edges, src))
    && (r.Err? && r.error.InvalidSource? ==> !Quotable(r.error.value))
  }

  /**
   Everything currently downstream of `src`. The loop runs at most 64 rounds on any relation, cyclic
   or not, and answers exactly when the relation is within the round limit and every citation it
   must name is a valid literal.
   */
  method Resolve(edges: set<Edge>, src: Source)
    returns (r: Result<(set<Contaminated>, nat), ResolveError>)
    ensures Answers(edges, src, r)
    ensures EndsOfChains(edges, src, r)
  {
    hide Within, Closure, TooDeep;
    var all: set<Contaminated> := {};
    var frontier := Direct(edges, src);
    var rounds: nat := 0;
    Start(edges, src);
    while frontier != {}
      invariant AtRound(edges, src, rounds, all, frontier)
      invariant CitationsOk(all)
      decreases MAX_TAINT_ROUNDS - rounds
    {
      if rounds == MAX_TAINT_ROUNDS {
        Refused(edges, src, rounds, all, frontier);
        TooDeepIsLong(edges, src);
        return Err(RoundsExceeded);
      }
      var next := Round(edges, src, rounds, all, frontier);
      if next.Err? {
        LiteralIsQuotable(next.error.value);
        return Err(next.error);
      }
      all, frontier := next.value.0, next.value.1;
      rounds := rounds + 1;
    }
    var counted := if rounds == 0 then 1 else rounds;
    Complete(edges, src, rounds, all, frontier, counted);
    forall c ensures c in all <==> exists path: seq<Edge> :: IsChain(edges, src, path) && path[|path| - 1].row == c {
      ClosureIsReachability(edges, src, c);
    }
    TooDeepIsLong(edges, src);
    forall c | c in all ensures Quotable(c.table + "/" + c.key) { LiteralIsQuotable(CitationRecord(c)); }
    r := Ok((all, counted));
  }

  // ---- removing what a taint resolved --------------------------------------------------------

  function Ids(rows: set<Contaminated>): set<RowId> { set c | c in rows :: c.Id() }

  /** The relation once every edge of the named rows is retracted. */
  function Without(edges: set<Edge>, ids: set<RowId>): set<Edge> {
    set e | e in edges && e.row.Id() !in ids
  }

  lemma CitedIsRemoved(edges: set<Edge>, closed: set<Contaminated>, e: Edge, d: Contaminated)
    requires Citing(edges, closed) <= closed && e in edges && e.source == Citation(d)
    ensures d.Id() in Ids(closed) ==> e.row.Id() in Ids(closed)
  {
    if d.Id() in Ids(closed) {
      var c :| c in closed && c.Id() == d.Id();
      assert Citation(c) == Citation(d);
      assert e.row in Citing(edges, closed);
    }
  }

  function Survivors(rows: set<Contaminated>, ids: set<RowId>): set<Contaminated> {
    set c | c in rows && c.Id() !in ids
  }

  lemma RemovalStep(edges: set<Edge>, src: Source, other: Source, near: set<Contaminated>)
    ensures var ids := Ids(Closure(edges, src));
            Direct(Without(edges, ids), other) + Citing(Without(edges, ids), Survivors(near, ids))
            == Survivors(Direct(edges, other) + Citing(edges, near), ids)
  {
    var closure := Closure(edges, src);
    ClosureIsClosed(edges, src);
    var ids := Ids(closure);
    hide Closure;
    var left := Without(edges, ids);
    forall e | e in edges && e.row.Id() !in ids && e.source in Citations(near)
      ensures e.source in Citations(Survivors(near, ids))
    {
      var d :| d in near && e.source == Citation(d);
      CitedIsRemoved(edges, closure, e, d);
      assert d in Survivors(near, ids);
    }
    assert forall s :: s in Citations(Survivors(near, ids)) ==> s in Citations(near);
  }

  /**
   Removing one source's closure cuts no derivation chain of another: at every distance, what is
   left downstream of `other` is what was downstream of it, less the removed rows.
   */
  lemma {:induction false} WithinAfterRemoval(edges: set<Edge>, src: Source, other: Source, n: nat)
    ensures var ids := Ids(Closure(edges, src));
            Within(Without(edges, ids), other, n) == Survivors(Within(edges, other, n), ids)
  {
    if n > 0 {
      hide Closure, Ids, Without, Survivors;
      WithinAfterRemoval(edges, src, other, n - 1);
      RemovalStep(edges, src, other, Within(edges, other, n - 1));
    }
  }

  lemma ClosureAfterRemoval(edges: set<Edge>, src: Source, other: Source)
    ensures var ids := Ids(Closure(edges, src));
            Closure(Without(edges, ids), other) == Survivors(Closure(edges, other), ids)
  {
    hide Within;
    var ids := Ids(Closure(edges, src));
    var left := Without(edges, ids);
    forall c ensures c in Closure(left, other) <==> c in Closure(edges, other) && c.Id() !in ids {
      if c in Closure(left, other) {
        var n: nat :| c in Within(left, other, n);
        WithinAfterRemoval(edges, src, other, n);
        WithinRows(edges, other, n, c);
      }
      if c in Closure(edges, other) && c.Id() !in ids {
        var n: nat :| c in Within(edges, other, n);
        WithinAfterRemoval(edges, src, other, n);
        WithinRows(left, other, n, c);
      }
    }
  }

  /** A tainted source resolves to nothing once its own edges are gone. */
  lemma ResolvedOnce(edges: set<Edge>, src: Source)
    ensures Closure(Without(edges, Ids(Closure(edges, src))), src) == {}
  {
    ClosureAfterRemoval(edges, src, src);
    assert forall c :: c in Closure(edges, src) ==> c.Id() in Ids(Closure(edges, src));
  }

  /** Removal keeps every other source resolvable: it deepens no chain and names no new citation. */
  lemma ResolvableAfterRemoval(edges: set<Edge>, src: Source, other: Source)
    requires Resolvable(edges, other)
    ensures Resolvable(Without(edges, Ids(Closure(edges, src))), other)
  {
    var ids := Ids(Closure(edges, src));
    var left := Without(edges, ids);
    ClosureAfterRemoval(edges, src, other);
    var n := MAX_TAINT_ROUNDS;
    WithinAfterRemoval(edges, src, other, n);
    WithinAfterRemoval(edges, src, other, n - 1);
    hide Within;
    assert Within(left, other, n) - Within(left, other, n - 1) <= Within(edges, other, n) - Within(edges, other, n - 1);
  }

  /** The two orders of removal leave the same relation: the joint closure is gone, nothing else. */
  lemma RemovalsCommute(edges: set<Edge>, a: Source, b: Source)
    ensures var afterA := Without(edges, Ids(Closure(edges, a)));
            Without(afterA, Ids(Closure(afterA, b))) == Without(edges, Ids(Closure(edges, a)) + Ids(Closure(edges, b)))
  {
    ClosureAfterRemoval(edges, a, b);
  }
}
