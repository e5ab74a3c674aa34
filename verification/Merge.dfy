/**
 Durable merge on the incident host: the child's post-fork rows become new commits on the target, each
 carrying a marker in the derivation relation, so that an interrupted, crashed or repeated merge lands
 every row once. The host commits one row at a time, so commit `i` (from 0) is epoch `i + 1`.
 */
module Merge {
  import opened Wrappers
  import L = Lineage
  import O = Order
  import Q = Queue

  datatype Source = Named(system: string, id: string) | BranchOf(parent: string) | MergeMarker(child: string)

  datatype Record =
    | Data(branch: string, table: string, key: string, body: string, sources: set<Source>)
    | Lifecycle(event: L.ForkEvent)

  /**
   The durable commits and the host's own commit sequence; the engine's sealed epoch, how many of the last
   commit's two batches it has not ingested, and the commits whose derivation rows are not sealed yet; whether a
   taint closed the host to commits, whether the hot ledger lists rows, whether the engine ever sealed an epoch of
   its own, and the commits whose derivation rows a taint retracted.
   */
  datatype Host = Host(
    history: seq<Record>,
    seq_: nat,
    epoch: nat,
    missing: nat,
    hidden: set<nat>,
    tainted: bool,
    hot: bool,
    drifted: bool,
    lost: set<nat>)

  const NEW := Host([], 0, 0, 0, {}, false, false, false, {})

  datatype MergeError = UnknownBranch | RewoundBranch | Denied | CommitRefused | Interrupted

  // ---- reading the history -------------------------------------------------------------------------------

  predicate IsFork(r: Record, child: string) { r.Lifecycle? && r.event.kind == L.Fork && r.event.child == child }

  predicate IsRewind(r: Record, child: string) { r.Lifecycle? && r.event.kind == L.Rewind && r.event.child == child }

  function ForkEpoch(history: seq<Record>, child: string): Option<nat> {
    if history == [] then None else
      var earlier := ForkEpoch(history[..|history| - 1], child);
      var r := history[|history| - 1];
      if earlier.Some? then earlier else if IsFork(r, child) then Some(r.event.atEpoch) else None
  }

  predicate Rewound(history: seq<Record>, child: string) {
    exists i :: 0 <= i < |history| && IsRewind(history[i], child)
  }

  predicate Marked(r: Record, child: string) { r.Data? && MergeMarker(child) in r.sources }

  /** The keys the derivation relation marks as merged from `child`. */
  function Already(history: seq<Record>, child: string): set<string> {
    set i | 0 <= i < |history| && Marked(history[i], child) :: history[i].key
  }

  /** Row `i` is post-fork divergence of `child`. */
  predicate Diverged(history: seq<Record>, child: string, epoch: nat, i: int) {
    0 <= i < |history| && history[i].Data? && history[i].branch == child && i + 1 > epoch
  }

  type Row = r: Record | r.Data? witness Data("", "", "", "", {})

  /** The divergence among the first `n` commits whose keys are not marked, oldest first. */
  function PlanOf(history: seq<Record>, child: string, epoch: nat, already: set<string>, n: nat): seq<Row>
    requires n <= |history|
  {
    if n == 0 then [] else
      PlanOf(history, child, epoch, already, n - 1)
      + if Diverged(history, child, epoch, n - 1) && history[n - 1].key !in already then [history[n - 1]] else []
  }

  function Plan(h: Host, child: string): Result<seq<Row>, MergeError> {
    match ForkEpoch(h.history, child)
    case None => Err(UnknownBranch)
    case Some(epoch) =>
      if Rewound(h.history, child) then Err(RewoundBranch)
      else Ok(PlanOf(h.history, child, epoch, Already(Seen(h), child), |h.history|))
  }

  /** The commits as the derivation relation shows them: no sources where they are unsealed or retracted. */
  function Seen(h: Host): seq<Record> {
    seq(|h.history|, i requires 0 <= i < |h.history| =>
      if i in h.hidden + h.lost && h.history[i].Data? then h.history[i].(sources := {}) else h.history[i])
  }

  lemma AllSeen(h: Host)
    requires h.hidden == {} && h.lost == {}
    ensures Seen(h) == h.history
  {
  }

  // ---- writing -------------------------------------------------------------------------------------------

  /** The last commit's derivation batch is still to be ingested: batches go in table order. */
  predicate EdgesMissing(h: Host) {
    h.history != [] && h.missing > 0 &&
    var r := h.history[|h.history| - 1];
    h.missing > 1 || (if r.Data? then O.Less(r.table, Q.DERIVATION_TABLE) else false)
  }

  /** A sealed epoch shows everything ingested so far. */
  function Sealed(h: Host): Host {
    h.(epoch := h.epoch + 1, hidden := if EdgesMissing(h) then {|h.history| - 1} else {})
  }

  /** Log steps of one commit: two batches, the seal, and the host's own count. */
  const ALL_STEPS: nat := 4

  /**
   A commit needs an untainted host in step with its store. It is durable before anything is applied, and what is
   applied can stop after any of its steps. An engine whose clock is past the commit takes it for a replay: the
   first batch goes in, is not one, and ends the call.
   */
  function Ingest(h: Host, r: Record, steps: nat): Option<Host> {
    if h.tainted || h.seq_ != |h.history| then None else
      var n := |h.history|;
      var h1 := h.(history := h.history + [r], hidden := h.hidden + {n}, missing := 2);
      if steps == 0 || h.epoch < n then Some(h1)
      else if h.epoch > n || steps == 1 then Some(h1.(missing := 1))
      else if steps == 2 then Some(h1.(missing := 0))
      else if steps == 3 then Some(Sealed(h1.(missing := 0)))
      else Some(Sealed(h1.(missing := 0)).(seq_ := n + 1))
  }

  /** A merged row keeps its table, key, body and every source of its own, and gains the marker. */
  function Copy(r: Record, child: string, into: string): (c: Record)
    requires r.Data?
    ensures c.Data? && c.branch == into && Marked(c, child) && r.sources <= c.sources && c.key == r.key
  {
    r.(branch := into, sources := r.sources + {MergeMarker(child)})
  }

  /** Field by field: `c` is the row `r` on the target, with the marker among its sources. */
  ghost predicate IsCopy(c: Record, r: Record, child: string, into: string) {
    && c.Data? && r.Data? && c.branch == into
    && c.table == r.table && c.key == r.key && c.body == r.body && c.sources == r.sources + {MergeMarker(child)}
  }

  lemma CopyIsCopy(r: Record, child: string, into: string, c: Record)
    requires r.Data?
    ensures IsCopy(c, r, child, into) <==> c == Copy(r, child, into)
  {
  }

  /** How far a merge gets: to the end, to an injected limit, or to a death after so many steps of one row. */
  datatype Stop = Complete | Limit(rows: nat) | Dies(rows: nat, steps: nat)

  function Reach(stop: Stop, size: nat): (n: nat)
    ensures n <= size
  {
    match stop
    case Complete => size
    case Limit(k) => if k < size then k else size
    case Dies(k, _) => if k < size then k + 1 else size
  }

  function Landing(history: seq<Record>, plan: seq<Row>, child: string, into: string, n: nat): seq<Record>
    requires n <= |plan|
  {
    if n == 0 then history else Landing(history, plan, child, into, n - 1) + [Copy(plan[n - 1], child, into)]
  }

  /** A merge attempt: plan, re-run policy on all of it, then commit row by row until it stops. */
  function MergeStep(h: Host, child: string, into: string, allowed: bool, stop: Stop): Host {
    match Plan(h, child)
    case Err(_) => h
    case Ok(plan) =>
      if plan == [] || !allowed || h.tainted || h.seq_ != |h.history| then h else Merged(h, plan, child, into, stop)
  }

  /** The host after the first `n` rows of a plan landed whole. */
  function Advanced(h: Host, plan: seq<Row>, child: string, into: string, n: nat): Host
    requires n <= |plan|
  {
    if n == 0 then h else
      h.(history := Landing(h.history, plan, child, into, n), seq_ := h.seq_ + n, epoch := h.epoch + n, missing := 0, hidden := {})
  }

  /** All rows but the last land whole; the last takes the steps the stop leaves it. */
  function Merged(h: Host, plan: seq<Row>, child: string, into: string, stop: Stop): Host {
    var n := Lands(h, stop, |plan|);
    if n == 0 then h else
      var before := Advanced(h, plan, child, into, n - 1);
      OrSame(Ingest(before, Copy(plan[n - 1], child, into), StepsAt(stop, n - 1)), before)
  }

  function StepsAt(stop: Stop, k: nat): nat { if stop.Dies? && stop.rows == k then stop.steps else ALL_STEPS }

  /** How many planned rows become commits: an engine out of step with the commits stops the merge at its first. */
  function Lands(h: Host, stop: Stop, size: nat): (n: nat)
    ensures n <= size
  {
    if h.epoch != |h.history| && Reach(stop, size) > 0 then 1 else Reach(stop, size)
  }

  function OrSame(next: Option<Host>, h: Host): Host { if next.Some? then next.value else h }

  ghost predicate Unmerged(history: seq<Record>, child: string, epoch: nat, already: set<string>, n: nat, i: int) {
    i < n && Diverged(history, child, epoch, i) && history[i].key !in already
  }

  lemma {:induction false} PlanFrom(history: seq<Record>, child: string, epoch: nat, already: set<string>, n: nat, a: nat)
    returns (i: int)
    requires n <= |history| && a < |PlanOf(history, child, epoch, already, n)|
    ensures Unmerged(history, child, epoch, already, n, i) && history[i] == PlanOf(history, child, epoch, already, n)[a]
  {
    if a < |PlanOf(history, child, epoch, already, n - 1)| {
      i := PlanFrom(history, child, epoch, already, n - 1, a);
    } else {
      i := n - 1;
    }
  }

  lemma {:induction false} PlanHas(history: seq<Record>, child: string, epoch: nat, already: set<string>, n: nat, i: int)
    requires n <= |history| && Unmerged(history, child, epoch, already, n, i)
    ensures history[i] in PlanOf(history, child, epoch, already, n)
  {
    if i < n - 1 { PlanHas(history, child, epoch, already, n - 1, i); }
  }

  /** The plan is exactly the unmarked divergence. */
  lemma PlanRows(history: seq<Record>, child: string, epoch: nat, already: set<string>, n: nat)
    requires n <= |history|
    ensures var plan := PlanOf(history, child, epoch, already, n);
            && (forall a :: 0 <= a < |plan| ==> exists i :: Unmerged(history, child, epoch, already, n, i) && history[i] == plan[a])
            && (forall i :: Unmerged(history, child, epoch, already, n, i) ==> history[i] in plan)
            && (plan != [] ==> exists i :: Unmerged(history, child, epoch, already, n, i))
  {
    var plan := PlanOf(history, child, epoch, already, n);
    forall a | 0 <= a < |plan| ensures exists i :: Unmerged(history, child, epoch, already, n, i) && history[i] == plan[a] {
      var i := PlanFrom(history, child, epoch, already, n, a);
    }
    forall i | Unmerged(history, child, epoch, already, n, i) ensures history[i] in plan {
      PlanHas(history, child, epoch, already, n, i);
    }
    if plan != [] { var i := PlanFrom(history, child, epoch, already, n, 0); }
  }

  ghost predicate OneKeyEach(plan: seq<Row>) {
    forall a, b :: 0 <= a < b < |plan| ==> plan[a].key != plan[b].key
  }

  lemma OneMoreKey(plan: seq<Row>, r: Row)
    requires OneKeyEach(plan) && forall a :: 0 <= a < |plan| ==> plan[a].key != r.key
    ensures OneKeyEach(plan + [r])
  {
  }

  lemma {:induction false} PlanDistinct(history: seq<Record>, child: string, epoch: nat, already: set<string>, n: nat)
    requires n <= |history|
    requires forall i, j :: Diverged(history, child, epoch, i) && Diverged(history, child, epoch, j) && history[i].key == history[j].key ==> i == j
    ensures OneKeyEach(PlanOf(history, child, epoch, already, n))
  {
    if n > 0 {
      PlanDistinct(history, child, epoch, already, n - 1);
      var prior, plan := PlanOf(history, child, epoch, already, n - 1), PlanOf(history, child, epoch, already, n);
      if plan != prior {
        assert Diverged(history, child, epoch, n - 1) && plan == prior + [history[n - 1]];
        forall a | 0 <= a < |prior| ensures prior[a].key != history[n - 1].key {
          var i := PlanFrom(history, child, epoch, already, n - 1, a);
          assert i != n - 1 && Diverged(history, child, epoch, i);
        }
        OneMoreKey(prior, history[n - 1]);
      }
    }
  }

  // ---- every series of merges of one child into one target --------------------------------------------------

  /** `steps` is how many log steps of the commit survive; a taint seals `epochs` of the engine's own. */
  datatype Event =
    | Writing(r: Record, steps: nat)
    | Forking(child: string, parent: string, steps: nat)
    | Rewinding(child: string, steps: nat)
    | Merging(allowed: bool, stop: Stop)
    | Tainting(epochs: nat, journals: bool, rows: set<nat>)   // `rows`: the commits whose derivation rows it retracts
    | Archiving(left: bool)                                   // `left`: some rows stay hot
    | Reopening

  /** Merges are of `child` into `into`; everything else is arbitrary. */
  function Step(child: string, into: string, h: Host, ev: Event): Host {
    match ev
    case Writing(r, steps) => OrSame(Ingest(h, r, steps), h)
    case Forking(c, parent, steps) =>
      if ForkEpoch(h.history, c).Some? then h
      else OrSame(Ingest(h, Lifecycle(L.ForkEvent(c, parent, h.seq_ + 1, L.Fork)), steps), h)
    case Rewinding(c, steps) =>
      if ForkEpoch(h.history, c).None? || Rewound(h.history, c) then h
      else OrSame(Ingest(h, Lifecycle(L.ForkEvent(c, "", h.seq_ + 1, L.Rewind)), steps), h)
    case Merging(allowed, stop) => MergeStep(h, child, into, allowed, stop)
    case Tainting(epochs, journals, rows) => Tainted(h, epochs, journals, rows)
    case Archiving(left) => if h.hot then Sealed(h).(hot := left, drifted := true) else h
    case Reopening => Reopened(h)
  }

  function Tainted(h: Host, epochs: nat, journals: bool, rows: set<nat>): Host {
    if epochs == 0 then h.(tainted := true) else
      Sealed(h).(epoch := h.epoch + epochs, tainted := true, hot := h.hot || journals, drifted := true, lost := h.lost + rows)
  }

  /**
   A reopen offers every commit again. What is sealed or pending is dropped as a replay; the commit that follows
   the engine's clock is completed and sealed; one at or below the clock with a batch missing is refused, but the
   batch stays, so that a later reopen gets past it. The hot ledger says whether an opened host is tainted.
   */
  function Reopened(h: Host): Host {
    var n := |h.history|;
    if n <= h.epoch then
      if h.missing == 0 then h.(seq_ := n, tainted := h.hot) else h.(missing := h.missing - 1)
    else if n == h.epoch + 1 then Sealed(h.(missing := 0)).(seq_ := n, tainted := h.hot)
    else h
  }

  function Run(child: string, into: string, events: seq<Event>): Host {
    if events == [] then NEW
    else Step(child, into, Run(child, into, events[..|events| - 1]), events[|events| - 1])
  }

  /** The marker is the merge's own: no other write carries it. */
  ghost predicate Unmarked(child: string, events: seq<Event>) {
    forall i :: 0 <= i < |events| && events[i].Writing? ==> events[i].r.Data? && !Marked(events[i].r, child)
  }

  /** No reopen after the hot ledger was archived, or never told, of a taint that sealed an epoch. */
  ghost predicate LedgerKept(child: string, into: string, events: seq<Event>) {
    events == [] ||
    var h := Run(child, into, events[..|events| - 1]);
    LedgerKept(child, into, events[..|events| - 1]) && (events[|events| - 1].Reopening? ==> h.hot || !h.drifted)
  }

  ghost predicate IsDivergence(history: seq<Record>, child: string, i: int) {
    ForkEpoch(history, child).Some? && Diverged(history, child, ForkEpoch(history, child).value, i)
  }

  ghost predicate DistinctKeys(history: seq<Record>, child: string) {
    forall i, j :: IsDivergence(history, child, i) && IsDivergence(history, child, j) && history[i].key == history[j].key ==> i == j
  }

  ghost predicate CopyOf(history: seq<Record>, child: string, into: string, i: int, j: int) {
    0 <= j < |history| && IsDivergence(history, child, i) && IsCopy(history[j], history[i], child, into)
  }

  /** Everything marked is a copy of a post-fork row, and no key is marked twice. */
  ghost predicate MarksOk(history: seq<Record>, child: string, into: string) {
    && (forall j :: 0 <= j < |history| && Marked(history[j], child) ==> exists i :: CopyOf(history, child, into, i, j))
    && (forall j, k :: 0 <= j < k < |history| && Marked(history[j], child) && Marked(history[k], child) ==> history[j].key != history[k].key)
  }

  /** The engine's epochs are the commits, except perhaps the last one. */
  ghost predicate Clean(h: Host) {
    && h.lost == {} && h.seq_ <= |h.history|
    && (if h.epoch == |h.history| then h.missing == 0 && h.hidden == {}
        else h.epoch + 1 == |h.history| && h.hidden == {h.epoch} && h.seq_ < |h.history|)
  }

  ghost predicate Inv(h: Host, child: string, into: string) {
    MarksOk(h.history, child, into) && (if h.drifted then h.tainted else Clean(h)) && (h.hot ==> h.tainted)
  }

  lemma {:induction false} ForkEpochKept(history: seq<Record>, more: seq<Record>, child: string)
    requires ForkEpoch(history, child).Some?
    ensures ForkEpoch(history + more, child) == ForkEpoch(history, child)
  {
    if more == [] {
      assert history + more == history;
    } else {
      assert (history + more)[..|history + more| - 1] == history + more[..|more| - 1];
      ForkEpochKept(history, more[..|more| - 1], child);
    }
  }

  lemma DivergenceKept(history: seq<Record>, more: seq<Record>, child: string)
    ensures forall i :: IsDivergence(history, child, i) ==> IsDivergence(history + more, child, i)
  {
    if ForkEpoch(history, child).Some? { ForkEpochKept(history, more, child); }
  }

  lemma DistinctPrefix(history: seq<Record>, more: seq<Record>, child: string)
    requires DistinctKeys(history + more, child)
    ensures DistinctKeys(history, child)
  {
    DivergenceKept(history, more, child);
  }

  lemma AppendKeepsMarks(history: seq<Record>, r: Record, child: string, into: string)
    requires MarksOk(history, child, into)
    requires Marked(r, child) ==>
               && r.key !in Already(history, child)
               && exists i :: IsDivergence(history, child, i) && r == Copy(history[i], child, into)
    ensures MarksOk(history + [r], child, into)
  {
    var after := history + [r];
    DivergenceKept(history, [r], child);
    forall j | 0 <= j < |after| && Marked(after[j], child) ensures exists i :: CopyOf(after, child, into, i, j) {
      if j < |history| {
        var i :| CopyOf(history, child, into, i, j);
        assert CopyOf(after, child, into, i, j);
      } else {
        var i :| IsDivergence(history, child, i) && r == Copy(history[i], child, into);
        assert CopyOf(after, child, into, i, j);
      }
    }
    forall j, k | 0 <= j < k < |after| && Marked(after[j], child) && Marked(after[k], child)
      ensures after[j].key != after[k].key
    {
      if k == |history| { assert history[j].key in Already(history, child); }
    }
  }

  lemma AlreadyGrows(history: seq<Record>, r: Record, child: string)
    ensures Already(history + [r], child) == Already(history, child) + if Marked(r, child) then {r.key} else {}
  {
    var after := history + [r];
    forall key ensures key in Already(after, child) <==> key in Already(history, child) || (Marked(r, child) && key == r.key) {
      if i :| 0 <= i < |history| && Marked(history[i], child) && history[i].key == key {
        assert after[i] == history[i];
      }
      if Marked(r, child) { assert after[|history|] == r; }
    }
  }

  ghost predicate Fits(history: seq<Record>, plan: seq<Row>, child: string) {
    && (forall a :: 0 <= a < |plan| ==> plan[a].key !in Already(history, child) && exists i :: IsDivergence(history, child, i) && history[i] == plan[a])
    && OneKeyEach(plan)
  }

  ghost predicate Landed(history: seq<Record>, plan: seq<Row>, child: string, into: string, n: nat, after: seq<Record>)
    requires n <= |plan|
  {
    && history <= after && |after| == |history| + n
    && (forall a :: 0 <= a < n ==> after[|history| + a] == Copy(plan[a], child, into))
    && (forall key :: key in Already(after, child) <==> key in Already(history, child) || exists a :: 0 <= a < n && plan[a].key == key)
  }

  lemma LandedNext(history: seq<Record>, plan: seq<Row>, child: string, into: string, n: nat, before: seq<Record>)
    requires n < |plan| && Landed(history, plan, child, into, n, before)
    ensures Landed(history, plan, child, into, n + 1, before + [Copy(plan[n], child, into)])
  {
    var r := Copy(plan[n], child, into);
    var after := before + [r];
    AlreadyGrows(before, r, child);
    forall key ensures key in Already(after, child) <==> key in Already(history, child) || exists a :: 0 <= a < n + 1 && plan[a].key == key {
      hide Already;
      if key in Already(after, child) && key !in Already(history, child) {
        if key == plan[n].key { assert plan[n].key == key; }
      }
      if a :| 0 <= a < n + 1 && plan[a].key == key { assert a < n || key == r.key; }
    }
    hide Already;
  }

  lemma LandOne(history: seq<Record>, plan: seq<Row>, child: string, into: string, n: nat, before: seq<Record>)
    requires Fits(history, plan, child) && n < |plan| && Landed(history, plan, child, into, n, before)
    requires MarksOk(before, child, into)
    ensures MarksOk(before + [Copy(plan[n], child, into)], child, into)
  {
    var r := Copy(plan[n], child, into);
    assert before == history + before[|history|..];
    DivergenceKept(history, before[|history|..], child);
    var i :| IsDivergence(history, child, i) && history[i] == plan[n];
    assert IsDivergence(before, child, i) && before[i] == plan[n];
    assert r.key !in Already(before, child);
    hide Fits, Landed, MarksOk, Already, IsDivergence;
    AppendKeepsMarks(before, r, child, into);
  }

  /** Landing rows under distinct keys, none of them marked before, keeps the marks in order. */
  lemma {:induction false} LandingKeepsMarks(history: seq<Record>, plan: seq<Row>, child: string, into: string, n: nat)
    requires MarksOk(history, child, into) && n <= |plan| && Fits(history, plan, child)
    ensures MarksOk(Landing(history, plan, child, into, n), child, into)
    ensures Landed(history, plan, child, into, n, Landing(history, plan, child, into, n))
  {
    if n == 0 {
      LandedNone(history, plan, child, into);
      hide Fits, Landed, MarksOk;
    } else {
      hide Fits, Landed, MarksOk;
      LandingKeepsMarks(history, plan, child, into, n - 1);
      var before := Landing(history, plan, child, into, n - 1);
      LandOne(history, plan, child, into, n - 1, before);
      LandedNext(history, plan, child, into, n - 1, before);
    }
  }

  lemma LandedNone(history: seq<Record>, plan: seq<Row>, child: string, into: string)
    ensures Landed(history, plan, child, into, 0, history)
  {
    hide Already;
  }

  lemma PlanFits(h: Host, child: string)
    requires h.hidden == {} && h.lost == {} && DistinctKeys(h.history, child) && Plan(h, child).Ok?
    ensures Fits(h.history, Plan(h, child).value, child)
    ensures forall i :: IsDivergence(h.history, child, i) && h.history[i].key !in Already(h.history, child) ==> h.history[i] in Plan(h, child).value
  {
    var epoch := ForkEpoch(h.history, child).value;
    var already := Already(Seen(h), child);
    AllSeen(h);
    PlanRows(h.history, child, epoch, already, |h.history|);
    forall i | IsDivergence(h.history, child, i) && h.history[i].key !in already ensures h.history[i] in Plan(h, child).value {
      assert Unmerged(h.history, child, epoch, already, |h.history|, i);
    }
    forall i | Unmerged(h.history, child, epoch, already, |h.history|, i) ensures IsDivergence(h.history, child, i) {}
    assert forall i, j :: Diverged(h.history, child, epoch, i) && Diverged(h.history, child, epoch, j) ==>
      IsDivergence(h.history, child, i) && IsDivergence(h.history, child, j);
    PlanDistinct(h.history, child, epoch, already, |h.history|);
  }

  /** What a merge commits is its plan's copies, row by row. */
  lemma MergedHistory(h: Host, plan: seq<Row>, child: string, into: string, stop: Stop)
    requires !h.tainted && h.seq_ == |h.history|
    ensures Merged(h, plan, child, into, stop).history == Landing(h.history, plan, child, into, Lands(h, stop, |plan|))
  {
    var n := Lands(h, stop, |plan|);
    if n > 0 { LandingSize(h.history, plan, child, into, n - 1); }
  }

  lemma {:induction false} LandingSize(history: seq<Record>, plan: seq<Row>, child: string, into: string, n: nat)
    requires n <= |plan|
    ensures |Landing(history, plan, child, into, n)| == |history| + n
  {
    if n > 0 { LandingSize(history, plan, child, into, n - 1); }
  }

  lemma MergedIsClean(h: Host, plan: seq<Row>, child: string, into: string, stop: Stop)
    requires Clean(h) && !h.tainted && !h.drifted && h.seq_ == |h.history|
    ensures var h' := Merged(h, plan, child, into, stop); Clean(h') && !h'.tainted && !h'.drifted && h'.hot == h.hot
  {
    var n := Lands(h, stop, |plan|);
    if n > 0 {
      LandingSize(h.history, plan, child, into, n - 1);
      IngestIsClean(Advanced(h, plan, child, into, n - 1), Copy(plan[n - 1], child, into), StepsAt(stop, n - 1));
    }
  }

  lemma IngestIsClean(h: Host, r: Record, steps: nat)
    requires Clean(h) && !h.tainted && h.seq_ == |h.history|
    ensures var h' := Ingest(h, r, steps).value;
            Clean(h') && h'.tainted == h.tainted && h'.drifted == h.drifted && h'.hot == h.hot && h'.history == h.history + [r]
  {
  }

  lemma MergeKeepsInv(h: Host, child: string, into: string, allowed: bool, stop: Stop)
    requires Inv(h, child, into) && DistinctKeys(h.history, child)
    ensures var h' := MergeStep(h, child, into, allowed, stop); Inv(h', child, into) && h.history <= h'.history
  {
    if Plan(h, child).Ok? && h.seq_ == |h.history| && !h.tainted {
      var plan := Plan(h, child).value;
      PlanFits(h, child);
      LandingKeepsMarks(h.history, plan, child, into, Lands(h, stop, |plan|));
      MergedHistory(h, plan, child, into, stop);
      MergedIsClean(h, plan, child, into, stop);
      hide Fits, MarksOk, Plan, Merged, Clean, Already;
    }
  }

  lemma IngestKeepsInv(h: Host, r: Record, steps: nat, child: string, into: string)
    requires Inv(h, child, into) && !Marked(r, child)
    ensures var h' := OrSame(Ingest(h, r, steps), h); Inv(h', child, into) && h.history <= h'.history
  {
    AppendKeepsMarks(h.history, r, child, into);
    if Ingest(h, r, steps).Some? { IngestIsClean(h, r, steps); }
    hide MarksOk, Clean;
  }

  lemma StepKeepsInv(child: string, into: string, h: Host, ev: Event)
    requires Inv(h, child, into) && DistinctKeys(h.history, child)
    requires ev.Writing? ==> !Marked(ev.r, child)
    requires ev.Reopening? ==> h.hot || !h.drifted
    ensures Inv(Step(child, into, h, ev), child, into) && h.history <= Step(child, into, h, ev).history
  {
    hide MarksOk;
    match ev
    case Writing(r, steps) => IngestKeepsInv(h, r, steps, child, into);
    case Forking(c, parent, steps) =>
      IngestKeepsInv(h, Lifecycle(L.ForkEvent(c, parent, h.seq_ + 1, L.Fork)), steps, child, into);
    case Rewinding(c, steps) =>
      IngestKeepsInv(h, Lifecycle(L.ForkEvent(c, "", h.seq_ + 1, L.Rewind)), steps, child, into);
    case Merging(allowed, stop) => MergeKeepsInv(h, child, into, allowed, stop);
    case Tainting(_, _, _) =>
    case Archiving(_) =>
    case Reopening =>
  }

  lemma {:induction false} RunGrows(child: string, into: string, events: seq<Event>)
    requires events != []
    ensures Run(child, into, events[..|events| - 1]).history <= Run(child, into, events).history
  {
    StepGrows(child, into, Run(child, into, events[..|events| - 1]), events[|events| - 1]);
  }

  lemma StepGrows(child: string, into: string, h: Host, ev: Event)
    ensures h.history <= Step(child, into, h, ev).history
  {
    if ev.Merging? && Plan(h, child).Ok? {
      var plan := Plan(h, child).value;
      LandingGrows(h.history, plan, child, into, Lands(h, ev.stop, |plan|));
      if !h.tainted && h.seq_ == |h.history| { MergedHistory(h, plan, child, into, ev.stop); }
      hide Merged, Plan;
    }
  }

  lemma {:induction false} LandingGrows(history: seq<Record>, plan: seq<Row>, child: string, into: string, n: nat)
    requires n <= |plan|
    ensures history <= Landing(history, plan, child, into, n)
  {
    if n > 0 { LandingGrows(history, plan, child, into, n - 1); }
  }

  lemma RunSplits(child: string, into: string, events: seq<Event>)
    requires events != [] && Unmarked(child, events) && LedgerKept(child, into, events)
    ensures var earlier, last := events[..|events| - 1], events[|events| - 1];
            var h := Run(child, into, earlier);
            && Unmarked(child, earlier) && LedgerKept(child, into, earlier) && Run(child, into, events) == Step(child, into, h, last)
            && (last.Writing? ==> !Marked(last.r, child)) && (last.Reopening? ==> h.hot || !h.drifted)
  {
    hide Step;
  }

  lemma {:induction false} RunInv(child: string, into: string, events: seq<Event>)
    requires Unmarked(child, events) && LedgerKept(child, into, events) && DistinctKeys(Run(child, into, events).history, child)
    ensures Inv(Run(child, into, events), child, into)
  {
    hide *;
    if events == [] {
      NewInv(child, into);
    } else {
      RunSplits(child, into, events);
      RunGrows(child, into, events);
      var earlier := events[..|events| - 1];
      var h, after := Run(child, into, earlier), Run(child, into, events);
      assert after.history == h.history + after.history[|h.history|..];
      DistinctPrefix(h.history, after.history[|h.history|..], child);
      RunInv(child, into, earlier);
      StepKeepsInv(child, into, h, events[|events| - 1]);
    }
  }

  lemma NewInv(child: string, into: string)
    ensures Inv(Run(child, into, []), child, into)
  {
  }

  /** Row `i` is on the target exactly once: one copy of it, and no other marked row with its key. */
  ghost predicate LandedOnce(history: seq<Record>, child: string, into: string, i: int) {
    exists j :: CopyOf(history, child, into, i, j)
                && forall k :: 0 <= k < |history| && Marked(history[k], child) && history[k].key == history[i].key ==> k == j
  }

  /** Commit `i` is a row of `child` and comes after the record of the child's fork. */
  ghost predicate AfterFork(history: seq<Record>, child: string, i: int) {
    && 0 <= i < |history| && history[i].Data? && history[i].branch == child
    && exists f :: 0 <= f < i && IsFork(history[f], child)
  }

  ghost predicate CopyAt(history: seq<Record>, child: string, into: string, i: int, j: int) {
    0 <= i < |history| && 0 <= j < |history| && IsCopy(history[j], history[i], child, into)
  }

  /** Every lifecycle record names its own place in the history. */
  ghost predicate Dated(history: seq<Record>) {
    forall f :: 0 <= f < |history| && history[f].Lifecycle? ==> history[f].event.atEpoch == f + 1
  }

  lemma {:induction false} ForkEpochIsFirst(history: seq<Record>, child: string)
    requires Dated(history)
    ensures ForkEpoch(history, child).None? ==> forall f :: 0 <= f < |history| ==> !IsFork(history[f], child)
    ensures ForkEpoch(history, child).Some? ==>
              var e := ForkEpoch(history, child).value;
              1 <= e <= |history| && IsFork(history[e - 1], child) && forall f :: 0 <= f < e - 1 ==> !IsFork(history[f], child)
  {
    if history != [] { ForkEpochIsFirst(history[..|history| - 1], child); }
  }

  lemma DivergenceIsAfterFork(history: seq<Record>, child: string, i: int)
    requires Dated(history)
    ensures IsDivergence(history, child, i) <==> AfterFork(history, child, i)
  {
    ForkEpochIsFirst(history, child);
    hide ForkEpoch;
    if IsDivergence(history, child, i) { assert IsFork(history[ForkEpoch(history, child).value - 1], child); }
  }

  lemma {:induction false} RunDated(child: string, into: string, events: seq<Event>)
    requires Unmarked(child, events)
    ensures Dated(Run(child, into, events).history)
  {
    if events != [] {
      RunDated(child, into, events[..|events| - 1]);
      var h, ev := Run(child, into, events[..|events| - 1]), events[|events| - 1];
      assert ev.Writing? ==> ev.r.Data?;
      hide Step, Run, Dated;
      StepDated(child, into, h, ev);
    }
  }

  lemma StepDated(child: string, into: string, h: Host, ev: Event)
    requires Dated(h.history) && (ev.Writing? ==> ev.r.Data?)
    ensures Dated(Step(child, into, h, ev).history)
  {
    hide Ingest, MergeStep, Dated, ForkEpoch, Rewound, Sealed;
    match ev
    case Writing(r, steps) => IngestDated(h, r, steps);
    case Forking(c, parent, steps) => IngestDated(h, Lifecycle(L.ForkEvent(c, parent, h.seq_ + 1, L.Fork)), steps);
    case Rewinding(c, steps) => IngestDated(h, Lifecycle(L.ForkEvent(c, "", h.seq_ + 1, L.Rewind)), steps);
    case Merging(allowed, stop) => MergeDated(h, child, into, allowed, stop);
    case _ => SealedHistory(h);
  }

  lemma SealedHistory(h: Host)
    ensures Sealed(h).history == h.history && Reopened(h).history == h.history
  {
  }

  lemma IngestDated(h: Host, r: Record, steps: nat)
    requires Dated(h.history) && (r.Lifecycle? ==> r.event.atEpoch == h.seq_ + 1)
    ensures Dated(OrSame(Ingest(h, r, steps), h).history)
  {
    if Ingest(h, r, steps).Some? { assert Ingest(h, r, steps).value.history == h.history + [r]; }
  }

  lemma {:induction false} LandingDated(history: seq<Record>, plan: seq<Row>, child: string, into: string, n: nat)
    requires n <= |plan| && Dated(history)
    ensures Dated(Landing(history, plan, child, into, n))
  {
    if n > 0 { LandingDated(history, plan, child, into, n - 1); }
  }

  /**
   Merge lands once. In any run of writes, forks, rewinds, taints, archivals, crashes and merges of one child
   into one target, stopped after any log step, as long as the child's divergence has distinct keys and no host is
   reopened after its taint's ledger was archived, everything a merge ever put on the target is, field by field, a
   copy of a row the child wrote after its fork, and no row has two copies.
   */
  lemma MergeLandsOnce(child: string, into: string, events: seq<Event>)
    requires Unmarked(child, events) && LedgerKept(child, into, events) && DistinctKeys(Run(child, into, events).history, child)
    ensures var history := Run(child, into, events).history;
            && (forall j :: 0 <= j < |history| && Marked(history[j], child) ==>
                  exists i :: AfterFork(history, child, i) && IsCopy(history[j], history[i], child, into))
            && (forall i, j, k :: AfterFork(history, child, i) && CopyAt(history, child, into, i, j) && CopyAt(history, child, into, i, k) ==> j == k)
  {
    RunInv(child, into, events);
    RunDated(child, into, events);
    var history := Run(child, into, events).history;
    hide Run, LedgerKept, Unmarked, AfterFork, IsDivergence, Dated;
    forall j | 0 <= j < |history| && Marked(history[j], child)
      ensures exists i :: AfterFork(history, child, i) && IsCopy(history[j], history[i], child, into)
    {
      var i :| CopyOf(history, child, into, i, j);
      DivergenceIsAfterFork(history, child, i);
    }
  }

  /**
   And a merge that runs to its end lands everything: each row the child wrote after its fork is on the target,
   field by field, exactly once, and the next merge plans nothing.
   */
  lemma CompletedMergeLandsAll(child: string, into: string, events: seq<Event>)
    requires Unmarked(child, events) && LedgerKept(child, into, events)
    requires DistinctKeys(Run(child, into, events).history, child) && into != child
    requires var h := Run(child, into, events);
             h.seq_ == |h.history| && !h.tainted && Plan(h, child).Ok?
    ensures var h := MergeStep(Run(child, into, events), child, into, true, Complete);
            && Plan(h, child) == Ok([])
            && forall i :: AfterFork(h.history, child, i) ==>
                 exists j :: 0 <= j < |h.history| && IsCopy(h.history[j], h.history[i], child, into)
                             && forall k :: 0 <= k < |h.history| && Marked(h.history[k], child) && h.history[k].key == h.history[i].key ==> k == j
  {
    var before := Run(child, into, events);
    RunInv(child, into, events);
    RunDated(child, into, events);
    CompletedMerge(before, child, into);
    var h := MergeStep(before, child, into, true, Complete);
    MergeDated(before, child, into, true, Complete);
    hide Run, LedgerKept, Unmarked, MergeStep, Plan, IsCopy, AfterFork, IsDivergence, Dated;
    forall i | AfterFork(h.history, child, i)
      ensures exists j :: 0 <= j < |h.history| && IsCopy(h.history[j], h.history[i], child, into)
                          && forall k :: 0 <= k < |h.history| && Marked(h.history[k], child) && h.history[k].key == h.history[i].key ==> k == j
    {
      DivergenceIsAfterFork(h.history, child, i);
      assert LandedOnce(h.history, child, into, i);
    }
  }

  lemma MergeDated(h: Host, child: string, into: string, allowed: bool, stop: Stop)
    requires Dated(h.history)
    ensures Dated(MergeStep(h, child, into, allowed, stop).history)
  {
    if Plan(h, child).Ok? && !h.tainted && h.seq_ == |h.history| {
      var plan := Plan(h, child).value;
      MergedHistory(h, plan, child, into, stop);
      LandingDated(h.history, plan, child, into, Lands(h, stop, |plan|));
    }
    hide Plan, Merged, Landing;
  }

  lemma CompletedMerge(h: Host, child: string, into: string)
    requires Inv(h, child, into) && DistinctKeys(h.history, child) && into != child
    requires h.seq_ == |h.history| && !h.tainted && Plan(h, child).Ok?
    ensures var h' := MergeStep(h, child, into, true, Complete);
            && Plan(h', child) == Ok([])
            && forall i :: IsDivergence(h'.history, child, i) ==> LandedOnce(h'.history, child, into, i)
  {
    var plan := Plan(h, child).value;
    var h' := MergeStep(h, child, into, true, Complete);
    PlanFits(h, child);
    LandingKeepsMarks(h.history, plan, child, into, |plan|);
    MergedHistory(h, plan, child, into, Complete);
    MergedIsClean(h, plan, child, into, Complete);
    CompleteIsWhole(h, plan, child, into);
    MergedDivergence(h, h', plan, child, into);
    hide Fits, Landed, MarksOk, Already, IsDivergence, PlanOf, Rewound, ForkEpoch;
    NothingLeft(h', child);
    forall i | IsDivergence(h'.history, child, i) ensures LandedOnce(h'.history, child, into, i) {
      OnceFromMark(h'.history, child, into, i);
    }
  }

  /** In step, one more whole row is one more row advanced. */
  lemma AdvanceOne(h: Host, plan: seq<Row>, child: string, into: string, k: nat, steps: nat)
    requires !h.tainted && h.seq_ == h.epoch == |h.history| && k < |plan| && steps >= ALL_STEPS
    ensures Ingest(Advanced(h, plan, child, into, k), Copy(plan[k], child, into), steps) == Some(Advanced(h, plan, child, into, k + 1))
  {
    LandingSize(h.history, plan, child, into, k);
  }

  lemma CompleteIsWhole(h: Host, plan: seq<Row>, child: string, into: string)
    requires !h.tainted && h.seq_ == h.epoch == |h.history|
    ensures Merged(h, plan, child, into, Complete) == Advanced(h, plan, child, into, |plan|)
  {
    hide Ingest, Advanced;
    if plan != [] { AdvanceOne(h, plan, child, into, |plan| - 1, ALL_STEPS); } else { StartAdvanced(h, plan, child, into); }
  }

  /** The copies land elsewhere, so the divergence is what it was, and all of it is marked now. */
  lemma MergedDivergence(h: Host, h': Host, plan: seq<Row>, child: string, into: string)
    requires into != child && Plan(h, child) == Ok(plan)
    requires Landed(h.history, plan, child, into, |plan|, h'.history) && DistinctKeys(h.history, child)
    requires forall i :: IsDivergence(h.history, child, i) && h.history[i].key !in Already(h.history, child) ==> h.history[i] in plan
    ensures ForkEpoch(h'.history, child).Some? && !Rewound(h'.history, child)
    ensures forall i :: IsDivergence(h'.history, child, i) ==> h'.history[i].key in Already(h'.history, child)
    ensures DistinctKeys(h'.history, child)
  {
    var before, after := h.history, h'.history;
    assert after == before + after[|before|..];
    ForkEpochKept(before, after[|before|..], child);
    forall i | |before| <= i < |after| ensures after[i].Data? && after[i].branch == into {
      assert after[|before| + (i - |before|)] == Copy(plan[i - |before|], child, into);
    }
    forall i | IsDivergence(after, child, i)
      ensures IsDivergence(before, child, i) && before[i] == after[i] && after[i].key in Already(after, child)
    {
      assert IsDivergence(before, child, i);
      if before[i].key !in Already(before, child) {
        var a :| 0 <= a < |plan| && plan[a] == before[i];
        assert plan[a].key == after[i].key;
      }
    }
  }

  lemma NothingLeft(h: Host, child: string)
    requires h.hidden == {} && h.lost == {} && ForkEpoch(h.history, child).Some? && !Rewound(h.history, child)
    requires forall i :: IsDivergence(h.history, child, i) ==> h.history[i].key in Already(h.history, child)
    ensures Plan(h, child) == Ok([])
  {
    var epoch := ForkEpoch(h.history, child).value;
    AllSeen(h);
    PlanRows(h.history, child, epoch, Already(h.history, child), |h.history|);
    assert forall i :: Unmerged(h.history, child, epoch, Already(h.history, child), |h.history|, i) ==> IsDivergence(h.history, child, i);
  }

  lemma OnceFromMark(history: seq<Record>, child: string, into: string, i: int)
    requires MarksOk(history, child, into) && DistinctKeys(history, child) && IsDivergence(history, child, i)
    requires history[i].key in Already(history, child)
    ensures LandedOnce(history, child, into, i)
  {
    var j :| 0 <= j < |history| && Marked(history[j], child) && history[j].key == history[i].key;
    var k :| CopyOf(history, child, into, k, j);
    assert k == i;
  }

  // ---- keys shared within the divergence ---------------------------------------------------------------------

  lemma {:induction false} LandingLanded(history: seq<Record>, plan: seq<Row>, child: string, into: string, n: nat)
    requires n <= |plan|
    ensures Landed(history, plan, child, into, n, Landing(history, plan, child, into, n))
  {
    hide Landed;
    if n == 0 {
      LandedNone(history, plan, child, into);
    } else {
      LandingLanded(history, plan, child, into, n - 1);
      LandedNext(history, plan, child, into, n - 1, Landing(history, plan, child, into, n - 1));
    }
  }

  /** A host no taint has touched, in step with its store, with a plan to make. */
  ghost predicate InStep(h: Host, child: string) {
    && h.seq_ == h.epoch == |h.history| && h.missing == 0 && h.hidden == {} && h.lost == {}
    && !h.tainted && !h.hot && !h.drifted && Plan(h, child).Ok?
  }

  /** Row `i` is what a merge from `h` would plan. */
  ghost predicate Planned(h: Host, child: string, i: int) {
    IsDivergence(h.history, child, i) && h.history[i].key !in Already(h.history, child)
  }

  lemma InPlan(h: Host, child: string, r: Record)
    requires InStep(h, child)
    ensures r in Plan(h, child).value <==> exists i :: Planned(h, child, i) && h.history[i] == r
  {
    var epoch := ForkEpoch(h.history, child).value;
    var already := Already(h.history, child);
    AllSeen(h);
    PlanRows(h.history, child, epoch, already, |h.history|);
    var plan := Plan(h, child).value;
    hide PlanOf, ForkEpoch, Already;
    forall i ensures Planned(h, child, i) <==> Unmerged(h.history, child, epoch, already, |h.history|, i) {}
    if r in plan { var a :| 0 <= a < |plan| && plan[a] == r; }
  }

  ghost predicate Behind(h: Host, child: string, into: string, plan: seq<Row>, k: nat, h1: Host) {
    && InStep(h, child) && Plan(h, child).value == plan && k <= |plan| && into != child
    && h1 == Advanced(h, plan, child, into, k)
  }

  lemma StillInStep(h: Host, child: string, into: string, plan: seq<Row>, k: nat, h1: Host)
    requires Behind(h, child, into, plan, k, h1)
    ensures InStep(h1, child) && Landed(h.history, plan, child, into, k, h1.history)
    ensures ForkEpoch(h1.history, child) == ForkEpoch(h.history, child)
    ensures forall i :: |h.history| <= i < |h1.history| ==> h1.history[i].Data? && h1.history[i].branch == into
  {
    hide Already, PlanOf, Landing, ForkEpoch;
    LandingLanded(h.history, plan, child, into, k);
    var before, after := h.history, h1.history;
    assert after == before + after[|before|..];
    ForkEpochKept(before, after[|before|..], child);
    forall i | |before| <= i < |after| ensures after[i].Data? && after[i].branch == into {
      assert after[|before| + (i - |before|)] == Copy(plan[i - |before|], child, into);
    }
    assert !Rewound(after, child) by {
      forall i | 0 <= i < |after| ensures !IsRewind(after[i], child) {
        if i < |before| { assert before[i] == after[i]; }
      }
    }
  }

  lemma PlannedAfter(h: Host, child: string, into: string, plan: seq<Row>, k: nat, h1: Host, i: int)
    requires Behind(h, child, into, plan, k, h1)
    ensures Planned(h1, child, i) <==> Planned(h, child, i) && forall a :: 0 <= a < k ==> plan[a].key != h.history[i].key
  {
    StillInStep(h, child, into, plan, k, h1);
    hide Plan, ForkEpoch, Landing, Already;
    if 0 <= i < |h.history| { assert h1.history[i] == h.history[i]; }
  }

  /** After `k` rows of its plan, the host plans exactly the rows whose keys those did not use. */
  lemma PlanAfter(h: Host, child: string, into: string, plan: seq<Row>, k: nat, h1: Host, r: Record)
    requires Behind(h, child, into, plan, k, h1)
    ensures InStep(h1, child)
    ensures r in Plan(h1, child).value <==> r in plan && forall a :: 0 <= a < k ==> plan[a].key != r.key
  {
    StillInStep(h, child, into, plan, k, h1);
    InPlan(h, child, r);
    InPlan(h1, child, r);
    hide Plan, ForkEpoch, Landing, Already;
    forall i ensures Planned(h1, child, i) && h1.history[i] == r
      <==> Planned(h, child, i) && h.history[i] == r && forall a :: 0 <= a < k ==> plan[a].key != r.key
    {
      PlannedAfter(h, child, into, plan, k, h1, i);
      if 0 <= i < |h.history| { assert h1.history[i] == h.history[i]; }
    }
    hide InStep, Landed, Behind, Planned;
  }

  lemma CopyInjective(a: Row, b: Row, child: string, into: string)
    requires a.branch == b.branch && !Marked(a, child) && !Marked(b, child) && Copy(a, child, into) == Copy(b, child, into)
    ensures a == b
  {
    forall s ensures s in a.sources <==> s in b.sources {
      assert s in Copy(a, child, into).sources <==> s in a.sources || s == MergeMarker(child);
      assert s in Copy(b, child, into).sources <==> s in b.sources || s == MergeMarker(child);
    }
  }

  lemma PlanUnmarked(h: Host, child: string, r: Row)
    requires InStep(h, child) && r in Plan(h, child).value
    ensures r.branch == child && !Marked(r, child)
  {
    InPlan(h, child, r);
  }

  /** The new part of the history after an interrupted merge and its retry: both plans' copies. */
  lemma RetryHistory(h: Host, child: string, into: string, k: nat, h1: Host, left: seq<Row>, after: seq<Record>, a: nat)
    requires InStep(h, child) && k <= |Plan(h, child).value|
    requires Landed(h.history, Plan(h, child).value, child, into, k, h1.history)
    requires Landed(h1.history, left, child, into, |left|, after)
    ensures |after| == |h.history| + k + |left|
    ensures a < k + |left| ==> after[|h.history| + a] == Copy(if a < k then Plan(h, child).value[a] else left[a - k], child, into)
  {
    hide Plan, Already;
    if a < k {
      assert after[|h.history| + a] == h1.history[|h.history| + a];
    } else if a < k + |left| {
      assert after[|h1.history| + (a - k)] == Copy(left[a - k], child, into);
    }
  }

  /** A merge stopped anywhere, reopened if it died, and merged again to the end. */
  ghost function Retried(h: Host, child: string, into: string, stop: Stop): Host {
    var h1 := MergeStep(h, child, into, true, stop);
    MergeStep(if stop.Dies? then Reopened(h1) else h1, child, into, true, Complete)
  }

  /** A copy of `r` is among what the two merges committed. */
  ghost predicate Arrives(h: Host, child: string, into: string, stop: Stop, r: Row) {
    var after := Retried(h, child, into, stop).history;
    exists j :: |h.history| <= j < |after| && IsCopy(after[j], r, child, into)
  }

  lemma StoppedIsBehind(h: Host, child: string, into: string, stop: Stop)
    requires InStep(h, child) && into != child && Plan(h, child).value != []
    ensures var h1 := MergeStep(h, child, into, true, stop);
            Behind(h, child, into, Plan(h, child).value, Reach(stop, |Plan(h, child).value|), if stop.Dies? then Reopened(h1) else h1)
  {
    var plan := Plan(h, child).value;
    hide Plan, Advanced, Merged, Reopened;
    CutIsAdvanced(h, plan, child, into, stop);
  }

  /** A reopen completes the commit a death cut, whatever step it got to. */
  lemma CutIsAdvanced(h: Host, plan: seq<Row>, child: string, into: string, stop: Stop)
    requires !h.tainted && !h.hot && h.seq_ == h.epoch == |h.history| && h.missing == 0 && h.hidden == {} && plan != []
    ensures var h1 := Merged(h, plan, child, into, stop);
            (if stop.Dies? then Reopened(h1) else h1) == Advanced(h, plan, child, into, Reach(stop, |plan|))
  {
    var n := Reach(stop, |plan|);
    if n == 0 {
      StartAdvanced(h, plan, child, into);
      hide Advanced;
    } else {
      var before, steps := Advanced(h, plan, child, into, n - 1), StepsAt(stop, n - 1);
      AdvancedInStep(h, plan, child, into, n - 1);
      MergedLast(h, plan, child, into, stop);
      hide Ingest, Reopened, Advanced, Copy, Merged;
      AdvanceOne(h, plan, child, into, n - 1, ALL_STEPS);
      if stop.Dies? { ReopenCompletes(before, Copy(plan[n - 1], child, into), steps); }
    }
  }

  lemma MergedLast(h: Host, plan: seq<Row>, child: string, into: string, stop: Stop)
    requires h.epoch == |h.history| && Reach(stop, |plan|) > 0
    ensures var n := Reach(stop, |plan|);
            var before := Advanced(h, plan, child, into, n - 1);
            Merged(h, plan, child, into, stop) == OrSame(Ingest(before, Copy(plan[n - 1], child, into), StepsAt(stop, n - 1)), before)
  {
    hide Ingest, Advanced, Copy;
  }

  lemma AdvancedInStep(h: Host, plan: seq<Row>, child: string, into: string, n: nat)
    requires !h.tainted && !h.hot && h.seq_ == h.epoch == |h.history| && n <= |plan|
    ensures var h' := Advanced(h, plan, child, into, n); !h'.tainted && !h'.hot && h'.seq_ == h'.epoch == |h'.history|
  {
    LandingSize(h.history, plan, child, into, n);
  }

  lemma ReopenCompletes(h: Host, r: Record, steps: nat)
    requires !h.tainted && !h.hot && h.seq_ == h.epoch == |h.history|
    ensures Ingest(h, r, steps).Some? && Reopened(Ingest(h, r, steps).value) == Ingest(h, r, ALL_STEPS).value
  {
  }

  lemma CompletedHistory(h: Host, child: string, into: string)
    requires InStep(h, child)
    ensures var plan := Plan(h, child).value;
            MergeStep(h, child, into, true, Complete).history == Landing(h.history, plan, child, into, |plan|)
  {
    hide Plan, Landing;
    CompleteIsWhole(h, Plan(h, child).value, child, into);
    StartLanding(h.history, Plan(h, child).value, child, into);
  }

  lemma StartLanding(history: seq<Record>, plan: seq<Row>, child: string, into: string)
    ensures Landing(history, plan, child, into, 0) == history
  {
  }

  /**
   Row by row: a planned row reaches the target by the completed retry if and only if it landed before the
   interruption or shares no key with a row that did.
   */
  lemma InterruptedMergeLands(h: Host, child: string, into: string, stop: Stop, r: Row)
    requires InStep(h, child) && into != child && r in Plan(h, child).value
    ensures var plan := Plan(h, child).value;
            var n := Reach(stop, |plan|);
            Arrives(h, child, into, stop, r) <==> r in plan[..n] || forall a :: 0 <= a < n ==> plan[a].key != r.key
  {
    var plan := Plan(h, child).value;
    var n := Reach(stop, |plan|);
    StoppedIsBehind(h, child, into, stop);
    var h1 := MergeStep(h, child, into, true, stop);
    h1 := if stop.Dies? then Reopened(h1) else h1;
    LandingLanded(h.history, plan, child, into, n);
    PlanAfter(h, child, into, plan, n, h1, r);
    var left := Plan(h1, child).value;
    hide Plan, MergeStep, Landing, Reopened, Advanced, Landed;
    LandingLanded(h1.history, left, child, into, |left|);
    CompletedHistory(h1, child, into);
    RetryCopies(h, child, into, n, h1, left, Retried(h, child, into, stop).history, r);
    CopyAmong(|h.history|, Retried(h, child, into, stop).history, r, child, into);
  }

  lemma CopyAmong(from: nat, after: seq<Record>, r: Row, child: string, into: string)
    requires from <= |after|
    ensures (exists j :: from <= j < |after| && IsCopy(after[j], r, child, into)) <==> Copy(r, child, into) in after[from..]
  {
    if j :| from <= j < |after| && IsCopy(after[j], r, child, into) {
      CopyIsCopy(r, child, into, after[j]);
      assert after[from..][j - from] == after[j];
    }
    if a :| 0 <= a < |after[from..]| && after[from..][a] == Copy(r, child, into) { CopyIsCopy(r, child, into, after[from + a]); }
  }

  ghost predicate First(plan: seq<Row>, a: nat) { a < |plan| && forall c :: 0 <= c < a ==> plan[c] != plan[a] }

  lemma {:induction false} FirstExists(plan: seq<Row>, a: nat) returns (f: nat)
    requires a < |plan|
    ensures f <= a && First(plan, f) && plan[f] == plan[a]
  {
    if c: nat :| c < a && plan[c] == plan[a] { f := FirstExists(plan, c); } else { f := a; }
  }

  /** The caller's condition: planned rows under one key are one row. */
  ghost predicate KeysAgree(plan: seq<Row>) {
    forall a, b :: 0 <= a < b < |plan| && plan[a].key == plan[b].key ==> plan[a] == plan[b]
  }

  lemma AgreeingKeysLand(plan: seq<Row>, n: nat, r: Row)
    requires KeysAgree(plan) && n <= |plan| && r in plan
    ensures r in plan[..n] || forall a :: 0 <= a < n ==> plan[a].key != r.key
  {
    var b :| 0 <= b < |plan| && plan[b] == r;
    if a :| 0 <= a < n && plan[a].key == r.key { assert plan[a] == r && plan[..n][a] == r; }
  }

  /**
   Exactly when no interruption loses a row: every planned row reaches the target wherever the merge is cut
   or dies, if and only if planned rows under one key are one row.
   */
  lemma InterruptionsLoseNothingExactly(h: Host, child: string, into: string)
    requires InStep(h, child) && into != child
    ensures (forall stop, r :: r in Plan(h, child).value ==> Arrives(h, child, into, stop, r)) <==> KeysAgree(Plan(h, child).value)
  {
    var plan := Plan(h, child).value;
    hide Plan, Arrives, InStep;
    if KeysAgree(plan) {
      forall stop, r | r in plan ensures Arrives(h, child, into, stop, r) {
        InterruptedMergeLands(h, child, into, stop, r);
        AgreeingKeysLand(plan, Reach(stop, |plan|), r);
      }
    } else {
      var a, b :| 0 <= a < b < |plan| && plan[a].key == plan[b].key && plan[a] != plan[b];
      var fa := FirstExists(plan, a);
      var fb := FirstExists(plan, b);
      var lo, hi := if fa < fb then fa else fb, if fa < fb then fb else fa;
      InterruptedMergeLands(h, child, into, Limit(lo + 1), plan[hi]);
      assert plan[hi] !in plan[..lo + 1];
      assert !Arrives(h, child, into, Limit(lo + 1), plan[hi]);
    }
  }

  lemma RetryCopies(h: Host, child: string, into: string, k: nat, h1: Host, left: seq<Row>, after: seq<Record>, r: Row)
    requires InStep(h, child) && InStep(h1, child) && Plan(h1, child).value == left
    requires k <= |Plan(h, child).value| && r in Plan(h, child).value
    requires Landed(h.history, Plan(h, child).value, child, into, k, h1.history)
    requires Landed(h1.history, left, child, into, |left|, after)
    ensures |h.history| <= |after|
    ensures Copy(r, child, into) in after[|h.history|..] <==> r in Plan(h, child).value[..k] || r in left
  {
    var plan, new_ := Plan(h, child).value, after[|h.history|..];
    forall a | 0 <= a < k + |left| ensures |new_| == k + |left| && new_[a] == Copy(if a < k then plan[a] else left[a - k], child, into) {
      RetryHistory(h, child, into, k, h1, left, after, a);
    }
    RetryHistory(h, child, into, k, h1, left, after, 0);
    PlanUnmarked(h, child, r);
    hide Plan, Landed, InStep, Already;
    if a :| 0 <= a < |new_| && new_[a] == Copy(r, child, into) {
      var q := if a < k then plan[a] else left[a - k];
      if a < k { PlanUnmarked(h, child, q); } else { PlanUnmarked(h1, child, q); }
      CopyInjective(q, r, child, into);
      if a < k { assert plan[..k][a] == r; }
    }
    if a :| 0 <= a < k && plan[..k][a] == r { assert new_[a] == Copy(r, child, into); }
    if c :| 0 <= c < |left| && left[c] == r { assert new_[k + c] == Copy(r, child, into); }
  }

  const FORKED := Lifecycle(L.ForkEvent("child", "main", 1, L.Fork))
  const NOTE: Row := Data("child", "notes", "k", "text", {})
  const TICKET: Row := Data("child", "tickets", "k", "text", {})
  const TWO_TABLES := NEW.(history := [FORKED, NOTE, TICKET], seq_ := 3, epoch := 3)

  /** The failing input: one key in two tables, a merge cut after one row, and the other row never arrives. */
  lemma SharedKeyLosesARow()
    ensures InStep(TWO_TABLES, "child") && Plan(TWO_TABLES, "child").value == [NOTE, TICKET]
    ensures !Arrives(TWO_TABLES, "child", "main", Limit(1), TICKET)
  {
    var h, c := TWO_TABLES, "child";
    var history := h.history;
    assert history[..2] == [FORKED, NOTE] && history[..2][..1] == [FORKED] && history[..2][..1][..0] == [];
    assert ForkEpoch([FORKED], c) == Some(1);
    assert ForkEpoch(history[..2], c) == Some(1);
    assert ForkEpoch(history, c) == Some(1);
    AllSeen(h);
    assert Already(history, c) == {};
    assert PlanOf(history, c, 1, {}, 1) == [];
    assert PlanOf(history, c, 1, {}, 2) == [NOTE];
    assert PlanOf(history, c, 1, {}, 3) == [NOTE, TICKET];
    InterruptedMergeLands(h, c, "main", Limit(1), TICKET);
    assert [NOTE, TICKET][..1] == [NOTE];
  }

  // ---- a taint archived and forgotten ------------------------------------------------------------------------

  lemma {:induction false} LandingTake(history: seq<Record>, plan: seq<Row>, child: string, into: string, n: nat, m: nat)
    requires m <= n <= |plan|
    ensures Landing(history, plan, child, into, m) == Landing(history, plan[..n], child, into, m)
  {
    if m > 0 { LandingTake(history, plan, child, into, n, m - 1); }
  }

  /**
   Exactly when a merge keeps one copy of each row, whatever the derivation relation has lost: if and only if
   no row it commits has a copy already. Markers a taint retracted are how such a row gets planned.
   */
  lemma RemergeExactly(h: Host, child: string, into: string, stop: Stop)
    requires h.seq_ == |h.history| && !h.tainted && MarksOk(h.history, child, into) && DistinctKeys(h.history, child)
    requires Plan(h, child).Ok?
    ensures var plan := Plan(h, child).value;
            MarksOk(MergeStep(h, child, into, true, stop).history, child, into)
            <==> forall a :: 0 <= a < Lands(h, stop, |plan|) ==> plan[a].key !in Already(h.history, child)
  {
    var plan := Plan(h, child).value;
    PlannedRows(h, child);
    hide Plan, MarksOk, IsDivergence, DistinctKeys, Already;
    LandingMarksExactly(h.history, plan, child, into, Lands(h, stop, |plan|));
    MergedHistory(h, plan, child, into, stop);
    hide Merged, Landing;
  }

  ghost predicate FromDivergence(history: seq<Record>, plan: seq<Row>, child: string) {
    forall a :: 0 <= a < |plan| ==> exists i :: IsDivergence(history, child, i) && history[i] == plan[a]
  }

  lemma LandingMarksExactly(history: seq<Record>, plan: seq<Row>, child: string, into: string, n: nat)
    requires n <= |plan| && MarksOk(history, child, into) && OneKeyEach(plan) && FromDivergence(history, plan, child)
    ensures MarksOk(Landing(history, plan, child, into, n), child, into)
            <==> forall a :: 0 <= a < n ==> plan[a].key !in Already(history, child)
  {
    if a :| 0 <= a < n && plan[a].key in Already(history, child) {
      MarkedTwice(history, plan, child, into, n, a);
    } else {
      LandingTake(history, plan, child, into, n, n);
      assert Fits(history, plan[..n], child);
      hide Landing, Already, IsDivergence, MarksOk, Fits;
      LandingKeepsMarks(history, plan[..n], child, into, n);
    }
  }

  lemma MarkedTwice(history: seq<Record>, plan: seq<Row>, child: string, into: string, n: nat, a: nat)
    requires a < n <= |plan| && plan[a].key in Already(history, child)
    ensures !MarksOk(Landing(history, plan, child, into, n), child, into)
  {
    var after := Landing(history, plan, child, into, n);
    LandingLanded(history, plan, child, into, n);
    var j :| 0 <= j < |history| && Marked(history[j], child) && history[j].key == plan[a].key;
    hide Landing, Already, CopyOf;
    assert after[j] == history[j] && after[|history| + a] == Copy(plan[a], child, into);
    assert j < |history| + a && after[j].key == after[|history| + a].key;
  }

  lemma PlannedRows(h: Host, child: string)
    requires DistinctKeys(h.history, child) && Plan(h, child).Ok?
    ensures OneKeyEach(Plan(h, child).value) && FromDivergence(h.history, Plan(h, child).value, child)
  {
    var epoch := ForkEpoch(h.history, child).value;
    var already := Already(Seen(h), child);
    PlanRows(h.history, child, epoch, already, |h.history|);
    forall i | Unmerged(h.history, child, epoch, already, |h.history|, i) ensures IsDivergence(h.history, child, i) {}
    assert forall i, j :: Diverged(h.history, child, epoch, i) && Diverged(h.history, child, epoch, j) ==>
      IsDivergence(h.history, child, i) && IsDivergence(h.history, child, j);
    PlanDistinct(h.history, child, epoch, already, |h.history|);
  }

  const MERGED_NOTE := Data("main", "notes", "k", "text", {MergeMarker("child")})

  /** The fork, one row on the child, and copies of it whose markers the derivation relation does not show. */
  ghost predicate Forgetful(h: Host) {
    && |h.history| >= 2 && h.history[0] == FORKED && h.history[1] == NOTE
    && forall i :: 2 <= i < |h.history| ==> h.history[i] == MERGED_NOTE && i in h.hidden + h.lost
  }

  lemma {:induction false} NotePlan(history: seq<Record>, n: nat)
    requires |history| >= 2 && history[0] == FORKED && history[1] == NOTE && 2 <= n <= |history|
    requires forall i :: 2 <= i < |history| ==> history[i] == MERGED_NOTE
    ensures PlanOf(history, "child", 1, {}, n) == [NOTE]
  {
    if n == 2 {
      assert PlanOf(history, "child", 1, {}, 1) == [];
    } else {
      NotePlan(history, n - 1);
    }
  }

  /** Such a host plans the row again, and a merge commits one more copy of it. */
  lemma ForgetfulMerge(h: Host)
    requires Forgetful(h) && !h.tainted && h.seq_ == |h.history|
    ensures MergeStep(h, "child", "main", true, Complete) == Ingest(h, MERGED_NOTE, ALL_STEPS).value
  {
    ForgetfulPlan(h);
    assert {} + {MergeMarker("child")} == {MergeMarker("child")} && Copy(NOTE, "child", "main") == MERGED_NOTE;
    StartAdvanced(h, [NOTE], "child", "main");
    hide Ingest, Plan, Advanced, Forgetful;
  }

  lemma ForgetfulPlan(h: Host)
    requires Forgetful(h)
    ensures Plan(h, "child") == Ok([NOTE])
  {
    var history := h.history;
    assert history == [FORKED] + history[1..];
    assert [FORKED][..0] == [] && ForkEpoch([FORKED], "child") == Some(1);
    ForkEpochKept([FORKED], history[1..], "child");
    assert forall i :: 0 <= i < |history| ==> !Marked(Seen(h)[i], "child");
    assert Already(Seen(h), "child") == {};
    hide ForkEpoch, Marked, Already;
    NotePlan(history, |history|);
  }

  lemma RunMore(events: seq<Event>, ev: Event, h: Host)
    requires Run("child", "main", events) == h
    ensures Run("child", "main", events + [ev]) == Step("child", "main", h, ev)
  {
    assert (events + [ev])[..|events|] == events;
    hide Step;
  }

  /**
   A commit that stopped after its first batch, on a host in step, then a taint that seals: batches go in table order,
   so the commit's derivation rows, its merge marker among them, are still missing exactly if its table comes first.
   */
  lemma HalfIngestedShows(h: Host, r: Record, epochs: nat, journals: bool, rows: set<nat>)
    requires !h.tainted && h.seq_ == h.epoch == |h.history| && h.hidden == {} && r.Data? && epochs > 0
    ensures var n := |h.history|;
            var later := Tainted(Ingest(h, r, 1).value, epochs, journals, rows);
            later.history == h.history + [r] && (n in later.hidden <==> O.Precedes(r.table, "mutiny_derivation"))
  {
    O.LessIsPrecedes(r.table, Q.DERIVATION_TABLE);
    hide O.Less, O.Precedes;
  }

  const FORK_AND_WRITE := [Forking("child", "main", ALL_STEPS), Writing(NOTE, ALL_STEPS)]
  const WRITTEN := NEW.(history := [FORKED, NOTE], seq_ := 2, epoch := 2)

  lemma WrittenRun()
    ensures Run("child", "main", FORK_AND_WRITE) == WRITTEN
  {
    var fork, write := Forking("child", "main", ALL_STEPS), Writing(NOTE, ALL_STEPS);
    assert [] + [fork] == [fork] && [fork] + [write] == FORK_AND_WRITE;
    assert [] + [FORKED] == [FORKED] && [FORKED] + [NOTE] == [FORKED, NOTE];
    RunMore([], fork, NEW);
    assert Step("child", "main", NEW, fork) == NEW.(history := [FORKED], seq_ := 1, epoch := 1);
    RunMore([fork], write, NEW.(history := [FORKED], seq_ := 1, epoch := 1));
  }

  /** Two copies of a row whose key no other row of the child has. */
  ghost predicate Doubled(history: seq<Record>) {
    history == [FORKED, NOTE, MERGED_NOTE, MERGED_NOTE] && DistinctKeys(history, "child")
  }

  lemma DoubledKeys()
    ensures Doubled([FORKED, NOTE, MERGED_NOTE, MERGED_NOTE])
  {
    var history := [FORKED, NOTE, MERGED_NOTE, MERGED_NOTE];
    assert forall i :: IsDivergence(history, "child", i) ==> i == 1;
  }

  const COPIED := WRITTEN.(history := [FORKED, NOTE, MERGED_NOTE], seq_ := 3, epoch := 3)
  const RETRACTED := COPIED.(epoch := 5, tainted := true, hot := true, drifted := true, lost := {2})
  const FORGOTTEN := RETRACTED.(epoch := 6, tainted := false, hot := false)

  lemma RetractedMerges()
    ensures Step("child", "main", WRITTEN, Merging(true, Complete)) == COPIED
    ensures Step("child", "main", FORGOTTEN, Merging(true, Complete)).history == [FORKED, NOTE, MERGED_NOTE, MERGED_NOTE]
  {
    ForgetfulMerge(WRITTEN);
    ForgetfulMerge(FORGOTTEN);
    hide MergeStep;
    assert WRITTEN.history + [MERGED_NOTE] == COPIED.history;
    assert COPIED.history + [MERGED_NOTE] == [FORKED, NOTE, MERGED_NOTE, MERGED_NOTE];
  }

  lemma RetractedSteps()
    ensures Step("child", "main", COPIED, Tainting(2, true, {2})) == RETRACTED
    ensures Step("child", "main", RETRACTED, Archiving(false)) == FORGOTTEN.(tainted := true)
    ensures Step("child", "main", FORGOTTEN.(tainted := true), Reopening) == FORGOTTEN
  {
  }

  /** A run that fails: merged, tainted, archived and reopened, the host commits a second copy of the row. */
  lemma ArchivedTaintDoubles()
    ensures var events := FORK_AND_WRITE + [Merging(true, Complete)] + [Tainting(2, true, {2})] + [Archiving(false)]
              + [Reopening] + [Merging(true, Complete)];
            Unmarked("child", events) && Doubled(Run("child", "main", events).history)
  {
    var e3 := FORK_AND_WRITE + [Merging(true, Complete)];
    var e4 := e3 + [Tainting(2, true, {2})];
    var e5 := e4 + [Archiving(false)];
    var e6 := e5 + [Reopening];
    hide Run, Step, Doubled;
    WrittenRun();
    RetractedSteps();
    RetractedMerges();
    DoubledKeys();
    RunMore(FORK_AND_WRITE, Merging(true, Complete), WRITTEN);
    RunMore(e3, Tainting(2, true, {2}), COPIED);
    RunMore(e4, Archiving(false), RETRACTED);
    RunMore(e5, Reopening, FORGOTTEN.(tainted := true));
    RunMore(e6, Merging(true, Complete), FORGOTTEN);
  }

  const AHEAD := WRITTEN.(epoch := 4, drifted := true)
  const REFUSED := AHEAD.(history := [FORKED, NOTE, MERGED_NOTE], hidden := {2}, missing := 1)

  lemma PendingSteps()
    ensures Step("child", "main", WRITTEN, Tainting(1, true, {})) == AHEAD.(epoch := 3, tainted := true, hot := true)
    ensures Step("child", "main", AHEAD.(epoch := 3, tainted := true, hot := true), Archiving(false)) == AHEAD.(tainted := true)
    ensures Step("child", "main", AHEAD.(tainted := true), Reopening) == AHEAD
    ensures Step("child", "main", AHEAD, Merging(true, Complete)) == REFUSED
    ensures Step("child", "main", REFUSED, Reopening) == REFUSED.(missing := 0)
    ensures Step("child", "main", REFUSED.(missing := 0), Reopening) == REFUSED.(missing := 0, seq_ := 3)
    ensures Step("child", "main", REFUSED.(missing := 0, seq_ := 3), Merging(true, Complete)).history == [FORKED, NOTE, MERGED_NOTE, MERGED_NOTE]
  {
    ForgetfulMerge(AHEAD);
    ForgetfulMerge(REFUSED.(missing := 0, seq_ := 3));
    assert AHEAD.history + [MERGED_NOTE] == REFUSED.history;
    assert REFUSED.history + [MERGED_NOTE] == [FORKED, NOTE, MERGED_NOTE, MERGED_NOTE];
    hide MergeStep;
  }

  /**
   Another, with nothing retracted: an engine whose clock a taint put ahead refuses to apply the merged row, and
   refuses the next reopen, but keeps a batch each time; the reopen after that opens with the marker unsealed.
   */
  lemma PendingMarkerDoubles()
    ensures var events := FORK_AND_WRITE + [Tainting(1, true, {})] + [Archiving(false)] + [Reopening] + [Merging(true, Complete)]
              + [Reopening] + [Reopening] + [Merging(true, Complete)];
            Unmarked("child", events) && Doubled(Run("child", "main", events).history)
  {
    var e3 := FORK_AND_WRITE + [Tainting(1, true, {})];
    var e4 := e3 + [Archiving(false)];
    var e5 := e4 + [Reopening];
    var e6 := e5 + [Merging(true, Complete)];
    var e7 := e6 + [Reopening];
    var e8 := e7 + [Reopening];
    hide Run, Step, Doubled;
    WrittenRun();
    PendingSteps();
    DoubledKeys();
    RunMore(FORK_AND_WRITE, Tainting(1, true, {}), WRITTEN);
    RunMore(e3, Archiving(false), AHEAD.(epoch := 3, tainted := true, hot := true));
    RunMore(e4, Reopening, AHEAD.(tainted := true));
    RunMore(e5, Merging(true, Complete), AHEAD);
    RunMore(e6, Reopening, REFUSED);
    RunMore(e7, Reopening, REFUSED.(missing := 0));
    RunMore(e8, Merging(true, Complete), REFUSED.(missing := 0, seq_ := 3));
  }

  // ---- the code's form -----------------------------------------------------------------------------------------

  class IncidentHost {
    var state: Host

    constructor ()
      ensures state == NEW
    {
      state := NEW;
    }

    /** Commit, then apply: refused before the commit, or durable and cut after `steps` log steps. */
    method IngestCommit(r: Record, steps: nat) returns (ok: bool)
      modifies this
      ensures ok <==> Ingest(old(state), r, steps).Some?
      ensures state == OrSame(Ingest(old(state), r, steps), old(state))
    {
      if state.tainted || state.seq_ != |state.history| { return false; }
      var n := |state.history|;
      state := state.(history := state.history + [r], hidden := state.hidden + {n}, missing := 2);
      ok := true;
      if steps == 0 || state.epoch < n { return; }
      state := state.(missing := 1);
      if state.epoch > n || steps == 1 { return; }
      state := state.(missing := 0);
      if steps == 2 { return; }
      state := Sealed(state);
      if steps == 3 { return; }
      state := state.(seq_ := n + 1);
    }

    /** The candidate rows and the marked keys, gathered in one walk of the history each, then the filter. */
    method PlanMerge(child: string) returns (r: Result<seq<Row>, MergeError>)
      ensures r == Plan(state, child)
    {
      var epoch := ForkEpoch(state.history, child);
      if epoch.None? { return Err(UnknownBranch); }
      if Rewound(state.history, child) { return Err(RewoundBranch); }
      var seen := Seen(state);
      var already: set<string> := {};
      var i := 0;
      while i < |seen|
        invariant 0 <= i <= |seen| && already == Already(seen[..i], child)
      {
        AlreadyGrows(seen[..i], seen[i], child);
        assert seen[..i + 1] == seen[..i] + [seen[i]];
        if Marked(seen[i], child) { already := already + {seen[i].key}; }
        i := i + 1;
      }
      assert seen[..i] == seen;
      var plan: seq<Row> := [];
      i := 0;
      while i < |state.history|
        invariant 0 <= i <= |state.history| && plan == PlanOf(state.history, child, epoch.value, already, i)
      {
        if Diverged(state.history, child, epoch.value, i) && state.history[i].key !in already {
          plan := plan + [state.history[i]];
        }
        i := i + 1;
      }
      r := Ok(plan);
    }

    /** One commit per planned row, until the limit, the death, or an apply that does not go through. */
    method LandRows(plan: seq<Row>, child: string, into: string, stop: Stop) returns (r: Result<nat, MergeError>)
      requires !state.tainted && state.seq_ == |state.history|
      modifies this
      ensures state == Merged(old(state), plan, child, into, stop)
      ensures r.Ok? ==> |state.history| == |old(state).history| + r.value
      ensures if r.Ok? then r.value == |plan| else r.error == Interrupted
    {
      hide Ingest, Advanced, Merged, Landing, Copy;
      var k := 0;
      StartAdvanced(state, plan, child, into);
      while k < |plan|
        invariant 0 <= k <= |plan| && Landable(old(state), stop, k) && state == Advanced(old(state), plan, child, into, k)
        invariant !state.tainted && state.seq_ == |state.history| == |old(state).history| + k
      {
        if stop.Limit? && k >= stop.rows {
          LandingEnds(old(state), plan, child, into, stop, k);
          return Err(Interrupted);
        }
        LandRow(old(state), plan, child, into, stop, k);
        var committed := IngestCommit(Copy(plan[k], child, into), StepsAt(stop, k));
        assert committed;
        if state.seq_ != |state.history| || (stop.Dies? && stop.rows == k) { return Err(Interrupted); }
        k := k + 1;
      }
      LandingEnds(old(state), plan, child, into, stop, k);
      r := Ok(k);
    }

    method MergeDurable(child: string, into: string, allowed: bool, stop: Stop) returns (r: Result<nat, MergeError>)
      modifies this
      ensures state == MergeStep(old(state), child, into, allowed, stop)
      ensures r.Ok? ==> |state.history| == |old(state).history| + r.value
      ensures LandsCopies(old(state).history, state.history, child, into)
      ensures !allowed || old(state).tainted ==> state == old(state)
      ensures r == Err(Denied) ==> !allowed
      ensures r == Err(RewoundBranch) ==> exists f :: 0 <= f < |old(state).history| && IsRewind(old(state).history[f], child)
      ensures r == Err(UnknownBranch) <==> forall f :: 0 <= f < |old(state).history| ==> !IsFork(old(state).history[f], child)
    {
      MergeLandsCopies(state, child, into, allowed, stop);
      UnknownIsUnforked(state, child);
      hide Plan, Merged, LandsCopies;
      var planned := PlanMerge(child);
      if planned.Err? { return Err(planned.error); }
      var plan := planned.value;
      if plan == [] { return Ok(0); }
      if !allowed { return Err(Denied); }
      if state.tainted || state.seq_ != |state.history| { return Err(CommitRefused); }
      r := LandRows(plan, child, into, stop);
    }
  }

  /** The history only grows, and each new record is, field by field, a row of the child's on the target. */
  ghost predicate LandsCopies(before: seq<Record>, after: seq<Record>, child: string, into: string) {
    && before <= after
    && forall j :: |before| <= j < |after| ==>
         exists i :: 0 <= i < |before| && before[i].Data? && before[i].branch == child && IsCopy(after[j], before[i], child, into)
  }

  ghost predicate OfChild(history: seq<Record>, r: Record, child: string) {
    exists i :: 0 <= i < |history| && history[i] == r && history[i].Data? && history[i].branch == child
  }

  lemma {:induction false} LandingCopies(history: seq<Record>, plan: seq<Row>, child: string, into: string, n: nat)
    requires n <= |plan| && forall a :: 0 <= a < |plan| ==> OfChild(history, plan[a], child)
    ensures LandsCopies(history, Landing(history, plan, child, into, n), child, into)
  {
    if n > 0 {
      LandingCopies(history, plan, child, into, n - 1);
      assert OfChild(history, plan[n - 1], child);
      var i :| 0 <= i < |history| && history[i] == plan[n - 1] && history[i].Data? && history[i].branch == child;
      assert IsCopy(Copy(plan[n - 1], child, into), history[i], child, into);
    }
  }

  lemma MergeLandsCopies(h: Host, child: string, into: string, allowed: bool, stop: Stop)
    ensures LandsCopies(h.history, MergeStep(h, child, into, allowed, stop).history, child, into)
  {
    if Plan(h, child).Ok? && !h.tainted && h.seq_ == |h.history| {
      var plan := Plan(h, child).value;
      var epoch := ForkEpoch(h.history, child).value;
      PlanRows(h.history, child, epoch, Already(Seen(h), child), |h.history|);
      assert forall a :: 0 <= a < |plan| ==> OfChild(h.history, plan[a], child);
      LandingCopies(h.history, plan, child, into, Lands(h, stop, |plan|));
      MergedHistory(h, plan, child, into, stop);
      hide Landing, Merged, PlanOf, LandsCopies;
      assert LandsCopies(h.history, Merged(h, plan, child, into, stop).history, child, into);
    }
  }

  lemma UnknownIsUnforked(h: Host, child: string)
    ensures Plan(h, child) == Err(UnknownBranch) <==> forall f :: 0 <= f < |h.history| ==> !IsFork(h.history[f], child)
    ensures Plan(h, child).Err? ==> Plan(h, child).error == UnknownBranch || Plan(h, child).error == RewoundBranch
    ensures Plan(h, child) == Err(RewoundBranch) ==> exists f :: 0 <= f < |h.history| && IsRewind(h.history[f], child)
  {
    ForkedIsForked(h.history, child);
  }

  lemma {:induction false} ForkedIsForked(history: seq<Record>, child: string)
    ensures ForkEpoch(history, child).None? <==> forall f :: 0 <= f < |history| ==> !IsFork(history[f], child)
  {
    if history != [] { ForkedIsForked(history[..|history| - 1], child); }
  }

  /** The loop may reach row `k`: nothing before it stopped the merge. */
  ghost predicate Landable(h: Host, stop: Stop, k: nat) {
    (stop.Dies? || stop.Limit? ==> k <= stop.rows) && (k > 0 ==> h.epoch == |h.history|)
  }

  lemma StartAdvanced(h: Host, plan: seq<Row>, child: string, into: string)
    ensures Advanced(h, plan, child, into, 0) == h
  {
  }

  /** One turn of the loop: the row ends the merge where the specification does, or advances it by one. */
  lemma LandRow(h: Host, plan: seq<Row>, child: string, into: string, stop: Stop, k: nat)
    requires !h.tainted && h.seq_ == |h.history| && k < |plan| && Landable(h, stop, k) && !(stop.Limit? && k >= stop.rows)
    ensures var next := Ingest(Advanced(h, plan, child, into, k), Copy(plan[k], child, into), StepsAt(stop, k));
            && next.Some?
            && if next.value.seq_ != |next.value.history| || (stop.Dies? && stop.rows == k)
               then next.value == Merged(h, plan, child, into, stop)
               else Landable(h, stop, k + 1) && next.value == Advanced(h, plan, child, into, k + 1)
                    && !next.value.tainted && next.value.seq_ == |h.history| + k + 1
  {
    LandingSize(h.history, plan, child, into, k);
    if h.epoch == |h.history| { AdvanceOne(h, plan, child, into, k, ALL_STEPS); }
    hide Landing;
  }

  lemma LandingEnds(h: Host, plan: seq<Row>, child: string, into: string, stop: Stop, k: nat)
    requires !h.tainted && h.seq_ == |h.history| && k <= |plan| && Landable(h, stop, k)
    requires k == |plan| || (stop.Limit? && k >= stop.rows)
    ensures Advanced(h, plan, child, into, k) == Merged(h, plan, child, into, stop)
  {
    if k > 0 { AdvanceOne(h, plan, child, into, k - 1, ALL_STEPS); }
    hide Landing, Ingest;
  }
}
