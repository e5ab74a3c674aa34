/**
 Bounded wake: a plane that slept or crashed rebuilds each branch's held set from its last checkpoint,
 the captures after it and the heals the taint ledger still lists, instead of from its whole history.
 The live plane is the reference: it saw every write, fork, rewind and taint as it happened.
 */
module Wake {
  import opened Wrappers
  import opened Order
  import L = Lineage

  /** A row of a semantic table: its table and key. */
  type Item = (string, string)

  /** The row of that table and key some branch wrote. */
  datatype RowRef = RowRef(branch: string, item: Item)

  datatype Commit =
    | Written(branch: string, items: set<Item>)
    | Forked(child: string, parent: string, at: nat)
    | Rewound(child: string, at: nat)

  datatype Checkpoint = Checkpoint(held: L.Held, lineage: L.Lineage)

  /**
   The live plane: what its operators hold and its lineage; every row written and every row healed; the
   branch names in use; and the last checkpoint, if there is one, with the commits and heals since.
   */
  datatype Plane = Plane(
    held: L.Held,
    lineage: L.Lineage,
    written: set<RowRef>,
    heals: set<RowRef>,
    names: set<string>,
    checkpoint: Option<Checkpoint>,
    suffix: seq<Commit>,
    since: set<RowRef>)
  {
    /** What the suffix follows: the checkpoint, or nothing at all. */
    function Base(): Checkpoint { if checkpoint.Some? then checkpoint.value else EMPTY }
  }

  const EMPTY := Checkpoint(map[], L.EMPTY)

  const START := Plane(map[], L.EMPTY, {}, {}, {}, None, [], {})

  // ---- operations ----------------------------------------------------------------------------------------

  function ApplyHeld(held: L.Held, c: Commit): L.Held {
    match c
    case Written(b, items) => held[b := L.Rows(held, b) + items]
    case Forked(child, parent, _) => held[child := L.Rows(held, parent)]
    case Rewound(child, _) => held - {child}
  }

  function ApplyLineage(l: L.Lineage, c: Commit): L.Lineage {
    match c
    case Written(_, _) => l
    case Forked(child, parent, at) => l.(forks := l.forks[child := (parent, at)])
    case Rewound(child, at) => l.(rewinds := l.rewinds[child := at])
  }

  function ReplayHeld(held: L.Held, commits: seq<Commit>): L.Held {
    if commits == [] then held else ApplyHeld(ReplayHeld(held, commits[..|commits| - 1]), commits[|commits| - 1])
  }

  function ReplayLineage(l: L.Lineage, commits: seq<Commit>): L.Lineage {
    if commits == [] then l else ApplyLineage(ReplayLineage(l, commits[..|commits| - 1]), commits[|commits| - 1])
  }

  /** Full replay folds the captures the same way, except that it keeps a rewound branch's membership. */
  function FullHeld(commits: seq<Commit>): L.Held {
    if commits == [] then map[] else
      var c := commits[|commits| - 1];
      var prior := FullHeld(commits[..|commits| - 1]);
      if c.Rewound? then prior else ApplyHeld(prior, c)
  }

  /** Heals one after the other, each on the row's branch and its active descendants. */
  ghost function HealAll(l: L.Lineage, held: L.Held, heals: seq<RowRef>): L.Held {
    if heals == [] then held else
      var r := heals[|heals| - 1];
      L.CascadeOn(HealAll(l, held, heals[..|heals| - 1]), L.Holders(l, r.branch), r.item.0, [r.item.1])
  }

  /** What the suffix alone rebuilds, heals left out. */
  ghost function Unhealed(p: Plane): L.Held { ReplayHeld(p.Base().held, p.suffix) }

  /** Every checkpointed row has some live engine row with its table and key. */
  ghost predicate Backed(p: Plane) {
    forall b, x :: x in L.Rows(p.Base().held, b) ==> exists r :: r in p.written - p.heals && r.item == x
  }

  /** Checkpoint, suffix, heals. Refused without a checkpoint, or when one of its rows has no live engine row. */
  ghost function WakeHeld(p: Plane, ledger: seq<RowRef>): Option<L.Held> {
    if p.checkpoint.None? || !Backed(p) then None else Some(HealAll(p.lineage, Unhealed(p), ledger))
  }

  /** Opening after a crash: the bounded path with a checkpoint, full replay and heals without one. */
  ghost function OpenHeld(p: Plane, ledger: seq<RowRef>): Option<L.Held> {
    if p.checkpoint.Some? then WakeHeld(p, ledger) else Some(HealAll(p.lineage, FullHeld(p.suffix), ledger))
  }

  datatype Event =
    | Committing(c: Commit)
    | Tainting(heals: seq<RowRef>)
    | Checkpointing
    | Restarting(ledger: seq<RowRef>)

  function Named(c: Commit): set<string> {
    match c
    case Written(b, _) => {b}
    case Forked(child, parent, _) => {child, parent}
    case Rewound(child, _) => {child}
  }

  function Rows(c: Commit): set<RowRef> {
    if c.Written? then set x | x in c.items :: RowRef(c.branch, x) else {}
  }

  ghost function Step(p: Plane, ev: Event): Plane {
    match ev
    case Committing(c) =>
      p.(held := ApplyHeld(p.held, c), lineage := ApplyLineage(p.lineage, c), written := p.written + Rows(c),
         names := p.names + Named(c), suffix := p.suffix + [c])
    case Tainting(heals) =>
      p.(held := HealAll(p.lineage, p.held, heals), heals := p.heals + Elements(heals), since := p.since + Elements(heals))
    case Checkpointing => p.(checkpoint := Some(Checkpoint(p.held, p.lineage)), suffix := [], since := {})
    case Restarting(ledger) => (match OpenHeld(p, ledger) case Some(held) => p.(held := held) case None => p)
  }

  // ---- the runs considered ---------------------------------------------------------------------------------

  /** One branch is the other or its descendant. */
  ghost predicate Related(l: L.Lineage, a: string, b: string) {
    a == b || L.Descends(l.forks, a, b) || L.Descends(l.forks, b, a)
  }

  ghost predicate Reaches(l: L.Lineage, heals: set<RowRef>, b: string, x: Item) {
    exists r :: r in heals && r.item == x && b in L.Holders(l, r.branch)
  }

  /** Row `x` of `b` is one only full replay brings back: inherited from or left behind on a rewound branch. */
  ghost predicate Stale(p: Plane, b: string, x: Item) {
    x in L.Rows(FullHeld(p.suffix), b) && x !in L.Rows(Unhealed(p), b)
  }

  /** Every stale row is reached by a heal the ledger lists, so that full replay ends without it. */
  ghost predicate Recoverable(p: Plane, ledger: seq<RowRef>) {
    forall b, x :: Stale(p, b, x) ==> Reaches(p.lineage, Elements(ledger), b, x)
  }

  /**
   No key is written twice on a lineage, a fork takes a fresh name, a fork is rewound once, only written
   rows are tainted, the ledger lists at least every heal since the checkpoint and nothing else than heals, and a
   restart with no checkpoint to start from brings back no stale row.
   */
  ghost predicate Allowed(p: Plane, ev: Event) {
    match ev
    case Committing(Written(b, items)) =>
      forall r :: r in p.written && r.item in items ==> !Related(p.lineage, b, r.branch)
    case Committing(Forked(child, parent, _)) => child !in p.names && child != parent
    case Committing(Rewound(child, _)) => child in p.lineage.forks && child !in p.lineage.rewinds
    case Tainting(heals) => Elements(heals) <= p.written
    case Checkpointing => true
    case Restarting(ledger) => p.since <= Elements(ledger) <= p.heals && (p.checkpoint.None? ==> Recoverable(p, ledger))
  }

  ghost function Run(events: seq<Event>): Plane {
    if events == [] then START else Step(Run(events[..|events| - 1]), events[|events| - 1])
  }

  ghost predicate AllowedRun(events: seq<Event>) {
    events == [] || (AllowedRun(events[..|events| - 1]) && Allowed(Run(events[..|events| - 1]), events[|events| - 1]))
  }

  // ---- what heals remove -------------------------------------------------------------------------------------

  /** `b` is `a` or below it in the lineage, rewound or not. */
  ghost predicate Below(l: L.Lineage, a: string, b: string) { a == b || L.Descends(l.forks, a, b) }

  ghost predicate Covers(l: L.Lineage, heals: set<RowRef>, b: string, x: Item) {
    exists r :: r in heals && r.item == x && Below(l, r.branch, b)
  }

  lemma HoldersBelow(l: L.Lineage, a: string, b: string)
    ensures b in L.Holders(l, a) <==> Below(l, a, b) && (a == b || l.IsActive(b))
  {
  }

  lemma CascadeRows(l: L.Lineage, held: L.Held, r: RowRef, b: string, x: Item)
    ensures var after := L.CascadeOn(held, L.Holders(l, r.branch), r.item.0, [r.item.1]);
            x in L.Rows(after, b) <==> x in L.Rows(held, b) && !(x == r.item && b in L.Holders(l, r.branch))
  {
    assert x in L.Drop(r.item.0, [r.item.1]) <==> x == r.item by {
      assert [r.item.1][0] == r.item.1;
    }
  }

  /** A run of heals removes exactly what some heal of it reaches. */
  lemma {:induction false} HealAllRows(l: L.Lineage, held: L.Held, heals: seq<RowRef>, b: string, x: Item)
    ensures x in L.Rows(HealAll(l, held, heals), b) <==> x in L.Rows(held, b) && !Reaches(l, Elements(heals), b, x)
  {
    if heals == [] {
      assert Elements(heals) == {};
    } else {
      var init, r := heals[..|heals| - 1], heals[|heals| - 1];
      HealAllRows(l, held, init, b, x);
      CascadeRows(l, HealAll(l, held, init), r, b, x);
      ElementsAppend(init, r);
      assert heals == init + [r];
    }
  }

  // ---- the invariant -----------------------------------------------------------------------------------------

  /** The live set is the rebuilt one without what heals since the checkpoint cover. */
  ghost predicate Tracks(p: Plane) {
    forall b, x :: x in L.Rows(p.held, b) <==> x in L.Rows(Unhealed(p), b) && !Covers(p.lineage, p.since, b, x)
  }

  /** Once healed, a row is gone from its branch and everything below, for good. */
  ghost predicate HealedAway(p: Plane) {
    forall b, x :: Covers(p.lineage, p.heals, b, x) ==> x !in L.Rows(p.held, b)
  }

  /** A rewound branch holds, healed or not, only what was written on it since. */
  ghost predicate RewoundOwn(p: Plane) {
    forall b, x :: b in p.lineage.rewinds && x in L.Rows(Unhealed(p), b) ==> RowRef(b, x) in p.written
  }

  /** Everything held was written on the branch or above it. */
  ghost predicate Origins(p: Plane) {
    forall b, x :: x in L.Rows(p.held, b) ==> exists r :: r in p.written && r.item == x && Below(p.lineage, r.branch, b)
  }

  /** No key was written twice on a lineage. */
  ghost predicate WrittenOnce(p: Plane) {
    forall r, q :: r in p.written && q in p.written && r.item == q.item && Related(p.lineage, r.branch, q.branch) ==> r == q
  }

  ghost predicate NamesOk(p: Plane) {
    && (forall r :: r in p.written ==> r.branch in p.names)
    && (forall b :: b in p.lineage.forks ==> b in p.names && p.lineage.forks[b].0 in p.names)
    && (forall b :: b in p.lineage.rewinds ==> b in p.lineage.forks)
  }

  /** What was checkpointed was live then: its row was written, and if healed at all, healed since. */
  ghost predicate CheckpointOk(p: Plane) {
    forall b, x :: x in L.Rows(p.Base().held, b) ==> exists r :: r in p.written && r.item == x && (r in p.heals ==> r in p.since)
  }

  ghost predicate Inv(p: Plane) {
    && Tracks(p) && HealedAway(p) && RewoundOwn(p) && Origins(p) && WrittenOnce(p) && NamesOk(p) && CheckpointOk(p)
    && p.since <= p.heals <= p.written
    && ReplayLineage(p.Base().lineage, p.suffix) == p.lineage
  }

  lemma ReplayAppend(held: L.Held, l: L.Lineage, commits: seq<Commit>, c: Commit)
    ensures ReplayHeld(held, commits + [c]) == ApplyHeld(ReplayHeld(held, commits), c)
    ensures ReplayLineage(l, commits + [c]) == ApplyLineage(ReplayLineage(l, commits), c)
  {
    assert (commits + [c])[..|commits|] == commits;
  }

  /** A rewound branch below a tainted row holds no such key: it would have been written twice. */
  lemma CoverIsReach(p: Plane, heals: set<RowRef>, b: string, x: Item)
    requires RewoundOwn(p) && WrittenOnce(p) && heals <= p.written && x in L.Rows(Unhealed(p), b)
    ensures Covers(p.lineage, heals, b, x) <==> Reaches(p.lineage, heals, b, x)
  {
    hide L.Holders, Unhealed;
    if r :| r in heals && r.item == x && Below(p.lineage, r.branch, b) {
      HoldersBelow(p.lineage, r.branch, b);
      if b in p.lineage.rewinds {
        assert RowRef(b, x) in p.written;
        assert Related(p.lineage, r.branch, b);
        assert r == RowRef(b, x);
      }
      assert b in L.Holders(p.lineage, r.branch);
    }
    if r :| r in heals && r.item == x && b in L.Holders(p.lineage, r.branch) {
      HoldersBelow(p.lineage, r.branch, b);
    }
  }

  // ---- commits -----------------------------------------------------------------------------------------------

  lemma WrittenUncovered(p: Plane, b: string, items: set<Item>, heals: set<RowRef>, x: Item)
    requires Allowed(p, Committing(Written(b, items))) && heals <= p.written && x in items
    ensures !Covers(p.lineage, heals, b, x)
  {
    forall r | r in heals && r.item == x ensures !Below(p.lineage, r.branch, b) {
      assert !Related(p.lineage, b, r.branch);
    }
  }

  lemma WrittenKeepsInv(p: Plane, b: string, items: set<Item>)
    requires Inv(p) && Allowed(p, Committing(Written(b, items)))
    ensures Inv(Step(p, Committing(Written(b, items))))
  {
    var c := Written(b, items);
    var p' := Step(p, Committing(c));
    ReplayAppend(p.Base().held, p.Base().lineage, p.suffix, c);
    assert p'.Base() == p.Base();
    hide Plane.Base;
    forall x | x in items ensures !Covers(p.lineage, p.since, b, x) && !Covers(p.lineage, p.heals, b, x) {
      WrittenUncovered(p, b, items, p.since, x);
      WrittenUncovered(p, b, items, p.heals, x);
    }
    forall x | x in items ensures RowRef(b, x) in p'.written { assert RowRef(b, x) in Rows(c); }
    hide Covers, ReplayHeld, ReplayLineage, Recoverable, Related;
    forall a ensures L.Rows(p'.held, a) == L.Rows(p.held, a) + if a == b then items else {} {}
    forall a ensures L.Rows(Unhealed(p'), a) == L.Rows(Unhealed(p), a) + if a == b then items else {} {}
    assert Tracks(p') && HealedAway(p') && RewoundOwn(p');
    WrittenOrigins(p, b, items);
    WrittenStaysOnce(p, b, items);
  }

  lemma WrittenOrigins(p: Plane, b: string, items: set<Item>)
    requires Origins(p) && CheckpointOk(p)
    ensures Origins(Step(p, Committing(Written(b, items)))) && CheckpointOk(Step(p, Committing(Written(b, items))))
  {
    var c := Written(b, items);
    var p' := Step(p, Committing(c));
    hide Below, L.Descends, Unhealed;
    forall a, x | x in L.Rows(p'.held, a)
      ensures exists r :: r in p'.written && r.item == x && Below(p'.lineage, r.branch, a)
    {
      if x in L.Rows(p.held, a) {
        var r :| r in p.written && r.item == x && Below(p.lineage, r.branch, a);
        assert r in p'.written;
      } else {
        var r := RowRef(b, x);
        assert r in Rows(c);
        BelowSelf(p.lineage, a);
        assert r in p'.written && Below(p'.lineage, r.branch, a);
      }
    }
    forall a, x | x in L.Rows(p'.Base().held, a)
      ensures exists r :: r in p'.written && r.item == x && (r in p'.heals ==> r in p'.since)
    {
      assert x in L.Rows(p.Base().held, a);
      var r :| r in p.written && r.item == x && (r in p.heals ==> r in p.since);
      assert r in p'.written;
    }
  }

  lemma BelowSelf(l: L.Lineage, a: string)
    ensures Below(l, a, a)
  {
  }

  lemma WrittenStaysOnce(p: Plane, b: string, items: set<Item>)
    requires WrittenOnce(p) && NamesOk(p) && Allowed(p, Committing(Written(b, items)))
    ensures WrittenOnce(Step(p, Committing(Written(b, items)))) && NamesOk(Step(p, Committing(Written(b, items))))
  {
    var c := Written(b, items);
    var p' := Step(p, Committing(c));
    hide L.Descends;
    forall q | q in p.written && q.item in items ensures !Related(p.lineage, b, q.branch) && !Related(p.lineage, q.branch, b) {}
    forall r | r in p'.written ensures r in p.written || (r.branch == b && r.item in items) {}
    hide Related;
    assert WrittenOnce(p');
  }

  lemma RewoundKeepsInv(p: Plane, child: string, at: nat)
    requires Inv(p) && Allowed(p, Committing(Rewound(child, at)))
    ensures Inv(Step(p, Committing(Rewound(child, at))))
  {
    var c := Commit.Rewound(child, at);
    var p' := Step(p, Committing(c));
    ReplayAppend(p.Base().held, p.Base().lineage, p.suffix, c);
    assert p'.Base() == p.Base();
    hide Plane.Base;
    forall heals, b, x ensures Covers(p'.lineage, heals, b, x) == Covers(p.lineage, heals, b, x) {
      SameForks(p.lineage, p'.lineage, heals, b, x);
    }
    hide Covers, ReplayHeld, ReplayLineage, L.Descends, Recoverable;
    assert p.written + Rows(c) == p.written;
    forall a ensures L.Rows(p'.held, a) == if a == child then {} else L.Rows(p.held, a) {}
    forall a ensures L.Rows(Unhealed(p'), a) == if a == child then {} else L.Rows(Unhealed(p), a) {}
    assert Tracks(p') && HealedAway(p') && RewoundOwn(p');
    assert WrittenOnce(p') && NamesOk(p') && CheckpointOk(p');
    forall b, x | x in L.Rows(p'.held, b) ensures exists r :: r in p'.written && r.item == x && Below(p'.lineage, r.branch, b) {
      var r :| r in p.written && r.item == x && Below(p.lineage, r.branch, b);
      assert r in p'.written && Below(p'.lineage, r.branch, b);
    }
  }

  lemma SameForks(l: L.Lineage, l': L.Lineage, heals: set<RowRef>, b: string, x: Item)
    requires l.forks == l'.forks
    ensures Covers(l, heals, b, x) == Covers(l', heals, b, x)
  {
    forall r: RowRef ensures Below(l, r.branch, b) == Below(l', r.branch, b) {}
  }

  // ---- forks ---------------------------------------------------------------------------------------------------

  ghost predicate FreshFork(l: L.Lineage, child: string, parent: string) {
    child != parent && child !in l.forks && forall b :: b in l.forks ==> l.forks[b].0 != child
  }

  lemma {:induction false} ForkAncestor(l: L.Lineage, child: string, parent: string, at: nat, b: string, n: nat)
    requires FreshFork(l, child, parent) && b != child
    ensures L.Ancestor(l.forks[child := (parent, at)], b, n) == L.Ancestor(l.forks, b, n)
    ensures L.Ancestor(l.forks, b, n) != Some(child)
    decreases n
  {
    if n > 0 && b in l.forks { ForkAncestor(l, child, parent, at, l.forks[b].0, n - 1); }
  }

  /** A fork onto a fresh name relates the new branch to its parent's ancestors and nothing else. */
  lemma ForkBelow(l: L.Lineage, child: string, parent: string, at: nat, a: string, b: string)
    requires FreshFork(l, child, parent)
    ensures var l' := ApplyLineage(l, Forked(child, parent, at));
            && (b != child ==> (Below(l', a, b) <==> Below(l, a, b)))
            && (Below(l', a, child) <==> a == child || Below(l, a, parent))
  {
    var l' := ApplyLineage(l, Forked(child, parent, at));
    if b != child {
      forall n: nat ensures L.Ancestor(l'.forks, b, n) == L.Ancestor(l.forks, b, n) { ForkAncestor(l, child, parent, at, b, n); }
    }
    forall n: nat ensures L.Ancestor(l'.forks, child, n + 1) == L.Ancestor(l.forks, parent, n) { ForkAncestor(l, child, parent, at, parent, n); }
    if L.Descends(l'.forks, a, child) {
      var n: nat :| n > 0 && L.Ancestor(l'.forks, child, n) == Some(a);
      assert L.Ancestor(l.forks, parent, n - 1) == Some(a) by { assert L.Ancestor(l'.forks, child, (n - 1) + 1) == L.Ancestor(l.forks, parent, n - 1); }
    }
    if Below(l, a, parent) {
      if a == parent {
        assert L.Ancestor(l'.forks, child, 0 + 1) == Some(a);
      } else {
        var n: nat :| n > 0 && L.Ancestor(l.forks, parent, n) == Some(a);
        assert L.Ancestor(l'.forks, child, n + 1) == Some(a);
      }
    }
  }

  lemma ForkCovers(p: Plane, child: string, parent: string, at: nat, heals: set<RowRef>, b: string, x: Item)
    requires NamesOk(p) && child !in p.names && child != parent && heals <= p.written
    ensures var l' := ApplyLineage(p.lineage, Forked(child, parent, at));
            Covers(l', heals, b, x) <==> Covers(p.lineage, heals, if b == child then parent else b, x)
  {
    var l' := ApplyLineage(p.lineage, Forked(child, parent, at));
    var from := if b == child then parent else b;
    forall r | r in heals ensures Below(l', r.branch, b) <==> Below(p.lineage, r.branch, from) {
      assert r.branch in p.names;
      ForkBelow(p.lineage, child, parent, at, r.branch, b);
    }
  }

  lemma ForkedKeepsInv(p: Plane, child: string, parent: string, at: nat)
    requires Inv(p) && Allowed(p, Committing(Forked(child, parent, at)))
    ensures Inv(Step(p, Committing(Forked(child, parent, at))))
  {
    var c := Forked(child, parent, at);
    var p' := Step(p, Committing(c));
    ReplayAppend(p.Base().held, p.Base().lineage, p.suffix, c);
    assert p'.Base() == p.Base();
    hide Plane.Base, Covers, ReplayHeld, ReplayLineage, L.Descends;
    assert p.written + Rows(c) == p.written;
    assert CheckpointOk(p') && NamesOk(p');
    ForkedTracks(p, child, parent, at);
    ForkedOrigins(p, child, parent, at);
  }

  lemma ForkedTracks(p: Plane, child: string, parent: string, at: nat)
    requires Inv(p) && Allowed(p, Committing(Forked(child, parent, at)))
    ensures var p' := Step(p, Committing(Forked(child, parent, at))); Tracks(p') && HealedAway(p') && RewoundOwn(p')
  {
    var c := Forked(child, parent, at);
    var p' := Step(p, Committing(c));
    ReplayAppend(p.Base().held, p.Base().lineage, p.suffix, c);
    assert p'.Base() == p.Base();
    hide Plane.Base, Origins, WrittenOnce, CheckpointOk;
    assert p.written + Rows(c) == p.written;
    forall b, x
      ensures Covers(p'.lineage, p.since, b, x) <==> Covers(p.lineage, p.since, if b == child then parent else b, x)
      ensures Covers(p'.lineage, p.heals, b, x) <==> Covers(p.lineage, p.heals, if b == child then parent else b, x)
    {
      ForkCovers(p, child, parent, at, p.since, b, x);
      ForkCovers(p, child, parent, at, p.heals, b, x);
    }
    hide Covers, ReplayHeld, ReplayLineage, L.Descends;
    forall b ensures L.Rows(p'.held, b) == L.Rows(p.held, if b == child then parent else b) {}
    forall b ensures L.Rows(Unhealed(p'), b) == L.Rows(Unhealed(p), if b == child then parent else b) {}
  }

  lemma ForkedOrigins(p: Plane, child: string, parent: string, at: nat)
    requires Inv(p) && Allowed(p, Committing(Forked(child, parent, at)))
    ensures Origins(Step(p, Committing(Forked(child, parent, at)))) && WrittenOnce(Step(p, Committing(Forked(child, parent, at))))
  {
    var c := Forked(child, parent, at);
    var p' := Step(p, Committing(c));
    hide Covers, ReplayHeld, ReplayLineage, L.Descends, Unhealed;
    assert p'.written == p.written;
    forall b, x | x in L.Rows(p'.held, b) ensures exists r :: r in p'.written && r.item == x && Below(p'.lineage, r.branch, b) {
      var from := if b == child then parent else b;
      assert L.Rows(p'.held, b) == L.Rows(p.held, from);
      var r :| r in p.written && r.item == x && Below(p.lineage, r.branch, from);
      ForkBelow(p.lineage, child, parent, at, r.branch, b);
      assert Below(p'.lineage, r.branch, b);
    }
    forall r, q | r in p'.written && q in p'.written && r.item == q.item && Related(p'.lineage, r.branch, q.branch) ensures r == q {
      ForkBelow(p.lineage, child, parent, at, r.branch, q.branch);
      ForkBelow(p.lineage, child, parent, at, q.branch, r.branch);
      assert Related(p.lineage, r.branch, q.branch);
    }
  }

  // ---- taints, checkpoints, wakes --------------------------------------------------------------------------

  lemma CoversUnion(l: L.Lineage, a: set<RowRef>, c: set<RowRef>, b: string, x: Item)
    ensures Covers(l, a + c, b, x) <==> Covers(l, a, b, x) || Covers(l, c, b, x)
  {
    hide Below;
    if r :| r in a && r.item == x && Below(l, r.branch, b) { assert r in a + c; }
    if r :| r in c && r.item == x && Below(l, r.branch, b) { assert r in a + c; }
  }

  lemma TaintingKeepsInv(p: Plane, heals: seq<RowRef>)
    requires Inv(p) && Allowed(p, Tainting(heals))
    ensures Inv(Step(p, Tainting(heals)))
  {
    var p' := Step(p, Tainting(heals));
    var rows := Elements(heals);
    forall b, x ensures x in L.Rows(p'.held, b) <==> x in L.Rows(p.held, b) && !Covers(p.lineage, rows, b, x) {
      HealAllRows(p.lineage, p.held, heals, b, x);
      if x in L.Rows(p.held, b) {
        assert x in L.Rows(Unhealed(p), b);
        CoverIsReach(p, rows, b, x);
      }
    }
    forall b, x
      ensures Covers(p.lineage, p'.since, b, x) <==> Covers(p.lineage, p.since, b, x) || Covers(p.lineage, rows, b, x)
      ensures Covers(p.lineage, p'.heals, b, x) <==> Covers(p.lineage, p.heals, b, x) || Covers(p.lineage, rows, b, x)
    {
      CoversUnion(p.lineage, p.since, rows, b, x);
      CoversUnion(p.lineage, p.heals, rows, b, x);
    }
    hide Covers, Reaches, HealAll, ReplayHeld, ReplayLineage, L.Descends, Elements;
    assert Tracks(p') && HealedAway(p') && RewoundOwn(p') && Origins(p') && CheckpointOk(p');
  }

  lemma CheckpointingKeepsInv(p: Plane)
    requires Inv(p)
    ensures Inv(Step(p, Checkpointing))
  {
    var p' := Step(p, Checkpointing);
    assert Unhealed(p') == p.held;
    hide ReplayHeld, L.Descends;
    assert Tracks(p') && RewoundOwn(p');
    forall b, x | x in L.Rows(p.held, b) ensures exists r :: r in p.written && r.item == x && (r in p.heals ==> r in p'.since) {
      var r :| r in p.written && r.item == x && Below(p.lineage, r.branch, b);
      assert !Covers(p.lineage, p.heals, b, x);
      assert r !in p.heals;
    }
  }

  /** Checkpoint, suffix and heals rebuild each branch's live held set. */
  lemma RebuiltIsLive(p: Plane, ledger: seq<RowRef>, b: string)
    requires Inv(p) && p.since <= Elements(ledger) <= p.heals
    ensures L.Rows(HealAll(p.lineage, Unhealed(p), ledger), b) == L.Rows(p.held, b)
  {
    var rows := Elements(ledger);
    forall x ensures x in L.Rows(HealAll(p.lineage, Unhealed(p), ledger), b) <==> x in L.Rows(p.held, b) {
      HealAllRows(p.lineage, Unhealed(p), ledger, b, x);
      if x in L.Rows(Unhealed(p), b) {
        CoverIsReach(p, rows, b, x);
        if Covers(p.lineage, p.since, b, x) {
          CoversMore(p.lineage, p.since, rows, b, x);
        }
        if Covers(p.lineage, rows, b, x) {
          CoversMore(p.lineage, rows, p.heals, b, x);
        }
      }
    }
  }

  /**
   Whenever the bounded wake answers, it rebuilds each branch's live held set, whatever the ledger still
   lists between the heals since the checkpoint and all of them.
   */
  lemma WakeIsLive(p: Plane, ledger: seq<RowRef>, b: string)
    requires Inv(p) && p.since <= Elements(ledger) <= p.heals && WakeHeld(p, ledger).Some?
    ensures L.Rows(WakeHeld(p, ledger).value, b) == L.Rows(p.held, b)
  {
    RebuiltIsLive(p, ledger, b);
  }

  lemma CoversMore(l: L.Lineage, a: set<RowRef>, c: set<RowRef>, b: string, x: Item)
    requires a <= c && Covers(l, a, b, x)
    ensures Covers(l, c, b, x)
  {
  }

  lemma OpenIsLiveRow(p: Plane, ledger: seq<RowRef>, b: string)
    requires Inv(p) && Allowed(p, Restarting(ledger)) && OpenHeld(p, ledger).Some?
    ensures L.Rows(OpenHeld(p, ledger).value, b) == L.Rows(p.held, b)
  {
    if p.checkpoint.Some? { WakeIsLive(p, ledger, b); } else { FullReplayExactly(p, ledger); }
  }

  lemma SameRowsKeepInv(p: Plane, held: L.Held)
    requires Inv(p) && forall b :: L.Rows(held, b) == L.Rows(p.held, b)
    ensures Inv(p.(held := held))
  {
    hide Covers, ReplayHeld, ReplayLineage, L.Descends;
    var p' := p.(held := held);
    assert Tracks(p') && HealedAway(p') && RewoundOwn(p') && Origins(p');
  }

  lemma StepKeepsInv(p: Plane, ev: Event)
    requires Inv(p) && Allowed(p, ev)
    ensures Inv(Step(p, ev))
  {
    match ev
    case Committing(Written(b, items)) => WrittenKeepsInv(p, b, items);
    case Committing(Forked(child, parent, at)) => ForkedKeepsInv(p, child, parent, at);
    case Committing(Rewound(child, at)) => RewoundKeepsInv(p, child, at);
    case Tainting(heals) => TaintingKeepsInv(p, heals);
    case Checkpointing => CheckpointingKeepsInv(p);
    case Restarting(ledger) =>
      if OpenHeld(p, ledger).Some? {
        forall b ensures L.Rows(OpenHeld(p, ledger).value, b) == L.Rows(p.held, b) { OpenIsLiveRow(p, ledger, b); }
        SameRowsKeepInv(p, OpenHeld(p, ledger).value);
      }
  }

  lemma {:induction false} RunInv(events: seq<Event>)
    requires AllowedRun(events)
    ensures Inv(Run(events))
  {
    if events != [] {
      RunInv(events[..|events| - 1]);
      hide Inv, Step, Allowed;
      StepKeepsInv(Run(events[..|events| - 1]), events[|events| - 1]);
    }
  }

  /** A wake of a plane the invariant holds of is refused only if a checkpointed row was tainted after the checkpoint. */
  lemma UntaintedIsBacked(p: Plane)
    requires Inv(p) && forall r, b :: r in p.since ==> r.item !in L.Rows(p.Base().held, b)
    ensures Backed(p)
  {
    forall b, x | x in L.Rows(p.Base().held, b) ensures exists r :: r in p.written - p.heals && r.item == x {
      var r :| r in p.written && r.item == x && (r in p.heals ==> r in p.since);
      assert r in p.written - p.heals;
    }
  }

  /**
   Opening equals live. After every allowed run of commits, forks, rewinds, taints, checkpoints and earlier opens:
   if no checkpointed row was tainted since the checkpoint, and no stale row would come back where there is none,
   opening succeeds and every branch holds exactly what the live plane held; and so does a wake, which is refused
   exactly when nothing was ever checkpointed.
   */
  lemma BoundedWakeIsLive(events: seq<Event>, ledger: seq<RowRef>, b: string)
    requires AllowedRun(events) && Allowed(Run(events), Restarting(ledger))
    requires forall r, b :: r in Run(events).since ==> r.item !in L.Rows(Run(events).Base().held, b)
    ensures var p := Run(events);
            && OpenHeld(p, ledger).Some? && L.Rows(OpenHeld(p, ledger).value, b) == L.Rows(p.held, b)
            && (WakeHeld(p, ledger).Some? <==> p.checkpoint.Some?)
            && (WakeHeld(p, ledger).Some? ==> L.Rows(WakeHeld(p, ledger).value, b) == L.Rows(p.held, b))
  {
    RunInv(events);
    UntaintedIsBacked(Run(events));
    hide Inv, Backed, HealAll, Run, AllowedRun, Unhealed, FullHeld;
    OpenIsLiveRow(Run(events), ledger, b);
  }

  // ---- what is held, from the events alone ---------------------------------------------------------------------

  ghost predicate Forks(ev: Event, b: string) { ev.Committing? && ev.c.Forked? && ev.c.child == b }

  ghost predicate Rewinds(ev: Event, b: string) { ev.Committing? && ev.c.Rewound? && ev.c.child == b }

  ghost predicate Writes(ev: Event, b: string, x: Item) { ev.Committing? && ev.c.Written? && ev.c.branch == b && x in ev.c.items }

  /** `b` is `a`, or was forked from a branch below it. */
  ghost predicate DescendsIn(events: seq<Event>, a: string, b: string)
    decreases |events|
  {
    a == b || exists i :: 0 <= i < |events| && Forks(events[i], b) && DescendsIn(events[..i], a, events[i].c.parent)
  }

  ghost predicate RewoundIn(events: seq<Event>, b: string) { exists i :: 0 <= i < |events| && Rewinds(events[i], b) }

  /** Event `j` taints row `x` of `b` or of a branch above it, and a rewound branch only under its own name. */
  ghost predicate Heals(events: seq<Event>, j: int, b: string, x: Item) {
    && 0 <= j < |events| && events[j].Tainting?
    && exists k :: 0 <= k < |events[j].heals|
                   && events[j].heals[k].item == x && DescendsIn(events[..j], events[j].heals[k].branch, b)
                   && (events[j].heals[k].branch == b || !RewoundIn(events[..j], b))
  }

  /** Event `j` takes `x` off `b`: a rewind of the branch, or a heal. */
  ghost predicate Drops(events: seq<Event>, j: int, b: string, x: Item) {
    0 <= j < |events| && (Rewinds(events[j], b) || Heals(events, j, b, x))
  }

  /** `x` was written on `b`, or `b` was forked from a parent that held it, and `b` has not lost it since. */
  ghost predicate HeldBy(events: seq<Event>, b: string, x: Item)
    decreases |events|
  {
    exists i :: && 0 <= i < |events|
                && (Writes(events[i], b, x) || (Forks(events[i], b) && HeldBy(events[..i], events[i].c.parent, x)))
                && forall j :: i < j < |events| ==> !Drops(events, j, b, x)
  }

  /** Event `i` puts `x` on `b`. */
  ghost predicate Gains(events: seq<Event>, i: int, b: string, x: Item) {
    && 0 <= i < |events|
    && (Writes(events[i], b, x) || (Forks(events[i], b) && HeldBy(events[..i], events[i].c.parent, x)))
  }

  lemma DescendsNext(events: seq<Event>, a: string, b: string)
    requires events != []
    ensures var init, last := events[..|events| - 1], events[|events| - 1];
            DescendsIn(events, a, b) <==> DescendsIn(init, a, b) || (Forks(last, b) && DescendsIn(init, a, last.c.parent))
  {
    var init, n := events[..|events| - 1], |events| - 1;
    assert events[..n] == init;
    if a != b {
      if i :| 0 <= i < |events| && Forks(events[i], b) && DescendsIn(events[..i], a, events[i].c.parent) {
        if i < n { assert init[i] == events[i] && init[..i] == events[..i]; }
      }
      if i :| 0 <= i < |init| && Forks(init[i], b) && DescendsIn(init[..i], a, init[i].c.parent) {
        assert init[i] == events[i] && init[..i] == events[..i];
      }
    }
  }

  lemma SamePast(events: seq<Event>, i: int, b: string, x: Item)
    requires events != [] && 0 <= i < |events| - 1
    ensures Gains(events, i, b, x) <==> Gains(events[..|events| - 1], i, b, x)
    ensures Drops(events, i, b, x) <==> Drops(events[..|events| - 1], i, b, x)
  {
    var init := events[..|events| - 1];
    assert init[i] == events[i] && init[..i] == events[..i];
  }

  ghost predicate Since(events: seq<Event>, i: int, b: string, x: Item) {
    Gains(events, i, b, x) && forall j :: i < j < |events| ==> !Drops(events, j, b, x)
  }

  lemma HeldIsSince(events: seq<Event>, b: string, x: Item)
    ensures HeldBy(events, b, x) <==> exists i :: 0 <= i < |events| && Since(events, i, b, x)
  {
    hide Drops;
    if HeldBy(events, b, x) {
      var i :| && 0 <= i < |events|
               && (Writes(events[i], b, x) || (Forks(events[i], b) && HeldBy(events[..i], events[i].c.parent, x)))
               && forall j :: i < j < |events| ==> !Drops(events, j, b, x);
      assert Since(events, i, b, x);
    }
  }

  lemma SinceNext(events: seq<Event>, i: int, b: string, x: Item)
    requires 0 <= i < |events| - 1
    ensures Since(events, i, b, x) <==> Since(events[..|events| - 1], i, b, x) && !Drops(events, |events| - 1, b, x)
  {
    var init := events[..|events| - 1];
    SamePast(events, i, b, x);
    if Since(events, i, b, x) {
      forall j | i < j < |init| ensures !Drops(init, j, b, x) { SamePast(events, j, b, x); }
    }
    if Since(init, i, b, x) && !Drops(events, |init|, b, x) {
      forall j | i < j < |events| ensures !Drops(events, j, b, x) { if j < |init| { SamePast(events, j, b, x); } }
    }
    hide Gains, Drops;
  }

  lemma HeldNext(events: seq<Event>, b: string, x: Item)
    requires events != []
    ensures var init, n := events[..|events| - 1], |events| - 1;
            HeldBy(events, b, x) <==> Gains(events, n, b, x) || (!Drops(events, n, b, x) && HeldBy(init, b, x))
  {
    var init, n := events[..|events| - 1], |events| - 1;
    HeldIsSince(events, b, x);
    HeldIsSince(init, b, x);
    forall i | 0 <= i < n ensures Since(events, i, b, x) <==> Since(init, i, b, x) && !Drops(events, n, b, x) {
      SinceNext(events, i, b, x);
    }
    assert Since(events, n, b, x) <==> Gains(events, n, b, x);
    hide Gains, Drops, Since, HeldBy;
  }

  lemma {:induction false} ForkIsNamed(events: seq<Event>, i: int, b: string)
    requires AllowedRun(events) && 0 <= i < |events| && Forks(events[i], b)
    ensures b in Run(events).names
  {
    var init := events[..|events| - 1];
    if i < |init| {
      assert init[i] == events[i];
      ForkIsNamed(init, i, b);
    }
  }

  lemma RewoundNext(events: seq<Event>, b: string)
    requires events != []
    ensures RewoundIn(events, b) <==> RewoundIn(events[..|events| - 1], b) || Rewinds(events[|events| - 1], b)
  {
    var init := events[..|events| - 1];
    if i :| 0 <= i < |events| && Rewinds(events[i], b) { if i < |init| { assert init[i] == events[i]; } }
    if i :| 0 <= i < |init| && Rewinds(init[i], b) { assert init[i] == events[i]; }
  }

  /** The plane's lineage is the forks and rewinds of the run. */
  lemma {:induction false} LineageIsEvents(events: seq<Event>, a: string, b: string)
    requires AllowedRun(events)
    ensures Below(Run(events).lineage, a, b) <==> DescendsIn(events, a, b)
    ensures b in Run(events).lineage.rewinds <==> RewoundIn(events, b)
  {
    if events == [] {
      assert !L.Descends(L.EMPTY.forks, a, b);
    } else {
      var init, last := events[..|events| - 1], events[|events| - 1];
      LineageIsEvents(init, a, b);
      DescendsNext(events, a, b);
      RewoundNext(events, b);
      RunInv(init);
      var p := Run(init);
      hide RewoundIn, DescendsIn, HealAll, Recoverable, Related, ReplayHeld;
      if last.Committing? && last.c.Forked? {
        FreshName(p, last.c.child, last.c.parent);
        ForkBelow(p.lineage, last.c.child, last.c.parent, last.c.at, a, b);
        if b == last.c.child {
          LineageIsEvents(init, a, last.c.parent);
          Unforked(init, a, b);
        }
      }
    }
  }

  lemma FreshName(p: Plane, child: string, parent: string)
    requires NamesOk(p) && child !in p.names && child != parent
    ensures FreshFork(p.lineage, child, parent)
  {
  }

  lemma Unforked(events: seq<Event>, a: string, b: string)
    requires AllowedRun(events) && b !in Run(events).names
    ensures DescendsIn(events, a, b) <==> a == b
  {
    if i :| 0 <= i < |events| && Forks(events[i], b) && DescendsIn(events[..i], a, events[i].c.parent) { ForkIsNamed(events, i, b); }
  }

  /** What one event does to one row of one branch, from the rows before it. */
  lemma RowAfter(p: Plane, ev: Event, b: string, x: Item)
    requires Inv(p) && Allowed(p, ev)
    ensures x in L.Rows(Step(p, ev).held, b) <==>
            Writes(ev, b, x) || (Forks(ev, b) && x in L.Rows(p.held, ev.c.parent))
            || (x in L.Rows(p.held, b) && !Rewinds(ev, b) && !(ev.Tainting? && Reaches(p.lineage, Elements(ev.heals), b, x)))
  {
    match ev
    case Committing(Written(_, _)) =>
    case Committing(Forked(child, parent, _)) => if b == child { UnnamedHoldsNothing(p, b, x); }
    case Committing(Rewound(_, _)) =>
    case Tainting(heals) => HealAllRows(p.lineage, p.held, heals, b, x);
    case Checkpointing =>
    case Restarting(ledger) =>
      hide HealAll, Inv, Allowed;
      if OpenHeld(p, ledger).Some? { OpenIsLiveRow(p, ledger, b); }
  }

  lemma UnnamedHoldsNothing(p: Plane, b: string, x: Item)
    requires Inv(p) && b !in p.names
    ensures x !in L.Rows(p.held, b)
  {
    hide Tracks, HealedAway, RewoundOwn, WrittenOnce, CheckpointOk, ReplayLineage;
  }

  lemma HolderIsEvents(events: seq<Event>, a: string, b: string)
    requires AllowedRun(events)
    ensures b in L.Holders(Run(events).lineage, a) <==> DescendsIn(events, a, b) && (a == b || !RewoundIn(events, b))
  {
    LineageIsEvents(events, a, b);
    HoldersBelow(Run(events).lineage, a, b);
  }

  lemma HealsIsReaches(events: seq<Event>, b: string, x: Item)
    requires events != [] && AllowedRun(events) && events[|events| - 1].Tainting?
    ensures Heals(events, |events| - 1, b, x)
            <==> Reaches(Run(events[..|events| - 1]).lineage, Elements(events[|events| - 1].heals), b, x)
  {
    var init, ev := events[..|events| - 1], events[|events| - 1];
    var l := Run(init).lineage;
    forall a ensures b in L.Holders(l, a) <==> DescendsIn(init, a, b) && (a == b || !RewoundIn(init, b)) {
      HolderIsEvents(init, a, b);
    }
    hide L.Holders, L.Descends, DescendsIn, RewoundIn, Run;
    if k :| 0 <= k < |ev.heals| && ev.heals[k].item == x && DescendsIn(init, ev.heals[k].branch, b) && (ev.heals[k].branch == b || !RewoundIn(init, b)) {
      assert ev.heals[k] in Elements(ev.heals);
    }
    if r :| r in Elements(ev.heals) && r.item == x && b in L.Holders(l, r.branch) {
      var k :| 0 <= k < |ev.heals| && ev.heals[k] == r;
    }
  }

  /**
   What a branch holds, from the events alone. Over every allowed run `x` is held by `b` if and only if it was
   written there or came with the fork of `b` from a parent that held it, and since then the branch was not rewound
   and no taint healed the row on it.
   */
  lemma {:induction false} HeldExactly(events: seq<Event>, b: string, x: Item)
    requires AllowedRun(events)
    ensures x in L.Rows(Run(events).held, b) <==> HeldBy(events, b, x)
  {
    if events != [] {
      var init, last, n := events[..|events| - 1], events[|events| - 1], |events| - 1;
      HeldExactly(init, b, x);
      RunInv(init);
      HeldNext(events, b, x);
      RowAfter(Run(init), last, b, x);
      assert events[..n] == init;
      if last.Tainting? { HealsIsReaches(events, b, x); }
      if Forks(last, b) { HeldExactly(init, last.c.parent, x); }
      hide HeldBy, Inv, Step, Reaches, AllowedRun;
    }
  }

  // ---- full replay -------------------------------------------------------------------------------------------

  ghost predicate NoRewinds(commits: seq<Commit>) {
    forall i :: 0 <= i < |commits| ==> !commits[i].Rewound?
  }

  lemma {:induction false} FullIsReplay(commits: seq<Commit>)
    requires NoRewinds(commits)
    ensures FullHeld(commits) == ReplayHeld(map[], commits)
  {
    if commits != [] { FullIsReplay(commits[..|commits| - 1]); }
  }

  /** Without rewinds, full replay and every listed heal rebuild the live sets too. */
  lemma FullReplayIsLive(p: Plane, ledger: seq<RowRef>, b: string)
    requires Inv(p) && p.checkpoint.None? && NoRewinds(p.suffix) && p.since <= Elements(ledger) <= p.heals
    ensures L.Rows(HealAll(p.lineage, FullHeld(p.suffix), ledger), b) == L.Rows(p.held, b)
  {
    FullIsReplay(p.suffix);
    RebuiltIsLive(p, ledger, b);
  }

  /** Full replay never holds less than the fold that drops rewound branches. */
  lemma {:induction false} FullHoldsMore(commits: seq<Commit>, b: string)
    ensures L.Rows(ReplayHeld(map[], commits), b) <= L.Rows(FullHeld(commits), b)
  {
    if commits != [] {
      var init, c := commits[..|commits| - 1], commits[|commits| - 1];
      FullHoldsMore(init, b);
      if c.Forked? { FullHoldsMore(init, c.parent); }
    }
  }

  /**
   Exactly when full replay is the live plane, over every run with no checkpoint yet, however many rewinds,
   later writes and forks of rewound branches it has: if and only if some listed heal reaches every stale row.
   */
  lemma FullReplayExactly(p: Plane, ledger: seq<RowRef>)
    requires Inv(p) && p.checkpoint.None? && p.since <= Elements(ledger) <= p.heals
    ensures (forall b :: L.Rows(HealAll(p.lineage, FullHeld(p.suffix), ledger), b) == L.Rows(p.held, b))
            <==> Recoverable(p, ledger)
  {
    var full := FullHeld(p.suffix);
    var rebuilt := HealAll(p.lineage, full, ledger);
    hide Inv, HealAll, FullHeld, Reaches, Stale;
    forall b, x
      ensures x in L.Rows(rebuilt, b) <==> x in L.Rows(p.held, b) || (Stale(p, b, x) && !Reaches(p.lineage, Elements(ledger), b, x))
      ensures Stale(p, b, x) && !Reaches(p.lineage, Elements(ledger), b, x) ==> x !in L.Rows(p.held, b)
    {
      FullRow(p, ledger, b, x);
    }
  }

  lemma FullRow(p: Plane, ledger: seq<RowRef>, b: string, x: Item)
    requires Inv(p) && p.checkpoint.None? && p.since <= Elements(ledger) <= p.heals
    ensures x in L.Rows(HealAll(p.lineage, FullHeld(p.suffix), ledger), b)
            <==> x in L.Rows(p.held, b) || (Stale(p, b, x) && !Reaches(p.lineage, Elements(ledger), b, x))
    ensures Stale(p, b, x) ==> x !in L.Rows(p.held, b)
  {
    FullHoldsMore(p.suffix, b);
    RebuiltIsLive(p, ledger, b);
    HealAllRows(p.lineage, FullHeld(p.suffix), ledger, b, x);
    HealAllRows(p.lineage, Unhealed(p), ledger, b, x);
    hide Inv, HealAll, FullHeld, Reaches, ReplayHeld;
  }

  /**
   After the first rewind: they agree if and only if every row the child had, heals aside, is listed as
   healed under the child's own name.
   */
  lemma FullReplayKeepsRewound(p: Plane, child: string, at: nat, ledger: seq<RowRef>)
    requires Inv(p) && p.checkpoint.None? && NoRewinds(p.suffix) && p.since <= Elements(ledger) <= p.heals
    requires Allowed(p, Committing(Rewound(child, at)))
    ensures var p' := Step(p, Committing(Rewound(child, at)));
            (forall b :: L.Rows(HealAll(p'.lineage, FullHeld(p'.suffix), ledger), b) == L.Rows(p'.held, b))
            <==> forall x :: x in L.Rows(Unhealed(p), child) ==> RowRef(child, x) in ledger
  {
    var c := Commit.Rewound(child, at);
    var p' := Step(p, Committing(c));
    RewoundKeepsInv(p, child, at);
    FullReplayExactly(p', ledger);
    FullIsReplay(p.suffix);
    ReplayAppend(map[], L.EMPTY, p.suffix, c);
    assert (p.suffix + [c])[..|p.suffix|] == p.suffix;
    assert FullHeld(p'.suffix) == Unhealed(p);
    hide Inv, HealAll, FullHeld, ReplayHeld, Reaches;
    forall b, x ensures Stale(p', b, x) <==> b == child && x in L.Rows(Unhealed(p), child) {
      assert L.Rows(Unhealed(p'), b) == if b == child then {} else L.Rows(Unhealed(p), b);
    }
    forall x ensures Reaches(p'.lineage, Elements(ledger), child, x) <==> RowRef(child, x) in ledger {
      OnlyOwnHeals(p'.lineage, ledger, child, x);
    }
    hide Step, Unhealed, Stale;
  }

  /** Heals cascade to active branches: a rewound one is reached only by heals in its own name. */
  lemma OnlyOwnHeals(l: L.Lineage, ledger: seq<RowRef>, child: string, x: Item)
    requires !l.IsActive(child)
    ensures Reaches(l, Elements(ledger), child, x) <==> RowRef(child, x) in ledger
  {
    hide L.Holders;
    forall r: RowRef ensures child in L.Holders(l, r.branch) <==> r.branch == child { HoldersBelow(l, r.branch, child); }
    if RowRef(child, x) in ledger { assert RowRef(child, x) in Elements(ledger); }
  }

  // ---- a plane rebuilt over a rewind -----------------------------------------------------------------------------

  /** A stale row the restart brings back and no heal, listed or later, reaches. */
  ghost predicate Returns(p: Plane, ledger: seq<RowRef>, heals: seq<RowRef>, b: string, x: Item) {
    Stale(p, b, x) && !Reaches(p.lineage, Elements(ledger), b, x) && !Reaches(p.lineage, Elements(heals), b, x)
  }

  /** No checkpoint yet: restart by full replay, taint, checkpoint. */
  ghost function Rebuilt(p: Plane, ledger: seq<RowRef>, heals: seq<RowRef>): Plane {
    Step(Step(Step(p, Restarting(ledger)), Tainting(heals)), Checkpointing)
  }

  lemma RebuiltRow(p: Plane, ledger: seq<RowRef>, heals: seq<RowRef>, b: string, x: Item)
    requires Inv(p) && p.checkpoint.None? && p.since <= Elements(ledger) <= p.heals
    ensures x in L.Rows(Rebuilt(p, ledger, heals).Base().held, b)
            <==> x in L.Rows(Step(p, Tainting(heals)).held, b) || Returns(p, ledger, heals, b, x)
  {
    var full := HealAll(p.lineage, FullHeld(p.suffix), ledger);
    FullRow(p, ledger, b, x);
    HealAllRows(p.lineage, full, heals, b, x);
    HealAllRows(p.lineage, p.held, heals, b, x);
    hide Inv, HealAll, FullHeld, Reaches, Stale;
  }

  ghost predicate LiveRow(p: Plane, heals: seq<RowRef>, x: Item) {
    exists r :: r in p.written - (p.heals + Elements(heals)) && r.item == x
  }

  /**
   Exactly when a plane rebuilt without a checkpoint can be woken from its first one: if and only if every stale
   row that returned still has a live engine row. A taint of the last such row locks the tenant out.
   */
  lemma RebuiltWakesExactly(p: Plane, ledger: seq<RowRef>, heals: seq<RowRef>, again: seq<RowRef>)
    requires Inv(p) && p.checkpoint.None? && p.since <= Elements(ledger) <= p.heals && Elements(heals) <= p.written
    ensures WakeHeld(Rebuilt(p, ledger, heals), again).Some?
            <==> forall b, x :: Returns(p, ledger, heals, b, x) ==> LiveRow(p, heals, x)
  {
    var t, r3 := Step(p, Tainting(heals)), Rebuilt(p, ledger, heals);
    TaintingKeepsInv(p, heals);
    CheckpointingKeepsInv(t);
    UntaintedIsBacked(Step(t, Checkpointing));
    assert r3.written == p.written && r3.heals == p.heals + Elements(heals);
    forall b, x | x in L.Rows(t.held, b) ensures LiveRow(p, heals, x) {
      assert x in L.Rows(Step(t, Checkpointing).Base().held, b);
    }
    hide Inv, HealAll, FullHeld, Reaches, Stale, Returns, Unhealed;
    forall b, x ensures x in L.Rows(r3.Base().held, b) <==> x in L.Rows(t.held, b) || Returns(p, ledger, heals, b, x) {
      RebuiltRow(p, ledger, heals, b, x);
    }
    hide Step;
  }

  const X: Item := ("notes", "x")
  const WROTE := Written("main", {X})
  const FORKS := Forked("c", "main", 2)
  const REWINDS := Rewound("c", 3)
  const REWOUND_RUN := [Committing(WROTE), Committing(FORKS), Committing(REWINDS)]

  lemma RunMore(events: seq<Event>, ev: Event)
    requires AllowedRun(events) && Allowed(Run(events), ev)
    ensures AllowedRun(events + [ev]) && Run(events + [ev]) == Step(Run(events), ev)
  {
    assert (events + [ev])[..|events|] == events;
  }

  lemma RewoundWorld()
    ensures AllowedRun(REWOUND_RUN)
    ensures var p := Run(REWOUND_RUN);
            && p.checkpoint.None? && p.suffix == [WROTE, FORKS, REWINDS] && p.written == {RowRef("main", X)}
            && p.heals == p.since == {} && "c" in p.lineage.rewinds && "c" !in p.held
  {
    var one, two := [Committing(WROTE)], [Committing(WROTE), Committing(FORKS)];
    assert [] + one == one && one + [Committing(FORKS)] == two && two + [Committing(REWINDS)] == REWOUND_RUN;
    assert Rows(WROTE) == {RowRef("main", X)};
    RunMore([], Committing(WROTE));
    RunMore(one, Committing(FORKS));
    RunMore(two, Committing(REWINDS));
    assert [] + [WROTE] == [WROTE] && [WROTE] + [FORKS] == [WROTE, FORKS] && [WROTE, FORKS] + [REWINDS] == [WROTE, FORKS, REWINDS];
  }

  lemma RewoundStale()
    ensures var p := Run(REWOUND_RUN); Stale(p, "c", X) && forall heals :: !Reaches(p.lineage, {RowRef("main", X)} * heals, "c", X)
  {
    var p := Run(REWOUND_RUN);
    RewoundWorld();
    hide Run, AllowedRun;
    var cs := p.suffix;
    assert cs[..2] == [WROTE, FORKS] && cs[..2][..1] == [WROTE] && cs[..2][..1][..0] == [];
    assert [WROTE][..0] == [] && FullHeld([]) == map[];
    assert {} + {X} == {X} && ApplyHeld(map[], WROTE) == map["main" := {X}];
    assert FullHeld([WROTE]) == map["main" := {X}];
    assert FullHeld(cs[..2]) == map["main" := {X}, "c" := {X}];
    assert X in L.Rows(FullHeld(cs), "c");
    assert X !in L.Rows(Unhealed(p), "c");
    forall heals ensures !Reaches(p.lineage, {RowRef("main", X)} * heals, "c", X) { HoldersBelow(p.lineage, "main", "c"); }
  }

  lemma RewoundReturns()
    ensures var p, heals := Run(REWOUND_RUN), [RowRef("main", X)];
            Stale(p, "c", X) && !Reaches(p.lineage, {}, "c", X) && Returns(p, [], heals, "c", X) && !LiveRow(p, heals, X)
  {
    var p, heals := Run(REWOUND_RUN), [RowRef("main", X)];
    RewoundWorld();
    RewoundStale();
    assert Elements(heals) == {RowRef("main", X)} && Elements<RowRef>([]) == {};
    assert {RowRef("main", X)} * {RowRef("main", X)} == {RowRef("main", X)} && {RowRef("main", X)} * {} == {};
    hide Run, AllowedRun, Stale, Reaches, Elements;
  }

  const TAINTED_RUN := [Committing(WROTE), Checkpointing, Tainting([RowRef("main", X)])]

  /** And the run the exact wake excludes: a row is checkpointed, then tainted, and its checkpoint wakes no more. */
  lemma TaintedSinceLocksOut(ledger: seq<RowRef>)
    ensures AllowedRun(TAINTED_RUN) && WakeHeld(Run(TAINTED_RUN), ledger).None?
  {
    var one, two := [Committing(WROTE)], [Committing(WROTE), Checkpointing];
    assert [] + one == one && one + [Checkpointing] == two && two + [Tainting([RowRef("main", X)])] == TAINTED_RUN;
    assert Rows(WROTE) == {RowRef("main", X)} && Elements([RowRef("main", X)]) == {RowRef("main", X)};
    RunMore([], Committing(WROTE));
    RunMore(one, Checkpointing);
    RunMore(two, Tainting([RowRef("main", X)]));
    var p := Run(TAINTED_RUN);
    assert X in L.Rows(p.Base().held, "main") && p.written - p.heals == {};
    hide Run, AllowedRun, HealAll;
  }

  /**
   Both failures on one run: a write, a fork, a rewind, and no checkpoint. The live plane holds nothing on the
   rewound branch, a restart brings its row back; and after a taint of that row and a checkpoint no wake answers.
   */
  lemma RewoundRowLocksOut(again: seq<RowRef>)
    ensures AllowedRun(REWOUND_RUN)
    ensures var p := Run(REWOUND_RUN);
            && L.Rows(p.held, "c") == {} && X in L.Rows(Step(p, Restarting([])).held, "c")
            && Allowed(p, Tainting([RowRef("main", X)])) && WakeHeld(Rebuilt(p, [], [RowRef("main", X)]), again).None?
  {
    var p, heals := Run(REWOUND_RUN), [RowRef("main", X)];
    RewoundWorld();
    RewoundReturns();
    RunInv(REWOUND_RUN);
    assert Elements(heals) == {RowRef("main", X)} && Elements<RowRef>([]) == {};
    hide Run, AllowedRun, Stale, Reaches, Inv, HealAll, FullHeld, Returns, LiveRow, Elements, WakeHeld, Rebuilt;
    FullRow(p, [], "c", X);
    RebuiltWakesExactly(p, [], heals, again);
  }

  // ---- the code's form -----------------------------------------------------------------------------------------

  /** Replay and heals depend only on the rows each branch holds. */
  lemma {:induction false} ReplayRows(a: L.Held, c: L.Held, commits: seq<Commit>, b: string)
    requires forall b :: L.Rows(a, b) == L.Rows(c, b)
    ensures L.Rows(ReplayHeld(a, commits), b) == L.Rows(ReplayHeld(c, commits), b)
  {
    if commits != [] {
      var init := commits[..|commits| - 1];
      forall b ensures L.Rows(ReplayHeld(a, init), b) == L.Rows(ReplayHeld(c, init), b) { ReplayRows(a, c, init, b); }
      SameApply(ReplayHeld(a, init), ReplayHeld(c, init), commits[|commits| - 1]);
    }
  }

  class StandingPlane {
    var membership: L.Held
    var lineage: L.Lineage

    constructor ()
      ensures membership == map[] && lineage == L.EMPTY
    {
      membership, lineage := map[], L.EMPTY;
    }

    /** Record a row for a branch, as every semantic apply does before it reaches the operators. */
    method Record(branch: string, item: Item)
      modifies this`membership
      ensures membership == old(membership)[branch := L.Rows(old(membership), branch) + {item}]
    {
      membership := membership[branch := L.Rows(membership, branch) + {item}];
    }

    method RecordAll(branch: string, items: set<Item>)
      modifies this`membership
      ensures forall b :: L.Rows(membership, b) == L.Rows(old(membership), b) + if b == branch then items else {}
    {
      var rest := items;
      while rest != {}
        invariant rest <= items
        invariant forall b :: L.Rows(membership, b) == L.Rows(old(membership), b) + if b == branch then items - rest else {}
        decreases rest
      {
        var x :| x in rest;
        Record(branch, x);
        rest := rest - {x};
      }
    }

    method ApplyCommit(c: Commit)
      modifies this
      ensures lineage == ApplyLineage(old(lineage), c)
      ensures forall b :: L.Rows(membership, b) == L.Rows(ApplyHeld(old(membership), c), b)
      ensures c.Written? ==> forall b :: L.Rows(membership, b) == L.Rows(old(membership), b) + if b == c.branch then c.items else {}
      ensures c.Forked? ==> forall b :: L.Rows(membership, b) == L.Rows(old(membership), if b == c.child then c.parent else b)
      ensures c.Rewound? ==> forall b :: L.Rows(membership, b) == if b == c.child then {} else L.Rows(old(membership), b)
      ensures c.Forked? ==> lineage.forks == old(lineage).forks[c.child := (c.parent, c.at)] && lineage.rewinds == old(lineage).rewinds
      ensures c.Rewound? ==> lineage.rewinds == old(lineage).rewinds[c.child := c.at] && lineage.forks == old(lineage).forks
      ensures c.Written? ==> lineage == old(lineage)
    {
      match c
      case Written(b, items) => RecordAll(b, items);
      case Forked(child, parent, at) =>
        membership := membership[child := L.Rows(membership, parent)];
        lineage := lineage.(forks := lineage.forks[child := (parent, at)]);
      case Rewound(child, at) =>
        membership := membership - {child};
        lineage := lineage.(rewinds := lineage.rewinds[child := at]);
    }

    /** Rebuild every branch from the checkpoint's membership; refused when a row has no live engine row. */
    method Rebuild(checkpoint: Checkpoint, live: set<Item>) returns (ok: bool)
      modifies this
      ensures ok <==> forall b, x :: x in L.Rows(checkpoint.held, b) ==> x in live
      ensures ok ==> lineage == checkpoint.lineage && forall b :: L.Rows(membership, b) == L.Rows(checkpoint.held, b)
    {
      membership, lineage := map[], checkpoint.lineage;
      var branches := checkpoint.held.Keys;
      while branches != {}
        invariant branches <= checkpoint.held.Keys && lineage == checkpoint.lineage
        invariant forall b :: L.Rows(membership, b) == if b in branches then {} else L.Rows(checkpoint.held, b)
        invariant forall b, x :: b !in branches && x in L.Rows(checkpoint.held, b) ==> x in live
        decreases branches
      {
        var branch :| branch in branches;
        if !(checkpoint.held[branch] <= live) {
          ghost var x :| x in checkpoint.held[branch] && x !in live;
          assert x in L.Rows(checkpoint.held, branch);
          return false;
        }
        RecordAll(branch, checkpoint.held[branch]);
        branches := branches - {branch};
      }
      ok := true;
    }

    method ReplaySuffix(suffix: seq<Commit>)
      modifies this
      ensures lineage == ReplayLineage(old(lineage), suffix)
      ensures forall b :: L.Rows(membership, b) == L.Rows(ReplayHeld(old(membership), suffix), b)
    {
      var i := 0;
      while i < |suffix|
        invariant 0 <= i <= |suffix| && lineage == ReplayLineage(old(lineage), suffix[..i])
        invariant forall b :: L.Rows(membership, b) == L.Rows(ReplayHeld(old(membership), suffix[..i]), b)
      {
        ghost var before := ReplayHeld(old(membership), suffix[..i]);
        assert suffix[..i + 1][..i] == suffix[..i];
        SameApply(membership, before, suffix[i]);
        ApplyCommit(suffix[i]);
        i := i + 1;
      }
      assert suffix[..i] == suffix;
    }

    /** One capture of full replay: a rewind is noted in the lineage, and the branch keeps its rows. */
    method RecoverCommit(c: Commit)
      modifies this
      ensures lineage == ApplyLineage(old(lineage), c)
      ensures forall b :: L.Rows(membership, b) == L.Rows(if c.Rewound? then old(membership) else ApplyHeld(old(membership), c), b)
    {
      if c.Rewound? {
        lineage := lineage.(rewinds := lineage.rewinds[c.child := c.at]);
      } else {
        ApplyCommit(c);
      }
    }

    /** Full replay: every capture from the first, then the heals. */
    method Recover(commits: seq<Commit>, ledger: seq<RowRef>)
      modifies this
      ensures lineage == ReplayLineage(L.EMPTY, commits)
      ensures forall b :: L.Rows(membership, b) == L.Rows(HealAll(lineage, FullHeld(commits), ledger), b)
    {
      membership, lineage := map[], L.EMPTY;
      var i := 0;
      while i < |commits|
        invariant 0 <= i <= |commits| && lineage == ReplayLineage(L.EMPTY, commits[..i])
        invariant forall b :: L.Rows(membership, b) == L.Rows(FullHeld(commits[..i]), b)
      {
        assert commits[..i + 1][..i] == commits[..i];
        SameApply(membership, FullHeld(commits[..i]), commits[i]);
        RecoverCommit(commits[i]);
        i := i + 1;
      }
      assert commits[..i] == commits;
      ghost var replayed := membership;
      ApplyLedgerHeals(ledger);
      forall b ensures L.Rows(membership, b) == L.Rows(HealAll(lineage, FullHeld(commits), ledger), b) {
        SameHeals(lineage, replayed, FullHeld(commits), ledger, b);
      }
    }

    /** Re-apply every heal the ledger lists, one key at a time, through the lineage healer. */
    method ApplyLedgerHeals(ledger: seq<RowRef>)
      modifies this`membership
      ensures membership == HealAll(lineage, old(membership), ledger)
    {
      var i := 0;
      while i < |ledger|
        invariant 0 <= i <= |ledger| && membership == HealAll(lineage, old(membership), ledger[..i])
      {
        var r := ledger[i];
        assert ledger[..i + 1][..i] == ledger[..i];
        var healed, ok, _ := L.Heal(lineage, {r.item.0}, membership, r.branch, r.item.0, [r.item.1]);
        assert ok;
        membership := healed;
        i := i + 1;
      }
      assert ledger[..i] == ledger;
    }

    /** The bounded wake: checkpoint, suffix, heals. */
    method WakeFromCheckpoint(checkpoint: Checkpoint, live: set<Item>, suffix: seq<Commit>, ledger: seq<RowRef>) returns (ok: bool)
      modifies this
      ensures ok <==> forall b, x :: x in L.Rows(checkpoint.held, b) ==> x in live
      ensures ok ==> lineage == ReplayLineage(checkpoint.lineage, suffix)
      ensures ok ==> forall b :: L.Rows(membership, b) == L.Rows(HealAll(lineage, ReplayHeld(checkpoint.held, suffix), ledger), b)
    {
      ok := Rebuild(checkpoint, live);
      if !ok { return; }
      ghost var rebuilt := membership;
      ReplaySuffix(suffix);
      ghost var replayed := membership;
      ApplyLedgerHeals(ledger);
      forall b ensures L.Rows(replayed, b) == L.Rows(ReplayHeld(checkpoint.held, suffix), b) {
        ReplayRows(rebuilt, checkpoint.held, suffix, b);
      }
      forall b ensures L.Rows(membership, b) == L.Rows(HealAll(lineage, ReplayHeld(checkpoint.held, suffix), ledger), b) {
        SameHeals(lineage, replayed, ReplayHeld(checkpoint.held, suffix), ledger, b);
      }
    }
  }

  lemma SameApply(a: L.Held, c: L.Held, commit: Commit)
    requires forall b :: L.Rows(a, b) == L.Rows(c, b)
    ensures forall b :: L.Rows(ApplyHeld(a, commit), b) == L.Rows(ApplyHeld(c, commit), b)
  {
    forall b ensures L.Rows(ApplyHeld(a, commit), b) == L.Rows(ApplyHeld(c, commit), b) {
      assert L.Rows(a, b) == L.Rows(c, b);
      if commit.Forked? { assert L.Rows(a, commit.parent) == L.Rows(c, commit.parent); }
    }
  }

  lemma SameHeals(l: L.Lineage, a: L.Held, c: L.Held, ledger: seq<RowRef>, b: string)
    requires L.Rows(a, b) == L.Rows(c, b)
    ensures L.Rows(HealAll(l, a, ledger), b) == L.Rows(HealAll(l, c, ledger), b)
  {
    forall x ensures x in L.Rows(HealAll(l, a, ledger), b) <==> x in L.Rows(HealAll(l, c, ledger), b) {
      HealAllRows(l, a, ledger, b, x);
      HealAllRows(l, c, ledger, b, x);
    }
  }
}
