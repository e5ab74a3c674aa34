/**
 A tenant whole: the durable queue, the maintenance that consumes it and the standing sets a plane rebuilds from its
 checkpoint, its queue and its taint ledger, in one run. Whether a checkpointed row is backed is computed here.
 */
module Standing {
  import opened Wrappers
  import L = Lineage
  import M = Maintenance
  import Q = Queue
  import R = QueueRuns
  import W = Wake

  /** How the plane reads a captured draft. */
  type Reading = Q.Draft -> W.Commit

  datatype Tenant = Up(store: M.Tenant, plane: W.Plane) | Out(error: M.OpenError)

  /** `ledger` is what the taint ledger lists at the open that follows, if the event ends the process. */
  datatype Event =
    | Writing(writes: map<Q.Page, string>, draft: Q.Draft, created: nat, killed: bool, ledger: seq<W.RowRef>)
    | Tainting(heals: seq<W.RowRef>)
    | Passing(pass: M.Pass, stop: M.Seam, ledger: seq<W.RowRef>)
    | Crashing(ledger: seq<W.RowRef>)

  function Commits(read: Reading, captures: seq<Q.Capture>): seq<W.Commit> {
    seq(|captures|, i requires 0 <= i < |captures| => read(captures[i].draft))
  }

  // ---- opening ---------------------------------------------------------------------------------------------

  /** What a process rebuilds from the captures it reads back: from a checkpoint, or from the beginning. */
  ghost function Rebuilt(checkpoint: Option<W.Checkpoint>, suffix: seq<W.Commit>, ledger: seq<W.RowRef>): L.Held {
    match checkpoint
    case Some(c) => W.HealAll(W.ReplayLineage(c.lineage, suffix), W.ReplayHeld(c.held, suffix), ledger)
    case None => W.HealAll(W.ReplayLineage(L.EMPTY, suffix), W.FullHeld(suffix), ledger)
  }

  /** Open the disk; the queue says what the suffix is, the engine which checkpointed rows are backed. */
  ghost function Opened(read: Reading, d: M.Disk, history: seq<Q.Capture>, p: W.Plane, ledger: seq<W.RowRef>): Tenant {
    match M.OpenDisk(d, W.Backed(p))
    case Refused(error) => Out(error)
    case Live(disk, commitSeq) =>
      match Q.Walk(disk.store.present, disk.store.head, M.Covered(d))
      case Err(error) => Out(M.StorageRefused(error))
      case Ok(captures) =>
        Up(M.Running(disk, commitSeq, history), p.(held := Rebuilt(p.checkpoint, Commits(read, captures), ledger)))
  }

  ghost function Numbered(t: Tenant, ev: Event): Q.Draft
    requires t.Up? && t.store.Running? && ev.Writing?
  {
    ev.draft.(seq_ := t.store.commitSeq + 1)
  }

  ghost predicate Refused(t: Tenant, ev: Event)
    requires t.Up? && t.store.Running? && ev.Writing?
  {
    Q.Refusal(t.store.disk.store.head, ev.writes, Numbered(t, ev)).Some?
  }

  /** What the event does to a plane that does not die of it. */
  ghost function Moved(read: Reading, t: Tenant, ev: Event, p: W.Plane): W.Plane
    requires t.Up? && t.store.Running?
  {
    match ev
    case Writing(_, _, _, _, _) => if Refused(t, ev) then p else W.Step(p, W.Committing(read(Numbered(t, ev))))
    case Tainting(heals) => W.Step(p, W.Tainting(heals))
    case Passing(_, stop, _) => if stop.S1? then p else W.Step(p, W.Checkpointing)
    case Crashing(_) => p
  }

  ghost function PlaneAfter(read: Reading, t: Tenant, ev: Event): W.Plane
    requires t.Up? && t.store.Running?
  {
    Moved(read, t, ev, t.plane)
  }

  ghost predicate Ends(t: Tenant, ev: Event)
    requires t.Up? && t.store.Running?
  {
    match ev
    case Writing(_, _, _, killed, _) => killed && !Refused(t, ev)
    case Tainting(_) => false
    case Passing(_, stop, _) => !stop.Done?
    case Crashing(_) => true
  }

  /** The disk and the history as the event leaves them. */
  ghost function DiskAfter(t: Tenant, ev: Event): (M.Disk, seq<Q.Capture>)
    requires t.Up? && t.store.Running?
  {
    var s := t.store.disk.store;
    match ev
    case Writing(writes, _, created, killed, _) =>
      if Refused(t, ev) then (t.store.disk, t.store.history) else
        var draft := Numbered(t, ev);
        var w := Q.WithCapture(writes, draft);
        (t.store.disk.(store := if killed then Q.Log(s, w, created) else Q.Commit(s, w, created)),
         t.store.history + [Q.CaptureOf(Q.Resulting(s.head, writes, draft, created), draft)])
    case Tainting(_) => (t.store.disk, t.store.history)
    case Passing(pass, stop, _) => (M.PassDisk(t.store.disk, t.store.commitSeq, pass, stop), t.store.history)
    case Crashing(_) => (t.store.disk, t.store.history)
  }

  ghost function Step(read: Reading, t: Tenant, ev: Event): Tenant
    requires t.Up? && t.store.Running?
  {
    var p, (d, history) := PlaneAfter(read, t, ev), DiskAfter(t, ev);
    if Ends(t, ev) then Opened(read, d, history, p, ev.ledger)
    else Up(M.Running(d, if ev.Writing? && !Refused(t, ev) then t.store.commitSeq + 1 else t.store.commitSeq, history), p)
  }

  /** The plane's own conditions on a run, for the event and for the open it may end in. */
  ghost predicate Allowed(read: Reading, t: Tenant, ev: Event)
    requires t.Up? && t.store.Running?
  {
    && (match ev
        case Writing(_, _, _, _, _) => Refused(t, ev) || W.Allowed(t.plane, W.Committing(read(Numbered(t, ev))))
        case Tainting(heals) => W.Allowed(t.plane, W.Tainting(heals))
        case Passing(_, _, _) => true
        case Crashing(_) => true)
    && (Ends(t, ev) ==> W.Allowed(PlaneAfter(read, t, ev), W.Restarting(ev.ledger)))
  }

  // ---- the invariant -----------------------------------------------------------------------------------------

  /** The plane's suffix is what the queue holds past the checkpoint on disk. */
  ghost predicate Joined(read: Reading, d: M.Disk, history: seq<Q.Capture>, p: W.Plane) {
    && (p.checkpoint.Some? <==> d.checkpoint.Some?)
    && M.Covered(d) <= |history| && p.suffix == Commits(read, history[M.Covered(d)..])
  }

  ghost predicate Inv(read: Reading, t: Tenant) {
    && t.Up? && M.Resting(t.store) && t.store.commitSeq == |t.store.history|
    && W.Inv(t.plane) && Joined(read, t.store.disk, t.store.history, t.plane)
  }

  /** Every branch holds what it held. */
  ghost predicate SameRows(a: W.Plane, b: W.Plane) {
    forall x :: L.Rows(a.held, x) == L.Rows(b.held, x)
  }

  /** The queue reads back exactly the plane's suffix, so what is rebuilt is what the plane's open holds. */
  lemma ReadsBack(read: Reading, d: M.Disk, history: seq<Q.Capture>, head: Q.Manifest, p: W.Plane, ledger: seq<W.RowRef>)
    requires M.SafeAt(d, history, head) && Joined(read, d, history, p) && W.Inv(p) && M.OpenDisk(d, W.Backed(p)).Live?
    ensures var s := M.OpenDisk(d, W.Backed(p)).disk.store;
            var walk := Q.Walk(s.present, s.head, M.Covered(d));
            && walk.Ok? && Commits(read, walk.value) == p.suffix
            && W.OpenHeld(p, ledger) == Some(Rebuilt(p.checkpoint, Commits(read, walk.value), ledger))
  {
    var backed := W.Backed(p);
    M.SafeReopens(d, history, head, backed);
    var s := M.OpenDisk(d, backed).disk.store;
    assert Q.Recover(d.store) == Ok(s);
    Q.WalkIsExact(s.present, s.head, history, M.Covered(d));
    LineageOf(p);
    hide Q.Walk, Q.Reach, Q.Recover, W.Backed, W.Inv, W.HealAll, W.FullHeld, W.ReplayHeld, W.ReplayLineage;
    assert Q.Walk(s.present, s.head, M.Covered(d)).value == history[M.Covered(d)..];
  }

  lemma LineageOf(p: W.Plane)
    requires W.Inv(p)
    ensures W.ReplayLineage(p.Base().lineage, p.suffix) == p.lineage
  {
  }

  /** An open of a safe disk is refused exactly for an unbacked row, and otherwise holds the live sets. */
  lemma OpenedStands(read: Reading, d: M.Disk, history: seq<Q.Capture>, head: Q.Manifest, p: W.Plane, ledger: seq<W.RowRef>)
    requires M.SafeAt(d, history, head) && Joined(read, d, history, p)
    requires W.Inv(p) && W.Allowed(p, W.Restarting(ledger))
    ensures var t := Opened(read, d, history, p, ledger);
            if p.checkpoint.Some? && !W.Backed(p) then t == Out(M.Unbacked) else Inv(read, t) && SameRows(t.plane, p)
  {
    var backed := W.Backed(p);
    M.SafeReopens(d, history, head, backed);
    if p.checkpoint.None? || backed {
      ReadsBack(read, d, history, head, p, ledger);
      hide M.OpenDisk, M.SafeAt, M.AtRest, Q.Walk, W.Backed, W.Inv, W.Allowed, W.OpenHeld, Rebuilt, Commits;
      forall b ensures L.Rows(W.OpenHeld(p, ledger).value, b) == L.Rows(p.held, b) { W.OpenIsLiveRow(p, ledger, b); }
      W.SameRowsKeepInv(p, W.OpenHeld(p, ledger).value);
    }
  }

  // ---- each event ----------------------------------------------------------------------------------------------

  /** The open that follows the event finds a checkpointed row without a live engine row. */
  ghost predicate Loses(read: Reading, t: Tenant, ev: Event)
    requires t.Up? && t.store.Running?
  {
    Ends(t, ev) && PlaneAfter(read, t, ev).checkpoint.Some? && !W.Backed(PlaneAfter(read, t, ev))
  }

  /** What the event leaves on disk is safe, in step with the plane, and at rest unless the process died. */
  ghost predicate Leaves(read: Reading, t: Tenant, ev: Event)
    requires t.Up? && t.store.Running?
  {
    var p, (d, history) := PlaneAfter(read, t, ev), DiskAfter(t, ev);
    && W.Inv(p) && Joined(read, d, history, p) && (exists head :: M.SafeAt(d, history, head))
    && (!Ends(t, ev) ==> M.AtRest(d, history) && Step(read, t, ev).store.commitSeq == |history|)
  }

  lemma CommitsMore(read: Reading, history: seq<Q.Capture>, c: Q.Capture, from: nat)
    requires from <= |history|
    ensures Commits(read, (history + [c])[from..]) == Commits(read, history[from..]) + [read(c.draft)]
  {
    assert (history + [c])[from..] == history[from..] + [c];
  }

  lemma WritingLeaves(read: Reading, t: Tenant, ev: Event)
    requires Inv(read, t) && ev.Writing? && Allowed(read, t, ev)
    ensures Leaves(read, t, ev)
  {
    hide M.AtRest, M.SafeAt, Q.Refusal, Q.WithCapture, Q.Commit, Q.Log, Q.Resulting, W.Inv, W.Allowed, Commits;
    if Refused(t, ev) {
      RestIsSafe(t);
    } else {
      var s, draft := t.store.disk.store, Numbered(t, ev);
      M.WriteRests(t.store, ev.writes, draft, ev.created);
      W.StepKeepsInv(t.plane, W.Committing(read(draft)));
      var c := Q.CaptureOf(Q.Resulting(s.head, ev.writes, draft, ev.created), draft);
      CommitsMore(read, t.store.history, c, M.Covered(t.store.disk));
      if !ev.killed { RestingIsSafe(DiskAfter(t, ev).0, DiskAfter(t, ev).1); }
    }
  }

  lemma RestIsSafe(t: Tenant)
    requires t.Up? && M.Resting(t.store)
    ensures M.AtRest(t.store.disk, t.store.history) && exists head :: M.SafeAt(t.store.disk, t.store.history, head)
  {
  }

  lemma RestingIsSafe(d: M.Disk, history: seq<Q.Capture>)
    requires M.AtRest(d, history)
    ensures exists head :: M.SafeAt(d, history, head)
  {
  }

  lemma PassingLeaves(read: Reading, t: Tenant, ev: Event)
    requires Inv(read, t) && ev.Passing?
    ensures Leaves(read, t, ev)
  {
    M.PassIsSafe(t.store.disk, t.store.history, ev.pass, ev.stop);
    if !ev.stop.S1? { W.CheckpointingKeepsInv(t.plane); }
    assert t.store.history[|t.store.history|..] == [];
    hide M.AtRest, M.SafeAt, M.PassStore, W.Inv;
    assert Commits(read, []) == [];
  }

  lemma EventLeaves(read: Reading, t: Tenant, ev: Event)
    requires Inv(read, t) && Allowed(read, t, ev)
    ensures Leaves(read, t, ev)
  {
    match ev
    case Writing(_, _, _, _, _) => WritingLeaves(read, t, ev);
    case Passing(_, _, _) => PassingLeaves(read, t, ev);
    case Tainting(heals) =>
      RestIsSafe(t);
      W.StepKeepsInv(t.plane, W.Tainting(heals));
      hide M.AtRest, M.SafeAt, W.Inv, W.HealAll;
    case Crashing(_) => RestIsSafe(t);
  }

  /** An event ends in a refused open exactly if that open finds an unbacked row; otherwise the tenant stands. */
  lemma StepStands(read: Reading, t: Tenant, ev: Event)
    requires Inv(read, t) && Allowed(read, t, ev)
    ensures if Loses(read, t, ev) then Step(read, t, ev) == Out(M.Unbacked)
            else Inv(read, Step(read, t, ev)) && SameRows(Step(read, t, ev).plane, PlaneAfter(read, t, ev))
  {
    EventLeaves(read, t, ev);
    var p, d, history := PlaneAfter(read, t, ev), DiskAfter(t, ev).0, DiskAfter(t, ev).1;
    hide M.AtRest, M.SafeAt, W.Inv, W.Backed, W.Allowed, PlaneAfter, DiskAfter, Joined, Opened;
    if Ends(t, ev) {
      var head :| M.SafeAt(d, history, head);
      OpenedStands(read, d, history, head, p, ev.ledger);
    }
  }

  // ---- every run -----------------------------------------------------------------------------------------------

  ghost function Run(read: Reading, events: seq<Event>): Tenant {
    if events == [] then Up(M.Running(M.Disk(Q.FRESH, None, false), 0, []), W.START) else
      var t := Run(read, events[..|events| - 1]);
      if Runs(t) then Step(read, t, events[|events| - 1]) else t
  }

  ghost predicate Runs(t: Tenant) { t.Up? && t.store.Running? }

  ghost predicate AllowedRun(read: Reading, events: seq<Event>) {
    events == [] ||
    var t := Run(read, events[..|events| - 1]);
    AllowedRun(read, events[..|events| - 1]) && (Runs(t) ==> Allowed(read, t, events[|events| - 1]))
  }

  /** The plane of a process that saw the same writes, taints and checkpoints and never died. */
  ghost function Undying(read: Reading, events: seq<Event>): W.Plane {
    if events == [] then W.START else
      var t, p := Run(read, events[..|events| - 1]), Undying(read, events[..|events| - 1]);
      if Runs(t) then Moved(read, t, events[|events| - 1], p) else p
  }

  ghost predicate LosesAt(read: Reading, events: seq<Event>, i: int) {
    0 <= i < |events| && Runs(Run(read, events[..i])) && Loses(read, Run(read, events[..i]), events[i])
  }

  /** Two planes no reader can tell apart: every branch holds the same rows, now and at the checkpoint. */
  ghost predicate Like(a: W.Plane, b: W.Plane) {
    && a.(held := b.held, checkpoint := b.checkpoint) == b && SameRows(a, b)
    && (a.checkpoint.Some? <==> b.checkpoint.Some?) && a.Base().lineage == b.Base().lineage
    && forall x :: L.Rows(a.Base().held, x) == L.Rows(b.Base().held, x)
  }

  lemma MovedLike(read: Reading, t: Tenant, ev: Event, a: W.Plane, b: W.Plane)
    requires Runs(t) && Like(a, b)
    ensures Like(Moved(read, t, ev, a), Moved(read, t, ev, b))
  {
    hide W.ApplyHeld, W.ApplyLineage, W.HealAll, Refused, Numbered;
    match ev
    case Writing(_, _, _, _, _) => W.SameApply(a.held, b.held, read(Numbered(t, ev)));
    case Tainting(heals) =>
      forall x ensures L.Rows(W.HealAll(a.lineage, a.held, heals), x) == L.Rows(W.HealAll(a.lineage, b.held, heals), x) {
        W.SameHeals(a.lineage, a.held, b.held, heals, x);
      }
    case Passing(_, _, _) =>
    case Crashing(_) =>
  }

  /** A step that is not refused leaves the plane as the event moved it, but for how its rows are kept. */
  lemma StepKeepsFields(read: Reading, t: Tenant, ev: Event)
    requires Runs(t) && Step(read, t, ev).Up?
    ensures var p := PlaneAfter(read, t, ev); Step(read, t, ev).plane == p.(held := Step(read, t, ev).plane.held)
  {
    hide M.OpenDisk, Q.Walk, PlaneAfter, DiskAfter;
  }

  lemma LikeThrough(a: W.Plane, b: W.Plane, c: W.Plane)
    requires a == b.(held := a.held) && SameRows(a, b) && Like(b, c)
    ensures Like(a, c)
  {
  }

  lemma LosesPrefix(read: Reading, events: seq<Event>, i: int)
    requires events != []
    ensures 0 <= i < |events| - 1 ==> (LosesAt(read, events, i) <==> LosesAt(read, events[..|events| - 1], i))
  {
    if 0 <= i < |events| - 1 { assert events[..|events| - 1][..i] == events[..i]; }
  }

  /** The last event, after a run that stands or one that is already out. */
  lemma LastStands(read: Reading, events: seq<Event>)
    requires events != [] && AllowedRun(read, events)
    requires var init := events[..|events| - 1];
             Inv(read, Run(read, init)) && Like(Run(read, init).plane, Undying(read, init))
    ensures if LosesAt(read, events, |events| - 1) then Run(read, events) == Out(M.Unbacked)
            else Inv(read, Run(read, events)) && Like(Run(read, events).plane, Undying(read, events))
  {
    var init, last := events[..|events| - 1], events[|events| - 1];
    var t, p := Run(read, init), Undying(read, init);
    assert Allowed(read, t, last) && Run(read, events) == Step(read, t, last) && Undying(read, events) == Moved(read, t, last, p);
    hide Run, Undying, AllowedRun, Allowed, Loses, Like, SameRows, Step;
    StepStands(read, t, last);
    if !LosesAt(read, events, |events| - 1) {
      StepKeepsFields(read, t, last);
      MovedLike(read, t, last, t.plane, p);
      LikeThrough(Step(read, t, last).plane, PlaneAfter(read, t, last), Moved(read, t, last, p));
    }
  }

  /**
   A tenant stands. Over every allowed run of writes, forks, rewinds, taints and maintenance passes, killed anywhere
   and opened again each time: the tenant is refused if and only if some open finds a checkpointed row without a live
   engine row; otherwise it is at rest on the whole history, and every branch holds exactly what it would hold in a
   process that never died.
   */
  lemma {:induction false} TenantStands(read: Reading, events: seq<Event>)
    requires AllowedRun(read, events)
    ensures if exists i :: LosesAt(read, events, i) then Run(read, events) == Out(M.Unbacked)
            else Inv(read, Run(read, events)) && Like(Run(read, events).plane, Undying(read, events))
  {
    if events == [] {
      StartStands(read);
    } else {
      var init := events[..|events| - 1];
      TenantStands(read, init);
      forall i ensures 0 <= i < |events| - 1 ==> (LosesAt(read, events, i) <==> LosesAt(read, init, i)) { LosesPrefix(read, events, i); }
      if i :| LosesAt(read, init, i) {
        OutStays(read, events);
        NotAtLast(read, events);
        assert LosesAt(read, events, i);
      } else {
        hide Run, Undying, AllowedRun, Inv, Like;
        LastStands(read, events);
      }
    }
  }

  lemma OutStays(read: Reading, events: seq<Event>)
    requires events != [] && Run(read, events[..|events| - 1]).Out?
    ensures Run(read, events) == Run(read, events[..|events| - 1])
  {
  }

  lemma NotAtLast(read: Reading, events: seq<Event>)
    requires events != [] && Run(read, events[..|events| - 1]).Out?
    ensures !LosesAt(read, events, |events| - 1)
  {
  }

  lemma StartStands(read: Reading)
    ensures Inv(read, Run(read, [])) && Like(W.START, W.START)
  {
    assert M.RunTenant([]) == Run(read, []).store;
    M.MaintenanceIsCrashSafe([]);
    W.RunInv([]);
    assert Commits(read, []) == [];
  }

  /** A tenant is lost only over a row tainted after the checkpoint that names it. */
  lemma LostRowWasTainted(read: Reading, t: Tenant, ev: Event)
    requires Inv(read, t) && Allowed(read, t, ev) && Loses(read, t, ev)
    ensures var p := PlaneAfter(read, t, ev); exists r, b :: r in p.since && r.item in L.Rows(p.Base().held, b)
  {
    EventLeaves(read, t, ev);
    if forall r, b :: r in PlaneAfter(read, t, ev).since ==> r.item !in L.Rows(PlaneAfter(read, t, ev).Base().held, b) {
      W.UntaintedIsBacked(PlaneAfter(read, t, ev));
    }
  }
}
