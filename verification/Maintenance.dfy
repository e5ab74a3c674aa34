/**
 Awake maintenance of one tenant: compact (S1), write the plane checkpoint (S2), archive the resolved
 ledger (A), prune the consumed queue (S3), collapse it (S4), checkpoint the log (S5) and sweep (S6),
 with a crash allowed after every step and inside S3, S5 and S6.
 */
module Maintenance {
  import opened Wrappers
  import opened Queue
  import opened QueueRuns

  /** What a tenant keeps on disk besides its engine. */
  datatype Disk = Disk(store: Store, checkpoint: Option<nat>, archived: bool)

  /** Where a pass stops: at a seam, inside a step, or not at all. */
  datatype Seam = S1 | S2 | A | InS3 | S3 | S4 | InS5 | S5 | InS6 | Done

  datatype OpenError =
    | StorageRefused(error: QueueError)
    | ArchiveWithoutCheckpoint
    | CollapsedWithoutCheckpoint(floor: nat)
    | Unbacked  // the checkpoint names a row that no live engine row backs

  datatype Opened = Live(disk: Disk, commitSeq: nat) | Refused(error: OpenError)

  /** What one pass is given besides the plane: the clock, whether anything is archived, what a cut sweep leaves. */
  datatype Pass = Pass(created: nat, archives: bool, kept: set<Manifest>)

  function LastSeq(captures: seq<Capture>, otherwise: nat): nat {
    if captures == [] then otherwise else captures[|captures| - 1].draft.seq_
  }

  function Replayed(d: Disk, s: Store, from: nat): Opened {
    match Walk(s.present, s.head, from)
    case Err(e) => Refused(StorageRefused(e))
    case Ok(captures) => Live(d.(store := s), LastSeq(captures, from))
  }

  /**
   Opening a tenant: the bounded path with a checkpoint, full replay without one, refusals by name. `backed`
   is the engine's part: whether every row the checkpoint names is live.
   */
  function OpenDisk(d: Disk, backed: bool): Opened {
    match Recover(d.store)
    case Err(e) => Refused(StorageRefused(e))
    case Ok(s) =>
      if d.checkpoint.Some? then (if backed then Replayed(d, s, d.checkpoint.value) else Refused(Unbacked))
      else if d.archived then Refused(ArchiveWithoutCheckpoint)
      else if !(Reach(s.head) <= s.present) then Refused(StorageRefused(MissingManifest))
      else if Floor(s.head).Some? then Refused(CollapsedWithoutCheckpoint(Floor(s.head).value))
      else Replayed(d, s, 0)
  }

  function Pruned(s: Store, pending: seq<Capture>, created: nat): Store {
    var w := Removals(s.head, pending);
    if w == map[] then s else Commit(s, w, created)
  }

  /** The queue half of a pass, from S3 on. A prune that refuses ends the pass. */
  function PassStore(s: Store, seq_: nat, pass: Pass, stop: Seam): Store {
    match Walk(s.present, s.head, seq_)
    case Err(_) => s
    case Ok(pending) =>
      var pruned := Pruned(s, pending, pass.created);
      match stop
      case S1 | S2 | A => s
      case InS3 => Log(s, Removals(s.head, pending), pass.created)
      case S3 => pruned
      case S4 => Collapse(pruned)
      case InS5 => MarkCheckpoint(Collapse(pruned))
      case S5 => FinishCheckpoint(Collapse(pruned))
      case InS6 => Sweep(FinishCheckpoint(Collapse(pruned)), pass.kept)
      case Done => Sweep(FinishCheckpoint(Collapse(pruned)), {})
  }

  function PassDisk(d: Disk, seq_: nat, pass: Pass, stop: Seam): Disk {
    if stop.S1? then d
    else if stop.S2? then d.(checkpoint := Some(seq_))
    else Disk(PassStore(d.store, seq_, pass, stop), Some(seq_), d.archived || pass.archives)
  }

  // ---- safety of what is on disk -----------------------------------------------------------------------

  /** Recovery leads to `head`, and everything it reaches is there. */
  ghost predicate Whole(s: Store, head: Manifest) {
    var r := Replay(s.present + {ROOT}, s.base, s.wal);
    r.Ok? && r.value.1 == head && Reach(head) <= r.value.0
  }

  /** What full replay or a suffix may start from. */
  ghost function Covered(d: Disk): nat { if d.checkpoint.Some? then d.checkpoint.value else 0 }

  /**
   Safe to crash on: the durable head carries the whole history with its chain present, an archive or a
   collapsed chain has a checkpoint, and nothing past the checkpoint was consumed.
   */
  ghost predicate Safe(d: Disk, history: seq<Capture>) {
    exists head :: SafeAt(d, history, head)
  }

  ghost predicate SafeAt(d: Disk, history: seq<Capture>, head: Manifest) {
    && Numbered(history) && Carries(head, history) && Whole(d.store, head)
    && (d.archived ==> d.checkpoint.Some?)
    && (Floor(head).Some? ==> d.checkpoint.Some?)
    && Consumed(head) <= Covered(d) <= SeqOf(head)
  }

  /** Between operations the volatile head is the durable one. */
  ghost predicate AtRest(d: Disk, history: seq<Capture>) {
    SafeAt(d, history, d.store.head) && Reach(d.store.head) <= d.store.present
  }

  lemma {:induction false} FloorIsConsumed(m: Manifest, history: seq<Capture>)
    requires Chain(m, history) && Floor(m).Some?
    ensures 1 <= Floor(m).value <= Consumed(m)
    decreases m
  {
    if m.parent.Some? {
      FloorIsConsumed(m.parent.value, history);
      ConsumedBound(m.parent.value, history);
    }
  }

  /** The order the design names: collapse floor, checkpoint, head. */
  lemma FloorCheckpointHead(d: Disk, history: seq<Capture>, head: Manifest)
    requires SafeAt(d, history, head)
    ensures Floor(head).Some? ==> d.checkpoint.Some? && Floor(head).value <= d.checkpoint.value
    ensures d.checkpoint.Some? ==> d.checkpoint.value <= SeqOf(head) == |history|
  {
    if Floor(head).Some? { FloorIsConsumed(head, history); }
  }

  lemma {:induction false} ReplayMore(some: set<Manifest>, more: set<Manifest>, base: Manifest, wal: seq<Record>)
    requires some <= more && Replay(some, base, wal).Ok?
    ensures var r, r' := Replay(some, base, wal), Replay(more, base, wal);
            r'.Ok? && r'.value.1 == r.value.1 && r.value.0 <= r'.value.0
  {
    if wal != [] { ReplayMore(some, more, base, wal[..|wal| - 1]); }
  }

  lemma BetweenLast(history: seq<Capture>, from: nat)
    requires Numbered(history) && from <= |history|
    ensures LastSeq(Between(history, from, |history|), from) == |history|
  {
  }

  /**
   Reopening what is safe to crash on is refused only for an unbacked row of a checkpoint, and otherwise lands
   on the head's own sequence.
   */
  lemma SafeReopens(d: Disk, history: seq<Capture>, head: Manifest, backed: bool)
    requires SafeAt(d, history, head)
    ensures var r := OpenDisk(d, backed);
            if d.checkpoint.Some? && !backed then r == Refused(Unbacked)
            else r.Live? && r.commitSeq == |history| && r.disk.store.head == head && AtRest(r.disk, history)
  {
    var s := Recover(d.store).value;
    ReplayKeeps(d.store.present + {ROOT}, s.base, s.wal);
    ReplayMore(d.store.present + {ROOT}, s.present + {ROOT}, s.base, s.wal);
    var from := Covered(d);
    WalkIsExact(s.present, head, history, from);
    BetweenLast(history, from);
    hide Replay, Walk, Chain, Consumed, Reach, Floor;
    assert backed || d.checkpoint.None? ==> OpenDisk(d, backed) == Replayed(d, s, from);
  }

  // ---- one pass from a synced plane ----------------------------------------------------------------------

  /** A commit from a head at rest leaves a head at rest. */
  lemma CommitWhole(s: Store, w: Writes, created: nat)
    requires Whole(s, s.head) && Reach(s.head) <= s.present && Derive(s.head, w, created).Some?
    ensures var s' := Commit(s, w, created);
            Whole(s', s'.head) && Reach(s'.head) <= s'.present && Whole(Log(s, w, created), s'.head)
  {
    var m := Derive(s.head, w, created).value;
    var s' := Commit(s, w, created);
    assert s'.wal[..|s'.wal| - 1] == s.wal;
    ReplayMore(s.present + {ROOT}, s'.present + {ROOT}, s.base, s.wal);
  }

  lemma CollapseWhole(s: Store)
    requires Whole(s, s.head) && Reach(s.head) <= s.present
    ensures Whole(Collapse(s), s.head)
    ensures Reach(Collapse(s).head) <= Collapse(s).present
    ensures Whole(MarkCheckpoint(Collapse(s)), Collapse(s).head)
  {
    var flat := Collapse(s);
    ReplayMore(s.present + {ROOT}, flat.present + {ROOT}, s.base, s.wal);
    ReplayKeeps(flat.present + {ROOT}, s.base, s.wal);
    assert MarkCheckpoint(flat).wal[..|flat.wal|] == flat.wal;
    assert flat.head in flat.present;
  }

  lemma {:induction false} HeadIsReached(m: Manifest)
    ensures m in Reach(m)
  {
  }

  lemma CheckpointWhole(s: Store, kept: set<Manifest>)
    requires Reach(s.head) <= s.present
    ensures Whole(FinishCheckpoint(s), s.head)
    ensures var swept := Sweep(FinishCheckpoint(s), kept); Whole(swept, s.head) && Reach(s.head) <= swept.present
  {
    HeadIsReached(s.head);
  }

  /** What may follow a collapse before the next commit: nothing, the checkpoint record, or the whole checkpoint. */
  datatype Sync = Unmarked | Marked | Finished

  /**
   Exactly when a commit on a collapsed root can be recovered: if and only if the checkpoint record was
   logged before it.
   */
  lemma CollapseRecoversExactly(s: Store, sync: Sync, writes: map<Page, string>, draft: Draft, created: nat)
    requires Whole(s, s.head) && Reach(s.head) <= s.present && s.head.parent.Some?
    requires Refusal(Collapse(s).head, writes, draft).None?
    ensures var flat := Collapse(s);
            var synced := match sync
                          case Unmarked => flat
                          case Marked => MarkCheckpoint(flat)
                          case Finished => FinishCheckpoint(MarkCheckpoint(flat));
            Recover(Commit(synced, WithCapture(writes, draft), created)).Ok? <==> sync != Unmarked
  {
    var flat, w := Collapse(s), WithCapture(writes, draft);
    CommitDerives(flat.head, writes, draft, created);
    CollapseWhole(s);
    CheckpointWhole(flat, {});
    hide Refusal, WithCapture, Derive, Collapse, Reach, Replay;
    if sync == Unmarked {
      ReplayReachesLogged(s.present + {ROOT}, s.base, s.wal);
      UncheckpointedCollapseDiverges(s, writes, draft, created);
    } else {
      CommitWhole(if sync.Marked? then MarkCheckpoint(flat) else FinishCheckpoint(MarkCheckpoint(flat)), w, created);
    }
  }

  /** With the plane in step with the head, the prune walk finds nothing pending. */
  lemma SyncedPrune(s: Store, history: seq<Capture>)
    requires Numbered(history) && Carries(s.head, history) && Reach(s.head) <= s.present
    ensures Walk(s.present, s.head, SeqOf(s.head)) == Ok([])
  {
    WalkIsExact(s.present, s.head, history, SeqOf(s.head));
    ConsumedBound(s.head, history);
  }

  lemma PruneCarries(head: Manifest, history: seq<Capture>, pending: seq<Capture>, created: nat)
    requires Carries(head, history)
    ensures var w := Removals(head, pending);
            && (w == map[] <==> Derive(head, w, created).None?)
            && (w != map[] ==> Carries(Derive(head, w, created).value, history))
  {
    var w := Removals(head, pending);
    if w != map[] {
      var p :| p in w;
      assert p in head.pages && p !in Overlay(head.pages, w);
      RemovalCarries(head, history, w, created);
    }
  }

  ghost predicate Durable(s: Store, history: seq<Capture>, head: Manifest) {
    Carries(head, history) && Whole(s, head)
  }

  ghost predicate Steady(s: Store, history: seq<Capture>) {
    Durable(s, history, s.head) && Reach(s.head) <= s.present
  }

  lemma PruneSteady(s: Store, history: seq<Capture>, pending: seq<Capture>, created: nat)
    requires Steady(s, history)
    ensures Steady(Pruned(s, pending, created), history)
    ensures Durable(Log(s, Removals(s.head, pending), created), history, Pruned(s, pending, created).head)
  {
    var w := Removals(s.head, pending);
    PruneCarries(s.head, history, pending, created);
    if w != map[] { CommitWhole(s, w, created); }
    hide Whole, Chain, Reach, Removals;
  }

  lemma CollapseSteady(s: Store, history: seq<Capture>, kept: set<Manifest>)
    requires Steady(s, history)
    ensures var flat := Collapse(s);
            && Consumed(flat.head) == SeqOf(flat.head)
            && Durable(flat, history, s.head)
            && Durable(MarkCheckpoint(flat), history, flat.head)
            && Steady(FinishCheckpoint(flat), history)
            && Steady(Sweep(FinishCheckpoint(flat), kept), history)
  {
    CollapseWhole(s);
    CollapseCarries(s, history);
    CheckpointWhole(Collapse(s), kept);
    hide Whole, Chain, Consumed, Collapse, Reach;
  }

  lemma PassStoreDurable(s: Store, history: seq<Capture>, pass: Pass, stop: Seam) returns (head: Manifest)
    requires Numbered(history) && Steady(s, history)
    ensures var s' := PassStore(s, SeqOf(s.head), pass, stop);
            Durable(s', history, head) && (stop.Done? ==> s'.head == head && Steady(s', history))
  {
    SyncedPrune(s, history);
    PruneSteady(s, history, [], pass.created);
    var pruned := Pruned(s, [], pass.created);
    var flat := Collapse(pruned);
    CollapseSteady(pruned, history, pass.kept);
    CollapseSteady(pruned, history, {});
    head := match stop
      case S1 | S2 | A => s.head
      case InS3 | S3 | S4 => pruned.head
      case InS5 | S5 | InS6 | Done => flat.head;
    hide Walk, Durable, Log, Pruned, Collapse, Reach, Removals;
  }

  /**
   A pass that starts in step with the head is safe to stop at every seam and inside every step, and
   a finished one leaves the plane at rest.
   */
  lemma PassIsSafe(d: Disk, history: seq<Capture>, pass: Pass, stop: Seam)
    requires AtRest(d, history)
    ensures Safe(PassDisk(d, |history|, pass, stop), history)
    ensures stop.Done? ==> AtRest(PassDisk(d, |history|, pass, stop), history)
  {
    var head := PassStoreDurable(d.store, history, pass, stop);
    ConsumedBound(head, history);
    ConsumedBound(d.store.head, history);
    var d' := PassDisk(d, |history|, pass, stop);
    hide PassStore, Whole, Chain, Consumed, Reach, Floor;
    if stop.S1? || stop.S2? { assert SafeAt(d', history, d.store.head); } else { assert SafeAt(d', history, head); }
  }

  /**
   What a finished pass leaves of the queue: one manifest, which is head, base and all that is present, with an
   empty log; and of the old head's pages exactly the capture page and those of pending captures, unchanged.
   */
  ghost predicate Tidied(before: Store, pending: seq<Capture>, after: Store) {
    && after.head.parent.None? && after.base == after.head && after.present == {after.head} && after.wal == []
    && Spares(before.head.pages, pending, after.head.pages)
  }

  lemma FinishedPassTidies(s: Store, seq_: nat, pass: Pass)
    requires Walk(s.present, s.head, seq_).Ok?
    ensures Tidied(s, Walk(s.present, s.head, seq_).value, PassStore(s, seq_, pass, Done))
  {
    var pending := Walk(s.present, s.head, seq_).value;
    var pruned := Pruned(s, pending, pass.created);
    PruneSpares(s.present, s.head, seq_);
    assert s.head in s.present;
    assert Overlay(s.head.pages, map[]) == s.head.pages;
    assert pruned.head.pages == Overlay(s.head.pages, Removals(s.head, pending)) && pruned.head in pruned.present;
    hide Walk, Removals, Overlay, Spares, Pruned;
    var flat := Collapse(pruned);
    assert Reach(flat.head) == {flat.head} && flat.head in flat.present;
  }

  // ---- a plane that fell behind its head -------------------------------------------------------------------

  /** A prune that removes something consumes everything up to its head; one that removes nothing does not happen. */
  lemma PrunedConsumed(s: Store, history: seq<Capture>, pending: seq<Capture>, created: nat)
    requires Steady(s, history)
    ensures Consumed(Pruned(s, pending, created).head) == if Removals(s.head, pending) == map[] then Consumed(s.head) else |history|
  {
    var w := Removals(s.head, pending);
    PruneCarries(s.head, history, pending, created);
    if w != map[] { RemovalCarries(s.head, history, w, created); }
    hide Chain, Removals, Whole, Reach, Consumed;
  }

  /** The head a pass makes durable by the time it stops, and what it has consumed by then. */
  lemma PassConsumes(s: Store, history: seq<Capture>, seq_: nat, pass: Pass, stop: Seam) returns (head: Manifest)
    requires Steady(s, history) && Walk(s.present, s.head, seq_).Ok? && !stop.S1? && !stop.S2?
    ensures Durable(PassStore(s, seq_, pass, stop), history, head)
    ensures var pending := Walk(s.present, s.head, seq_).value;
            Consumed(head) ==
              if stop.A? || ((stop.InS3? || stop.S3? || stop.S4?) && Removals(s.head, pending) == map[]) then Consumed(s.head) else |history|
  {
    var pending := Walk(s.present, s.head, seq_).value;
    PruneSteady(s, history, pending, pass.created);
    PrunedConsumed(s, history, pending, pass.created);
    var pruned := Pruned(s, pending, pass.created);
    var flat := Collapse(pruned);
    CollapseSteady(pruned, history, pass.kept);
    CollapseSteady(pruned, history, {});
    head := match stop
      case S1 | S2 | A => s.head
      case InS3 | S3 | S4 => pruned.head
      case InS5 | S5 | InS6 | Done => flat.head;
    assert SeqOf(flat.head) == |history| by { assert Durable(FinishCheckpoint(flat), history, flat.head); }
    hide Walk, Durable, Log, Pruned, Collapse, Reach, Removals, Consumed, SeqOf;
  }

  /** Opening with a checkpoint, seen from the recovered store. */
  lemma CheckpointedOpen(d: Disk, history: seq<Capture>, head: Manifest, backed: bool)
    requires Numbered(history) && Carries(head, history) && Whole(d.store, head) && d.checkpoint.Some?
    ensures OpenDisk(d, backed).Live? <==> backed && Consumed(head) <= d.checkpoint.value
  {
    var s := Recover(d.store).value;
    WalkIsExact(s.present, head, history, d.checkpoint.value);
    hide Replay, Walk, Chain, Consumed, Reach, Floor;
  }

  /** The chain from `m` ends in a root that carries a capture, as only a collapse leaves one, with sequence `n`. */
  ghost predicate CollapsedAt(m: Manifest, n: nat) {
    exists root :: && root in Reach(m) && root.parent.None?
                   && 0xFFFF_FFFF_FFFF_FFFF in root.pages && root.pages[0xFFFF_FFFF_FFFF_FFFF].Captured?
                   && root.pages[0xFFFF_FFFF_FFFF_FFFF].draft.seq_ == n
  }

  lemma {:induction false} FloorIsCollapse(m: Manifest, n: nat)
    ensures Floor(m) == Some(n) <==> CollapsedAt(m, n)
    decreases m
  {
    if m.parent.Some? {
      FloorIsCollapse(m.parent.value, n);
      assert forall root :: root in Reach(m) && root.parent.None? <==> root in Reach(m.parent.value) && root.parent.None?;
    } else {
      assert Reach(m) == {m};
    }
  }

  /**
   Every open of a recoverable queue, by name: an unbacked checkpoint, an archive or a collapsed chain without a
   checkpoint, and captures consumed past where replay starts are refused as such; everything else is live at the head.
   */
  lemma OpenExactly(d: Disk, history: seq<Capture>, head: Manifest, backed: bool)
    requires Numbered(history) && Carries(head, history) && Whole(d.store, head) && Covered(d) <= |history|
    ensures var r := OpenDisk(d, backed);
            && (r == Refused(Unbacked) <==> d.checkpoint.Some? && !backed)
            && (r.Refused? && r.error.StorageRefused? <==>
                  Consumed(head) > Covered(d) && if d.checkpoint.Some? then backed else !d.archived && forall n: nat :: !CollapsedAt(head, n))
            && (r == Refused(ArchiveWithoutCheckpoint) <==> d.checkpoint.None? && d.archived)
            && (forall n: nat :: r == Refused(CollapsedWithoutCheckpoint(n)) <==> d.checkpoint.None? && !d.archived && CollapsedAt(head, n))
            && (r.Live? ==> r.commitSeq == |history| && r.disk.store.head == head && r.disk.checkpoint == d.checkpoint && r.disk.archived == d.archived)
  {
    var s := Recover(d.store).value;
    forall n: nat ensures Floor(head) == Some(n) <==> CollapsedAt(head, n) { FloorIsCollapse(head, n); }
    WalkIsExact(s.present, head, history, Covered(d));
    BetweenLast(history, Covered(d));
    hide Replay, Walk, Chain, Consumed, Reach, Floor, CollapsedAt;
    if d.checkpoint.None? && Floor(head).Some? { assert CollapsedAt(head, Floor(head).value); }
  }

  /** The pass is past its prune and may have consumed what the plane never applied. */
  ghost predicate Prunes(d: Disk, history: seq<Capture>, seq_: nat, stop: Seam)
    requires seq_ <= |history|
  {
    match stop
    case S1 | S2 | A => false
    case InS3 | S3 | S4 => Removals(d.store.head, history[seq_..]) != map[]
    case InS5 | S5 | InS6 | Done => true
  }

  /**
   The exact condition, wherever the pass stops. Its tenant reopens if and only if the checkpoint is backed and
   either the plane was in step with the head, or nothing past its sequence was consumed before the pass and the
   pass stopped before its prune removed a page. Before the first checkpoint is written, an unbacked row is no matter.
   */
  lemma PassReopensExactly(d: Disk, history: seq<Capture>, seq_: nat, pass: Pass, stop: Seam, backed: bool)
    requires AtRest(d, history) && seq_ <= |history|
    ensures OpenDisk(PassDisk(d, seq_, pass, stop), backed).Live? <==>
            if stop.S1? then backed || d.checkpoint.None?
            else backed && (seq_ == |history| || (Consumed(d.store.head) <= seq_ && !Prunes(d, history, seq_, stop)))
  {
    var s := d.store;
    var d' := PassDisk(d, seq_, pass, stop);
    WalkIsExact(s.present, s.head, history, seq_);
    ConsumedBound(s.head, history);
    assert seq_ < |history| ==> Between(history, seq_, |history|) == history[seq_..];
    hide PassStore, Walk, Chain, Reach, Removals, OpenDisk, Floor, Consumed;
    if stop.S1? {
      SafeReopens(d, history, s.head, backed);
    } else if stop.S2? {
      CheckpointedOpen(d', history, s.head, backed);
    } else if Walk(s.present, s.head, seq_).Ok? {
      var head := PassConsumes(s, history, seq_, pass, stop);
      CheckpointedOpen(d', history, head, backed);
    } else {
      RefusedPass(s, seq_, pass, stop);
      CheckpointedOpen(d', history, s.head, backed);
    }
  }

  lemma RefusedPass(s: Store, seq_: nat, pass: Pass, stop: Seam)
    requires Walk(s.present, s.head, seq_).Err?
    ensures PassStore(s, seq_, pass, stop) == s
  {
  }

  // ---- every run ---------------------------------------------------------------------------------------------

  /** How a write ends: applied; committed but refused by the compute log; or the process dies after the record. */
  datatype Fate = Applied | Unapplied | Killed

  /** `backed` is what the next open, if the event ends the process, finds of the checkpoint's rows. */
  datatype Event =
    | Writing(writes: map<Page, string>, draft: Draft, created: nat, fate: Fate, backed: bool)
    | Passing(pass: Pass, stop: Seam, backed: bool)
    | Crashing(backed: bool)

  datatype Tenant = Running(disk: Disk, commitSeq: nat, history: seq<Capture>) | Locked(error: OpenError)

  ghost function Reopened(d: Disk, history: seq<Capture>, backed: bool): Tenant {
    match OpenDisk(d, backed)
    case Live(disk, commitSeq) => Running(disk, commitSeq, history)
    case Refused(error) => Locked(error)
  }

  ghost function StepTenant(t: Tenant, ev: Event): Tenant
    requires t.Running?
  {
    var s := t.disk.store;
    match ev
    case Writing(writes, draft0, created, fate, backed) =>
      var draft := draft0.(seq_ := t.commitSeq + 1);
      if Refusal(s.head, writes, draft).Some? then t else
        var w := WithCapture(writes, draft);
        var more := t.history + [CaptureOf(Resulting(s.head, writes, draft, created), draft)];
        (match fate
         case Applied => Running(t.disk.(store := Commit(s, w, created)), t.commitSeq + 1, more)
         case Unapplied => Running(t.disk.(store := Commit(s, w, created)), t.commitSeq, more)
         case Killed => Reopened(t.disk.(store := Log(s, w, created)), more, backed))
    case Passing(pass, stop, backed) =>
      var d := PassDisk(t.disk, t.commitSeq, pass, stop);
      if stop.Done? then t.(disk := d) else Reopened(d, t.history, backed)
    case Crashing(backed) => Reopened(t.disk, t.history, backed)
  }

  ghost function RunTenant(events: seq<Event>): Tenant {
    if events == [] then Running(Disk(FRESH, None, false), 0, []) else
      var prior := RunTenant(events[..|events| - 1]);
      if prior.Locked? then prior else StepTenant(prior, events[|events| - 1])
  }

  /** Every pass of the run starts with the plane's commit sequence equal to the head's. */
  ghost predicate InStep(events: seq<Event>) {
    events == [] ||
    var prior := RunTenant(events[..|events| - 1]);
    && InStep(events[..|events| - 1])
    && (prior.Running? && events[|events| - 1].Passing? ==> prior.commitSeq == SeqOf(prior.disk.store.head))
  }

  ghost predicate Resting(t: Tenant) {
    t.Running? && AtRest(t.disk, t.history) && t.commitSeq <= |t.history|
  }

  lemma WriteRests(t: Tenant, writes: map<Page, string>, draft: Draft, created: nat)
    requires Resting(t) && Refusal(t.disk.store.head, writes, draft).None?
    ensures var s := t.disk.store;
            var w := WithCapture(writes, draft);
            var more := t.history + [CaptureOf(Resulting(s.head, writes, draft, created), draft)];
            && AtRest(t.disk.(store := Commit(s, w, created)), more)
            && SafeAt(t.disk.(store := Log(s, w, created)), more, Commit(s, w, created).head)
  {
    hide Whole, Chain, Reach, Refusal, WithCapture, Derive, Consumed, CaptureOf, Carries, Numbered;
    var s := t.disk.store;
    var w := WithCapture(writes, draft);
    CommitDerives(s.head, writes, draft, created);
    CommitCarries(s.head, t.history, writes, draft, created);
    CommitWhole(s, w, created);
    var m := Resulting(s.head, writes, draft, created);
    assert Commit(s, w, created).head == m && Floor(m) == Floor(s.head) && SeqOf(m) == SeqOf(s.head) + 1;
    hide Commit, Log, Resulting, Floor;
  }

  /** At rest, or refused for an unbacked row, which happens only when an open does not find it. */
  ghost predicate RestsOrUnbacked(t: Tenant, backed: bool) {
    Resting(t) || (t == Locked(Unbacked) && !backed)
  }

  lemma StepRests(t: Tenant, ev: Event)
    requires Resting(t) && (ev.Passing? ==> t.commitSeq == |t.history|)
    ensures RestsOrUnbacked(StepTenant(t, ev), ev.backed)
  {
    match ev
    case Writing(_, _, _, _, _) => WritingRests(t, ev);
    case Passing(_, _, _) => PassingRests(t, ev);
    case Crashing(backed) =>
      assert SafeAt(t.disk, t.history, t.disk.store.head);
      hide AtRest, SafeAt, OpenDisk;
      SafeReopens(t.disk, t.history, t.disk.store.head, backed);
  }

  lemma WritingRests(t: Tenant, ev: Event)
    requires Resting(t) && ev.Writing?
    ensures RestsOrUnbacked(StepTenant(t, ev), ev.backed)
    ensures !ev.fate.Killed? ==> Resting(StepTenant(t, ev))
  {
    hide AtRest, SafeAt, Refusal, WithCapture, OpenDisk, Commit, Log, Resulting, CaptureOf;
    var draft := ev.draft.(seq_ := t.commitSeq + 1);
    if Refusal(t.disk.store.head, ev.writes, draft).None? {
      WriteRests(t, ev.writes, draft, ev.created);
      var s, w := t.disk.store, WithCapture(ev.writes, draft);
      var more := t.history + [CaptureOf(Resulting(s.head, ev.writes, draft, ev.created), draft)];
      SafeReopens(t.disk.(store := Log(s, w, ev.created)), more, Commit(s, w, ev.created).head, ev.backed);
    }
  }

  lemma PassingRests(t: Tenant, ev: Event)
    requires Resting(t) && ev.Passing? && t.commitSeq == |t.history|
    ensures RestsOrUnbacked(StepTenant(t, ev), ev.backed)
  {
    hide AtRest, SafeAt, OpenDisk, PassDisk;
    PassIsSafe(t.disk, t.history, ev.pass, ev.stop);
    var d := PassDisk(t.disk, t.commitSeq, ev.pass, ev.stop);
    var head :| SafeAt(d, t.history, head);
    SafeReopens(d, t.history, head, ev.backed);
  }

  /**
   Maintenance is crash-safe. In every run whose passes start in step with the head, whatever is killed and
   wherever, no open is refused for what maintenance did to the queue: the tenant runs, its durable chain
   present and carrying the whole history, with collapse floor <= checkpoint <= head. The one refusal left is a
   checkpoint whose rows some open found without a live engine row.
   */
  lemma {:induction false} MaintenanceIsCrashSafe(events: seq<Event>)
    requires InStep(events)
    ensures RestsOrUnbacked(RunTenant(events), forall i :: 0 <= i < |events| ==> events[i].backed)
  {
    if events == [] {
      assert AtRest(Disk(FRESH, None, false), []);
    } else {
      MaintenanceIsCrashSafe(events[..|events| - 1]);
      var t := RunTenant(events[..|events| - 1]);
      if t.Running? {
        assert SeqOf(t.disk.store.head) == |t.history|;
        hide AtRest, StepTenant;
        StepRests(t, events[|events| - 1]);
      }
    }
  }

  /** A write whose capture the compute log refused, a pass, a restart: the tenant stays locked out. */
  lemma UnappliedWriteLocksOut(t: Tenant, write: Event, pass: Pass, backed: bool)
    requires Resting(t) && t.commitSeq == |t.history| && write.Writing? && write.fate.Unapplied?
    requires Refusal(t.disk.store.head, write.writes, write.draft.(seq_ := t.commitSeq + 1)).None?
    ensures var behind := StepTenant(t, write);
            Resting(behind) && StepTenant(StepTenant(behind, Passing(pass, Done, backed)), Event.Crashing(backed)).Locked?
  {
    WritingRests(t, write);
    var behind := StepTenant(t, write);
    PassReopensExactly(behind.disk, behind.history, behind.commitSeq, pass, Done, backed);
  }
}

/** The maintenance pass and the open as the plane runs them, step by step over its fields. */
module MaintainedPlane {
  import opened Wrappers
  import opened Queue
  import opened Bridge
  import opened Maintenance

  class TenantStore {
    const queue: DurableQueue
    var checkpoint: Option<nat>
    var archived: bool
    var commitSeq: nat
    var lastMaintained: nat

    constructor ()
      ensures fresh(queue) && OnDisk() == Disk(FRESH, None, false) && commitSeq == 0
    {
      queue := new DurableQueue();
      checkpoint, archived, commitSeq, lastMaintained := None, false, 0, 0;
    }

    function OnDisk(): Disk
      reads this, queue
    {
      Disk(queue.store, checkpoint, archived)
    }

    /** One pass, killed at `stop`; the caller's next step after a kill is a fresh open. */
    method Maintain(pass: Pass, stop: Seam) returns (refused: Option<QueueError>)
      modifies this, queue
      ensures OnDisk() == PassDisk(old(OnDisk()), old(commitSeq), pass, stop)
      ensures commitSeq == old(commitSeq) && checkpoint == if stop.S1? then old(checkpoint) else Some(commitSeq)
      ensures archived <==> old(archived) || (pass.archives && !stop.S1? && !stop.S2?)
      ensures stop.S1? || stop.S2? || stop.A? ==> queue.store == old(queue.store)
      ensures stop.Done? ==> (refused.Some? <==> Walk(old(queue.store).present, old(queue.store).head, commitSeq).Err?)
      ensures stop.Done? && refused.None? ==> lastMaintained == commitSeq
      ensures stop.Done? && refused.None? ==>
                Tidied(old(queue.store), Walk(old(queue.store).present, old(queue.store).head, commitSeq).value, queue.store)
    {
      hide Walk, Reach, Removals, Log, Commit, Tidied;
      refused := None;
      if stop.S1? { return; }
      checkpoint := Some(commitSeq);
      if stop.S2? { return; }
      archived := archived || pass.archives;
      if stop.A? { return; }
      ghost var s := queue.store;
      var pruned := queue.PruneConsumed(commitSeq, pass.created, stop.InS3?);
      if pruned.Err? { return Some(pruned.error); }
      WalkFindsHead(s, commitSeq);
      ghost var pending := Walk(s.present, s.head, commitSeq).value;
      CommitOfNothing(s, pending, pass.created);
      if stop.InS3? || stop.S3? { return; }
      assert queue.store == Pruned(s, pending, pass.created);
      var _ := queue.InstallCollapsedRoot();
      if stop.S4? { return; }
      queue.CheckpointWal(stop.InS5?);
      if stop.InS5? || stop.S5? { return; }
      RootReach(queue.store.head);
      var swept := queue.SweepUnreachable(if stop.InS6? then pass.kept else {});
      assert swept.Ok?;
      if stop.InS6? { return; }
      FinishedPassTidies(s, commitSeq, pass);
      lastMaintained := commitSeq;
    }

    /** Recover the store, then take the bounded path or full replay, refusing by name. */
    method Open(backed: bool) returns (r: Opened)
      modifies this, queue
      ensures r == OpenDisk(old(OnDisk()), backed)
      ensures r.Live? ==> OnDisk() == r.disk && commitSeq == lastMaintained == r.commitSeq
    {
      var recovered := Recover(queue.store);
      if recovered.Err? { return Refused(StorageRefused(recovered.error)); }
      queue.store := recovered.value;
      var from := 0;
      if checkpoint.Some? {
        if !backed { return Refused(Unbacked); }
        from := checkpoint.value;
      } else {
        if archived { return Refused(ArchiveWithoutCheckpoint); }
        var floor := queue.CollapsedFloor(queue.store.head);
        if floor.Err? { return Refused(StorageRefused(MissingManifest)); }
        if floor.value.Some? { return Refused(CollapsedWithoutCheckpoint(floor.value.value)); }
      }
      var captures := queue.RecoverPendingCaptures(queue.store.head, from);
      if captures.Err? { return Refused(StorageRefused(captures.error)); }
      commitSeq := from;
      var i := 0;
      while i < |captures.value|
        invariant 0 <= i <= |captures.value|
        invariant commitSeq == LastSeq(captures.value[..i], from)
        invariant queue.store == recovered.value && checkpoint == old(checkpoint) && archived == old(archived)
      {
        commitSeq := captures.value[i].draft.seq_;
        i := i + 1;
      }
      assert captures.value[..i] == captures.value;
      lastMaintained := commitSeq;
      r := Live(OnDisk(), commitSeq);
    }
  }

  /** A walk that answers found its head, and a prune keeps a head present. */
  lemma WalkFindsHead(s: Store, seq_: nat)
    ensures Walk(s.present, s.head, seq_).Ok? ==> s.head in s.present
    ensures forall pending, created :: s.head in s.present ==> Pruned(s, pending, created).head in Pruned(s, pending, created).present
  {
  }

  lemma RootReach(m: Manifest)
    ensures m.parent.None? ==> Reach(m) == {m}
  {
  }

  lemma CommitOfNothing(s: Store, pending: seq<Capture>, created: nat)
    ensures Commit(s, Removals(s.head, pending), created) == Pruned(s, pending, created)
  {
    if Removals(s.head, pending) == map[] { assert Overlay(s.head.pages, map[]) == s.head.pages; }
  }
}
