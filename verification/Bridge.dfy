/**
 The bridge's store operations in the form the code has them: methods that change the store one step
 at a time and a chain walk with a cursor, each proved against the queue's specification.
 */
module Bridge {
  import opened Wrappers
  import opened Queue

  function Reversed<T>(s: seq<T>): seq<T> {
    if s == [] then [] else Reversed(s[1..]) + [s[0]]
  }

  lemma {:induction false} ReversedAppend<T>(s: seq<T>, x: T)
    ensures Reversed(s + [x]) == [x] + Reversed(s)
  {
    if s != [] {
      ReversedAppend(s[1..], x);
      assert (s + [x])[1..] == s[1..] + [x];
    }
  }

  method Reverse<T>(s: seq<T>) returns (r: seq<T>)
    ensures r == Reversed(s)
  {
    r := [];
    var i := 0;
    while i < |s|
      invariant 0 <= i <= |s|
      invariant r == Reversed(s[..i])
    {
      assert s[..i + 1] == s[..i] + [s[i]];
      ReversedAppend(s[..i], s[i]);
      r := [s[i]] + r;
      i := i + 1;
    }
    assert s[..i] == s;
  }

  /** What the cursor still has to collect, put before what it already pushed. */
  ghost function Remaining(rest: Result<seq<Capture>, QueueError>, pushed: seq<Capture>): Result<seq<Capture>, QueueError> {
    if rest.Err? then rest else Ok(rest.value + Reversed(pushed))
  }

  lemma RemainingStart(rest: Result<seq<Capture>, QueueError>)
    ensures Remaining(rest, []) == rest
  {
    if rest.Ok? { assert rest.value + [] == rest.value; }
  }

  lemma RemainingStep(older: Result<seq<Capture>, QueueError>, c: Capture, pushed: seq<Capture>)
    requires older.Ok?
    ensures Remaining(Ok(older.value + [c]), pushed) == Remaining(older, pushed + [c])
  {
    ReversedAppend(pushed, c);
    assert older.value + [c] + Reversed(pushed) == older.value + ([c] + Reversed(pushed));
  }

  lemma NothingRemoved(head: Manifest, pending: seq<Capture>, created: nat)
    requires Doomed(head, pending) == {}
    ensures Removals(head, pending) == map[] && Derive(head, Removals(head, pending), created).None?
  {
    assert Overlay(head.pages, map[]) == head.pages;
  }

  class DurableQueue {
    var store: Store

    constructor ()
      ensures store == FRESH
    {
      store := FRESH;
    }

    /**
     Commit application pages and their capture in one transaction. Refused drafts change nothing; an
     admitted one becomes the head, and the writer is handed the capture a later walk will return.
     */
    method CommitWithCapture(writes: map<Page, string>, draft: Draft, created: nat)
      returns (r: Result<Capture, QueueError>)
      modifies this
      ensures r.Err? <==> Refusal(old(store).head, writes, draft).Some?
      ensures r.Err? ==> store == old(store) && Some(r.error) == Refusal(old(store).head, writes, draft)
      ensures r.Ok? <==> Acceptable(old(store).head, writes, draft)
      ensures r.Err? ==> RefusedFor(old(store).head, writes, draft, r.error)
      ensures r.Ok? ==> store == Commit(old(store), WithCapture(writes, draft), created)
      ensures r.Ok? ==> Follows(old(store).head, writes, draft, created, store.head) && store.head in store.present && r.value.commit == store.head
      ensures r.Ok? ==> r.value.draft == draft && r.value.physical == writes.Keys + {CAPTURE_PAGE}
                        && r.value == CaptureOf(store.head, draft) && DraftOf(store.head) == Some(draft)
    {
      RefusedUnlessAcceptable(store.head, writes, draft);
      hide Acceptable, RefusedFor;
      if CAPTURE_PAGE in writes { return Err(CapturePageReserved); }
      if !DraftOk(draft) { return Err(InvalidDraft); }
      var gap := ParentSequence(store.head, draft.seq_);
      if gap.Some? { return Err(gap.value); }
      if writes.Keys != Explained(draft) { return Err(AuditMismatch); }
      if draft.encoded > MAX_CAPTURE_BYTES { return Err(CaptureEncode); }
      var w := WithCapture(writes, draft);
      assert Overlay(store.head.pages, w)[CAPTURE_PAGE] == Captured(draft);
      assert CAPTURE_PAGE in store.head.pages ==> store.head.pages[CAPTURE_PAGE] != Captured(draft);
      CommitFollows(store.head, writes, draft, created);
      hide Follows;
      store := Commit(store, w, created);
      r := Ok(Capture(store.head, draft, w.Keys));
    }

    /** Every capture newer than the sealed epoch, oldest first: a walk down the parents, reversed. */
    method RecoverPendingCaptures(head: Manifest, sealed: nat) returns (r: Result<seq<Capture>, QueueError>)
      ensures r == Walk(store.present, head, sealed)
    {
      var current := head;
      var pending: seq<Capture> := [];
      var done := false;
      RemainingStart(Collect(store.present, head, sealed));
      while !done
        invariant !done ==> Collect(store.present, head, sealed) == Remaining(Collect(store.present, current, sealed), pending)
        invariant done ==> Collect(store.present, head, sealed) == Ok(Reversed(pending))
        decreases !done, current
      {
        if current !in store.present { return Err(MissingManifest); }
        match current.parent
        case None =>
          match DraftOf(current) {
            case None =>
            case Some(draft) =>
              if draft.seq_ > sealed { return Err(ConsumedBeyondSealed(draft.seq_, sealed)); }
          }
          assert [] + Reversed(pending) == Reversed(pending);
          done := true;
        case Some(parent) =>
          match DraftOf(current)
          case None => return Err(CaptureDecode);
          case Some(draft) =>
            if draft.seq_ <= sealed {
              assert [] + Reversed(pending) == Reversed(pending);
              done := true;
            } else {
              ghost var older := Collect(store.present, parent, sealed);
              if older.Ok? { RemainingStep(older, CaptureOf(current, draft), pending); }
              pending := pending + [CaptureOf(current, draft)];
              current := parent;
            }
      }
      var captures := Reverse(pending);
      var i := 0;
      while i < |captures|
        invariant 0 <= i <= |captures|
        invariant FirstGap(captures, sealed, 0) == FirstGap(captures, sealed, i)
      {
        if captures[i].draft.seq_ != sealed + 1 + i {
          return Err(SequenceGap(sealed + 1 + i, captures[i].draft.seq_));
        }
        i := i + 1;
      }
      r := Ok(captures);
    }

    /** The sequence a collapsed store's root carries, if it is collapsed. */
    method CollapsedFloor(head: Manifest) returns (r: Result<Option<nat>, QueueError>)
      ensures r.Ok? <==> Reach(head) <= store.present
      ensures r.Ok? ==> r.value == Floor(head)
    {
      var current := head;
      while true
        invariant Floor(head) == Floor(current)
        invariant Reach(head) <= store.present <==> Reach(current) <= store.present
        decreases current
      {
        if current !in store.present { return Err(MissingManifest); }
        match current.parent
        case Some(parent) => current := parent;
        case None =>
          match DraftOf(current)
          case None => return Ok(None);
          case Some(draft) => return Ok(Some(draft.seq_));
      }
    }

    /**
     S3: one transaction that removes every application page no pending capture references. A kill
     between the log record and the install leaves the record.
     */
    method PruneConsumed(through: nat, created: nat, killed: bool) returns (r: Result<nat, QueueError>)
      modifies this
      ensures r.Err? <==> Walk(old(store).present, old(store).head, through).Err?
      ensures r.Err? ==> store == old(store)
      ensures r.Ok? ==>
        var w := Removals(old(store).head, Walk(old(store).present, old(store).head, through).value);
        && r.value == |w|
        && store == if killed then Log(old(store), w, created) else Commit(old(store), w, created)
      ensures r.Ok? && !killed ==>
        Spares(old(store).head.pages, Walk(old(store).present, old(store).head, through).value, store.head.pages)
    {
      var walked := RecoverPendingCaptures(store.head, through);
      if walked.Err? { return Err(walked.error); }
      var pending := walked.value;
      PruneSpares(store.present, store.head, through);
      hide Spares;
      var keep := {CAPTURE_PAGE};
      var i := 0;
      while i < |pending|
        invariant 0 <= i <= |pending|
        invariant forall p :: p in keep <==> p == CAPTURE_PAGE || exists j :: 0 <= j < i && p in pending[j].physical
      {
        keep := keep + pending[i].physical;
        i := i + 1;
      }
      var doomed := set p | p in store.head.pages && p !in keep;
      assert doomed == Doomed(store.head, pending);
      if doomed == {} {
        NothingRemoved(store.head, pending, created);
        return Ok(0);
      }
      var w: Writes := map p | p in doomed :: None;
      assert w == Removals(store.head, pending) && w.Keys == doomed;
      store := if killed then Log(store, w, created) else Commit(store, w, created);
      r := Ok(|doomed|);
    }

    /** S4: install a flat root. Returns whether there was anything to collapse. */
    method InstallCollapsedRoot() returns (collapsed: bool)
      modifies this
      ensures store == Collapse(old(store)) && collapsed == old(store).head.parent.Some?
      ensures store.head.parent.None? && store.head.pages == old(store).head.pages && store.head.created == old(store).head.created
      ensures store.present == old(store).present + if collapsed then {store.head} else {}
      ensures store.wal == old(store).wal && store.base == old(store).base
    {
      collapsed := store.head.parent.Some?;
      store := Collapse(store);
    }

    /**
     S5: the record first, then the marker. Nothing on disk moves but the log and its marker; a reopening from
     the finished checkpoint lands on the head, and from the record alone too, unless the log before it was
     already broken.
     */
    method CheckpointWal(killed: bool)
      modifies this
      ensures store == if killed then MarkCheckpoint(old(store)) else FinishCheckpoint(MarkCheckpoint(old(store)))
      ensures store.head == old(store).head && store.present == old(store).present
      ensures store.head in store.present ==>
                && (Recover(store).Ok? <==> !killed || Recover(old(store)).Ok?)
                && (Recover(store).Ok? ==> Recover(store).value.head == store.head)
    {
      if store.head in store.present { CheckpointRecovers(store); }
      store := MarkCheckpoint(store);
      if !killed { store := FinishCheckpoint(store); }
    }

    /**
     S6: everything the head reaches is computed before anything is deleted, and a missing ancestor
     refuses the sweep. A cut sweep leaves some garbage.
     */
    method SweepUnreachable(left: set<Manifest>) returns (r: Result<nat, QueueError>)
      modifies this
      ensures r.Ok? <==> Reach(old(store).head) <= old(store).present
      ensures r.Err? ==> store == old(store)
      ensures r.Ok? ==> store == Sweep(old(store), left) && Reach(store.head) <= store.present
    {
      var live: set<Manifest> := {};
      var current := store.head;
      while true
        invariant live + Reach(current) == Reach(store.head) && store == old(store) && live <= store.present
        decreases current
      {
        if current !in store.present { return Err(MissingManifest); }
        live := live + {current};
        if current.parent.None? { break; }
        current := current.parent.value;
      }
      r := Ok(|store.present - (live + left)|);
      store := store.(present := live * store.present + left * store.present);
    }
  }
}
