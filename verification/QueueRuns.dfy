/**
 Every run of the commit queue: commits, prunes, collapses, checkpoints, sweeps and crashes in any
 order, a crash between the log record and the install included. A store that cannot be reopened
 refuses; a store that is open always walks exactly.
 */
module QueueRuns {
  import opened Wrappers
  import opened Queue

  datatype Event =
    | Committing(writes: map<Page, string>, draft: Draft, created: nat, dies: bool)
    | Pruning(through: nat, created: nat, dies: bool)
    | Collapsing
    | Marking
    | Checkpointing
    | Sweeping(kept: set<Manifest>)
    | Crashing

  datatype State = Open(store: Store, history: seq<Capture>) | Shut

  ghost function Reopen(s: Store, history: seq<Capture>): State {
    match Recover(s)
    case Ok(store) => Open(store, history)
    case Err(_) => Shut
  }

  ghost function Step(state: State, ev: Event): State
    requires state.Open?
  {
    var s := state.store;
    var history := state.history;
    match ev
    case Committing(writes, draft, created, dies) =>
      if Refusal(s.head, writes, draft).Some? then state else
        var more := history + [CaptureOf(Resulting(s.head, writes, draft, created), draft)];
        var w := WithCapture(writes, draft);
        if dies then Reopen(Log(s, w, created), more) else Open(Commit(s, w, created), more)
    case Pruning(through, created, dies) =>
      (match Walk(s.present, s.head, through)
       case Err(_) => state
       case Ok(pending) =>
         var w := Removals(s.head, pending);
         if w == map[] then state
         else if dies then Reopen(Log(s, w, created), history)
         else Open(Commit(s, w, created), history))
    case Collapsing => Open(Collapse(s), history)
    case Marking => Open(MarkCheckpoint(s), history)
    case Checkpointing => Open(FinishCheckpoint(s), history)
    case Sweeping(kept) => Open(Sweep(s, kept), history)
    case Crashing => Reopen(s, history)
  }

  /** The head the log replays to, whatever manifests are still on disk. */
  ghost function LoggedHead(base: Manifest, wal: seq<Record>): Option<Manifest> {
    if wal == [] then Some(base) else
      var prior := LoggedHead(base, wal[..|wal| - 1]);
      if prior.None? then None else
        match wal[|wal| - 1]
        case Committed(writes, id, created) =>
          (match Derive(prior.value, writes, created)
           case None => prior
           case Some(m) => if m == id then Some(m) else None)
        case Checkpointed(id) => Some(id)
  }

  lemma {:induction false} ReplayReachesLogged(present: set<Manifest>, base: Manifest, wal: seq<Record>)
    requires Replay(present, base, wal).Ok?
    ensures LoggedHead(base, wal) == Some(Replay(present, base, wal).value.1)
  {
    if wal != [] { ReplayReachesLogged(present, base, wal[..|wal| - 1]); }
  }

  /** A head that carries the whole history. */
  ghost predicate Carries(m: Manifest, history: seq<Capture>) {
    Chain(m, history) && SeqOf(m) == |history|
  }

  ghost predicate Inv(s: Store, history: seq<Capture>) {
    && Numbered(history)
    && Carries(s.head, history)
    && (LoggedHead(s.base, s.wal).Some? ==> Carries(LoggedHead(s.base, s.wal).value, history))
  }

  ghost predicate StateInv(state: State) { state.Open? ==> Inv(state.store, state.history) }

  lemma ReopenKeepsInv(s: Store, history: seq<Capture>)
    requires Numbered(history)
    requires LoggedHead(s.base, s.wal).Some? ==> Carries(LoggedHead(s.base, s.wal).value, history)
    ensures StateInv(Reopen(s, history))
  {
    if Recover(s).Ok? { ReplayReachesLogged(s.present + {ROOT}, s.base, s.wal); }
  }

  // ---- commits ---------------------------------------------------------------------------------------

  lemma CommitDerives(head: Manifest, writes: map<Page, string>, draft: Draft, created: nat)
    requires Refusal(head, writes, draft).None?
    ensures var m := Resulting(head, writes, draft, created);
            && Derive(head, WithCapture(writes, draft), created) == Some(m)
            && DraftOf(m) == Some(draft) && SeqOf(m) == SeqOf(head) + 1
  {
    var m := Resulting(head, writes, draft, created);
    assert m.pages[CAPTURE_PAGE] == Captured(draft);
    assert CAPTURE_PAGE in head.pages ==> head.pages[CAPTURE_PAGE] != Captured(draft);
  }

  lemma CommitCarries(head: Manifest, history: seq<Capture>, writes: map<Page, string>, draft: Draft, created: nat)
    requires Numbered(history) && Carries(head, history) && Refusal(head, writes, draft).None?
    ensures var m := Resulting(head, writes, draft, created);
            var more := history + [CaptureOf(m, draft)];
            Numbered(more) && Carries(m, more) && Consumed(m) == Consumed(head)
  {
    var m := Resulting(head, writes, draft, created);
    CommitDerives(head, writes, draft, created);
    ChainExtends(head, history, CaptureOf(m, draft));
  }

  /** After a commit is logged, replay either reaches this very commit or diverges. */
  lemma CommitLogged(s: Store, history: seq<Capture>, writes: map<Page, string>, draft: Draft, created: nat)
    requires Inv(s, history) && Refusal(s.head, writes, draft).None?
    ensures var s' := Log(s, WithCapture(writes, draft), created);
            var logged := LoggedHead(s'.base, s'.wal);
            logged.Some? ==> logged.value == Resulting(s.head, writes, draft, created)
  {
    CommitDerives(s.head, writes, draft, created);
    var w := WithCapture(writes, draft);
    var s' := Log(s, w, created);
    assert s'.wal[..|s'.wal| - 1] == s.wal;
    var prior := LoggedHead(s.base, s.wal);
    if prior.Some? {
      assert SeqOf(prior.value) == |history|;
      assert Overlay(prior.value.pages, w)[CAPTURE_PAGE] == Captured(draft);
      assert draft.seq_ == |history| + 1;
      assert CAPTURE_PAGE in prior.value.pages ==> prior.value.pages[CAPTURE_PAGE] != Captured(draft);
    }
  }

  lemma CommittingKeepsInv(state: State, ev: Event)
    requires state.Open? && StateInv(state) && ev.Committing?
    ensures StateInv(Step(state, ev))
  {
    var s, history := state.store, state.history;
    if Refusal(s.head, ev.writes, ev.draft).None? {
      var w := WithCapture(ev.writes, ev.draft);
      var m := Resulting(s.head, ev.writes, ev.draft, ev.created);
      CommitDerives(s.head, ev.writes, ev.draft, ev.created);
      CommitCarries(s.head, history, ev.writes, ev.draft, ev.created);
      CommitLogged(s, history, ev.writes, ev.draft, ev.created);
      var more := history + [CaptureOf(m, ev.draft)];
      ReopenKeepsInv(Log(s, w, ev.created), more);
      assert Commit(s, w, ev.created).head == m;
    }
  }

  // ---- prunes ----------------------------------------------------------------------------------------

  ghost predicate Removes(w: Writes) { CAPTURE_PAGE !in w && forall p :: p in w ==> w[p].None? }

  lemma RemovalCarries(head: Manifest, history: seq<Capture>, w: Writes, created: nat)
    requires Carries(head, history) && Removes(w) && Derive(head, w, created).Some?
    ensures var m := Derive(head, w, created).value; Carries(m, history) && Consumed(m) == SeqOf(m)
  {
    var m := Derive(head, w, created).value;
    assert forall p :: p in m.pages ==> p in head.pages;
    assert CAPTURE_PAGE in m.pages <==> CAPTURE_PAGE in head.pages;
    assert head.pages == map[] ==> m.pages == map[];
  }

  lemma RemovalLogged(s: Store, history: seq<Capture>, w: Writes, created: nat)
    requires Inv(s, history) && Removes(w)
    ensures var s' := Log(s, w, created);
            var logged := LoggedHead(s'.base, s'.wal);
            logged.Some? ==> Carries(logged.value, history)
  {
    var s' := Log(s, w, created);
    if s' != s {
      assert s'.wal[..|s'.wal| - 1] == s.wal;
      var prior := LoggedHead(s.base, s.wal);
      if prior.Some? && Derive(prior.value, w, created).Some? { RemovalCarries(prior.value, history, w, created); }
    }
  }

  lemma PruningKeepsInv(state: State, ev: Event)
    requires state.Open? && StateInv(state) && ev.Pruning?
    ensures StateInv(Step(state, ev))
  {
    var s, history := state.store, state.history;
    match Walk(s.present, s.head, ev.through)
    case Err(_) =>
    case Ok(pending) =>
      var w := Removals(s.head, pending);
      RemovalLogged(s, history, w, ev.created);
      ReopenKeepsInv(Log(s, w, ev.created), history);
      if Derive(s.head, w, ev.created).Some? { RemovalCarries(s.head, history, w, ev.created); }
  }

  // ---- collapse and checkpoint -------------------------------------------------------------------------

  lemma CollapseCarries(s: Store, history: seq<Capture>)
    requires Carries(s.head, history)
    ensures Carries(Collapse(s).head, history) && DraftOf(Collapse(s).head) == DraftOf(s.head)
    ensures Consumed(Collapse(s).head) == SeqOf(Collapse(s).head)
  {
  }

  lemma StepKeepsInv(state: State, ev: Event)
    requires state.Open? && StateInv(state)
    ensures StateInv(Step(state, ev))
  {
    var s, history := state.store, state.history;
    match ev
    case Committing(_, _, _, _) => CommittingKeepsInv(state, ev);
    case Pruning(_, _, _) => PruningKeepsInv(state, ev);
    case Collapsing => CollapseCarries(s, history);
    case Marking => assert MarkCheckpoint(s).wal[..|s.wal|] == s.wal;
    case Checkpointing =>
    case Sweeping(_) =>
    case Crashing => ReopenKeepsInv(s, history);
  }

  ghost function Run(events: seq<Event>): State {
    if events == [] then Open(FRESH, []) else
      var prior := Run(events[..|events| - 1]);
      if prior.Shut? then Shut else Step(prior, events[|events| - 1])
  }

  lemma {:induction false} RunInv(events: seq<Event>)
    ensures StateInv(Run(events))
  {
    if events != [] {
      RunInv(events[..|events| - 1]);
      var prior := Run(events[..|events| - 1]);
      hide StateInv;
      if prior.Open? { StepKeepsInv(prior, events[|events| - 1]); }
    }
  }

  /**
   The capture queue is exact or refuses. After any run, walking an open store from any offset returns
   exactly the captures after it, in order and each as its writer was handed it, or an error; and with
   the head's chain on disk it answers if and only if the offset is not below a consumed sequence.
   */
  lemma QueueIsExact(events: seq<Event>, sealed: nat)
    requires Run(events).Open?
    ensures var s, history := Run(events).store, Run(events).history;
            var r := Walk(s.present, s.head, sealed);
            && (r.Ok? ==> r.value == Between(history, sealed, |history|))
            && (Reach(s.head) <= s.present ==> (r.Ok? <==> Consumed(s.head) <= sealed))
  {
    RunInv(events);
    WalkIsExact(Run(events).store.present, Run(events).store.head, Run(events).history, sealed);
  }

  // ---- what the pages hold -------------------------------------------------------------------------------

  /** The head that recovery would reach has the head's own pages. */
  ghost predicate SamePages(s: Store) {
    LoggedHead(s.base, s.wal).Some? ==> LoggedHead(s.base, s.wal).value.pages == s.head.pages
  }

  lemma LoggedPages(s: Store, w: Writes, created: nat)
    requires SamePages(s)
    ensures var s' := Log(s, w, created);
            LoggedHead(s'.base, s'.wal).Some? ==> LoggedHead(s'.base, s'.wal).value.pages == Overlay(s.head.pages, w)
  {
    var s' := Log(s, w, created);
    if s' != s { assert s'.wal[..|s'.wal| - 1] == s.wal; }
  }

  /** A transaction, installed or only logged, leaves its pages on top of the head's. */
  lemma TransactionPages(s: Store, w: Writes, created: nat)
    requires SamePages(s)
    ensures SamePages(Commit(s, w, created)) && Commit(s, w, created).head.pages == Overlay(s.head.pages, w)
    ensures Recover(Log(s, w, created)).Ok? ==>
              var t := Recover(Log(s, w, created)).value; SamePages(t) && t.head.pages == Overlay(s.head.pages, w)
  {
    LoggedPages(s, w, created);
    var s' := Log(s, w, created);
    if Recover(s').Ok? { ReplayReachesLogged(s'.present + {ROOT}, s'.base, s'.wal); }
  }

  /** The pages after an event, from the pages before it. */
  ghost function PagesAfter(state: State, ev: Event): map<Page, Content>
    requires state.Open?
  {
    var head := state.store.head;
    match ev
    case Committing(writes, draft, _, _) =>
      if Refusal(head, writes, draft).Some? then head.pages else Overlay(head.pages, WithCapture(writes, draft))
    case Pruning(through, _, _) =>
      (match Walk(state.store.present, head, through)
       case Err(_) => head.pages
       case Ok(pending) => Overlay(head.pages, Removals(head, pending)))
    case _ => head.pages
  }

  lemma StepPages(state: State, ev: Event)
    requires state.Open? && SamePages(state.store) && Step(state, ev).Open?
    ensures SamePages(Step(state, ev).store) && Step(state, ev).store.head.pages == PagesAfter(state, ev)
  {
    var s := state.store;
    hide Overlay, Walk, Removals, Refusal, WithCapture, Recover, LoggedHead;
    match ev
    case Committing(writes, draft, created, _) => TransactionPages(s, WithCapture(writes, draft), created);
    case Pruning(through, created, _) =>
      if Walk(s.present, s.head, through).Ok? {
        var w := Removals(s.head, Walk(s.present, s.head, through).value);
        if w == map[] { NothingOverlaid(s.head.pages); } else { TransactionPages(s, w, created); }
      }
    case Collapsing => CollapsePages(s);
    case Marking => MarkPages(s);
    case Checkpointing => FinishPages(s);
    case Sweeping(_) => SweepPages(s, ev.kept);
    case Crashing => CrashPages(s);
  }

  lemma NothingOverlaid(pages: map<Page, Content>)
    ensures Overlay(pages, map[]) == pages
  {
  }

  lemma CollapsePages(s: Store)
    requires SamePages(s)
    ensures SamePages(Collapse(s)) && Collapse(s).head.pages == s.head.pages
  {
  }

  lemma MarkPages(s: Store)
    ensures SamePages(MarkCheckpoint(s)) && MarkCheckpoint(s).head == s.head
  {
    assert MarkCheckpoint(s).wal[..|s.wal|] == s.wal;
  }

  lemma FinishPages(s: Store)
    ensures SamePages(FinishCheckpoint(s)) && FinishCheckpoint(s).head == s.head
  {
  }

  lemma SweepPages(s: Store, kept: set<Manifest>)
    requires SamePages(s)
    ensures SamePages(Sweep(s, kept)) && Sweep(s, kept).head == s.head
  {
  }

  lemma CrashPages(s: Store)
    requires SamePages(s)
    ensures Recover(s).Ok? ==> SamePages(Recover(s).value) && Recover(s).value.head.pages == s.head.pages
  {
    if Recover(s).Ok? { ReplayReachesLogged(s.present + {ROOT}, s.base, s.wal); }
  }

  /** Event `i` is an accepted commit that writes `bytes` to page `p`. */
  ghost predicate Wrote(events: seq<Event>, i: int, p: Page, bytes: string) {
    && 0 <= i < |events| && events[i].Committing? && Run(events[..i]).Open?
    && Acceptable(Run(events[..i]).store.head, events[i].writes, events[i].draft)
    && p in events[i].writes && events[i].writes[p] == bytes
  }

  /** Event `j` is a prune that goes through while no capture past its sequence lists page `p`. */
  ghost predicate Removed(events: seq<Event>, j: int, p: Page) {
    && 0 <= j < |events| && events[j].Pruning? && Run(events[..j]).Open?
    && Walk(Run(events[..j]).store.present, Run(events[..j]).store.head, events[j].through).Ok?
    && forall k :: events[j].through <= k < |Run(events[..j]).history| ==> !Lists(Run(events[..j]).history[k].draft, p)
  }

  ghost predicate Touched(events: seq<Event>, j: int, p: Page) {
    Removed(events, j, p) || exists bytes :: Wrote(events, j, p, bytes)
  }

  /** `bytes` was written to `p`, and nothing wrote or removed the page since. */
  ghost predicate LastWrote(events: seq<Event>, p: Page, bytes: string) {
    exists i :: Wrote(events, i, p, bytes) && forall j :: i < j < |events| ==> !Touched(events, j, p)
  }

  lemma WrotePrefix(events: seq<Event>, i: int, p: Page, bytes: string)
    requires events != [] && 0 <= i < |events| - 1
    ensures Wrote(events, i, p, bytes) <==> Wrote(events[..|events| - 1], i, p, bytes)
    ensures Removed(events, i, p) <==> Removed(events[..|events| - 1], i, p)
  {
    assert events[..|events| - 1][..i] == events[..i];
  }

  lemma TouchedPrefix(events: seq<Event>, i: int, p: Page)
    requires events != [] && 0 <= i < |events| - 1
    ensures Touched(events, i, p) <==> Touched(events[..|events| - 1], i, p)
  {
    hide Wrote, Removed;
    var init := events[..|events| - 1];
    WrotePrefix(events, i, p, "");
    if bytes :| Wrote(events, i, p, bytes) { WrotePrefix(events, i, p, bytes); }
    if bytes :| Wrote(init, i, p, bytes) { WrotePrefix(events, i, p, bytes); }
  }

  lemma WroteInside(events: seq<Event>, i: int, p: Page, bytes: string)
    requires Wrote(events, i, p, bytes)
    ensures 0 <= i < |events|
  {
  }

  lemma LastWroteNext(events: seq<Event>, p: Page, bytes: string)
    requires events != []
    ensures LastWrote(events, p, bytes) <==>
            Wrote(events, |events| - 1, p, bytes) || (!Touched(events, |events| - 1, p) && LastWrote(events[..|events| - 1], p, bytes))
  {
    hide Wrote, Touched;
    var init, n := events[..|events| - 1], |events| - 1;
    if i :| Wrote(events, i, p, bytes) && forall j :: i < j < |events| ==> !Touched(events, j, p) {
      WroteInside(events, i, p, bytes);
      if i < n {
        WrotePrefix(events, i, p, bytes);
        forall j | i < j < |init| ensures !Touched(init, j, p) { TouchedPrefix(events, j, p); }
      }
    }
    if !Touched(events, n, p) && LastWrote(init, p, bytes) {
      var i :| Wrote(init, i, p, bytes) && forall j :: i < j < |init| ==> !Touched(init, j, p);
      WroteInside(init, i, p, bytes);
      WrotePrefix(events, i, p, bytes);
      forall j | i < j < |events| ensures !Touched(events, j, p) { if j < n { TouchedPrefix(events, j, p); } }
    }
  }

  /** What one event does to one application page. */
  lemma PageAfter(events: seq<Event>, p: Page, c: Content)
    requires events != [] && Run(events[..|events| - 1]).Open? && p != 0xFFFF_FFFF_FFFF_FFFF
    ensures var state, n := Run(events[..|events| - 1]), |events| - 1;
            var pages := PagesAfter(state, events[n]);
            (p in pages && pages[p] == c) <==>
              (exists bytes :: Wrote(events, n, p, bytes) && c == Application(bytes))
              || (!Touched(events, n, p) && p in state.store.head.pages && state.store.head.pages[p] == c)
  {
    var state, ev, n := Run(events[..|events| - 1]), events[|events| - 1], |events| - 1;
    var s, history := state.store, state.history;
    assert events[..n] == events[..|events| - 1];
    RunInv(events[..|events| - 1]);
    hide Run, Lists;
    match ev
    case Committing(writes, draft, created, _) =>
      RefusedUnlessAcceptable(s.head, writes, draft);
      hide Refusal, Acceptable;
      if Refusal(s.head, writes, draft).None? {
        CommitKeepsCapture(s.head, writes, draft);
        CommitFollows(s.head, writes, draft, created);
        assert PagesAfter(state, ev) == Resulting(s.head, writes, draft, created).pages;
        hide PagesAfter, Resulting;
        assert p in writes ==> Wrote(events, n, p, writes[p]);
      }
    case Pruning(through, _, _) =>
      WalkIsExact(s.present, s.head, history, through);
      if Walk(s.present, s.head, through).Ok? {
        PruneSpares(s.present, s.head, through);
        var pending := Walk(s.present, s.head, through).value;
        PendingLists(history, through, pending, p);
        hide Walk, Overlay, Removals;
      }
    case _ =>
  }

  lemma CommitKeepsCapture(head: Manifest, writes: map<Page, string>, draft: Draft)
    requires Refusal(head, writes, draft).None?
    ensures CAPTURE_PAGE !in writes
  {
  }

  lemma PendingLists(history: seq<Capture>, through: nat, pending: seq<Capture>, p: Page)
    requires pending == Between(history, through, |history|)
    ensures (exists i :: 0 <= i < |pending| && Lists(pending[i].draft, p)) <==>
            exists k :: through <= k < |history| && Lists(history[k].draft, p)
  {
    hide Lists;
    if i :| 0 <= i < |pending| && Lists(pending[i].draft, p) { assert pending[i] == history[through + i]; }
    if k :| through <= k < |history| && Lists(history[k].draft, p) { assert pending[k - through] == history[k]; }
  }

  /**
   Pages hold what was last written. After any run that ends open, commits that died after their record included,
   an application page of the head holds given content if and only if an accepted commit wrote those bytes and no
   later commit wrote the page and no later prune removed it.
   */
  lemma {:induction false} PagesAreLastWritten(events: seq<Event>, p: Page, c: Content)
    requires Run(events).Open? && p != 0xFFFF_FFFF_FFFF_FFFF
    ensures SamePages(Run(events).store)
    ensures var pages := Run(events).store.head.pages;
            (p in pages && pages[p] == c) <==> exists bytes :: LastWrote(events, p, bytes) && c == Application(bytes)
  {
    if events != [] {
      var init := events[..|events| - 1];
      PagesAreLastWritten(init, p, c);
      StepPages(Run(init), events[|events| - 1]);
      PageAfter(events, p, c);
      hide Run, PagesAfter, Wrote, Touched, LastWrote, Step, SamePages;
      forall bytes
        ensures LastWrote(events, p, bytes) <==>
                Wrote(events, |events| - 1, p, bytes) || (!Touched(events, |events| - 1, p) && LastWrote(init, p, bytes))
      {
        LastWroteNext(events, p, bytes);
      }
    }
  }

  lemma LoggedDiverges(s: Store, w: Writes, created: nat)
    requires s.head.parent.Some? && LoggedHead(s.base, s.wal) == Some(s.head)
    requires Derive(Collapse(s).head, w, created).Some?
    ensures var s' := Commit(Collapse(s), w, created); LoggedHead(s'.base, s'.wal).None?
  {
    var s' := Commit(Collapse(s), w, created);
    assert s'.wal[..|s'.wal| - 1] == s.wal;
  }

  /**
   Why the collapse must be checkpointed before the next commit: a commit on an uncheckpointed flat
   root logs an id that replay, starting from the history edge the collapse cut, cannot re-derive.
   The store then refuses to reopen.
   */
  lemma UncheckpointedCollapseDiverges(s: Store, writes: map<Page, string>, draft: Draft, created: nat)
    requires s.head.parent.Some? && LoggedHead(s.base, s.wal) == Some(s.head)
    requires Refusal(Collapse(s).head, writes, draft).None?
    ensures Recover(Commit(Collapse(s), WithCapture(writes, draft), created)).Err?
  {
    var w := WithCapture(writes, draft);
    CommitDerives(Collapse(s).head, writes, draft, created);
    LoggedDiverges(s, w, created);
    var s' := Commit(Collapse(s), w, created);
    hide Replay, LoggedHead, Commit, Collapse, Refusal, WithCapture;
    if Replay(s'.present + {ROOT}, s'.base, s'.wal).Ok? { ReplayReachesLogged(s'.present + {ROOT}, s'.base, s'.wal); }
  }
}
