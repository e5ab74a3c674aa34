/**
 The durable commit queue: one storage transaction holds the application pages and a reserved capture
 page, the manifest chain is the queue, and maintenance prunes, collapses, checkpoints and sweeps it.

 Manifest ids are content addresses. Here a manifest is its own id, so two manifests with one id are
 one manifest; `present` says which ids the store can still load.
 */
module Queue {
  import opened Wrappers

  type Page = nat

  const CAPTURE_PAGE: Page := 0xFFFF_FFFF_FFFF_FFFF
  const MAX_CAPTURE_BYTES: nat := 1024 * 1024
  const DERIVATION_TABLE := "mutiny_derivation"

  datatype Change = Change(row: string, weight: int, key: string, pages: set<Page>)

  /** Who wrote, on which branch, and from which sources. */
  datatype Envelope = Envelope(actor: string, branch: string, sources: set<string>)

  /** A logical write set before storage assigns its id. `encoded` is the size of its wire form. */
  datatype Draft = Draft(seq_: nat, branch: string, envelope: Envelope, tables: map<string, seq<Change>>, encoded: nat)

  datatype Content = Application(bytes: string) | Captured(draft: Draft)

  datatype Manifest = Manifest(parent: Option<Manifest>, pages: map<Page, Content>, created: nat)

  /** The handoff from storage to compute: the commit, what was written, and the pages it explains. */
  datatype Capture = Capture(commit: Manifest, draft: Draft, physical: set<Page>)

  datatype QueueError =
    | CapturePageReserved
    | InvalidDraft
    | SequenceGap(expected: nat, found: nat)
    | UncapturedParent
    | AuditMismatch
    | CaptureEncode
    | CaptureDecode
    | ConsumedBeyondSealed(floor: nat, sealed: nat)
    | MissingManifest
    | ReplayDiverged

  const ROOT := Manifest(None, map[], 0)

  function DraftOf(m: Manifest): Option<Draft> {
    if CAPTURE_PAGE in m.pages && m.pages[CAPTURE_PAGE].Captured? then Some(m.pages[CAPTURE_PAGE].draft) else None
  }

  function SeqOf(m: Manifest): nat {
    match DraftOf(m)
    case None => 0
    case Some(draft) => draft.seq_
  }

  function Explained(draft: Draft): set<Page> {
    set t, i, p | t in draft.tables && 0 <= i < |draft.tables[t]| && p in draft.tables[t][i].pages :: p
  }

  predicate NonEmpty(draft: Draft) {
    draft.tables != map[] && forall t | t in draft.tables :: draft.tables[t] != []
  }

  /** Structural admission of a draft: a sequence, one branch, a table, and no empty table or zero weight. */
  predicate DraftOk(draft: Draft) {
    && draft.seq_ != 0 && NonEmpty(draft)
    && draft.envelope.branch == draft.branch && DERIVATION_TABLE !in draft.tables
    && forall t | t in draft.tables :: forall i | 0 <= i < |draft.tables[t]| :: draft.tables[t][i].weight != 0
  }

  /** The capture stored inside a commit, read back. */
  function CaptureOf(m: Manifest, draft: Draft): Capture {
    Capture(m, draft, Explained(draft) + {CAPTURE_PAGE})
  }

  // ---- transactions --------------------------------------------------------------------------------

  type Writes = map<Page, Option<Content>>

  function Overlay(pages: map<Page, Content>, writes: Writes): map<Page, Content> {
    map p | p in pages.Keys + writes.Keys && (if p in writes then writes[p].Some? else true)
      :: if p in writes then writes[p].value else pages[p]
  }

  /** The next manifest, or nothing when the transaction changes no page. */
  function Derive(base: Manifest, writes: Writes, created: nat): Option<Manifest> {
    var pages := Overlay(base.pages, writes);
    if pages == base.pages then None else Some(Manifest(Some(base), pages, created))
  }

  datatype Record = Committed(writes: Writes, id: Manifest, created: nat) | Checkpointed(id: Manifest)

  /**
   A durable store: the manifests on disk, the volatile head, and what recovery starts from, the
   checkpoint marker and the log records after it.
   */
  datatype Store = Store(present: set<Manifest>, head: Manifest, base: Manifest, wal: seq<Record>)

  const FRESH := Store({ROOT}, ROOT, ROOT, [])

  /** The commit point is the log record; installing the manifest comes after it. */
  function Log(s: Store, writes: Writes, created: nat): Store {
    match Derive(s.head, writes, created)
    case None => s
    case Some(m) => s.(wal := s.wal + [Committed(writes, m, created)])
  }

  function Commit(s: Store, writes: Writes, created: nat): Store {
    match Derive(s.head, writes, created)
    case None => s
    case Some(m) => Log(s, writes, created).(present := s.present + {m}, head := m)
  }

  /** Replay: re-derive each logged commit from the head before it and refuse if the id differs. */
  function Replay(present: set<Manifest>, base: Manifest, wal: seq<Record>): Result<(set<Manifest>, Manifest), QueueError> {
    if wal == [] then (if base in present then Ok((present, base)) else Err(MissingManifest)) else
      var prior := Replay(present, base, wal[..|wal| - 1]);
      if prior.Err? then prior else
        var (have, head) := prior.value;
        match wal[|wal| - 1]
        case Committed(writes, id, created) =>
          (match Derive(head, writes, created)
           case None => Ok((have, head))
           case Some(m) => if m == id then Ok((have + {m}, m)) else Err(ReplayDiverged))
        case Checkpointed(id) => if id in have then Ok((have, id)) else Err(MissingManifest)
  }

  /** Reopening after a crash; the canonical empty root is always put back. */
  function Recover(s: Store): Result<Store, QueueError> {
    var r := Replay(s.present + {ROOT}, s.base, s.wal);
    if r.Err? then Err(r.error) else Ok(s.(present := r.value.0, head := r.value.1))
  }

  // ---- the front door --------------------------------------------------------------------------------

  function ParentSequence(parent: Manifest, found: nat): Option<QueueError> {
    match DraftOf(parent)
    case Some(prior) => if found == prior.seq_ + 1 then None else Some(SequenceGap(prior.seq_ + 1, found))
    case None =>
      if found != 1 then Some(SequenceGap(1, found))
      else if parent.pages == map[] then None
      else Some(UncapturedParent)
  }

  /** Every check before the first durable byte; `None` admits the draft. */
  function Refusal(head: Manifest, writes: map<Page, string>, draft: Draft): Option<QueueError> {
    if CAPTURE_PAGE in writes then Some(CapturePageReserved)
    else if !DraftOk(draft) then Some(InvalidDraft)
    else if ParentSequence(head, draft.seq_).Some? then ParentSequence(head, draft.seq_)
    else if writes.Keys != Explained(draft) then Some(AuditMismatch)
    else if draft.encoded > MAX_CAPTURE_BYTES then Some(CaptureEncode)
    else None
  }

  function WithCapture(writes: map<Page, string>, draft: Draft): Writes {
    (map p | p in writes :: Some(Application(writes[p])))[CAPTURE_PAGE := Some(Captured(draft))]
  }

  function Resulting(head: Manifest, writes: map<Page, string>, draft: Draft, created: nat): Manifest {
    Manifest(Some(head), Overlay(head.pages, WithCapture(writes, draft)), created)
  }

  /** A change of the draft lists page `p`. */
  ghost predicate Lists(draft: Draft, p: Page) {
    exists t, i :: t in draft.tables && 0 <= i < |draft.tables[t]| && p in draft.tables[t][i].pages
  }

  /** A draft on its own: numbered, of one branch, with changes in every table it names and none in the derivation relation. */
  ghost predicate WellFormed(draft: Draft) {
    && draft.seq_ != 0 && draft.tables != map[] && "mutiny_derivation" !in draft.tables && draft.envelope.branch == draft.branch
    && (forall t :: t in draft.tables ==> |draft.tables[t]| > 0 && forall i :: 0 <= i < |draft.tables[t]| ==> draft.tables[t][i].weight != 0)
  }

  /** The number the capture after `head` has to carry; a head without a capture has to be empty. */
  ghost predicate NextIs(head: Manifest, n: nat) {
    if 0xFFFF_FFFF_FFFF_FFFF in head.pages && head.pages[0xFFFF_FFFF_FFFF_FFFF].Captured?
    then n == head.pages[0xFFFF_FFFF_FFFF_FFFF].draft.seq_ + 1
    else n == 1
  }

  /** What a draft has to be to follow `head`, said without the order it is checked in. */
  ghost predicate Acceptable(head: Manifest, writes: map<Page, string>, draft: Draft) {
    && 0xFFFF_FFFF_FFFF_FFFF !in writes && (forall p :: p in writes <==> Lists(draft, p))
    && WellFormed(draft) && draft.encoded <= 1_048_576
    && NextIs(head, draft.seq_) && (draft.seq_ == 1 ==> Uncaptured(head) ==> head.pages == map[])
  }

  ghost predicate Uncaptured(head: Manifest) {
    0xFFFF_FFFF_FFFF_FFFF in head.pages ==> !head.pages[0xFFFF_FFFF_FFFF_FFFF].Captured?
  }

  /** What each refusal means, each with those before it passed. */
  ghost predicate RefusedFor(head: Manifest, writes: map<Page, string>, draft: Draft, e: QueueError) {
    match e
    case CapturePageReserved => 0xFFFF_FFFF_FFFF_FFFF in writes
    case InvalidDraft => 0xFFFF_FFFF_FFFF_FFFF !in writes && !WellFormed(draft)
    case SequenceGap(expected, found) => WellFormed(draft) && NextIs(head, expected) && found == draft.seq_ != expected
    case UncapturedParent => WellFormed(draft) && NextIs(head, draft.seq_) && Uncaptured(head) && head.pages != map[]
    case AuditMismatch => WellFormed(draft) && NextIs(head, draft.seq_) && exists p :: !(p in writes <==> Lists(draft, p))
    case CaptureEncode => WellFormed(draft) && NextIs(head, draft.seq_) && (forall p :: p in writes <==> Lists(draft, p)) && draft.encoded > 1_048_576
    case CaptureDecode | ConsumedBeyondSealed(_, _) | MissingManifest | ReplayDiverged => false
  }

  lemma DraftOkIsWellFormed(draft: Draft)
    ensures DraftOk(draft) <==> WellFormed(draft)
    ensures forall p :: p in Explained(draft) <==> Lists(draft, p)
  {
  }

  lemma RefusedUnlessAcceptable(head: Manifest, writes: map<Page, string>, draft: Draft)
    ensures match Refusal(head, writes, draft)
            case None => Acceptable(head, writes, draft)
            case Some(e) => !Acceptable(head, writes, draft) && RefusedFor(head, writes, draft, e)
  {
    DraftOkIsWellFormed(draft);
    hide Explained, Lists, DraftOk, WellFormed;
    assert writes.Keys != Explained(draft) ==> exists p :: !(p in writes <==> p in Explained(draft));
  }

  /** A commit's manifest: on top of `head`, each page as written, the capture page with the draft, the rest as it was. */
  ghost predicate Follows(head: Manifest, writes: map<Page, string>, draft: Draft, created: nat, m: Manifest) {
    && m.parent == Some(head) && m.created == created
    && 0xFFFF_FFFF_FFFF_FFFF in m.pages && m.pages[0xFFFF_FFFF_FFFF_FFFF] == Captured(draft)
    && (forall p :: p in writes ==> p in m.pages && m.pages[p] == Application(writes[p]))
    && (forall p :: p !in writes && p != 0xFFFF_FFFF_FFFF_FFFF ==>
          (p in m.pages <==> p in head.pages) && (p in m.pages ==> m.pages[p] == head.pages[p]))
  }

  lemma CommitFollows(head: Manifest, writes: map<Page, string>, draft: Draft, created: nat)
    requires CAPTURE_PAGE !in writes
    ensures Follows(head, writes, draft, created, Resulting(head, writes, draft, created))
  {
  }

  // ---- the walk ------------------------------------------------------------------------------------

  /** The captures newer than `sealed`, oldest first, following parents from `m`. */
  function Collect(present: set<Manifest>, m: Manifest, sealed: nat): Result<seq<Capture>, QueueError>
    decreases m
  {
    if m !in present then Err(MissingManifest) else
      match m.parent
      case None =>
        (match DraftOf(m)
         case None => Ok([])
         case Some(draft) => if draft.seq_ > sealed then Err(ConsumedBeyondSealed(draft.seq_, sealed)) else Ok([]))
      case Some(parent) =>
        (match DraftOf(m)
         case None => Err(CaptureDecode)
         case Some(draft) =>
           if draft.seq_ <= sealed then Ok([]) else
             var older := Collect(present, parent, sealed);
             if older.Err? then older else Ok(older.value + [CaptureOf(m, draft)]))
  }

  /** The first capture out of sequence, if any. */
  function FirstGap(captures: seq<Capture>, sealed: nat, i: nat): (gap: Option<QueueError>)
    requires i <= |captures|
    ensures gap.None? <==> forall j :: i <= j < |captures| ==> captures[j].draft.seq_ == sealed + 1 + j
    decreases |captures| - i
  {
    if i == |captures| then None
    else if captures[i].draft.seq_ != sealed + 1 + i then Some(SequenceGap(sealed + 1 + i, captures[i].draft.seq_))
    else FirstGap(captures, sealed, i + 1)
  }

  function Walk(present: set<Manifest>, head: Manifest, sealed: nat): Result<seq<Capture>, QueueError> {
    var c := Collect(present, head, sealed);
    if c.Err? then c else
      match FirstGap(c.value, sealed, 0)
      case None => c
      case Some(gap) => Err(gap)
  }

  /** The sequence a collapsed chain's flat root carries. */
  function Floor(m: Manifest): Option<nat>
    decreases m
  {
    match m.parent
    case Some(parent) => Floor(parent)
    case None => (match DraftOf(m) case None => None case Some(draft) => Some(draft.seq_))
  }

  /** The manifests a live head keeps: itself and its ancestors. */
  function Reach(m: Manifest): set<Manifest>
    decreases m
  {
    match m.parent
    case None => {m}
    case Some(parent) => {m} + Reach(parent)
  }

  // ---- maintenance -----------------------------------------------------------------------------------

  /** The pages a prune removes: all but the capture page and the pages of the captures still pending. */
  function Doomed(head: Manifest, pending: seq<Capture>): set<Page> {
    set p | p in head.pages && p != CAPTURE_PAGE && !exists i :: 0 <= i < |pending| && p in pending[i].physical
  }

  /** What a prune leaves: the capture page and the pages the pending drafts list, each as it was. */
  ghost predicate Spares(pages: map<Page, Content>, pending: seq<Capture>, left: map<Page, Content>) {
    && (forall p :: p in left <==> p in pages && (p == 0xFFFF_FFFF_FFFF_FFFF || exists i :: 0 <= i < |pending| && Lists(pending[i].draft, p)))
    && (forall p :: p in left ==> left[p] == pages[p])
  }

  lemma RemovalsSpare(head: Manifest, pending: seq<Capture>)
    requires forall i :: 0 <= i < |pending| ==> pending[i].physical == Explained(pending[i].draft) + {CAPTURE_PAGE}
    ensures Spares(head.pages, pending, Overlay(head.pages, Removals(head, pending)))
  {
    var left := Overlay(head.pages, Removals(head, pending));
    forall p ensures p in left <==> p in head.pages && (p == CAPTURE_PAGE || exists i :: 0 <= i < |pending| && Lists(pending[i].draft, p)) {
      DoomedUnlessListed(head, pending, p);
    }
    hide Lists, Doomed;
  }

  lemma DoomedUnlessListed(head: Manifest, pending: seq<Capture>, p: Page)
    requires forall i :: 0 <= i < |pending| ==> pending[i].physical == Explained(pending[i].draft) + {CAPTURE_PAGE}
    ensures p in Doomed(head, pending) <==>
            p in head.pages && p != CAPTURE_PAGE && forall i :: 0 <= i < |pending| ==> !Lists(pending[i].draft, p)
  {
    forall i | 0 <= i < |pending| && p != CAPTURE_PAGE ensures p in pending[i].physical <==> Lists(pending[i].draft, p) {
      DraftOkIsWellFormed(pending[i].draft);
    }
    hide Lists, Explained;
  }

  lemma {:induction false} CollectedPhysical(present: set<Manifest>, m: Manifest, sealed: nat)
    requires Collect(present, m, sealed).Ok?
    ensures forall c :: c in Collect(present, m, sealed).value ==> c.physical == Explained(c.draft) + {CAPTURE_PAGE}
    decreases m
  {
    if m.parent.Some? && DraftOf(m).Some? && SeqOf(m) > sealed { CollectedPhysical(present, m.parent.value, sealed); }
    hide Explained;
  }

  lemma PruneSpares(present: set<Manifest>, head: Manifest, sealed: nat)
    requires Walk(present, head, sealed).Ok?
    ensures var pending := Walk(present, head, sealed).value; Spares(head.pages, pending, Overlay(head.pages, Removals(head, pending)))
  {
    CollectedPhysical(present, head, sealed);
    RemovalsSpare(head, Walk(present, head, sealed).value);
  }

  function Removals(head: Manifest, pending: seq<Capture>): Writes {
    map p | p in Doomed(head, pending) :: None
  }

  /** Install a flat root with the head's pages. Only the volatile head moves. */
  function Collapse(s: Store): Store {
    if s.head.parent.None? then s else
      var root := Manifest(None, s.head.pages, s.head.created);
      s.(present := s.present + {root}, head := root)
  }

  /** The checkpoint record, and then the marker that lets recovery start from it. */
  function MarkCheckpoint(s: Store): Store { s.(wal := s.wal + [Checkpointed(s.head)]) }

  function FinishCheckpoint(s: Store): Store { s.(base := s.head, wal := []) }

  lemma {:induction false} ReplayKeeps(present: set<Manifest>, base: Manifest, wal: seq<Record>)
    requires Replay(present, base, wal).Ok?
    ensures present <= Replay(present, base, wal).value.0
  {
    if wal != [] { ReplayKeeps(present, base, wal[..|wal| - 1]); }
  }

  /**
   A checkpoint makes the head durable whatever the log said of it: recovery lands on it from the finished
   checkpoint, and from the record alone exactly if the log before the record still replays.
   */
  lemma CheckpointRecovers(s: Store)
    requires s.head in s.present
    ensures Recover(MarkCheckpoint(s)).Ok? <==> Recover(s).Ok?
    ensures Recover(MarkCheckpoint(s)).Ok? ==> Recover(MarkCheckpoint(s)).value.head == s.head
    ensures Recover(FinishCheckpoint(MarkCheckpoint(s))).Ok? && Recover(FinishCheckpoint(MarkCheckpoint(s))).value.head == s.head
  {
    assert MarkCheckpoint(s).wal[..|s.wal|] == s.wal;
    if Replay(s.present + {ROOT}, s.base, s.wal).Ok? { ReplayKeeps(s.present + {ROOT}, s.base, s.wal); }
  }

  /** A sweep, possibly interrupted: everything reachable from the head stays, of the rest any part. */
  function Sweep(s: Store, kept: set<Manifest>): Store {
    s.(present := Reach(s.head) * s.present + kept * s.present)
  }

  // ---- the chain and its history -----------------------------------------------------------------------

  /** History numbers itself: capture `i` (from 0) carries sequence `i + 1`. */
  ghost predicate Numbered(history: seq<Capture>) {
    forall i :: 0 <= i < |history| ==> history[i].draft.seq_ == i + 1
  }

  /** `m` is the commit of capture `SeqOf(m)`, exactly as its writer was handed it. */
  ghost predicate IsCommit(m: Manifest, history: seq<Capture>) {
    && m.parent.Some? && DraftOf(m).Some?
    && SeqOf(m) == SeqOf(m.parent.value) + 1 <= |history|
    && history[SeqOf(m) - 1] == CaptureOf(m, DraftOf(m).value)
  }

  /** `m` is a prune: it inherits its parent's capture page. */
  ghost predicate IsPrune(m: Manifest) {
    m.parent.Some? && DraftOf(m).Some? && DraftOf(m) == DraftOf(m.parent.value)
  }

  ghost predicate Chain(m: Manifest, history: seq<Capture>)
    decreases m
  {
    && (DraftOf(m).Some? ==> 1 <= SeqOf(m) <= |history| && history[SeqOf(m) - 1].draft == DraftOf(m).value)
    && match m.parent
       case None => m.pages == map[] || DraftOf(m).Some?
       case Some(parent) => Chain(parent, history) && (IsCommit(m, history) || IsPrune(m))
  }

  /** The newest sequence a prune or a collapse on this chain consumed. */
  ghost function Consumed(m: Manifest): nat
    decreases m
  {
    match m.parent
    case None => SeqOf(m)
    case Some(parent) => if SeqOf(m) == SeqOf(parent) then SeqOf(m) else Consumed(parent)
  }

  ghost function Between(history: seq<Capture>, lo: nat, hi: nat): seq<Capture>
    requires hi <= |history|
  {
    if lo >= hi then [] else history[lo..hi]
  }

  lemma {:induction false} ConsumedBound(m: Manifest, history: seq<Capture>)
    requires Chain(m, history)
    ensures Consumed(m) <= SeqOf(m) <= |history|
    decreases m
  {
    if m.parent.Some? { ConsumedBound(m.parent.value, history); }
  }

  lemma {:induction false} ChainExtends(m: Manifest, history: seq<Capture>, c: Capture)
    requires Chain(m, history)
    ensures Chain(m, history + [c])
    decreases m
  {
    if m.parent.Some? { ChainExtends(m.parent.value, history, c); }
  }

  /** Past the consumed prefix the walk collects exactly the committed captures. */
  lemma {:induction false} CollectExact(present: set<Manifest>, m: Manifest, history: seq<Capture>, sealed: nat)
    requires Chain(m, history) && Reach(m) <= present && Consumed(m) <= sealed
    ensures SeqOf(m) <= |history| && Collect(present, m, sealed) == Ok(Between(history, sealed, SeqOf(m)))
    decreases m
  {
    hide CaptureOf;
    ConsumedBound(m, history);
    if m.parent.Some? && SeqOf(m) > sealed {
      var parent := m.parent.value;
      assert IsCommit(m, history) && Consumed(parent) <= sealed;
      CollectExact(present, parent, history, sealed);
      assert Between(history, sealed, SeqOf(m)) == Between(history, sealed, SeqOf(parent)) + [history[SeqOf(m) - 1]];
    }
  }

  ghost predicate Repeats(captures: seq<Capture>) {
    exists i :: 0 <= i < |captures| - 1 && captures[i].draft.seq_ == captures[i + 1].draft.seq_
  }

  /** Inside the consumed prefix the walk meets a prune twice, or a root that is too new. */
  lemma {:induction false} CollectConsumed(present: set<Manifest>, m: Manifest, history: seq<Capture>, sealed: nat)
    requires Chain(m, history) && sealed < Consumed(m)
    ensures var c := Collect(present, m, sealed); c.Err? || Repeats(c.value)
    decreases m
  {
    ConsumedBound(m, history);
    var c := Collect(present, m, sealed);
    if m.parent.Some? && c.Ok? {
      var parent := m.parent.value;
      var older := Collect(present, parent, sealed).value;
      assert c.value == older + [CaptureOf(m, DraftOf(m).value)];
      if SeqOf(m) == SeqOf(parent) {
        assert older[|older| - 1] == CaptureOf(parent, DraftOf(parent).value);
        assert c.value[|older| - 1].draft.seq_ == c.value[|older|].draft.seq_;
      } else {
        CollectConsumed(present, parent, history, sealed);
        var i :| 0 <= i < |older| - 1 && older[i].draft.seq_ == older[i + 1].draft.seq_;
        assert c.value[i].draft.seq_ == c.value[i + 1].draft.seq_;
      }
    }
  }

  lemma {:induction false} CollectIsHistory(present: set<Manifest>, m: Manifest, history: seq<Capture>, sealed: nat)
    requires Chain(m, history) && Consumed(m) <= sealed && Collect(present, m, sealed).Ok?
    ensures SeqOf(m) <= |history| && Collect(present, m, sealed).value == Between(history, sealed, SeqOf(m))
    decreases m
  {
    ConsumedBound(m, history);
    if m.parent.Some? && SeqOf(m) > sealed {
      var parent := m.parent.value;
      CollectIsHistory(present, parent, history, sealed);
      assert Between(history, sealed, SeqOf(m)) == Between(history, sealed, SeqOf(parent)) + [history[SeqOf(m) - 1]];
    }
  }

  /**
   A walk is exact or it refuses: it never returns anything but the captures after `sealed`, in order
   and as committed; and where the whole chain is present it answers exactly from the consumed
   sequence on.
   */
  lemma WalkIsExact(present: set<Manifest>, m: Manifest, history: seq<Capture>, sealed: nat)
    requires Chain(m, history) && Numbered(history)
    ensures SeqOf(m) <= |history|
    ensures Walk(present, m, sealed).Ok? ==> Walk(present, m, sealed).value == Between(history, sealed, SeqOf(m))
    ensures Reach(m) <= present ==> (Walk(present, m, sealed).Ok? <==> Consumed(m) <= sealed)
  {
    ConsumedBound(m, history);
    hide Chain, Consumed, Reach, Collect;
    if sealed < Consumed(m) {
      CollectConsumed(present, m, history, sealed);
    } else {
      if Reach(m) <= present { CollectExact(present, m, history, sealed); }
      if Collect(present, m, sealed).Ok? { CollectIsHistory(present, m, history, sealed); }
    }
  }
}
