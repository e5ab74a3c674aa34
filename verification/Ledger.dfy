/**
 The taint ledger's two tiers. Journal batches add rows to the hot relation; an archival pass writes a
 content-addressed segment, names it in the manifest, and only then retracts the moved rows. Any step
 may be the last before a crash. A segment's name is its content, so a name stands for its BLAKE3.
 */
module Ledger {
  import opened Wrappers
  import opened Engines
  import opened Resolution
  import opened Taint

  type Entry = (Source, Contaminated)

  /** A segment's rows; content addressing makes them its name too. */
  type Segment = set<Entry>

  datatype ArchiveError = MissingSegment(name: Segment) | NotItsOwnName(name: Segment)

  ghost predicate Intact(files: map<Segment, Segment>, name: Segment) {
    name in files && files[name] == name
  }

  /** Every row of every named segment. */
  ghost function Named(manifest: seq<Segment>): set<Entry> {
    set n, m | n in manifest && m in n :: m
  }

  /** The cold tier's directory: segment files by name, and the append-only manifest. */
  class LedgerArchive {
    var files: map<Segment, Segment>
    var manifest: seq<Segment>

    constructor ()
      ensures files == map[] && manifest == []
    {
      files, manifest := map[], [];
    }

    /** Publish a segment, then name it. The manifest line lands strictly after the segment. */
    method Append(rows: Segment) returns (name: Option<Segment>)
      modifies this
      ensures rows == {} ==> name.None? && files == old(files) && manifest == old(manifest)
      ensures rows != {} ==> name == Some(rows) && manifest == old(manifest) + [rows]
      ensures rows != {} ==> files == if rows in old(files) then old(files) else old(files)[rows := rows]
    {
      if rows == {} { return None; }
      if rows !in files { files := files[rows := rows]; }
      manifest := manifest + [rows];
      name := Some(rows);
    }

    /**
     Every archived row, checked against the manifest. Whatever has happened to the files, the answer
     is the union the manifest promised or a refusal: never a smaller union.
     */
    method AllRows() returns (r: Result<set<Entry>, ArchiveError>)
      ensures r.Ok? <==> forall n :: n in manifest ==> Intact(files, n)
      ensures r.Ok? ==> r.value == Named(manifest)
    {
      var rows: set<Entry> := {};
      for i := 0 to |manifest|
        invariant forall n :: n in manifest[..i] ==> Intact(files, n)
        invariant rows == Named(manifest[..i])
      {
        var name := manifest[i];
        assert name in manifest;
        if name !in files { return Err(MissingSegment(name)); }
        if files[name] != name { return Err(NotItsOwnName(name)); }
        rows := rows + files[name];
        assert manifest[..i + 1] == manifest[..i] + [name];
      }
      assert manifest[..|manifest|] == manifest;
      r := Ok(rows);
    }

    method RowsFor(src: Source) returns (r: Result<set<Contaminated>, ArchiveError>)
      ensures r.Ok? <==> forall n :: n in manifest ==> Intact(files, n)
      ensures r.Ok? ==> forall c :: c in r.value <==> (src, c) in Named(manifest)
    {
      var all := AllRows();
      match all
      case Err(e) => r := Err(e);
      case Ok(rows) => r := Ok(set m | m in rows && m.0 == src :: m.1);
    }
  }

  // ---- both tiers ----------------------------------------------------------------------------------

  datatype Tiers = Tiers(engine: Compute, files: map<Segment, Segment>, manifest: seq<Segment>)

  function Hot(e: Compute): set<Entry> {
    set r | r in Rows(e.sealed) && r.Ledger? && Net(e.sealed, r) > 0 :: (r.source, r.row)
  }

  function Row(m: Entry): Row { Ledger(m.0, m.1) }

  /** The ledger's memory: hot and archive together. */
  ghost function Union(t: Tiers): set<Entry> { Hot(t.engine) + Named(t.manifest) }

  lemma HotEntry(e: Compute, m: Entry)
    ensures m in Hot(e) <==> Net(e.sealed, Row(m)) > 0
  {
    NetSupport(e.sealed, Row(m));
  }

  function Moves(rows: Segment): map<Row, int> { map m | m in rows :: Row(m) := -1 }

  /** An archival pass stopped after `stage` durable steps: segment, manifest, retraction, seal. */
  ghost function Pass(t: Tiers, stage: nat): Tiers {
    var hot := Hot(t.engine);
    if hot == {} || stage == 0 then t else
      var files := if hot in t.files then t.files else t.files[hot := hot];
      var written := t.(files := files);
      if stage == 1 then written else
        var named := written.(manifest := t.manifest + [hot]);
        if stage == 2 then named else
          var ingested := match Ingest(t.engine, Batch(Archival(hot), Moves(hot)))
                          case Ok(done) => done.0
                          case Err(_) => t.engine;
          named.(engine := if stage == 3 then ingested else SealIfPending(ingested))
  }

  /** Everything that touches the ledger's engine: journals, passes, other batches, and seals. */
  datatype Event =
    | Journals(source: Source, rows: set<Contaminated>)
    | Archives(stage: nat)
    | Ingests(other: Delta)
    | Seals

  /** Captures and retractions never carry a ledger row. */
  ghost predicate NotLedger(b: Delta) {
    (b.token.Captured? || b.token.Retraction?) && forall r :: r in b.entries ==> !r.Ledger?
  }

  ghost predicate Allowed(ev: Event) { ev.Ingests? ==> NotLedger(ev.other) }

  ghost function Apply(t: Tiers, ev: Event): Tiers {
    match ev
    case Journals(src, rows) => t.(engine := JournalAppend(t.engine, src, rows))
    case Archives(stage) => Pass(t, stage)
    case Ingests(b) => t.(engine := match Ingest(t.engine, b) case Ok(done) => done.0 case Err(_) => t.engine)
    case Seals => t.(engine := SealIfPending(t.engine))
  }

  // ---- the invariant -------------------------------------------------------------------------------

  ghost predicate Fits(b: Delta) {
    && (b.token.Journal? ==> b.entries == JournalEntries(b.token.source, b.token.rows))
    && (b.token.Archival? ==> b.entries == Moves(b.token.moved))
    && (!b.token.Journal? && !b.token.Archival? ==> NotLedger(b))
  }

  ghost predicate Inv(t: Tiers) {
    && Valid(t.engine)
    && (forall b :: b in t.engine.All() ==> Fits(b))
    // A hot row is retracted only once a manifest-named segment holds it.
    && (forall b :: b in t.engine.All() && b.token.Archival? ==> b.token.moved in t.manifest)
    // A retraction waiting for its seal was taken from the rows that are hot now.
    && (forall b :: b in t.engine.pending && b.token.Archival? ==> b.token.moved == Hot(t.engine))
    && (forall m :: Net(t.engine.sealed, Row(m)) >= 0)
    && (forall n :: n in t.manifest ==> Intact(t.files, n))
    && (forall n :: n in t.files ==> t.files[n] == n)
    // Every sealed journal is remembered in one tier or the other.
    && (forall b :: b in t.engine.sealed && b.token.Journal? ==> forall c :: c in b.token.rows ==> (b.token.source, c) in Union(t))
  }

  lemma JournalWeight(b: Delta, m: Entry)
    requires Fits(b) && !b.token.Archival?
    ensures Weight(b, Row(m)) >= 0
    ensures b.token.Journal? && b.token.source == m.0 && m.1 in b.token.rows ==> Weight(b, Row(m)) == 1
  {
  }

  /** Batches waiting for one seal: distinct tokens, and retractions of `hot` only. */
  ghost predicate Waiting(bs: seq<Delta>, hot: Segment) {
    && (forall b :: b in bs ==> Fits(b) && (b.token.Archival? ==> b.token.moved == hot))
    && (forall i, j :: 0 <= i < j < |bs| ==> bs[i].token != bs[j].token)
  }

  ghost predicate TokenIn(bs: seq<Delta>, token: Token) {
    exists b :: b in bs && b.token == token
  }

  ghost predicate Journaled(bs: seq<Delta>, m: Entry) {
    exists b :: b in bs && b.token.Journal? && b.token.source == m.0 && m.1 in b.token.rows
  }

  /** They take at most one from a hot row and nothing from any other. */
  lemma {:induction false} WaitingBounds(bs: seq<Delta>, hot: Segment, m: Entry)
    requires Waiting(bs, hot)
    ensures Net(bs, Row(m)) >= if m in hot && TokenIn(bs, Archival(hot)) then -1 else 0
    ensures m !in hot && Journaled(bs, m) ==> Net(bs, Row(m)) > 0
  {
    if bs != [] {
      var init, last := bs[..|bs| - 1], bs[|bs| - 1];
      assert bs == init + [last];
      WaitingBounds(init, hot, m);
      if last.token.Archival? {
        assert forall i :: 0 <= i < |init| ==> init[i].token != last.token;
        assert !TokenIn(init, Archival(hot)) && TokenIn(bs, Archival(hot));
      } else {
        JournalWeight(last, m);
        assert TokenIn(init, Archival(hot)) <==> TokenIn(bs, Archival(hot));
      }
    }
  }

  lemma PendingWaits(t: Tiers)
    requires Inv(t)
    ensures Waiting(t.engine.pending, Hot(t.engine))
    ensures TokenIn(t.engine.pending, Archival(Hot(t.engine))) ==> Hot(t.engine) in t.manifest
  {
    var e := t.engine;
    hide Hot;
    assert forall b :: b in e.pending ==> b in e.All();
    assert forall i :: 0 <= i < |e.pending| ==> e.All()[|e.sealed| + i] == e.pending[i];
  }

  /** Sealing loses no remembered row, keeps every weight non-negative, and covers what it seals. */
  lemma SealKeepsInv(t: Tiers)
    requires Inv(t)
    ensures Inv(Apply(t, Seals)) && Union(t) <= Union(Apply(t, Seals))
  {
    var e, e' := t.engine, SealIfPending(t.engine);
    var t' := Apply(t, Seals);
    var hot := Hot(e);
    PendingWaits(t);
    assert e'.sealed == e.sealed + e.pending;
    forall m
      ensures Net(e'.sealed, Row(m)) >= 0
      ensures m in Union(t) ==> m in Union(t')
      ensures Journaled(e.pending, m) ==> m in Union(t')
    {
      NetConcat(e.sealed, e.pending, Row(m));
      WaitingBounds(e.pending, hot, m);
      HotEntry(e, m);
      HotEntry(e', m);
      if m in hot && Net(e'.sealed, Row(m)) == 0 {
        assert hot in t.manifest;
      }
    }
    forall b, c | b in e'.sealed && b.token.Journal? && c in b.token.rows ensures (b.token.source, c) in Union(t') {
      if b in e.pending { assert Journaled(e.pending, (b.token.source, c)); }
    }
    assert e'.All() == e.All();
  }

  /** What an append leaves: the batch pending if its token is new, and otherwise nothing changed. */
  ghost function Offered(e: Compute, b: Delta): Compute {
    match Ingest(e, b)
    case Ok(done) => done.0
    case Err(_) => e
  }

  lemma OfferedIs(e: Compute, b: Delta)
    requires Valid(e)
    ensures Offered(e, b) == if Knows(e, b.token) then e else e.(pending := e.pending + [b])
    ensures Valid(Offered(e, b))
  {
    var found := Find(e.All(), b.token);
    if found.Some? {
      var i :| 0 <= i < |e.All()| && e.All()[i] == found.value;
    }
    if Ingest(e, b).Ok? { IngestKeepsValid(e, b); }
  }

  lemma OfferKeepsInv(t: Tiers, b: Delta)
    requires Inv(t) && Fits(b)
    requires b.token.Archival? ==> b.token.moved == Hot(t.engine) && b.token.moved in t.manifest
    ensures Inv(t.(engine := Offered(t.engine, b))) && Union(t.(engine := Offered(t.engine, b))) == Union(t)
  {
    OfferedIs(t.engine, b);
    var e' := Offered(t.engine, b);
    if e' != t.engine {
      assert e'.All() == t.engine.All() + [b];
      assert e'.sealed == t.engine.sealed;
      assert Hot(e') == Hot(t.engine);
    }
  }

  lemma NameKeepsInv(t: Tiers, hot: Segment, named: bool)
    requires Inv(t)
    ensures var files := if hot in t.files then t.files else t.files[hot := hot];
            var t' := t.(files := files, manifest := if named then t.manifest + [hot] else t.manifest);
            Inv(t') && Union(t) <= Union(t') && (named ==> hot in t'.manifest)
  {
    var files := if hot in t.files then t.files else t.files[hot := hot];
    var manifest := if named then t.manifest + [hot] else t.manifest;
    assert forall n :: n in t.manifest ==> n in manifest;
    assert Named(t.manifest) <= Named(manifest);
  }

  lemma PassKeepsInv(t: Tiers, stage: nat)
    requires Inv(t)
    ensures Inv(Pass(t, stage)) && Union(t) <= Union(Pass(t, stage))
  {
    hide Inv, Union, Hot;
    var hot := Hot(t.engine);
    if hot != {} && stage > 0 {
      NameKeepsInv(t, hot, false);
      NameKeepsInv(t, hot, true);
      var files := if hot in t.files then t.files else t.files[hot := hot];
      var named := t.(files := files, manifest := t.manifest + [hot]);
      var b := Batch(Archival(hot), Moves(hot));
      OfferKeepsInv(named, b);
      var ingested := named.(engine := Offered(named.engine, b));
      SealKeepsInv(ingested);
      hide Moves, Ingest;
      if stage == 1 { assert Pass(t, stage) == t.(files := files, manifest := t.manifest); }
      else if stage == 2 { assert Pass(t, stage) == named; }
      else if stage == 3 { assert Pass(t, stage) == ingested; }
      else { assert Pass(t, stage) == Apply(ingested, Seals); }
    }
  }

  /** Every event keeps the invariant and forgets no row of either tier. */
  lemma EventKeepsInv(t: Tiers, ev: Event)
    requires Inv(t) && Allowed(ev)
    ensures Inv(Apply(t, ev)) && Union(t) <= Union(Apply(t, ev))
  {
    match ev
    case Journals(src, rows) =>
      if rows != {} {
        OfferKeepsInv(t, Batch(Journal(src, rows), JournalEntries(src, rows)));
        assert Apply(t, ev) == t.(engine := Offered(t.engine, Batch(Journal(src, rows), JournalEntries(src, rows))));
      }
    case Archives(stage) => PassKeepsInv(t, stage);
    case Ingests(b) =>
      OfferKeepsInv(t, b);
      assert Apply(t, ev) == t.(engine := Offered(t.engine, b));
    case Seals => SealKeepsInv(t);
  }

  ghost function Run(t: Tiers, events: seq<Event>): Tiers {
    if events == [] then t else Apply(Run(t, events[..|events| - 1]), events[|events| - 1])
  }

  const FRESH := Tiers(Engine([], [], 0), map[], [])

  lemma FreshInv()
    ensures Inv(FRESH)
  {
  }

  /** From any sound state, no event loses a remembered row. */
  lemma {:induction false} RunNeverShrinks(t: Tiers, events: seq<Event>)
    requires Inv(t) && forall ev :: ev in events ==> Allowed(ev)
    ensures Inv(Run(t, events)) && Union(t) <= Union(Run(t, events))
    ensures forall m :: Net(Run(t, events).engine.sealed, Row(m)) >= 0
    ensures Hot(t.engine) - Hot(Run(t, events).engine) <= Named(Run(t, events).manifest)
    ensures forall n :: n in Run(t, events).manifest ==> Intact(Run(t, events).files, n)
  {
    if events != [] {
      hide Inv, Union, Hot, Apply;
      var init, last := events[..|events| - 1], events[|events| - 1];
      assert last in events;
      RunNeverShrinks(t, init);
      EventKeepsInv(Run(t, init), last);
      InvSays(Run(t, events));
      assert Union(t) <= Union(Run(t, events));
      UnionIs(t);
      UnionIs(Run(t, events));
    } else {
      InvSays(t);
    }
  }

  lemma {:induction false} RunConcat(t: Tiers, before: seq<Event>, after: seq<Event>)
    ensures Run(t, before + after) == Run(Run(t, before), after)
  {
    if after == [] {
      assert before + after == before;
    } else {
      assert (before + after)[..|before + after| - 1] == before + after[..|after| - 1];
      RunConcat(t, before, after[..|after| - 1]);
    }
  }

  /**
   The ledger union never shrinks. Between any two points of any interleaving of journals, archival passes
   stopped at any step, other ingests and seals on a fresh ledger: no remembered row is lost, a row leaves
   the hot tier only into a named segment, hot weights are never negative, and the archive reads back whole.
   */
  lemma LedgerNeverShrinks(before: seq<Event>, after: seq<Event>)
    requires forall ev :: ev in before + after ==> Allowed(ev)
    ensures var t, t' := Run(FRESH, before), Run(FRESH, before + after);
            && Union(t) <= Union(t') && Hot(t.engine) - Hot(t'.engine) <= Named(t'.manifest)
            && (forall m :: Net(t'.engine.sealed, Row(m)) >= 0)
            && (forall n :: n in t'.manifest ==> Intact(t'.files, n))
  {
    assert forall ev :: ev in before || ev in after ==> ev in before + after;
    FreshInv();
    hide Inv, Union, Hot, Run;
    RunNeverShrinks(FRESH, before);
    RunConcat(FRESH, before, after);
    RunNeverShrinks(Run(FRESH, before), after);
  }

  lemma UnionIs(t: Tiers)
    ensures Union(t) == Hot(t.engine) + Named(t.manifest)
  {
  }

  lemma InvSays(t: Tiers)
    requires Inv(t)
    ensures forall m :: Net(t.engine.sealed, Row(m)) >= 0
    ensures forall n :: n in t.manifest ==> Intact(t.files, n)
  {
  }

  // ---- what is remembered, from the events alone ---------------------------------------------------------------

  ghost predicate Lists(ev: Event, m: Entry) { ev.Journals? && ev.source == m.0 && m.1 in ev.rows }

  /** Without a journal that lists it a row weighs nothing. */
  lemma {:induction false} WeighsOnlyJournaled(bs: seq<Delta>, m: Entry)
    requires forall b :: b in bs ==> Fits(b)
    ensures Net(bs, Row(m)) > 0 ==> Journaled(bs, m)
  {
    if bs != [] {
      var init, last := bs[..|bs| - 1], bs[|bs| - 1];
      assert bs == init + [last] && last in bs;
      WeighsOnlyJournaled(init, m);
      if Weight(last, Row(m)) > 0 {
        assert Journaled(bs, m);
      } else if Journaled(init, m) {
        var b :| b in init && b.token.Journal? && b.token.source == m.0 && m.1 in b.token.rows;
        assert b in bs;
      }
    }
  }

  /** The manifest names only what a sealed journal listed. */
  ghost predicate Sourced(t: Tiers) { forall m :: m in Named(t.manifest) ==> Journaled(t.engine.sealed, m) }

  lemma UnionIsJournaled(t: Tiers, m: Entry)
    requires Inv(t) && Sourced(t)
    ensures m in Union(t) <==> Journaled(t.engine.sealed, m)
  {
    HotEntry(t.engine, m);
    assert forall b :: b in t.engine.sealed ==> b in t.engine.All();
    WeighsOnlyJournaled(t.engine.sealed, m);
    if Journaled(t.engine.sealed, m) {
      var b :| b in t.engine.sealed && b.token.Journal? && b.token.source == m.0 && m.1 in b.token.rows;
      assert (b.token.source, m.1) == m;
    }
    hide Hot, Named;
  }

  lemma JournaledMore(bs: seq<Delta>, more: seq<Delta>, m: Entry)
    requires Journaled(bs, m)
    ensures Journaled(bs + more, m)
  {
    var b :| b in bs && b.token.Journal? && b.token.source == m.0 && m.1 in b.token.rows;
    assert b in bs + more;
  }

  /** What one event does to the sealed batches and the manifest: each only grows, the manifest by what is hot. */
  lemma EventGrows(t: Tiers, ev: Event)
    requires Valid(t.engine)
    ensures var t' := Apply(t, ev);
            && t.engine.sealed <= t'.engine.sealed
            && (t'.manifest == t.manifest || t'.manifest == t.manifest + [Hot(t.engine)])
  {
    hide Hot;
    match ev
    case Journals(src, rows) => OfferedIs(t.engine, Batch(Journal(src, rows), JournalEntries(src, rows)));
    case Archives(stage) => OfferedIs(t.engine, Batch(Archival(Hot(t.engine)), Moves(Hot(t.engine))));
    case Ingests(b) => OfferedIs(t.engine, b);
    case Seals =>
  }

  lemma EventKeepsSourced(t: Tiers, ev: Event)
    requires Inv(t) && Sourced(t) && Allowed(ev)
    ensures Sourced(Apply(t, ev))
  {
    var t' := Apply(t, ev);
    EventGrows(t, ev);
    assert t'.engine.sealed == t.engine.sealed + t'.engine.sealed[|t.engine.sealed|..];
    forall m | m in Named(t'.manifest) ensures Journaled(t'.engine.sealed, m) {
      assert m in Union(t) by { assert m in Named(t.manifest) || m in Hot(t.engine); }
      UnionIsJournaled(t, m);
      JournaledMore(t.engine.sealed, t'.engine.sealed[|t.engine.sealed|..], m);
    }
  }

  lemma {:induction false} RunSourced(events: seq<Event>)
    requires forall ev :: ev in events ==> Allowed(ev)
    ensures Inv(Run(FRESH, events)) && Sourced(Run(FRESH, events))
  {
    if events == [] {
      FreshInv();
    } else {
      var init, last := events[..|events| - 1], events[|events| - 1];
      assert last in events && forall ev :: ev in init ==> ev in events;
      hide Inv, Sourced, Apply;
      RunSourced(init);
      EventKeepsInv(Run(FRESH, init), last);
      EventKeepsSourced(Run(FRESH, init), last);
    }
  }

  lemma KnowsMore(e: Compute, b: Delta, token: Token)
    requires Valid(e)
    ensures Knows(Offered(e, b), token) <==> Knows(e, token) || b.token == token
  {
    OfferedIs(e, b);
    var e' := Offered(e, b);
    if !Knows(e, b.token) {
      assert e'.All() == e.All() + [b];
      assert e'.All()[|e.All()|] == b && forall i :: 0 <= i < |e.All()| ==> e'.All()[i] == e.All()[i];
      if i :| 0 <= i < |e.All()| && e.All()[i].token == token { assert e'.All()[i].token == token; }
    }
  }

  lemma EventKnows(t: Tiers, ev: Event, src: Source, rows: set<Contaminated>)
    requires Inv(t) && Allowed(ev)
    ensures Knows(Apply(t, ev).engine, Journal(src, rows)) <==>
            Knows(t.engine, Journal(src, rows)) || (ev == Journals(src, rows) && rows != {})
  {
    var hot := Hot(t.engine);
    KnowsMore(t.engine, Batch(Archival(hot), Moves(hot)), Journal(src, rows));
    if ev.Journals? { KnowsMore(t.engine, Batch(Journal(ev.source, ev.rows), JournalEntries(ev.source, ev.rows)), Journal(src, rows)); }
    if ev.Ingests? { KnowsMore(t.engine, ev.other, Journal(src, rows)); }
    hide Hot, Inv, Moves, JournalEntries;
  }

  lemma {:induction false} KnownIsJournaled(events: seq<Event>, src: Source, rows: set<Contaminated>)
    requires forall ev :: ev in events ==> Allowed(ev)
    ensures Knows(Run(FRESH, events).engine, Journal(src, rows)) <==> Journals(src, rows) in events && rows != {}
  {
    if events != [] {
      var init, last := events[..|events| - 1], events[|events| - 1];
      assert events == init + [last] && last in events && forall ev :: ev in init ==> ev in events;
      RunSourced(init);
      hide Inv, Sourced, Apply, Knows;
      KnownIsJournaled(init, src, rows);
      EventKnows(Run(FRESH, init), last, src, rows);
    }
  }

  lemma JournaledIsKnown(e: Compute, m: Entry)
    requires e.pending == []
    ensures Journaled(e.sealed, m) <==> exists rows :: Knows(e, Journal(m.0, rows)) && m.1 in rows
  {
    assert e.All() == e.sealed;
    if Journaled(e.sealed, m) {
      var b :| b in e.sealed && b.token.Journal? && b.token.source == m.0 && m.1 in b.token.rows;
      var i :| 0 <= i < |e.All()| && e.All()[i] == b;
      assert Knows(e, Journal(m.0, b.token.rows));
    }
    if rows :| Knows(e, Journal(m.0, rows)) && m.1 in rows {
      var i :| 0 <= i < |e.All()| && e.All()[i].token == Journal(m.0, rows);
      assert e.All()[i] in e.sealed;
    }
  }

  /**
   The ledger remembers exactly what was journaled. Over every run from a fresh ledger, whenever nothing waits for a
   seal, a row is hot or archived if and only if some event journaled it under its source.
   */
  lemma RemembersExactly(events: seq<Event>, m: Entry)
    requires (forall ev :: ev in events ==> Allowed(ev)) && Run(FRESH, events).engine.pending == []
    ensures m in Union(Run(FRESH, events)) <==> exists i :: 0 <= i < |events| && Lists(events[i], m)
  {
    var t := Run(FRESH, events);
    RunSourced(events);
    UnionIsJournaled(t, m);
    JournaledIsKnown(t.engine, m);
    forall rows ensures Knows(t.engine, Journal(m.0, rows)) <==> Journals(m.0, rows) in events && rows != {} {
      KnownIsJournaled(events, m.0, rows);
    }
    hide Inv, Sourced, Run, Union, Knows, Journaled;
    if i :| 0 <= i < |events| && Lists(events[i], m) { assert events[i] == Journals(m.0, events[i].rows); }
    if rows :| Journals(m.0, rows) in events && m.1 in rows {
      var i :| 0 <= i < |events| && events[i] == Journals(m.0, rows);
      assert Lists(events[i], m);
    }
  }

  /** A drained ledger is what a taint asks for: its journals covered, its weights non-negative. */
  lemma LedgerIsSound(t: Tiers, held: map<string, set<(string, string)>>)
    requires Inv(t) && t.engine.pending == []
    ensures LedgerCovers(World(t.engine, held, Named(t.manifest)))
    ensures forall s, c :: Net(t.engine.sealed, Ledger(s, c)) >= 0
  {
    var w := World(t.engine, held, Named(t.manifest));
    hide Remembered, Hot;
    forall s, journaled | Knows(w.engine, Journal(s, journaled)) ensures journaled <= Remembered(w, s) {
      var i :| 0 <= i < |t.engine.All()| && t.engine.All()[i].token == Journal(s, journaled);
      assert t.engine.All()[i] in t.engine.sealed;
      forall c | c in journaled ensures c in Remembered(w, s) {
        HotEntry(t.engine, (s, c));
        RememberedIn(w, s, c);
      }
    }
    forall s, c ensures Net(t.engine.sealed, Ledger(s, c)) >= 0 { assert Row((s, c)) == Ledger(s, c); }
  }

  lemma PassResult(t: Tiers)
    requires Valid(t.engine) && t.engine.pending == [] && Hot(t.engine) != {}
    ensures var hot := Hot(t.engine);
            var t' := Pass(t, 4);
            && hot in t'.manifest
            && t'.engine.sealed == if Knows(t.engine, Archival(hot)) then t.engine.sealed else t.engine.sealed + [Batch(Archival(hot), Moves(hot))]
  {
    var hot := Hot(t.engine);
    hide Hot;
    var b := Batch(Archival(hot), Moves(hot));
    OfferedIs(t.engine, b);
    assert Pass(t, 4).engine == SealIfPending(Offered(t.engine, b));
  }

  lemma MovedIsHot(e: Compute, e': Compute, m: Entry)
    requires e'.sealed == e.sealed + [Batch(Archival(Hot(e)), Moves(Hot(e)))]
    ensures m in Hot(e') <==> Net(e.sealed, Row(m)) > 1
  {
    HotEntry(e, m);
    HotEntry(e', m);
    hide Hot;
    NetAppend(e.sealed, Batch(Archival(Hot(e)), Moves(Hot(e))), Row(m));
  }

  /**
   What one whole pass does to a drained ledger: each hot row gives up one copy, unless this very set
   was moved before. It empties the hot tier exactly when each row was there once and the set is new.
   */
  lemma PassEmpties(t: Tiers)
    requires Inv(t) && t.engine.pending == [] && Hot(t.engine) != {}
    ensures var t' := Pass(t, 4);
            && Hot(t.engine) <= Named(t'.manifest)
            && (Hot(t'.engine) == {} <==>
                  !Knows(t.engine, Archival(Hot(t.engine))) && forall m :: m in Hot(t.engine) ==> Net(t.engine.sealed, Row(m)) == 1)
  {
    var e, hot, t' := t.engine, Hot(t.engine), Pass(t, 4);
    PassResult(t);
    hide Inv, Pass, Hot;
    if Knows(e, Archival(hot)) {
      forall m ensures m in Hot(t'.engine) <==> m in hot { HotEntry(e, m); HotEntry(t'.engine, m); }
    } else {
      forall m ensures m in Hot(t'.engine) <==> Net(e.sealed, Row(m)) > 1 { MovedIsHot(e, t'.engine, m); }
      forall m ensures m in hot <==> Net(e.sealed, Row(m)) > 0 { HotEntry(e, m); }
    }
  }

  /** The engine's ledger relation beside its cold tier. */
  class TieredLedger {
    var engine: Compute
    const archive: LedgerArchive

    constructor (engine: Compute, archive: LedgerArchive)
      ensures this.engine == engine && this.archive == archive
    {
      this.engine, this.archive := engine, archive;
    }

    ghost function State(): Tiers
      reads this, archive
    {
      Tiers(engine, archive.files, archive.manifest)
    }

    /** One archival pass, or one killed after the segment and manifest are durable. */
    method ArchiveResolved(killed: bool) returns (moved: nat)
      requires Valid(engine) && forall b :: b in engine.All() ==> Fits(b)
      modifies this, archive
      ensures State() == Pass(old(State()), if killed then 2 else 4)
      ensures !killed ==> moved == |Hot(old(engine))|
    {
      var hot := Hot(engine);
      if hot == {} { return 0; }
      var name := archive.Append(hot);
      if killed { return 0; }
      var b := Batch(Archival(hot), Moves(hot));
      assert Ingest(engine, b).Ok?;
      var done := Ingest(engine, b).value;
      engine := done.0;
      match done.1 {
        case Appended => engine := Seal(engine);
        case DroppedAsReplay => if engine.pending != [] { engine := Seal(engine); }
      }
      moved := |hot|;
    }
  }
}
