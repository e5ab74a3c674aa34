/**
 Taint as retraction: resolve, journal, heal the volatile plane, retract the payload channels, retract
 the derivation edges last, report. An attempt may stop after any step, between a durable append and
 its seal included, and the process may die there; calling taint again resumes it.

 Keys are carried in the hexadecimal text the derivation relation stores. Every table is fed by one
 ingest channel, so a channel is named by its table.
 */
module Taint {
  import opened Wrappers
  import opened Order
  import opened Engines
  import opened Resolution
  import L = Lineage

  datatype Row =
    | Payload(id: RowId, body: string)
    | Derivation(edge: Edge)
    | Ledger(source: Source, row: Contaminated)

  datatype Channel = PayloadChannel(table: string) | DerivationChannel

  datatype Token =
    | Captured(commit: nat, table: string)
    | Journal(source: Source, rows: set<Contaminated>)
    | Archival(moved: set<(Source, Contaminated)>)
    | Retraction(channel: Channel, epoch: nat, entries: map<Row, int>)

  type Compute = Engine<Row, Token>
  type Delta = Batch<Row, Token>

  const MAX_PREDICATE_DISJUNCTS: nat := 512

  datatype Config = Config(tables: seq<string>, semantic: set<string>, lineage: L.Lineage)

  datatype World = World(engine: Compute, held: L.Held, archive: set<(Source, Contaminated)>)

  // ---- what the queries read -----------------------------------------------------------------

  function Edges(e: Compute): set<Edge> {
    set r | r in Rows(e.sealed) && r.Derivation? && Net(e.sealed, r) > 0 :: r.edge
  }

  /** Every row the hot ledger names, whatever source it was journaled for. */
  ghost function HotRows(e: Compute): set<Contaminated> {
    set r | r in Rows(e.sealed) && r.Ledger? && Net(e.sealed, r) > 0 :: r.row
  }

  /** The ledger's memory of one source: the hot relation and the archive together. */
  function Remembered(w: World, src: Source): set<Contaminated> {
    (set r | r in Rows(w.engine.sealed) && r.Ledger? && r.source == src && Net(w.engine.sealed, r) > 0 :: r.row)
    + (set m | m in w.archive && m.0 == src :: m.1)
  }

  lemma EdgeIn(e: Compute, edge: Edge)
    ensures edge in Edges(e) <==> Net(e.sealed, Derivation(edge)) > 0
  {
    NetSupport(e.sealed, Derivation(edge));
  }

  lemma HotIn(e: Compute, c: Contaminated)
    ensures c in HotRows(e) <==> exists s :: Net(e.sealed, Ledger(s, c)) > 0
  {
    if s :| Net(e.sealed, Ledger(s, c)) > 0 { NetSupport(e.sealed, Ledger(s, c)); }
  }

  lemma RememberedIn(w: World, src: Source, c: Contaminated)
    ensures c in Remembered(w, src) <==> Net(w.engine.sealed, Ledger(src, c)) > 0 || (src, c) in w.archive
  {
    NetSupport(w.engine.sealed, Ledger(src, c));
  }

  // ---- the steps -------------------------------------------------------------------------------

  function JournalEntries(src: Source, rows: set<Contaminated>): map<Row, int> {
    map c | c in rows :: Ledger(src, c) := 1
  }

  /** Journal the resolved set under its content address; a repeat is a replay. */
  function JournalAppend(e: Compute, src: Source, rows: set<Contaminated>): Compute {
    if rows == {} then e else
      match Ingest(e, Batch(Journal(src, rows), JournalEntries(src, rows)))
      case Ok(done) => done.0
      case Err(_) => e
  }

  function JournalSeal(e: Compute, rows: set<Contaminated>): Compute {
    if rows == {} then e else SealIfPending(e)
  }

  /** One heal of one holder: the resolved row, and the branch it is retracted from. */
  type Cut = (Contaminated, string)

  /** The cuts a heal of `rows` makes: each row, on its own branch and every active descendant. */
  ghost function Cuts(cfg: Config, rows: set<Contaminated>): set<Cut> {
    set c, b | c in rows && b in L.Holders(cfg.lineage, c.branch) :: (c, b)
  }

  ghost predicate IsCut(cfg: Config, cuts: set<Cut>, b: string, x: (string, string)) {
    exists c :: (c, b) in cuts && c.table in cfg.semantic && x == (c.table, c.key)
  }

  ghost function HealCuts(cfg: Config, held: L.Held, cuts: set<Cut>): L.Held {
    map b | b in held :: set x | x in held[b] && !IsCut(cfg, cuts, b, x)
  }

  ghost function HealRows(cfg: Config, held: L.Held, rows: set<Contaminated>): L.Held {
    HealCuts(cfg, held, Cuts(cfg, rows))
  }

  predicate Matches(ch: Channel, ids: set<RowId>, r: Row) {
    match ch
    case PayloadChannel(table) => r.Payload? && r.id.table == table && r.id in ids
    case DerivationChannel => r.Derivation? && r.edge.row.Id() in ids
  }

  /** The negation of what the channel still contributes to the named rows, unsealed appends included. */
  function Negation(e: Compute, ch: Channel, ids: set<RowId>): map<Row, int> {
    map r | r in Rows(e.All()) && Matches(ch, ids, r) && Net(e.All(), r) != 0 :: -Net(e.All(), r)
  }

  function RetractAppend(e: Compute, ch: Channel, ids: set<RowId>): Compute {
    var entries := Negation(e, ch, ids);
    if entries == map[] then e else
      match Ingest(e, Batch(Retraction(ch, e.epoch + 1, entries), entries))
      case Ok(done) => done.0
      case Err(_) => e
  }

  predicate RetractionPending(e: Compute, ch: Channel) {
    exists b :: b in e.pending && b.token.Retraction? && b.token.channel == ch
  }

  function RetractSeal(e: Compute, ch: Channel): Compute {
    if RetractionPending(e, ch) then Seal(e) else e
  }

  function Retract(e: Compute, ch: Channel, ids: set<RowId>): Compute {
    RetractSeal(RetractAppend(e, ch, ids), ch)
  }

  ghost function RetractTables(e: Compute, tables: seq<string>, ids: set<RowId>): Compute {
    if tables == [] then e
    else Retract(RetractTables(e, tables[..|tables| - 1], ids), PayloadChannel(tables[|tables| - 1]), ids)
  }

  // ---- an attempt ------------------------------------------------------------------------------

  /** How far an attempt got before it stopped. */
  datatype Progress =
    | Resolved
    | JournalAppended
    | Journaled
    | Healing(done: set<Cut>)
    | Channels(n: nat, half: bool)
    | EdgesAppended
    | EdgesRetracted

  ghost function Contamination(w: World, src: Source): set<Contaminated> {
    Closure(Edges(w.engine), src)
  }

  /** The world an attempt leaves when it stops at `p`. With nothing resolved no step does anything. */
  ghost function After(cfg: Config, w: World, src: Source, p: Progress): World
    requires p.Channels? ==> p.n <= |cfg.tables| && (p.half ==> p.n < |cfg.tables|)
  {
    var rows := Contamination(w, src);
    var ids := Ids(rows);
    var journaled := JournalSeal(JournalAppend(w.engine, src, rows), rows);
    var healed := HealRows(cfg, w.held, rows);
    if rows == {} then w else
      match p
      case Resolved => w
      case JournalAppended => w.(engine := JournalAppend(w.engine, src, rows))
      case Journaled => w.(engine := journaled)
      case Healing(done) => w.(engine := journaled, held := HealCuts(cfg, w.held, done * Cuts(cfg, rows)))
      case Channels(n, half) =>
        var e := RetractTables(journaled, cfg.tables[..n], ids);
        w.(engine := if half then RetractAppend(e, PayloadChannel(cfg.tables[n]), ids) else e, held := healed)
      case EdgesAppended =>
        w.(engine := RetractAppend(RetractTables(journaled, cfg.tables, ids), DerivationChannel, ids), held := healed)
      case EdgesRetracted =>
        w.(engine := Retract(RetractTables(journaled, cfg.tables, ids), DerivationChannel, ids), held := healed)
  }

  /** The rows a completed attempt reports as healed: what it resolved and what the ledger remembers. */
  ghost function ReportRows(w: World, src: Source): set<Contaminated> {
    Contamination(w, src) + Remembered(w, src)
  }

  /** A process death: the volatile plane is rebuilt from the replayed captures and the hot ledger. */
  ghost function Restart(cfg: Config, base: L.Held, w: World, seals: bool): World {
    var e := if seals then SealIfPending(w.engine) else w.engine;
    w.(engine := e, held := HealRows(cfg, base, HotRows(e)))
  }

  /** One failed attempt: it stopped at `p`, and then the process may have died. */
  datatype Interruption = Interruption(p: Progress, died: bool, seals: bool)

  ghost predicate WithinTables(cfg: Config, p: Progress) {
    p.Channels? ==> p.n <= |cfg.tables| && (p.half ==> p.n < |cfg.tables|)
  }

  ghost function Run(cfg: Config, base: L.Held, w: World, src: Source, faults: seq<Interruption>): World
    requires forall i :: 0 <= i < |faults| ==> WithinTables(cfg, faults[i].p)
  {
    if faults == [] then w else
      var prior := Run(cfg, base, w, src, faults[..|faults| - 1]);
      var f := faults[|faults| - 1];
      assert WithinTables(cfg, f.p);
      var stopped := After(cfg, prior, src, f.p);
      if f.died then Restart(cfg, base, stopped, f.seals) else stopped
  }

  // ---- the state between attempts ----------------------------------------------------------------

  /** Tokens are content addresses, and a retraction token names the epoch it was appended for. */
  ghost predicate TokenFits(b: Delta, epoch: nat) {
    && (b.token.Journal? ==> b.entries == JournalEntries(b.token.source, b.token.rows))
    && (b.token.Retraction? ==> b.entries == b.token.entries && b.token.epoch <= epoch)
  }

  ghost predicate Sound(e: Compute) {
    && Valid(e)
    && (forall b :: b in e.sealed ==> TokenFits(b, e.epoch))
    && (forall b :: b in e.pending ==> TokenFits(b, e.epoch + 1))
  }

  lemma SealKeepsSound(e: Compute)
    requires Sound(e)
    ensures Sound(Seal(e)) && Sound(SealIfPending(e))
  {
    assert Seal(e).All() == e.All();
  }

  lemma IngestKeepsSound(e: Compute, b: Delta)
    requires Sound(e) && TokenFits(b, e.epoch + 1)
    requires !b.token.Captured? && !b.token.Archival?
    ensures Ingest(e, b).Ok? && Sound(Ingest(e, b).value.0)
    ensures Ingest(e, b).value == if Knows(e, b.token) then (e, DroppedAsReplay) else (e.(pending := e.pending + [b]), Appended)
  {
    var found := Find(e.All(), b.token);
    if found.Some? {
      var known := found.value;
      assert known in e.sealed || known in e.pending;
      assert TokenFits(known, e.epoch + 1);
      var i :| 0 <= i < |e.All()| && e.All()[i] == known;
    }
    IngestKeepsValid(e, b);
  }

  lemma KnowsAppended(e: Compute, b: Delta, token: Token)
    ensures Knows(e.(pending := e.pending + [b]), token) <==> Knows(e, token) || token == b.token
  {
    var e' := e.(pending := e.pending + [b]);
    assert e'.All() == e.All() + [b];
    if Knows(e, token) {
      var i :| 0 <= i < |e.All()| && e.All()[i].token == token;
      assert e'.All()[i].token == token;
    }
    assert e'.All()[|e.All()|] == b;
  }

  lemma KnowsSealed(e: Compute, token: Token)
    ensures Knows(Seal(e), token) <==> Knows(e, token)
    ensures Knows(SealIfPending(e), token) <==> Knows(e, token)
  {
    assert Seal(e).All() == e.All();
  }

  datatype Phase = Phase(journaled: bool, tables: set<string>, edges: bool)

  /** The weight of `r` once the steps named by `ph` have landed on the world `w0`. */
  ghost function NetAt(w0: World, src: Source, rows: set<Contaminated>, ph: Phase, r: Row): int {
    var before := Net(w0.engine.sealed, r);
    match r
    case Ledger(s, c) => before + (if ph.journaled && s == src && c in rows then 1 else 0)
    case Payload(id, _) => if id.table in ph.tables && id in Ids(rows) then 0 else before
    case Derivation(edge) => if ph.edges && edge.row.Id() in Ids(rows) then 0 else before
  }

  ghost predicate NetsAt(w0: World, src: Source, rows: set<Contaminated>, bs: seq<Delta>, ph: Phase) {
    forall r :: Net(bs, r) == NetAt(w0, src, rows, ph, r)
  }

  /** The engine's half of the state between attempts: which steps are sealed, which are appended. */
  ghost predicate MidEngine(w0: World, src: Source, rows: set<Contaminated>, e: Compute, done: Phase, all: Phase) {
    && Sound(e)
    && NetsAt(w0, src, rows, e.sealed, done)
    && NetsAt(w0, src, rows, e.All(), all)
    && (e.pending == [] ==> done == all)
    && (forall s, journaled :: Knows(e, Journal(s, journaled)) <==>
          Knows(w0.engine, Journal(s, journaled)) || (all.journaled && s == src && journaled == rows))
    && (all.journaled ==> !Knows(w0.engine, Journal(src, rows)))
    && (done.journaled ==> all.journaled)
  }

  lemma JournalLands(w0: World, src: Source, rows: set<Contaminated>, e: Compute, done: Phase, all: Phase)
    requires MidEngine(w0, src, rows, e, done, all) && rows != {}
    ensures var all' := all.(journaled := !Knows(w0.engine, Journal(src, rows)));
            && MidEngine(w0, src, rows, JournalAppend(e, src, rows), done, all')
            && Knows(JournalAppend(e, src, rows), Journal(src, rows))
  {
    var b := Batch(Journal(src, rows), JournalEntries(src, rows));
    IngestKeepsSound(e, b);
    var all' := all.(journaled := !Knows(w0.engine, Journal(src, rows)));
    if !Knows(e, b.token) {
      var e' := e.(pending := e.pending + [b]);
      forall token ensures Knows(e', token) <==> Knows(e, token) || token == b.token { KnowsAppended(e, b, token); }
      assert e'.All() == e.All() + [b];
      JournalNets(w0, src, rows, e, done, all, b);
      hide Sound, Net, NetAt, JournalEntries;
    }
  }

  lemma JournalNets(w0: World, src: Source, rows: set<Contaminated>, e: Compute, done: Phase, all: Phase, b: Delta)
    requires MidEngine(w0, src, rows, e, done, all) && b == Batch(Journal(src, rows), JournalEntries(src, rows)) && !Knows(e, b.token)
    ensures var all' := all.(journaled := !Knows(w0.engine, Journal(src, rows)));
            forall r :: Net(e.All() + [b], r) == NetAt(w0, src, rows, all', r)
  {
    var all' := all.(journaled := !Knows(w0.engine, Journal(src, rows)));
    hide Sound;
    forall r ensures Net(e.All() + [b], r) == NetAt(w0, src, rows, all', r) { NetAppend(e.All(), b, r); }
  }

  lemma SealLands(w0: World, src: Source, rows: set<Contaminated>, e: Compute, done: Phase, all: Phase)
    requires MidEngine(w0, src, rows, e, done, all)
    ensures MidEngine(w0, src, rows, SealIfPending(e), all, all)
  {
    SealKeepsSound(e);
    forall token ensures Knows(SealIfPending(e), token) <==> Knows(e, token) { KnowsSealed(e, token); }
    assert SealIfPending(e).sealed == e.All();
  }

  ghost function Advance(ph: Phase, ch: Channel): Phase {
    match ch
    case PayloadChannel(table) => ph.(tables := ph.tables + {table})
    case DerivationChannel => ph.(edges := true)
  }

  lemma FreshRetraction(e: Compute, ch: Channel, entries: map<Row, int>)
    requires Sound(e) && e.pending == []
    ensures !Knows(e, Retraction(ch, e.epoch + 1, entries))
  {
    var token := Retraction(ch, e.epoch + 1, entries);
    forall i | 0 <= i < |e.All()| ensures e.All()[i].token != token {
      assert e.All()[i] in e.sealed;
    }
  }

  /** The appended negation brings every named row to zero and moves no other row. */
  lemma NegationZeroes(e: Compute, ch: Channel, ids: set<RowId>, b: Delta, r: Row)
    requires b.entries == Negation(e, ch, ids)
    ensures Net(e.All() + [b], r) == if Matches(ch, ids, r) then 0 else Net(e.All(), r)
  {
    NetAppend(e.All(), b, r);
    NetSupport(e.All(), r);
  }

  lemma RetractAppendLands(w0: World, src: Source, rows: set<Contaminated>, e: Compute, ph: Phase, ch: Channel)
    requires MidEngine(w0, src, rows, e, ph, ph) && e.pending == []
    ensures var e' := RetractAppend(e, ch, Ids(rows));
            && MidEngine(w0, src, rows, e', if e'.pending == [] then Advance(ph, ch) else ph, Advance(ph, ch))
            && (e'.pending != [] ==> RetractionPending(e', ch))
  {
    var entries := Negation(e, ch, Ids(rows));
    var b := Batch(Retraction(ch, e.epoch + 1, entries), entries);
    assert e.All() == e.sealed;
    NegationAdvances(w0, src, rows, e, ph, ch, b);
    if entries == map[] {
      hide Negation, NetAt, Net, Ids;
      forall r ensures Net(e.All(), r) == NetAt(w0, src, rows, Advance(ph, ch), r) {
        NetAppend(e.All(), b, r);
      }
    } else {
      RetractionAppended(e, ch, Ids(rows));
      AppendedLands(w0, src, rows, e, ph, ch, b);
      hide MidEngine, Negation, RetractAppend;
    }
  }

  lemma AppendedLands(w0: World, src: Source, rows: set<Contaminated>, e: Compute, ph: Phase, ch: Channel, b: Delta)
    requires MidEngine(w0, src, rows, e, ph, ph) && e.pending == [] && b.token == Retraction(ch, e.epoch + 1, b.entries)
    requires forall r :: Net(e.All() + [b], r) == NetAt(w0, src, rows, Advance(ph, ch), r)
    ensures MidEngine(w0, src, rows, e.(pending := [b]), ph, Advance(ph, ch)) && RetractionPending(e.(pending := [b]), ch)
  {
    var e' := e.(pending := [b]);
    FreshRetraction(e, ch, b.entries);
    IngestKeepsSound(e, b);
    assert [] + [b] == [b];
    hide NetAt, Net, Sound;
    forall token ensures Knows(e', token) <==> Knows(e, token) || token == b.token { KnowsAppended(e, b, token); }
    assert e'.All() == e.All() + [b] && b in e'.pending;
  }

  lemma NegationAdvances(w0: World, src: Source, rows: set<Contaminated>, e: Compute, ph: Phase, ch: Channel, b: Delta)
    requires MidEngine(w0, src, rows, e, ph, ph) && b.entries == Negation(e, ch, Ids(rows))
    ensures forall r :: Net(e.All() + [b], r) == NetAt(w0, src, rows, Advance(ph, ch), r)
  {
    forall r ensures Net(e.All() + [b], r) == NetAt(w0, src, rows, Advance(ph, ch), r) {
      NegationZeroes(e, ch, Ids(rows), b, r);
    }
  }

  lemma RetractionAppended(e: Compute, ch: Channel, ids: set<RowId>)
    requires Sound(e) && e.pending == [] && Negation(e, ch, ids) != map[]
    ensures var entries := Negation(e, ch, ids);
            var b := Batch(Retraction(ch, e.epoch + 1, entries), entries);
            RetractAppend(e, ch, ids) == e.(pending := [b]) && Ingest(e, b).Ok? && Ingest(e, b).value.0 == e.(pending := [b])
  {
    FreshRetraction(e, ch, Negation(e, ch, ids));
    var entries := Negation(e, ch, ids);
    hide Negation, Net;
    var b := Batch(Retraction(ch, e.epoch + 1, entries), entries);
    assert e.pending + [b] == [b];
  }

  lemma AlreadyRetracted(w0: World, src: Source, rows: set<Contaminated>, e: Compute, ph: Phase, ch: Channel)
    requires MidEngine(w0, src, rows, e, ph, ph) && Advance(ph, ch) == ph
    ensures RetractAppend(e, ch, Ids(rows)) == e
  {
    var entries := Negation(e, ch, Ids(rows));
    forall r ensures r !in entries {
      assert Net(e.All(), r) == NetAt(w0, src, rows, ph, r);
    }
    assert entries == map[];
  }

  lemma RetractLands(w0: World, src: Source, rows: set<Contaminated>, e: Compute, ph: Phase, ch: Channel)
    requires MidEngine(w0, src, rows, e, ph, ph) && e.pending == []
    ensures var e' := Retract(e, ch, Ids(rows));
            MidEngine(w0, src, rows, e', Advance(ph, ch), Advance(ph, ch)) && e'.pending == []
  {
    RetractAppendLands(w0, src, rows, e, ph, ch);
    var a := RetractAppend(e, ch, Ids(rows));
    SealLands(w0, src, rows, a, if a.pending == [] then Advance(ph, ch) else ph, Advance(ph, ch));
    assert Retract(e, ch, Ids(rows)) == SealIfPending(a);
  }

  lemma {:induction false} TablesLand(w0: World, src: Source, rows: set<Contaminated>, e: Compute, ph: Phase, tables: seq<string>)
    requires MidEngine(w0, src, rows, e, ph, ph) && e.pending == []
    ensures var e' := RetractTables(e, tables, Ids(rows));
            var ph' := ph.(tables := ph.tables + Elements(tables));
            MidEngine(w0, src, rows, e', ph', ph') && e'.pending == []
  {
    if tables == [] {
      assert ph.tables + Elements(tables) == ph.tables;
    } else {
      var init, last := tables[..|tables| - 1], tables[|tables| - 1];
      TablesLand(w0, src, rows, e, ph, init);
      var ph1 := ph.(tables := ph.tables + Elements(init));
      RetractLands(w0, src, rows, RetractTables(e, init, Ids(rows)), ph1, PayloadChannel(last));
      ElementsAppend(init, last);
      assert tables == init + [last];
      assert ph1.tables + {last} == ph.tables + Elements(tables);
    }
  }

  // ---- the invariant between attempts ----------------------------------------------------------

  const START := Phase(false, {}, false)

  ghost predicate Begun(ph: Phase) { ph.tables != {} || ph.edges }

  /** The volatile half: some of the closure healed, all of it once any retraction was appended. */
  ghost predicate MidHeld(cfg: Config, w0: World, rows: set<Contaminated>, held: L.Held, all: Phase) {
    exists some :: some <= Cuts(cfg, rows) && held == HealCuts(cfg, w0.held, some) && (Begun(all) ==> some == Cuts(cfg, rows))
  }

  ghost predicate Mid(cfg: Config, w0: World, src: Source, w: World, done: Phase, all: Phase) {
    var rows := Contamination(w0, src);
    && MidEngine(w0, src, rows, w.engine, done, all)
    && (Begun(all) ==> done.journaled || Knows(w0.engine, Journal(src, rows)))
    && all.tables <= Elements(cfg.tables)
    && (all.edges ==> all.tables == Elements(cfg.tables))
    && (done.edges || rows == {} ==> w.engine.pending == [])
    && MidHeld(cfg, w0, rows, w.held, all)
    && w.archive == w0.archive
  }

  /** What a taint needs of the world it starts in: nothing unsealed, and a sound ledger. */
  ghost predicate Ready(cfg: Config, w: World, src: Source) {
    var rows := Contamination(w, src);
    && Sound(w.engine) && w.engine.pending == []
    && (forall c :: c in rows ==> c.table in cfg.tables)
    && (forall s, c :: Net(w.engine.sealed, Ledger(s, c)) >= 0)
    && LedgerCovers(w)
  }

  /** Every journaled set is still remembered, in the hot relation or in the archive. */
  ghost predicate LedgerCovers(w: World) {
    forall s, journaled :: Knows(w.engine, Journal(s, journaled)) ==> journaled <= Remembered(w, s)
  }

  /** The held rows are what a restart rebuilds: the replayed captures without what the hot ledger names. */
  ghost predicate Replayed(cfg: Config, base: L.Held, w: World) {
    w.held == HealRows(cfg, base, HotRows(w.engine))
  }

  /** Either this very set was not journaled before, or nothing of it is held. */
  ghost predicate NothingForgotten(cfg: Config, w: World, src: Source) {
    var rows := Contamination(w, src);
    Knows(w.engine, Journal(src, rows)) ==> HealRows(cfg, w.held, rows) == w.held
  }

  /** What surviving a process death also needs. */
  ghost predicate Rebuildable(cfg: Config, base: L.Held, w: World, src: Source) {
    Replayed(cfg, base, w) && NothingForgotten(cfg, w, src)
  }

  lemma {:induction false} NoLedgerNet(bs: seq<Delta>, s: Source, c: Contaminated)
    requires forall b :: b in bs ==> Ledger(s, c) !in b.entries
    ensures Net(bs, Ledger(s, c)) == 0
  {
    if bs != [] { NoLedgerNet(bs[..|bs| - 1], s, c); }
  }

  /** A world that only ever ingested captures is ready for a taint of any source, process deaths included. */
  lemma UntaintedIsReady(cfg: Config, w: World, src: Source)
    requires Sound(w.engine) && w.engine.pending == []
    requires forall b :: b in w.engine.sealed ==> b.token.Captured? && forall r :: r in b.entries ==> !r.Ledger?
    requires forall c :: c in Contamination(w, src) ==> c.table in cfg.tables
    ensures Ready(cfg, w, src) && Rebuildable(cfg, w.held, w, src)
  {
    hide Contamination, Sound, HealRows;
    forall s, c ensures Net(w.engine.sealed, Ledger(s, c)) == 0 { NoLedgerNet(w.engine.sealed, s, c); }
    assert HotRows(w.engine) == {};
    assert w.engine.All() == w.engine.sealed;
    forall s, journaled ensures !Knows(w.engine, Journal(s, journaled)) {}
    HealNone(cfg, w.held);
  }

  lemma CutTwice(cfg: Config, held: L.Held, a: set<Cut>, b: set<Cut>)
    ensures HealCuts(cfg, HealCuts(cfg, held, a), b) == HealCuts(cfg, held, a + b)
  {
    var twice := HealCuts(cfg, HealCuts(cfg, held, a), b);
    var once := HealCuts(cfg, held, a + b);
    forall k | k in held ensures twice[k] == once[k] {
      forall x ensures x in twice[k] <==> x in once[k] {
      }
    }
  }

  lemma HealTwice(cfg: Config, held: L.Held, a: set<Contaminated>, b: set<Contaminated>)
    ensures HealRows(cfg, HealRows(cfg, held, a), b) == HealRows(cfg, held, a + b)
  {
    CutTwice(cfg, held, Cuts(cfg, a), Cuts(cfg, b));
    assert Cuts(cfg, a + b) == Cuts(cfg, a) + Cuts(cfg, b);
  }

  lemma HealNone(cfg: Config, held: L.Held)
    ensures HealCuts(cfg, held, {}) == held && HealRows(cfg, held, {}) == held
  {
    forall k | k in held ensures HealCuts(cfg, held, {})[k] == held[k] {}
    assert Cuts(cfg, {}) == {};
  }

  lemma StartMid(cfg: Config, w0: World, src: Source)
    requires Ready(cfg, w0, src)
    ensures Mid(cfg, w0, src, w0, START, START)
  {
    HealNone(cfg, w0.held);
    assert w0.engine.All() == w0.engine.sealed;
    forall r ensures Net(w0.engine.sealed, r) == NetAt(w0, src, Contamination(w0, src), START, r) {}
  }

  /** Resolution sees the whole original closure until its edges are sealed away, and then nothing. */
  lemma Reresolves(cfg: Config, w0: World, src: Source, w: World, done: Phase, all: Phase)
    requires Mid(cfg, w0, src, w, done, all)
    ensures Contamination(w, src) == if done.edges then {} else Contamination(w0, src)
  {
    var rows := Contamination(w0, src);
    var left := if done.edges then Without(Edges(w0.engine), Ids(rows)) else Edges(w0.engine);
    forall edge ensures edge in Edges(w.engine) <==> edge in left {
      EdgeIn(w.engine, edge);
      EdgeIn(w0.engine, edge);
      assert Net(w.engine.sealed, Derivation(edge)) == NetAt(w0, src, rows, done, Derivation(edge));
    }
    assert Edges(w.engine) == left;
    if done.edges { ResolvedOnce(Edges(w0.engine), src); }
  }

  lemma HealedMid(cfg: Config, w0: World, rows: set<Contaminated>, held: L.Held, all: Phase, more: set<Cut>, all': Phase)
    requires MidHeld(cfg, w0, rows, held, all) && more <= Cuts(cfg, rows)
    requires Begun(all') ==> Begun(all) || more == Cuts(cfg, rows)
    ensures MidHeld(cfg, w0, rows, HealCuts(cfg, held, more), all')
  {
    var cuts := Cuts(cfg, rows);
    var some :| some <= cuts && held == HealCuts(cfg, w0.held, some) && (Begun(all) ==> some == cuts);
    CutTwice(cfg, w0.held, some, more);
    assert some + more <= cuts;
    assert Begun(all') ==> some + more == cuts;
  }

  /** The journaled phase every step after the journal starts from. */
  ghost function JournaledPhase(w0: World, src: Source, all: Phase): Phase {
    all.(journaled := !Knows(w0.engine, Journal(src, Contamination(w0, src))))
  }

  lemma JournalStep(w0: World, src: Source, rows: set<Contaminated>, e: Compute, done: Phase, all: Phase)
    requires MidEngine(w0, src, rows, e, done, all) && rows != {} && rows == Contamination(w0, src)
    ensures var e' := JournalSeal(JournalAppend(e, src, rows), rows);
            var ph := JournaledPhase(w0, src, all);
            MidEngine(w0, src, rows, e', ph, ph) && e'.pending == []
  {
    JournalLands(w0, src, rows, e, done, all);
    SealLands(w0, src, rows, JournalAppend(e, src, rows), done, JournaledPhase(w0, src, all));
  }

  /** A world reached past the journal: its engine half, its held half, and the order of steps. */
  lemma MakeMid(cfg: Config, w0: World, src: Source, w: World, all: Phase, w': World, done': Phase, all': Phase)
    requires MidHeld(cfg, w0, Contamination(w0, src), w.held, all)
    requires w'.held == HealRows(cfg, w.held, Contamination(w0, src)) && w'.archive == w0.archive
    requires MidEngine(w0, src, Contamination(w0, src), w'.engine, done', all')
    requires done'.journaled || Knows(w0.engine, Journal(src, Contamination(w0, src)))
    requires all'.tables <= Elements(cfg.tables) && (all'.edges ==> all'.tables == Elements(cfg.tables))
    requires Contamination(w0, src) != {} && (done'.edges ==> w'.engine.pending == [])
    ensures Mid(cfg, w0, src, w', done', all')
  {
    hide MidEngine, Contamination, Cuts, HealCuts, Knows;
    HealedMid(cfg, w0, Contamination(w0, src), w.held, all, Cuts(cfg, Contamination(w0, src)), all');
  }

  lemma ChannelsLand(cfg: Config, w0: World, src: Source, w: World, all: Phase, e1: Compute, n: nat, half: bool)
    returns (done': Phase, all': Phase)
    requires Contamination(w0, src) != {}
    requires MidHeld(cfg, w0, Contamination(w0, src), w.held, all) && w.archive == w0.archive
    requires var ph := JournaledPhase(w0, src, all); MidEngine(w0, src, Contamination(w0, src), e1, ph, ph)
    requires all.edges ==> all.tables == Elements(cfg.tables)
    requires e1.pending == [] && all.tables <= Elements(cfg.tables)
    requires n <= |cfg.tables| && (half ==> n < |cfg.tables|)
    ensures var rows := Contamination(w0, src);
            var e2 := RetractTables(e1, cfg.tables[..n], Ids(rows));
            var e3 := if half then RetractAppend(e2, PayloadChannel(cfg.tables[n]), Ids(rows)) else e2;
            Mid(cfg, w0, src, w.(engine := e3, held := HealRows(cfg, w.held, rows)), done', all')
  {
    hide MidEngine, Contamination, HealRows, Knows, RetractAppend, RetractTables;
    var rows := Contamination(w0, src);
    var ph := JournaledPhase(w0, src, all);
    TablesLand(w0, src, rows, e1, ph, cfg.tables[..n]);
    var ph1 := ph.(tables := ph.tables + Elements(cfg.tables[..n]));
    assert ph1.tables <= Elements(cfg.tables);
    var e2 := RetractTables(e1, cfg.tables[..n], Ids(rows));
    var e3 := e2;
    done', all' := ph1, ph1;
    if half {
      var ch := PayloadChannel(cfg.tables[n]);
      RetractAppendLands(w0, src, rows, e2, ph1, ch);
      e3 := RetractAppend(e2, ch, Ids(rows));
      if ph1.edges {
        assert Advance(ph1, ch) == ph1;
        AlreadyRetracted(w0, src, rows, e2, ph1, ch);
      }
      done', all' := if e3.pending == [] then Advance(ph1, ch) else ph1, Advance(ph1, ch);
    }
    MakeMid(cfg, w0, src, w, all, w.(engine := e3, held := HealRows(cfg, w.held, rows)), done', all');
  }

  lemma EdgesLand(cfg: Config, w0: World, src: Source, w: World, all: Phase, e1: Compute, sealed: bool)
    returns (done': Phase, all': Phase)
    requires Contamination(w0, src) != {}
    requires MidHeld(cfg, w0, Contamination(w0, src), w.held, all) && w.archive == w0.archive
    requires var ph := JournaledPhase(w0, src, all); MidEngine(w0, src, Contamination(w0, src), e1, ph, ph)
    requires e1.pending == [] && all.tables <= Elements(cfg.tables)
    ensures var rows := Contamination(w0, src);
            var e2 := RetractTables(e1, cfg.tables, Ids(rows));
            var e3 := if sealed then Retract(e2, DerivationChannel, Ids(rows)) else RetractAppend(e2, DerivationChannel, Ids(rows));
            Mid(cfg, w0, src, w.(engine := e3, held := HealRows(cfg, w.held, rows)), done', all')
    ensures all' == Phase(!Knows(w0.engine, Journal(src, Contamination(w0, src))), Elements(cfg.tables), true)
    ensures sealed ==> done' == all'
  {
    hide MidEngine, Contamination, HealRows, Knows, RetractAppend, Retract, RetractTables;
    var rows := Contamination(w0, src);
    var ph := JournaledPhase(w0, src, all);
    TablesLand(w0, src, rows, e1, ph, cfg.tables);
    var ph1 := ph.(tables := ph.tables + Elements(cfg.tables));
    assert ph1.tables == Elements(cfg.tables);
    var e2 := RetractTables(e1, cfg.tables, Ids(rows));
    RetractLands(w0, src, rows, e2, ph1, DerivationChannel);
    RetractAppendLands(w0, src, rows, e2, ph1, DerivationChannel);
    var e3 := if sealed then Retract(e2, DerivationChannel, Ids(rows)) else RetractAppend(e2, DerivationChannel, Ids(rows));
    if ph1.edges { AlreadyRetracted(w0, src, rows, e2, ph1, DerivationChannel); }
    all' := Advance(ph1, DerivationChannel);
    done' := if e3.pending == [] then all' else ph1;
    MakeMid(cfg, w0, src, w, all, w.(engine := e3, held := HealRows(cfg, w.held, rows)), done', all');
  }

  /** Wherever an attempt stops, the world is again between attempts. */
  lemma AttemptLands(cfg: Config, w0: World, src: Source, w: World, done: Phase, all: Phase, p: Progress)
    returns (done': Phase, all': Phase)
    requires Mid(cfg, w0, src, w, done, all) && WithinTables(cfg, p)
    ensures Mid(cfg, w0, src, After(cfg, w, src, p), done', all')
  {
    Reresolves(cfg, w0, src, w, done, all);
    var rows := Contamination(w0, src);
    if done.edges || rows == {} || p.Resolved? {
      return done, all;
    }
    hide HealRows, HealCuts, Cuts, Contamination, RetractAppend, Retract, RetractTables, JournalAppend, JournalSeal, MidEngine, Knows;
    var ph := JournaledPhase(w0, src, all);
    var e1 := JournalSeal(JournalAppend(w.engine, src, rows), rows);
    JournalLands(w0, src, rows, w.engine, done, all);
    JournalStep(w0, src, rows, w.engine, done, all);
    match p
    case JournalAppended => return done, ph;
    case Journaled => return ph, ph;
    case Healing(some) =>
      HealedMid(cfg, w0, rows, w.held, all, some * Cuts(cfg, rows), ph);
      return ph, ph;
    case Channels(n, half) => done', all' := ChannelsLand(cfg, w0, src, w, all, e1, n, half);
    case EdgesAppended => done', all' := EdgesLand(cfg, w0, src, w, all, e1, false);
    case EdgesRetracted => done', all' := EdgesLand(cfg, w0, src, w, all, e1, true);
  }

  lemma HotAt(cfg: Config, w0: World, src: Source, e: Compute, ph: Phase)
    requires Ready(cfg, w0, src) && NetsAt(w0, src, Contamination(w0, src), e.sealed, ph)
    ensures HotRows(e) == HotRows(w0.engine) + if ph.journaled then Contamination(w0, src) else {}
  {
    var rows := Contamination(w0, src);
    hide HotRows, Contamination;
    forall c ensures c in HotRows(e) <==> c in HotRows(w0.engine) || (ph.journaled && c in rows) {
      HotIn(e, c);
      HotIn(w0.engine, c);
      assert forall s :: Net(e.sealed, Ledger(s, c)) == NetAt(w0, src, rows, ph, Ledger(s, c));
      if ph.journaled && c in rows { assert Net(e.sealed, Ledger(src, c)) > 0; }
    }
  }

  lemma RebuiltMid(cfg: Config, base: L.Held, w0: World, src: Source, e: Compute, done: Phase, all: Phase)
    requires Ready(cfg, w0, src) && Rebuildable(cfg, base, w0, src)
    requires MidEngine(w0, src, Contamination(w0, src), e, done, all)
    requires Begun(all) ==> done.journaled || Knows(w0.engine, Journal(src, Contamination(w0, src)))
    ensures MidHeld(cfg, w0, Contamination(w0, src), HealRows(cfg, base, HotRows(e)), all)
  {
    var rows := Contamination(w0, src);
    HotAt(cfg, w0, src, e, done);
    var hot := HotRows(w0.engine);
    hide Contamination, HotRows, HealRows, MidEngine;
    if Knows(w0.engine, Journal(src, rows)) {
      assert hot + {} == hot;
      assert HealRows(cfg, base, HotRows(e)) == HealRows(cfg, w0.held, rows);
    } else if done.journaled {
      HealTwice(cfg, base, hot, rows);
    } else {
      HealTwice(cfg, base, hot, {});
      assert HealRows(cfg, base, HotRows(e)) == HealRows(cfg, w0.held, {});
    }
  }

  /** Dying and recovering, with or without the recovery sealing what was pending. */
  lemma RestartLands(cfg: Config, base: L.Held, w0: World, src: Source, w: World, done: Phase, all: Phase, seals: bool)
    returns (done': Phase)
    requires Ready(cfg, w0, src) && Rebuildable(cfg, base, w0, src) && Mid(cfg, w0, src, w, done, all)
    ensures Mid(cfg, w0, src, Restart(cfg, base, w, seals), done', all)
  {
    var rows := Contamination(w0, src);
    SealLands(w0, src, rows, w.engine, done, all);
    hide Contamination, HotRows, HealRows, Knows;
    var w' := Restart(cfg, base, w, seals);
    done' := if seals then all else done;
    assert MidEngine(w0, src, rows, w'.engine, done', all);
    assert Begun(all) ==> done'.journaled || Knows(w0.engine, Journal(src, rows));
    RebuiltMid(cfg, base, w0, src, w'.engine, done', all);
  }

  ghost predicate Possible(cfg: Config, base: L.Held, w0: World, src: Source, faults: seq<Interruption>) {
    && (forall i :: 0 <= i < |faults| ==> WithinTables(cfg, faults[i].p))
    && ((exists i :: 0 <= i < |faults| && faults[i].died) ==> Rebuildable(cfg, base, w0, src))
  }

  lemma {:induction false} RunMid(cfg: Config, base: L.Held, w0: World, src: Source, faults: seq<Interruption>)
    returns (done: Phase, all: Phase)
    requires Ready(cfg, w0, src) && Possible(cfg, base, w0, src, faults)
    ensures Mid(cfg, w0, src, Run(cfg, base, w0, src, faults), done, all)
  {
    if faults == [] {
      StartMid(cfg, w0, src);
      return START, START;
    }
    hide Mid, Ready, Rebuildable, After, Restart;
    var init, f := faults[..|faults| - 1], faults[|faults| - 1];
    assert Possible(cfg, base, w0, src, init);
    assert WithinTables(cfg, f.p);
    var prior := Run(cfg, base, w0, src, init);
    done, all := RunMid(cfg, base, w0, src, init);
    done, all := AttemptLands(cfg, w0, src, prior, done, all, f.p);
    if f.died {
      done := RestartLands(cfg, base, w0, src, After(cfg, prior, src, f.p), done, all, f.seals);
    }
  }

  /**
   The world without the source: every payload row and derivation edge of the closure gone and no
   other moved, the closure journaled once, its rows healed on every holding branch.
   */
  ghost predicate Healed(cfg: Config, w0: World, src: Source, w: World) {
    var rows := Contamination(w0, src);
    && w.engine.pending == []
    && NetsAt(w0, src, rows, w.engine.sealed, Phase(!Knows(w0.engine, Journal(src, rows)), Elements(cfg.tables), true))
    && w.held == HealRows(cfg, w0.held, rows)
    && w.archive == w0.archive
  }

  ghost function Target(cfg: Config, w0: World, src: Source): Phase {
    Phase(!Knows(w0.engine, Journal(src, Contamination(w0, src))), Elements(cfg.tables), true)
  }

  lemma MidIsHealed(cfg: Config, w0: World, src: Source, w: World)
    requires Mid(cfg, w0, src, w, Target(cfg, w0, src), Target(cfg, w0, src))
    ensures Healed(cfg, w0, src, w)
  {
    hide Contamination, HealCuts, Cuts, Knows, NetsAt;
  }

  lemma NothingDownstream(cfg: Config, w0: World, src: Source, w: World, done: Phase, all: Phase)
    requires Mid(cfg, w0, src, w, done, all) && Contamination(w0, src) == {}
    ensures Healed(cfg, w0, src, w)
  {
    var rows := Contamination(w0, src);
    hide HealCuts, Knows, Contamination;
    forall r ensures Net(w.engine.sealed, r) == NetAt(w0, src, rows, Target(cfg, w0, src), r) {
      assert Net(w.engine.sealed, r) == NetAt(w0, src, rows, done, r);
    }
    assert Cuts(cfg, rows) == {};
    var some :| some <= Cuts(cfg, rows) && w.held == HealCuts(cfg, w0.held, some);
    assert some == {};
  }

  lemma AllEdgesMeansTarget(cfg: Config, w0: World, src: Source, w: World, done: Phase, all: Phase)
    requires Mid(cfg, w0, src, w, done, all) && done.edges
    ensures done == all == Target(cfg, w0, src)
  {
    hide Contamination, HealRows, Knows, NetsAt;
  }

  lemma CompletedIsHealed(cfg: Config, w0: World, src: Source, w: World, done: Phase, all: Phase)
    requires Ready(cfg, w0, src) && Mid(cfg, w0, src, w, done, all)
    ensures Healed(cfg, w0, src, After(cfg, w, src, EdgesRetracted))
  {
    var rows := Contamination(w0, src);
    Reresolves(cfg, w0, src, w, done, all);
    if rows == {} {
      NothingDownstream(cfg, w0, src, w, done, all);
    } else if done.edges {
      AllEdgesMeansTarget(cfg, w0, src, w, done, all);
      MidIsHealed(cfg, w0, src, w);
    } else {
      RestIsHealed(cfg, w0, src, w, done, all);
    }
  }

  lemma RestIsHealed(cfg: Config, w0: World, src: Source, w: World, done: Phase, all: Phase)
    requires Ready(cfg, w0, src) && Mid(cfg, w0, src, w, done, all)
    requires Contamination(w0, src) != {} && Contamination(w, src) == Contamination(w0, src) && !done.edges
    ensures Healed(cfg, w0, src, After(cfg, w, src, EdgesRetracted))
  {
    hide Healed, HealRows, Contamination, Retract, RetractTables, JournalAppend, JournalSeal, Knows, MidEngine, Ready;
    var rows := Contamination(w0, src);
    var e1 := JournalSeal(JournalAppend(w.engine, src, rows), rows);
    JournalStep(w0, src, rows, w.engine, done, all);
    var d, a := EdgesLand(cfg, w0, src, w, all, e1, true);
    MidIsHealed(cfg, w0, src, After(cfg, w, src, EdgesRetracted));
  }

  lemma RememberedAt(cfg: Config, w0: World, src: Source, w: World, done: Phase, all: Phase)
    requires Ready(cfg, w0, src) && Mid(cfg, w0, src, w, done, all)
    ensures Remembered(w, src) == Remembered(w0, src) + if done.journaled then Contamination(w0, src) else {}
  {
    var rows := Contamination(w0, src);
    hide Remembered, Contamination;
    forall c ensures c in Remembered(w, src) <==> c in Remembered(w0, src) || (done.journaled && c in rows) {
      RememberedIn(w, src, c);
      RememberedIn(w0, src, c);
      assert Net(w.engine.sealed, Ledger(src, c)) == NetAt(w0, src, rows, done, Ledger(src, c));
    }
  }

  /**
   Taint resumes. However many attempts were interrupted, wherever each stopped and whether or not
   the process died there, one completed attempt leaves the healed world of the original source and
   reports the original rows: exactly what one uninterrupted call does.
   */
  lemma TaintResumes(cfg: Config, base: L.Held, w0: World, src: Source, faults: seq<Interruption>)
    requires Ready(cfg, w0, src) && Possible(cfg, base, w0, src, faults)
    ensures var w := Run(cfg, base, w0, src, faults);
            && Healed(cfg, w0, src, After(cfg, w, src, EdgesRetracted))
            && ReportRows(w, src) == ReportRows(w0, src)
    ensures Healed(cfg, w0, src, After(cfg, w0, src, EdgesRetracted))
  {
    hide Healed, After, Contamination, Remembered, MidEngine, MidHeld;
    StartMid(cfg, w0, src);
    CompletedIsHealed(cfg, w0, src, w0, START, START);
    var w := Run(cfg, base, w0, src, faults);
    var done, all := RunMid(cfg, base, w0, src, faults);
    CompletedIsHealed(cfg, w0, src, w, done, all);
    RememberedAt(cfg, w0, src, w, done, all);
    Reresolves(cfg, w0, src, w, done, all);
    if done.edges { AllEdgesMeansTarget(cfg, w0, src, w, done, all); }
  }

  /** Two worlds a healed state cannot be told apart by: same weights, held rows and archive. */
  lemma HealedIsOneWorld(cfg: Config, w0: World, src: Source, a: World, b: World)
    requires Healed(cfg, w0, src, a) && Healed(cfg, w0, src, b)
    ensures (forall r :: Net(a.engine.sealed, r) == Net(b.engine.sealed, r)) && a.held == b.held && a.archive == b.archive
  {
  }

  /** A chain of citations from the source, through edges that weigh something, ends at a write of this row. */
  ghost predicate Poisoned(w: World, src: Source, id: RowId) {
    exists path: seq<Edge> ::
      && IsChain(Edges(w.engine), src, path) && path[|path| - 1].row.branch == id.branch
      && path[|path| - 1].row.table == id.table && path[|path| - 1].row.key == id.key
  }

  /** A poisoned row of a semantic table, on this branch or on one it descends from, unless this one was rewound. */
  ghost predicate PoisonedOn(cfg: Config, w: World, src: Source, b: string, x: (string, string)) {
    exists id: RowId ::
      && Poisoned(w, src, id) && id.table in cfg.semantic && x == (id.table, id.key)
      && (id.branch == b || (b in cfg.lineage.forks && L.Descends(cfg.lineage.forks, id.branch, b) && b !in cfg.lineage.rewinds))
  }

  lemma PoisonedIsContaminated(w: World, src: Source, id: RowId)
    ensures Poisoned(w, src, id) <==> id in Ids(Contamination(w, src))
  {
    var edges := Edges(w.engine);
    if path: seq<Edge> :| && IsChain(edges, src, path) && path[|path| - 1].row.branch == id.branch
                          && path[|path| - 1].row.table == id.table && path[|path| - 1].row.key == id.key {
      ClosureIsReachability(edges, src, path[|path| - 1].row);
      assert path[|path| - 1].row.Id() == id;
    }
    if c :| c in Contamination(w, src) && c.Id() == id {
      ClosureIsReachability(edges, src, c);
      var path: seq<Edge> :| IsChain(edges, src, path) && path[|path| - 1].row == c;
    }
  }

  lemma CutIsPoisoned(cfg: Config, w: World, src: Source, b: string, x: (string, string))
    ensures IsCut(cfg, Cuts(cfg, Contamination(w, src)), b, x) <==> PoisonedOn(cfg, w, src, b, x)
  {
    var rows := Contamination(w, src);
    forall id ensures Poisoned(w, src, id) <==> id in Ids(rows) { PoisonedIsContaminated(w, src, id); }
    hide Poisoned, Contamination;
    if c :| (c, b) in Cuts(cfg, rows) && c.table in cfg.semantic && x == (c.table, c.key) {
      assert Poisoned(w, src, c.Id());
    }
    if id: RowId :| && Poisoned(w, src, id) && id.table in cfg.semantic && x == (id.table, id.key)
                    && (id.branch == b || (b in cfg.lineage.forks && L.Descends(cfg.lineage.forks, id.branch, b) && b !in cfg.lineage.rewinds)) {
      var c :| c in rows && c.Id() == id;
      assert (c, b) in Cuts(cfg, rows);
    }
  }

  /**
   The healed world, written out. Every payload and derivation row of a poisoned row is at zero and every other one
   weighs what it did; the ledger gains each poisoned write under the source, unless this set was journaled
   before; and a branch holds what it held without the poisoned rows of its own or of a branch above it.
   */
  lemma HealedExactly(cfg: Config, w0: World, src: Source, w: World)
    requires Ready(cfg, w0, src) && Healed(cfg, w0, src, w)
    ensures forall id, body :: Net(w.engine.sealed, Payload(id, body)) ==
              if Poisoned(w0, src, id) then 0 else Net(w0.engine.sealed, Payload(id, body))
    ensures forall edge :: Net(w.engine.sealed, Derivation(edge)) ==
              if Poisoned(w0, src, RowId(edge.row.branch, edge.row.table, edge.row.key)) then 0 else Net(w0.engine.sealed, Derivation(edge))
    ensures forall s, c :: Net(w.engine.sealed, Ledger(s, c)) == Net(w0.engine.sealed, Ledger(s, c))
              + if s == src && c in Contamination(w0, src) && !Knows(w0.engine, Journal(src, Contamination(w0, src))) then 1 else 0
    ensures forall b, x :: x in L.Rows(w.held, b) <==> x in L.Rows(w0.held, b) && !PoisonedOn(cfg, w0, src, b, x)
  {
    var rows := Contamination(w0, src);
    forall id ensures Poisoned(w0, src, id) <==> id in Ids(rows) { PoisonedIsContaminated(w0, src, id); }
    forall b, x ensures IsCut(cfg, Cuts(cfg, rows), b, x) <==> PoisonedOn(cfg, w0, src, b, x) { CutIsPoisoned(cfg, w0, src, b, x); }
    hide Poisoned, PoisonedOn, Contamination, Net, IsCut, Cuts, Sound, LedgerCovers;
    forall id | id in Ids(rows) ensures id.table in Elements(cfg.tables) {}
  }

  /** While any payload row of the closure is live, the edges that resolve the whole closure are too. */
  lemma WitnessOutlivesPayload(cfg: Config, base: L.Held, w0: World, src: Source, faults: seq<Interruption>, r: Row)
    requires Ready(cfg, w0, src) && Possible(cfg, base, w0, src, faults)
    requires r.Payload? && r.id in Ids(Contamination(w0, src))
    ensures var w := Run(cfg, base, w0, src, faults);
            Net(w.engine.sealed, r) != 0 ==> Contamination(w, src) == Contamination(w0, src)
  {
    var w := Run(cfg, base, w0, src, faults);
    var done, all := RunMid(cfg, base, w0, src, faults);
    Reresolves(cfg, w0, src, w, done, all);
    var c :| c in Contamination(w0, src) && c.Id() == r.id;
    assert c.table in Elements(cfg.tables);
    assert Net(w.engine.sealed, r) == NetAt(w0, src, Contamination(w0, src), done, r);
    if done.edges { AllEdgesMeansTarget(cfg, w0, src, w, done, all); }
  }

  /** A completed attempt after `faults` leaves the healed world. */
  ghost predicate Resumes(cfg: Config, base: L.Held, w0: World, src: Source, faults: seq<Interruption>) {
    (forall i :: 0 <= i < |faults| ==> WithinTables(cfg, faults[i].p))
    ==> Healed(cfg, w0, src, After(cfg, Run(cfg, base, w0, src, faults), src, EdgesRetracted))
  }

  const DEATH := Interruption(EdgesRetracted, true, false)

  /**
   A death after the last retraction, with this very set journaled before: the journal is a replay, the
   hot ledger never names the rows again, and the restart rebuilds the held rows as they were.
   */
  lemma DeathForgetsHeal(cfg: Config, base: L.Held, w0: World, src: Source)
    requires Ready(cfg, w0, src) && Replayed(cfg, base, w0)
    requires Knows(w0.engine, Journal(src, Contamination(w0, src)))
    ensures Run(cfg, base, w0, src, [DEATH]).held == w0.held
    ensures Resumes(cfg, base, w0, src, [DEATH]) ==> HealRows(cfg, w0.held, Contamination(w0, src)) == w0.held
  {
    var faults := [DEATH];
    assert faults[..0] == [];
    assert Run(cfg, base, w0, src, faults[..0]) == w0;
    var stopped := After(cfg, w0, src, EdgesRetracted);
    StartMid(cfg, w0, src);
    CompletedIsHealed(cfg, w0, src, w0, START, START);
    HotAt(cfg, w0, src, stopped.engine, Target(cfg, w0, src));
    HealedLeavesNothing(cfg, w0, src, stopped);
    hide After, HealRows, Contamination, HotRows;
    var w := Run(cfg, base, w0, src, faults);
    assert HotRows(w0.engine) + {} == HotRows(w0.engine);
    assert w == Restart(cfg, base, stopped, false);
    NothingResolved(cfg, w, src, EdgesRetracted);
  }

  /**
   Exactly when taint resumes across process deaths. From a ready world whose held rows are what a restart
   rebuilds, every series of interruptions, deaths included, resumes to the healed world if and only if
   this very set was not journaled before or nothing of it is held.
   */
  lemma ResumesExactly(cfg: Config, base: L.Held, w0: World, src: Source)
    requires Ready(cfg, w0, src) && Replayed(cfg, base, w0)
    ensures (forall faults: seq<Interruption> :: Resumes(cfg, base, w0, src, faults)) <==> NothingForgotten(cfg, w0, src)
  {
    hide Healed, After, Contamination, HotRows, HealRows, Ready;
    if NothingForgotten(cfg, w0, src) {
      forall faults: seq<Interruption> ensures Resumes(cfg, base, w0, src, faults) {
        if forall i :: 0 <= i < |faults| ==> WithinTables(cfg, faults[i].p) { TaintResumes(cfg, base, w0, src, faults); }
      }
    }
    if forall faults: seq<Interruption> :: Resumes(cfg, base, w0, src, faults) {
      assert Resumes(cfg, base, w0, src, [DEATH]);
      if Knows(w0.engine, Journal(src, Contamination(w0, src))) { DeathForgetsHeal(cfg, base, w0, src); }
    }
  }

  lemma HealedLeavesNothing(cfg: Config, w0: World, src: Source, w: World)
    requires Healed(cfg, w0, src, w)
    ensures forall held :: Contamination(w.(held := held), src) == {}
  {
    var rows := Contamination(w0, src);
    var left := Without(Edges(w0.engine), Ids(rows));
    forall edge ensures edge in Edges(w.engine) <==> edge in left {
      EdgeIn(w.engine, edge);
      EdgeIn(w0.engine, edge);
      assert Net(w.engine.sealed, Derivation(edge)) == NetAt(w0, src, rows, Target(cfg, w0, src), Derivation(edge));
    }
    assert Edges(w.engine) == left;
    ResolvedOnce(Edges(w0.engine), src);
  }

  lemma NothingResolved(cfg: Config, w: World, src: Source, p: Progress)
    requires Contamination(w, src) == {} && WithinTables(cfg, p)
    ensures After(cfg, w, src, p) == w
  {
  }

  // ---- a world that forgets ------------------------------------------------------------------------

  const POISON := Source("crm", "7")
  const ROW := Contaminated("main", "notes", "6b", "e1")
  const ROW_CELL := Payload(ROW.Id(), "text")
  const EDGE_CELL := Derivation(Edge(ROW, POISON))
  const LEDGER_CELL := Ledger(POISON, ROW)

  /** Captured, journaled, archived, retracted, and captured again exactly as before. */
  const FORGETFUL_LOG: seq<Delta> := [
    Batch(Captured(1, "notes"), map[ROW_CELL := 1]),
    Batch(Captured(1, "mutiny_derivation"), map[EDGE_CELL := 1]),
    Batch(Journal(POISON, {ROW}), map[LEDGER_CELL := 1]),
    Batch(Retraction(PayloadChannel("notes"), 3, map[ROW_CELL := -1]), map[ROW_CELL := -1]),
    Batch(Retraction(DerivationChannel, 4, map[EDGE_CELL := -1]), map[EDGE_CELL := -1]),
    Batch(Archival({(POISON, ROW)}), map[LEDGER_CELL := -1]),
    Batch(Captured(2, "notes"), map[ROW_CELL := 1]),
    Batch(Captured(2, "mutiny_derivation"), map[EDGE_CELL := 1])]

  const FORGETFUL := World(Engine(FORGETFUL_LOG, [], 6), map["main" := {("notes", "6b")}], {(POISON, ROW)})

  const ONE_TABLE := Config(["notes"], {"notes"}, L.EMPTY)

  /**
   A retraction that finds nothing of its rows and no retraction of its channel left unsealed does nothing at all:
   it seals no epoch, whatever else is waiting.
   */
  lemma NothingToRetract(e: Compute, ch: Channel, ids: set<RowId>)
    requires forall r: Row :: Matches(ch, ids, r) ==> Net(e.All(), r) == 0
    requires forall b :: b in e.pending && b.token.Retraction? ==> b.token.channel != ch
    ensures Retract(e, ch, ids) == e
  {
    assert Negation(e, ch, ids) == map[];
  }

  /** The cumulative weight of a run of batches, from the front. */
  function FrontNet(bs: seq<Delta>, r: Row): int {
    if bs == [] then 0 else Weight(bs[0], r) + FrontNet(bs[1..], r)
  }

  lemma {:induction false} FrontNetIsNet(bs: seq<Delta>, r: Row)
    ensures FrontNet(bs, r) == Net(bs, r)
  {
    if bs != [] {
      FrontNetIsNet(bs[1..], r);
      assert bs == [bs[0]] + bs[1..];
      NetConcat([bs[0]], bs[1..], r);
      NetSingle(bs[0], r);
    }
  }

  lemma ForgetfulNet(r: Row)
    ensures Net(FORGETFUL_LOG, r) == if r == ROW_CELL || r == EDGE_CELL then 1 else 0
  {
    FrontNetIsNet(FORGETFUL_LOG, r);
    var a := FORGETFUL_LOG[2..];
    var b := a[2..];
    var c := b[2..];
    assert c[1..] == [FORGETFUL_LOG[7]] && c[1..][1..] == [];
    assert FrontNet(c[1..], r) == if r == EDGE_CELL then 1 else 0;
    assert FrontNet(c, r) == if r == ROW_CELL || r == EDGE_CELL then 1 else 0;
    assert FrontNet(b, r) == (if r == ROW_CELL then 1 else 0) - (if r == LEDGER_CELL then 1 else 0);
    assert FrontNet(a, r) == 0;
  }

  lemma ForgetfulClosure()
    ensures Edges(FORGETFUL.engine) == {Edge(ROW, POISON)} && Contamination(FORGETFUL, POISON) == {ROW}
    ensures HotRows(FORGETFUL.engine) == {}
  {
    var e := FORGETFUL.engine;
    hide Edges, HotRows;
    forall edge ensures edge in Edges(e) <==> edge == Edge(ROW, POISON) {
      EdgeIn(e, edge);
      ForgetfulNet(Derivation(edge));
    }
    forall c ensures c !in HotRows(e) {
      HotIn(e, c);
      forall s ensures Net(e.sealed, Ledger(s, c)) == 0 { ForgetfulNet(Ledger(s, c)); }
    }
    assert Edges(e) == {Edge(ROW, POISON)};
    WithinNext(Edges(e), POISON, 0, Edge(ROW, POISON));
    assert Downstream(Edges(e), POISON, ROW);
  }

  /** An input that fails: ready, held as a restart rebuilds it, and not resumed after a death. */
  lemma ForgetfulWorldFails()
    ensures Ready(ONE_TABLE, FORGETFUL, POISON) && Replayed(ONE_TABLE, FORGETFUL.held, FORGETFUL)
    ensures !Resumes(ONE_TABLE, FORGETFUL.held, FORGETFUL, POISON, [DEATH])
  {
    var e := FORGETFUL.engine;
    ForgetfulClosure();
    assert e.All() == FORGETFUL_LOG;
    assert FORGETFUL_LOG[2].token == Journal(POISON, {ROW});
    assert Knows(e, Journal(POISON, {ROW}));
    hide Edges, Contamination, HotRows;
    forall s, c ensures Net(e.sealed, Ledger(s, c)) == 0 { ForgetfulNet(Ledger(s, c)); }
    ForgetfulSound();
    forall s, journaled | Knows(e, Journal(s, journaled)) ensures journaled <= Remembered(FORGETFUL, s) {
      RememberedIn(FORGETFUL, POISON, ROW);
    }
    HealNone(ONE_TABLE, FORGETFUL.held);
    var cuts := Cuts(ONE_TABLE, {ROW});
    assert (ROW, "main") in cuts;
    assert IsCut(ONE_TABLE, cuts, "main", ("notes", "6b"));
    assert ("notes", "6b") !in HealRows(ONE_TABLE, FORGETFUL.held, {ROW})["main"];
    DeathForgetsHeal(ONE_TABLE, FORGETFUL.held, FORGETFUL, POISON);
  }

  lemma ForgetfulSound()
    ensures Sound(FORGETFUL.engine)
  {
    var e := FORGETFUL.engine;
    assert e.All() == FORGETFUL_LOG;
    assert JournalEntries(POISON, {ROW}) == map[LEDGER_CELL := 1];
  }
}
