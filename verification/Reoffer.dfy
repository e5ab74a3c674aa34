/**
 Recovery by offering every capture again: batches dedup by token, whatever is pending is sealed with
 the next capture, and retraction epochs the capture history never saw stay in between.
 */
module Reoffer {
  import opened Wrappers
  import opened Engines

  datatype Token = Captured(commit: string, table: string) | Retraction(epoch: nat, entries: map<string, int>)

  type Piece = Batch<string, Token>
  type Compute = Engine<string, Token>

  /** The batches of each committed capture, in commit order. */
  type History = seq<seq<Piece>>

  // ---- operations ----------------------------------------------------------------------------------------

  function Offer(e: Compute, bs: seq<Piece>): Result<Compute, IngestError> {
    if bs == [] then Ok(e) else
      var prior := Offer(e, bs[..|bs| - 1]);
      if prior.Err? then prior else
        match Ingest(prior.value, bs[|bs| - 1])
        case Ok(done) => Ok(done.0)
        case Err(error) => Err(error)
  }

  /** Offer a capture's batches and seal whatever is pending. */
  function ApplyCapture(e: Compute, bs: seq<Piece>): Result<Compute, IngestError> {
    match Offer(e, bs)
    case Ok(offered) => Ok(SealIfPending(offered))
    case Err(error) => Err(error)
  }

  /** Offer the whole history again, capture by capture. */
  function Recover(e: Compute, history: History): Result<Compute, IngestError> {
    if history == [] then Ok(e) else
      var prior := Recover(e, history[..|history| - 1]);
      if prior.Err? then prior else ApplyCapture(prior.value, history[|history| - 1])
  }

  /** The net contribution of `rows`, negated: what a retraction epoch holds. */
  function Negation(e: Compute, rows: set<string>): map<string, int> {
    map r | r in rows && Net(e.All(), r) != 0 :: -Net(e.All(), r)
  }

  function AppendRetraction(e: Compute, rows: set<string>): Compute {
    var entries := Negation(e, rows);
    if entries == map[] then e else
      match Ingest(e, Batch(Retraction(e.epoch + 1, entries), entries))
      case Ok(done) => done.0
      case Err(_) => e
  }

  // ---- what offering adds ----------------------------------------------------------------------------------

  ghost function Flat(history: History): seq<Piece> {
    if history == [] then [] else Flat(history[..|history| - 1]) + history[|history| - 1]
  }

  /** The batches of `bs` whose tokens `all` does not hold, in order. */
  ghost function Missing(all: seq<Piece>, bs: seq<Piece>): seq<Piece> {
    if bs == [] then [] else
      var b := bs[|bs| - 1];
      Missing(all, bs[..|bs| - 1]) + if Find(all, b.token).Some? then [] else [b]
  }

  ghost predicate Distinct(bs: seq<Piece>) {
    forall i, j :: 0 <= i < j < |bs| ==> bs[i].token != bs[j].token
  }

  /** A token both sides hold names one batch. */
  ghost predicate Agree(all: seq<Piece>, bs: seq<Piece>) {
    forall i, j :: 0 <= i < |all| && 0 <= j < |bs| && all[i].token == bs[j].token ==> all[i] == bs[j]
  }

  lemma {:induction false} MissingElement(all: seq<Piece>, bs: seq<Piece>, b: Piece)
    ensures b in Missing(all, bs) <==> b in bs && Find(all, b.token).None?
  {
    if bs != [] {
      MissingElement(all, bs[..|bs| - 1], b);
      assert bs == bs[..|bs| - 1] + [bs[|bs| - 1]];
    }
  }

  lemma FindIn(all: seq<Piece>, b: Piece)
    requires b in all
    ensures Find(all, b.token).Some?
  {
  }

  lemma {:induction false} MissingConcat(all: seq<Piece>, a: seq<Piece>, b: seq<Piece>)
    ensures Missing(all, a + b) == Missing(all, a) + Missing(all, b)
  {
    if b == [] {
      assert a + b == a;
    } else {
      assert (a + b)[..|a + b| - 1] == a + b[..|b| - 1];
      MissingConcat(all, a, b[..|b| - 1]);
    }
  }

  /** More held elsewhere changes nothing: `extra` shares no token with `bs`. */
  lemma {:induction false} MissingIgnores(all: seq<Piece>, extra: seq<Piece>, bs: seq<Piece>)
    requires forall i, j :: 0 <= i < |extra| && 0 <= j < |bs| ==> extra[i].token != bs[j].token
    ensures Missing(all + extra, bs) == Missing(all, bs)
  {
    if bs != [] {
      MissingIgnores(all, extra, bs[..|bs| - 1]);
      var b := bs[|bs| - 1];
      if Find(all, b.token).Some? {
        assert Find(all, b.token).value in all + extra;
        assert exists i :: 0 <= i < |all + extra| && (all + extra)[i].token == b.token;
      }
    }
  }

  /** Offering appends exactly what is missing, refuses nothing, and admits every token once. */
  lemma {:induction false} OfferAddsMissing(e: Compute, bs: seq<Piece>)
    requires Valid(e) && Distinct(bs) && Agree(e.All(), bs)
    ensures Offer(e, bs).Ok?
    ensures var e' := Offer(e, bs).value; Valid(e') && e'.All() == e.All() + Missing(e.All(), bs) && e'.sealed == e.sealed && e'.epoch == e.epoch
  {
    if bs == [] {
      assert e.All() + [] == e.All();
    } else {
      var init, b := bs[..|bs| - 1], bs[|bs| - 1];
      OfferAddsMissing(e, init);
      var prior := Offer(e, init).value;
      var added := Missing(e.All(), init);
      forall i | 0 <= i < |added| ensures added[i].token != b.token {
        MissingElement(e.All(), init, added[i]);
      }
      FindAcross(e.All(), added, b.token);
      IngestStep(prior, b);
      assert prior.All() + [] == prior.All();
      assert e.All() + added + [b] == e.All() + (added + [b]);
    }
  }

  /** And it refuses exactly where a token is held with other content. */
  lemma {:induction false} OfferAgrees(e: Compute, bs: seq<Piece>)
    requires Valid(e) && Distinct(bs) && Offer(e, bs).Ok?
    ensures Agree(e.All(), bs)
  {
    if bs != [] {
      var init, b := bs[..|bs| - 1], bs[|bs| - 1];
      OfferAgrees(e, init);
      OfferAddsMissing(e, init);
      var prior := Offer(e, init).value;
      forall i | 0 <= i < |e.All()| && e.All()[i].token == b.token ensures e.All()[i] == b {
        assert prior.All()[i] == e.All()[i];
        var known := Find(prior.All(), b.token).value;
        var j :| 0 <= j < |prior.All()| && prior.All()[j] == known;
      }
    }
  }

  lemma FindAcross(all: seq<Piece>, extra: seq<Piece>, token: Token)
    requires forall i :: 0 <= i < |extra| ==> extra[i].token != token
    ensures Find(all + extra, token).Some? <==> Find(all, token).Some?
    ensures Find(all + extra, token).Some? ==> Find(all + extra, token).value in all
  {
    if Find(all, token).Some? {
      var i :| 0 <= i < |all| && all[i] == Find(all, token).value;
      assert (all + extra)[i].token == token;
    }
  }

  lemma IngestStep(e: Compute, b: Piece)
    requires Valid(e) && forall i :: 0 <= i < |e.All()| && e.All()[i].token == b.token ==> e.All()[i] == b
    ensures Ingest(e, b).Ok?
    ensures var e' := Ingest(e, b).value.0;
            && Valid(e') && e'.sealed == e.sealed && e'.epoch == e.epoch
            && e'.All() == e.All() + if Find(e.All(), b.token).Some? then [] else [b]
  {
    match Find(e.All(), b.token)
    case Some(known) => assert e.All() + [] == e.All();
    case None => IngestKeepsValid(e, b);
  }

  lemma ApplyAddsMissing(e: Compute, bs: seq<Piece>)
    requires Valid(e) && Distinct(bs) && Agree(e.All(), bs)
    ensures ApplyCapture(e, bs).Ok?
    ensures var e' := ApplyCapture(e, bs).value; Valid(e') && e'.All() == e.All() + Missing(e.All(), bs) && e'.pending == []
  {
    OfferAddsMissing(e, bs);
  }

  lemma DistinctParts(a: seq<Piece>, b: seq<Piece>)
    requires Distinct(a + b)
    ensures Distinct(a) && Distinct(b)
    ensures forall i, j :: 0 <= i < |a| && 0 <= j < |b| ==> a[i].token != b[j].token
  {
    forall i, j | 0 <= i < j < |a| ensures a[i].token != a[j].token { assert (a + b)[i] == a[i] && (a + b)[j] == a[j]; }
    forall i, j | 0 <= i < j < |b| ensures b[i].token != b[j].token { assert (a + b)[|a| + i] == b[i] && (a + b)[|a| + j] == b[j]; }
    forall i, j | 0 <= i < |a| && 0 <= j < |b| ensures a[i].token != b[j].token { assert (a + b)[i] == a[i] && (a + b)[|a| + j] == b[j]; }
  }

  lemma AddedTokens(all: seq<Piece>, a: seq<Piece>, b: seq<Piece>, added: seq<Piece>)
    requires Distinct(a + b) && added == Missing(all, a)
    ensures forall i, j :: 0 <= i < |added| && 0 <= j < |b| ==> added[i].token != b[j].token
  {
    DistinctParts(a, b);
    forall i, j | 0 <= i < |added| && 0 <= j < |b| ensures added[i].token != b[j].token {
      MissingElement(all, a, added[i]);
      assert added[i] in a;
    }
  }

  /** What is missing of `b` is the same whether or not the missing part of `a` was added first. */
  lemma MissingAfter(all: seq<Piece>, a: seq<Piece>, b: seq<Piece>)
    requires Distinct(a + b)
    ensures all + Missing(all, a) + Missing(all + Missing(all, a), b) == all + Missing(all, a + b)
  {
    hide Missing, Distinct;
    var added := Missing(all, a);
    AddedTokens(all, a, b, added);
    MissingIgnores(all, added, b);
    MissingConcat(all, a, b);
    assert all + added + Missing(all, b) == all + (added + Missing(all, b));
  }

  lemma AgreeAfter(all: seq<Piece>, a: seq<Piece>, b: seq<Piece>)
    requires Distinct(a + b) && Agree(all, a + b)
    ensures Agree(all + Missing(all, a), b)
  {
    AddedTokens(all, a, b, Missing(all, a));
    AgreeParts(all, a, b);
    hide Missing;
  }

  lemma AgreeParts(all: seq<Piece>, a: seq<Piece>, b: seq<Piece>)
    requires Agree(all, a + b)
    ensures Agree(all, a) && Agree(all, b)
  {
    forall i, j | 0 <= i < |all| && 0 <= j < |a| && all[i].token == a[j].token ensures all[i] == a[j] { assert (a + b)[j] == a[j]; }
    forall i, j | 0 <= i < |all| && 0 <= j < |b| && all[i].token == b[j].token ensures all[i] == b[j] { assert (a + b)[|a| + j] == b[j]; }
  }

  /** Recovery adds, over the whole history, exactly the batches that never landed. */
  lemma {:induction false} RecoverAddsMissing(e: Compute, history: History)
    requires Valid(e) && Distinct(Flat(history)) && Agree(e.All(), Flat(history))
    ensures Recover(e, history).Ok?
    ensures var e' := Recover(e, history).value;
            && Valid(e') && e'.All() == e.All() + Missing(e.All(), Flat(history))
            && (history != [] || e.pending == [] ==> e'.pending == [])
  {
    if history == [] {
      assert e.All() + [] == e.All();
    } else {
      var earlier, last := history[..|history| - 1], history[|history| - 1];
      var flat := Flat(earlier);
      hide Distinct, Agree, Missing, Valid;
      DistinctParts(flat, last);
      AgreeParts(e.All(), flat, last);
      RecoverAddsMissing(e, earlier);
      var prior := Recover(e, earlier).value;
      AgreeAfter(e.All(), flat, last);
      MissingAfter(e.All(), flat, last);
      ApplyAddsMissing(prior, last);
    }
  }

  // ---- every run -------------------------------------------------------------------------------------------

  /**
   A plane that applied every capture serves; one whose last capture compute refused answers and retracts
   but commits nothing (its sequence is one behind the store's); a dead one must recover first.
   */
  datatype Mode = Serving | Behind | Down

  datatype Plane = Plane(engine: Compute, history: History, mode: Mode)

  /** What became of a committed capture: all of it landed, or its first `n` batches and then a crash or a refusal. */
  datatype Fate = Lands | Dies(n: nat) | Refused(n: nat)

  datatype Event =
    | Writing(bs: seq<Piece>, fate: Fate)               // a committed capture
    | Retracting(rows: set<string>, sealed: bool)       // one retraction epoch, or a crash before its seal
    | Recovering(captures: nat, batches: nat)           // a recovery that dies after so many captures and batches
    | Reopening                                         // a recovery that completes

  ghost function OrSame(r: Result<Compute, IngestError>, e: Compute): Compute { if r.Ok? then r.value else e }

  /** A recovery cut short: `m` captures applied, `n` batches of the next one offered. */
  ghost function Partial(e: Compute, history: History, m: nat, n: nat): Compute
    requires m < |history| && n <= |history[m]|
  {
    var whole := OrSame(Recover(e, history[..m]), e);
    OrSame(Offer(whole, history[m][..n]), whole)
  }

  /** The batches of a capture that were offered before it stopped. */
  ghost function Offered(bs: seq<Piece>, fate: Fate): seq<Piece> {
    if fate.Lands? || fate.n > |bs| then bs else bs[..fate.n]
  }

  ghost function Step(p: Plane, ev: Event): Plane {
    match ev
    case Writing(bs, fate) =>
      if p.mode != Serving then p else
        var history := p.history + [bs];
        var offered := OrSame(Offer(p.engine, Offered(bs, fate)), p.engine);
        (match fate
         case Lands => Plane(OrSame(ApplyCapture(p.engine, bs), p.engine), history, Serving)
         case Dies(_) => Plane(offered, history, Down)
         case Refused(_) => Plane(offered, history, Behind))
    case Retracting(rows, sealed) =>
      if p.mode == Down then p else
        var e := AppendRetraction(p.engine, rows);
        if !sealed then Plane(e, p.history, Down)
        else if Negation(p.engine, rows) == map[] then p
        else p.(engine := SealIfPending(e))
    case Recovering(m, n) =>
      if m < |p.history| && n <= |p.history[m]| then Plane(Partial(p.engine, p.history, m, n), p.history, Down)
      else p.(mode := Down)
    case Reopening => Plane(OrSame(Recover(p.engine, p.history), p.engine), p.history, Serving)
  }

  ghost function Run(events: seq<Event>): Plane {
    if events == [] then Plane(Engine([], [], 0), [], Serving)
    else Step(Run(events[..|events| - 1]), events[|events| - 1])
  }

  /** A retraction never names an epoch past the one it is sealed in, or is about to be sealed in. */
  ghost predicate Dated(e: Compute) {
    && (forall b :: b in e.sealed && b.token.Retraction? ==> b.token.epoch <= e.epoch)
    && (forall b :: b in e.pending && b.token.Retraction? ==> b.token.epoch <= e.epoch + 1)
  }

  /** Everything admitted is a batch of the history or a retraction of an epoch already counted. */
  ghost predicate Accounted(e: Compute, flat: seq<Piece>) {
    Dated(e) && forall b :: b in e.All() && b.token.Captured? ==> b in flat
  }

  ghost predicate Inv(p: Plane) {
    var flat := Flat(p.history);
    && Valid(p.engine) && Distinct(flat) && (forall b :: b in flat ==> b.token.Captured?)
    && Accounted(p.engine, flat) && (p.history == [] ==> p.engine.All() == [])
    && (p.mode == Serving ==> p.engine.pending == [] && Missing(p.engine.All(), flat) == [])
    && (p.mode == Behind ==> forall b :: b in p.engine.pending ==> b.token.Captured?)
  }

  lemma AccountedAgrees(e: Compute, flat: seq<Piece>)
    requires Accounted(e, flat) && Distinct(flat) && forall b :: b in flat ==> b.token.Captured?
    ensures Agree(e.All(), flat)
  {
    forall i, j | 0 <= i < |e.All()| && 0 <= j < |flat| && e.All()[i].token == flat[j].token
      ensures e.All()[i] == flat[j]
    {
      assert e.All()[i] in e.All() && flat[j] in flat;
    }
  }

  /** Nothing is missing from a history once everything missing was added. */
  lemma NothingMissing(all: seq<Piece>, flat: seq<Piece>)
    ensures Missing(all + Missing(all, flat), flat) == []
  {
    var after := all + Missing(all, flat);
    if Missing(after, flat) != [] {
      var b := Missing(after, flat)[0];
      MissingElement(after, flat, b);
      MissingElement(all, flat, b);
      if Find(all, b.token).Some? {
        FindIn(after, Find(all, b.token).value);
      } else {
        FindIn(after, b);
      }
      assert false;
    }
  }

  lemma AccountedMore(e: Compute, e': Compute, flat: seq<Piece>, more: seq<Piece>)
    requires Accounted(e, flat) && e'.All() == e.All() + more && Dated(e')
    requires forall b :: b in more ==> b in flat && b.token.Captured?
    ensures Accounted(e', flat)
  {
  }

  lemma {:induction false} OfferDated(e: Compute, bs: seq<Piece>)
    requires Dated(e) && forall b :: b in bs ==> b.token.Captured?
    ensures Offer(e, bs).Ok? ==>
              var e' := Offer(e, bs).value;
              Dated(e') && ((forall b :: b in e.pending ==> b.token.Captured?) ==> forall b :: b in e'.pending ==> b.token.Captured?)
  {
    if bs != [] { OfferDated(e, bs[..|bs| - 1]); }
  }

  lemma {:induction false} RecoverDated(e: Compute, history: History)
    requires Dated(e) && forall b :: b in Flat(history) ==> b.token.Captured?
    ensures Recover(e, history).Ok? ==> Dated(Recover(e, history).value)
  {
    if history != [] {
      var earlier, last := history[..|history| - 1], history[|history| - 1];
      RecoverDated(e, earlier);
      var prior := Recover(e, earlier);
      if prior.Ok? {
        assert forall b :: b in last ==> b in Flat(history);
        OfferDated(prior.value, last);
      }
    }
  }

  lemma MissingOnly(all: seq<Piece>, bs: seq<Piece>, flat: seq<Piece>)
    requires forall b :: b in bs ==> b in flat
    ensures forall b :: b in Missing(all, bs) ==> b in flat
  {
    forall b | b in Missing(all, bs) ensures b in flat { MissingElement(all, bs, b); }
  }

  lemma {:induction false} FlatPrefix(history: History, m: nat)
    requires m <= |history|
    ensures Flat(history[..m]) <= Flat(history)
  {
    if m == |history| {
      assert history[..m] == history;
    } else {
      FlatPrefix(history[..|history| - 1], m);
      assert history[..|history| - 1][..m] == history[..m];
    }
  }

  lemma PrefixParts(flat: seq<Piece>, bs: seq<Piece>, all: seq<Piece>)
    requires bs <= flat && Distinct(flat) && Agree(all, flat)
    ensures Distinct(bs) && Agree(all, bs) && forall b :: b in bs ==> b in flat
  {
    assert flat == bs + flat[|bs|..];
    DistinctParts(bs, flat[|bs|..]);
    AgreeParts(all, bs, flat[|bs|..]);
  }

  // ---- each event ------------------------------------------------------------------------------------------

  /** Commits are content-addressed: a new capture's tokens are new. */
  ghost predicate Fresh(p: Plane, ev: Event) {
    ev.Writing? ==> Distinct(Flat(p.history) + ev.bs) && forall b :: b in ev.bs ==> b.token.Captured?
  }

  lemma NewAgrees(p: Plane, bs: seq<Piece>)
    requires Inv(p) && Distinct(Flat(p.history) + bs) && forall b :: b in bs ==> b.token.Captured?
    ensures Distinct(bs) && Agree(p.engine.All(), bs)
    ensures Flat(p.history + [bs]) == Flat(p.history) + bs
  {
    var flat := Flat(p.history);
    DistinctParts(flat, bs);
    assert (p.history + [bs])[..|p.history|] == p.history;
    forall b, j | b in p.engine.All() && 0 <= j < |bs| ensures b.token != bs[j].token {
      assert bs[j] in bs;
      if b.token.Captured? { var k :| 0 <= k < |flat| && flat[k] == b; }
    }
  }

  lemma WritingKeepsInv(p: Plane, ev: Event)
    requires Inv(p) && ev.Writing? && Fresh(p, ev) && p.mode == Serving
    ensures Inv(Step(p, ev))
  {
    var e, flat, bs := p.engine, Flat(p.history), ev.bs;
    NewAgrees(p, bs);
    var part := Offered(bs, ev.fate);
    PrefixParts(bs, part, e.All());
    OfferAddsMissing(e, part);
    OfferDated(e, part);
    MissingOnly(e.All(), part, flat + bs);
    assert Accounted(e, flat + bs);
    hide Missing, Offer, Find;
    var e' := Offer(e, part).value;
    AccountedMore(e, e', flat + bs, Missing(e.All(), part));
    if ev.fate.Lands? {
      SealAccounted(e', flat + bs);
      MissingConcat(e.All(), flat, bs);
      assert [] + Missing(e.All(), bs) == Missing(e.All(), bs);
      NothingMissing(e.All(), flat + bs);
    }
  }

  lemma SealAccounted(e: Compute, flat: seq<Piece>)
    requires Accounted(e, flat) && Valid(e)
    ensures Accounted(SealIfPending(e), flat) && Valid(SealIfPending(e))
  {
  }

  /** A retraction epoch is always admitted: its token names an epoch nothing has reached. */
  lemma RetractionLands(p: Plane, rows: set<string>)
    requires Inv(p) && p.mode != Down
    ensures var e, entries := p.engine, Negation(p.engine, rows);
            var b := Batch(Retraction(e.epoch + 1, entries), entries);
            AppendRetraction(e, rows) == if entries == map[] then e else e.(pending := e.pending + [b])
  {
    var e, entries := p.engine, Negation(p.engine, rows);
    var b := Batch(Retraction(e.epoch + 1, entries), entries);
    assert forall c :: c in e.All() ==> c.token != b.token;
  }

  lemma RetractionAccounted(p: Plane, rows: set<string>)
    requires Inv(p) && p.mode != Down
    ensures var e' := AppendRetraction(p.engine, rows);
            Valid(e') && Accounted(e', Flat(p.history)) && (p.history == [] ==> e'.All() == [])
  {
    var e, entries := p.engine, Negation(p.engine, rows);
    RetractionLands(p, rows);
    assert e.All() == [] ==> entries == map[];
    hide Missing, Flat, AppendRetraction, Negation, Distinct, Valid, Accounted;
    if entries != map[] { DatedAppend(e, entries, Flat(p.history)); }
  }

  /** A batch that names the next epoch is new, and as well accounted for. */
  lemma DatedAppend(e: Compute, entries: map<string, int>, flat: seq<Piece>)
    requires Valid(e) && Accounted(e, flat)
    requires forall b :: b in e.pending && b.token.Retraction? ==> b.token.epoch <= e.epoch
    ensures var e' := e.(pending := e.pending + [Batch(Retraction(e.epoch + 1, entries), entries)]); Valid(e') && Accounted(e', flat)
  {
    var b := Batch(Retraction(e.epoch + 1, entries), entries);
    var e' := e.(pending := e.pending + [b]);
    assert e'.All() == e.All() + [b];
    assert forall c :: c in e.All() ==> c.token != b.token;
  }

  /** A retraction takes nothing off what is still to land. */
  lemma RetractionKeepsMissing(p: Plane, rows: set<string>, sealed: bool)
    requires Inv(p) && p.mode != Down
    ensures var p', flat := Step(p, Retracting(rows, sealed)), Flat(p.history);
            p'.engine.All() == AppendRetraction(p.engine, rows).All() && Missing(p'.engine.All(), flat) == Missing(p.engine.All(), flat)
  {
    var e, entries := p.engine, Negation(p.engine, rows);
    RetractionLands(p, rows);
    var b := Batch(Retraction(e.epoch + 1, entries), entries);
    if entries != map[] {
      assert AppendRetraction(e, rows).All() == e.All() + [b];
      MissingIgnores(e.All(), [b], Flat(p.history));
    }
  }

  lemma RetractingKeepsInv(p: Plane, ev: Event)
    requires Inv(p) && ev.Retracting? && p.mode != Down
    ensures Inv(Step(p, ev))
  {
    RetractionAccounted(p, ev.rows);
    RetractionKeepsMissing(p, ev.rows, ev.sealed);
    SealAccounted(AppendRetraction(p.engine, ev.rows), Flat(p.history));
    hide Missing, Flat, AppendRetraction, Negation, Distinct, Valid, Accounted;
  }

  lemma RecoveringKeepsInv(p: Plane, m: nat, n: nat)
    requires Inv(p) && m < |p.history| && n <= |p.history[m]|
    ensures Inv(Step(p, Recovering(m, n)))
    ensures exists bs :: bs <= Flat(p.history) && Partial(p.engine, p.history, m, n).All() == p.engine.All() + Missing(p.engine.All(), bs)
  {
    var e, flat := p.engine, Flat(p.history);
    AccountedAgrees(e, flat);
    var whole, part := Flat(p.history[..m]), p.history[m][..n];
    PartIsPrefix(p.history, m, n);
    FlatPrefix(p.history, m);
    assert Dated(e) && forall b :: b in whole + part ==> b in flat;
    hide Dated, Distinct, Agree, Missing, Valid, Flat, Accounted, Recover, Offer;
    PrefixParts(flat, whole + part, e.All());
    DistinctParts(whole, part);
    AgreeParts(e.All(), whole, part);
    RecoverAddsMissing(e, p.history[..m]);
    RecoverDated(e, p.history[..m]);
    var e1 := Recover(e, p.history[..m]).value;
    OfferAfter(e, e1, whole, part);
    OfferDated(e1, part);
    MissingOnly(e.All(), whole + part, flat);
    AccountedMore(e, Offer(e1, part).value, flat, Missing(e.All(), whole + part));
  }

  /** What a cut recovery got to is a prefix of the flattened history. */
  lemma PartIsPrefix(history: History, m: nat, n: nat)
    requires m < |history| && n <= |history[m]|
    ensures Flat(history[..m]) + history[m][..n] <= Flat(history)
  {
    FlatPrefix(history, m + 1);
    assert history[..m + 1][..m] == history[..m];
    assert history[m] == history[m][..n] + history[m][n..];
  }

  /** Offering on top of what an earlier offer added. */
  lemma OfferAfter(e: Compute, e1: Compute, a: seq<Piece>, b: seq<Piece>)
    requires Valid(e1) && e1.All() == e.All() + Missing(e.All(), a) && Distinct(a + b) && Agree(e.All(), a + b)
    ensures Offer(e1, b).Ok? && Valid(Offer(e1, b).value) && Offer(e1, b).value.All() == e.All() + Missing(e.All(), a + b)
  {
    AgreeAfter(e.All(), a, b);
    MissingAfter(e.All(), a, b);
    DistinctParts(a, b);
    hide Distinct, Agree, Missing, Valid;
    OfferAddsMissing(e1, b);
  }

  lemma Recovered(e: Compute, history: History)
    requires Valid(e) && Distinct(Flat(history)) && Accounted(e, Flat(history))
    requires forall b :: b in Flat(history) ==> b.token.Captured?
    ensures Recover(e, history).Ok?
    ensures var e' := Recover(e, history).value;
            && Valid(e') && Accounted(e', Flat(history)) && e'.All() == e.All() + Missing(e.All(), Flat(history))
            && Missing(e'.All(), Flat(history)) == []
  {
    var flat := Flat(history);
    assert Dated(e);
    hide Dated, Distinct, Missing, Valid, Flat, Accounted, Recover;
    AccountedAgrees(e, flat);
    RecoverAddsMissing(e, history);
    RecoverDated(e, history);
    MissingOnly(e.All(), flat, flat);
    AccountedMore(e, Recover(e, history).value, flat, Missing(e.All(), flat));
    NothingMissing(e.All(), flat);
  }

  lemma ReopeningKeepsInv(p: Plane)
    requires Inv(p)
    ensures Inv(Step(p, Reopening))
    ensures Step(p, Reopening).engine.All() == p.engine.All() + Missing(p.engine.All(), Flat(p.history))
  {
    assert p.history == [] ==> Flat(p.history) == [] && Missing(p.engine.All(), []) == [];
    hide Distinct, Missing, Valid, Flat, Accounted, Recover;
    Recovered(p.engine, p.history);
    AccountedAgrees(p.engine, Flat(p.history));
    RecoverAddsMissing(p.engine, p.history);
  }

  lemma StepKeepsInv(p: Plane, ev: Event)
    requires Inv(p) && Fresh(p, ev)
    ensures Inv(Step(p, ev))
  {
    match ev
    case Writing(_, _) => if p.mode == Serving { WritingKeepsInv(p, ev); }
    case Retracting(_, _) => if p.mode != Down { RetractingKeepsInv(p, ev); }
    case Recovering(m, n) => if m < |p.history| && n <= |p.history[m]| { RecoveringKeepsInv(p, m, n); }
    case Reopening => ReopeningKeepsInv(p);
  }

  ghost predicate Proper(events: seq<Event>) {
    events == [] || (Proper(events[..|events| - 1]) && Fresh(Run(events[..|events| - 1]), events[|events| - 1]))
  }

  lemma {:induction false} RunInv(events: seq<Event>)
    requires Proper(events)
    ensures Inv(Run(events))
  {
    if events != [] {
      RunInv(events[..|events| - 1]);
      hide Inv, Step;
      StepKeepsInv(Run(events[..|events| - 1]), events[|events| - 1]);
    }
  }

  lemma RunMore(events: seq<Event>, ev: Event)
    requires Proper(events) && Fresh(Run(events), ev)
    ensures Proper(events + [ev]) && Run(events + [ev]) == Step(Run(events), ev)
  {
    assert (events + [ev])[..|events|] == events;
  }

  // ---- results -----------------------------------------------------------------------------------------------

  /** The retraction epochs among the admitted batches. */
  ghost function Retractions(all: seq<Piece>): seq<Piece> {
    if all == [] then [] else
      var b := all[|all| - 1];
      Retractions(all[..|all| - 1]) + if b.token.Retraction? then [b] else []
  }

  lemma {:induction false} SplitNet(all: seq<Piece>, i: nat, r: string)
    requires i < |all|
    ensures Net(all, r) == Net(all[..i] + all[i + 1..], r) + Weight(all[i], r)
  {
    assert all == all[..i] + ([all[i]] + all[i + 1..]);
    NetConcat(all[..i], [all[i]] + all[i + 1..], r);
    NetConcat([all[i]], all[i + 1..], r);
    NetConcat(all[..i], all[i + 1..], r);
    NetSingle(all[i], r);
  }

  lemma {:induction false} RetractionsConcat(a: seq<Piece>, b: seq<Piece>)
    ensures Retractions(a + b) == Retractions(a) + Retractions(b)
  {
    if b == [] {
      assert a + b == a;
    } else {
      assert (a + b)[..|a + b| - 1] == a + b[..|b| - 1];
      RetractionsConcat(a, b[..|b| - 1]);
    }
  }

  lemma {:induction false} AllRetractions(all: seq<Piece>)
    requires forall b :: b in all ==> b.token.Retraction?
    ensures Retractions(all) == all
  {
    if all != [] {
      var init, last := all[..|all| - 1], all[|all| - 1];
      assert all == init + [last] && last in all;
      AllRetractions(init);
    }
  }

  /** Batches under distinct tokens weigh what the captured ones and the retractions weigh apart. */
  lemma {:induction false} NetSplits(all: seq<Piece>, flat: seq<Piece>, r: string)
    requires Distinct(all) && Distinct(flat)
    requires forall b :: b in flat ==> b.token.Captured? && b in all
    requires forall b :: b in all && b.token.Captured? ==> b in flat
    ensures Net(all, r) == Net(flat, r) + Net(Retractions(all), r)
  {
    if flat == [] {
      AllRetractions(all);
    } else {
      var b, rest := flat[|flat| - 1], flat[..|flat| - 1];
      assert b in flat;
      var i :| 0 <= i < |all| && all[i] == b;
      var others := all[..i] + all[i + 1..];
      OneRemoved(all, i);
      LastRemoved(flat);
      RetractionsWithout(all, i);
      SplitNet(all, i, r);
      NetSplits(others, rest, r);
      hide Retractions, Distinct;
    }
  }

  lemma RetractionsWithout(all: seq<Piece>, i: nat)
    requires i < |all| && all[i].token.Captured?
    ensures Retractions(all[..i] + all[i + 1..]) == Retractions(all)
  {
    var b := all[i];
    assert all == all[..i] + ([b] + all[i + 1..]);
    RetractionsConcat(all[..i], [b] + all[i + 1..]);
    RetractionsConcat([b], all[i + 1..]);
    RetractionsConcat(all[..i], all[i + 1..]);
    assert Retractions([b]) == [];
    assert [] + Retractions(all[i + 1..]) == Retractions(all[i + 1..]);
  }

  lemma OneRemoved(all: seq<Piece>, i: nat)
    requires Distinct(all) && i < |all|
    ensures var others := all[..i] + all[i + 1..];
            Distinct(others) && forall b :: b in others <==> b in all && b != all[i]
  {
    var others := all[..i] + all[i + 1..];
    forall b | b in all && b != all[i] ensures b in others {
      var j :| 0 <= j < |all| && all[j] == b;
      assert others[if j < i then j else j - 1] == b;
    }
    forall b | b in others ensures b in all && b != all[i] {
      var j :| 0 <= j < |others| && others[j] == b;
      assert all[if j < i then j else j + 1] == b;
    }
  }

  lemma LastRemoved(flat: seq<Piece>)
    requires flat != [] && Distinct(flat)
    ensures var rest := flat[..|flat| - 1];
            Distinct(rest) && forall b :: b in rest <==> b in flat && b != flat[|flat| - 1]
  {
    OneRemoved(flat, |flat| - 1);
    assert flat[..|flat| - 1] + flat[|flat|..] == flat[..|flat| - 1];
  }

  /**
   Every batch counts exactly once. After any run that ends serving, whatever crashed and however often
   history was offered again, each batch of a committed capture is admitted under exactly one index, everything is
   sealed, and the visible Z-set is the committed captures' plus the retraction epochs'.
   */
  lemma EveryBatchOnce(events: seq<Event>, r: string)
    requires Proper(events) && Serves(events)
    ensures var e, flat := Run(events).engine, Flat(Committed(events));
            && e.pending == []
            && (forall b :: b in flat ==> exists i :: 0 <= i < |e.sealed| && e.sealed[i] == b)
            && (forall i, j :: 0 <= i < j < |e.sealed| ==> e.sealed[i].token != e.sealed[j].token)
            && Net(e.sealed, r) == Net(flat, r) + Net(Retractions(e.sealed), r)
  {
    RunInv(events);
    HistoryIsCommitted(events);
    var p := Run(events);
    hide Run, Proper, Serves, Committed;
    assert p.engine.All() == p.engine.sealed;
    forall b | b in Flat(p.history) ensures b in p.engine.sealed { ServedBatch(p, b); }
    hide Missing;
    NetSplits(p.engine.sealed, Flat(p.history), r);
  }

  lemma ServedBatch(p: Plane, b: Piece)
    requires Inv(p) && p.mode == Serving && b in Flat(p.history)
    ensures b in p.engine.All()
  {
    var all, flat := p.engine.All(), Flat(p.history);
    MissingElement(all, flat, b);
    AccountedAgrees(p.engine, flat);
    hide Missing, Flat, Distinct, Valid, Accounted;
    var known := Find(all, b.token).value;
    var i :| 0 <= i < |all| && all[i] == known;
    var j :| 0 <= j < |flat| && flat[j] == b;
  }

  // ---- what was committed, from the events alone ------------------------------------------------------------------

  /** A capture that did not land whole, a retraction that was not sealed, a recovery that did not complete. */
  ghost predicate Stops(ev: Event) {
    (ev.Writing? && !ev.fate.Lands?) || (ev.Retracting? && !ev.sealed) || ev.Recovering?
  }

  /** Every stop was followed by a recovery that completed. */
  ghost predicate Serves(events: seq<Event>) {
    forall i :: 0 <= i < |events| && Stops(events[i]) ==> exists j :: i < j < |events| && events[j].Reopening?
  }

  /** The captures written while the plane served. */
  ghost function Committed(events: seq<Event>): History {
    if events == [] then [] else
      var init, last := events[..|events| - 1], events[|events| - 1];
      Committed(init) + if last.Writing? && Serves(init) then [last.bs] else []
  }

  lemma ServesNext(events: seq<Event>)
    requires events != []
    ensures var init, last := events[..|events| - 1], events[|events| - 1];
            Serves(events) <==> last.Reopening? || (Serves(init) && !Stops(last))
  {
    var init, n := events[..|events| - 1], |events| - 1;
    assert forall i :: 0 <= i < n ==> init[i] == events[i];
    if Serves(events) && !events[n].Reopening? {
      forall i | 0 <= i < n && Stops(init[i]) ensures exists j :: i < j < n && init[j].Reopening? {
        assert Stops(events[i]);
        var j :| i < j < |events| && events[j].Reopening?;
        assert init[j].Reopening?;
      }
    }
    if Serves(init) && !Stops(events[n]) {
      forall i | 0 <= i < |events| && Stops(events[i]) ensures exists j :: i < j < |events| && events[j].Reopening? {
        assert Stops(init[i]);
        var j :| i < j < n && init[j].Reopening?;
        assert events[j].Reopening?;
      }
    }
  }

  /** The history recovery offers is every capture written while the plane served, and it serves unless stopped since. */
  lemma {:induction false} HistoryIsCommitted(events: seq<Event>)
    ensures Run(events).history == Committed(events)
    ensures Run(events).mode == Serving <==> Serves(events)
  {
    if events != [] {
      HistoryIsCommitted(events[..|events| - 1]);
      ServesNext(events);
      hide Serves, Offer, ApplyCapture, Recover, AppendRetraction, Negation, Partial;
    }
  }

  /** A row is gone for good: it weighs nothing, and nothing that could still be offered weighs it. */
  ghost predicate Gone(p: Plane, r: string) {
    Net(p.engine.All(), r) == 0 && forall b :: b in Missing(p.engine.All(), Flat(p.history)) ==> Weight(b, r) == 0
  }

  lemma {:induction false} WeightlessNet(bs: seq<Piece>, r: string)
    requires forall b :: b in bs ==> Weight(b, r) == 0
    ensures Net(bs, r) == 0
  {
    if bs != [] { WeightlessNet(bs[..|bs| - 1], r); }
  }

  lemma NegationCancels(p: Plane, rows: set<string>, r: string)
    requires Inv(p) && p.mode != Down && r in rows
    ensures Net(AppendRetraction(p.engine, rows).All(), r) == 0
  {
    var e := p.engine;
    var entries := Negation(e, rows);
    RetractionLands(p, rows);
    var b := Batch(Retraction(e.epoch + 1, entries), entries);
    hide Inv, Valid, AppendRetraction;
    if entries == map[] {
      assert Net(e.All(), r) != 0 ==> r in entries;
    } else {
      assert AppendRetraction(e, rows).All() == e.All() + [b];
      NetAppend(e.All(), b, r);
    }
  }

  /**
   A completed retraction takes its rows to zero, and they are gone for good exactly if no batch that has
   yet to land weighs them: on every serving plane, and on one that is behind when the refused capture does not.
   */
  lemma RetractionIsGone(p: Plane, rows: set<string>, r: string)
    requires Inv(p) && p.mode != Down && r in rows
    ensures var p' := Step(p, Retracting(rows, true));
            && Net(p'.engine.All(), r) == 0
            && (Gone(p', r) <==> forall b :: b in Missing(p.engine.All(), Flat(p.history)) ==> Weight(b, r) == 0)
            && (p.mode == Serving ==> Gone(p', r))
  {
    RetractionKeepsMissing(p, rows, true);
    NegationCancels(p, rows, r);
    hide AppendRetraction, Net, Missing, Flat, Valid, Distinct, Accounted;
  }

  /** Exactly what a retraction takes, sealed or not: all of its own rows' weight, and nothing of any other row's. */
  lemma RetractionTakesExactly(p: Plane, rows: set<string>, sealed: bool, r: string)
    requires Inv(p) && p.mode != Down
    ensures Net(Step(p, Retracting(rows, sealed)).engine.All(), r) == if r in rows then 0 else Net(p.engine.All(), r)
  {
    RetractionKeepsMissing(p, rows, sealed);
    if r in rows {
      NegationCancels(p, rows, r);
    } else {
      var e, entries := p.engine, Negation(p.engine, rows);
      RetractionLands(p, rows);
      var b := Batch(Retraction(e.epoch + 1, entries), entries);
      if entries != map[] {
        assert AppendRetraction(e, rows).All() == e.All() + [b];
        NetAppend(e.All(), b, r);
      }
    }
  }

  lemma MissingShrinks(all: seq<Piece>, more: seq<Piece>, flat: seq<Piece>, b: Piece)
    requires b in Missing(all + more, flat)
    ensures b in Missing(all, flat)
  {
    MissingElement(all + more, flat, b);
    MissingElement(all, flat, b);
    if Find(all, b.token).Some? {
      FindIn(all + more, Find(all, b.token).value);
    }
  }

  /** Adding only batches that are missing keeps a gone row gone. */
  lemma GoneAfter(p: Plane, p': Plane, bs: seq<Piece>, r: string)
    requires Gone(p, r) && p'.history == p.history && bs <= Flat(p.history)
    requires p'.engine.All() == p.engine.All() + Missing(p.engine.All(), bs)
    ensures Gone(p', r)
  {
    var all, flat := p.engine.All(), Flat(p.history);
    var more := Missing(all, bs);
    forall b | b in more ensures Weight(b, r) == 0 {
      MissingElement(all, bs, b);
      MissingElement(all, flat, b);
    }
    WeightlessNet(more, r);
    NetConcat(all, more, r);
    forall b | b in Missing(p'.engine.All(), flat) ensures Weight(b, r) == 0 { MissingShrinks(all, more, flat, b); }
  }

  lemma RetractingKeepsGone(p: Plane, rows: set<string>, sealed: bool, r: string)
    requires Inv(p) && p.mode != Down && Gone(p, r)
    ensures Gone(Step(p, Retracting(rows, sealed)), r)
  {
    var e, entries := p.engine, Negation(p.engine, rows);
    RetractionLands(p, rows);
    RetractionKeepsMissing(p, rows, sealed);
    var b := Batch(Retraction(e.epoch + 1, entries), entries);
    if entries != map[] {
      assert AppendRetraction(e, rows).All() == e.All() + [b];
      NetAppend(e.All(), b, r);
    }
  }

  lemma GoneGrows(all: seq<Piece>, flat: seq<Piece>, bs: seq<Piece>, part: seq<Piece>, r: string)
    requires Net(all, r) == 0 && part <= bs
    requires forall b :: b in Missing(all, flat) || b in bs ==> Weight(b, r) == 0
    ensures var after := all + Missing(all, part);
            Net(after, r) == 0 && forall b :: b in Missing(after, flat + bs) ==> Weight(b, r) == 0
  {
    hide Missing, Net, Weight, Find;
    var more := Missing(all, part);
    MissingOnly(all, part, bs);
    WeightlessNet(more, r);
    NetConcat(all, more, r);
    forall b | b in Missing(all + more, flat + bs) ensures Weight(b, r) == 0 {
      MissingShrinks(all, more, flat + bs, b);
      MissingElement(all, flat + bs, b);
      MissingElement(all, flat, b);
    }
  }

  lemma WritingKeepsGone(p: Plane, ev: Event, r: string)
    requires Inv(p) && p.mode == Serving && Gone(p, r) && ev.Writing? && Fresh(p, ev)
    requires forall b :: b in ev.bs ==> Weight(b, r) == 0
    ensures Gone(Step(p, ev), r)
  {
    hide Missing, Offer, Flat, Net, Weight, Distinct, Agree, Valid, Accounted;
    var e, flat, bs := p.engine, Flat(p.history), ev.bs;
    NewAgrees(p, bs);
    var part := Offered(bs, ev.fate);
    PrefixParts(bs, part, e.All());
    OfferAddsMissing(e, part);
    GoneGrows(e.All(), flat, bs, part, r);
  }

  ghost predicate Avoids(ev: Event, r: string) {
    ev.Writing? ==> forall b :: b in ev.bs ==> Weight(b, r) == 0
  }

  lemma StepKeepsGone(p: Plane, ev: Event, r: string)
    requires Inv(p) && Fresh(p, ev) && Gone(p, r) && Avoids(ev, r)
    ensures Gone(Step(p, ev), r)
  {
    match ev
    case Writing(_, _) => if p.mode == Serving { WritingKeepsGone(p, ev, r); }
    case Retracting(rows, sealed) => if p.mode != Down { RetractingKeepsGone(p, rows, sealed, r); }
    case Recovering(m, n) =>
      if m < |p.history| && n <= |p.history[m]| {
        RecoveringKeepsInv(p, m, n);
        var bs :| bs <= Flat(p.history) && Partial(p.engine, p.history, m, n).All() == p.engine.All() + Missing(p.engine.All(), bs);
        GoneAfter(p, Step(p, ev), bs, r);
      }
    case Reopening =>
      ReopeningKeepsInv(p);
      GoneAfter(p, Step(p, ev), Flat(p.history), r);
  }

  /**
   A retracted row never comes back: once gone, it stays gone through every later run of crashes, refused
   captures, partial and complete re-offers of the whole history, further retractions and writes that do not
   weigh it.
   */
  lemma {:induction false} RetractedStaysGone(before: seq<Event>, after: seq<Event>, r: string)
    requires Proper(before + after) && Gone(Run(before), r)
    requires forall ev :: ev in after ==> Avoids(ev, r)
    ensures Gone(Run(before + after), r)
    decreases |after|
  {
    if after == [] {
      assert before + after == before;
    } else {
      var init, last := after[..|after| - 1], after[|after| - 1];
      assert (before + after)[..|before + after| - 1] == before + init && last in after;
      var p := Run(before + init);
      assert Proper(before + init) && Fresh(p, last) && Run(before + after) == Step(p, last);
      hide Gone, Step, Avoids, Inv, Fresh, Proper, Run;
      RetractedStaysGone(before, init, r);
      RunInv(before + init);
      StepKeepsGone(p, last, r);
    }
  }

  /**
   Exactly when a retraction is undone by the next reopening: the row returns with the net weight of the
   batches that had not landed when it was retracted.
   */
  lemma RetractionUndoneExactly(p: Plane, rows: set<string>, r: string)
    requires Inv(p) && p.mode != Down && r in rows
    ensures Net(Step(Step(p, Retracting(rows, true)), Reopening).engine.All(), r) == Net(Missing(p.engine.All(), Flat(p.history)), r)
  {
    var p' := Step(p, Retracting(rows, true));
    RetractingKeepsInv(p, Retracting(rows, true));
    RetractionKeepsMissing(p, rows, true);
    NegationCancels(p, rows, r);
    hide AppendRetraction, Net, Missing, Flat, Inv, Step;
    ReopeningAddsUnlanded(p', r);
  }

  const LANDED := Batch(Captured("c1", "t"), map["row" := 1])
  const UNLANDED := Batch(Captured("c2", "t"), map["row" := 1])

  lemma LandedWorld()
    ensures Step(Run([]), Writing([LANDED], Lands)) == Plane(Engine([LANDED], [], 1), [[LANDED]], Serving)
  {
    var empty: Compute := Engine([], [], 0);
    assert [LANDED][..0] == [] && empty.All() == [];
    assert Offer(empty, []) == Ok(empty);
    assert [] + [LANDED] == [LANDED] && Ingest(empty, LANDED) == Ok((Engine([], [LANDED], 0), Appended));
    assert Offer(empty, [LANDED]) == Ok(Engine([], [LANDED], 0));
    assert [] + [[LANDED]] == [[LANDED]];
  }

  lemma StoppedWorld()
    ensures var p := Plane(Engine([LANDED], [], 1), [[LANDED]], Serving);
            Step(p, Writing([UNLANDED], Refused(0))) == Plane(p.engine, [[LANDED], [UNLANDED]], Behind)
  {
    assert [[LANDED]] + [[UNLANDED]] == [[LANDED], [UNLANDED]];
    assert [UNLANDED][..0] == [];
  }

  lemma FlatWorld()
    ensures Flat([]) == [] && Flat([[LANDED]]) == [LANDED] && Flat([[LANDED], [UNLANDED]]) == [LANDED, UNLANDED]
    ensures Missing([LANDED], [LANDED, UNLANDED]) == [UNLANDED]
  {
    assert [[LANDED]][..0] == [] && [[LANDED], [UNLANDED]][..1] == [[LANDED]];
    assert Flat([[LANDED]]) == [] + [LANDED];
    FindIn([LANDED], LANDED);
    assert [LANDED][..0] == [] && [LANDED, UNLANDED][..1] == [LANDED];
    assert Missing([LANDED], [LANDED]) == [] + [];
  }

  /** The plane after one capture landed and the next was refused before its first batch. */
  lemma RefusedWorld()
    ensures var events := [Writing([LANDED], Lands), Writing([UNLANDED], Refused(0))];
            && Proper(events) && Run(events) == Plane(Engine([LANDED], [], 1), [[LANDED], [UNLANDED]], Behind)
            && Missing([LANDED], Flat([[LANDED], [UNLANDED]])) == [UNLANDED]
  {
    var one, two := Writing([LANDED], Lands), Writing([UNLANDED], Refused(0));
    assert [one] + [two] == [one, two] && [] + [one] == [one];
    NewWorld();
    FreshWorld();
    hide Missing, Flat, Find, Step, Proper, Run, Fresh;
    LandedWorld();
    StoppedWorld();
    FlatWorld();
    RunMore([], one);
    RunMore([one], two);
  }

  lemma NewWorld()
    ensures Run([]) == Plane(Engine([], [], 0), [], Serving) && Proper([])
  {
  }

  lemma FreshWorld()
    ensures Fresh(Plane(Engine([], [], 0), [], Serving), Writing([LANDED], Lands))
    ensures Fresh(Plane(Engine([LANDED], [], 1), [[LANDED]], Serving), Writing([UNLANDED], Refused(0)))
  {
    FlatWorld();
    hide Flat, Missing;
    assert [] + [LANDED] == [LANDED] && [LANDED] + [UNLANDED] == [LANDED, UNLANDED];
  }

  /** A run whose retraction does not last: a second capture of the row is refused, the row retracted, the plane reopened. */
  lemma RefusedCaptureUndoesRetraction()
    ensures var refused := [Writing([LANDED], Lands), Writing([UNLANDED], Refused(0))];
            var retracted := refused + [Retracting({"row"}, true)];
            && Proper(retracted + [Reopening])
            && Net(Run(retracted).engine.All(), "row") == 0
            && Net(Run(retracted + [Reopening]).engine.All(), "row") == 1
  {
    var refused := [Writing([LANDED], Lands), Writing([UNLANDED], Refused(0))];
    var retracting := Retracting({"row"}, true);
    var p := Run(refused);
    NetSingle(UNLANDED, "row");
    assert Weight(UNLANDED, "row") == 1;
    hide Step, Inv, Net, Missing, Flat, Weight, Proper, Run;
    RefusedWorld();
    RunInv(refused);
    RunMore(refused, retracting);
    RunMore(refused + [retracting], Reopening);
    assert p.engine.All() == [LANDED];
    RetractionIsGone(p, {"row"}, "row");
    RetractionUndoneExactly(p, {"row"}, "row");
  }

  /**
   Exactly what reopening changes: a row's weight moves by the batches that had not landed, so offering
   a history that has landed changes nothing, and a retracted row returns only with an unlanded batch.
   */
  lemma ReopeningAddsUnlanded(p: Plane, r: string)
    requires Inv(p)
    ensures var e' := Step(p, Reopening).engine;
            && Net(e'.All(), r) == Net(p.engine.All(), r) + Net(Missing(p.engine.All(), Flat(p.history)), r)
            && (p.mode == Serving ==> e'.All() == p.engine.All())
  {
    ReopeningKeepsInv(p);
    NetConcat(p.engine.All(), Missing(p.engine.All(), Flat(p.history)), r);
  }

  // ---- the code's form -----------------------------------------------------------------------------------

  class OfferingPlane {
    var engine: Compute

    /** Offer a capture's batches; dedup drops what already landed; seal if anything is pending. */
    method Apply(bs: seq<Piece>) returns (r: Result<nat, IngestError>)
      modifies this
      ensures r.Ok? <==> ApplyCapture(old(engine), bs).Ok?
      ensures r.Ok? ==> Ok(engine) == ApplyCapture(old(engine), bs) && engine.pending == [] && engine.epoch == r.value
      ensures r.Ok? ==> engine.epoch == old(engine).epoch + if engine.sealed == old(engine).sealed then 0 else 1
      ensures Valid(old(engine)) && Distinct(bs) ==> (r.Ok? <==> Agree(old(engine).All(), bs))
      ensures Valid(old(engine)) && Distinct(bs) && r.Ok? ==> engine.sealed == old(engine).All() + Missing(old(engine).All(), bs)
    {
      ApplyExactly(engine, bs);
      hide Valid, Distinct, Agree, Missing;
      var i := 0;
      while i < |bs|
        invariant 0 <= i <= |bs| && Offer(old(engine), bs[..i]) == Ok(engine)
      {
        assert bs[..i + 1][..i] == bs[..i];
        var ingested := Ingest(engine, bs[i]);
        if ingested.Err? {
          OfferStops(old(engine), bs, i + 1);
          return Err(ingested.error);
        }
        engine := ingested.value.0;
        i := i + 1;
      }
      assert bs[..i] == bs;
      engine := SealIfPending(engine);
      r := Ok(engine.epoch);
    }

    method RecoverAll(history: History) returns (r: Result<nat, IngestError>)
      modifies this
      ensures r.Ok? <==> Recover(old(engine), history).Ok?
      ensures r.Ok? ==> Ok(engine) == Recover(old(engine), history)
    {
      var i := 0;
      while i < |history|
        invariant 0 <= i <= |history| && Recover(old(engine), history[..i]) == Ok(engine)
      {
        assert history[..i + 1][..i] == history[..i];
        ghost var before := engine;
        var applied := Apply(history[i]);
        if applied.Err? {
          RecoverStops(old(engine), history, i + 1);
          return Err(applied.error);
        }
        i := i + 1;
      }
      assert history[..i] == history;
      r := Ok(engine.epoch);
    }

    constructor ()
      ensures engine == Engine([], [], 0)
    {
      engine := Engine([], [], 0);
    }
  }

  lemma ApplyExactly(e: Compute, bs: seq<Piece>)
    ensures ApplyCapture(e, bs).Ok? ==>
              var e' := ApplyCapture(e, bs).value; e'.epoch == e.epoch + if e'.sealed == e.sealed then 0 else 1
    ensures Valid(e) && Distinct(bs) ==>
              && (ApplyCapture(e, bs).Ok? <==> Agree(e.All(), bs))
              && (ApplyCapture(e, bs).Ok? ==> ApplyCapture(e, bs).value.sealed == e.All() + Missing(e.All(), bs))
  {
    if Offer(e, bs).Ok? {
      OfferSeals(e, bs);
      if Valid(e) && Distinct(bs) { OfferAgrees(e, bs); }
    }
    if Valid(e) && Distinct(bs) && Agree(e.All(), bs) { ApplyAddsMissing(e, bs); }
    hide Valid, Distinct, Agree, Missing, Offer;
  }

  lemma {:induction false} OfferSeals(e: Compute, bs: seq<Piece>)
    requires Offer(e, bs).Ok?
    ensures Offer(e, bs).value.sealed == e.sealed && Offer(e, bs).value.epoch == e.epoch
  {
    if bs != [] { OfferSeals(e, bs[..|bs| - 1]); }
  }

  lemma {:induction false} OfferStops(e: Compute, bs: seq<Piece>, n: nat)
    requires n <= |bs| && Offer(e, bs[..n]).Err?
    ensures Offer(e, bs).Err?
  {
    if n < |bs| {
      assert bs[..|bs| - 1][..n] == bs[..n];
      OfferStops(e, bs[..|bs| - 1], n);
    } else {
      assert bs[..n] == bs;
    }
  }

  lemma {:induction false} RecoverStops(e: Compute, history: History, n: nat)
    requires n <= |history| && Recover(e, history[..n]).Err?
    ensures Recover(e, history).Err?
  {
    if n < |history| {
      assert history[..|history| - 1][..n] == history[..n];
      RecoverStops(e, history[..|history| - 1], n);
    } else {
      assert history[..n] == history;
    }
  }
}
