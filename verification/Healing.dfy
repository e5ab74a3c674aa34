/**
 What a completed taint means: two taints compose in either order to the world without the joint
 closure, and a healed world is the world in which the downstream writes were never ingested, exactly
 when no clean write shares a row with a downstream one.
 */
module Healing {
  import opened Order
  import opened Engines
  import opened Resolution
  import opened Taint

  // ---- taints compose --------------------------------------------------------------------------

  ghost function Tainted(cfg: Config, w: World, src: Source): World {
    After(cfg, w, src, EdgesRetracted)
  }

  predicate HasId(r: Row) { r.Payload? || r.Derivation? }

  function IdOf(r: Row): RowId
    requires HasId(r)
  {
    if r.Payload? then r.id else r.edge.row.Id()
  }

  lemma HealedEdges(cfg: Config, w0: World, src: Source, w: World)
    requires Healed(cfg, w0, src, w)
    ensures Edges(w.engine) == Without(Edges(w0.engine), Ids(Contamination(w0, src)))
  {
    var rows := Contamination(w0, src);
    forall edge ensures edge in Edges(w.engine) <==> edge in Without(Edges(w0.engine), Ids(rows)) {
      EdgeIn(w.engine, edge);
      EdgeIn(w0.engine, edge);
      assert Net(w.engine.sealed, Derivation(edge)) == NetAt(w0, src, rows, Target(cfg, w0, src), Derivation(edge));
    }
  }

  /** A healed world is ready for the next taint, of any source. */
  lemma TaintKeepsReady(cfg: Config, w0: World, a: Source, b: Source)
    requires Ready(cfg, w0, a) && Ready(cfg, w0, b)
    ensures Healed(cfg, w0, a, Tainted(cfg, w0, a)) && Ready(cfg, Tainted(cfg, w0, a), b)
  {
    var w := Tainted(cfg, w0, a);
    var rows := Contamination(w0, a);
    TaintResumes(cfg, w0.held, w0, a, []);
    StartMid(cfg, w0, a);
    var done, all := AttemptLands(cfg, w0, a, w0, START, START, EdgesRetracted);
    HealedEdges(cfg, w0, a, w);
    ClosureAfterRemoval(Edges(w0.engine), a, b);
    CoverageKept(cfg, w0, a, w, done, all);
    hide Contamination, After;
    forall s, c ensures Net(w.engine.sealed, Ledger(s, c)) >= 0 {
      assert Net(w.engine.sealed, Ledger(s, c)) == NetAt(w0, a, rows, Target(cfg, w0, a), Ledger(s, c));
    }
    assert Contamination(w, b) <= Contamination(w0, b) by { ContaminationOf(w, b); ContaminationOf(w0, b); }
  }

  lemma ContaminationOf(w: World, src: Source)
    ensures Contamination(w, src) == Closure(Edges(w.engine), src)
  {
  }

  lemma CoverageKept(cfg: Config, w0: World, a: Source, w: World, done: Phase, all: Phase)
    requires Ready(cfg, w0, a) && Mid(cfg, w0, a, w, done, all) && w.engine.pending == []
    ensures LedgerCovers(w)
  {
    var rows := Contamination(w0, a);
    hide Contamination, Remembered;
    forall s, journaled | Knows(w.engine, Journal(s, journaled)) ensures journaled <= Remembered(w, s) {
      forall c | c in journaled ensures c in Remembered(w, s) {
        RememberedIn(w, s, c);
        RememberedIn(w0, s, c);
        assert Net(w.engine.sealed, Ledger(s, c)) == NetAt(w0, a, rows, done, Ledger(s, c));
      }
    }
  }

  /** The world with the rows of `ids` gone and every other payload row and edge as it was. */
  ghost predicate Cleared(w0: World, ids: set<RowId>, w: World) {
    forall r :: HasId(r) ==> Net(w.engine.sealed, r) == if IdOf(r) in ids then 0 else Net(w0.engine.sealed, r)
  }

  lemma HealedIsCleared(cfg: Config, w0: World, src: Source, w: World)
    requires Healed(cfg, w0, src, w) && forall c :: c in Contamination(w0, src) ==> c.table in cfg.tables
    ensures Cleared(w0, Ids(Contamination(w0, src)), w)
  {
    var rows := Contamination(w0, src);
    hide Contamination;
    forall r | HasId(r)
      ensures Net(w.engine.sealed, r) == if IdOf(r) in Ids(rows) then 0 else Net(w0.engine.sealed, r)
    {
      assert Net(w.engine.sealed, r) == NetAt(w0, src, rows, Target(cfg, w0, src), r);
      if r.Payload? && r.id in Ids(rows) {
        var c :| c in rows && c.Id() == r.id;
        assert c.table in Elements(cfg.tables);
      }
    }
  }

  lemma ClearedTwice(w0: World, a: set<RowId>, w1: World, b: set<RowId>, w2: World)
    requires Cleared(w0, a, w1) && Cleared(w1, b, w2)
    ensures Cleared(w0, a + b, w2)
  {
    forall r | HasId(r)
      ensures Net(w2.engine.sealed, r) == if IdOf(r) in a + b then 0 else Net(w0.engine.sealed, r)
    {
      assert Net(w1.engine.sealed, r) == if IdOf(r) in a then 0 else Net(w0.engine.sealed, r);
    }
  }

  lemma TwoTaintsClear(cfg: Config, w0: World, a: Source, b: Source)
    requires Ready(cfg, w0, a) && Ready(cfg, w0, b)
    ensures Cleared(w0, Ids(Contamination(w0, a)) + Ids(Contamination(w0, b)), Tainted(cfg, Tainted(cfg, w0, a), b))
  {
    var w1 := Tainted(cfg, w0, a);
    var w2 := Tainted(cfg, w1, b);
    TaintKeepsReady(cfg, w0, a, b);
    TaintResumes(cfg, w1.held, w1, b, []);
    HealedIsCleared(cfg, w0, a, w1);
    HealedIsCleared(cfg, w1, b, w2);
    HealedEdges(cfg, w0, a, w1);
    ClosureAfterRemoval(Edges(w0.engine), a, b);
    hide After;
    var ca, cb, left := Contamination(w0, a), Contamination(w0, b), Contamination(w1, b);
    assert left == Survivors(cb, Ids(ca));
    ClearedTwice(w0, Ids(ca), w1, Ids(left), w2);
    assert Ids(ca) + Ids(left) == Ids(ca) + Ids(cb);
  }

  /**
   Taints compose: in either order, two taints leave the payload and derivation relations with
   exactly the joint closure removed, whatever the derivation relation looks like.
   */
  lemma TaintsCompose(cfg: Config, w0: World, a: Source, b: Source, r: Row)
    requires Ready(cfg, w0, a) && Ready(cfg, w0, b) && HasId(r)
    ensures var ab := Tainted(cfg, Tainted(cfg, w0, a), b);
            var ba := Tainted(cfg, Tainted(cfg, w0, b), a);
            && Net(ab.engine.sealed, r) == Net(ba.engine.sealed, r)
            && Net(ab.engine.sealed, r)
               == if IdOf(r) in Ids(Contamination(w0, a)) + Ids(Contamination(w0, b)) then 0 else Net(w0.engine.sealed, r)
  {
    hide Contamination, After, Ready;
    TwoTaintsClear(cfg, w0, a, b);
    TwoTaintsClear(cfg, w0, b, a);
  }

  // ---- healing equals never ingesting --------------------------------------------------------

  /** One ingested row: what it holds, what it was derived from, and the envelope that admitted it. */
  datatype Write = Write(row: Contaminated, body: string, sources: set<Source>)

  /** The +1 entries the bridge prepares for one row: its payload row and one edge per source. */
  function Contribution(w: Write, r: Row): nat {
    match r
    case Payload(id, body) => if id == w.row.Id() && body == w.body then 1 else 0
    case Derivation(edge) => if edge.row == w.row && edge.source in w.sources then 1 else 0
    case Ledger(_, _) => 0
  }

  function ReplayNet(history: seq<Write>, r: Row): nat {
    if history == [] then 0
    else ReplayNet(history[..|history| - 1], r) + Contribution(history[|history| - 1], r)
  }

  /** The engine holds exactly what this history ingested. */
  ghost predicate Ingested(history: seq<Write>, w: World) {
    forall r :: HasId(r) ==> Net(w.engine.sealed, r) == ReplayNet(history, r)
  }

  /** Write `i` is within `n` hops of the source: it names the source, or `<table>/<key>` of a row that is. */
  ghost predicate WriteWithin(history: seq<Write>, src: Source, n: nat, i: int) {
    && 0 <= i < |history| && n > 0
    && (src in history[i].sources
        || exists j :: WriteWithin(history, src, n - 1, j) && Source("mutiny", history[j].row.table + "/" + history[j].row.key) in history[i].sources)
  }

  ghost predicate WriteDownstream(history: seq<Write>, src: Source, i: int) {
    exists n: nat :: WriteWithin(history, src, n, i)
  }

  /** The history without every write transitively downstream of the source. */
  ghost function Never(history: seq<Write>, src: Source, k: nat): seq<Write>
    requires k <= |history|
  {
    if k == 0 then []
    else Never(history, src, k - 1) + if WriteDownstream(history, src, k - 1) then [] else [history[k - 1]]
  }

  /** Every write to a row some downstream write wrote is itself downstream. */
  ghost predicate Unshared(history: seq<Write>, src: Source) {
    forall i, j :: 0 <= i < |history| && WriteDownstream(history, src, j) && history[i].row.Id() == history[j].row.Id()
      ==> WriteDownstream(history, src, i)
  }

  lemma {:induction false} ContributionCounts(history: seq<Write>, i: nat, r: Row)
    requires i < |history| && Contribution(history[i], r) > 0
    ensures ReplayNet(history, r) > 0
  {
    if i < |history| - 1 { ContributionCounts(history[..|history| - 1], i, r); }
  }

  lemma {:induction false} CountedContribution(history: seq<Write>, r: Row) returns (i: nat)
    requires ReplayNet(history, r) > 0
    ensures i < |history| && Contribution(history[i], r) > 0
  {
    if Contribution(history[|history| - 1], r) > 0 { return |history| - 1; }
    i := CountedContribution(history[..|history| - 1], r);
  }

  lemma WriteEdge(history: seq<Write>, w: World, edge: Edge)
    requires Ingested(history, w)
    ensures edge in Edges(w.engine) <==> exists i :: 0 <= i < |history| && history[i].row == edge.row && edge.source in history[i].sources
  {
    EdgeIn(w.engine, edge);
    var r := Derivation(edge);
    assert Net(w.engine.sealed, r) == ReplayNet(history, r);
    if edge in Edges(w.engine) {
      var i := CountedContribution(history, r);
    }
    if i :| 0 <= i < |history| && history[i].row == edge.row && edge.source in history[i].sources {
      ContributionCounts(history, i, r);
    }
  }

  lemma {:induction false} WithinIsWriteWithin(history: seq<Write>, w: World, src: Source, n: nat, c: Contaminated)
    requires Ingested(history, w)
    ensures c in Within(Edges(w.engine), src, n) <==> exists i :: WriteWithin(history, src, n, i) && history[i].row == c
  {
    var edges := Edges(w.engine);
    if c in Within(edges, src, n) {
      var e :| e in edges && e.row == c && (e.source == src || e.source in Citations(Within(edges, src, n - 1)));
      WriteEdge(history, w, e);
      var i :| 0 <= i < |history| && history[i].row == c && e.source in history[i].sources;
      if e.source != src {
        var d :| d in Within(edges, src, n - 1) && e.source == Citation(d);
        WithinIsWriteWithin(history, w, src, n - 1, d);
      }
      assert WriteWithin(history, src, n, i);
    }
    if i :| WriteWithin(history, src, n, i) && history[i].row == c {
      if src in history[i].sources {
        WriteEdge(history, w, Edge(c, src));
      } else {
        var j :| WriteWithin(history, src, n - 1, j) && Citation(history[j].row) in history[i].sources;
        WithinIsWriteWithin(history, w, src, n - 1, history[j].row);
        WriteEdge(history, w, Edge(c, Citation(history[j].row)));
      }
    }
  }

  /** The closure resolution finds is the set of rows the downstream writes wrote. */
  lemma ContaminationIsDownstream(history: seq<Write>, w: World, src: Source, c: Contaminated)
    requires Ingested(history, w)
    ensures c in Contamination(w, src) <==> exists i :: WriteDownstream(history, src, i) && history[i].row == c
  {
    hide Within;
    if c in Contamination(w, src) {
      var n: nat :| c in Within(Edges(w.engine), src, n);
      WithinIsWriteWithin(history, w, src, n, c);
      var i :| WriteWithin(history, src, n, i) && history[i].row == c;
      assert WriteDownstream(history, src, i);
    }
    if i :| WriteDownstream(history, src, i) && history[i].row == c {
      var n: nat :| WriteWithin(history, src, n, i);
      WithinIsWriteWithin(history, w, src, n, c);
      WithinRows(Edges(w.engine), src, n, c);
    }
  }

  lemma ContributorId(w: Write, r: Row)
    requires HasId(r) && Contribution(w, r) > 0
    ensures IdOf(r) == w.row.Id()
  {
  }

  lemma ReplayAppend(history: seq<Write>, w: Write, r: Row)
    ensures ReplayNet(history + [w], r) == ReplayNet(history, r) + Contribution(w, r)
  {
    assert (history + [w])[..|history|] == history;
  }

  /** One more write: left out if downstream, and otherwise counted. */
  lemma NeverStep(history: seq<Write>, src: Source, k: nat, r: Row)
    requires 0 < k <= |history|
    ensures ReplayNet(Never(history, src, k), r)
            == ReplayNet(Never(history, src, k - 1), r) + if WriteDownstream(history, src, k - 1) then 0 else Contribution(history[k - 1], r)
  {
    hide WriteDownstream, Contribution, ReplayNet;
    var prior := Never(history, src, k - 1);
    if WriteDownstream(history, src, k - 1) {
      assert prior + [] == prior;
    } else {
      ReplayAppend(prior, history[k - 1], r);
    }
  }

  /** Rows no downstream write wrote weigh the same without the downstream writes. */
  lemma {:induction false} NeverKeepsOthers(history: seq<Write>, src: Source, k: nat, r: Row)
    requires k <= |history| && HasId(r)
    requires forall i :: WriteDownstream(history, src, i) ==> history[i].row.Id() != IdOf(r)
    ensures ReplayNet(Never(history, src, k), r) == ReplayNet(history[..k], r)
  {
    if k > 0 {
      NeverKeepsOthers(history, src, k - 1, r);
      NeverStep(history, src, k, r);
      assert history[..k] == history[..k - 1] + [history[k - 1]];
      ReplayAppend(history[..k - 1], history[k - 1], r);
      if Contribution(history[k - 1], r) > 0 { ContributorId(history[k - 1], r); }
      hide WriteDownstream, Contribution, ReplayNet, Never;
    }
  }

  /** A row written by a clean write is in the world that never saw the downstream ones. */
  lemma {:induction false} NeverCounts(history: seq<Write>, src: Source, k: nat, r: Row, i: nat)
    requires i < k <= |history| && !WriteDownstream(history, src, i) && Contribution(history[i], r) > 0
    ensures ReplayNet(Never(history, src, k), r) > 0
  {
    hide WriteDownstream, Contribution, ReplayNet, Never;
    NeverStep(history, src, k, r);
    if i < k - 1 { NeverCounts(history, src, k - 1, r, i); }
  }

  /** Where every write of a row is downstream, nothing of it is left without them. */
  lemma {:induction false} NeverDrops(history: seq<Write>, src: Source, k: nat, r: Row)
    requires k <= |history| && HasId(r)
    requires forall i :: 0 <= i < |history| && history[i].row.Id() == IdOf(r) ==> WriteDownstream(history, src, i)
    ensures ReplayNet(Never(history, src, k), r) == 0
  {
    if k > 0 {
      hide WriteDownstream, Contribution, ReplayNet, Never;
      NeverDrops(history, src, k - 1, r);
      NeverStep(history, src, k, r);
      if Contribution(history[k - 1], r) > 0 { ContributorId(history[k - 1], r); }
    }
  }

  lemma DownstreamIds(history: seq<Write>, w0: World, src: Source, id: RowId)
    requires Ingested(history, w0)
    ensures id in Ids(Contamination(w0, src)) <==> exists i :: WriteDownstream(history, src, i) && history[i].row.Id() == id
  {
    if id in Ids(Contamination(w0, src)) {
      var c :| c in Contamination(w0, src) && c.Id() == id;
      ContaminationIsDownstream(history, w0, src, c);
    }
    if i :| WriteDownstream(history, src, i) && history[i].row.Id() == id {
      ContaminationIsDownstream(history, w0, src, history[i].row);
    }
  }

  lemma RowNeverIngested(history: seq<Write>, w0: World, src: Source, w: World, r: Row)
    requires Ingested(history, w0) && Unshared(history, src) && HasId(r)
    requires Cleared(w0, Ids(Contamination(w0, src)), w)
    ensures Net(w.engine.sealed, r) == ReplayNet(Never(history, src, |history|), r)
  {
    DownstreamIds(history, w0, src, IdOf(r));
    hide Contamination;
    if IdOf(r) in Ids(Contamination(w0, src)) {
      var i :| WriteDownstream(history, src, i) && history[i].row.Id() == IdOf(r);
      NeverDrops(history, src, |history|, r);
    } else {
      NeverKeepsOthers(history, src, |history|, r);
      assert history[..|history|] == history;
    }
  }

  /**
   Healing equals never ingesting, exactly when no clean write shares a row with a downstream one:
   the healed payload and derivation relations are those of the history without every downstream
   write if and only if every write to a downstream-written row is itself downstream.
   */
  lemma HealingIsNeverIngesting(cfg: Config, history: seq<Write>, w0: World, src: Source)
    requires Ready(cfg, w0, src) && Ingested(history, w0)
    ensures Ingested(Never(history, src, |history|), Tainted(cfg, w0, src)) <==> Unshared(history, src)
  {
    var w := Tainted(cfg, w0, src);
    TaintResumes(cfg, w0.held, w0, src, []);
    HealedIsCleared(cfg, w0, src, w);
    hide After, Contamination, WriteWithin, WriteDownstream;
    if Unshared(history, src) {
      forall r | HasId(r) ensures Net(w.engine.sealed, r) == ReplayNet(Never(history, src, |history|), r) {
        RowNeverIngested(history, w0, src, w, r);
      }
    } else {
      var i, j :| 0 <= i < |history| && WriteDownstream(history, src, j)
        && history[i].row.Id() == history[j].row.Id() && !WriteDownstream(history, src, i);
      var r := Payload(history[i].row.Id(), history[i].body);
      DownstreamIds(history, w0, src, IdOf(r));
      NeverCounts(history, src, |history|, r, i);
      assert Net(w.engine.sealed, r) == 0;
    }
  }

  /** A history in which each (branch, table, key) is written once always heals to never ingesting. */
  lemma WrittenOnceIsUnshared(history: seq<Write>, src: Source)
    requires forall i, j :: 0 <= i < j < |history| ==> history[i].row.Id() != history[j].row.Id()
    ensures Unshared(history, src)
  {
    forall i, j | 0 <= i < |history| && WriteDownstream(history, src, j) && history[i].row.Id() == history[j].row.Id()
      ensures WriteDownstream(history, src, i)
    {
      assert 0 <= j < |history| && i == j;
    }
  }

  /** A clean rewrite of a poisoned row is healed away with it. */
  lemma CleanRewriteIsLost(poison: Source, clean: Source, row: Contaminated, envelope: string, body: string)
    requires poison != clean && clean.system != INTERNAL_SOURCE_SYSTEM
    ensures !Unshared([Write(row, body, {poison}), Write(row.(envelope := envelope), body, {clean})], poison)
  {
    var history := [Write(row, body, {poison}), Write(row.(envelope := envelope), body, {clean})];
    assert WriteWithin(history, poison, 1, 0);
    assert WriteDownstream(history, poison, 0);
    forall n: nat ensures !WriteWithin(history, poison, n, 1) {
      assert forall c: Contaminated :: Citation(c) != clean;
    }
    assert !WriteDownstream(history, poison, 1);
    assert history[1].row.Id() == history[0].row.Id();
  }
}
