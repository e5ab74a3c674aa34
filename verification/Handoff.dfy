/**
 The rows a history of writes stands for are the rows the bridge prepares: the batches of a capture, entry by
 entry with multiplicity, hold what its writes contribute to the ingested world.
 */
module Handoff {
  import O = Order
  import R = Resolution
  import T = Taint
  import H = Healing
  import Q = Queue
  import P = Preparation

  /** How the ids of envelopes, the sources they name and the keys of rows are read. */
  datatype Codec = Codec(idOf: Q.Envelope -> string, read: string -> R.Source, keyOf: string -> string)

  ghost predicate Faithful(c: Codec) {
    && (forall a, b :: c.idOf(a) == c.idOf(b) ==> a == b)
    && (forall s, t :: c.read(s) == c.read(t) ==> s == t)
  }

  /** Every change inserts one row, which carries its own key. */
  ghost predicate Insertions(c: Codec, changes: seq<Q.Change>) {
    forall i :: 0 <= i < |changes| ==> changes[i].weight == 1 && changes[i].key == c.keyOf(changes[i].row)
  }

  ghost predicate Inserts(c: Codec, draft: Q.Draft) {
    forall t :: t in draft.tables ==> Insertions(c, draft.tables[t])
  }

  function Sources(c: Codec, draft: Q.Draft): set<R.Source> { set s | s in draft.envelope.sources :: c.read(s) }

  function WriteOf(c: Codec, draft: Q.Draft, table: string, change: Q.Change): H.Write {
    H.Write(R.Contaminated(draft.branch, table, change.key, c.idOf(draft.envelope)), change.row, Sources(c, draft))
  }

  function TableWrites(c: Codec, draft: Q.Draft, table: string, changes: seq<Q.Change>): seq<H.Write> {
    seq(|changes|, i requires 0 <= i < |changes| => WriteOf(c, draft, table, changes[i]))
  }

  /** The writes of a draft, table by table. */
  function WritesOf(c: Codec, draft: Q.Draft, tables: seq<string>): seq<H.Write>
    requires forall t :: t in tables ==> t in draft.tables
  {
    if tables == [] then [] else
      var t := tables[|tables| - 1];
      WritesOf(c, draft, tables[..|tables| - 1]) + TableWrites(c, draft, t, draft.tables[t])
  }

  lemma {:induction false} ReplayConcat(a: seq<H.Write>, b: seq<H.Write>, r: T.Row)
    ensures H.ReplayNet(a + b, r) == H.ReplayNet(a, r) + H.ReplayNet(b, r)
  {
    if b == [] {
      assert a + b == a;
    } else {
      assert (a + b)[..|a + b| - 1] == a + b[..|b| - 1];
      ReplayConcat(a, b[..|b| - 1], r);
    }
  }

  // ---- derivation rows -----------------------------------------------------------------------------------

  /** The edge an entry of the derivation batch stands for. */
  function EdgeOf(c: Codec, cell: P.Cell): T.Row
    requires cell.Citing?
  {
    T.Derivation(R.Edge(R.Contaminated(cell.branch, cell.table, cell.key, c.idOf(cell.envelope)), c.read(cell.source)))
  }

  lemma OneChange(c: Codec, draft: Q.Draft, table: string, change: Q.Change, cell: P.Cell)
    requires Faithful(c) && cell.Citing? && change.weight == 1
    ensures P.Cited(draft, table, change)[(cell, 1)] == H.Contribution(WriteOf(c, draft, table, change), EdgeOf(c, cell))
  {
    if cell.source in draft.envelope.sources { assert c.read(cell.source) in Sources(c, draft); }
    if c.read(cell.source) in Sources(c, draft) {
      var s :| s in draft.envelope.sources && c.read(s) == c.read(cell.source);
    }
    assert (cell, 1) in P.Cited(draft, table, change)
      <==> cell == P.Citing(draft.branch, table, change.key, cell.source, draft.envelope) && cell.source in draft.envelope.sources;
  }

  lemma WritesLast(c: Codec, draft: Q.Draft, table: string, changes: seq<Q.Change>)
    requires changes != []
    ensures TableWrites(c, draft, table, changes)
            == TableWrites(c, draft, table, changes[..|changes| - 1]) + [WriteOf(c, draft, table, changes[|changes| - 1])]
  {
  }

  lemma ReplayOne(w: H.Write, r: T.Row)
    ensures H.ReplayNet([w], r) == H.Contribution(w, r)
  {
    assert [w][..0] == [];
  }

  lemma {:induction false} TableEdgesAgree(c: Codec, draft: Q.Draft, table: string, changes: seq<Q.Change>, cell: P.Cell)
    requires Faithful(c) && Insertions(c, changes) && cell.Citing?
    ensures P.TableEdges(draft, table, changes)[(cell, 1)] == H.ReplayNet(TableWrites(c, draft, table, changes), EdgeOf(c, cell))
  {
    if changes != [] {
      var init, last := changes[..|changes| - 1], changes[|changes| - 1];
      TableEdgesAgree(c, draft, table, init, cell);
      hide Faithful, P.Cited, H.Contribution, H.ReplayNet, EdgeOf, WriteOf, TableWrites;
      WritesLast(c, draft, table, changes);
      OneChange(c, draft, table, last, cell);
      ReplayConcat(TableWrites(c, draft, table, init), [WriteOf(c, draft, table, last)], EdgeOf(c, cell));
      ReplayOne(WriteOf(c, draft, table, last), EdgeOf(c, cell));
    }
  }

  /** The derivation batch holds each edge as often as the writes derive it. */
  lemma {:induction false} EdgesAreContributions(c: Codec, draft: Q.Draft, tables: seq<string>, cell: P.Cell)
    requires Faithful(c) && Inserts(c, draft) && cell.Citing?
    requires forall t :: t in tables ==> t in draft.tables
    ensures P.EdgesOf(draft, tables)[(cell, 1)] == H.ReplayNet(WritesOf(c, draft, tables), EdgeOf(c, cell))
  {
    if tables != [] {
      var init, last := tables[..|tables| - 1], tables[|tables| - 1];
      EdgesAreContributions(c, draft, init, cell);
      assert last in tables;
      TableEdgesAgree(c, draft, last, draft.tables[last], cell);
      hide Faithful, P.TableEdges, H.ReplayNet, EdgeOf, TableWrites;
      ReplayConcat(WritesOf(c, draft, init), TableWrites(c, draft, last, draft.tables[last]), EdgeOf(c, cell));
    }
  }

  // ---- payload rows ----------------------------------------------------------------------------------------

  function PayloadOf(c: Codec, draft: Q.Draft, table: string, row: string): T.Row {
    T.Payload(R.RowId(draft.branch, table, c.keyOf(row)), row)
  }

  lemma {:induction false} TablePayloadAgrees(c: Codec, draft: Q.Draft, table: string, changes: seq<Q.Change>, other: string, row: string)
    requires Insertions(c, changes)
    ensures H.ReplayNet(TableWrites(c, draft, table, changes), PayloadOf(c, draft, other, row))
            == if table == other then P.ChangeEntries(changes)[(P.Payload(row), 1)] else 0
  {
    if changes != [] {
      var init, last := changes[..|changes| - 1], changes[|changes| - 1];
      TablePayloadAgrees(c, draft, table, init, other, row);
      hide H.ReplayNet, TableWrites;
      WritesLast(c, draft, table, changes);
      ReplayConcat(TableWrites(c, draft, table, init), [WriteOf(c, draft, table, last)], PayloadOf(c, draft, other, row));
      ReplayOne(WriteOf(c, draft, table, last), PayloadOf(c, draft, other, row));
    }
  }

  /** A table's batch holds each row as often as the writes insert it, among tables listed once. */
  lemma {:induction false} PayloadsAreContributions(c: Codec, draft: Q.Draft, tables: seq<string>, table: string, row: string)
    requires Inserts(c, draft) && (forall t :: t in tables ==> t in draft.tables)
    requires forall i, j :: 0 <= i < j < |tables| ==> tables[i] != tables[j]
    ensures H.ReplayNet(WritesOf(c, draft, tables), PayloadOf(c, draft, table, row))
            == if table in tables then P.ChangeEntries(draft.tables[table])[(P.Payload(row), 1)] else 0
  {
    if tables != [] {
      var init, last := tables[..|tables| - 1], tables[|tables| - 1];
      assert tables == init + [last];
      PayloadsAreContributions(c, draft, init, table, row);
      TablePayloadAgrees(c, draft, last, draft.tables[last], table, row);
      hide P.ChangeEntries, H.ReplayNet, PayloadOf, TableWrites;
      ReplayConcat(WritesOf(c, draft, init), TableWrites(c, draft, last, draft.tables[last]), PayloadOf(c, draft, table, row));
    }
  }

  /**
   What storage hands to compute is what the history says was written: in the batches prepared for a capture,
   every payload row and every derivation row has the multiplicity its writes contribute.
   */
  lemma CaptureIsIngested(c: Codec, capture: Q.Capture, table: string, row: string, cell: P.Cell)
    requires Faithful(c) && Inserts(c, capture.draft) && cell.Citing?
    requires table in capture.draft.tables && table != Q.DERIVATION_TABLE
    ensures var writes := WritesOf(c, capture.draft, P.TableNames(capture.draft));
            && P.BatchOf(capture, table).entries[(P.Payload(row), 1)] == H.ReplayNet(writes, PayloadOf(c, capture.draft, table, row))
            && (Q.DERIVATION_TABLE !in capture.draft.tables ==>
                  P.BatchOf(capture, Q.DERIVATION_TABLE).entries[(cell, 1)] == H.ReplayNet(writes, EdgeOf(c, cell)))
  {
    var names := P.TableNames(capture.draft);
    O.SortedDistinct(names);
    hide Faithful, Inserts, P.TableNames, P.EdgesOf, P.ChangeEntries, H.ReplayNet, WritesOf;
    EdgesAreContributions(c, capture.draft, names, cell);
    PayloadsAreContributions(c, capture.draft, names, table, row);
  }
}
