/**
 The handoff from a capture to the compute log: one admission batch per table plus the derivation
 relation, in canonical table order, each under a token that names the commit and the table.
 */
module Preparation {
  import opened Wrappers
  import opened Order
  import opened Queue
  import L = Lineage

  datatype Cell = Payload(row: string) | Citing(branch: string, table: string, key: string, source: string, envelope: Envelope)

  type Entries = multiset<(Cell, int)>

  datatype Token = Token(commit: Manifest, table: string)

  /** One admission batch. Entries are sorted before admission, so only their multiset matters. */
  datatype Batch = Batch(token: Token, entries: Entries)

  function ChangeEntries(changes: seq<Change>): Entries {
    if changes == [] then multiset{} else
      var c := changes[|changes| - 1];
      ChangeEntries(changes[..|changes| - 1]) + multiset{(Payload(c.row), c.weight)}
  }

  function Cited(draft: Draft, table: string, c: Change): Entries {
    multiset(set s | s in draft.envelope.sources :: (Citing(draft.branch, table, c.key, s, draft.envelope), c.weight))
  }

  function TableEdges(draft: Draft, table: string, changes: seq<Change>): Entries {
    if changes == [] then multiset{}
    else TableEdges(draft, table, changes[..|changes| - 1]) + Cited(draft, table, changes[|changes| - 1])
  }

  function EdgesOf(draft: Draft, tables: seq<string>): Entries
    requires forall t :: t in tables ==> t in draft.tables
  {
    if tables == [] then multiset{} else
      var t := tables[|tables| - 1];
      EdgesOf(draft, tables[..|tables| - 1]) + TableEdges(draft, t, draft.tables[t])
  }

  /** A payload batch holds each change's row under the change's weight, as often as it was written. */
  lemma {:induction false} PayloadOrigin(changes: seq<Change>, e: (Cell, int))
    ensures e in ChangeEntries(changes) <==> exists i :: 0 <= i < |changes| && e == (Payload(changes[i].row), changes[i].weight)
    ensures |ChangeEntries(changes)| == |changes|
  {
    if changes != [] {
      var init := changes[..|changes| - 1];
      PayloadOrigin(init, e);
      assert changes == init + [changes[|changes| - 1]];
    }
  }

  /** The derivation row of one change and one source. */
  function EdgeEntry(draft: Draft, table: string, c: Change, source: string): (Cell, int) {
    (Citing(draft.branch, table, c.key, source, draft.envelope), c.weight)
  }

  lemma {:induction false} TableEdgeOrigin(draft: Draft, table: string, changes: seq<Change>, e: (Cell, int))
    ensures e in TableEdges(draft, table, changes)
            <==> exists i, s :: 0 <= i < |changes| && s in draft.envelope.sources && e == EdgeEntry(draft, table, changes[i], s)
  {
    if changes != [] {
      var init, last := changes[..|changes| - 1], changes[|changes| - 1];
      TableEdgeOrigin(draft, table, init, e);
      assert changes == init + [last];
      CitedOrigin(draft, table, last, e);
      if s :| s in draft.envelope.sources && e == EdgeEntry(draft, table, last, s) { assert changes[|init|] == last; }
      if i, s :| 0 <= i < |init| && s in draft.envelope.sources && e == EdgeEntry(draft, table, init[i], s) { assert changes[i] == init[i]; }
    }
  }

  lemma CitedOrigin(draft: Draft, table: string, c: Change, e: (Cell, int))
    ensures e in Cited(draft, table, c) <==> exists s :: s in draft.envelope.sources && e == EdgeEntry(draft, table, c, s)
  {
  }

  /** The derivation batch holds exactly one kind of row: a change of some table citing a source of the envelope. */
  lemma {:induction false} EdgeOrigin(draft: Draft, tables: seq<string>, e: (Cell, int))
    requires forall t :: t in tables ==> t in draft.tables
    ensures e in EdgesOf(draft, tables)
            <==> exists t, i, s :: t in tables && 0 <= i < |draft.tables[t]| && s in draft.envelope.sources
                                   && e == EdgeEntry(draft, t, draft.tables[t][i], s)
  {
    if tables != [] {
      var init, last := tables[..|tables| - 1], tables[|tables| - 1];
      EdgeOrigin(draft, init, e);
      assert tables == init + [last];
      TableEdgeOrigin(draft, last, draft.tables[last], e);
      hide TableEdges, EdgeEntry;
    }
  }

  // ---- how often each entry is handed over -----------------------------------------------------------------------

  /** The changes that write `row` under weight `w`, and those that change `key` under it. */
  ghost function Writing(changes: seq<Change>, row: string, w: int): set<int> {
    set i | 0 <= i < |changes| && changes[i].row == row && changes[i].weight == w
  }

  ghost function Changing(changes: seq<Change>, key: string, w: int): set<int> {
    set i | 0 <= i < |changes| && changes[i].key == key && changes[i].weight == w
  }

  lemma WritingLast(changes: seq<Change>, row: string, w: int)
    requires changes != []
    ensures var init, last := changes[..|changes| - 1], changes[|changes| - 1];
            |Writing(changes, row, w)| == |Writing(init, row, w)| + if last.row == row && last.weight == w then 1 else 0
  {
    var init, last := changes[..|changes| - 1], changes[|changes| - 1];
    assert Writing(changes, row, w) == Writing(init, row, w) + if last.row == row && last.weight == w then {|init|} else {};
  }

  lemma {:induction false} PayloadCount(changes: seq<Change>, row: string, w: int)
    ensures ChangeEntries(changes)[(Payload(row), w)] == |Writing(changes, row, w)|
  {
    if changes != [] {
      var init, last := changes[..|changes| - 1], changes[|changes| - 1];
      PayloadCount(init, row, w);
      assert multiset{(Payload(last.row), last.weight)}[(Payload(row), w)] == if last.row == row && last.weight == w then 1 else 0;
      WritingLast(changes, row, w);
      hide Writing;
    }
  }

  ghost predicate Cites(draft: Draft, cell: Cell) {
    cell.Citing? && cell.branch == draft.branch && cell.envelope == draft.envelope && cell.source in draft.envelope.sources
  }

  lemma CitedCount(draft: Draft, table: string, c: Change, cell: Cell, w: int)
    ensures Cited(draft, table, c)[(cell, w)] ==
            if Cites(draft, cell) && cell.table == table && cell.key == c.key && w == c.weight then 1 else 0
  {
    if Cites(draft, cell) && cell.table == table && cell.key == c.key && w == c.weight {
      assert (cell, w) in set s | s in draft.envelope.sources :: (Citing(draft.branch, table, c.key, s, draft.envelope), c.weight);
    }
  }

  lemma ChangingLast(changes: seq<Change>, key: string, w: int)
    requires changes != []
    ensures var init, last := changes[..|changes| - 1], changes[|changes| - 1];
            |Changing(changes, key, w)| == |Changing(init, key, w)| + if last.key == key && last.weight == w then 1 else 0
  {
    var init, last := changes[..|changes| - 1], changes[|changes| - 1];
    assert Changing(changes, key, w) == Changing(init, key, w) + if last.key == key && last.weight == w then {|init|} else {};
  }

  lemma {:induction false} TableEdgeCount(draft: Draft, table: string, changes: seq<Change>, cell: Cell, w: int)
    ensures TableEdges(draft, table, changes)[(cell, w)] ==
            if Cites(draft, cell) && cell.table == table then |Changing(changes, cell.key, w)| else 0
  {
    if changes != [] {
      var init, last := changes[..|changes| - 1], changes[|changes| - 1];
      TableEdgeCount(draft, table, init, cell, w);
      CitedCount(draft, table, last, cell, w);
      if cell.Citing? { ChangingLast(changes, cell.key, w); }
      hide Cited, Cites, Changing;
    } else if cell.Citing? {
      assert Changing(changes, cell.key, w) == {};
    }
  }

  lemma {:induction false} EdgeCount(draft: Draft, tables: seq<string>, cell: Cell, w: int)
    requires (forall t :: t in tables ==> t in draft.tables) && forall i, j :: 0 <= i < j < |tables| ==> tables[i] != tables[j]
    ensures EdgesOf(draft, tables)[(cell, w)] ==
            if Cites(draft, cell) && cell.table in tables then |Changing(draft.tables[cell.table], cell.key, w)| else 0
  {
    if tables != [] {
      var init, last := tables[..|tables| - 1], tables[|tables| - 1];
      EdgeCount(draft, init, cell, w);
      TableEdgeCount(draft, last, draft.tables[last], cell, w);
      assert tables == init + [last];
      hide TableEdges, Cites, Changing;
    }
  }

  /**
   What a capture hands over: a batch for each of its tables and one for the derivation relation, by name, all under
   its commit. A table's batch holds a row as often as it was written, and nothing else; the derivation batch
   holds, for every source of the envelope and every table, a row's key as often as it was changed, and nothing else.
   */
  ghost predicate HandsOver(c: Capture, batches: seq<Batch>) {
    && (forall i, j :: 0 <= i < j < |batches| ==> Precedes(batches[i].token.table, batches[j].token.table))
    && (forall t :: t in c.draft.tables || t == "mutiny_derivation" ==> exists i :: 0 <= i < |batches| && batches[i].token.table == t)
    && forall i :: 0 <= i < |batches| ==> HandsTable(c, batches[i])
  }

  ghost predicate HandsTable(c: Capture, b: Batch) {
    && b.token.commit == c.commit && (b.token.table in c.draft.tables || b.token.table == "mutiny_derivation")
    && if b.token.table == "mutiny_derivation" then
         forall cell, w :: b.entries[(cell, w)] ==
           if Cites(c.draft, cell) && cell.table in c.draft.tables then |Changing(c.draft.tables[cell.table], cell.key, w)| else 0
       else
         && (forall row, w :: b.entries[(Payload(row), w)] == |Writing(c.draft.tables[b.token.table], row, w)|)
         && (forall e :: e in b.entries ==> e.0.Payload?)
  }

  lemma BatchHands(c: Capture, table: string)
    requires table in c.draft.tables || table == DERIVATION_TABLE
    ensures HandsTable(c, BatchOf(c, table))
  {
    var names := TableNames(c.draft);
    SortedDistinct(names);
    if table != DERIVATION_TABLE {
      forall row, w ensures ChangeEntries(c.draft.tables[table])[(Payload(row), w)] == |Writing(c.draft.tables[table], row, w)| {
        PayloadCount(c.draft.tables[table], row, w);
      }
      forall e | e in ChangeEntries(c.draft.tables[table]) ensures e.0.Payload? { PayloadOrigin(c.draft.tables[table], e); }
    } else {
      forall cell, w
        ensures EdgesOf(c.draft, names)[(cell, w)] ==
                if Cites(c.draft, cell) && cell.table in c.draft.tables then |Changing(c.draft.tables[cell.table], cell.key, w)| else 0
      {
        EdgeCount(c.draft, names, cell, w);
      }
    }
    hide ChangeEntries, EdgesOf, Writing, Changing, Cites;
  }

  lemma PreparedHandsOver(c: Capture)
    ensures HandsOver(c, Prepared(c))
  {
    PreparedByName(c, BatchNames(c.draft));
    hide BatchNames, Prepared;
    ListedHandsOver(c, BatchNames(c.draft), Prepared(c));
  }

  lemma PreparedByName(c: Capture, names: seq<string>)
    requires names == BatchNames(c.draft)
    ensures |Prepared(c)| == |names| && forall i :: 0 <= i < |names| ==> Prepared(c)[i] == BatchOf(c, names[i])
  {
    hide BatchOf, BatchNames;
  }

  lemma ListedHandsOver(c: Capture, names: seq<string>, batches: seq<Batch>)
    requires Sorted(Less, names) && forall t :: t in names <==> t in c.draft.tables || t == DERIVATION_TABLE
    requires |batches| == |names| && forall i :: 0 <= i < |names| ==> batches[i] == BatchOf(c, names[i])
    ensures HandsOver(c, batches)
  {
    forall i | 0 <= i < |names| ensures HandsTable(c, batches[i]) && batches[i].token.table == names[i] { BatchHands(c, names[i]); }
    hide BatchOf, HandsTable;
    forall i, j | 0 <= i < j < |batches| ensures Precedes(batches[i].token.table, batches[j].token.table) {
      assert batches[i].token.table == names[i] && batches[j].token.table == names[j];
      LessIsPrecedes(names[i], names[j]);
    }
    hide Precedes, Sorted, Less;
    forall t | t in c.draft.tables || t == "mutiny_derivation" ensures exists i :: 0 <= i < |batches| && batches[i].token.table == t {
      var i :| 0 <= i < |names| && names[i] == t;
      assert batches[i].token.table == t;
    }
  }

  ghost function Names(s: set<string>): (q: seq<string>)
    ensures Sorted(Less, q) && Elements(q) == s
  {
    LessIsStrictTotal();
    Listing(Less, s)
  }

  ghost function TableNames(draft: Draft): (q: seq<string>)
    ensures forall t :: t in q <==> t in draft.tables
    ensures Sorted(Less, q)
  {
    var q := Names(draft.tables.Keys);
    assert forall t :: t in q <==> t in Elements(q);
    q
  }

  ghost function BatchNames(draft: Draft): (q: seq<string>)
    ensures forall t :: t in q <==> t in draft.tables || t == DERIVATION_TABLE
    ensures Sorted(Less, q)
  {
    var q := Names(draft.tables.Keys + {DERIVATION_TABLE});
    assert forall t :: t in q <==> t in Elements(q);
    q
  }

  ghost function BatchOf(c: Capture, table: string): Batch {
    Batch(Token(c.commit, table),
      if table in c.draft.tables && table != DERIVATION_TABLE then ChangeEntries(c.draft.tables[table])
      else EdgesOf(c.draft, TableNames(c.draft)))
  }

  /** The batches of one capture, in canonical table order: its tables and the derivation relation. */
  ghost function Prepared(c: Capture): seq<Batch> {
    var names := BatchNames(c.draft);
    seq(|names|, i requires 0 <= i < |names| => BatchOf(c, names[i]))
  }

  function PrepareRefusal(c: Capture): Option<QueueError> {
    if !DraftOk(c.draft) then Some(InvalidDraft)
    else if c.physical - {CAPTURE_PAGE} != Explained(c.draft) then Some(AuditMismatch)
    else None
  }

  /** The commit wrote, besides the capture page, exactly the pages the draft's changes list. */
  ghost predicate Audited(c: Capture) {
    forall p :: p in c.physical && p != 0xFFFF_FFFF_FFFF_FFFF <==> Lists(c.draft, p)
  }

  lemma RefusedUnlessAudited(c: Capture)
    ensures PrepareRefusal(c).None? <==> WellFormed(c.draft) && Audited(c)
    ensures PrepareRefusal(c) == Some(InvalidDraft) <==> !WellFormed(c.draft)
    ensures PrepareRefusal(c) == Some(AuditMismatch) <==> WellFormed(c.draft) && !Audited(c)
  {
    DraftOkIsWellFormed(c.draft);
    hide Explained, Lists, DraftOk, WellFormed;
    assert c.physical - {CAPTURE_PAGE} == Explained(c.draft) <==> Audited(c);
  }

  /** A capture as storage hands it out: the draft its own commit carries. */
  ghost predicate Genuine(c: Capture) {
    DraftOf(c.commit) == Some(c.draft) && c == CaptureOf(c.commit, c.draft)
  }

  /** Every batch of a capture is under a token of its own commit, and no two share one. */
  lemma PreparedTokens(c: Capture)
    ensures Prepared(c) != []
    ensures forall i :: 0 <= i < |Prepared(c)| ==> Prepared(c)[i].token.commit == c.commit
    ensures forall i, j :: 0 <= i < j < |Prepared(c)| ==> Prepared(c)[i].token != Prepared(c)[j].token
  {
    var names := BatchNames(c.draft);
    assert DERIVATION_TABLE in names;
    SortedDistinct(names);
    hide Sorted, BatchNames, TableNames, EdgesOf, ChangeEntries;
    assert forall i :: 0 <= i < |names| ==> Prepared(c)[i].token == Token(c.commit, names[i]);
  }

  method PrepareTable(draft: Draft, table: string) returns (entries: Entries, edges: Entries)
    requires table in draft.tables
    ensures entries == ChangeEntries(draft.tables[table])
    ensures edges == TableEdges(draft, table, draft.tables[table])
  {
    var changes := draft.tables[table];
    entries, edges := multiset{}, multiset{};
    var i := 0;
    while i < |changes|
      invariant 0 <= i <= |changes|
      invariant entries == ChangeEntries(changes[..i]) && edges == TableEdges(draft, table, changes[..i])
    {
      assert changes[..i + 1][..i] == changes[..i];
      entries := entries + multiset{(Payload(changes[i].row), changes[i].weight)};
      edges := edges + Cited(draft, table, changes[i]);
      i := i + 1;
    }
    assert changes[..i] == changes;
  }

  /** Every table's entries, and the edges of all of them together. */
  method FoldTables(draft: Draft, tables: seq<string>) returns (built: map<string, Entries>, derivation: Entries)
    requires forall t :: t in tables ==> t in draft.tables
    ensures forall t :: t in built <==> t in tables
    ensures forall t :: t in built ==> built[t] == ChangeEntries(draft.tables[t])
    ensures derivation == EdgesOf(draft, tables)
  {
    hide ChangeEntries, TableEdges;
    built, derivation := map[], multiset{};
    var i := 0;
    while i < |tables|
      invariant 0 <= i <= |tables|
      invariant forall t :: t in built <==> t in tables[..i]
      invariant forall t :: t in built ==> built[t] == ChangeEntries(draft.tables[t])
      invariant derivation == EdgesOf(draft, tables[..i])
    {
      assert tables[..i + 1] == tables[..i] + [tables[i]];
      var entries, edges := PrepareTable(draft, tables[i]);
      built := built[tables[i] := entries];
      derivation := derivation + edges;
      i := i + 1;
    }
    assert tables[..i] == tables;
  }

  method PrepareTables(draft: Draft) returns (built: map<string, Entries>, derivation: Entries)
    ensures built.Keys == draft.tables.Keys
    ensures forall t :: t in built ==> built[t] == ChangeEntries(draft.tables[t])
    ensures derivation == EdgesOf(draft, TableNames(draft))
  {
    hide ChangeEntries, EdgesOf, TableNames;
    var tables := L.ListSorted(draft.tables.Keys);
    ListedTables(draft, tables);
    built, derivation := FoldTables(draft, tables);
  }

  lemma ListedTables(draft: Draft, tables: seq<string>)
    requires Sorted(Less, tables) && Elements(tables) == draft.tables.Keys
    ensures tables == TableNames(draft)
  {
    LessIsStrictTotal();
    assert Elements(TableNames(draft)) == draft.tables.Keys;
    SortedIsUnique(Less, tables, TableNames(draft));
  }

  method ListBatches(commit: Manifest, built: map<string, Entries>, names: seq<string>) returns (batches: seq<Batch>)
    requires forall i :: 0 <= i < |names| ==> names[i] in built
    ensures |batches| == |names|
    ensures forall i :: 0 <= i < |names| ==> batches[i] == Batch(Token(commit, names[i]), built[names[i]])
  {
    batches := [];
    var i := 0;
    while i < |names|
      invariant 0 <= i <= |names| && |batches| == i
      invariant forall j :: 0 <= j < i ==> batches[j] == Batch(Token(commit, names[j]), built[names[j]])
    {
      batches := batches + [Batch(Token(commit, names[i]), built[names[i]])];
      i := i + 1;
    }
  }

  /** Build the batches table by table, the derivation relation last, then list them by table. */
  method Prepare(c: Capture) returns (r: Result<seq<Batch>, QueueError>)
    ensures PrepareRefusal(c).Some? ==> r == Err(PrepareRefusal(c).value)
    ensures PrepareRefusal(c).None? ==> r == Ok(Prepared(c))
    ensures r.Ok? ==> HandsOver(c, r.value)
    ensures r.Ok? <==> WellFormed(c.draft) && Audited(c)
    ensures r.Err? ==> r.error == if WellFormed(c.draft) then AuditMismatch else InvalidDraft
  {
    PreparedHandsOver(c);
    RefusedUnlessAudited(c);
    hide HandsOver, WellFormed, Audited;
    hide ChangeEntries, EdgesOf, Explained, DraftOk, Prepared, BatchNames, TableNames;
    var refusal := PrepareRefusal(c);
    if refusal.Some? { return Err(refusal.value); }
    var built, derivation := PrepareTables(c.draft);
    built := built[DERIVATION_TABLE := derivation];
    var names := L.ListSorted(built.Keys);
    assert forall i :: 0 <= i < |names| ==> names[i] in Elements(names);
    var batches := ListBatches(c.commit, built, names);
    ListedNames(c.draft, names);
    IsPrepared(c, built, batches);
    r := Ok(batches);
  }

  lemma IsPrepared(c: Capture, built: map<string, Entries>, batches: seq<Batch>)
    requires built.Keys == c.draft.tables.Keys + {DERIVATION_TABLE}
    requires forall t :: t in c.draft.tables && t != DERIVATION_TABLE ==> built[t] == ChangeEntries(c.draft.tables[t])
    requires built[DERIVATION_TABLE] == EdgesOf(c.draft, TableNames(c.draft))
    requires var names := BatchNames(c.draft);
             && |batches| == |names|
             && forall i :: 0 <= i < |names| ==> names[i] in built && batches[i] == Batch(Token(c.commit, names[i]), built[names[i]])
    ensures batches == Prepared(c)
  {
    hide ChangeEntries, EdgesOf, TableNames, BatchNames;
    var names := BatchNames(c.draft);
    forall i | 0 <= i < |names| ensures batches[i] == BatchOf(c, names[i]) {}
  }

  lemma ListedNames(draft: Draft, names: seq<string>)
    requires Sorted(Less, names) && Elements(names) == draft.tables.Keys + {DERIVATION_TABLE}
    ensures names == BatchNames(draft)
  {
    LessIsStrictTotal();
    assert Elements(BatchNames(draft)) == draft.tables.Keys + {DERIVATION_TABLE};
    SortedIsUnique(Less, names, BatchNames(draft));
  }
}
