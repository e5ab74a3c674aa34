/**
 The taint call itself: the sequence of checks, loops and engine mutations, with its named
 interruption seams and its refusals, proved to stop only where `Taint.After` says an attempt can.
 */
module TaintCall {
  import opened Wrappers
  import opened Order
  import opened Engines
  import opened Keys
  import opened Resolution
  import opened Taint
  import L = Lineage

  datatype Seam =
    | AfterResolve
    | AfterJournal
    | AfterVolatileHeal
    | BetweenPayloadChannels
    | BeforeDerivationRetraction
    | BeforeReport

  datatype TaintError =
    | InvalidLiteral
    | Unresolvable(why: ResolveError)
    | UnknownTable(table: string)
    | KeyDecode(table: string)
    | Healer(branch: string)
    | DisjunctsExceeded
    | Interrupted(seam: Seam)

  // ---- what a call checks ------------------------------------------------------------------------------

  predicate PayloadRowOk(c: Contaminated) { LiteralOk(c.branch) && KeyLiteralOk(c.key) }

  predicate EdgeRowOk(c: Contaminated) { LiteralOk(c.branch) && LiteralOk(c.table) && LiteralOk(c.key) }

  predicate PayloadPredicateOk(rows: set<Contaminated>) {
    |rows| <= MAX_PREDICATE_DISJUNCTS && forall c | c in rows :: PayloadRowOk(c)
  }

  predicate EdgePredicateOk(rows: set<Contaminated>) {
    |rows| <= MAX_PREDICATE_DISJUNCTS && forall c | c in rows :: EdgeRowOk(c)
  }

  function InTable(rows: set<Contaminated>, table: string): set<Contaminated> {
    set c | c in rows && c.table == table
  }

  /** What one call needs to get to its report: everything it checks, wherever it checks it. */
  ghost predicate Admissible(cfg: Config, w: World, src: Source) {
    var rows := Contamination(w, src);
    && LiteralOk(src.system) && LiteralOk(src.record)
    && Resolvable(Edges(w.engine), src)
    && (forall c :: c in rows ==> c.table in cfg.tables)
    && (forall t :: t in cfg.tables ==> PayloadPredicateOk(InTable(rows, t)))
    && EdgePredicateOk(rows)
  }

  lemma AdmissibleDecodes(cfg: Config, rows: set<Contaminated>)
    requires forall c :: c in rows ==> c.table in cfg.tables
    requires forall t :: t in cfg.tables ==> PayloadPredicateOk(InTable(rows, t))
    ensures forall c :: c in rows ==> KeyDecodes(c.key)
  {
    hide KeyDecodes;
    forall c | c in rows ensures KeyDecodes(c.key) {
      assert c in InTable(rows, c.table);
      assert PayloadPredicateOk(InTable(rows, c.table));
    }
  }

  /** The call gets past its journal with a key it cannot decode. */
  ghost predicate Undecodable(cfg: Config, w: World, src: Source) {
    var rows := Contamination(w, src);
    && LiteralOk(src.system) && LiteralOk(src.record)
    && Resolvable(Edges(w.engine), src)
    && (forall c :: c in rows ==> c.table in cfg.tables)
    && (exists c :: c in rows && !KeyDecodes(c.key))
  }

  /**
   The same in terms of text, chains and counts: the source can be quoted and no shortest chain is too long; at most
   512 rows resolve; each is of a known table, its names can be quoted, and its key is that of a text that can be.
   */
  ghost predicate Fit(cfg: Config, w: World, src: Source) {
    var rows := Contamination(w, src);
    && Quotable(src.system) && Quotable(src.record) && !LongChain(Edges(w.engine), src) && |rows| <= 512
    && forall c :: c in rows ==> FitRow(cfg, c)
  }

  ghost predicate FitRow(cfg: Config, c: Contaminated) {
    c.table in cfg.tables && Quotable(c.branch) && Quotable(c.table) && Quotable(c.key) && QuotableKey(c.key)
  }

  /** Everything up to the journal passes, and some row's key is that of no text. */
  ghost predicate Garbled(cfg: Config, w: World, src: Source) {
    var rows := Contamination(w, src);
    && Quotable(src.system) && Quotable(src.record) && !LongChain(Edges(w.engine), src)
    && (forall c :: c in rows ==> c.table in cfg.tables && Quotable(c.table + "/" + c.key))
    && exists c :: c in rows && !exists text :: KeyOf(c.key, text)
  }

  lemma FitRowIs(cfg: Config, c: Contaminated)
    ensures PayloadRowOk(c) <==> Quotable(c.branch) && QuotableKey(c.key)
    ensures EdgeRowOk(c) <==> Quotable(c.branch) && Quotable(c.table) && Quotable(c.key)
    ensures FitRow(cfg, c) <==> c.table in cfg.tables && PayloadRowOk(c) && EdgeRowOk(c)
    ensures FitRow(cfg, c) ==> LiteralOk(CitationRecord(c))
  {
    LiteralIsQuotable(c.branch);
    LiteralIsQuotable(c.table);
    LiteralIsQuotable(c.key);
    KeyQuotesExactly(c.key);
    if FitRow(cfg, c) { assert LiteralOk(c.table + "/" + c.key); }
    hide QuotableKey, KeyLiteralOk, Quotable;
  }

  lemma FewInTable(rows: set<Contaminated>, table: string)
    ensures |InTable(rows, table)| <= |rows|
  {
    SubsetSize(InTable(rows, table), rows);
  }

  lemma {:induction false} SubsetSize<T>(a: set<T>, b: set<T>)
    requires a <= b
    ensures |a| <= |b|
  {
    if a != {} {
      var x :| x in a;
      SubsetSize(a - {x}, b - {x});
    }
  }

  lemma RowsAreFit(cfg: Config, rows: set<Contaminated>)
    ensures |rows| <= 512 && (forall c :: c in rows ==> FitRow(cfg, c))
            <==> && CitationsOk(rows) && (forall c :: c in rows ==> c.table in cfg.tables)
                 && (forall t :: t in cfg.tables ==> PayloadPredicateOk(InTable(rows, t))) && EdgePredicateOk(rows)
  {
    forall c ensures FitRow(cfg, c) <==> c.table in cfg.tables && PayloadRowOk(c) && EdgeRowOk(c) { FitRowIs(cfg, c); }
    forall c ensures FitRow(cfg, c) ==> LiteralOk(CitationRecord(c)) { FitRowIs(cfg, c); }
    hide FitRow, PayloadRowOk, EdgeRowOk, LiteralOk, CitationRecord;
    forall t ensures |InTable(rows, t)| <= |rows| { FewInTable(rows, t); }
    forall c | c in rows && c.table in cfg.tables && PayloadPredicateOk(InTable(rows, c.table)) ensures PayloadRowOk(c) {
      assert c in InTable(rows, c.table);
    }
  }

  lemma FitIsAdmissible(cfg: Config, w: World, src: Source)
    ensures Fit(cfg, w, src) <==> Admissible(cfg, w, src)
  {
    LiteralIsQuotable(src.system);
    LiteralIsQuotable(src.record);
    TooDeepIsLong(Edges(w.engine), src);
    RowsAreFit(cfg, Contamination(w, src));
    hide Quotable, LiteralOk, LongChain, TooDeep, Closure, FitRow, CitationsOk, PayloadPredicateOk, EdgePredicateOk, InTable;
  }

  lemma GarbledIsUndecodable(cfg: Config, w: World, src: Source)
    ensures Garbled(cfg, w, src) <==> Undecodable(cfg, w, src)
  {
    LiteralIsQuotable(src.system);
    LiteralIsQuotable(src.record);
    TooDeepIsLong(Edges(w.engine), src);
    forall c: Contaminated ensures KeyDecodes(c.key) <==> exists text :: KeyOf(c.key, text) { KeyDecodesExactly(c.key); }
    forall c: Contaminated ensures LiteralOk(CitationRecord(c)) <==> Quotable(c.table + "/" + c.key) { LiteralIsQuotable(c.table + "/" + c.key); }
    hide Quotable, LiteralOk, LongChain, TooDeep, Closure, KeyOf, KeyDecodes;
  }

  /** `c` and `d` are one key written twice under two envelopes, and `h` holds it among those their heal reaches. */
  ghost predicate Clash(cfg: Config, held: L.Held, rows: set<Contaminated>, c: Contaminated, d: Contaminated, h: string) {
    && c in rows && d in rows && c != d && c.Id() == d.Id() && c.table in cfg.semantic
    && h in L.Holders(cfg.lineage, c.branch) && h in held && (c.table, c.key) in held[h]
  }

  ghost predicate Clashes(cfg: Config, held: L.Held, rows: set<Contaminated>) {
    exists c, d, h :: Clash(cfg, held, rows, c, d, h)
  }

  /** The heal of an earlier branch cuts `c`'s key from `h`. */
  ghost predicate CutBefore(cfg: Config, rows: set<Contaminated>, c: Contaminated, h: string) {
    exists e :: e in rows && e.table == c.table && e.key == c.key && Less(e.branch, c.branch) && h in L.Holders(cfg.lineage, e.branch)
  }

  /** Some holder still has a key listed twice when its turn comes: it refuses the batch. */
  ghost predicate Stuck(cfg: Config, held: L.Held, rows: set<Contaminated>) {
    exists c, d, h :: Clash(cfg, held, rows, c, d, h) && !CutBefore(cfg, rows, c, h)
  }

  /** No two resolved rows are one key written twice under two envelopes. */
  ghost predicate KeysOnce(rows: set<Contaminated>) {
    forall c, d :: c in rows && d in rows && c.Id() == d.Id() ==> c == d
  }

  lemma OnceIsNotStuck(cfg: Config, held: L.Held, rows: set<Contaminated>)
    requires KeysOnce(rows)
    ensures !Stuck(cfg, held, rows)
  {
  }

  /** Where each seam stops an attempt. */
  ghost predicate StopsAt(cfg: Config, rows: set<Contaminated>, seam: Seam, p: Progress) {
    match seam
    case AfterResolve => p == Resolved
    case AfterJournal => p == Journaled
    case AfterVolatileHeal => p == Healing(Cuts(cfg, rows))
    case BetweenPayloadChannels => p.Channels? && p.n > 0 && !p.half
    case BeforeDerivationRetraction => p == Channels(|cfg.tables|, false)
    case BeforeReport => p == EdgesRetracted
  }

  // ---- the volatile heal ---------------------------------------------------------------------------

  ghost predicate Lists(order: seq<Contaminated>, group: set<Contaminated>) {
    Elements(order) == group && forall i, j :: 0 <= i < j < |order| ==> order[i] != order[j]
  }

  method GroupKeys(group: set<Contaminated>) returns (keys: seq<string>, ghost order: seq<Contaminated>)
    ensures Lists(order, group) && |keys| == |order|
    ensures forall i :: 0 <= i < |keys| ==> keys[i] == order[i].key
  {
    keys, order := [], [];
    var rest := group;
    while rest != {}
      invariant rest <= group && Lists(order, group - rest) && |keys| == |order|
      invariant forall i :: 0 <= i < |keys| ==> keys[i] == order[i].key
      decreases rest
    {
      var c :| c in rest;
      ElementsAppend(order, c);
      assert forall i :: 0 <= i < |order| ==> order[i] in Elements(order);
      keys, order := keys + [c.key], order + [c];
      rest := rest - {c};
    }
  }

  ghost function GroupCuts(group: set<Contaminated>, reached: set<string>): set<Cut> {
    set c, b | c in group && b in reached :: (c, b)
  }

  /** One healer call is the cuts of its group on the branches it reached. */
  lemma CascadeIsCuts(cfg: Config, held: L.Held, group: set<Contaminated>, order: seq<Contaminated>,
                      table: string, keys: seq<string>, reached: set<string>)
    requires Lists(order, group) && |keys| == |order|
    requires forall i :: 0 <= i < |keys| ==> keys[i] == order[i].key
    requires forall c :: c in group ==> c.table == table
    ensures table in cfg.semantic ==> L.CascadeOn(held, reached, table, keys) == HealCuts(cfg, held, GroupCuts(group, reached))
    ensures table !in cfg.semantic ==> held == HealCuts(cfg, held, GroupCuts(group, reached))
  {
    var cuts := GroupCuts(group, reached);
    forall b, x | b in held && x in held[b]
      ensures IsCut(cfg, cuts, b, x) <==> table in cfg.semantic && b in reached && x in L.Drop(table, keys)
    {
      if x in L.Drop(table, keys) && b in reached {
        var i :| 0 <= i < |keys| && x == (table, keys[i]);
        assert order[i] in Elements(order) && (order[i], b) in cuts;
      }
      if c :| (c, b) in cuts && x == (c.table, c.key) {
        assert c in Elements(order);
        var i :| 0 <= i < |order| && order[i] == c;
        assert keys[i] in keys;
      }
    }
    forall b | b in held ensures HealCuts(cfg, held, cuts)[b] == if table in cfg.semantic && b in reached then held[b] - L.Drop(table, keys) else held[b] {
    }
  }

  /** A holder refuses a group's batch exactly if it holds one of its repeated keys. */
  lemma ConflictIsClash(cfg: Config, held: L.Held, branch: string, table: string, group: set<Contaminated>, order: seq<Contaminated>, keys: seq<string>)
    requires Lists(order, group) && |keys| == |order| && table in cfg.semantic
    requires forall i :: 0 <= i < |keys| ==> keys[i] == order[i].key
    requires forall c :: c in group ==> c.table == table && c.branch == branch
    ensures (exists h :: h in L.Holders(cfg.lineage, branch) && L.Conflict(held, h, table, keys)) <==> Clashes(cfg, held, group)
  {
    hide L.Holders;
    assert forall i :: 0 <= i < |order| ==> order[i] in Elements(order);
    if h :| h in L.Holders(cfg.lineage, branch) && L.Conflict(held, h, table, keys) {
      var i, j :| 0 <= i < j < |keys| && keys[i] == keys[j] && (table, keys[i]) in held[h];
      assert Clash(cfg, held, group, order[i], order[j], h);
    }
    if c, d, h :| Clash(cfg, held, group, c, d, h) {
      hide Clashes;
      assert c in Elements(order) && d in Elements(order);
      RepeatedKey(order, keys, c, d);
    }
  }

  lemma RepeatedKey(order: seq<Contaminated>, keys: seq<string>, c: Contaminated, d: Contaminated)
    requires |keys| == |order| && (forall i :: 0 <= i < |keys| ==> keys[i] == order[i].key)
    requires c in Elements(order) && d in Elements(order) && c != d && c.key == d.key
    ensures exists i, j :: 0 <= i < j < |keys| && keys[i] == keys[j] == c.key
  {
    var i :| 0 <= i < |order| && order[i] == c;
    var j :| 0 <= j < |order| && order[j] == d;
    var lo, hi := if i < j then i else j, if i < j then j else i;
    assert keys[lo] == keys[hi] == c.key;
  }

  method HealGroup(cfg: Config, held: L.Held, branch: string, table: string, group: set<Contaminated>)
    returns (healed: L.Held, ok: bool, ghost cuts: set<Cut>)
    requires forall c :: c in group ==> c.branch == branch && c.table == table
    ensures cuts <= Cuts(cfg, group) && healed == HealCuts(cfg, held, cuts)
    ensures ok ==> cuts == Cuts(cfg, group)
    ensures ok <==> !Clashes(cfg, held, group)
    ensures !ok ==> Clashes(cfg, healed, group)
  {
    hide HealCuts, L.CascadeOn, L.Conflict, Clashes;
    var keys, order := GroupKeys(group);
    var next, fine, reached := L.Heal(cfg.lineage, cfg.semantic, held, branch, table, keys);
    healed, ok := next, fine;
    ghost var holders := L.Holders(cfg.lineage, branch);
    GroupCutsOf(cfg, group, branch, reached);
    CascadeIsCuts(cfg, held, group, order, table, keys, reached);
    CascadeIsCuts(cfg, held, group, order, table, keys, holders);
    if table in cfg.semantic {
      ConflictIsClash(cfg, held, branch, table, group, order, keys);
      ConflictIsClash(cfg, healed, branch, table, group, order, keys);
    } else {
      VolatileOnly(cfg, held, group);
    }
    cuts := GroupCuts(group, if ok then holders else reached);
  }

  lemma VolatileOnly(cfg: Config, held: L.Held, group: set<Contaminated>)
    requires forall c :: c in group ==> c.table !in cfg.semantic
    ensures !Clashes(cfg, held, group)
  {
  }

  function OnBranch(rows: set<Contaminated>, branch: string): set<Contaminated> { set c | c in rows && c.branch == branch }

  /** Cutting rows of other tables moves no clash of a table. */
  lemma OtherTables(cfg: Config, held: L.Held, done: set<Contaminated>, group: set<Contaminated>)
    requires forall e, c :: e in done && c in group ==> e.table != c.table
    ensures Clashes(cfg, HealCuts(cfg, held, Cuts(cfg, done)), group) <==> Clashes(cfg, held, group)
  {
    var healed := HealCuts(cfg, held, Cuts(cfg, done));
    forall c, d, h ensures Clash(cfg, healed, group, c, d, h) <==> Clash(cfg, held, group, c, d, h) {
      if Clash(cfg, held, group, c, d, h) { assert !IsCut(cfg, Cuts(cfg, done), h, (c.table, c.key)); }
    }
  }

  /** One branch's groups, table by table. */
  method HealBranch(cfg: Config, held: L.Held, branch: string, rows: set<Contaminated>)
    returns (healed: L.Held, ok: bool, ghost cuts: set<Cut>)
    requires forall c :: c in rows ==> c.branch == branch
    ensures cuts <= Cuts(cfg, rows) && healed == HealCuts(cfg, held, cuts)
    ensures ok ==> cuts == Cuts(cfg, rows)
    ensures ok <==> !Clashes(cfg, held, rows)
    ensures !ok ==> Clashes(cfg, healed, rows)
  {
    HealNone(cfg, held);
    healed, cuts := held, {};
    var tables := ListTables(rows);
    CutsOfNothing(cfg);
    TablesEnd(rows, tables);
    hide HealCuts, Cuts, Clashes, Sorted, Less, Elements, TablesTo, InTable;
    var i := 0;
    while i < |tables|
      invariant 0 <= i <= |tables| && cuts == Cuts(cfg, TablesTo(rows, tables, i)) && healed == HealCuts(cfg, held, cuts)
      invariant forall j :: 0 <= j < i ==> !Clashes(cfg, held, InTable(rows, tables[j]))
    {
      var group := InTable(rows, tables[i]);
      ghost var done := TablesTo(rows, tables, i);
      TablesNext(rows, tables, i);
      OtherTables(cfg, held, done, group);
      var next, fine, more := HealGroup(cfg, healed, branch, tables[i], group);
      MoreCuts(cfg, held, done, group, more, rows);
      healed, cuts := next, cuts + more;
      if !fine {
        TableClashes(cfg, held, rows, tables[i]);
        TableClashes(cfg, healed, rows, tables[i]);
        return healed, false, cuts;
      }
      i := i + 1;
    }
    NoTableClashes(cfg, held, rows, tables);
    ok := true;
  }

  method ListTables(rows: set<Contaminated>) returns (tables: seq<string>)
    ensures Sorted(Less, tables) && forall c :: c in rows ==> c.table in Elements(tables)
  {
    tables := L.ListSorted(set c | c in rows :: c.table);
  }

  /** The rows of the first `i` tables. */
  ghost function TablesTo(rows: set<Contaminated>, tables: seq<string>, i: nat): set<Contaminated>
    requires i <= |tables|
  {
    set c | c in rows && c.table in tables[..i]
  }

  lemma TablesNext(rows: set<Contaminated>, tables: seq<string>, i: nat)
    requires i < |tables| && Sorted(Less, tables)
    ensures TablesTo(rows, tables, i + 1) == TablesTo(rows, tables, i) + InTable(rows, tables[i])
    ensures TablesTo(rows, tables, i) <= rows && InTable(rows, tables[i]) <= rows
    ensures forall e, c :: e in TablesTo(rows, tables, i) && c in InTable(rows, tables[i]) ==> e.table != c.table
    ensures forall c :: c in InTable(rows, tables[i]) ==> c.table == tables[i]
  {
    assert tables[..i + 1] == tables[..i] + [tables[i]];
    SortedDistinct(tables);
  }

  lemma TablesEnd(rows: set<Contaminated>, tables: seq<string>)
    requires forall c :: c in rows ==> c.table in Elements(tables)
    ensures TablesTo(rows, tables, 0) == {} && TablesTo(rows, tables, |tables|) == rows
  {
    assert tables[..|tables|] == tables;
    forall c | c in rows ensures c.table in tables { assert c.table in Elements(tables); }
  }

  lemma TableClashes(cfg: Config, held: L.Held, rows: set<Contaminated>, table: string)
    requires Clashes(cfg, held, InTable(rows, table))
    ensures Clashes(cfg, held, rows)
  {
    var c, d, h :| Clash(cfg, held, InTable(rows, table), c, d, h);
    assert Clash(cfg, held, rows, c, d, h);
  }

  lemma NoTableClashes(cfg: Config, held: L.Held, rows: set<Contaminated>, tables: seq<string>)
    requires forall c :: c in rows ==> c.table in Elements(tables)
    requires forall j :: 0 <= j < |tables| ==> !Clashes(cfg, held, InTable(rows, tables[j]))
    ensures !Clashes(cfg, held, rows)
  {
    forall c, d, h ensures !Clash(cfg, held, rows, c, d, h) {
      if c in rows {
        assert c.table in Elements(tables);
        var j :| 0 <= j < |tables| && tables[j] == c.table;
        assert !Clash(cfg, held, InTable(rows, tables[j]), c, d, h);
      }
    }
  }

  lemma CutsOfNothing(cfg: Config)
    ensures Cuts(cfg, {}) == {}
  {
  }

  ghost predicate StuckOn(cfg: Config, held: L.Held, rows: set<Contaminated>, branch: string) {
    exists c, d, h :: Clash(cfg, held, rows, c, d, h) && !CutBefore(cfg, rows, c, h) && c.branch == branch
  }

  /** The rows whose branches come before `branch`. */
  ghost function Earlier(rows: set<Contaminated>, branch: string): set<Contaminated> { set e | e in rows && Less(e.branch, branch) }

  /** With the earlier branches healed, a branch's rows clash exactly if one of them is stuck from the start. */
  lemma BranchTurn(cfg: Config, held: L.Held, rows: set<Contaminated>, branch: string)
    ensures Clashes(cfg, HealCuts(cfg, held, Cuts(cfg, Earlier(rows, branch))), OnBranch(rows, branch)) <==> StuckOn(cfg, held, rows, branch)
  {
    var cuts := Cuts(cfg, Earlier(rows, branch));
    var healed, here := HealCuts(cfg, held, cuts), OnBranch(rows, branch);
    hide Less;
    forall c, d, h
      ensures Clash(cfg, healed, here, c, d, h) <==> Clash(cfg, held, rows, c, d, h) && !CutBefore(cfg, rows, c, h) && c.branch == branch
    {
      if c.branch == branch && c.table in cfg.semantic {
        CutIsCutBefore(cfg, rows, c, h);
        hide Cuts, CutBefore, L.Holders;
      }
    }
  }

  lemma CutIsCutBefore(cfg: Config, rows: set<Contaminated>, c: Contaminated, h: string)
    requires c.table in cfg.semantic
    ensures IsCut(cfg, Cuts(cfg, Earlier(rows, c.branch)), h, (c.table, c.key)) <==> CutBefore(cfg, rows, c, h)
  {
    hide L.Holders, Less;
    if e :| e in rows && e.table == c.table && e.key == c.key && Less(e.branch, c.branch) && h in L.Holders(cfg.lineage, e.branch) {
      assert (e, h) in Cuts(cfg, Earlier(rows, c.branch));
    }
  }

  /** Where a branch refuses, the key it refused is still held and still listed twice. */
  lemma StillStuck(cfg: Config, held: L.Held, rows: set<Contaminated>, branch: string, cuts: set<Cut>)
    requires Cuts(cfg, Earlier(rows, branch)) <= cuts && Clashes(cfg, HealCuts(cfg, held, cuts), OnBranch(rows, branch))
    ensures Stuck(cfg, HealCuts(cfg, held, cuts), rows)
  {
    var healed := HealCuts(cfg, held, cuts);
    var c, d, h :| Clash(cfg, healed, OnBranch(rows, branch), c, d, h);
    CutIsCutBefore(cfg, rows, c, h);
    hide Cuts, L.Holders, CutBefore;
    assert Clash(cfg, healed, rows, c, d, h);
  }

  /** The rows of the first `i` branches. */
  ghost function UpTo(rows: set<Contaminated>, branches: seq<string>, i: nat): set<Contaminated>
    requires i <= |branches|
  {
    set c | c in rows && c.branch in branches[..i]
  }

  lemma UpToNext(rows: set<Contaminated>, branches: seq<string>, i: nat)
    requires i < |branches|
    ensures UpTo(rows, branches, i + 1) == UpTo(rows, branches, i) + OnBranch(rows, branches[i])
    ensures UpTo(rows, branches, i) <= rows && OnBranch(rows, branches[i]) <= rows
  {
    assert branches[..i + 1] == branches[..i] + [branches[i]];
  }

  lemma UpToEnds(rows: set<Contaminated>, branches: seq<string>)
    requires forall c :: c in rows ==> c.branch in Elements(branches)
    ensures UpTo(rows, branches, 0) == {} && UpTo(rows, branches, |branches|) == rows
  {
    assert branches[..|branches|] == branches;
    forall c | c in rows ensures c.branch in branches { assert c.branch in Elements(branches); }
  }

  lemma UpToIsEarlier(rows: set<Contaminated>, branches: seq<string>, i: nat)
    requires Sorted(Less, branches) && (forall c :: c in rows ==> c.branch in Elements(branches)) && i < |branches|
    ensures UpTo(rows, branches, i) == Earlier(rows, branches[i])
  {
    LessIsStrictTotal();
    hide Less;
    forall c | c in rows ensures c.branch in branches[..i] <==> Less(c.branch, branches[i]) {
      var j :| 0 <= j < |branches| && branches[j] == c.branch;
      if j < i { assert branches[..i][j] == c.branch; }
    }
  }

  lemma StuckIs(cfg: Config, held: L.Held, rows: set<Contaminated>, branches: set<string>)
    requires forall c :: c in rows ==> c.branch in branches
    ensures Stuck(cfg, held, rows) <==> exists b :: b in branches && StuckOn(cfg, held, rows, b)
  {
    hide Clash, CutBefore;
    if c, d, h :| Clash(cfg, held, rows, c, d, h) && !CutBefore(cfg, rows, c, h) {
      ClashIn(cfg, held, rows, c, d, h);
      assert StuckOn(cfg, held, rows, c.branch);
    }
  }

  lemma ClashIn(cfg: Config, held: L.Held, rows: set<Contaminated>, c: Contaminated, d: Contaminated, h: string)
    requires Clash(cfg, held, rows, c, d, h)
    ensures c in rows
  {
  }

  /** Heal branch by branch in order, table by table; stop at the first holder that refuses, and stay stuck there. */
  method HealAll(cfg: Config, held: L.Held, rows: set<Contaminated>)
    returns (healed: L.Held, failed: Option<string>, ghost cuts: set<Cut>)
    ensures cuts <= Cuts(cfg, rows) && healed == HealCuts(cfg, held, cuts)
    ensures failed.None? ==> cuts == Cuts(cfg, rows)
    ensures failed.Some? <==> Stuck(cfg, held, rows)
    ensures failed.Some? ==> Stuck(cfg, healed, rows)
    ensures rows == {} ==> healed == held && failed.None?
  {
    HealNone(cfg, held);
    healed, cuts, failed := held, {}, None;
    var branches := ListBranches(rows);
    CutsOfNothing(cfg);
    UpToEnds(rows, branches);
    hide HealCuts, Cuts, Clashes, Stuck, StuckOn, Less, Sorted, Earlier, UpTo, OnBranch, Elements;
    var i := 0;
    while i < |branches|
      invariant 0 <= i <= |branches| && cuts == Cuts(cfg, UpTo(rows, branches, i)) && healed == HealCuts(cfg, held, cuts)
      invariant forall j :: 0 <= j < i ==> !StuckOn(cfg, held, rows, branches[j])
    {
      var branch := branches[i];
      var here := OnBranch(rows, branch);
      ghost var done := UpTo(rows, branches, i);
      UpToIsEarlier(rows, branches, i);
      UpToNext(rows, branches, i);
      BranchTurn(cfg, held, rows, branch);
      OnBranchOnly(rows, branch);
      var next, ok, more := HealBranch(cfg, healed, branch, here);
      MoreCuts(cfg, held, done, here, more, rows);
      healed, cuts := next, cuts + more;
      if !ok {
        OneStuck(cfg, held, rows, branch);
        StillStuck(cfg, held, rows, branch, cuts);
        return healed, Some(branch), cuts;
      }
      i := i + 1;
    }
    NoneStuck(cfg, held, rows, branches);
  }

  method ListBranches(rows: set<Contaminated>) returns (branches: seq<string>)
    ensures Sorted(Less, branches) && forall c :: c in rows ==> c.branch in Elements(branches)
    ensures rows == {} ==> branches == []
  {
    var names := set c | c in rows :: c.branch;
    assert rows == {} ==> names == {};
    branches := L.ListSorted(names);
    ElementsEmpty(branches);
  }

  lemma OneStuck(cfg: Config, held: L.Held, rows: set<Contaminated>, branch: string)
    requires StuckOn(cfg, held, rows, branch)
    ensures Stuck(cfg, held, rows)
  {
    hide Clash, CutBefore;
  }

  lemma OnBranchOnly(rows: set<Contaminated>, branch: string)
    ensures forall c :: c in OnBranch(rows, branch) ==> c.branch == branch
  {
  }

  lemma NoneStuck(cfg: Config, held: L.Held, rows: set<Contaminated>, branches: seq<string>)
    requires forall c :: c in rows ==> c.branch in Elements(branches)
    requires forall j :: 0 <= j < |branches| ==> !StuckOn(cfg, held, rows, branches[j])
    ensures !Stuck(cfg, held, rows)
  {
    StuckIs(cfg, held, rows, Elements(branches));
    hide StuckOn, Stuck;
    forall b | b in Elements(branches) ensures !StuckOn(cfg, held, rows, b) {
      var j :| 0 <= j < |branches| && branches[j] == b;
    }
  }

  /** The cuts of one more group on top of those done. */
  lemma MoreCuts(cfg: Config, held: L.Held, done: set<Contaminated>, group: set<Contaminated>, more: set<Cut>, rows: set<Contaminated>)
    requires more <= Cuts(cfg, group) && done <= rows && group <= rows
    ensures HealCuts(cfg, HealCuts(cfg, held, Cuts(cfg, done)), more) == HealCuts(cfg, held, Cuts(cfg, done) + more)
    ensures Cuts(cfg, done) + more <= Cuts(cfg, rows)
    ensures more == Cuts(cfg, group) ==> Cuts(cfg, done) + more == Cuts(cfg, done + group)
  {
    hide HealCuts;
    CutTwice(cfg, held, Cuts(cfg, done), more);
    CutsGrow(cfg, done, group);
    CutsWithin(cfg, done + group, rows);
  }

  lemma CutsWithin(cfg: Config, a: set<Contaminated>, b: set<Contaminated>)
    requires a <= b
    ensures Cuts(cfg, a) <= Cuts(cfg, b)
  {
  }

  lemma GroupCutsOf(cfg: Config, group: set<Contaminated>, branch: string, reached: set<string>)
    requires forall c :: c in group ==> c.branch == branch
    requires reached <= L.Holders(cfg.lineage, branch)
    ensures GroupCuts(group, reached) <= Cuts(cfg, group)
    ensures GroupCuts(group, L.Holders(cfg.lineage, branch)) == Cuts(cfg, group)
  {
  }

  lemma CutsGrow(cfg: Config, a: set<Contaminated>, b: set<Contaminated>)
    ensures Cuts(cfg, a + b) == Cuts(cfg, a) + Cuts(cfg, b)
  {
  }

  // ---- the durable retractions ---------------------------------------------------------------------

  lemma RetractQuiet(e: Compute, ch: Channel, ids: set<RowId>)
    requires Sound(e) && e.pending == []
    ensures Sound(Retract(e, ch, ids)) && Retract(e, ch, ids).pending == []
  {
    var entries := Negation(e, ch, ids);
    if entries != map[] {
      var b := Batch(Retraction(ch, e.epoch + 1, entries), entries);
      IngestKeepsSound(e, b);
      FreshRetraction(e, ch, entries);
      var a := RetractAppend(e, ch, ids);
      assert a.pending == [b];
      SealKeepsSound(a);
    }
  }

  lemma SkipTable(e: Compute, table: string, rows: set<Contaminated>)
    requires e.pending == [] && InTable(rows, table) == {}
    ensures Retract(e, PayloadChannel(table), Ids(rows)) == e
  {
    var ids := Ids(rows);
    forall c | c in rows ensures c.table != table { assert c !in InTable(rows, table); }
    assert forall r :: !Matches(PayloadChannel(table), ids, r);
    assert Negation(e, PayloadChannel(table), ids) == map[];
  }

  lemma JournalQuiet(e: Compute, src: Source, rows: set<Contaminated>)
    requires Sound(e)
    ensures Sound(JournalSeal(JournalAppend(e, src, rows), rows))
    ensures rows != {} ==> JournalSeal(JournalAppend(e, src, rows), rows).pending == []
    ensures rows == {} ==> JournalSeal(JournalAppend(e, src, rows), rows) == e
  {
    if rows != {} {
      IngestKeepsSound(e, Batch(Journal(src, rows), JournalEntries(src, rows)));
      SealKeepsSound(JournalAppend(e, src, rows));
    }
  }

  /** The engine once the first `n` payload channels are retracted. */
  ghost function Through(e: Compute, tables: seq<string>, n: nat, rows: set<Contaminated>): Compute
    requires n <= |tables|
  {
    if rows == {} then e else RetractTables(e, tables[..n], Ids(rows))
  }

  lemma ThroughNext(e: Compute, tables: seq<string>, n: nat, rows: set<Contaminated>)
    requires n <= |tables|
    ensures Through(e, tables, 0, rows) == e
    ensures n < |tables| ==>
              var prior := Through(e, tables, n, rows);
              Through(e, tables, n + 1, rows) == if rows == {} then prior else Retract(prior, PayloadChannel(tables[n]), Ids(rows))
  {
    if n < |tables| { assert tables[..n + 1][..n] == tables[..n]; }
  }

  datatype Stop = Done | Refused(why: TaintError) | Fired

  lemma NoRowsOk()
    ensures PayloadPredicateOk({})
  {
  }

  method CheckPredicate(rows: set<Contaminated>) returns (refused: Option<TaintError>)
    ensures refused.None? <==> PayloadPredicateOk(rows)
    ensures refused.Some? ==> !refused.value.Interrupted? && !refused.value.Healer?
    ensures refused.Some? && refused.value.KeyDecode? ==> exists c :: c in rows && !KeyDecodes(c.key)
  {
    if c :| c in rows && !KeyDecodes(c.key) { return Some(KeyDecode(c.table)); }
    if |rows| > MAX_PREDICATE_DISJUNCTS { return Some(DisjunctsExceeded); }
    if c :| c in rows && !PayloadRowOk(c) { return Some(InvalidLiteral); }
    refused := None;
  }

  /** One payload channel: skipped without resolved rows, refused, or retracted and sealed. */
  method RetractTable(e: Compute, rows: set<Contaminated>, table: string)
    returns (e': Compute, refused: Option<TaintError>, touched: bool)
    requires Sound(e) && (rows != {} ==> e.pending == [])
    ensures refused.None? <==> PayloadPredicateOk(InTable(rows, table))
    ensures refused.Some? ==> !refused.value.Interrupted? && !refused.value.Healer?
    ensures refused.Some? && refused.value.KeyDecode? ==> exists c :: c in rows && !KeyDecodes(c.key)
    ensures refused.None? ==> Sound(e') && e' == if rows == {} then e else Retract(e, PayloadChannel(table), Ids(rows))
    ensures refused.None? && rows != {} ==> e'.pending == []
    ensures touched ==> rows != {}
  {
    var here := InTable(rows, table);
    assert here <= rows;
    hide Sound, Retract, Ids, PayloadPredicateOk, KeyDecodes;
    if here == {} {
      if rows != {} { SkipTable(e, table, rows); }
      NoRowsOk();
      return e, None, false;
    }
    refused := CheckPredicate(here);
    if refused.Some? { return e, refused, false; }
    RetractQuiet(e, PayloadChannel(table), Ids(rows));
    e', touched := Retract(e, PayloadChannel(table), Ids(rows)), true;
  }

  /** Retract every payload channel that holds a resolved row, in table order. */
  method RetractPayload(cfg: Config, e: Compute, rows: set<Contaminated>, fires: bool)
    returns (e': Compute, stop: Stop, n: nat)
    requires Sound(e) && (rows != {} ==> e.pending == [])
    ensures n <= |cfg.tables| && (stop.Done? ==> n == |cfg.tables|) && (stop.Fired? ==> fires && n > 0)
    ensures Sound(e') && e' == Through(e, cfg.tables, n, rows)
    ensures rows != {} ==> e'.pending == []
    ensures stop.Refused? ==> exists t :: t in cfg.tables && !PayloadPredicateOk(InTable(rows, t))
    ensures stop.Refused? ==> !stop.why.Interrupted? && !stop.why.Healer?
    ensures stop.Refused? && stop.why.KeyDecode? ==> exists c :: c in rows && !KeyDecodes(c.key)
    ensures stop.Done? ==> forall t :: t in cfg.tables ==> PayloadPredicateOk(InTable(rows, t))
  {
    hide RetractTables, Retract, Sound, Ids, InTable, PayloadPredicateOk, KeyDecodes, Through;
    e', n := e, 0;
    ThroughNext(e, cfg.tables, 0, rows);
    while n < |cfg.tables|
      invariant n <= |cfg.tables| && Sound(e') && e' == Through(e, cfg.tables, n, rows)
      invariant rows != {} ==> e'.pending == []
      invariant forall i :: 0 <= i < n ==> PayloadPredicateOk(InTable(rows, cfg.tables[i]))
    {
      ThroughNext(e, cfg.tables, n, rows);
      var next, refused, touched := RetractTable(e', rows, cfg.tables[n]);
      if refused.Some? {
        assert cfg.tables[n] in cfg.tables;
        return e', Refused(refused.value), n;
      }
      e', n := next, n + 1;
      if touched && fires {
        return e', Fired, n;
      }
    }
    forall t | t in cfg.tables ensures PayloadPredicateOk(InTable(rows, t)) {
      var i :| 0 <= i < n && cfg.tables[i] == t;
    }
    stop := Done;
  }

  /** The durable half of an attempt, from the journaled engine to the last seal. */
  ghost predicate RetractedTo(cfg: Config, e: Compute, rows: set<Contaminated>, p: Progress, e': Compute) {
    match p
    case Channels(n, half) => !half && n <= |cfg.tables| && e' == Through(e, cfg.tables, n, rows)
    case EdgesRetracted => e' == if rows == {} then e else Retract(RetractTables(e, cfg.tables, Ids(rows)), DerivationChannel, Ids(rows))
    case _ => false
  }

  method RetractAll(cfg: Config, e: Compute, rows: set<Contaminated>, fault: Option<Seam>)
    returns (e': Compute, stop: Option<TaintError>, ghost p: Progress)
    requires Sound(e) && (rows != {} ==> e.pending == [])
    ensures Sound(e') && RetractedTo(cfg, e, rows, p, e')
    ensures stop.None? ==> p == EdgesRetracted && EdgePredicateOk(rows)
    ensures stop.Some? ==> !stop.value.Healer?
    ensures stop.Some? && stop.value.KeyDecode? ==> exists c :: c in rows && !KeyDecodes(c.key)
    ensures stop.None? ==> forall t :: t in cfg.tables ==> PayloadPredicateOk(InTable(rows, t))
    ensures stop.Some? ==>
              || (stop.value.Interrupted? && fault == Some(stop.value.seam) && StopsAt(cfg, rows, stop.value.seam, p))
              || (!stop.value.Interrupted? && !EdgePredicateOk(rows))
              || (!stop.value.Interrupted? && exists t :: t in cfg.tables && !PayloadPredicateOk(InTable(rows, t)))
  {
    hide Sound, RetractTables, Retract, PayloadPredicateOk, Cuts, KeyDecodes;
    var halted, n;
    e', halted, n := RetractPayload(cfg, e, rows, fault == Some(BetweenPayloadChannels));
    p := Channels(n, false);
    if halted.Refused? { return e', Some(halted.why), p; }
    if halted.Fired? { return e', Some(Interrupted(BetweenPayloadChannels)), p; }
    assert cfg.tables[..n] == cfg.tables;
    if fault == Some(BeforeDerivationRetraction) {
      return e', Some(Interrupted(BeforeDerivationRetraction)), p;
    }
    if rows != {} {
      if |rows| > MAX_PREDICATE_DISJUNCTS {
        return e', Some(DisjunctsExceeded), p;
      }
      if c :| c in rows && !EdgeRowOk(c) {
        return e', Some(InvalidLiteral), p;
      }
      RetractQuiet(e', DerivationChannel, Ids(rows));
      e' := Retract(e', DerivationChannel, Ids(rows));
    }
    p := EdgesRetracted;
    if fault == Some(BeforeReport) {
      return e', Some(Interrupted(BeforeReport)), p;
    }
    stop := None;
  }

  // ---- a key that can never be healed ----------------------------------------------------------------

  /** Nothing unsealed, everything the call checks in order, and a holder that refuses. */
  ghost predicate Trapped(cfg: Config, w: World, src: Source) {
    w.engine.pending == [] && Admissible(cfg, w, src) && Stuck(cfg, w.held, Contamination(w, src))
  }

  /** A journal names rows in the ledger only: resolution sees the edges it saw before. */
  lemma JournalKeepsEdges(e: Compute, src: Source, rows: set<Contaminated>)
    requires Sound(e) && e.pending == [] && rows != {}
    ensures var e' := JournalSeal(JournalAppend(e, src, rows), rows); Edges(e') == Edges(e) && e'.pending == []
  {
    var e' := JournalSeal(JournalAppend(e, src, rows), rows);
    var b := Batch(Journal(src, rows), JournalEntries(src, rows));
    JournalQuiet(e, src, rows);
    IngestKeepsSound(e, b);
    assert e.All() == e.sealed && e'.sealed == JournalAppend(e, src, rows).All();
    forall edge ensures edge in Edges(e') <==> edge in Edges(e) {
      EdgeIn(e, edge);
      EdgeIn(e', edge);
      if !Knows(e, b.token) {
        assert e'.sealed == e.sealed + [b];
        NetAppend(e.sealed, b, Derivation(edge));
      }
    }
  }

  /** A call stopped at a heal leaves a world that resolves, and is checked, as before. */
  lemma HealingKeepsTrap(cfg: Config, w: World, src: Source, cuts: set<Cut>)
    requires Sound(w.engine) && Trapped(cfg, w, src)
    ensures var w' := After(cfg, w, src, Healing(cuts)); Stuck(cfg, w'.held, Contamination(w, src)) ==> Trapped(cfg, w', src)
  {
    hide Edges, JournalAppend, JournalSeal, HealCuts, HealRows, Cuts, Sound, Stuck, Closure, Admissible, Retract, RetractAppend, RetractTables, Ids;
    var rows, w' := Contamination(w, src), After(cfg, w, src, Healing(cuts));
    if rows != {} {
      assert w'.engine == JournalSeal(JournalAppend(w.engine, src, rows), rows);
      JournalKeepsEdges(w.engine, src, rows);
    }
    SameEdges(cfg, w, w', src);
  }

  /** What a call checks, it checks on the edges. */
  lemma SameEdges(cfg: Config, a: World, b: World, src: Source)
    requires Edges(a.engine) == Edges(b.engine)
    ensures Contamination(a, src) == Contamination(b, src) && (Admissible(cfg, a, src) <==> Admissible(cfg, b, src))
  {
    hide Edges, Closure, Resolvable, PayloadPredicateOk, EdgePredicateOk, InTable, LiteralOk;
  }

  lemma TrappedSays(cfg: Config, w: World, src: Source)
    ensures Trapped(cfg, w, src) ==> Admissible(cfg, w, src) && Stuck(cfg, w.held, Contamination(w, src))
  {
  }

  const REWRITTEN := ROW.(envelope := "e2")
  const TWICE_LOG: seq<Delta> := [
    Batch(Captured(1, "mutiny_derivation"), map[Derivation(Edge(ROW, POISON)) := 1]),
    Batch(Captured(2, "mutiny_derivation"), map[Derivation(Edge(REWRITTEN, POISON)) := 1])]
  const TWICE := World(Engine(TWICE_LOG, [], 2), map["main" := {("notes", "6b")}], {})

  lemma TwiceNet(r: Row)
    ensures Net(TWICE_LOG, r) == if r == Derivation(Edge(ROW, POISON)) || r == Derivation(Edge(REWRITTEN, POISON)) then 1 else 0
  {
    FrontNetIsNet(TWICE_LOG, r);
    assert TWICE_LOG[1..] == [TWICE_LOG[1]] && TWICE_LOG[1..][1..] == [];
    assert FrontNet(TWICE_LOG[1..], r) == if r == Derivation(Edge(REWRITTEN, POISON)) then 1 else 0;
  }

  lemma TwiceClosure()
    ensures Edges(TWICE.engine) == {Edge(ROW, POISON), Edge(REWRITTEN, POISON)}
    ensures Contamination(TWICE, POISON) == {ROW, REWRITTEN} && !TooDeep(Edges(TWICE.engine), POISON)
  {
    var e := TWICE.engine;
    hide Edges;
    forall edge ensures edge in Edges(e) <==> edge == Edge(ROW, POISON) || edge == Edge(REWRITTEN, POISON) {
      EdgeIn(e, edge);
      TwiceNet(Derivation(edge));
    }
    var edges := Edges(e);
    assert edges == {Edge(ROW, POISON), Edge(REWRITTEN, POISON)};
    forall c | c == ROW || c == REWRITTEN ensures c in Closure(edges, POISON) && c in Within(edges, POISON, MAX_TAINT_ROUNDS - 1) {
      WithinNext(edges, POISON, 0, Edge(c, POISON));
      WithinNext(edges, POISON, MAX_TAINT_ROUNDS - 2, Edge(c, POISON));
      assert Downstream(edges, POISON, c);
    }
    ShallowIsNotTooDeep(edges, POISON);
  }

  /** The input: one key written under two envelopes of a tainted source, and still held. */
  lemma RewrittenKeyTraps()
    ensures Sound(TWICE.engine) && Trapped(ONE_TABLE, TWICE, POISON)
  {
    TwiceSound();
    TwiceClosure();
    RewrittenRows();
    RewrittenStuck();
    hide Contamination, Edges, TooDeep, Stuck, CitationsOk, PayloadPredicateOk, EdgePredicateOk, LiteralOk, InTable, Sound, Admissible;
    AdmissibleWhen(ONE_TABLE, TWICE, POISON, {ROW, REWRITTEN});
  }

  lemma AdmissibleWhen(cfg: Config, w: World, src: Source, rows: set<Contaminated>)
    requires Contamination(w, src) == rows && LiteralOk(src.system) && LiteralOk(src.record)
    requires !TooDeep(Edges(w.engine), src) && CitationsOk(rows) && EdgePredicateOk(rows)
    requires (forall c :: c in rows ==> c.table in cfg.tables) && forall t :: t in cfg.tables ==> PayloadPredicateOk(InTable(rows, t))
    ensures Admissible(cfg, w, src)
  {
    hide Edges, TooDeep, CitationsOk, PayloadPredicateOk, EdgePredicateOk, LiteralOk, InTable;
  }

  lemma TwiceSound()
    ensures Sound(TWICE.engine)
  {
    assert TWICE.engine.All() == TWICE_LOG;
  }

  lemma RewrittenStuck()
    ensures Stuck(ONE_TABLE, TWICE.held, {ROW, REWRITTEN})
  {
    var rows := {ROW, REWRITTEN};
    LessIrreflexive("main");
    hide Less;
    assert Clash(ONE_TABLE, TWICE.held, rows, ROW, REWRITTEN, "main");
    assert !CutBefore(ONE_TABLE, rows, ROW, "main");
  }

  lemma RewrittenRows()
    ensures forall t :: t in ONE_TABLE.tables ==> PayloadPredicateOk(InTable({ROW, REWRITTEN}, t))
    ensures forall c :: c in {ROW, REWRITTEN} ==> c.table in ONE_TABLE.tables
    ensures EdgePredicateOk({ROW, REWRITTEN}) && CitationsOk({ROW, REWRITTEN})
    ensures LiteralOk(POISON.system) && LiteralOk(POISON.record)
  {
    var rows := {ROW, REWRITTEN};
    PlainKey();
    hide KeyLiteralOk;
    assert InTable(rows, "notes") == rows && |rows| == 2;
    assert LiteralOk("main") && LiteralOk("notes") && LiteralOk("6b");
    assert "notes" + "/" + "6b" == "notes/6b" && LiteralOk("notes/6b");
  }

  lemma PlainKey()
    ensures KeyLiteralOk("6b")
  {
    var hex := "6b";
    assert hex[2..] == "" && HexDecode("") == Some([]);
    assert HexByte('6', 'b') == Some(0x6b);
    assert |hex| == 2 && hex[0] == '6' && hex[1] == 'b' && [0x6b] + [] == [0x6b];
    assert HexDecode(hex) == Some([0x6b] + []);
    assert [0x6b][1..] == [] && Utf8([]) && Utf8([0x6b]);
  }

  // ---- where the call can stop -----------------------------------------------------------------------

  ghost function JournaledEngine(w: World, src: Source): Compute {
    var rows := Contamination(w, src);
    JournalSeal(JournalAppend(w.engine, src, rows), rows)
  }

  lemma EarlyStops(cfg: Config, w: World, src: Source)
    requires Sound(w.engine)
    ensures After(cfg, w, src, Resolved) == w && After(cfg, w, src, Journaled) == w.(engine := JournaledEngine(w, src))
  {
    JournalQuiet(w.engine, src, Contamination(w, src));
    hide JournalSeal, JournalAppend, Contamination, Sound;
  }

  lemma HealingStops(cfg: Config, w: World, src: Source, cuts: set<Cut>, healed: L.Held)
    requires Sound(w.engine) && cuts <= Cuts(cfg, Contamination(w, src)) && healed == HealCuts(cfg, w.held, cuts)
    requires Contamination(w, src) == {} ==> healed == w.held
    ensures After(cfg, w, src, Healing(cuts)) == w.(engine := JournaledEngine(w, src), held := healed)
  {
    JournalQuiet(w.engine, src, Contamination(w, src));
    assert cuts * Cuts(cfg, Contamination(w, src)) == cuts;
    hide JournalSeal, JournalAppend, Contamination, Sound, HealCuts, Cuts;
  }

  lemma RetractedStops(cfg: Config, w: World, src: Source, healed: L.Held, p: Progress, e': Compute)
    requires Sound(w.engine) && WithinTables(cfg, p) && healed == HealRows(cfg, w.held, Contamination(w, src))
    requires RetractedTo(cfg, JournaledEngine(w, src), Contamination(w, src), p, e')
    ensures After(cfg, w, src, p) == w.(engine := e', held := healed)
  {
    JournalQuiet(w.engine, src, Contamination(w, src));
    if Contamination(w, src) == {} { HealNone(cfg, w.held); }
    hide JournalSeal, JournalAppend, Contamination, Sound, HealRows, RetractTables, Retract, RetractAppend, Ids;
  }

  /** One tenant's taint-relevant state: the engine, the held rows, and the cold tier it can read. */
  class Plane {
    const cfg: Config
    var engine: Compute
    var held: L.Held
    var archive: set<(Source, Contaminated)>

    constructor (cfg: Config, engine: Compute, held: L.Held, archive: set<(Source, Contaminated)>)
      ensures this.cfg == cfg && State() == World(engine, held, archive)
    {
      this.cfg, this.engine, this.held, this.archive := cfg, engine, held, archive;
    }

    ghost function State(): World
      reads this
    {
      World(engine, held, archive)
    }

    /** The checks, loops and engine mutations of a call, in order. */
    method Steps(src: Source, fault: Option<Seam>)
      returns (r: Result<set<Contaminated>, TaintError>, ghost p: Progress)
      requires Sound(engine)
      modifies this`engine, this`held
      ensures Sound(engine)
      ensures WithinTables(cfg, p) && State() == After(cfg, old(State()), src, p)
      ensures r.Ok? ==> p == EdgesRetracted && r.value == ReportRows(old(State()), src)
      ensures r.Ok? ==> Admissible(cfg, old(State()), src) && !Stuck(cfg, old(held), Contamination(old(State()), src))
      ensures fault.None? && Admissible(cfg, old(State()), src) && !Stuck(cfg, old(held), Contamination(old(State()), src)) ==> r.Ok?
      ensures r.Err? && r.error.Healer? ==> p.Healing? && Stuck(cfg, held, Contamination(old(State()), src))
      ensures fault.None? && Trapped(cfg, old(State()), src) ==> r.Err? && r.error.Healer? && Trapped(cfg, State(), src)
      ensures r.Err? && r.error.Interrupted? ==>
                fault == Some(r.error.seam) && StopsAt(cfg, Contamination(old(State()), src), r.error.seam, p)
      ensures r.Err? && r.error.KeyDecode? ==> Undecodable(cfg, old(State()), src) && p == Journaled
      ensures Undecodable(cfg, old(State()), src) && fault != Some(AfterResolve) && fault != Some(AfterJournal) ==>
                r.Err? && r.error.KeyDecode?
    {
      hide KeyDecodes, KeyLiteralOk;
      hide Sound, RetractTables, RetractAppend, Retract, JournalAppend, JournalSeal, HealCuts, Cuts, Edges, Closure,
           TooDeep, CitationsOk, PayloadPredicateOk, Stuck, Remembered, Within, EndsOfChains;
      p := Resolved;
      ghost var w0 := State();
      TrappedSays(cfg, w0, src);
      EarlyStops(cfg, w0, src);
      hide Trapped, After;
      if !LiteralOk(src.system) || !LiteralOk(src.record) {
        return Err(InvalidLiteral), p;
      }
      var resolution := Resolve(Edges(engine), src);
      if resolution.Err? {
        return Err(Unresolvable(resolution.error)), p;
      }
      var rows := resolution.value.0;
      if fault == Some(AfterResolve) {
        return Err(Interrupted(AfterResolve)), p;
      }
      if c :| c in rows && c.table !in cfg.tables {
        return Err(UnknownTable(c.table)), p;
      }
      var prior := Remembered(World(engine, held, archive), src);
      JournalQuiet(engine, src, rows);
      engine := JournalSeal(JournalAppend(engine, src, rows), rows);
      p := Journaled;
      if fault == Some(AfterJournal) {
        return Err(Interrupted(AfterJournal)), p;
      }
      if Admissible(cfg, w0, src) { AdmissibleDecodes(cfg, rows); }
      if c :| c in rows && !KeyDecodes(c.key) {
        return Err(KeyDecode(c.table)), p;
      }
      var healed, failed, cuts := HealAll(cfg, held, rows);
      HealingStops(cfg, w0, src, cuts, healed);
      held := healed;
      p := Healing(cuts);
      if failed.Some? {
        if Trapped(cfg, w0, src) { HealingKeepsTrap(cfg, w0, src, cuts); }
        return Err(Healer(failed.value)), p;
      }
      if fault == Some(AfterVolatileHeal) {
        return Err(Interrupted(AfterVolatileHeal)), p;
      }
      var stop;
      engine, stop, p := RetractAll(cfg, engine, rows, fault);
      RetractedStops(cfg, w0, src, held, p, engine);
      if stop.Some? {
        return Err(stop.value), p;
      }
      r := Ok(rows + prior);
    }

    /**
     One taint call with a planned interruption. It always stops at a state `After` names; it reports
     only once every step landed; unplanned, it reports if and only if the world is admissible and no
     holder has a key listed twice when its turn comes. Such a holder stops it, and every retry after
     it. A key that does not decode stops it at the journal, before any heal.
     */
    method Taint(src: Source, fault: Option<Seam>)
      returns (r: Result<set<Contaminated>, TaintError>, ghost p: Progress)
      requires Sound(engine)
      modifies this`engine, this`held
      ensures Sound(engine)
      ensures WithinTables(cfg, p) && State() == After(cfg, old(State()), src, p)
      ensures r.Ok? ==> p == EdgesRetracted && r.value == ReportRows(old(State()), src)
      ensures r.Ok? ==> Fit(cfg, old(State()), src) && !Stuck(cfg, old(held), Contamination(old(State()), src))
      ensures fault.None? && Fit(cfg, old(State()), src) && !Stuck(cfg, old(held), Contamination(old(State()), src)) ==> r.Ok?
      ensures r.Err? && r.error.Healer? ==> p.Healing? && Stuck(cfg, held, Contamination(old(State()), src))
      ensures fault.None? && Trapped(cfg, old(State()), src) ==> r.Err? && r.error.Healer? && Trapped(cfg, State(), src)
      ensures r.Err? && r.error.Interrupted? ==>
                fault == Some(r.error.seam) && StopsAt(cfg, Contamination(old(State()), src), r.error.seam, p)
      ensures r.Err? && r.error.KeyDecode? ==> Garbled(cfg, old(State()), src) && p == Journaled
      ensures Garbled(cfg, old(State()), src) && fault != Some(AfterResolve) && fault != Some(AfterJournal) ==>
                r.Err? && r.error.KeyDecode?
    {
      hide *;
      FitIsAdmissible(cfg, State(), src);
      GarbledIsUndecodable(cfg, State(), src);
      r, p := Steps(src, fault);
    }
  }
}
