/**
 Incremental semantic grouping over fixed anchors: every row sits on the lowest-indexed best anchor, and
 disjoint partitions merge, in any order, to the operator that was fed all rows.
 */
module Groups {
  import opened Wrappers
  import opened Order
  import opened TopK
  import L = Lineage

  type Vector = seq<int>

  /** A plan: the admission rules it shares with a top-k query, its anchors, and how it reads a row's columns. */
  datatype Plan = Plan(
    query: Query,
    anchors: seq<Vector>,
    dot: (Vector, Vector) -> int,
    cost: string -> real,
    error: string -> bool)

  /** The part of a plan that operators compare before they merge. */
  datatype Spec = Spec(space: string, anchors: seq<Vector>, filter: string, budget: nat)

  /** What the program computes for every plan alike. */
  datatype Ops = Ops(
    dot: (Vector, Vector) -> int,
    cost: string -> real,
    error: string -> bool,
    admits: (string, string) -> bool,
    bytes: Record -> nat)

  function PlanOf(ops: Ops, spec: Spec): Plan {
    var dimension := if spec.anchors == [] then 0 else |spec.anchors[0]|;
    var query := Query(spec.space, dimension, 0, spec.budget, (v: Vector) => 0, (columns: string) => ops.admits(spec.filter, columns), ops.bytes);
    Plan(query, spec.anchors, ops.dot, ops.cost, ops.error)
  }

  // ---- nearest anchor --------------------------------------------------------------------------------------

  /** Anchor `g` scores best, and no earlier one scores as well. */
  ghost predicate IsNearest(plan: Plan, v: Vector, g: nat) {
    && g < |plan.anchors|
    && (forall i :: 0 <= i < |plan.anchors| ==> plan.dot(plan.anchors[i], v) <= plan.dot(plan.anchors[g], v))
    && (forall i :: 0 <= i < g ==> plan.dot(plan.anchors[i], v) < plan.dot(plan.anchors[g], v))
  }

  lemma NearestIsUnique(plan: Plan, v: Vector, g: nat, h: nat)
    requires IsNearest(plan, v, g) && IsNearest(plan, v, h)
    ensures g == h
  {
    var a, b := plan.dot(plan.anchors[g], v), plan.dot(plan.anchors[h], v);
    assert a <= b && b <= a;
  }

  method NearestAnchor(plan: Plan, v: Vector) returns (g: nat)
    ensures plan.anchors == [] ==> g == 0
    ensures plan.anchors != [] ==> IsNearest(plan, v, g)
  {
    g := 0;
    var i := 1;
    while i < |plan.anchors|
      invariant plan.anchors != [] ==> 0 <= g < i <= |plan.anchors|
      invariant plan.anchors == [] ==> g == 0
      invariant plan.anchors != [] ==> forall j :: 0 <= j < i ==> plan.dot(plan.anchors[j], v) <= plan.dot(plan.anchors[g], v)
      invariant plan.anchors != [] ==> forall j :: 0 <= j < g ==> plan.dot(plan.anchors[j], v) < plan.dot(plan.anchors[g], v)
    {
      if plan.dot(plan.anchors[i], v) > plan.dot(plan.anchors[g], v) { g := i; }
      i := i + 1;
    }
  }

  // ---- merging partitions ------------------------------------------------------------------------------------

  datatype GroupError = DifferentPlan | GroupMergeOverlap | Refused(error: TopKError)

  /** A partition's rows as insertions, in key order. */
  ghost function Inserts(rows: Rows): seq<Delta> {
    LessIsStrictTotal();
    InsertsOf(rows, Listing(Less, rows.Keys))
  }

  function InsertsOf(rows: Rows, keys: seq<string>): seq<Delta>
    requires forall i :: 0 <= i < |keys| ==> keys[i] in rows
  {
    seq(|keys|, i requires 0 <= i < |keys| => Delta(rows[keys[i]], 1))
  }

  ghost function MergeDisjoint(q: Query, rows: Rows, other: Rows): Result<Rows, GroupError> {
    if !(rows.Keys !! other.Keys) then Err(GroupMergeOverlap) else
      match Epoch(q, rows, Inserts(other))
      case Ok(next) => Ok(next)
      case Err(e) => Err(Refused(e))
  }

  ghost function Restricted(rows: Rows, keys: seq<string>): Rows {
    map key | key in rows && key in keys :: rows[key]
  }

  lemma RestrictedLast(rows: Rows, other: Rows, keys: seq<string>)
    requires keys != [] && keys[|keys| - 1] in other
    ensures rows + Restricted(other, keys) == (rows + Restricted(other, keys[..|keys| - 1]))[keys[|keys| - 1] := other[keys[|keys| - 1]]]
  {
    var init, key := keys[..|keys| - 1], keys[|keys| - 1];
    assert keys == init + [key];
  }

  lemma {:induction false} FoldInserts(q: Query, rows: Rows, other: Rows, keys: seq<string>)
    requires Fits(q, other) && rows.Keys !! other.Keys
    requires forall i :: 0 <= i < |keys| ==> keys[i] in other
    requires forall i, j :: 0 <= i < j < |keys| ==> keys[i] != keys[j]
    ensures Fold(q, rows, InsertsOf(other, keys)) == Ok(rows + Restricted(other, keys))
  {
    if keys == [] {
      assert Restricted(other, keys) == map[];
      assert rows + map[] == rows;
    } else {
      var init, key := keys[..|keys| - 1], keys[|keys| - 1];
      FoldInserts(q, rows, other, init);
      var deltas := InsertsOf(other, keys);
      assert deltas[..|deltas| - 1] == InsertsOf(other, init);
      assert deltas[|deltas| - 1] == Delta(other[key], 1);
      assert key !in init;
      var prior := rows + Restricted(other, init);
      assert key !in prior;
      assert ApplyOne(q, prior, Delta(other[key], 1)) == Ok(prior[key := other[key]]);
      RestrictedLast(rows, other, keys);
      hide Restricted, InsertsOf, ApplyOne, Fits;
    }
  }

  /** Feeding a whole disjoint partition adds exactly its rows. */
  lemma FoldPartition(q: Query, rows: Rows, other: Rows)
    requires Fits(q, other) && rows.Keys !! other.Keys
    ensures Fold(q, rows, Inserts(other)) == Ok(rows + other)
  {
    hide Sorted, Less, Fold, Fits;
    LessIsStrictTotal();
    var keys := Listing(Less, other.Keys);
    SortedDistinct(keys);
    ListedAll(other, keys);
    hide Restricted, Elements, InsertsOf, Listing;
    FoldInserts(q, rows, other, keys);
  }

  lemma ListedAll(rows: Rows, keys: seq<string>)
    requires Elements(keys) == rows.Keys
    ensures (forall i :: 0 <= i < |keys| ==> keys[i] in rows) && Restricted(rows, keys) == rows
  {
    assert forall key :: key in keys <==> key in Elements(keys);
    assert forall i :: 0 <= i < |keys| ==> keys[i] in keys;
  }

  /** Merged operators: one that was fed its rows in an epoch, or one that took in another. */
  datatype Tree = Leaf(rows: Rows) | Node(left: Tree, right: Tree)

  ghost function Leaves(t: Tree): seq<Rows> {
    match t
    case Leaf(rows) => [rows]
    case Node(left, right) => Leaves(left) + Leaves(right)
  }

  ghost function MergeTree(q: Query, t: Tree): Result<Rows, GroupError> {
    match t
    case Leaf(rows) => MergeDisjoint(q, map[], rows)
    case Node(left, right) =>
      var a, b := MergeTree(q, left), MergeTree(q, right);
      if a.Err? then a else if b.Err? then b else MergeDisjoint(q, a.value, b.value)
  }

  ghost function Union(parts: seq<Rows>): Rows {
    if parts == [] then map[] else Union(parts[..|parts| - 1]) + parts[|parts| - 1]
  }

  ghost predicate Disjoint(parts: seq<Rows>) {
    forall i, j :: 0 <= i < j < |parts| ==> parts[i].Keys !! parts[j].Keys
  }

  lemma {:induction false} UnionHolds(parts: seq<Rows>, i: nat, key: string)
    requires Disjoint(parts) && i < |parts| && key in parts[i]
    ensures key in Union(parts) && Union(parts)[key] == parts[i][key]
  {
    if i < |parts| - 1 { UnionHolds(parts[..|parts| - 1], i, key); }
  }

  lemma {:induction false} UnionFrom(parts: seq<Rows>, key: string) returns (i: nat)
    requires key in Union(parts)
    ensures i < |parts| && key in parts[i]
  {
    if key in parts[|parts| - 1] { return |parts| - 1; }
    i := UnionFrom(parts[..|parts| - 1], key);
  }

  lemma TotalGrows(q: Query, rows: Rows, other: Rows)
    requires rows.Keys !! other.Keys
    ensures Total(q, rows) <= Total(q, rows + other)
  {
    TotalShrinks(q, rows + other, other.Keys);
    assert (rows + other) - other.Keys == rows;
  }

  /** One merge: refused on a shared key or past the budget, otherwise the rows of both. */
  lemma MergeDisjointExact(q: Query, rows: Rows, other: Rows)
    requires Fits(q, other)
    ensures MergeDisjoint(q, rows, other) ==
            if !(rows.Keys !! other.Keys) then Err(GroupMergeOverlap)
            else if Total(q, rows + other) > q.budget then Err(Refused(StateBudgetExceeded))
            else Ok(rows + other)
  {
    if rows.Keys !! other.Keys { FoldPartition(q, rows, other); }
    hide Total, Inserts, Fold;
  }

  /** What taking `other` in came to: a refusal, or the rows of both. */
  ghost predicate Took(q: Query, rows: Rows, other: Rows, r: Option<GroupError>, after: Rows) {
    match MergeDisjoint(q, rows, other)
    case Err(error) => r == Some(error)
    case Ok(_) => r == None && after == rows + other
  }

  /** Exactly what a merge is to the operator that takes the rows in. */
  lemma MergeIsEpoch(q: Query, rows: Rows, other: Rows)
    requires Fits(q, other)
    ensures !(rows.Keys !! other.Keys) ==> MergeDisjoint(q, rows, other) == Err(GroupMergeOverlap)
    ensures rows.Keys !! other.Keys ==>
              var r := Epoch(q, rows, Inserts(other));
              MergeDisjoint(q, rows, other) == (if r.Ok? then Ok(r.value) else Err(Refused(r.error))) && (r.Ok? ==> r.value == rows + other)
  {
    hide Fold, Total, Inserts, Fits;
    MergeDisjointExact(q, rows, other);
  }

  lemma TookNothing(q: Query, rows: Rows, other: Rows)
    requires Fits(q, other) && rows.Keys * other.Keys != {}
    ensures Took(q, rows, other, Some(GroupMergeOverlap), rows)
  {
    MergeIsEpoch(q, rows, other);
    hide MergeDisjoint, Epoch, Fits;
  }

  lemma TookAll(q: Query, rows: Rows, other: Rows, refused: Option<TopKError>, after: Rows)
    requires Fits(q, other) && rows.Keys * other.Keys == {}
    requires match Epoch(q, rows, Inserts(other)) case Err(e) => refused == Some(e) case Ok(next) => refused == None && after == next
    ensures Took(q, rows, other, if refused.Some? then Some(Refused(refused.value)) else None, after)
  {
    MergeIsEpoch(q, rows, other);
    hide MergeDisjoint, Epoch, Fits, Inserts;
  }

  lemma {:induction false} UnionConcat(a: seq<Rows>, b: seq<Rows>)
    ensures Union(a + b) == Union(a) + Union(b)
  {
    if b == [] {
      assert a + b == a;
    } else {
      assert (a + b)[..|a + b| - 1] == a + b[..|b| - 1];
      UnionConcat(a, b[..|b| - 1]);
      assert (a + b)[|a + b| - 1] == b[|b| - 1];
    }
  }

  lemma DisjointConcat(a: seq<Rows>, b: seq<Rows>)
    ensures Disjoint(a + b) <==> Disjoint(a) && Disjoint(b) && Union(a).Keys !! Union(b).Keys
  {
    if Disjoint(a + b) {
      forall i, j | 0 <= i < j < |a| ensures a[i].Keys !! a[j].Keys { assert (a + b)[i] == a[i] && (a + b)[j] == a[j]; }
      forall i, j | 0 <= i < j < |b| ensures b[i].Keys !! b[j].Keys { assert (a + b)[|a| + i] == b[i] && (a + b)[|a| + j] == b[j]; }
      forall i, j | 0 <= i < |a| && 0 <= j < |b| ensures a[i].Keys !! b[j].Keys { assert (a + b)[i] == a[i] && (a + b)[|a| + j] == b[j]; }
      forall key | key in Union(a) ensures key !in Union(b) {
        var i := UnionFrom(a, key);
        if key in Union(b) { var j := UnionFrom(b, key); }
      }
    }
    if Disjoint(a) && Disjoint(b) && Union(a).Keys !! Union(b).Keys { DisjointJoined(a, b); }
  }

  lemma DisjointJoined(a: seq<Rows>, b: seq<Rows>)
    requires Disjoint(a) && Disjoint(b) && Union(a).Keys !! Union(b).Keys
    ensures Disjoint(a + b)
  {
    forall i, j | 0 <= i < |a| && 0 <= j < |b| ensures a[i].Keys !! b[j].Keys {
      forall key | key in a[i] ensures key !in b[j] {
        UnionHolds(a, i, key);
        if key in b[j] { UnionHolds(b, j, key); }
      }
    }
  }

  ghost predicate AllFit(q: Query, parts: seq<Rows>) { forall i :: 0 <= i < |parts| ==> Fits(q, parts[i]) }

  lemma {:induction false} UnionFits(q: Query, parts: seq<Rows>)
    requires AllFit(q, parts)
    ensures Fits(q, Union(parts))
  {
    if parts != [] { UnionFits(q, parts[..|parts| - 1]); }
  }

  lemma AllFitParts(q: Query, a: seq<Rows>, b: seq<Rows>)
    requires AllFit(q, a + b)
    ensures AllFit(q, a) && AllFit(q, b)
  {
    forall i | 0 <= i < |a| ensures Fits(q, a[i]) { assert (a + b)[i] == a[i]; }
    forall i | 0 <= i < |b| ensures Fits(q, b[i]) { assert (a + b)[|a| + i] == b[i]; }
  }

  /** Exactly when a tree of merges succeeds, and what it gives. */
  lemma {:induction false} MergeTreeIsUnion(q: Query, t: Tree)
    requires AllFit(q, Leaves(t))
    ensures MergeTree(q, t).Ok? <==> Disjoint(Leaves(t)) && Total(q, Union(Leaves(t))) <= q.budget
    ensures MergeTree(q, t).Ok? ==> MergeTree(q, t).value == Union(Leaves(t))
    decreases t
  {
    match t
    case Leaf(rows) => LeafIsItself(q, rows);
    case Node(left, right) =>
      var a, b := Leaves(left), Leaves(right);
      hide Disjoint, Total, Fits, MergeDisjoint, Union, AllFit, Leaves;
      AllFitParts(q, a, b);
      MergeTreeIsUnion(q, left);
      MergeTreeIsUnion(q, right);
      JoinIsUnion(q, a, b);
  }

  /** Two merged operators join exactly if all their parts would. */
  lemma JoinIsUnion(q: Query, a: seq<Rows>, b: seq<Rows>)
    requires AllFit(q, b)
    ensures Disjoint(a + b) && Total(q, Union(a + b)) <= q.budget <==>
            Disjoint(a) && Disjoint(b) && Total(q, Union(a)) <= q.budget && Total(q, Union(b)) <= q.budget && MergeDisjoint(q, Union(a), Union(b)).Ok?
    ensures MergeDisjoint(q, Union(a), Union(b)).Ok? ==> MergeDisjoint(q, Union(a), Union(b)).value == Union(a + b)
  {
    hide Disjoint, Total, Fits, MergeDisjoint, Union, AllFit;
    UnionConcat(a, b);
    DisjointConcat(a, b);
    UnionFits(q, b);
    MergeDisjointExact(q, Union(a), Union(b));
    if Union(a).Keys !! Union(b).Keys {
      TotalGrows(q, Union(a), Union(b));
      UnionsSwap(a, b);
      TotalGrows(q, Union(b), Union(a));
    }
  }

  lemma UnionsSwap(a: seq<Rows>, b: seq<Rows>)
    requires Union(a).Keys !! Union(b).Keys
    ensures Union(a) + Union(b) == Union(b) + Union(a)
  {
  }

  lemma LeafIsItself(q: Query, rows: Rows)
    requires AllFit(q, [rows])
    ensures Disjoint([rows]) && Union([rows]) == rows
    ensures MergeDisjoint(q, map[], rows) == if Total(q, rows) <= q.budget then Ok(rows) else Err(Refused(StateBudgetExceeded))
  {
    assert [rows][..0] == [] && Union([]) == map[];
    assert map[] + rows == rows;
    assert Fits(q, [rows][0]);
    hide Fits, Total, MergeDisjoint;
    MergeDisjointExact(q, map[], rows);
  }

  // ---- order does not matter ---------------------------------------------------------------------------------

  lemma {:induction false} TwiceIn(parts: seq<Rows>, x: Rows) returns (i: nat, j: nat)
    requires multiset(parts)[x] >= 2
    ensures i < j < |parts| && parts[i] == parts[j] == x
  {
    var init, last := parts[..|parts| - 1], parts[|parts| - 1];
    assert parts == init + [last];
    if last == x {
      assert x in multiset(init);
      i :| 0 <= i < |init| && init[i] == x;
      j := |parts| - 1;
    } else {
      i, j := TwiceIn(init, x);
    }
  }

  lemma TwiceCounted(parts: seq<Rows>, i: nat, j: nat)
    requires i < j < |parts| && parts[i] == parts[j]
    ensures multiset(parts)[parts[i]] >= 2
  {
    assert parts == parts[..j] + [parts[j]] + parts[j + 1..];
    assert parts[..j][i] in multiset(parts[..j]);
  }

  lemma PermutedDisjoint(parts: seq<Rows>, other: seq<Rows>)
    requires multiset(parts) == multiset(other) && Disjoint(parts)
    ensures Disjoint(other)
  {
    forall i, j | 0 <= i < j < |other| ensures other[i].Keys !! other[j].Keys {
      if other[i] == other[j] {
        TwiceCounted(other, i, j);
        var a, b := TwiceIn(parts, other[i]);
        assert parts[a].Keys !! parts[b].Keys;
      } else {
        assert other[i] in multiset(parts) && other[j] in multiset(parts);
        var a :| 0 <= a < |parts| && parts[a] == other[i];
        var b :| 0 <= b < |parts| && parts[b] == other[j];
        assert a < b ==> parts[a].Keys !! parts[b].Keys;
        assert b < a ==> parts[b].Keys !! parts[a].Keys;
      }
    }
  }

  lemma PermutedUnion(parts: seq<Rows>, other: seq<Rows>)
    requires multiset(parts) == multiset(other) && Disjoint(parts)
    ensures Union(parts) == Union(other)
  {
    PermutedDisjoint(parts, other);
    forall key | key in Union(parts) ensures key in Union(other) && Union(other)[key] == Union(parts)[key] {
      var i := UnionFrom(parts, key);
      assert parts[i] in multiset(other);
      var j :| 0 <= j < |other| && other[j] == parts[i];
      UnionHolds(parts, i, key);
      UnionHolds(other, j, key);
    }
    forall key | key in Union(other) ensures key in Union(parts) {
      var j := UnionFrom(other, key);
      assert other[j] in multiset(parts);
      var i :| 0 <= i < |parts| && parts[i] == other[j];
      UnionHolds(parts, i, key);
    }
  }

  // ---- summaries -----------------------------------------------------------------------------------------------

  datatype Summary = Summary(group: nat, count: nat, avgCost: real, errorRate: real, exemplar: string, members: seq<string>)

  /** The admitted rows of one group. */
  ghost function MemberKeys(plan: Plan, rows: Rows, g: nat): set<string> {
    set key | key in rows && plan.query.admits(rows[key].columns) && IsNearest(plan, rows[key].vector, g)
  }

  function CostSum(plan: Plan, rows: Rows, keys: seq<string>): real
    requires forall i :: 0 <= i < |keys| ==> keys[i] in rows
  {
    if keys == [] then 0.0 else CostSum(plan, rows, keys[..|keys| - 1]) + plan.cost(rows[keys[|keys| - 1]].columns)
  }

  function Errors(plan: Plan, rows: Rows, keys: seq<string>): nat
    requires forall i :: 0 <= i < |keys| ==> keys[i] in rows
  {
    if keys == [] then 0 else
      Errors(plan, rows, keys[..|keys| - 1]) + if plan.error(rows[keys[|keys| - 1]].columns) then 1 else 0
  }

  /** What a sum of costs is: nothing, one row's cost, or the sums of two parts. */
  lemma {:induction false} CostsAdd(plan: Plan, rows: Rows, a: seq<string>, b: seq<string>)
    requires (forall i :: 0 <= i < |a| ==> a[i] in rows) && (forall i :: 0 <= i < |b| ==> b[i] in rows)
    ensures CostSum(plan, rows, []) == 0.0
    ensures |a| == 1 ==> CostSum(plan, rows, a) == plan.cost(rows[a[0]].columns)
    ensures CostSum(plan, rows, a + b) == CostSum(plan, rows, a) + CostSum(plan, rows, b)
  {
    if |a| == 1 { assert a[..0] == []; }
    if b == [] {
      assert a + b == a;
    } else {
      assert (a + b)[..|a + b| - 1] == a + b[..|b| - 1];
      CostsAdd(plan, rows, a, b[..|b| - 1]);
    }
  }

  ghost function Erring(plan: Plan, rows: Rows, keys: set<string>): set<string> {
    set key | key in keys && key in rows && plan.error(rows[key].columns)
  }

  lemma ErringMore(plan: Plan, rows: Rows, keys: set<string>, last: string)
    requires last in rows && last !in keys
    ensures |Erring(plan, rows, keys + {last})| == |Erring(plan, rows, keys)| + if plan.error(rows[last].columns) then 1 else 0
  {
    var fewer := Erring(plan, rows, keys);
    assert last !in fewer;
    assert Erring(plan, rows, keys + {last}) == if plan.error(rows[last].columns) then fewer + {last} else fewer;
  }

  /** Members listed once count each row in error once. */
  lemma {:induction false} ErrorsCount(plan: Plan, rows: Rows, keys: seq<string>)
    requires (forall i :: 0 <= i < |keys| ==> keys[i] in rows) && (forall i, j :: 0 <= i < j < |keys| ==> keys[i] != keys[j])
    ensures Errors(plan, rows, keys) == |Erring(plan, rows, Elements(keys))|
  {
    if keys == [] {
      assert Elements(keys) == {};
    } else {
      var init, last := keys[..|keys| - 1], keys[|keys| - 1];
      ErrorsCount(plan, rows, init);
      ElementsAppend(init, last);
      assert keys == init + [last] && last !in Elements(init);
      hide Erring, Elements;
      ErringMore(plan, rows, Elements(init), last);
    }
  }

  function Score(plan: Plan, rows: Rows, g: nat, key: string): Ranked
    requires g < |plan.anchors| && key in rows
  {
    Ranked(plan.dot(plan.anchors[g], rows[key].vector), key)
  }

  /** The member closest to the anchor, the smallest key among equals. */
  ghost predicate IsExemplar(plan: Plan, rows: Rows, g: nat, keys: set<string>, e: string)
    requires g < |plan.anchors| && keys <= rows.Keys
  {
    e in keys && forall key :: key in keys && key != e ==>
      Beats(plan.dot(plan.anchors[g], rows[e].vector), e, plan.dot(plan.anchors[g], rows[key].vector), key)
  }

  /** What a group's summary says of the rows. */
  ghost predicate IsSummary(plan: Plan, rows: Rows, s: Summary) {
    var keys := MemberKeys(plan, rows, s.group);
    && s.group < |plan.anchors| && keys != {}
    && Sorted(Less, s.members) && Elements(s.members) == keys
    && (forall i :: 0 <= i < |s.members| ==> s.members[i] in rows)
    && s.count == |s.members| > 0
    && s.avgCost == CostSum(plan, rows, s.members) / (s.count as real)
    && s.errorRate == (|Erring(plan, rows, keys)| as real) / (s.count as real)
    && keys <= rows.Keys && IsExemplar(plan, rows, s.group, keys, s.exemplar)
  }

  /** One summary per non-empty group, in group order. */
  ghost predicate Summarizes(plan: Plan, rows: Rows, n: nat, out: seq<Summary>) {
    && (forall i, j :: 0 <= i < j < |out| ==> out[i].group < out[j].group)
    && (forall i :: 0 <= i < |out| ==> out[i].group < n && IsSummary(plan, rows, out[i]))
    && (forall g :: 0 <= g < n && MemberKeys(plan, rows, g) != {} ==> exists i :: 0 <= i < |out| && out[i].group == g)
  }

  lemma SummaryIsUnique(plan: Plan, rows: Rows, s: Summary, t: Summary)
    requires IsSummary(plan, rows, s) && IsSummary(plan, rows, t) && s.group == t.group
    ensures s == t
  {
    LessIsStrictTotal();
    SortedIsUnique(Less, s.members, t.members);
    ExemplarIsUnique(plan, rows, s.group, MemberKeys(plan, rows, s.group), s.exemplar, t.exemplar);
    hide Sorted, Less, CostSum, Errors, IsExemplar, MemberKeys, Elements;
  }

  lemma ExemplarIsUnique(plan: Plan, rows: Rows, g: nat, keys: set<string>, d: string, e: string)
    requires g < |plan.anchors| && keys <= rows.Keys
    requires IsExemplar(plan, rows, g, keys, d) && IsExemplar(plan, rows, g, keys, e)
    ensures d == e
  {
    if d != e {
      var anchor := plan.anchors[g];
      BeforeIsBeats(Ranked(plan.dot(anchor, rows[d].vector), d), Ranked(plan.dot(anchor, rows[e].vector), e));
      BeforeIsBeats(Ranked(plan.dot(anchor, rows[e].vector), e), Ranked(plan.dot(anchor, rows[d].vector), d));
      BeforeIsStrictTotal();
      hide Before, Beats;
    }
  }

  ghost function GroupsOf(out: seq<Summary>): seq<nat> { seq(|out|, i requires 0 <= i < |out| => out[i].group) }

  lemma GroupsListed(plan: Plan, rows: Rows, n: nat, out: seq<Summary>, g: nat)
    requires Summarizes(plan, rows, n, out)
    ensures g in Elements(GroupsOf(out)) <==> g < n && MemberKeys(plan, rows, g) != {}
  {
    if g in Elements(GroupsOf(out)) {
      var i :| 0 <= i < |out| && GroupsOf(out)[i] == g;
      assert IsSummary(plan, rows, out[i]);
    }
    hide IsSummary, MemberKeys;
    if g < n && MemberKeys(plan, rows, g) != {} {
      var i :| 0 <= i < |out| && out[i].group == g;
      assert GroupsOf(out)[i] == g;
    }
  }

  /** The summaries are a function of the rows alone: however the operator came to hold them, they are the same. */
  lemma SummariesAreUnique(plan: Plan, rows: Rows, n: nat, a: seq<Summary>, b: seq<Summary>)
    requires Summarizes(plan, rows, n, a) && Summarizes(plan, rows, n, b)
    ensures a == b
  {
    var lt := (x: nat, y: nat) => x < y;
    var ga, gb := GroupsOf(a), GroupsOf(b);
    forall g ensures g in Elements(ga) <==> g in Elements(gb) {
      GroupsListed(plan, rows, n, a, g);
      GroupsListed(plan, rows, n, b, g);
    }
    hide IsSummary, MemberKeys, Elements;
    SortedIsUnique(lt, ga, gb);
    assert |a| == |ga| == |gb| == |b|;
    forall i | 0 <= i < |a| ensures a[i] == b[i] {
      assert ga[i] == gb[i];
      SummaryIsUnique(plan, rows, a[i], b[i]);
    }
  }

  lemma PermutedFits(q: Query, parts: seq<Rows>, other: seq<Rows>)
    requires multiset(parts) == multiset(other) && AllFit(q, parts)
    ensures AllFit(q, other)
  {
    forall j | 0 <= j < |other| ensures Fits(q, other[j]) {
      assert other[j] in multiset(parts);
      var i :| 0 <= i < |parts| && parts[i] == other[j];
    }
  }

  lemma PermutedTrees(q: Query, s: Tree, t: Tree)
    requires AllFit(q, Leaves(s)) && multiset(Leaves(s)) == multiset(Leaves(t))
    ensures MergeTree(q, s).Ok? <==> MergeTree(q, t).Ok?
    ensures MergeTree(q, s).Ok? ==> MergeTree(q, t) == MergeTree(q, s) == Ok(Union(Leaves(s)))
  {
    var a, b := Leaves(s), Leaves(t);
    hide AllFit, Disjoint, Union, Total, MergeTree;
    PermutedFits(q, a, b);
    MergeTreeIsUnion(q, s);
    MergeTreeIsUnion(q, t);
    if Disjoint(a) {
      PermutedDisjoint(a, b);
      PermutedUnion(a, b);
    } else if Disjoint(b) {
      PermutedDisjoint(b, a);
    }
  }

  lemma FedAtOnce(q: Query, rows: Rows)
    requires Fits(q, rows) && Total(q, rows) <= q.budget
    ensures Epoch(q, map[], Inserts(rows)) == Ok(rows)
  {
    FoldPartition(q, map[], rows);
    assert map[] + rows == rows;
    hide Fits, Fold, Inserts, Total;
  }

  /**
   Grouping is partition-independent. Two trees of merges over the same operators, whatever their shape and
   order, succeed together and hold the same rows, those of one operator fed everything in one epoch, and any
   summaries read off the two and off that one are the same.
   */
  lemma MergeOrderIsIrrelevant(plan: Plan, s: Tree, t: Tree, n: nat, a: seq<Summary>, b: seq<Summary>)
    requires AllFit(plan.query, Leaves(s)) && multiset(Leaves(s)) == multiset(Leaves(t))
    ensures MergeTree(plan.query, s).Ok? <==> MergeTree(plan.query, t).Ok?
    ensures MergeTree(plan.query, s).Ok? ==>
              && MergeTree(plan.query, t) == MergeTree(plan.query, s)
              && Epoch(plan.query, map[], Inserts(Union(Leaves(s)))) == Ok(MergeTree(plan.query, s).value)
              && (Summarizes(plan, MergeTree(plan.query, s).value, n, a) && Summarizes(plan, MergeTree(plan.query, t).value, n, b) ==> a == b)
  {
    var q, rows := plan.query, Union(Leaves(s));
    hide Summarizes, AllFit, Union, Fits, Inserts, Epoch, MergeTree, Total;
    PermutedTrees(q, s, t);
    if MergeTree(q, s).Ok? {
      UnionFits(q, Leaves(s));
      MergeTreeIsUnion(q, s);
      FedAtOnce(q, rows);
      if Summarizes(plan, rows, n, a) && Summarizes(plan, rows, n, b) { SummariesAreUnique(plan, rows, n, a, b); }
    }
  }

  // ---- the operator ----------------------------------------------------------------------------------------------

  class SemanticGroups {
    const ops: Ops
    const spec: Spec
    const plan: Plan := PlanOf(ops, spec)
    var rows: map<string, (Record, nat)>
    var stateBytes: nat

    ghost function Plain(): Rows
      reads this
    {
      Strip(rows)
    }

    /** Every held row carries its own nearest anchor, and the byte count is the sum over the rows. */
    ghost predicate Valid()
      reads this
    {
      && plan.anchors != [] && Fits(plan.query, Plain()) && stateBytes == Total(plan.query, Plain()) <= plan.query.budget
      && Assigned(plan, rows)
    }

    constructor (ops: Ops, spec: Spec)
      requires spec.anchors != []
      ensures Valid() && this.ops == ops && this.spec == spec && Plain() == map[]
      ensures plan.query.space == spec.space && plan.query.dimension == |spec.anchors[0]| && plan.query.budget == spec.budget
      ensures plan.query.bytes == ops.bytes && forall columns :: plan.query.admits(columns) == ops.admits(spec.filter, columns)
      ensures plan.anchors == spec.anchors && plan.dot == ops.dot && plan.cost == ops.cost && plan.error == ops.error
    {
      this.ops, this.spec := ops, spec;
      rows, stateBytes := map[], 0;
      new;
      assert Plain() == map[];
    }

    /** One delta on a working copy. */
    method ApplyOneTo(rows: map<string, (Record, nat)>, bytes: nat, d: Delta)
      returns (r: Result<(map<string, (Record, nat)>, nat), TopKError>)
      requires plan.anchors != [] && Assigned(plan, rows) && bytes == Total(plan.query, Strip(rows))
      ensures ApplyOne(plan.query, Strip(rows), d).Err? ==> r == Err(ApplyOne(plan.query, Strip(rows), d).error)
      ensures ApplyOne(plan.query, Strip(rows), d).Ok? ==>
                r.Ok? && Strip(r.value.0) == ApplyOne(plan.query, Strip(rows), d).value
                && Assigned(plan, r.value.0) && r.value.1 == Total(plan.query, Strip(r.value.0))
    {
      hide Total, IsNearest, PlanOf;
      var q, record := plan.query, d.record;
      if record.space != q.space { return Err(SpaceMismatch); }
      if |record.vector| != q.dimension { return Err(DimensionMismatch); }
      if d.weight == 1 {
        if record.key in rows { return Err(DuplicateKey(record.key)); }
        var group := NearestAnchor(plan, record.vector);
        var next := rows[record.key := (record, group)];
        assert Strip(next) == Strip(rows)[record.key := record];
        TotalWith(q, Strip(rows), record);
        return Ok((next, bytes + q.bytes(record)));
      } else if d.weight == -1 {
        if record.key !in rows { return Err(UnknownRetraction(record.key)); }
        if rows[record.key].0 != record { return Err(RetractionMismatch(record.key)); }
        var next := rows - {record.key};
        assert Strip(next) == Strip(rows) - {record.key};
        TotalWithout(q, Strip(rows), record.key);
        return Ok((next, bytes - q.bytes(record)));
      } else {
        return Err(InvalidWeight);
      }
    }

    method FoldCopy(deltas: seq<Delta>) returns (r: Result<(map<string, (Record, nat)>, nat), TopKError>)
      requires Valid()
      ensures Fold(plan.query, Plain(), deltas).Err? ==> r == Err(Fold(plan.query, Plain(), deltas).error)
      ensures Fold(plan.query, Plain(), deltas).Ok? ==>
                r.Ok? && Strip(r.value.0) == Fold(plan.query, Plain(), deltas).value
                && Assigned(plan, r.value.0) && r.value.1 == Total(plan.query, Strip(r.value.0))
    {
      hide Total, Assigned, Strip, ApplyOne, Fits, PlanOf;
      var nextRows, nextBytes := rows, stateBytes;
      var i := 0;
      while i < |deltas|
        invariant 0 <= i <= |deltas| && Fold(plan.query, Plain(), deltas[..i]) == Ok(Strip(nextRows))
        invariant Assigned(plan, nextRows) && nextBytes == Total(plan.query, Strip(nextRows))
      {
        assert deltas[..i + 1][..i] == deltas[..i];
        var applied := ApplyOneTo(nextRows, nextBytes, deltas[i]);
        if applied.Err? {
          FoldStops(plan.query, Plain(), deltas, i + 1);
          return Err(applied.error);
        }
        nextRows, nextBytes := applied.value.0, applied.value.1;
        i := i + 1;
      }
      assert deltas[..i] == deltas;
      r := Ok((nextRows, nextBytes));
    }

    method ApplyEpoch(deltas: seq<Delta>) returns (r: Option<TopKError>)
      requires Valid()
      modifies this
      ensures Valid()
      ensures Epoch(plan.query, old(Plain()), deltas).Err? ==> r == Some(Epoch(plan.query, old(Plain()), deltas).error) && rows == old(rows)
      ensures Epoch(plan.query, old(Plain()), deltas).Ok? ==> r == None && Ok(Plain()) == Epoch(plan.query, old(Plain()), deltas)
      ensures r == None ==> Results(old(Plain()), deltas, Plain())
      ensures (forall i :: 0 <= i < |deltas| ==> Accepts(plan.query, old(Plain()), deltas[..i], deltas[i]))
              <==> r == None || r == Some(StateBudgetExceeded)
    {
      EpochExactly(plan.query, Plain(), deltas);
      hide PlanOf, Fold, Results, Accepts;
      var next := FoldCopy(deltas);
      if next.Err? { return Some(next.error); }
      if next.value.1 > plan.query.budget { return Some(StateBudgetExceeded); }
      FoldFits(plan.query, Plain(), deltas);
      rows, stateBytes := next.value.0, next.value.1;
      r := None;
    }

    /** One summary per group that has admitted members, by group. */
    method Summaries() returns (out: seq<Summary>)
      requires Valid()
      ensures Summarizes(plan, Plain(), |plan.anchors|, out)
    {
      hide Summarizes, IsSummary, MemberKeys, Strip, Fits, Total, IsNearest;
      out := [];
      SummarizesNothing(plan, Plain());
      var g := 0;
      while g < |plan.anchors|
        invariant 0 <= g <= |plan.anchors| && Summarizes(plan, Plain(), g, out)
      {
        var keys := set key | key in rows && rows[key].1 == g && plan.query.admits(rows[key].0.columns);
        GroupKeys(plan, rows, g, keys);
        var more: seq<Summary> := [];
        if keys != {} {
          var s := Summarize(plan, rows, g, keys);
          more := [s];
        }
        SummarizesNext(plan, Plain(), g, out, more);
        out := out + more;
        g := g + 1;
      }
    }

    /** Take in rows kept under the same plan, all of them or nothing. */
    method TakeIn(theirs: map<string, (Record, nat)>) returns (r: Option<GroupError>)
      requires Valid() && Fits(plan.query, Strip(theirs))
      modifies this
      ensures Valid() && Took(plan.query, old(Plain()), Strip(theirs), r, Plain())
      ensures r != Some(DifferentPlan) && (r.Some? ==> rows == old(rows))
    {
      ghost var mine, others := Plain(), Strip(theirs);
      assert rows.Keys == mine.Keys && theirs.Keys == others.Keys;
      hide PlanOf, Fits, Assigned, Total, Epoch, Inserts, Strip, Took;
      if rows.Keys * theirs.Keys != {} {
        TookNothing(plan.query, mine, others);
        return Some(GroupMergeOverlap);
      }
      var deltas := ListInserts(theirs);
      var refused := ApplyEpoch(deltas);
      TookAll(plan.query, mine, others, refused, Plain());
      r := if refused.Some? then Some(Refused(refused.value)) else None;
    }

    /** Merge a disjoint partition of the same plan, all of it or nothing. */
    method MergeDisjointWith(other: SemanticGroups) returns (r: Option<GroupError>)
      requires Valid() && other.Valid() && other.ops == ops
      modifies this
      ensures Valid()
      ensures r == Some(DifferentPlan) <==> other.spec != spec
      ensures other.spec == spec ==> Took(plan.query, old(Plain()), old(other.Plain()), r, Plain())
      ensures r.Some? ==> rows == old(rows)
    {
      if spec != other.spec { return Some(DifferentPlan); }
      assert other.plan == plan;
      hide PlanOf, Fits, Assigned, Total, Strip, Took;
      r := TakeIn(other.rows);
    }
  }

  lemma SummarizesNothing(plan: Plan, rows: Rows)
    ensures Summarizes(plan, rows, 0, [])
  {
  }

  lemma SummarizesNext(plan: Plan, rows: Rows, g: nat, out: seq<Summary>, more: seq<Summary>)
    requires Summarizes(plan, rows, g, out) && g < |plan.anchors|
    requires if MemberKeys(plan, rows, g) == {} then more == [] else |more| == 1 && more[0].group == g && IsSummary(plan, rows, more[0])
    ensures Summarizes(plan, rows, g + 1, out + more)
  {
    hide IsSummary, MemberKeys;
    var all := out + more;
    forall h | 0 <= h < g + 1 && MemberKeys(plan, rows, h) != {} ensures exists i :: 0 <= i < |all| && all[i].group == h {
      if h < g {
        var i :| 0 <= i < |out| && out[i].group == h;
        assert all[i].group == h;
      } else {
        assert all[|out|].group == h;
      }
    }
  }

  method Tally(plan: Plan, rows: map<string, (Record, nat)>, members: seq<string>) returns (cost: real, errors: nat)
    requires forall i :: 0 <= i < |members| ==> members[i] in rows
    ensures cost == CostSum(plan, Strip(rows), members) && errors == Errors(plan, Strip(rows), members)
  {
    cost, errors := 0.0, 0;
    var i := 0;
    while i < |members|
      invariant 0 <= i <= |members|
      invariant cost == CostSum(plan, Strip(rows), members[..i]) && errors == Errors(plan, Strip(rows), members[..i])
    {
      assert members[..i + 1][..i] == members[..i];
      var columns := rows[members[i]].0.columns;
      cost := cost + plan.cost(columns);
      if plan.error(columns) { errors := errors + 1; }
      i := i + 1;
    }
    assert members[..i] == members;
  }

  lemma MembersHeld(plan: Plan, rows: map<string, (Record, nat)>, g: nat)
    ensures MemberKeys(plan, Strip(rows), g) <= rows.Keys == Strip(rows).Keys
  {
  }

  /** Sum, count and pick over one group's members in key order. */
  method Summarize(plan: Plan, rows: map<string, (Record, nat)>, g: nat, keys: set<string>) returns (s: Summary)
    requires g < |plan.anchors| && keys != {} && keys == MemberKeys(plan, Strip(rows), g)
    ensures IsSummary(plan, Strip(rows), s) && s.group == g
  {
    hide MemberKeys, Strip, Sorted, CostSum, Errors, Before, Beats;
    MembersHeld(plan, rows, g);
    var members := L.ListSorted(keys);
    ElementsEmpty(members);
    assert forall key :: key in members <==> key in Elements(members);
    assert forall j :: 0 <= j < |members| ==> members[j] in members;
    var cost, errors := Tally(plan, rows, members);
    SortedDistinct(members);
    ErrorsCount(plan, Strip(rows), members);
    var exemplar := Exemplar(plan, rows, g, members);
    forall key | key in keys && key != exemplar
      ensures Beats(plan.dot(plan.anchors[g], rows[exemplar].0.vector), exemplar, plan.dot(plan.anchors[g], rows[key].0.vector), key)
    {
      assert key in Elements(members);
      BeforeIsBeats(Score(plan, Strip(rows), g, exemplar), Score(plan, Strip(rows), g, key));
      ScoreOf(plan, rows, g, exemplar);
      ScoreOf(plan, rows, g, key);
    }
    ExemplarOf(plan, rows, g, keys, exemplar);
    s := Summary(g, |members|, cost / (|members| as real), (errors as real) / (|members| as real), exemplar, members);
    hide Elements;
  }

  lemma ScoreOf(plan: Plan, rows: map<string, (Record, nat)>, g: nat, key: string)
    requires g < |plan.anchors| && key in rows
    ensures key in Strip(rows) && Score(plan, Strip(rows), g, key) == Ranked(plan.dot(plan.anchors[g], rows[key].0.vector), key)
  {
  }

  lemma ExemplarOf(plan: Plan, rows: map<string, (Record, nat)>, g: nat, keys: set<string>, e: string)
    requires g < |plan.anchors| && keys <= rows.Keys && e in keys
    requires forall key :: key in keys && key != e ==>
               Beats(plan.dot(plan.anchors[g], rows[e].0.vector), e, plan.dot(plan.anchors[g], rows[key].0.vector), key)
    ensures keys <= Strip(rows).Keys && IsExemplar(plan, Strip(rows), g, keys, e)
  {
    hide Beats;
  }

  method Exemplar(plan: Plan, rows: map<string, (Record, nat)>, g: nat, members: seq<string>) returns (e: string)
    requires g < |plan.anchors| && members != [] && forall key :: key in members ==> key in rows
    ensures e in members
    ensures forall key :: key in members && key != e ==> Before(Score(plan, Strip(rows), g, e), Score(plan, Strip(rows), g, key))
  {
    BeforeIsStrictTotal();
    e := members[0];
    var i := 1;
    while i < |members|
      invariant 1 <= i <= |members| && e in members[..i]
      invariant forall key :: key in members[..i] && key != e ==> Before(Score(plan, Strip(rows), g, e), Score(plan, Strip(rows), g, key))
    {
      var anchor, key := plan.anchors[g], members[i];
      var best, next := Ranked(plan.dot(anchor, rows[e].0.vector), e), Ranked(plan.dot(anchor, rows[key].0.vector), key);
      assert best == Score(plan, Strip(rows), g, e) && next == Score(plan, Strip(rows), g, key);
      assert members[..i + 1] == members[..i] + [key];
      ghost var was := e;
      if Before(next, best) { e := key; }
      forall k | k in members[..i + 1] && k != e ensures Before(Score(plan, Strip(rows), g, e), Score(plan, Strip(rows), g, k)) {
        if k != key && k != was {
          assert k in members[..i];
          assert Before(best, Score(plan, Strip(rows), g, k));
        }
      }
      i := i + 1;
    }
    assert members[..i] == members;
  }

  method ListInserts(rows: map<string, (Record, nat)>) returns (deltas: seq<Delta>)
    ensures deltas == Inserts(Strip(rows))
  {
    var keys := L.ListSorted(rows.Keys);
    assert forall i :: 0 <= i < |keys| ==> keys[i] in Elements(keys);
    deltas := [];
    var i := 0;
    while i < |keys|
      invariant 0 <= i <= |keys| && |deltas| == i
      invariant forall j :: 0 <= j < i ==> deltas[j] == Delta(Strip(rows)[keys[j]], 1)
    {
      deltas := deltas + [Delta(rows[keys[i]].0, 1)];
      i := i + 1;
    }
    assert Strip(rows).Keys == rows.Keys;
    IsInserts(Strip(rows), keys, deltas);
  }

  ghost function Strip(rows: map<string, (Record, nat)>): Rows { map key | key in rows :: rows[key].0 }

  ghost predicate Assigned(plan: Plan, rows: map<string, (Record, nat)>) {
    forall key :: key in rows ==> IsNearest(plan, rows[key].0.vector, rows[key].1)
  }

  /** The stored group is the nearest anchor, so the rows filed under a group are its members. */
  lemma GroupKeys(plan: Plan, rows: map<string, (Record, nat)>, g: nat, keys: set<string>)
    requires Assigned(plan, rows)
    requires keys == set key | key in rows && rows[key].1 == g && plan.query.admits(rows[key].0.columns)
    ensures keys == MemberKeys(plan, Strip(rows), g)
  {
    forall key | key in rows ensures rows[key].1 == g <==> IsNearest(plan, rows[key].0.vector, g) {
      if IsNearest(plan, rows[key].0.vector, g) { NearestIsUnique(plan, rows[key].0.vector, g, rows[key].1); }
    }
    hide IsNearest;
  }

  lemma IsInserts(rows: Rows, keys: seq<string>, deltas: seq<Delta>)
    requires Sorted(Less, keys) && Elements(keys) == rows.Keys && |deltas| == |keys|
    requires forall i :: 0 <= i < |keys| ==> keys[i] in rows && deltas[i] == Delta(rows[keys[i]], 1)
    ensures deltas == Inserts(rows)
  {
    LessIsStrictTotal();
    SortedIsUnique(Less, keys, Listing(Less, rows.Keys));
  }
}
