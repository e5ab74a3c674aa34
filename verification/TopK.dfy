/**
 The standing semantic top-k: an operator that keeps its rows, a ranking index and a byte count under
 whole-epoch updates, against recomputation from the rows it holds. Scores are totally ordered numbers.
 */
module TopK {
  import opened Wrappers
  import opened Order

  datatype Record = Record(key: string, space: string, vector: seq<int>, columns: string)

  datatype Delta = Delta(record: Record, weight: int)

  /** A query: its embedding space and dimension, k, budget, and how it scores, filters and charges a row. */
  datatype Query = Query(
    space: string,
    dimension: nat,
    k: nat,
    budget: nat,
    score: seq<int> -> int,
    admits: string -> bool,
    bytes: Record -> nat)

  datatype TopKError =
    | SpaceMismatch
    | DimensionMismatch
    | InvalidWeight
    | DuplicateKey(key: string)
    | UnknownRetraction(key: string)
    | RetractionMismatch(key: string)
    | StateBudgetExceeded

  type Rows = map<string, Record>

  // ---- the reference: recomputation ------------------------------------------------------------------------

  datatype Ranked = Ranked(score: int, key: string)

  datatype Hit = Hit(key: string, rank: nat, score: int)

  /** Higher score first, then key. */
  predicate Before(a: Ranked, b: Ranked) {
    a.score > b.score || (a.score == b.score && Less(a.key, b.key))
  }

  lemma BeforeIsStrictTotal()
    ensures StrictTotal(Before)
  {
    LessIsStrictTotal();
    hide Less;
  }

  function Rank(q: Query, r: Record): Ranked { Ranked(q.score(r.vector), r.key) }

  /** The admitted rows, ranked. */
  ghost function Admitted(q: Query, rows: Rows): set<Ranked> {
    set key | key in rows && q.admits(rows[key].columns) :: Ranked(q.score(rows[key].vector), key)
  }

  ghost function Ranking(q: Query, rows: Rows): seq<Ranked> {
    BeforeIsStrictTotal();
    Listing(Before, Admitted(q, rows))
  }

  function Take(k: nat, ranking: seq<Ranked>): seq<Hit> {
    seq(if k < |ranking| then k else |ranking|, i requires 0 <= i < |ranking| => Hit(ranking[i].key, i + 1, ranking[i].score))
  }

  /** The answer from scratch: sort the admitted rows, take k. */
  ghost function Standing(q: Query, rows: Rows): seq<Hit> { Take(q.k, Ranking(q, rows)) }

  ghost function Total(q: Query, rows: Rows): nat {
    if rows == map[] then 0 else
      var key :| key in rows;
      q.bytes(rows[key]) + Total(q, rows - {key})
  }

  /** The byte total does not depend on the order rows are counted in. */
  lemma {:induction false} TotalWithout(q: Query, rows: Rows, key: string)
    requires key in rows
    ensures Total(q, rows) == q.bytes(rows[key]) + Total(q, rows - {key})
    decreases |rows|
  {
    var first :| first in rows && Total(q, rows) == q.bytes(rows[first]) + Total(q, rows - {first});
    if first != key {
      TotalWithout(q, rows - {first}, key);
      TotalWithout(q, rows - {key}, first);
      assert rows - {first} - {key} == rows - {key} - {first};
    }
  }

  lemma TotalWith(q: Query, rows: Rows, r: Record)
    requires r.key !in rows
    ensures Total(q, rows[r.key := r]) == Total(q, rows) + q.bytes(r)
  {
    var more := rows[r.key := r];
    TotalWithout(q, more, r.key);
    assert more - {r.key} == rows;
  }

  // ---- epochs ----------------------------------------------------------------------------------------------

  function ApplyOne(q: Query, rows: Rows, d: Delta): Result<Rows, TopKError> {
    var r := d.record;
    if r.space != q.space then Err(SpaceMismatch)
    else if |r.vector| != q.dimension then Err(DimensionMismatch)
    else if d.weight == 1 then
      if r.key in rows then Err(DuplicateKey(r.key)) else Ok(rows[r.key := r])
    else if d.weight == -1 then
      if r.key !in rows then Err(UnknownRetraction(r.key))
      else if rows[r.key] != r then Err(RetractionMismatch(r.key))
      else Ok(rows - {r.key})
    else Err(InvalidWeight)
  }

  function Fold(q: Query, rows: Rows, deltas: seq<Delta>): Result<Rows, TopKError> {
    if deltas == [] then Ok(rows) else
      var prior := Fold(q, rows, deltas[..|deltas| - 1]);
      if prior.Err? then prior else ApplyOne(q, prior.value, deltas[|deltas| - 1])
  }

  /** The rows after an epoch, or why it is refused as a whole. */
  ghost function Epoch(q: Query, rows: Rows, deltas: seq<Delta>): Result<Rows, TopKError> {
    var next := Fold(q, rows, deltas);
    if next.Ok? && Total(q, next.value) > q.budget then Err(StateBudgetExceeded) else next
  }

  function HeldDeltas(rows: Rows, keys: seq<string>): seq<Delta> {
    if keys == [] then [] else
      var key := keys[|keys| - 1];
      HeldDeltas(rows, keys[..|keys| - 1]) + if key in rows then [Delta(rows[key], -1)] else []
  }

  datatype Op = Apply(deltas: seq<Delta>) | Retract(keys: seq<string>)

  function DeltasOf(rows: Rows, op: Op): seq<Delta> {
    match op
    case Apply(deltas) => deltas
    case Retract(keys) => HeldDeltas(rows, keys)
  }

  ghost function Step(q: Query, rows: Rows, op: Op): Rows {
    match Epoch(q, rows, DeltasOf(rows, op))
    case Ok(next) => next
    case Err(_) => rows
  }

  // ---- what an epoch leaves, from its deltas alone -----------------------------------------------------------------

  /** The record under `key` after `deltas`: the last one inserted, or the old one if none touched the key. */
  ghost predicate HeldAfter(rows: Rows, deltas: seq<Delta>, key: string, r: Record) {
    || (key in rows && rows[key] == r && forall l :: 0 <= l < |deltas| ==> deltas[l].record.key != key)
    || exists j :: 0 <= j < |deltas| && Puts(deltas[j], key, r) && forall l :: j < l < |deltas| ==> deltas[l].record.key != key
  }

  ghost predicate Puts(d: Delta, key: string, r: Record) { d.weight == 1 && d.record == r && r.key == key }

  /** A delta goes in if it is of the query's space, and inserts a key that is free or takes the very record held. */
  ghost predicate Accepts(q: Query, rows: Rows, past: seq<Delta>, d: Delta) {
    && d.record.space == q.space && |d.record.vector| == q.dimension
    && if d.weight == 1 then forall r :: !HeldAfter(rows, past, d.record.key, r)
       else d.weight == -1 && HeldAfter(rows, past, d.record.key, d.record)
  }

  ghost predicate Refuses(q: Query, rows: Rows, past: seq<Delta>, d: Delta, e: TopKError) {
    var r := d.record;
    match e
    case SpaceMismatch => r.space != q.space
    case DimensionMismatch => r.space == q.space && |r.vector| != q.dimension
    case InvalidWeight => r.space == q.space && |r.vector| == q.dimension && d.weight != 1 && d.weight != -1
    case DuplicateKey(key) => d.weight == 1 && key == r.key && exists held :: HeldAfter(rows, past, key, held)
    case UnknownRetraction(key) => d.weight == -1 && key == r.key && forall held :: !HeldAfter(rows, past, key, held)
    case RetractionMismatch(key) => d.weight == -1 && key == r.key && exists held :: held != r && HeldAfter(rows, past, key, held)
    case StateBudgetExceeded => false
  }

  lemma HeldNext(rows: Rows, init: seq<Delta>, d: Delta, key: string, r: Record)
    ensures HeldAfter(rows, init + [d], key, r)
            <==> if d.record.key == key then d.weight == 1 && d.record == r else HeldAfter(rows, init, key, r)
  {
    var deltas := init + [d];
    assert deltas[|init|] == d && forall l :: 0 <= l < |init| ==> deltas[l] == init[l];
    if j :| 0 <= j < |deltas| && Puts(deltas[j], key, r) && forall l :: j < l < |deltas| ==> deltas[l].record.key != key {
      if j < |init| { assert Puts(init[j], key, r) && deltas[|init|].record.key != key; }
    }
    if j :| 0 <= j < |init| && Puts(init[j], key, r) && forall l :: j < l < |init| ==> init[l].record.key != key {
      assert Puts(deltas[j], key, r);
    }
    if d.record.key == key && d.weight == 1 && d.record == r { assert Puts(deltas[|init|], key, r); }
  }

  ghost predicate Results(rows: Rows, deltas: seq<Delta>, next: Rows) {
    forall key, r :: key in next && next[key] == r <==> HeldAfter(rows, deltas, key, r)
  }

  lemma ApplyOneExactly(q: Query, rows: Rows, init: seq<Delta>, held: Rows, d: Delta)
    requires Results(rows, init, held)
    ensures match ApplyOne(q, held, d)
            case Ok(next) => Accepts(q, rows, init, d) && Results(rows, init + [d], next)
            case Err(e) => !Accepts(q, rows, init, d) && Refuses(q, rows, init, d, e)
  {
    var key := d.record.key;
    forall r ensures HeldAfter(rows, init, key, r) <==> key in held && held[key] == r {}
    if key in held { assert HeldAfter(rows, init, key, held[key]); }
    if ApplyOne(q, held, d).Ok? {
      var next := ApplyOne(q, held, d).value;
      forall k, r ensures k in next && next[k] == r <==> HeldAfter(rows, init + [d], k, r) { HeldNext(rows, init, d, k, r); }
    }
    hide HeldAfter;
  }

  /**
   What a whole epoch does, from its deltas alone. It is refused exactly if some delta is not acceptable after those
   before it, by the first such one and for its reason; otherwise each key holds what the last delta on it left.
   */
  lemma {:induction false} EpochExactly(q: Query, rows: Rows, deltas: seq<Delta>)
    ensures match Fold(q, rows, deltas)
            case Ok(next) => Results(rows, deltas, next) && forall i :: 0 <= i < |deltas| ==> Accepts(q, rows, deltas[..i], deltas[i])
            case Err(e) =>
              exists i :: && 0 <= i < |deltas| && (forall j :: 0 <= j < i ==> Accepts(q, rows, deltas[..j], deltas[j]))
                          && !Accepts(q, rows, deltas[..i], deltas[i]) && Refuses(q, rows, deltas[..i], deltas[i], e)
  {
    if deltas != [] {
      var init, last := deltas[..|deltas| - 1], deltas[|deltas| - 1];
      EpochExactly(q, rows, init);
      assert deltas == init + [last] && deltas[..|init|] == init;
      assert forall i :: 0 <= i < |init| ==> init[i] == deltas[i] && init[..i] == deltas[..i];
      hide Results, Accepts, Refuses, ApplyOne;
      if Fold(q, rows, init).Ok? { ApplyOneExactly(q, rows, init, Fold(q, rows, init).value, last); }
    }
  }

  // ---- answer deltas -----------------------------------------------------------------------------------------

  datatype AnswerDelta = AnswerDelta(hit: Hit, weight: int)

  /** The hits of `from` that `other` lacks, in order, with one weight. */
  function Lacking(from: seq<Hit>, other: seq<Hit>, weight: int): seq<AnswerDelta> {
    if from == [] then [] else
      Lacking(from[..|from| - 1], other, weight)
      + if from[|from| - 1] in other then [] else [AnswerDelta(from[|from| - 1], weight)]
  }

  function Diff(before: seq<Hit>, after: seq<Hit>): seq<AnswerDelta> {
    Lacking(before, after, -1) + Lacking(after, before, 1)
  }

  ghost function WeightOf(deltas: seq<AnswerDelta>, h: Hit): int {
    if deltas == [] then 0 else
      WeightOf(deltas[..|deltas| - 1], h) + if deltas[|deltas| - 1].hit == h then deltas[|deltas| - 1].weight else 0
  }

  ghost predicate DistinctHits(hits: seq<Hit>) {
    forall i, j :: 0 <= i < j < |hits| ==> hits[i] != hits[j]
  }

  lemma {:induction false} WeightConcat(a: seq<AnswerDelta>, b: seq<AnswerDelta>, h: Hit)
    ensures WeightOf(a + b, h) == WeightOf(a, h) + WeightOf(b, h)
  {
    if b == [] {
      assert a + b == a;
    } else {
      assert (a + b)[..|a + b| - 1] == a + b[..|b| - 1];
      WeightConcat(a, b[..|b| - 1], h);
    }
  }

  lemma {:induction false} LackingWeight(from: seq<Hit>, other: seq<Hit>, weight: int, h: Hit)
    requires DistinctHits(from)
    ensures WeightOf(Lacking(from, other, weight), h) == if h in from && h !in other then weight else 0
  {
    if from != [] {
      var init, last := from[..|from| - 1], from[|from| - 1];
      LackingWeight(init, other, weight, h);
      assert h in from <==> h in init || h == last;
      if last !in other { WeightConcat(Lacking(init, other, weight), [AnswerDelta(last, weight)], h); }
      assert WeightOf([AnswerDelta(last, weight)], h) == if last == h then weight else 0;
      assert last !in init;
      assert Lacking(init, other, weight) + [] == Lacking(init, other, weight);
    }
  }

  /** An emitted difference is exactly the change of the answer as a Z-set. */
  lemma DiffWeight(before: seq<Hit>, after: seq<Hit>, h: Hit)
    requires DistinctHits(before) && DistinctHits(after)
    ensures WeightOf(Diff(before, after), h) == (if h in after then 1 else 0) - (if h in before then 1 else 0)
  {
    LackingWeight(before, after, -1, h);
    LackingWeight(after, before, 1, h);
    WeightConcat(Lacking(before, after, -1), Lacking(after, before, 1), h);
  }

  lemma StandingDistinct(q: Query, rows: Rows)
    ensures DistinctHits(Standing(q, rows))
  {
    hide Ranking;
  }

  /** The keys of the rows the query's filter lets through. */
  ghost function AdmittedKeys(q: Query, rows: Rows): set<string> { set key | key in rows && q.admits(rows[key].columns) }

  /** A higher score, or the same score and an earlier key. */
  ghost predicate Beats(score: int, key: string, lower: int, later: string) {
    score > lower || (score == lower && Precedes(key, later))
  }

  /**
   What an answer must be: as many admitted rows as there are, up to k, each with its own score and its rank from
   1, every one beating the next, and the last one beating every admitted row left out.
   */
  ghost predicate IsTopK(q: Query, rows: Rows, hits: seq<Hit>) {
    && |hits| == (if q.k < |AdmittedKeys(q, rows)| then q.k else |AdmittedKeys(q, rows)|)
    && (forall i :: 0 <= i < |hits| ==>
          hits[i].key in rows && q.admits(rows[hits[i].key].columns) && hits[i].score == q.score(rows[hits[i].key].vector) && hits[i].rank == i + 1)
    && (forall i, j :: 0 <= i < j < |hits| ==> Beats(hits[i].score, hits[i].key, hits[j].score, hits[j].key))
    && (forall key :: key in rows && q.admits(rows[key].columns) && (forall j :: 0 <= j < |hits| ==> hits[j].key != key) ==>
          forall i :: 0 <= i < |hits| ==> Beats(hits[i].score, hits[i].key, q.score(rows[key].vector), key))
  }

  lemma BeforeIsBeats(a: Ranked, b: Ranked)
    ensures Before(a, b) <==> Beats(a.score, a.key, b.score, b.key)
  {
    LessIsPrecedes(a.key, b.key);
    hide Less, Precedes;
  }

  lemma AsManyKeys(q: Query, rows: Rows, keys: set<string>)
    requires keys <= AdmittedKeys(q, rows)
    ensures |set key | key in keys :: Ranked(q.score(rows[key].vector), key)| == |keys|
    decreases keys
  {
    var ranked := set key | key in keys :: Ranked(q.score(rows[key].vector), key);
    if keys != {} {
      var key :| key in keys;
      AsManyKeys(q, rows, keys - {key});
      var less := set k | k in keys - {key} :: Ranked(q.score(rows[k].vector), k);
      assert ranked == less + {Ranked(q.score(rows[key].vector), key)};
      assert Ranked(q.score(rows[key].vector), key) !in less;
    }
  }

  lemma AdmittedSize(q: Query, rows: Rows)
    ensures |Admitted(q, rows)| == |AdmittedKeys(q, rows)|
  {
    AsManyKeys(q, rows, AdmittedKeys(q, rows));
    assert Admitted(q, rows) == set key | key in AdmittedKeys(q, rows) :: Ranked(q.score(rows[key].vector), key);
  }

  /** Every admitted row once, each beating the next. */
  ghost predicate Ranks(q: Query, rows: Rows, ranking: seq<Ranked>) {
    && |ranking| == |AdmittedKeys(q, rows)|
    && (forall i :: 0 <= i < |ranking| ==>
          ranking[i].key in rows && q.admits(rows[ranking[i].key].columns) && ranking[i].score == q.score(rows[ranking[i].key].vector))
    && (forall i, j :: 0 <= i < j < |ranking| ==> Beats(ranking[i].score, ranking[i].key, ranking[j].score, ranking[j].key))
    && (forall key :: key in rows && q.admits(rows[key].columns) ==> Ranked(q.score(rows[key].vector), key) in ranking)
  }

  lemma RankingRanks(q: Query, rows: Rows)
    ensures Ranks(q, rows, Ranking(q, rows))
  {
    var ranking := Ranking(q, rows);
    BeforeIsStrictTotal();
    assert Sorted(Before, ranking) && Elements(ranking) == Admitted(q, rows) && |ranking| == |Admitted(q, rows)|;
    hide Ranking, Before;
    SortedRanks(q, rows, ranking);
  }

  lemma SortedRanks(q: Query, rows: Rows, ranking: seq<Ranked>)
    requires Sorted(Before, ranking) && Elements(ranking) == Admitted(q, rows) && |ranking| == |Admitted(q, rows)|
    ensures Ranks(q, rows, ranking)
  {
    AdmittedSize(q, rows);
    SortedBeats(ranking);
    hide Before, Beats, AdmittedKeys, Sorted;
    forall i | 0 <= i < |ranking| ensures ranking[i] in Admitted(q, rows) { assert ranking[i] in Elements(ranking); }
    forall key | key in rows && q.admits(rows[key].columns) ensures Ranked(q.score(rows[key].vector), key) in ranking {
      assert Ranked(q.score(rows[key].vector), key) in Admitted(q, rows);
      assert Ranked(q.score(rows[key].vector), key) in Elements(ranking);
    }
  }

  lemma SortedBeats(ranking: seq<Ranked>)
    requires Sorted(Before, ranking)
    ensures forall i, j :: 0 <= i < j < |ranking| ==> Beats(ranking[i].score, ranking[i].key, ranking[j].score, ranking[j].key)
  {
    hide Before, Beats;
    forall i, j | 0 <= i < j < |ranking| ensures Beats(ranking[i].score, ranking[i].key, ranking[j].score, ranking[j].key) {
      BeforeIsBeats(ranking[i], ranking[j]);
    }
  }

  lemma TakeIsTopK(q: Query, rows: Rows, ranking: seq<Ranked>)
    requires Ranks(q, rows, ranking)
    ensures IsTopK(q, rows, Take(q.k, ranking))
  {
    hide Beats, AdmittedKeys;
    var hits := Take(q.k, ranking);
    assert forall i :: 0 <= i < |hits| ==> hits[i] == Hit(ranking[i].key, i + 1, ranking[i].score);
    hide Take;
    forall key, i | key in rows && q.admits(rows[key].columns) && (forall j :: 0 <= j < |hits| ==> hits[j].key != key) && 0 <= i < |hits|
      ensures Beats(hits[i].score, hits[i].key, q.score(rows[key].vector), key)
    {
      var j :| 0 <= j < |ranking| && ranking[j] == Ranked(q.score(rows[key].vector), key);
      assert j >= |hits|;
    }
  }

  /** Sorting the admitted rows and taking k gives the top k. */
  lemma AnswerIsTopK(q: Query, rows: Rows)
    ensures IsTopK(q, rows, Standing(q, rows))
  {
    RankingRanks(q, rows);
    hide Ranking, Ranks, IsTopK;
    TakeIsTopK(q, rows, Ranking(q, rows));
  }

  // ---- every run ---------------------------------------------------------------------------------------------

  ghost function Run(q: Query, ops: seq<Op>): Rows {
    if ops == [] then map[] else Step(q, Run(q, ops[..|ops| - 1]), ops[|ops| - 1])
  }

  /** Everything the operator emitted over the run. */
  ghost function Emitted(q: Query, ops: seq<Op>): seq<AnswerDelta> {
    if ops == [] then [] else
      var rows := Run(q, ops[..|ops| - 1]);
      Emitted(q, ops[..|ops| - 1])
      + if Epoch(q, rows, DeltasOf(rows, ops[|ops| - 1])).Ok? then Diff(Standing(q, rows), Standing(q, Run(q, ops))) else []
  }

  /** The deltas of the epochs that were accepted. */
  ghost function Accepted(q: Query, ops: seq<Op>): seq<Delta> {
    if ops == [] then [] else
      var rows := Run(q, ops[..|ops| - 1]);
      var deltas := DeltasOf(rows, ops[|ops| - 1]);
      Accepted(q, ops[..|ops| - 1]) + if Epoch(q, rows, deltas).Ok? then deltas else []
  }

  ghost function NetOf(deltas: seq<Delta>, r: Record): int {
    if deltas == [] then 0 else
      NetOf(deltas[..|deltas| - 1], r) + if deltas[|deltas| - 1].record == r then deltas[|deltas| - 1].weight else 0
  }

  ghost function Holds(rows: Rows, r: Record): int { if r.key in rows && rows[r.key] == r then 1 else 0 }

  ghost predicate Keyed(rows: Rows) { forall key :: key in rows ==> rows[key].key == key }

  lemma {:induction false} NetConcat(a: seq<Delta>, b: seq<Delta>, r: Record)
    ensures NetOf(a + b, r) == NetOf(a, r) + NetOf(b, r)
  {
    if b == [] {
      assert a + b == a;
    } else {
      assert (a + b)[..|a + b| - 1] == a + b[..|b| - 1];
      NetConcat(a, b[..|b| - 1], r);
    }
  }

  lemma {:induction false} FoldNet(q: Query, rows: Rows, deltas: seq<Delta>, r: Record)
    requires Keyed(rows) && Fold(q, rows, deltas).Ok?
    ensures Keyed(Fold(q, rows, deltas).value)
    ensures Holds(Fold(q, rows, deltas).value, r) == Holds(rows, r) + NetOf(deltas, r)
  {
    if deltas != [] { FoldNet(q, rows, deltas[..|deltas| - 1], r); }
  }

  /** The rows held are the net of the accepted deltas, record by record: nothing else about the past survives. */
  lemma {:induction false} RowsAreNet(q: Query, ops: seq<Op>, r: Record)
    ensures Keyed(Run(q, ops)) && Holds(Run(q, ops), r) == NetOf(Accepted(q, ops), r)
  {
    if ops != [] {
      var rows := Run(q, ops[..|ops| - 1]);
      RowsAreNet(q, ops[..|ops| - 1], r);
      var deltas := DeltasOf(rows, ops[|ops| - 1]);
      if Epoch(q, rows, deltas).Ok? {
        FoldNet(q, rows, deltas, r);
        NetConcat(Accepted(q, ops[..|ops| - 1]), deltas, r);
      } else {
        assert Accepted(q, ops[..|ops| - 1]) + [] == Accepted(q, ops[..|ops| - 1]);
      }
    }
  }

  /** Two runs with the same net deltas leave the same rows, hence the same ranking, answer and byte count. */
  lemma NetDeterminesRows(q: Query, ops: seq<Op>, others: seq<Op>)
    requires forall r :: NetOf(Accepted(q, ops), r) == NetOf(Accepted(q, others), r)
    ensures Run(q, ops) == Run(q, others)
  {
    var a, b := Run(q, ops), Run(q, others);
    forall r ensures Holds(a, r) == Holds(b, r) && Keyed(a) && Keyed(b) {
      RowsAreNet(q, ops, r);
      RowsAreNet(q, others, r);
    }
    assert Keyed(a) && Keyed(b) by { RowsAreNet(q, ops, Record("", "", [], "")); RowsAreNet(q, others, Record("", "", [], "")); }
    hide Run, Accepted;
    forall key ensures key in a <==> key in b {
      if key in a { assert Holds(a, a[key]) == 1; assert Holds(b, a[key]) == 1; }
      if key in b { assert Holds(b, b[key]) == 1; assert Holds(a, b[key]) == 1; }
    }
    forall key | key in a ensures a[key] == b[key] {
      assert Holds(a, a[key]) == 1;
      assert Holds(b, a[key]) == 1;
    }
  }

  /** Folding every emitted delta from nothing gives the current answer, whatever was refused on the way. */
  lemma {:induction false} EmittedIsAnswer(q: Query, ops: seq<Op>, h: Hit)
    ensures WeightOf(Emitted(q, ops), h) == if h in Standing(q, Run(q, ops)) then 1 else 0
  {
    if ops == [] {
      EmptyStanding(q);
    } else {
      var init := ops[..|ops| - 1];
      var before, after := Standing(q, Run(q, init)), Standing(q, Run(q, ops));
      EmittedIsAnswer(q, init, h);
      StandingDistinct(q, Run(q, init));
      StandingDistinct(q, Run(q, ops));
      DiffWeight(before, after, h);
      var rows := Run(q, init);
      if Epoch(q, rows, DeltasOf(rows, ops[|ops| - 1])).Ok? {
        WeightConcat(Emitted(q, init), Diff(before, after), h);
      } else {
        assert Run(q, ops) == rows;
        assert Emitted(q, init) + [] == Emitted(q, init);
      }
    }
  }

  lemma EmptyStanding(q: Query)
    ensures Standing(q, map[]) == []
  {
    assert Admitted(q, map[]) == {};
    ElementsEmpty(Ranking(q, map[]));
  }

  // ---- retraction by key -------------------------------------------------------------------------------------

  /** What every reachable operator satisfies: rows of the query's own space, filed under their keys. */
  ghost predicate Fits(q: Query, rows: Rows) {
    forall key :: key in rows ==> rows[key].key == key && rows[key].space == q.space && |rows[key].vector| == q.dimension
  }

  lemma {:induction false} FoldFits(q: Query, rows: Rows, deltas: seq<Delta>)
    requires Fits(q, rows) && Fold(q, rows, deltas).Ok?
    ensures Fits(q, Fold(q, rows, deltas).value)
  {
    if deltas != [] { FoldFits(q, rows, deltas[..|deltas| - 1]); }
  }

  lemma {:induction false} RunFits(q: Query, ops: seq<Op>)
    ensures Fits(q, Run(q, ops)) && Total(q, Run(q, ops)) <= q.budget
  {
    if ops != [] {
      var rows := Run(q, ops[..|ops| - 1]);
      RunFits(q, ops[..|ops| - 1]);
      var deltas := DeltasOf(rows, ops[|ops| - 1]);
      if Epoch(q, rows, deltas).Ok? { FoldFits(q, rows, deltas); }
    }
  }

  /** No held key is listed twice. */
  ghost predicate HeldOnce(rows: Rows, keys: seq<string>) {
    forall i, j :: 0 <= i < j < |keys| && keys[i] == keys[j] ==> keys[i] !in rows
  }

  lemma {:induction false} FoldHeld(q: Query, rows: Rows, keys: seq<string>)
    requires Fits(q, rows)
    ensures Fold(q, rows, HeldDeltas(rows, keys)).Ok? <==> HeldOnce(rows, keys)
    ensures HeldOnce(rows, keys) ==> Fold(q, rows, HeldDeltas(rows, keys)) == Ok(rows - Elements(keys))
  {
    if keys == [] {
      assert rows - Elements(keys) == rows;
    } else {
      var init, key := keys[..|keys| - 1], keys[|keys| - 1];
      var deltas := HeldDeltas(rows, init);
      FoldHeld(q, rows, init);
      assert HeldOnce(rows, keys) ==> HeldOnce(rows, init);
      if key in rows {
        assert (deltas + [Delta(rows[key], -1)])[..|deltas|] == deltas;
        if HeldOnce(rows, init) {
          HeldLast(rows, keys);
          assert key !in init ==> rows - Elements(keys) == rows - Elements(init) - {key};
        }
      } else {
        assert deltas + [] == deltas;
        assert HeldOnce(rows, init) ==> HeldOnce(rows, keys);
        assert rows - Elements(keys) == rows - Elements(init);
      }
    }
  }

  lemma HeldLast(rows: Rows, keys: seq<string>)
    requires keys != [] && keys[|keys| - 1] in rows && HeldOnce(rows, keys[..|keys| - 1])
    ensures var init, key := keys[..|keys| - 1], keys[|keys| - 1];
            && (HeldOnce(rows, keys) <==> key !in init)
            && (key in Elements(init) <==> key in init)
            && forall k :: k in Elements(keys) <==> k in Elements(init) || k == key
  {
    var init, key := keys[..|keys| - 1], keys[|keys| - 1];
    if key in init {
      var i :| 0 <= i < |init| && init[i] == key;
      assert keys[i] == keys[|keys| - 1];
    }
  }

  lemma {:induction false} TotalShrinks(q: Query, rows: Rows, gone: set<string>)
    ensures Total(q, rows - gone) <= Total(q, rows)
    decreases gone
  {
    if gone == {} {
      assert rows - gone == rows;
    } else {
      var key :| key in gone;
      TotalShrinks(q, rows, gone - {key});
      var less := rows - (gone - {key});
      if key in less {
        TotalWithout(q, less, key);
        assert less - {key} == rows - gone;
      } else {
        assert less == rows - gone;
      }
    }
  }

  /** A retraction by key succeeds exactly when no held key is listed twice, and then removes exactly those rows. */
  lemma RetractionIsExact(q: Query, ops: seq<Op>, keys: seq<string>)
    ensures var rows := Run(q, ops);
            var r := Epoch(q, rows, HeldDeltas(rows, keys));
            && (r.Ok? <==> HeldOnce(rows, keys))
            && (r.Ok? ==> r.value == rows - Elements(keys))
  {
    RunFits(q, ops);
    FoldHeld(q, Run(q, ops), keys);
    TotalShrinks(q, Run(q, ops), Elements(keys));
  }

  /** The inputs that fail: a held key, listed twice. */
  lemma RepeatedKeyIsRefused(q: Query, ops: seq<Op>, key: string)
    requires key in Run(q, ops)
    ensures Epoch(q, Run(q, ops), HeldDeltas(Run(q, ops), [key, key])).Err?
  {
    RetractionIsExact(q, ops, [key, key]);
    assert [key, key][0] == [key, key][1];
  }

  // ---- the incremental operator --------------------------------------------------------------------------------

  lemma AdmittedInsert(q: Query, rows: Rows, r: Record)
    requires r.key !in rows
    ensures Admitted(q, rows[r.key := r]) == Admitted(q, rows) + if q.admits(r.columns) then {Rank(q, r)} else {}
    ensures Rank(q, r) !in Admitted(q, rows)
  {
    var more := rows[r.key := r];
    forall x ensures x in Admitted(q, more) <==> x in Admitted(q, rows) || (q.admits(r.columns) && x == Rank(q, r)) {
      if x in Admitted(q, rows) { assert x.key in rows && more[x.key] == rows[x.key]; }
      if q.admits(r.columns) && x == Rank(q, r) { assert r.key in more; }
    }
  }

  lemma AdmittedRemove(q: Query, rows: Rows, key: string)
    requires Fits(q, rows) && key in rows
    ensures Admitted(q, rows - {key}) == Admitted(q, rows) - {Rank(q, rows[key])}
  {
    var left := rows - {key};
    forall x ensures x in Admitted(q, left) <==> x in Admitted(q, rows) && x != Rank(q, rows[key]) {
      if x in Admitted(q, rows) && x != Rank(q, rows[key]) { assert x.key in left; }
    }
  }

  lemma IsRanking(q: Query, rows: Rows, ranking: seq<Ranked>)
    requires Sorted(Before, ranking) && Elements(ranking) == Admitted(q, rows)
    ensures ranking == Ranking(q, rows)
  {
    BeforeIsStrictTotal();
    SortedIsUnique(Before, ranking, Ranking(q, rows));
  }

  lemma RankingSorted(q: Query, rows: Rows)
    ensures Sorted(Before, Ranking(q, rows)) && Elements(Ranking(q, rows)) == Admitted(q, rows)
  {
  }

  /** Insert into the ranking index at its place. */
  method InsertRanked(ranking: seq<Ranked>, x: Ranked) returns (out: seq<Ranked>)
    requires Sorted(Before, ranking) && x !in ranking
    ensures Sorted(Before, out) && Elements(out) == Elements(ranking) + {x}
  {
    BeforeIsStrictTotal();
    var i := 0;
    while i < |ranking| && Before(ranking[i], x)
      invariant 0 <= i <= |ranking| && forall j :: 0 <= j < i ==> Before(ranking[j], x)
    {
      i := i + 1;
    }
    out := ranking[..i] + [x] + ranking[i..];
    forall j | i <= j < |ranking| ensures Before(x, ranking[j]) {
      assert ranking[j] in ranking;
      if j > i { assert Before(ranking[i], ranking[j]); }
    }
    InsertedOrder(ranking, x, i, out);
  }

  lemma InsertedOrder(ranking: seq<Ranked>, x: Ranked, i: nat, out: seq<Ranked>)
    requires Sorted(Before, ranking) && i <= |ranking| && out == ranking[..i] + [x] + ranking[i..]
    requires (forall j :: 0 <= j < i ==> Before(ranking[j], x)) && (forall j :: i <= j < |ranking| ==> Before(x, ranking[j]))
    ensures Sorted(Before, out) && Elements(out) == Elements(ranking) + {x}
  {
    hide Before;
    forall a, b | 0 <= a < b < |out| ensures Before(out[a], out[b]) {
      var a', b' := if a < i then a else a - 1, if b < i then b else b - 1;
      if a != i { assert out[a] == ranking[a']; }
      if b != i { assert out[b] == ranking[b']; }
    }
    forall y ensures y in out <==> y in ranking || y == x {
      if y in ranking {
        var j :| 0 <= j < |ranking| && ranking[j] == y;
        assert out[if j < i then j else j + 1] == y;
      }
      if y == x { assert out[i] == y; }
    }
  }

  /** Remove from the ranking index, if it is there. */
  method RemoveRanked(ranking: seq<Ranked>, x: Ranked) returns (out: seq<Ranked>)
    requires Sorted(Before, ranking)
    ensures Sorted(Before, out) && Elements(out) == Elements(ranking) - {x}
  {
    BeforeIsStrictTotal();
    hide Before;
    out := [];
    var i := 0;
    while i < |ranking|
      invariant 0 <= i <= |ranking| && Sorted(Before, out) && Elements(out) == Elements(ranking[..i]) - {x}
      invariant forall a, j :: 0 <= a < |out| && i <= j < |ranking| ==> Before(out[a], ranking[j])
    {
      ElementsAppend(ranking[..i], ranking[i]);
      assert ranking[..i + 1] == ranking[..i] + [ranking[i]];
      if ranking[i] != x {
        ElementsAppend(out, ranking[i]);
        out := out + [ranking[i]];
      }
      i := i + 1;
    }
    assert ranking[..i] == ranking;
  }

  class SemanticTopK {
    const q: Query
    var rows: Rows
    var ranking: seq<Ranked>
    var stateBytes: nat

    /** The index and the byte count are what recomputation from the rows would give. */
    ghost predicate Valid()
      reads this
    {
      Fits(q, rows) && ranking == Ranking(q, rows) && stateBytes == Total(q, rows) <= q.budget
    }

    constructor (q: Query)
      ensures Valid() && this.q == q && rows == map[]
    {
      this.q := q;
      rows, ranking, stateBytes := map[], [], 0;
      new;
      EmptyStanding(q);
      ElementsEmpty(Ranking(q, map[]));
      assert Admitted(q, map[]) == {};
    }

    method Answer() returns (hits: seq<Hit>)
      requires Valid()
      ensures hits == Standing(q, rows) && IsTopK(q, rows, hits)
    {
      AnswerIsTopK(q, rows);
      hide IsTopK, Ranking;
      hits := Take(q.k, ranking);
    }

    method InsertOne(rows: Rows, ranking: seq<Ranked>, bytes: nat, record: Record) returns (index: seq<Ranked>, total: nat)
      requires ranking == Ranking(q, rows) && bytes == Total(q, rows) && record.key !in rows
      ensures index == Ranking(q, rows[record.key := record]) && total == Total(q, rows[record.key := record])
    {
      RankingSorted(q, rows);
      AdmittedInsert(q, rows, record);
      TotalWith(q, rows, record);
      index, total := ranking, bytes + q.bytes(record);
      hide Ranking, Total, Admitted, Sorted, Before;
      if q.admits(record.columns) {
        assert Rank(q, record) in ranking ==> Rank(q, record) in Elements(ranking);
        index := InsertRanked(ranking, Rank(q, record));
      }
      IsRanking(q, rows[record.key := record], index);
    }

    method RemoveOne(rows: Rows, ranking: seq<Ranked>, bytes: nat, record: Record) returns (index: seq<Ranked>, total: nat)
      requires Fits(q, rows) && ranking == Ranking(q, rows) && bytes == Total(q, rows)
      requires record.key in rows && rows[record.key] == record
      ensures index == Ranking(q, rows - {record.key}) && total == Total(q, rows - {record.key})
    {
      RankingSorted(q, rows);
      AdmittedRemove(q, rows, record.key);
      TotalWithout(q, rows, record.key);
      total := bytes - q.bytes(record);
      hide Ranking, Total, Admitted, Sorted, Before;
      index := RemoveRanked(ranking, Rank(q, record));
      IsRanking(q, rows - {record.key}, index);
    }

    /** One delta on a working copy: rows, index and bytes together. */
    method ApplyOneTo(rows: Rows, ranking: seq<Ranked>, bytes: nat, d: Delta)
      returns (r: Result<(Rows, seq<Ranked>, nat), TopKError>)
      requires Fits(q, rows) && ranking == Ranking(q, rows) && bytes == Total(q, rows)
      ensures ApplyOne(q, rows, d).Err? ==> r == Err(ApplyOne(q, rows, d).error)
      ensures ApplyOne(q, rows, d).Ok? ==>
                var next := ApplyOne(q, rows, d).value; r == Ok((next, Ranking(q, next), Total(q, next))) && Fits(q, next)
    {
      hide Ranking, Total;
      var record := d.record;
      if record.space != q.space { return Err(SpaceMismatch); }
      if |record.vector| != q.dimension { return Err(DimensionMismatch); }
      if d.weight == 1 {
        if record.key in rows { return Err(DuplicateKey(record.key)); }
        var index, total := InsertOne(rows, ranking, bytes, record);
        return Ok((rows[record.key := record], index, total));
      } else if d.weight == -1 {
        if record.key !in rows { return Err(UnknownRetraction(record.key)); }
        if rows[record.key] != record { return Err(RetractionMismatch(record.key)); }
        var index, total := RemoveOne(rows, ranking, bytes, record);
        return Ok((rows - {record.key}, index, total));
      } else {
        return Err(InvalidWeight);
      }
    }

    /** All deltas of an epoch on a working copy, stopping at the first refusal. */
    method FoldCopy(deltas: seq<Delta>) returns (r: Result<(Rows, seq<Ranked>, nat), TopKError>)
      requires Valid()
      ensures Fold(q, rows, deltas).Err? ==> r == Err(Fold(q, rows, deltas).error)
      ensures Fold(q, rows, deltas).Ok? ==>
                var next := Fold(q, rows, deltas).value; r == Ok((next, Ranking(q, next), Total(q, next))) && Fits(q, next)
    {
      hide Ranking, Total, Fits, ApplyOne;
      var nextRows, nextRanking, nextBytes := rows, ranking, stateBytes;
      var i := 0;
      while i < |deltas|
        invariant 0 <= i <= |deltas| && Fold(q, rows, deltas[..i]) == Ok(nextRows) && Fits(q, nextRows)
        invariant nextRanking == Ranking(q, nextRows) && nextBytes == Total(q, nextRows)
      {
        assert deltas[..i + 1][..i] == deltas[..i];
        var applied := ApplyOneTo(nextRows, nextRanking, nextBytes, deltas[i]);
        if applied.Err? {
          FoldStops(q, rows, deltas, i + 1);
          return Err(applied.error);
        }
        nextRows, nextRanking, nextBytes := applied.value.0, applied.value.1, applied.value.2;
        i := i + 1;
      }
      assert deltas[..i] == deltas;
      r := Ok((nextRows, nextRanking, nextBytes));
    }

    /** Apply a whole epoch on a copy; any refusal leaves the operator and its answer as they were. */
    method ApplyEpoch(deltas: seq<Delta>) returns (r: Result<seq<AnswerDelta>, TopKError>)
      requires Valid()
      modifies this
      ensures Valid()
      ensures Epoch(q, old(rows), deltas).Err? ==>
                r == Err(Epoch(q, old(rows), deltas).error) && rows == old(rows) && ranking == old(ranking) && stateBytes == old(stateBytes)
      ensures Epoch(q, old(rows), deltas).Ok? ==>
                Ok(rows) == Epoch(q, old(rows), deltas) && r == Ok(Diff(Standing(q, old(rows)), Standing(q, rows)))
      ensures r.Ok? ==> Results(old(rows), deltas, rows)
      ensures (forall i :: 0 <= i < |deltas| ==> Accepts(q, old(rows), deltas[..i], deltas[i])) <==> r.Ok? || r.error == StateBudgetExceeded
    {
      EpochExactly(q, rows, deltas);
      hide Ranking, Total, Fits, Fold, Standing, Diff, Results, Accepts;
      var before := Answer();
      var next := FoldCopy(deltas);
      if next.Err? { return Err(next.error); }
      if next.value.2 > q.budget { return Err(StateBudgetExceeded); }
      rows, ranking, stateBytes := next.value.0, next.value.1, next.value.2;
      var after := Answer();
      var diff := AnswerDiff(before, after);
      r := Ok(diff);
    }

    method RetractKeys(keys: seq<string>) returns (r: Result<(nat, seq<AnswerDelta>), TopKError>)
      requires Valid()
      modifies this
      ensures Valid()
      ensures r.Ok? <==> HeldOnce(old(rows), keys)
      ensures r.Err? ==> rows == old(rows)
      ensures r.Ok? ==> rows == old(rows) - Elements(keys) && r.value.1 == Diff(Standing(q, old(rows)), Standing(q, rows))
    {
      var deltas: seq<Delta> := [];
      var i := 0;
      while i < |keys|
        invariant 0 <= i <= |keys| && deltas == HeldDeltas(rows, keys[..i])
      {
        assert keys[..i + 1][..i] == keys[..i];
        if keys[i] in rows { deltas := deltas + [Delta(rows[keys[i]], -1)]; }
        i := i + 1;
      }
      assert keys[..i] == keys;
      FoldHeld(q, rows, keys);
      TotalShrinks(q, rows, Elements(keys));
      hide Ranking, Fits, ApplyOne, Standing, Take, HeldOnce, Elements, HeldDeltas, Fold;
      var answer := ApplyEpoch(deltas);
      if answer.Err? { return Err(answer.error); }
      r := Ok((|deltas|, answer.value));
    }
  }

  lemma {:induction false} FoldStops(q: Query, rows: Rows, deltas: seq<Delta>, n: nat)
    requires n <= |deltas| && Fold(q, rows, deltas[..n]).Err?
    ensures Fold(q, rows, deltas) == Fold(q, rows, deltas[..n])
  {
    if n < |deltas| {
      assert deltas[..|deltas| - 1][..n] == deltas[..n];
      FoldStops(q, rows, deltas[..|deltas| - 1], n);
    } else {
      assert deltas[..n] == deltas;
    }
  }

  /** Removed hits first, then new ones, each list in rank order. */
  method AnswerDiff(before: seq<Hit>, after: seq<Hit>) returns (output: seq<AnswerDelta>)
    ensures output == Diff(before, after)
  {
    output := [];
    var i := 0;
    while i < |before|
      invariant 0 <= i <= |before| && output == Lacking(before[..i], after, -1)
    {
      assert before[..i + 1][..i] == before[..i];
      if before[i] !in after { output := output + [AnswerDelta(before[i], -1)]; }
      i := i + 1;
    }
    assert before[..i] == before;
    i := 0;
    while i < |after|
      invariant 0 <= i <= |after| && output == Lacking(before, after, -1) + Lacking(after[..i], before, 1)
    {
      assert after[..i + 1][..i] == after[..i];
      if after[i] !in before { output := output + [AnswerDelta(after[i], 1)]; }
      i := i + 1;
    }
    assert after[..i] == after;
  }
}
