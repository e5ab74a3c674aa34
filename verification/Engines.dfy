/**
 The compute engine as the product crates see it: Z-set batches admitted under dedup tokens, appended
 durably, and made visible by sealing an epoch. A crash keeps every durable append, so the value below
 is both the live state and what a reopened engine recovers.
 */
module Engines {
  import opened Wrappers

  /** One admitted batch: its dedup token and its consolidated Z-set (row -> weight). */
  datatype Batch<!R, T> = Batch(token: T, entries: map<R, int>)

  datatype Ack = Appended | DroppedAsReplay

  datatype IngestError = TokenReused

  datatype Engine<!R, T> = Engine(
    sealed: seq<Batch<R, T>>,
    pending: seq<Batch<R, T>>,
    epoch: nat)
  {
    function All(): seq<Batch<R, T>> { sealed + pending }
  }

  function Weight<R, T>(b: Batch<R, T>, r: R): int {
    if r in b.entries then b.entries[r] else 0
  }

  /** The cumulative weight of `r` over a run of batches. */
  function Net<R, T>(bs: seq<Batch<R, T>>, r: R): int {
    if bs == [] then 0 else Net(bs[..|bs| - 1], r) + Weight(bs[|bs| - 1], r)
  }

  lemma {:induction false} NetConcat<R, T>(a: seq<Batch<R, T>>, b: seq<Batch<R, T>>, r: R)
    ensures Net(a + b, r) == Net(a, r) + Net(b, r)
  {
    if b == [] {
      assert a + b == a;
    } else {
      var b' := b[..|b| - 1];
      NetConcat(a, b', r);
      assert (a + b)[..|a + b| - 1] == a + b';
    }
  }

  lemma NetSingle<R, T>(b: Batch<R, T>, r: R)
    ensures Net([b], r) == Weight(b, r)
  {
    assert [b][..0] == [];
  }

  lemma NetAppend<R, T>(a: seq<Batch<R, T>>, b: Batch<R, T>, r: R)
    ensures Net(a + [b], r) == Net(a, r) + Weight(b, r)
  {
    assert (a + [b])[..|a|] == a;
  }

  /** Every row any batch names: a finite superset of the support of `Net`. */
  function Rows<R(==), T>(bs: seq<Batch<R, T>>): set<R> {
    if bs == [] then {} else Rows(bs[..|bs| - 1]) + bs[|bs| - 1].entries.Keys
  }

  lemma {:induction false} NetSupport<R, T>(bs: seq<Batch<R, T>>, r: R)
    ensures r !in Rows(bs) ==> Net(bs, r) == 0
  {
    if bs != [] { NetSupport(bs[..|bs| - 1], r); }
  }

  ghost predicate Knows<R, T>(e: Engine<R, T>, token: T) {
    exists i :: 0 <= i < |e.All()| && e.All()[i].token == token
  }

  /** Each token was admitted once. */
  ghost predicate Valid<R, T>(e: Engine<R, T>) {
    forall i, j :: 0 <= i < j < |e.All()| ==> e.All()[i].token != e.All()[j].token
  }

  /** The batch admitted under `token`. */
  function Find<R, T(==)>(bs: seq<Batch<R, T>>, token: T): (o: Option<Batch<R, T>>)
    ensures o.Some? ==> o.value in bs && o.value.token == token
    ensures o.None? ==> forall i :: 0 <= i < |bs| ==> bs[i].token != token
  {
    if bs == [] then None
    else if bs[0].token == token then Some(bs[0])
    else Find(bs[1..], token)
  }

  /** Append a batch: a known token with the same content is a replay, with other content a refusal. */
  function Ingest<R(==), T(==)>(e: Engine<R, T>, b: Batch<R, T>): Result<(Engine<R, T>, Ack), IngestError> {
    match Find(e.All(), b.token)
    case None => Ok((e.(pending := e.pending + [b]), Appended))
    case Some(known) => if known.entries == b.entries then Ok((e, DroppedAsReplay)) else Err(TokenReused)
  }

  /** Seal: everything pending becomes visible as one epoch. */
  function Seal<R, T>(e: Engine<R, T>): (e': Engine<R, T>)
    ensures e'.All() == e.All()
  {
    Engine(e.sealed + e.pending, [], e.epoch + 1)
  }

  function SealIfPending<R, T>(e: Engine<R, T>): (e': Engine<R, T>)
    ensures e'.All() == e.All() && e'.pending == []
  {
    if e.pending == [] then e else Seal(e)
  }

  lemma IngestKeepsValid<R, T>(e: Engine<R, T>, b: Batch<R, T>)
    requires Valid(e) && Ingest(e, b).Ok?
    ensures Valid(Ingest(e, b).value.0)
    ensures Knows(Ingest(e, b).value.0, b.token)
  {
    var e' := Ingest(e, b).value.0;
    match Find(e.All(), b.token)
    case None =>
      assert e'.All() == e.All() + [b];
      assert e'.All()[|e.All()|] == b;
    case Some(known) =>
      var i :| 0 <= i < |e.All()| && e.All()[i] == known;
  }
}
