/**
 The epoch clock: the compute log admits a capture's batches and seals them as the epoch numbered like
 the commit, through crashes between any two durable log steps.
 */
module Epochs {
  import opened Wrappers
  import opened Queue
  import opened Preparation

  // ---- the compute log ---------------------------------------------------------------------------------

  /** Sealed epochs after a compacted prefix, the appends not sealed yet, and every admitted token. */
  datatype EpochLog = EpochLog(
    catalog: set<string>,
    retained: nat,
    sealed: seq<seq<Batch>>,
    pending: seq<Batch>,
    tokens: map<Token, Batch>)
  {
    function Sealed(): nat { retained + |sealed| }
  }

  datatype ApplyError =
    | Unprepared(error: QueueError)
    | ReplayCompacted
    | ReplayMismatch
    | EpochGap(expected: nat, found: nat)
    | UnknownTable
    | ForeignPendingBatch
    | TokenReused

  datatype Outcome = Applied | Replayed | Refused(error: ApplyError) | Died

  function Appended(log: EpochLog, b: Batch): EpochLog {
    log.(pending := log.pending + [b], tokens := log.tokens[b.token := b])
  }

  function AppendBatch(log: EpochLog, b: Batch): Result<EpochLog, ApplyError> {
    if b.token.table !in log.catalog then Err(UnknownTable)
    else if b.token in log.tokens then (if log.tokens[b.token] == b then Ok(log) else Err(TokenReused))
    else Ok(Appended(log, b))
  }

  function SealLog(log: EpochLog): EpochLog {
    log.(sealed := log.sealed + [log.pending], pending := [])
  }

  /** Drop the epochs through `anchor`; refused unless it lies past the retained prefix and is sealed. */
  function CompactLog(log: EpochLog, anchor: nat): EpochLog {
    if log.retained < anchor <= log.Sealed()
    then log.(retained := anchor, sealed := log.sealed[anchor - log.retained..])
    else log
  }

  function Known(bs: seq<Batch>, tokens: map<Token, Batch>): seq<Batch> {
    if bs == [] then [] else (if bs[0].token in tokens then [bs[0]] else []) + Known(bs[1..], tokens)
  }

  function Unknown(bs: seq<Batch>, tokens: map<Token, Batch>): seq<Batch> {
    if bs == [] then [] else (if bs[0].token in tokens then [] else [bs[0]]) + Unknown(bs[1..], tokens)
  }

  datatype Fed = Fed(log: EpochLog, left: nat, stopped: Option<Outcome>)

  /** Append in turn; every durable append costs one of the steps the process has left to live. */
  function Feed(log: EpochLog, bs: seq<Batch>, budget: nat): Fed
    decreases |bs|
  {
    if bs == [] then Fed(log, budget, None) else
      match AppendBatch(log, bs[0])
      case Err(e) => Fed(log, budget, Some(Refused(e)))
      case Ok(log') =>
        if log' == log then Feed(log, bs[1..], budget)
        else if budget == 0 then Fed(log, 0, Some(Died))
        else Feed(log', bs[1..], budget - 1)
  }

  /** One attempt to apply a capture, by a process that survives `budget` durable log steps. */
  ghost function Attempt(log: EpochLog, c: Capture, budget: nat): (EpochLog, Outcome) {
    if PrepareRefusal(c).Some? then (log, Refused(Unprepared(PrepareRefusal(c).value))) else
      var bs := Prepared(c);
      var seq_ := c.draft.seq_;
      if seq_ <= log.Sealed() then
        if seq_ <= log.retained then (log, Refused(ReplayCompacted))
        else if log.sealed[seq_ - log.retained - 1] != bs then (log, Refused(ReplayMismatch))
        else (log, Replayed)
      else if seq_ != log.Sealed() + 1 then (log, Refused(EpochGap(log.Sealed() + 1, seq_)))
      else if exists i :: 0 <= i < |bs| && bs[i].token.table !in log.catalog then (log, Refused(UnknownTable))
      else if exists i :: 0 <= i < |log.pending| && log.pending[i] !in bs then (log, Refused(ForeignPendingBatch))
      else
        var fed := Feed(log, Known(bs, log.tokens) + Unknown(bs, log.tokens), budget);
        if fed.stopped.Some? then (fed.log, fed.stopped.value)
        else if fed.left == 0 then (fed.log, Died)
        else (SealLog(fed.log), Applied)
  }

  // ---- the invariant -------------------------------------------------------------------------------------

  /** The pending appends are a canonical prefix of one capture, the next in sequence. */
  ghost predicate PendingOf(pending: seq<Batch>, size: nat, p: Capture) {
    Genuine(p) && p.draft.seq_ == size + 1 && pending <= Prepared(p)
  }

  ghost predicate PendingOk(pending: seq<Batch>, size: nat) {
    pending == [] || exists p :: PendingOf(pending, size, p)
  }

  /** Each token names its own batch, of a commit already sealed or of one still pending. */
  ghost predicate Admits(tokens: map<Token, Batch>, pending: seq<Batch>, size: nat) {
    && (forall t :: t in tokens ==>
          && tokens[t].token == t
          && DraftOf(t.commit).Some? && tokens[t] in Prepared(CaptureOf(t.commit, DraftOf(t.commit).value))
          && (SeqOf(t.commit) <= size || exists i :: 0 <= i < |pending| && pending[i].token == t))
    && (forall i :: 0 <= i < |pending| ==> pending[i].token in tokens)
  }

  /** `history` lists the capture each epoch sealed. */
  ghost predicate SealedOk(retained: nat, sealed: seq<seq<Batch>>, history: seq<Capture>) {
    && (forall e :: 0 <= e < |history| ==> Genuine(history[e]) && history[e].draft.seq_ == e + 1)
    && |history| == retained + |sealed|
    && (forall i :: 0 <= i < |sealed| ==> sealed[i] == Prepared(history[retained + i]))
  }

  ghost predicate Inv(log: EpochLog, history: seq<Capture>) {
    && SealedOk(log.retained, log.sealed, history)
    && PendingOk(log.pending, |history|)
    && Admits(log.tokens, log.pending, |history|)
  }

  lemma {:induction false} SplitAt(bs: seq<Batch>, tokens: map<Token, Batch>, k: nat)
    requires k <= |bs| && forall i :: 0 <= i < |bs| ==> (bs[i].token in tokens <==> i < k)
    ensures Known(bs, tokens) == bs[..k] && Unknown(bs, tokens) == bs[k..]
  {
    if bs != [] {
      SplitAt(bs[1..], tokens, if k == 0 then 0 else k - 1);
      if k > 0 { assert bs[..k] == [bs[0]] + bs[1..][..k - 1]; }
    }
  }

  /** The tokens once the batches from `k` to `n` are in. */
  ghost function WithTokens(tokens: map<Token, Batch>, bs: seq<Batch>, k: nat, n: nat): map<Token, Batch>
    requires k <= n <= |bs|
    decreases n - k
  {
    if n == k then tokens else WithTokens(tokens[bs[k].token := bs[k]], bs, k + 1, n)
  }

  /** How far an attempt with `budget` steps to live gets, from `k` batches of `size`. */
  ghost function Survived(k: nat, budget: nat, size: nat): (n: nat)
    requires k <= size
    ensures k <= n <= size
  {
    if k + budget < size then k + budget else size
  }

  ghost function Progress(log: EpochLog, bs: seq<Batch>, n: nat): EpochLog
    requires |log.pending| <= n <= |bs|
  {
    log.(pending := bs[..n], tokens := WithTokens(log.tokens, bs, |log.pending|, n))
  }

  ghost predicate Ready(log: EpochLog, bs: seq<Batch>) {
    var k := |log.pending|;
    && log.pending <= bs
    && (forall i :: 0 <= i < |bs| ==> bs[i].token.table in log.catalog)
    && (forall i, j :: 0 <= i < j < |bs| ==> bs[i].token != bs[j].token)
    && (forall i :: 0 <= i < |bs| ==> (bs[i].token in log.tokens <==> i < k))
    && (forall i :: 0 <= i < k ==> log.tokens[bs[i].token] == bs[i])
  }

  lemma ReadyNext(log: EpochLog, bs: seq<Batch>)
    requires Ready(log, bs) && |log.pending| < |bs|
    ensures var next := Appended(log, bs[|log.pending|]);
            Ready(next, bs) && AppendBatch(log, bs[|log.pending|]) == Ok(next) && next != log
  {
    var k := |log.pending|;
    assert Appended(log, bs[k]).pending == bs[..k + 1];
  }

  /** What is in is recognised, */
  lemma {:induction false} FeedKnown(log: EpochLog, bs: seq<Batch>, j: nat, budget: nat)
    requires Ready(log, bs) && j <= |log.pending|
    ensures Feed(log, bs[j..], budget) == Feed(log, bs[|log.pending|..], budget)
    decreases |log.pending| - j
  {
    if j < |log.pending| {
      assert bs[j..][1..] == bs[j + 1..];
      FeedKnown(log, bs, j + 1, budget);
    }
  }

  /** and what is missing follows it in order, up to the crash. */
  lemma {:induction false} FeedRest(log: EpochLog, bs: seq<Batch>, budget: nat)
    requires Ready(log, bs)
    ensures var k := |log.pending|;
            var n := Survived(k, budget, |bs|);
            Feed(log, bs[k..], budget) == Fed(Progress(log, bs, n), budget - (n - k), if n < |bs| then Some(Died) else None)
    decreases budget
  {
    var k := |log.pending|;
    if k < |bs| {
      ReadyNext(log, bs);
      assert bs[k..][1..] == bs[k + 1..];
      if budget > 0 {
        FeedRest(Appended(log, bs[k]), bs, budget - 1);
      }
    }
  }

  lemma {:induction false} TokensIn(tokens: map<Token, Batch>, bs: seq<Batch>, k: nat, n: nat, t: Token)
    requires k <= n <= |bs|
    ensures var after := WithTokens(tokens, bs, k, n);
            && (t in after <==> t in tokens || exists i :: k <= i < n && bs[i].token == t)
            && (t in after ==> (t in tokens && after[t] == tokens[t]) || exists i :: k <= i < n && bs[i].token == t && after[t] == bs[i])
    decreases n - k
  {
    if n > k { TokensIn(tokens[bs[k].token := bs[k]], bs, k + 1, n, t); }
  }

  lemma OwnPending(pending: seq<Batch>, size: nat, c: Capture)
    requires PendingOk(pending, size) && Genuine(c)
    requires forall i :: 0 <= i < |pending| ==> pending[i] in Prepared(c)
    ensures pending <= Prepared(c)
  {
    hide Prepared;
    if pending != [] {
      var p :| PendingOf(pending, size, p);
      PreparedTokens(c);
      PreparedTokens(p);
      assert pending[0] in Prepared(c) && pending[0] == Prepared(p)[0];
    }
  }

  /** Admitted to be fed: the pending appends are this capture's own canonical prefix. */
  lemma OwnPrefix(log: EpochLog, history: seq<Capture>, c: Capture)
    requires Inv(log, history) && Genuine(c) && c.draft.seq_ == |history| + 1
    requires forall i :: 0 <= i < |log.pending| ==> log.pending[i] in Prepared(c)
    requires forall i :: 0 <= i < |Prepared(c)| ==> Prepared(c)[i].token.table in log.catalog
    ensures Ready(log, Prepared(c))
  {
    hide Prepared, SealedOk, PendingOk, Admits, Genuine;
    OwnPending(log.pending, |history|, c);
    PreparedTokens(c);
    var bs, k := Prepared(c), |log.pending|;
    forall i | 0 <= i < |bs|
      ensures bs[i].token in log.tokens <==> i < k
      ensures i < k ==> log.tokens[bs[i].token] == bs[i]
    {
      OwnKnown(log.tokens, log.pending, |history|, c, i);
      if i < k { OwnToken(log.tokens, log.pending, |history|, c, bs[i]); }
    }
  }

  lemma OwnKnown(tokens: map<Token, Batch>, pending: seq<Batch>, size: nat, c: Capture, i: nat)
    requires Admits(tokens, pending, size) && Genuine(c) && c.draft.seq_ == size + 1
    requires pending <= Prepared(c) && i < |Prepared(c)|
    ensures Prepared(c)[i].token in tokens <==> i < |pending|
  {
    PreparedTokens(c);
    assert SeqOf(c.commit) == size + 1;
    hide Prepared, DraftOf, SeqOf, CaptureOf, Genuine;
    var bs := Prepared(c);
    assert forall j :: 0 <= j < |pending| ==> pending[j] == bs[j];
  }

  lemma OwnToken(tokens: map<Token, Batch>, pending: seq<Batch>, size: nat, c: Capture, b: Batch)
    requires Admits(tokens, pending, size) && Genuine(c) && b in Prepared(c) && b.token in tokens
    ensures tokens[b.token] == b
  {
    PreparedTokens(c);
    hide Prepared;
    assert tokens[b.token] in Prepared(c);
    var i :| 0 <= i < |Prepared(c)| && Prepared(c)[i] == b;
    var j :| 0 <= j < |Prepared(c)| && Prepared(c)[j] == tokens[b.token];
  }

  /** What an attempt on the next capture does, from any reachable log. */
  lemma NextAttempt(log: EpochLog, history: seq<Capture>, c: Capture, budget: nat)
    requires Inv(log, history) && Genuine(c) && PrepareRefusal(c).None? && c.draft.seq_ == |history| + 1
    requires forall i :: 0 <= i < |Prepared(c)| ==> Prepared(c)[i].token.table in log.catalog
    requires forall i :: 0 <= i < |log.pending| ==> log.pending[i] in Prepared(c)
    ensures Ready(log, Prepared(c))
    ensures var bs, k := Prepared(c), |log.pending|;
            var fed := Progress(log, bs, Survived(k, budget, |bs|));
            Attempt(log, c, budget) == if k + budget <= |bs| then (fed, Died) else (SealLog(fed), Applied)
  {
    var bs := Prepared(c);
    OwnPrefix(log, history, c);
    AdmittedAttempt(log, c, budget);
    hide Prepared, Inv, Genuine, Feed, Known, Unknown, PrepareRefusal, Attempt, Progress;
    FeedCanonical(log, bs, budget);
  }

  /** Past every admission check, an attempt feeds and seals. */
  lemma AdmittedAttempt(log: EpochLog, c: Capture, budget: nat)
    requires PrepareRefusal(c).None? && c.draft.seq_ == log.Sealed() + 1
    requires forall i :: 0 <= i < |Prepared(c)| ==> Prepared(c)[i].token.table in log.catalog
    requires forall i :: 0 <= i < |log.pending| ==> log.pending[i] in Prepared(c)
    ensures var fed := Feed(log, Known(Prepared(c), log.tokens) + Unknown(Prepared(c), log.tokens), budget);
            Attempt(log, c, budget) ==
            if fed.stopped.Some? then (fed.log, fed.stopped.value)
            else if fed.left == 0 then (fed.log, Died)
            else (SealLog(fed.log), Applied)
  {
    hide Prepared, Feed, Known, Unknown, PrepareRefusal;
  }

  /** In the order the code feeds them, the batches extend the pending prefix canonically. */
  lemma FeedCanonical(log: EpochLog, bs: seq<Batch>, budget: nat)
    requires Ready(log, bs)
    ensures var k := |log.pending|;
            var n := Survived(k, budget, |bs|);
            Feed(log, Known(bs, log.tokens) + Unknown(bs, log.tokens), budget)
            == Fed(Progress(log, bs, n), budget - (n - k), if n < |bs| then Some(Died) else None)
  {
    var k := |log.pending|;
    SplitAt(bs, log.tokens, k);
    assert bs[..k] + bs[k..] == bs == bs[0..];
    FeedKnown(log, bs, 0, budget);
    FeedRest(log, bs, budget);
  }

  lemma AdmitsToken(tokens: map<Token, Batch>, pending: seq<Batch>, size: nat, c: Capture, n: nat, t: Token)
    requires Admits(tokens, pending, size) && Genuine(c) && |pending| <= n <= |Prepared(c)| && pending <= Prepared(c)
    requires t in WithTokens(tokens, Prepared(c), |pending|, n)
    ensures var bs := Prepared(c);
            var after := WithTokens(tokens, bs, |pending|, n);
            && after[t].token == t && DraftOf(t.commit).Some?
            && after[t] in Prepared(CaptureOf(t.commit, DraftOf(t.commit).value))
            && (SeqOf(t.commit) <= size || exists i :: 0 <= i < n && bs[i].token == t)
  {
    PreparedTokens(c);
    hide Prepared, SeqOf;
    var bs := Prepared(c);
    TokensIn(tokens, bs, |pending|, n, t);
    if t in tokens && SeqOf(t.commit) > size {
      var i :| 0 <= i < |pending| && pending[i].token == t;
      assert bs[i].token == t;
    }
  }

  lemma AdmitsMore(tokens: map<Token, Batch>, pending: seq<Batch>, size: nat, c: Capture, n: nat)
    requires Admits(tokens, pending, size) && Genuine(c) && |pending| <= n <= |Prepared(c)| && pending <= Prepared(c)
    ensures Admits(WithTokens(tokens, Prepared(c), |pending|, n), Prepared(c)[..n], size)
  {
    hide Prepared, SeqOf, WithTokens;
    var bs, k := Prepared(c), |pending|;
    var after, more := WithTokens(tokens, bs, k, n), bs[..n];
    forall t | t in after
      ensures after[t].token == t && DraftOf(t.commit).Some?
      ensures after[t] in Prepared(CaptureOf(t.commit, DraftOf(t.commit).value))
      ensures SeqOf(t.commit) <= size || exists i :: 0 <= i < n && more[i].token == t
    {
      AdmitsToken(tokens, pending, size, c, n, t);
      if i :| 0 <= i < n && bs[i].token == t { assert more[i].token == t; }
    }
    forall i | 0 <= i < n ensures more[i].token in after {
      TokensIn(tokens, bs, k, n, bs[i].token);
      assert i < k ==> pending[i].token == bs[i].token;
    }
  }

  /** The history after an attempt: a sealed epoch adds the capture it sealed. */
  ghost function Extended(log: EpochLog, history: seq<Capture>, c: Capture, budget: nat): seq<Capture> {
    if Attempt(log, c, budget).1.Applied? then history + [c] else history
  }

  /** An attempt that is not the next capture's, or that admission refuses, changes nothing. */
  lemma OtherAttempt(log: EpochLog, c: Capture, budget: nat)
    requires PrepareRefusal(c).Some? || c.draft.seq_ != log.Sealed() + 1
             || (exists i :: 0 <= i < |Prepared(c)| && Prepared(c)[i].token.table !in log.catalog)
             || (exists i :: 0 <= i < |log.pending| && log.pending[i] !in Prepared(c))
    ensures Attempt(log, c, budget).0 == log && !Attempt(log, c, budget).1.Applied?
  {
    hide Prepared, PrepareRefusal, Feed, Known, Unknown;
  }

  lemma FedKeepsInv(log: EpochLog, history: seq<Capture>, c: Capture, n: nat)
    requires Inv(log, history) && Genuine(c) && c.draft.seq_ == |history| + 1
    requires |log.pending| <= n <= |Prepared(c)| && log.pending <= Prepared(c)
    ensures Inv(Progress(log, Prepared(c), n), history)
  {
    hide Prepared, Admits, SealedOk, WithTokens, DraftOf, CaptureOf;
    AdmitsMore(log.tokens, log.pending, |history|, c, n);
    var bs := Prepared(c);
    assert bs[..n] <= bs;
    assert PendingOf(bs[..n], |history|, c);
  }

  lemma AttemptKeepsInv(log: EpochLog, history: seq<Capture>, c: Capture, budget: nat)
    requires Inv(log, history) && Genuine(c)
    ensures Inv(Attempt(log, c, budget).0, Extended(log, history, c, budget))
  {
    hide Prepared;
    var bs := Prepared(c);
    assert |history| == log.Sealed();
    if PrepareRefusal(c).None? && c.draft.seq_ == |history| + 1
       && (forall i :: 0 <= i < |bs| ==> bs[i].token.table in log.catalog)
       && (forall i :: 0 <= i < |log.pending| ==> log.pending[i] in bs)
    {
      NextAttempt(log, history, c, budget);
      var k := |log.pending|;
      var n := Survived(k, budget, |bs|);
      FedKeepsInv(log, history, c, n);
      var fed := Progress(log, bs, n);
      assert k + budget > |bs| ==> fed.pending == bs;
      hide Attempt, PrepareRefusal, Genuine, Inv;
      if k + budget > |bs| { SealKeepsInv(fed, history, c); }
    } else {
      OtherAttempt(log, c, budget);
    }
  }

  lemma SealedMore(retained: nat, sealed: seq<seq<Batch>>, history: seq<Capture>, c: Capture)
    requires SealedOk(retained, sealed, history) && Genuine(c) && c.draft.seq_ == |history| + 1
    ensures SealedOk(retained, sealed + [Prepared(c)], history + [c])
  {
    hide Prepared, Genuine;
  }

  lemma SealKeepsInv(fed: EpochLog, history: seq<Capture>, c: Capture)
    requires Inv(fed, history) && Genuine(c) && c.draft.seq_ == |history| + 1 && fed.pending == Prepared(c)
    ensures Inv(SealLog(fed), history + [c])
  {
    hide Prepared;
    SealedMore(fed.retained, fed.sealed, history, c);
    PreparedTokens(c);
    hide SealedOk;
    forall t | t in fed.tokens ensures SeqOf(t.commit) <= |history + [c]| {
      if i :| 0 <= i < |fed.pending| && fed.pending[i].token == t { assert t.commit == c.commit; }
    }
  }

  // ---- every schedule ------------------------------------------------------------------------------------

  datatype Event = Offering(c: Capture, budget: nat) | Compacting(anchor: nat)

  ghost function Run(catalog: set<string>, events: seq<Event>): (EpochLog, seq<Capture>) {
    if events == [] then (EpochLog(catalog, 0, [], [], map[]), []) else
      var (log, history) := Run(catalog, events[..|events| - 1]);
      match events[|events| - 1]
      case Offering(c, budget) => (Attempt(log, c, budget).0, Extended(log, history, c, budget))
      case Compacting(anchor) => (CompactLog(log, anchor), history)
  }

  lemma {:induction false} RunInv(catalog: set<string>, events: seq<Event>)
    requires forall i :: 0 <= i < |events| && events[i].Offering? ==> Genuine(events[i].c)
    ensures Inv(Run(catalog, events).0, Run(catalog, events).1)
  {
    hide Prepared;
    if events != [] {
      var (log, history) := Run(catalog, events[..|events| - 1]);
      RunInv(catalog, events[..|events| - 1]);
      match events[|events| - 1]
      case Offering(c, budget) => AttemptKeepsInv(log, history, c, budget);
      case Compacting(anchor) => CompactKeepsInv(log, history, anchor);
    }
  }

  lemma CompactKeepsInv(log: EpochLog, history: seq<Capture>, anchor: nat)
    requires Inv(log, history)
    ensures Inv(CompactLog(log, anchor), history)
  {
    hide Prepared, Genuine, PendingOk, Admits;
  }

  /**
   One commit, one epoch. After any schedule of attempts that die between any two log steps, with
   compactions in between, every retained epoch holds exactly the prepared batches of the capture with
   its number, in canonical order, and no commit is in two epochs.
   */
  lemma OneCommitOneEpoch(catalog: set<string>, events: seq<Event>, e: nat)
    requires forall i :: 0 <= i < |events| && events[i].Offering? ==> Genuine(events[i].c)
    requires Run(catalog, events).0.retained < e <= Run(catalog, events).0.Sealed()
    ensures var (log, history) := Run(catalog, events);
            && |history| == log.Sealed() && history[e - 1].draft.seq_ == e
            && log.sealed[e - log.retained - 1] == Prepared(history[e - 1])
            && (forall d :: 0 <= d < |history| && history[d].commit == history[e - 1].commit ==> d == e - 1)
  {
    hide Prepared, Admits, PendingOk;
    RunInv(catalog, events);
    var (log, history) := Run(catalog, events);
    hide Run;
    forall d | 0 <= d < |history| && history[d].commit == history[e - 1].commit ensures d == e - 1 {
      assert Genuine(history[d]) && Genuine(history[e - 1]);
    }
  }

  /** A retry of a sealed sequence changes nothing and is recognised exactly when it is the sealed capture. */
  lemma RetryIsReplayed(log: EpochLog, history: seq<Capture>, c: Capture, budget: nat)
    requires Inv(log, history) && Genuine(c) && PrepareRefusal(c).None? && c.draft.seq_ <= |history|
    ensures Attempt(log, c, budget) ==
            (log, if c.draft.seq_ <= log.retained then Refused(ReplayCompacted)
                  else if c == history[c.draft.seq_ - 1] then Replayed
                  else Refused(ReplayMismatch))
  {
    hide Prepared;
    var e := c.draft.seq_;
    if e > log.retained {
      var sealed := history[e - 1];
      PreparedTokens(c);
      PreparedTokens(sealed);
      assert log.sealed[e - log.retained - 1] == Prepared(sealed);
      if Prepared(c) == Prepared(sealed) {
        assert Prepared(c)[0].token.commit == Prepared(sealed)[0].token.commit;
        assert Genuine(sealed);
      }
    }
  }

  /**
   While part of a capture is pending, a rival with its sequence is refused before anything is
   written; the capture itself completes as soon as one attempt lives long enough.
   */
  lemma RivalIsRefused(log: EpochLog, history: seq<Capture>, p: Capture, c: Capture, budget: nat)
    requires Inv(log, history) && log.pending != [] && PendingOf(log.pending, |history|, p)
    requires Genuine(c) && PrepareRefusal(c).None? && c.draft.seq_ == |history| + 1
    requires forall i :: 0 <= i < |Prepared(c)| ==> Prepared(c)[i].token.table in log.catalog
    ensures c != p <==> Attempt(log, c, budget) == (log, Refused(ForeignPendingBatch))
    ensures c == p && |log.pending| + budget > |Prepared(p)| ==>
              Attempt(log, c, budget).1 == Applied && Attempt(log, c, budget).0.sealed == log.sealed + [Prepared(p)]
  {
    hide Prepared;
    PreparedTokens(c);
    PreparedTokens(p);
    assert log.pending[0] == Prepared(p)[0];
    if c == p {
      NextAttempt(log, history, c, budget);
      assert Prepared(c)[..|Prepared(c)|] == Prepared(c);
    } else {
      assert log.pending[0] !in Prepared(c);
    }
  }

  /**
   Every attempt, from any reachable log, in terms of what has been sealed: a sealed sequence is replayed, mismatched
   or compacted away; a later one leaves a gap; the next one is refused for a table or for a rival's pending batches,
   and otherwise goes on where the last attempt stopped, and is sealed if it lives past its last batch.
   */
  lemma AttemptExactly(log: EpochLog, history: seq<Capture>, c: Capture, budget: nat)
    requires Inv(log, history) && Genuine(c)
    ensures var (after, o), n, e, bs := Attempt(log, c, budget), |history|, c.draft.seq_, Prepared(c);
            if PrepareRefusal(c).Some? then after == log && o == Refused(Unprepared(PrepareRefusal(c).value))
            else if e <= log.retained then after == log && o == Refused(ReplayCompacted)
            else if e <= n then after == log && o == if c == history[e - 1] then Replayed else Refused(ReplayMismatch)
            else if e > n + 1 then after == log && o == Refused(EpochGap(n + 1, e))
            else if exists i :: 0 <= i < |bs| && bs[i].token.table !in log.catalog then after == log && o == Refused(UnknownTable)
            else if exists i :: 0 <= i < |log.pending| && log.pending[i] !in bs then after == log && o == Refused(ForeignPendingBatch)
            else if |log.pending| + budget > |bs| then o == Applied && after.sealed == log.sealed + [bs] && after.pending == []
            else o == Died && after.sealed == log.sealed && |log.pending| <= |bs| && after.pending == bs[..|log.pending| + budget]
  {
    hide Prepared, SealedOk, PendingOk, Admits;
    SealedSize(log, history);
    if PrepareRefusal(c).None? {
      if c.draft.seq_ <= |history| {
        RetryIsReplayed(log, history, c, budget);
      } else if c.draft.seq_ == |history| + 1
                && (forall i :: 0 <= i < |Prepared(c)| ==> Prepared(c)[i].token.table in log.catalog)
                && (forall i :: 0 <= i < |log.pending| ==> log.pending[i] in Prepared(c)) {
        NextAttempt(log, history, c, budget);
        assert Prepared(c)[..|Prepared(c)|] == Prepared(c);
        hide Attempt;
      }
    }
    hide PrepareRefusal, Genuine, Inv, Feed, Known, Unknown;
  }

  lemma SealedSize(log: EpochLog, history: seq<Capture>)
    requires Inv(log, history)
    ensures |history| == log.Sealed()
  {
  }

  /** The batch is admitted as it is, for a table of the catalog. */
  ghost predicate Holds(log: EpochLog, b: Batch) { b.token in log.tokens && log.tokens[b.token] == b && b.token.table in log.catalog }

  /** Feeding changes no admitted token, and unless it stops, admits every batch it was given under its own. */
  lemma {:induction false} FeedAdmits(log: EpochLog, bs: seq<Batch>, budget: nat)
    ensures var fed := Feed(log, bs, budget);
            && (forall t :: t in log.tokens ==> t in fed.log.tokens && fed.log.tokens[t] == log.tokens[t])
            && (fed.stopped.None? ==> forall b :: b in bs ==> Holds(fed.log, b))
            && fed.log.catalog == log.catalog
    decreases |bs|
  {
    if bs != [] && AppendBatch(log, bs[0]).Ok? {
      var next := AppendBatch(log, bs[0]).value;
      assert bs == [bs[0]] + bs[1..];
      assert Holds(next, bs[0]);
      if next == log { FeedAdmits(log, bs[1..], budget); }
      else if budget > 0 { FeedAdmits(next, bs[1..], budget - 1); }
    }
  }

  lemma {:induction false} KnownOrUnknown(bs: seq<Batch>, tokens: map<Token, Batch>, b: Batch)
    ensures b in bs <==> b in Known(bs, tokens) || b in Unknown(bs, tokens)
  {
    if bs != [] {
      assert bs == [bs[0]] + bs[1..];
      KnownOrUnknown(bs[1..], tokens, b);
    }
  }

  /** On any log at all: a capture is applied only if each of its batches is admitted, as it is, under its own token. */
  lemma AppliedIsAdmitted(log: EpochLog, c: Capture, budget: nat)
    requires Attempt(log, c, budget).1 == Applied
    ensures var after := Attempt(log, c, budget).0;
            && (forall b :: b in Prepared(c) ==> Holds(after, b))
            && (forall t :: t in log.tokens ==> t in after.tokens && after.tokens[t] == log.tokens[t])
  {
    var ordered := Known(Prepared(c), log.tokens) + Unknown(Prepared(c), log.tokens);
    AppliedIsFed(log, c, budget);
    FeedAdmits(log, ordered, budget);
    hide Prepared, Feed, Known, Unknown, Attempt;
    forall b | b in Prepared(c) ensures b in ordered { KnownOrUnknown(Prepared(c), log.tokens, b); }
  }

  lemma AppliedIsFed(log: EpochLog, c: Capture, budget: nat)
    requires Attempt(log, c, budget).1 == Applied
    ensures var fed := Feed(log, Known(Prepared(c), log.tokens) + Unknown(Prepared(c), log.tokens), budget);
            fed.stopped.None? && Attempt(log, c, budget).0 == SealLog(fed.log)
  {
    FeedStops(log, Known(Prepared(c), log.tokens) + Unknown(Prepared(c), log.tokens), budget);
    hide Prepared, PrepareRefusal, Feed, Known, Unknown;
  }

  lemma {:induction false} FeedStops(log: EpochLog, bs: seq<Batch>, budget: nat)
    ensures Feed(log, bs, budget).stopped != Some(Applied)
    decreases |bs|
  {
    if bs != [] && AppendBatch(log, bs[0]).Ok? {
      var next := AppendBatch(log, bs[0]).value;
      if next == log { FeedStops(log, bs[1..], budget); }
      else if budget > 0 { FeedStops(next, bs[1..], budget - 1); }
    }
  }

  lemma {:induction false} FeedRetains(log: EpochLog, bs: seq<Batch>, budget: nat)
    ensures Feed(log, bs, budget).log.retained == log.retained
    decreases |bs|
  {
    if bs != [] && AppendBatch(log, bs[0]).Ok? {
      var next := AppendBatch(log, bs[0]).value;
      if next == log { FeedRetains(log, bs[1..], budget); }
      else if budget > 0 { FeedRetains(next, bs[1..], budget - 1); }
    }
  }

  lemma AttemptRetains(log: EpochLog, c: Capture, budget: nat)
    ensures Attempt(log, c, budget).0.retained == log.retained
  {
    FeedRetains(log, Known(Prepared(c), log.tokens) + Unknown(Prepared(c), log.tokens), budget);
    hide Prepared, PrepareRefusal, Feed, Known, Unknown;
  }

  /** Event `i` compacts through an epoch that was sealed by then. */
  ghost predicate Anchors(catalog: set<string>, events: seq<Event>, i: int) {
    0 <= i < |events| && events[i].Compacting? && events[i].anchor <= Run(catalog, events[..i]).0.Sealed()
  }

  lemma AnchorsMore(catalog: set<string>, events: seq<Event>, i: int)
    requires events != [] && 0 <= i < |events| - 1
    ensures Anchors(catalog, events, i) <==> Anchors(catalog, events[..|events| - 1], i)
  {
    assert events[..|events| - 1][..i] == events[..i];
  }

  /** What compaction drops, over every schedule: the epochs through the last anchor that named a sealed epoch. */
  lemma {:induction false} RetainedIsAnchor(catalog: set<string>, events: seq<Event>)
    ensures var retained := Run(catalog, events).0.retained;
            && (forall i :: Anchors(catalog, events, i) ==> events[i].anchor <= retained)
            && (retained == 0 || exists i :: Anchors(catalog, events, i) && events[i].anchor == retained)
  {
    if events != [] {
      var init, n := events[..|events| - 1], |events| - 1;
      var log := Run(catalog, init).0;
      assert events[..n] == init;
      RetainedIsAnchor(catalog, init);
      if events[n].Offering? { AttemptRetains(log, events[n].c, events[n].budget); }
      forall i | 0 <= i < n ensures Anchors(catalog, events, i) <==> Anchors(catalog, init, i) { AnchorsMore(catalog, events, i); }
      var retained := Run(catalog, events).0.retained;
      assert events[n].Compacting? ==> (Anchors(catalog, events, n) <==> events[n].anchor <= log.Sealed());
      hide Attempt, Extended;
      if retained != 0 {
        if retained == log.retained {
          var i :| Anchors(catalog, init, i) && init[i].anchor == retained;
          assert Anchors(catalog, events, i);
        } else {
          assert Anchors(catalog, events, n);
        }
      }
    }
  }

  // ---- the code's form -----------------------------------------------------------------------------------

  class EpochClock {
    var log: EpochLog

    constructor (catalog: set<string>)
      ensures log == EpochLog(catalog, 0, [], [], map[])
    {
      log := EpochLog(catalog, 0, [], [], map[]);
    }

    /** Append in turn until a refusal or the crash; returns the steps left and why it stopped. */
    method FeedAll(ordered: seq<Batch>, budget: nat) returns (r: (nat, Option<Outcome>))
      modifies this
      ensures Fed(log, r.0, r.1) == Feed(old(log), ordered, budget)
    {
      var left := budget;
      var i := 0;
      while i < |ordered|
        invariant 0 <= i <= |ordered|
        invariant Feed(old(log), ordered, budget) == Feed(log, ordered[i..], left)
      {
        assert ordered[i..][1..] == ordered[i + 1..];
        var appended := AppendBatch(log, ordered[i]);
        if appended.Err? { return (left, Some(Refused(appended.error))); }
        if appended.value != log {
          if left == 0 { return (0, Some(Died)); }
          left := left - 1;
          log := appended.value;
        }
        i := i + 1;
      }
      r := (left, None);
    }

    method ApplyCommit(c: Capture, budget: nat) returns (o: Outcome)
      modifies this
      ensures (log, o) == Attempt(old(log), c, budget)
    {
      hide Prepared, PrepareRefusal, Feed, Known, Unknown, HandsOver, WellFormed, Audited;
      var prepared := Prepare(c);
      if prepared.Err? { return Refused(Unprepared(prepared.error)); }
      var bs := prepared.value;
      var sealed := log.Sealed();
      if c.draft.seq_ <= sealed {
        if c.draft.seq_ <= log.retained { return Refused(ReplayCompacted); }
        if log.sealed[c.draft.seq_ - log.retained - 1] != bs { return Refused(ReplayMismatch); }
        return Replayed;
      }
      if c.draft.seq_ != sealed + 1 { return Refused(EpochGap(sealed + 1, c.draft.seq_)); }
      var i := 0;
      while i < |bs|
        invariant 0 <= i <= |bs| && forall j :: 0 <= j < i ==> bs[j].token.table in log.catalog
      {
        if bs[i].token.table !in log.catalog { return Refused(UnknownTable); }
        i := i + 1;
      }
      i := 0;
      while i < |log.pending|
        invariant 0 <= i <= |log.pending| && forall j :: 0 <= j < i ==> log.pending[j] in bs
      {
        if log.pending[i] !in bs { return Refused(ForeignPendingBatch); }
        i := i + 1;
      }
      var fed := FeedAll(Known(bs, log.tokens) + Unknown(bs, log.tokens), budget);
      if fed.1.Some? { return fed.1.value; }
      if fed.0 == 0 { return Died; }
      log := SealLog(log);
      o := Applied;
    }
  }
}
