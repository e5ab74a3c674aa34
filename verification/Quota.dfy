/**
 The windowed quota every door charges: a window opens when the last one is a second old, and admits so
 many requests and bytes. Instants are nanoseconds of a monotone clock; counters are 64 bits wide.
 */
module Quota {

  const WIDTH := 0x1_0000_0000_0000_0000
  const MILLI := 1_000_000
  const WINDOW_MILLIS := 1_000
  const SECOND := WINDOW_MILLIS * MILLI

  datatype Config = Config(requests: nat, bytes: nat)

  datatype Window = Window(start: nat, requests: nat, bytes: nat)

  /** One charge: the clock as the age is read, as a new window would start, and some moment in between. */
  datatype Charge = Charge(read: nat, reset: nat, at: nat, bytes: nat)

  /** A window is spent once it is a second old, in whole milliseconds. */
  predicate Spent(w: Window, read: nat) { read >= w.start && (read - w.start) / MILLI >= WINDOW_MILLIS }

  function Current(w: Window, c: Charge): Window {
    if Spent(w, c.read) then Window(c.reset, 0, 0) else w
  }

  /** Sums wrap at 64 bits. */
  predicate Admits(cfg: Config, w: Window, bytes: nat) {
    (w.requests + 1) % WIDTH <= cfg.requests && (w.bytes + bytes) % WIDTH <= cfg.bytes
  }

  function Charged(cfg: Config, w: Window, c: Charge): Window {
    var now := Current(w, c);
    if Admits(cfg, now, c.bytes) then Window(now.start, (now.requests + 1) % WIDTH, (now.bytes + c.bytes) % WIDTH) else now
  }

  // ---- traces ----------------------------------------------------------------------------------------------

  function After(cfg: Config, zero: nat, cs: seq<Charge>, n: nat): Window
    requires n <= |cs|
  {
    if n == 0 then Window(zero, 0, 0) else Charged(cfg, After(cfg, zero, cs, n - 1), cs[n - 1])
  }

  predicate Resets(cfg: Config, zero: nat, cs: seq<Charge>, i: nat)
    requires i < |cs|
  {
    Spent(After(cfg, zero, cs, i), cs[i].read)
  }

  predicate Admitted(cfg: Config, zero: nat, cs: seq<Charge>, i: nat)
    requires i < |cs|
  {
    Admits(cfg, Current(After(cfg, zero, cs, i), cs[i]), cs[i].bytes)
  }

  /** Requests and bytes admitted among the charges from `i` to `j`. */
  function Requests(cfg: Config, zero: nat, cs: seq<Charge>, i: nat, j: nat): nat
    requires i <= j <= |cs|
    decreases j - i
  {
    if i == j then 0 else
      Requests(cfg, zero, cs, i, j - 1) + if Admitted(cfg, zero, cs, j - 1) then 1 else 0
  }

  function Bytes(cfg: Config, zero: nat, cs: seq<Charge>, i: nat, j: nat): nat
    requires i <= j <= |cs|
    decreases j - i
  {
    if i == j then 0 else
      Bytes(cfg, zero, cs, i, j - 1) + if Admitted(cfg, zero, cs, j - 1) then cs[j - 1].bytes else 0
  }

  /** A monotone clock: each charge reads it in order, and charges follow each other. */
  ghost predicate Monotone(zero: nat, cs: seq<Charge>) {
    && (forall i :: 0 <= i < |cs| ==> zero <= cs[i].read <= cs[i].at <= cs[i].reset)
    && (forall i, j :: 0 <= i < j < |cs| ==> cs[i].reset <= cs[j].read)
  }

  /** No sum the code forms overflows its 64 bits. */
  ghost predicate NoOverflow(cfg: Config, cs: seq<Charge>) {
    cfg.requests + 1 < WIDTH && forall i :: 0 <= i < |cs| ==> cfg.bytes + cs[i].bytes < WIDTH
  }

  /** Without overflow a charge is plain addition under the quotas. */
  lemma PlainCharge(cfg: Config, w: Window, c: Charge)
    requires w.requests <= cfg.requests && w.bytes <= cfg.bytes && cfg.requests + 1 < WIDTH && cfg.bytes + c.bytes < WIDTH
    ensures var now := Current(w, c);
            && (Admits(cfg, now, c.bytes) <==> now.requests + 1 <= cfg.requests && now.bytes + c.bytes <= cfg.bytes)
            && Charged(cfg, w, c) == if Admits(cfg, now, c.bytes) then Window(now.start, now.requests + 1, now.bytes + c.bytes) else now
  {
    var now := Current(w, c);
    assert (now.requests + 1) % WIDTH == now.requests + 1 && (now.bytes + c.bytes) % WIDTH == now.bytes + c.bytes;
  }

  lemma {:induction false} WithinQuota(cfg: Config, zero: nat, cs: seq<Charge>, n: nat)
    requires n <= |cs| && NoOverflow(cfg, cs)
    ensures var w := After(cfg, zero, cs, n); w.requests <= cfg.requests && w.bytes <= cfg.bytes
  {
    if n > 0 {
      WithinQuota(cfg, zero, cs, n - 1);
      PlainCharge(cfg, After(cfg, zero, cs, n - 1), cs[n - 1]);
    }
  }

  /** The counters hold everything admitted since the window zero. */
  lemma {:induction false} CountersCount(cfg: Config, zero: nat, cs: seq<Charge>, i: nat, j: nat)
    requires i <= j <= |cs| && NoOverflow(cfg, cs)
    requires forall k :: i < k < j ==> !Resets(cfg, zero, cs, k)
    ensures var w := After(cfg, zero, cs, j);
            Requests(cfg, zero, cs, i, j) <= w.requests && Bytes(cfg, zero, cs, i, j) <= w.bytes
    decreases j - i
  {
    if i < j {
      CountersCount(cfg, zero, cs, i, j - 1);
      WithinQuota(cfg, zero, cs, j - 1);
      PlainCharge(cfg, After(cfg, zero, cs, j - 1), cs[j - 1]);
      hide Admits, Charged;
      assert i < j - 1 ==> !Resets(cfg, zero, cs, j - 1);
    }
  }

  /** Each window admits at most the two quotas. */
  lemma WindowBound(cfg: Config, zero: nat, cs: seq<Charge>, i: nat, j: nat)
    requires i <= j <= |cs| && NoOverflow(cfg, cs)
    requires forall k :: i < k < j ==> !Resets(cfg, zero, cs, k)
    ensures Requests(cfg, zero, cs, i, j) <= cfg.requests && Bytes(cfg, zero, cs, i, j) <= cfg.bytes
  {
    CountersCount(cfg, zero, cs, i, j);
    WithinQuota(cfg, zero, cs, j);
  }

  // ---- any second --------------------------------------------------------------------------------------------

  /** The current window never starts after a charge that follows it, nor before an opening it passed. */
  lemma {:induction false} WindowStart(cfg: Config, zero: nat, cs: seq<Charge>, k: nat, n: nat)
    requires k < n <= |cs| && Monotone(zero, cs) && Resets(cfg, zero, cs, k)
    ensures After(cfg, zero, cs, n).start >= cs[k].reset
  {
    if k < n - 1 { WindowStart(cfg, zero, cs, k, n - 1); }
  }

  /** A second window opens a full second after the first one did. */
  lemma OpeningsApart(cfg: Config, zero: nat, cs: seq<Charge>, k: nat, l: nat)
    requires k < l < |cs| && Monotone(zero, cs) && Resets(cfg, zero, cs, k) && Resets(cfg, zero, cs, l)
    ensures cs[l].read >= cs[k].reset + SECOND
  {
    WindowStart(cfg, zero, cs, k, l);
    var w := After(cfg, zero, cs, l);
    assert cs[l].read - w.start >= MILLI * ((cs[l].read - w.start) / MILLI);
  }

  lemma OneOpening(cfg: Config, zero: nat, cs: seq<Charge>, k: nat, l: nat)
    requires k < l < |cs| && Monotone(zero, cs) && Resets(cfg, zero, cs, k) && cs[l].at < cs[k].at + SECOND
    ensures !Resets(cfg, zero, cs, l)
  {
    if Resets(cfg, zero, cs, l) { OpeningsApart(cfg, zero, cs, k, l); }
  }

  lemma InOrder(zero: nat, cs: seq<Charge>, i: nat, j: nat)
    requires i <= j < |cs| && Monotone(zero, cs)
    ensures cs[i].at <= cs[j].at
  {
    assert i < j ==> cs[i].at <= cs[i].reset <= cs[j].read;
  }

  lemma {:induction false} Splits(cfg: Config, zero: nat, cs: seq<Charge>, i: nat, k: nat, j: nat)
    requires i <= k <= j <= |cs|
    ensures Requests(cfg, zero, cs, i, j) == Requests(cfg, zero, cs, i, k) + Requests(cfg, zero, cs, k, j)
    ensures Bytes(cfg, zero, cs, i, j) == Bytes(cfg, zero, cs, i, k) + Bytes(cfg, zero, cs, k, j)
    decreases j - k
  {
    if k < j { Splits(cfg, zero, cs, i, k, j - 1); }
  }

  /** Charges within one second meet at most two windows. */
  lemma RangeBound(cfg: Config, zero: nat, cs: seq<Charge>, i: nat, j: nat, from: nat)
    requires i <= j <= |cs| && Monotone(zero, cs) && NoOverflow(cfg, cs)
    requires forall k :: i <= k < j ==> from <= cs[k].at < from + SECOND
    ensures Requests(cfg, zero, cs, i, j) <= 2 * cfg.requests && Bytes(cfg, zero, cs, i, j) <= 2 * cfg.bytes
  {
    if k: nat :| i < k < j && Resets(cfg, zero, cs, k) && forall l: nat :: i < l < k ==> !Resets(cfg, zero, cs, l) {
      forall l: nat | k < l < j ensures !Resets(cfg, zero, cs, l) { OneOpening(cfg, zero, cs, k, l); }
      WindowBound(cfg, zero, cs, i, k);
      WindowBound(cfg, zero, cs, k, j);
      Splits(cfg, zero, cs, i, k, j);
    } else {
      NoFirstReset(cfg, zero, cs, i, j, j);
      WindowBound(cfg, zero, cs, i, j);
    }
  }

  /** No least opening means no opening. */
  lemma {:induction false} NoFirstReset(cfg: Config, zero: nat, cs: seq<Charge>, i: nat, j: nat, n: nat)
    requires i <= j <= |cs| && n <= j
    requires !exists k: nat :: i < k < j && Resets(cfg, zero, cs, k) && forall l: nat :: i < l < k ==> !Resets(cfg, zero, cs, l)
    ensures forall l: nat :: i < l < n ==> !Resets(cfg, zero, cs, l)
  {
    if n > 0 { NoFirstReset(cfg, zero, cs, i, j, n - 1); }
  }

  /** What a trace admits in the half-open second from `from`. */
  function RequestsIn(cfg: Config, zero: nat, cs: seq<Charge>, from: nat, n: nat): nat
    requires n <= |cs|
  {
    if n == 0 then 0 else
      RequestsIn(cfg, zero, cs, from, n - 1)
      + if from <= cs[n - 1].at < from + SECOND && Admitted(cfg, zero, cs, n - 1) then 1 else 0
  }

  function BytesIn(cfg: Config, zero: nat, cs: seq<Charge>, from: nat, n: nat): nat
    requires n <= |cs|
  {
    if n == 0 then 0 else
      BytesIn(cfg, zero, cs, from, n - 1)
      + if from <= cs[n - 1].at < from + SECOND && Admitted(cfg, zero, cs, n - 1) then cs[n - 1].bytes else 0
  }

  /** The charges of one second are a contiguous stretch of the trace. */
  lemma {:induction false} SecondIsRange(cfg: Config, zero: nat, cs: seq<Charge>, from: nat, n: nat) returns (i: nat, j: nat)
    requires n <= |cs| && Monotone(zero, cs)
    ensures i <= j <= n
    ensures forall k :: i <= k < j ==> from <= cs[k].at < from + SECOND
    ensures forall k :: 0 <= k < i ==> cs[k].at < from
    ensures i < j || n == i || cs[i].at >= from + SECOND
    ensures j < n ==> cs[j].at >= from + SECOND
    ensures RequestsIn(cfg, zero, cs, from, n) == Requests(cfg, zero, cs, i, j)
    ensures BytesIn(cfg, zero, cs, from, n) == Bytes(cfg, zero, cs, i, j)
  {
    if n == 0 { return 0, 0; }
    i, j := SecondIsRange(cfg, zero, cs, from, n - 1);
    hide Admitted;
    var at := cs[n - 1].at;
    if i < n { InOrder(zero, cs, i, n - 1); }
    if j < n - 1 {
      InOrder(zero, cs, j, n - 1);
    } else if at < from {
      i, j := n, n;
    } else if at < from + SECOND {
      j := n;
    }
  }

  /**
   Quota over traces: whatever the charges and wherever the second starts, at most twice each quota is
   admitted in it.
   */
  lemma AnySecondAtMostTwice(cfg: Config, zero: nat, cs: seq<Charge>, from: nat)
    requires Monotone(zero, cs) && NoOverflow(cfg, cs)
    ensures RequestsIn(cfg, zero, cs, from, |cs|) <= 2 * cfg.requests
    ensures BytesIn(cfg, zero, cs, from, |cs|) <= 2 * cfg.bytes
  {
    var i, j := SecondIsRange(cfg, zero, cs, from, |cs|);
    RangeBound(cfg, zero, cs, i, j, from);
  }

  /** The factor of two is met: a full charge at the end of one window and one as the next opens. */
  lemma FactorTwoIsMet(bytes: nat)
    requires 2 * bytes < WIDTH
    ensures var cfg, cs := Config(1, bytes), [Charge(SECOND - 1, SECOND - 1, SECOND - 1, bytes), Charge(SECOND, SECOND, SECOND, bytes)];
            && Monotone(0, cs) && NoOverflow(cfg, cs)
            && RequestsIn(cfg, 0, cs, SECOND - 1, 2) == 2 * cfg.requests
            && BytesIn(cfg, 0, cs, SECOND - 1, 2) == 2 * cfg.bytes
  {
    var cfg, cs := Config(1, bytes), [Charge(SECOND - 1, SECOND - 1, SECOND - 1, bytes), Charge(SECOND, SECOND, SECOND, bytes)];
    assert After(cfg, 0, cs, 0) == Window(0, 0, 0);
    assert After(cfg, 0, cs, 1) == Window(0, 1, bytes);
    assert Admitted(cfg, 0, cs, 0) && Admitted(cfg, 0, cs, 1);
    assert RequestsIn(cfg, 0, cs, SECOND - 1, 1) == 1 && BytesIn(cfg, 0, cs, SECOND - 1, 1) == bytes;
  }

  /**
   A charge a second or more after the window opened gets a window of its own: it is admitted exactly if it fits
   the quotas alone, and the counters start over at it. An earlier one is held against what the window has admitted.
   */
  lemma SecondStartsOver(cfg: Config, w: Window, c: Charge)
    requires cfg.requests < 0x1_0000_0000_0000_0000 && c.bytes < 0x1_0000_0000_0000_0000
    ensures c.read >= w.start + 1_000_000_000 ==>
              && (Admits(cfg, Current(w, c), c.bytes) <==> 1 <= cfg.requests && c.bytes <= cfg.bytes)
              && Charged(cfg, w, c) == if 1 <= cfg.requests && c.bytes <= cfg.bytes then Window(c.reset, 1, c.bytes) else Window(c.reset, 0, 0)
    ensures c.read < w.start + 1_000_000_000 ==> Current(w, c) == w
  {
    assert (0 + 1) % WIDTH == 1 && (0 + c.bytes) % WIDTH == c.bytes;
    if c.read >= w.start { SecondIsMillis(w.start, c.read); }
  }

  lemma SecondIsMillis(start: nat, read: nat)
    requires read >= start
    ensures (read - start) / MILLI >= WINDOW_MILLIS <==> read >= start + 1_000_000_000
  {
    var age := read - start;
    assert MILLI * (age / MILLI) <= age < MILLI * (age / MILLI) + MILLI;
  }

  // ---- where the width matters ---------------------------------------------------------------------------------

  /**
   Wrapping sums admit a charge the quota should refuse exactly when the byte sum overflows and wraps back
   under the quota (a window within its quotas, and a request quota below the width).
   */
  lemma WrapAdmitsExactly(cfg: Config, w: Window, bytes: nat)
    requires w.requests <= cfg.requests && w.bytes <= cfg.bytes && cfg.requests + 1 < WIDTH && cfg.bytes < WIDTH && bytes < WIDTH
    ensures Admits(cfg, w, bytes) && !(w.requests + 1 <= cfg.requests && w.bytes + bytes <= cfg.bytes)
            <==> w.requests + 1 <= cfg.requests && w.bytes + bytes >= WIDTH && w.bytes + bytes - WIDTH <= cfg.bytes
  {
    if w.bytes + bytes >= WIDTH { assert (w.bytes + bytes) % WIDTH == w.bytes + bytes - WIDTH; }
  }

  /** An input that fails: ten bytes are allowed and spent, and a charge one short of the width passes. */
  lemma WrapAdmitsTooMuch()
    ensures var cfg, w, bytes := Config(1, 10), Window(0, 0, 10), WIDTH - 1;
            Admits(cfg, w, bytes) && w.bytes + bytes > cfg.bytes && Charged(cfg, w, Charge(0, 0, 0, bytes)).bytes == 9
  {
    WrapAdmitsExactly(Config(1, 10), Window(0, 0, 10), WIDTH - 1);
  }

  lemma {:induction false} AfterPrefix(cfg: Config, zero: nat, cs: seq<Charge>, c: Charge, n: nat)
    requires n <= |cs|
    ensures After(cfg, zero, cs + [c], n) == After(cfg, zero, cs, n)
  {
    if n > 0 { AfterPrefix(cfg, zero, cs, c, n - 1); }
  }

  // ---- the code's form -----------------------------------------------------------------------------------------

  class QuotaWindow {
    const config: Config
    var window: Window
    ghost const zero: nat
    ghost var charges: seq<Charge>

    /** The window is where every charge so far left it. */
    ghost predicate Valid()
      reads this
    {
      window == After(config, zero, charges, |charges|)
    }

    constructor (config: Config, now: nat)
      ensures Valid() && this.config == config && zero == now && charges == []
    {
      this.config := config;
      window := Window(now, 0, 0);
      zero, charges := now, [];
    }

    /** The counters' own step: open a new window if this one is spent, then add or refuse. */
    method Count(c: Charge) returns (ok: bool)
      modifies `window
      ensures window == Charged(config, old(window), c)
      ensures ok <==> Admits(config, Current(old(window), c), c.bytes)
    {
      if c.read >= window.start && (c.read - window.start) / MILLI >= WINDOW_MILLIS {
        window := Window(c.reset, 0, 0);
      }
      if (window.requests + 1) % WIDTH > config.requests { return false; }
      if (window.bytes + c.bytes) % WIDTH > config.bytes { return false; }
      window := window.(requests := (window.requests + 1) % WIDTH);
      window := window.(bytes := (window.bytes + c.bytes) % WIDTH);
      ok := true;
    }

    /**
     One charge joins the trace. Unless a sum overflows, it is admitted exactly if it fits beside what the
     current window holds, the window stays within both quotas, and on a monotone clock no second of the
     whole trace has admitted more than twice each quota.
     */
    method ChargeFor(c: Charge) returns (ok: bool)
      requires Valid()
      modifies this
      ensures Valid() && charges == old(charges) + [c]
      ensures ok <==> Admitted(config, zero, charges, |charges| - 1)
      ensures NoOverflow(config, charges) ==>
                var now := Current(old(window), c);
                && (ok <==> now.requests + 1 <= config.requests && now.bytes + c.bytes <= config.bytes)
                && window == (if ok then Window(now.start, now.requests + 1, now.bytes + c.bytes) else now)
                && window.requests <= config.requests && window.bytes <= config.bytes
      ensures Monotone(zero, charges) && NoOverflow(config, charges) ==>
                forall from: nat ::
                  && RequestsIn(config, zero, charges, from, |charges|) <= 2 * config.requests
                  && BytesIn(config, zero, charges, from, |charges|) <= 2 * config.bytes
    {
      hide RequestsIn, BytesIn, Monotone, NoOverflow, Charged, Admits, Spent;
      AfterPrefix(config, zero, charges, c, |charges|);
      ChargeIsPlain(config, zero, charges + [c]);
      ok := Count(c);
      charges := charges + [c];
    }
  }

  /** What the last charge of a trace that never overflows did, and what the trace then bounds. */
  lemma ChargeIsPlain(cfg: Config, zero: nat, cs: seq<Charge>)
    requires cs != []
    ensures NoOverflow(cfg, cs) ==>
              var last := |cs| - 1;
              var now, w := Current(After(cfg, zero, cs, last), cs[last]), After(cfg, zero, cs, |cs|);
              && (Admitted(cfg, zero, cs, last) <==> now.requests + 1 <= cfg.requests && now.bytes + cs[last].bytes <= cfg.bytes)
              && w == (if Admitted(cfg, zero, cs, last) then Window(now.start, now.requests + 1, now.bytes + cs[last].bytes) else now)
              && w.requests <= cfg.requests && w.bytes <= cfg.bytes
    ensures Monotone(zero, cs) && NoOverflow(cfg, cs) ==>
              forall from: nat :: RequestsIn(cfg, zero, cs, from, |cs|) <= 2 * cfg.requests && BytesIn(cfg, zero, cs, from, |cs|) <= 2 * cfg.bytes
  {
    if NoOverflow(cfg, cs) {
      WithinQuota(cfg, zero, cs, |cs| - 1);
      WithinQuota(cfg, zero, cs, |cs|);
      PlainCharge(cfg, After(cfg, zero, cs, |cs| - 1), cs[|cs| - 1]);
      if Monotone(zero, cs) {
        forall from: nat { AnySecondAtMostTwice(cfg, zero, cs, from); }
      }
    }
  }
}
