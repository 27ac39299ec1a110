/** Spend caps: a budget that refills at aligned window boundaries, or never. */
module SpendingLimit {
  import opened Bytes
  import opened Wrappers
  import opened Errors
  import opened Arith

  datatype SpendCap = SpendCap(cap: u64, remaining: u64, lastReset: i64, windowSeconds: i64)

  const NO_CAP := SpendCap(0, 0, 0, 0)

  predicate InI64(x: int) { -TWO_63 <= x < TWO_63 }

  /** Rust's `%`: the remainder takes the sign of the dividend. */
  function Rem(a: int, b: int): int
    requires b > 0
  {
    if a >= 0 then a % b else -((-a) % b)
  }

  function AlignToWindow(now: i64, windowSeconds: i64): Result<i64, PhygitalError> {
    if windowSeconds <= 0 then Ok(now)
    else
      var aligned := now - Rem(now, windowSeconds);
      if InI64(aligned) then Ok(aligned) else Err(InvalidPolicyArgs)
  }

  function NewSpendCap(cap: u64, windowSeconds: i64, now: i64): Result<SpendCap, PhygitalError> {
    if cap == 0 || windowSeconds < 0 then Err(InvalidPolicyArgs)
    else
      match AlignToWindow(now, windowSeconds)
      case Err(e) => Err(e)
      case Ok(start) => Ok(SpendCap(cap, cap, start, windowSeconds))
  }

  /** Saving the same cap and window again keeps what was already spent. */
  function PreserveSpendCap(next: SpendCap, previous: Option<SpendCap>): SpendCap {
    if previous.Some? && previous.value.cap == next.cap && previous.value.windowSeconds == next.windowSeconds then
      SpendCap(next.cap, previous.value.remaining, previous.value.lastReset, next.windowSeconds)
    else next
  }

  /** The window refill a charge performs first, with every overflow check. */
  function Refill(c: SpendCap, now: i64): Result<SpendCap, PhygitalError> {
    if c.windowSeconds <= 0 then Ok(c)
    else
      var elapsed := now - c.lastReset;
      if !InI64(elapsed) then Err(InvalidPolicyArgs)
      else if elapsed < c.windowSeconds then Ok(c)
      else
        var advance := elapsed / c.windowSeconds * c.windowSeconds;
        if !InI64(advance) || !InI64(c.lastReset + advance) then Err(InvalidPolicyArgs)
        else Ok(c.(lastReset := c.lastReset + advance, remaining := c.cap))
  }

  /** The outcome of a charge, and the slot it leaves behind even when it fails. */
  function ChargeCap(c: SpendCap, amount: u64, now: i64): (Result<(), PhygitalError>, SpendCap) {
    if amount == 0 then (Ok(()), c)
    else
      match Refill(c, now)
      case Err(e) => (Err(e), c)
      case Ok(r) =>
        if amount > r.remaining then (Err(SpendLimitExceeded), r)
        else (Ok(()), r.(remaining := r.remaining - amount))
  }

  /** The slot as the program holds it: four fields written one at a time. */
  class CapSlot {
    var cap: u64
    var remaining: u64
    var lastReset: i64
    var windowSeconds: i64

    function Value(): SpendCap
      reads this
    {
      SpendCap(cap, remaining, lastReset, windowSeconds)
    }

    constructor (c: SpendCap)
      ensures Value() == c
    {
      cap, remaining, lastReset, windowSeconds := c.cap, c.remaining, c.lastReset, c.windowSeconds;
    }

    method Charge(amount: u64, now: i64) returns (r: Result<(), PhygitalError>)
      modifies this
      ensures (r, Value()) == ChargeCap(old(Value()), amount, now)
    {
      if amount == 0 {
        return Ok(());
      }
      if windowSeconds > 0 {
        var elapsed := now - lastReset;
        if !InI64(elapsed) {
          return Err(InvalidPolicyArgs);
        }
        if elapsed >= windowSeconds {
          var periods := elapsed / windowSeconds;
          var advance := periods * windowSeconds;
          if !InI64(advance) || !InI64(lastReset + advance) {
            return Err(InvalidPolicyArgs);
          }
          lastReset := lastReset + advance;
          remaining := cap;
        }
      }
      if amount > remaining {
        return Err(SpendLimitExceeded);
      }
      remaining := remaining - amount;
      r := Ok(());
    }
  }

  /** A cap can be saved iff it is not nothing and its window not negative; it starts full. */
  lemma {:induction false} SavableCaps(cap: u64, windowSeconds: i64, now: i64)
    requires now >= 0
    ensures NewSpendCap(cap, windowSeconds, now).Ok? <==> cap > 0 && windowSeconds >= 0
    ensures NewSpendCap(cap, windowSeconds, now).Ok? ==>
              var c := NewSpendCap(cap, windowSeconds, now).value;
              && c.cap == c.remaining == cap && c.windowSeconds == windowSeconds
              && c.lastReset <= now
              && (if windowSeconds == 0 then c.lastReset == now
                  else now < c.lastReset + windowSeconds && c.lastReset % windowSeconds == 0)
  {
    if windowSeconds > 0 {
      var w := windowSeconds;
      assert now == w * (now / w) + now % w;
      DivMod(now - now % w, w, now / w, 0);
    }
  }

  // ---------------------------------------------------------------- runs

  datatype Payment = Payment(amount: u64, now: i64)

  /** A charge attempt, or the owner saving the same cap and window again. */
  datatype Event = Charge(amount: u64, now: i64) | Resave(now: i64)

  datatype Run = Run(slot: SpendCap, accepted: seq<Payment>)

  /** A failed charge fails its transaction, which undoes even the refill; charging 0 does nothing. */
  function Step(r: Run, e: Event): Run {
    match e
    case Charge(amount, now) =>
      var (outcome, slot) := ChargeCap(r.slot, amount, now);
      if outcome.Ok? && amount > 0 then Run(slot, r.accepted + [Payment(amount, now)]) else r
    case Resave(now) =>
      match NewSpendCap(r.slot.cap, r.slot.windowSeconds, now)
      case Err(_) => r
      case Ok(next) => r.(slot := PreserveSpendCap(next, Some(r.slot)))
  }

  function RunAll(start: SpendCap, events: seq<Event>): Run {
    if events == [] then Run(start, [])
    else Step(RunAll(start, events[..|events| - 1]), events[|events| - 1])
  }

  /** Clock readings are nonnegative and never go back. */
  ghost predicate Ordered(t0: i64, events: seq<Event>) {
    && (forall i :: 0 <= i < |events| ==> 0 <= t0 <= events[i].now)
    && (forall i, j :: 0 <= i < j < |events| ==> events[i].now <= events[j].now)
  }

  /** The aligned window an instant falls in; a lifetime cap has a single one. */
  function Window(now: int, windowSeconds: int): int
    requires windowSeconds >= 0
  {
    if windowSeconds == 0 then 0 else now / windowSeconds
  }

  function SpentIn(payments: seq<Payment>, windowSeconds: i64, window: int): nat
    requires windowSeconds >= 0
  {
    if payments == [] then 0
    else
      var p := payments[|payments| - 1];
      SpentIn(payments[..|payments| - 1], windowSeconds, window)
      + if Window(p.now, windowSeconds) == window then p.amount else 0
  }

  /** What every reachable slot satisfies, `latest` being the last clock reading. */
  ghost predicate Tracks(r: Run, cap: u64, windowSeconds: i64, latest: i64)
    requires windowSeconds >= 0
  {
    var w := Window(r.slot.lastReset, windowSeconds);
    && r.slot.cap == cap && r.slot.windowSeconds == windowSeconds
    && 0 <= r.slot.lastReset <= latest
    && (windowSeconds > 0 ==> r.slot.lastReset == w * windowSeconds)
    && r.slot.remaining + SpentIn(r.accepted, windowSeconds, w) == cap
    && (forall i :: 0 <= i < |r.accepted| ==> Window(r.accepted[i].now, windowSeconds) <= w)
    && (forall k :: SpentIn(r.accepted, windowSeconds, k) <= cap)
  }

  lemma {:induction false} SpentInFuture(payments: seq<Payment>, windowSeconds: i64, window: int)
    requires windowSeconds >= 0
    requires forall i :: 0 <= i < |payments| ==> Window(payments[i].now, windowSeconds) < window
    ensures SpentIn(payments, windowSeconds, window) == 0
  {
    if payments != [] {
      SpentInFuture(payments[..|payments| - 1], windowSeconds, window);
    }
  }

  lemma {:induction false} AlignedDown(lastReset: int, now: int, w: int)
    requires w > 0 && 0 <= lastReset <= now && lastReset == lastReset / w * w
    ensures lastReset + (now - lastReset) / w * w == now / w * w
    ensures now - lastReset < w <==> now / w == lastReset / w
    ensures 0 <= (now - lastReset) / w * w <= now - lastReset
  {
    var k := lastReset / w;
    var d := now - lastReset;
    assert now == w * k + d;
    assert now / w == k + d / w by { DivShift(k, d, w); }
    assert (k + d / w) * w == k * w + d / w * w;
  }

  /** After the refill the slot stands at the window of `now`, holding what that window has left. */
  lemma {:induction false} RefillTracks(r: Run, cap: u64, windowSeconds: i64, latest: i64, now: i64)
    requires windowSeconds >= 0 && latest <= now && Tracks(r, cap, windowSeconds, latest)
    ensures var f := Refill(r.slot, now);
            && f.Ok?
            && f.value.cap == cap && f.value.windowSeconds == windowSeconds
            && 0 <= f.value.lastReset <= now
            && Window(f.value.lastReset, windowSeconds) == Window(now, windowSeconds)
            && (windowSeconds > 0 ==> f.value.lastReset == Window(now, windowSeconds) * windowSeconds)
            && f.value.remaining + SpentIn(r.accepted, windowSeconds, Window(now, windowSeconds)) == cap
            && Window(r.slot.lastReset, windowSeconds) <= Window(now, windowSeconds)
  {
    if windowSeconds > 0 {
      var w := windowSeconds;
      AlignedDown(r.slot.lastReset, now, w);
      if now - r.slot.lastReset >= w {
        DivMod(now / w * w, w, now / w, 0);
        assert r.slot.lastReset / w < now / w by {
          DivShift(r.slot.lastReset / w, now - r.slot.lastReset, w);
          QuotientAtLeastOne(now - r.slot.lastReset, w);
        }
        SpentInFuture(r.accepted, w, now / w);
      }
    }
  }

  lemma {:induction false} QuotientAtLeastOne(d: int, w: int)
    requires d >= w > 0
    ensures d / w >= 1
  {
  }

  /** A positive charge succeeds exactly when its window still has room for it, and never overflows. */
  lemma {:induction false} ChargeIsExact(r: Run, cap: u64, windowSeconds: i64, latest: i64, amount: u64, now: i64)
    requires windowSeconds >= 0 && latest <= now && amount > 0 && Tracks(r, cap, windowSeconds, latest)
    ensures var outcome := ChargeCap(r.slot, amount, now).0;
            && (outcome.Ok? <==> SpentIn(r.accepted, windowSeconds, Window(now, windowSeconds)) + amount <= cap)
            && (outcome.Err? ==> outcome.error == SpendLimitExceeded)
  {
    RefillTracks(r, cap, windowSeconds, latest, now);
  }

  lemma {:induction false} SpentAppend(payments: seq<Payment>, p: Payment, windowSeconds: i64, k: int)
    requires windowSeconds >= 0
    ensures SpentIn(payments + [p], windowSeconds, k)
         == SpentIn(payments, windowSeconds, k) + if Window(p.now, windowSeconds) == k then p.amount else 0
  {
    assert (payments + [p])[..|payments|] == payments;
  }

  lemma {:induction false} ChargeTracks(r: Run, cap: u64, windowSeconds: i64, latest: i64, amount: u64, now: i64)
    requires windowSeconds >= 0 && 0 <= latest <= now && Tracks(r, cap, windowSeconds, latest)
    ensures Tracks(Step(r, Charge(amount, now)), cap, windowSeconds, now)
  {
    if amount > 0 && ChargeCap(r.slot, amount, now).0.Ok? {
      RefillTracks(r, cap, windowSeconds, latest, now);
      var s := Step(r, Charge(amount, now));
      var here := Window(now, windowSeconds);
      assert Window(s.slot.lastReset, windowSeconds) == here;
      forall k
        ensures SpentIn(s.accepted, windowSeconds, k)
             == SpentIn(r.accepted, windowSeconds, k) + if here == k then amount else 0
      {
        SpentAppend(r.accepted, Payment(amount, now), windowSeconds, k);
      }
    }
  }

  lemma {:induction false} ResaveIsSilent(r: Run, cap: u64, windowSeconds: i64, latest: i64, now: i64)
    requires cap > 0 && windowSeconds >= 0 && 0 <= latest <= now && Tracks(r, cap, windowSeconds, latest)
    ensures Step(r, Resave(now)) == r
  {
  }

  lemma {:induction false} StepTracks(r: Run, cap: u64, windowSeconds: i64, latest: i64, e: Event)
    requires cap > 0 && windowSeconds >= 0 && 0 <= latest <= e.now && Tracks(r, cap, windowSeconds, latest)
    ensures Tracks(Step(r, e), cap, windowSeconds, e.now)
  {
    match e
    case Resave(now) => ResaveIsSilent(r, cap, windowSeconds, latest, now);
    case Charge(amount, now) => ChargeTracks(r, cap, windowSeconds, latest, amount, now);
  }

  /** Every run from a freshly saved cap stays exact. */
  lemma {:induction false} RunTracks(cap: u64, windowSeconds: i64, t0: i64, events: seq<Event>)
    requires NewSpendCap(cap, windowSeconds, t0).Ok? && t0 >= 0 && Ordered(t0, events)
    ensures var latest := if events == [] then t0 else events[|events| - 1].now;
            Tracks(RunAll(NewSpendCap(cap, windowSeconds, t0).value, events), cap, windowSeconds, latest)
  {
    var start := NewSpendCap(cap, windowSeconds, t0).value;
    if events == [] {
      if windowSeconds > 0 {
        var w := windowSeconds;
        assert t0 - t0 % w == w * (t0 / w);
        DivMod(t0 / w * w, w, t0 / w, 0);
      }
    } else {
      var before := events[..|events| - 1];
      RunTracks(cap, windowSeconds, t0, before);
      var latest := if before == [] then t0 else before[|before| - 1].now;
      StepTracks(RunAll(start, before), cap, windowSeconds, latest, events[|events| - 1]);
    }
  }

  // ---------------------------------------------------------------- what a cap guarantees

  ghost function Saved(cap: u64, windowSeconds: i64, t0: i64): SpendCap
    requires NewSpendCap(cap, windowSeconds, t0).Ok?
  {
    NewSpendCap(cap, windowSeconds, t0).value
  }

  /** In every run, the next positive charge succeeds iff its window has room; no overflow error exists. */
  lemma {:induction false} NextChargeIsExact(cap: u64, windowSeconds: i64, t0: i64, events: seq<Event>,
                                             amount: u64, now: i64)
    requires NewSpendCap(cap, windowSeconds, t0).Ok? && t0 >= 0 && amount > 0
    requires Ordered(t0, events + [Charge(amount, now)])
    ensures var r := RunAll(Saved(cap, windowSeconds, t0), events);
            var outcome := ChargeCap(r.slot, amount, now).0;
            && (outcome.Ok? <==> SpentIn(r.accepted, windowSeconds, Window(now, windowSeconds)) + amount <= cap)
            && (outcome.Err? ==> outcome.error == SpendLimitExceeded)
  {
    var all := events + [Charge(amount, now)];
    assert forall i :: 0 <= i < |events| ==> events[i] == all[i];
    assert all[|events|] == Charge(amount, now);
    RunTracks(cap, windowSeconds, t0, events);
    var latest := if events == [] then t0 else events[|events| - 1].now;
    ChargeIsExact(RunAll(Saved(cap, windowSeconds, t0), events), cap, windowSeconds, latest, amount, now);
  }

  /** No aligned window ever spends more than the cap; with no window, nor does the whole run. */
  lemma {:induction false} EveryWindowWithinCap(cap: u64, windowSeconds: i64, t0: i64, events: seq<Event>, window: int)
    requires NewSpendCap(cap, windowSeconds, t0).Ok? && t0 >= 0 && Ordered(t0, events)
    ensures SpentIn(RunAll(Saved(cap, windowSeconds, t0), events).accepted, windowSeconds, window) <= cap
  {
    RunTracks(cap, windowSeconds, t0, events);
  }

  function SpentBetween(payments: seq<Payment>, from: int, to: int): nat {
    if payments == [] then 0
    else
      var p := payments[|payments| - 1];
      SpentBetween(payments[..|payments| - 1], from, to) + if from <= p.now < to then p.amount else 0
  }

  lemma {:induction false} TwoWindows(now: int, from: int, w: int)
    requires w > 0 && from <= now < from + w
    ensures now / w == from / w || now / w == from / w + 1
  {
    var k := from / w;
    var d := now - w * k;
    assert 0 <= d < 2 * w;
    if d < w {
      DivMod(now, w, k, d);
    } else {
      assert w * (k + 1) + (d - w) == now;
      DivMod(now, w, k + 1, d - w);
    }
  }

  lemma {:induction false} BetweenIsTwoWindows(payments: seq<Payment>, w: i64, from: int)
    requires w > 0
    ensures SpentBetween(payments, from, from + w)
         <= SpentIn(payments, w, from / w) + SpentIn(payments, w, from / w + 1)
  {
    if payments != [] {
      BetweenIsTwoWindows(payments[..|payments| - 1], w, from);
      var p := payments[|payments| - 1];
      if from <= p.now < from + w {
        TwoWindows(p.now, from, w);
      }
    }
  }

  /** Any stretch one window long, aligned or not, spends at most twice the cap. */
  lemma {:induction false} AnyStretchWithinTwiceCap(cap: u64, windowSeconds: i64, t0: i64, events: seq<Event>, from: int)
    requires windowSeconds > 0 && NewSpendCap(cap, windowSeconds, t0).Ok? && t0 >= 0 && Ordered(t0, events)
    ensures SpentBetween(RunAll(Saved(cap, windowSeconds, t0), events).accepted, from, from + windowSeconds) <= 2 * cap
  {
    var accepted := RunAll(Saved(cap, windowSeconds, t0), events).accepted;
    EveryWindowWithinCap(cap, windowSeconds, t0, events, from / windowSeconds);
    EveryWindowWithinCap(cap, windowSeconds, t0, events, from / windowSeconds + 1);
    BetweenIsTwoWindows(accepted, windowSeconds, from);
  }

  /**
   * With windows of two seconds or more the bound is reached, whatever the cap: a charge in the last
   * second of one window and one in the first of the next.
   */
  lemma {:induction false} TwiceCapIsReached(cap: u64, windowSeconds: i64)
    requires cap > 0 && windowSeconds >= 2
    ensures NewSpendCap(cap, windowSeconds, 0).Ok?
    ensures var w := windowSeconds;
            var events := [Charge(cap, w - 1), Charge(cap, w)];
            && Ordered(0, events)
            && SpentBetween(RunAll(Saved(cap, w, 0), events).accepted, w - 1, 2 * w - 1) == 2 * cap
  {
    var w := windowSeconds;
    var start := Saved(cap, w, 0);
    var p1, p2 := Payment(cap, w - 1), Payment(cap, w);
    var e1, e2 := Charge(cap, w - 1), Charge(cap, w);
    assert [e1, e2][..1] == [e1] && [e1][..0] == [];
    assert RunAll(start, []) == Run(start, []);
    var r1 := RunAll(start, [e1]);
    assert r1 == Step(Run(start, []), e1);
    assert r1 == Run(start.(remaining := 0), [p1]);
    DivMod(w, w, 1, 0);
    var r := RunAll(start, [e1, e2]);
    assert r == Step(r1, e2);
    assert [p1] + [p2] == [p1, p2];
    assert [p1, p2][..1] == [p1] && [p1][..0] == [];
    var end: int := (w as int) * 2 - 1;
    assert SpentBetween([p1], w - 1, end) == cap;
  }

  /** With windows of one second it is not: there every stretch is a window of its own. */
  lemma {:induction false} OneSecondStretchWithinCap(cap: u64, t0: i64, events: seq<Event>, from: int)
    requires NewSpendCap(cap, 1, t0).Ok? && t0 >= 0 && Ordered(t0, events)
    ensures SpentBetween(RunAll(Saved(cap, 1, t0), events).accepted, from, from + 1) <= cap
  {
    BetweenIsOneWindow(RunAll(Saved(cap, 1, t0), events).accepted, from);
    EveryWindowWithinCap(cap, 1, t0, events, from);
  }

  lemma {:induction false} BetweenIsOneWindow(payments: seq<Payment>, from: int)
    ensures SpentBetween(payments, from, from + 1) == SpentIn(payments, 1, from)
  {
    if payments != [] {
      BetweenIsOneWindow(payments[..|payments| - 1], from);
    }
  }
}
