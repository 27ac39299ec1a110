/** Whole runs of the fee ledger: how many reserves are open, and what the balance adds up to. */
module FeeRuns {
  import opened Wrappers
  import opened MapSum
  import opened FeeStore

  /** One store call at a clock reading. A fee event is delivered by `applyFeeEvents`. */
  datatype Op =
    | OpReserve(id: string, lamports: int, ttl: int, now: int)
    | OpRebind(fromId: string, toId: string, now: int)
    | OpEvent(e: FeeEvent, now: int)
    | OpRelease(id: string, now: int)
    | OpExpire(now: int)
    | OpGrant(now: int)

  ghost function Perform(t: Tables, op: Op): Tables {
    match op
    case OpReserve(id, lamports, ttl, now) => Reserve(t, id, lamports, ttl, now).1
    case OpRebind(fromId, toId, now) => Rebind(t, fromId, toId, now).1
    case OpEvent(e, now) => Settle(t, e, now).1
    case OpRelease(id, _) => Release(t, id)
    case OpExpire(now) => Expire(t, now)
    case OpGrant(_) => GrantStarter(t).1
  }

  ghost function RunAll(t: Tables, ops: seq<Op>): Tables {
    if ops == [] then t else Perform(RunAll(t, ops[..|ops| - 1]), ops[|ops| - 1])
  }

  ghost predicate Ordered(ops: seq<Op>) {
    forall i, j :: 0 <= i < j < |ops| ==> ops[i].now <= ops[j].now
  }

  // ---------------------------------------------------------------- reserves

  lemma {:induction false} TimeShrinks(m: Reserves, earlier: int, later: int)
    requires earlier <= later
    ensures OpenCount(m, later) <= OpenCount(m, earlier) && OpenTotal(m, later) <= OpenTotal(m, earlier)
  {
    SubsetShrinks(Open(m, later), Open(m, earlier));
  }

  lemma {:induction false} InsertGrows(m: Reserves, id: string, r: Row, now: int)
    requires id !in Open(m, now)
    ensures OpenCount((m - {id})[id := r], now) == OpenCount(m, now) + (if r.expiresAt > now then 1 else 0)
    ensures OpenTotal((m - {id})[id := r], now) == OpenTotal(m, now) + (if r.expiresAt > now then r.lamports else 0)
  {
    var open := Open(m, now);
    OpenUpdate(m, id, r, now);
    assert open - {id} == open;
    if r.expiresAt > now {
      TotalAt(open[id := r], id);
      CountAt(open[id := r], id);
      assert open[id := r] - {id} == open;
    }
  }

  /** A rebind moves an open reserve; if the target row exists already, the moved one is dropped. */
  lemma {:induction false} RebindEffect(t: Tables, fromId: string, toId: string, now: int)
    requires fromId != "" && toId != "" && fromId != toId && fromId in Open(t.reserves, now)
    ensures var after := Rebind(t, fromId, toId, now).1.reserves;
            var kept := toId !in t.reserves;
            && OpenCount(after, now) == OpenCount(t.reserves, now) - (if kept then 0 else 1)
            && OpenTotal(after, now) == OpenTotal(t.reserves, now) - (if kept then 0 else t.reserves[fromId].lamports)
  {
    var open := Open(t.reserves, now);
    TotalAt(open, fromId);
    CountAt(open, fromId);
    var removed := t.reserves - {fromId};
    OpenUpdate(t.reserves, fromId, t.reserves[fromId], now);
    if toId !in t.reserves {
      assert removed - {toId} == removed;
      InsertGrows(removed, toId, t.reserves[fromId], now);
    }
  }

  lemma {:induction false} ReserveKeepsCap(t: Tables, id: string, lamports: int, ttl: int, now: int)
    requires OpenCount(t.reserves, now) <= MAX_CONCURRENT_FEE_RESERVES
    ensures OpenCount(Reserve(t, id, lamports, ttl, now).1.reserves, now) <= MAX_CONCURRENT_FEE_RESERVES
  {
    hide OpenTotal;
    if ReserveInserts(t, id, lamports, now) {
      InsertGrows(t.reserves, id, Row(lamports, now, now + ttl), now);
    } else {
      OpenUpdate(t.reserves, id, Row(0, 0, 0), now);
      RemoveShrinks(Open(t.reserves, now), id);
    }
  }

  /** Only a reserve call can raise the number of open reserves, and only below the cap. */
  lemma {:induction false} PerformKeepsCap(t: Tables, op: Op)
    requires OpenCount(t.reserves, op.now) <= MAX_CONCURRENT_FEE_RESERVES
    ensures OpenCount(Perform(t, op).reserves, op.now) <= MAX_CONCURRENT_FEE_RESERVES
  {
    hide Reserve, OpenTotal;
    match op
    case OpReserve(id, lamports, ttl, now) =>
      ReserveKeepsCap(t, id, lamports, ttl, now);
    case OpRebind(fromId, toId, now) =>
      if Rebind(t, fromId, toId, now).0 {
        RebindEffect(t, fromId, toId, now);
      }
    case OpEvent(e, now) =>
      SubsetShrinks(Open(Perform(t, op).reserves, now), Open(t.reserves, now));
    case _ =>
      SubsetShrinks(Open(Perform(t, op).reserves, op.now), Open(t.reserves, op.now));
  }

  /** In every run, under any interleaving, at most four reserves are open from the last step on. */
  lemma {:induction false} AtMostFourOpen(t: Tables, ops: seq<Op>, start: int, now: int)
    requires Ordered(ops) && OpenCount(t.reserves, start) <= 4
    requires ops != [] ==> start <= ops[0].now && ops[|ops| - 1].now <= now
    requires ops == [] ==> start <= now
    ensures OpenCount(RunAll(t, ops).reserves, now) <= 4
    decreases |ops|
  {
    hide Perform, Open;
    if ops == [] {
      TimeShrinks(t.reserves, start, now);
    } else {
      var n := |ops| - 1;
      AtMostFourOpen(t, ops[..n], start, ops[n].now);
      PerformKeepsCap(RunAll(t, ops[..n]), ops[n]);
      TimeShrinks(RunAll(t, ops).reserves, ops[n].now, now);
    }
  }

  /** A reserve call succeeds iff the id is open already or a new row fits; a new row is covered. */
  lemma {:induction false} FreshReserveIsCovered(t: Tables, id: string, lamports: int, ttl: int, now: int)
    ensures var (ok, after) := Reserve(t, id, lamports, ttl, now);
            && (ok <==> && lamports > 0 && id != ""
                        && (id in Open(t.reserves, now)
                            || (OpenCount(t.reserves, now) < 4 && OpenTotal(t.reserves, now) + lamports <= BalanceOf(t))))
            && (ok && id !in Open(t.reserves, now) <==> ReserveInserts(t, id, lamports, now))
            && (ReserveInserts(t, id, lamports, now) ==>
                  && OpenTotal(after.reserves, now) <= BalanceOf(after)
                  && (ttl > 0 ==> OpenTotal(after.reserves, now) == OpenTotal(t.reserves, now) + lamports))
            && (!ReserveInserts(t, id, lamports, now) ==> Open(after.reserves, now) == Open(t.reserves, now))
  {
    if ReserveInserts(t, id, lamports, now) {
      InsertGrows(t.reserves, id, Row(lamports, now, now + ttl), now);
    }
  }

  // ---------------------------------------------------------------- the balance

  /** Everything but the reserves. */
  ghost predicate SameLedger(a: Tables, b: Tables) {
    a.token == b.token && a.starterGranted == b.starterGranted && a.balance == b.balance && a.events == b.events
  }

  /** Reserving, rebinding, releasing and expiring touch the reserves alone. */
  lemma {:induction false} OnlyReserves(t: Tables, op: Op)
    requires !op.OpEvent? && !op.OpGrant?
    ensures SameLedger(Perform(t, op), t)
  {
    hide Open, OpenTotal, ReserveInserts;
  }

  /** Delivering an event does to the ledger what applying it does, whatever rows it drops first. */
  lemma {:induction false} SettleApplies(t: Tables, e: FeeEvent, now: int)
    ensures Settle(t, e, now).0 == Apply(t, e).0
    ensures SameLedger(Settle(t, e, now).1, Apply(t, e).1)
  {
    hide Open;
  }

  /** The event is the debit of transaction `id`: the signature itself, or with the suffix a debit may carry. */
  ghost predicate Debits(e: FeeEvent, id: string) {
    e.kind.Debit? &&
    (e.signature == id + ":debit" || (e.signature == id && (|id| < 6 || id[|id| - 6..] != ":debit")))
  }

  /** A debit frees the reserve of its own transaction and no other, even when it comes a second time. */
  lemma {:induction false} SettleFreesItsReserve(t: Tables, e: FeeEvent, id: string, now: int)
    requires Debits(e, id)
    ensures var after := Settle(t, e, now).1.reserves;
            && after == Open(t.reserves, now) - {id}
            && Open(after, now) == Open(t.reserves, now) - {id}
            && OpenCount(after, now) == OpenCount(t.reserves, now) - (if id in Open(t.reserves, now) then 1 else 0)
            && OpenTotal(after, now)
               == OpenTotal(t.reserves, now) - (if id in Open(t.reserves, now) then t.reserves[id].lamports else 0)
  {
    hide Apply, StripDebit, OpenCount, OpenTotal;
    StripsTheSuffix(e, id);
    ApplyKeepsReserves(Release(Expire(t, now), id), e);
    var after := Settle(t, e, now).1.reserves;
    assert after == Open(t.reserves, now) - {id};
    assert Open(after, now) == Open(t.reserves, now) - {id};
    FreedCount(t.reserves, after, id, now);
    FreedTotal(t.reserves, after, id, now);
  }

  lemma {:induction false} StripsTheSuffix(e: FeeEvent, id: string)
    requires Debits(e, id)
    ensures StripDebit(e.signature) == id
  {
    assert (id + ":debit")[|id|..] == ":debit" && (id + ":debit")[..|id|] == id;
  }

  lemma {:induction false} FreedCount(m: Reserves, after: Reserves, id: string, now: int)
    requires Open(after, now) == Open(m, now) - {id}
    ensures OpenCount(after, now) == OpenCount(m, now) - (if id in Open(m, now) then 1 else 0)
  {
    if id in Open(m, now) {
      CountAt(Open(m, now), id);
    } else {
      assert Open(m, now) - {id} == Open(m, now);
    }
  }

  lemma {:induction false} FreedTotal(m: Reserves, after: Reserves, id: string, now: int)
    requires Open(after, now) == Open(m, now) - {id}
    ensures OpenTotal(after, now) == OpenTotal(m, now) - (if id in Open(m, now) then m[id].lamports else 0)
  {
    if id in Open(m, now) {
      TotalAt(Open(m, now), id);
    } else {
      assert Open(m, now) - {id} == Open(m, now);
    }
  }

  lemma {:induction false} ApplyKeepsReserves(t: Tables, e: FeeEvent)
    ensures Apply(t, e).1.reserves == t.reserves
  {
  }

  /** A credit leaves the reserves alone. */
  lemma {:induction false} CreditKeepsReserves(t: Tables, e: FeeEvent, now: int)
    requires e.kind.Credit?
    ensures Settle(t, e, now).1.reserves == t.reserves
  {
  }

  /** Expiring drops what is not open and nothing else; so what is open at any later time stays. */
  lemma {:induction false} ExpireDropsTheExpired(t: Tables, now: int, later: int, id: string)
    requires now <= later
    ensures var after := Expire(t, now).reserves;
            && (id in after <==> id in t.reserves && now < t.reserves[id].expiresAt)
            && Open(after, later) == Open(t.reserves, later)
  {
  }

  // ---------------------------------------------------------------- the starter balance and the token

  predicate NoGrant(ops: seq<Op>) {
    forall i :: 0 <= i < |ops| ==> !ops[i].OpGrant?
  }

  lemma {:induction false} MetaStep(t: Tables, op: Op)
    ensures Perform(t, op).token == t.token
    ensures !op.OpGrant? || t.starterGranted == Some(true) ==> Perform(t, op).starterGranted == t.starterGranted
  {
    hide Open, ReserveInserts, StripDebit;
  }

  lemma {:induction false} FlagUntilGrant(t: Tables, ops: seq<Op>)
    requires Created(t) && NoGrant(ops)
    ensures RunAll(t, ops).starterGranted == Some(false)
  {
    hide Perform;
    if ops != [] {
      FlagUntilGrant(t, ops[..|ops| - 1]);
      MetaStep(RunAll(t, ops[..|ops| - 1]), ops[|ops| - 1]);
    }
  }

  /**
   * The first request for the starter decides: it brings the whole starter to a ledger without a
   * balance and nothing to any other. Every later one changes nothing.
   */
  lemma {:induction false} FirstGrantDecides(t: Tables, before: seq<Op>, grant: Op, between: seq<Op>, again: Op)
    requires Created(t) && NoGrant(before) && grant.OpGrant? && again.OpGrant?
    ensures var was, now := RunAll(t, before), RunAll(t, before + [grant]);
            && BalanceOf(was) >= 0
            && BalanceOf(now) == (if BalanceOf(was) == 0 then 1_000_000 else BalanceOf(was))
            && now.events == was.events && now.reserves == was.reserves
    ensures var later := before + [grant] + between;
            RunAll(t, later + [again]) == RunAll(t, later)
  {
    hide Recorded;
    assert (before + [grant])[..|before|] == before;
    FlagUntilGrant(t, before);
    BalanceAddsUp(t, before);
    var later := before + [grant] + between;
    assert (later + [again])[..|later|] == later;
    FlagStays(t, before + [grant], between);
  }

  lemma {:induction false} FlagStays(t: Tables, ops: seq<Op>, more: seq<Op>)
    requires RunAll(t, ops).starterGranted == Some(true)
    ensures RunAll(t, ops + more).starterGranted == Some(true)
  {
    hide Perform;
    if more == [] {
      assert ops + more == ops;
    } else {
      var init := more[..|more| - 1];
      FlagStays(t, ops, init);
      assert (ops + more)[..|ops + more| - 1] == ops + init;
      MetaStep(RunAll(t, ops + init), more[|more| - 1]);
    }
  }

  /** A ledger belongs to the first token that names it: no other is let in, and that one always is. */
  lemma {:induction false} OneTokenPerLedger(t: Tables, token: string, ops: seq<Op>, other: string)
    requires EnsureToken(t, token).Some?
    ensures var bound := EnsureToken(t, token).value;
            && (t.token.None? ==> BalanceOf(bound) == 0 && bound.starterGranted == Some(false)
                                  && bound.events == t.events && bound.reserves == t.reserves)
            && (t.token.Some? ==> bound == t)
            && EnsureToken(RunAll(bound, ops), other) == if other == token then Some(RunAll(bound, ops)) else None
  {
    TokenStays(EnsureToken(t, token).value, ops);
  }

  lemma {:induction false} TokenStays(t: Tables, ops: seq<Op>)
    ensures RunAll(t, ops).token == t.token
  {
    hide Perform;
    if ops != [] {
      TokenStays(t, ops[..|ops| - 1]);
      MetaStep(RunAll(t, ops[..|ops| - 1]), ops[|ops| - 1]);
    }
  }

  // ---------------------------------------------------------------- the balance

  function Amount(e: FeeEvent): nat {
    if e.lamports > 0 then e.lamports else 0
  }

  /** The recorded events of one kind, by signature. */
  function Recorded(events: map<string, FeeEvent>, kind: Kind): map<string, nat> {
    map s | s in events && events[s].kind == kind :: Amount(events[s])
  }

  /** Beside the tables: what the starter granted, and what debits asked for beyond the balance. */
  datatype Books = Books(tables: Tables, granted: nat, clamped: nat)

  ghost function Keep(b: Books, op: Op): Books {
    var after := Perform(b.tables, op);
    match op
    case OpGrant(_) =>
      Books(after, b.granted + (if GrantStarter(b.tables).0 then STARTER_FEE_BALANCE_LAMPORTS else 0), b.clamped)
    case OpEvent(e, now) =>
      var short := Amount(e) - BalanceOf(b.tables);
      var lost := if Settle(b.tables, e, now).0 && e.kind.Debit? && short > 0 then short else 0;
      Books(after, b.granted, b.clamped + lost)
    case _ => Books(after, b.granted, b.clamped)
  }

  ghost function KeepAll(t: Tables, ops: seq<Op>): Books {
    if ops == [] then Books(t, 0, 0) else Keep(KeepAll(t, ops[..|ops| - 1]), ops[|ops| - 1])
  }

  ghost predicate Balanced(b: Books) {
    var t := b.tables;
    && (forall s :: s in t.events ==> t.events[s].lamports > 0 && t.events[s].signature == s)
    && BalanceOf(t) == b.granted + Total(Recorded(t.events, Credit)) - Total(Recorded(t.events, Debit)) + b.clamped
    && BalanceOf(t) >= 0
    && (b.granted == 0 || (b.granted == STARTER_FEE_BALANCE_LAMPORTS && t.starterGranted == Some(true)))
  }

  lemma {:induction false} RecordAdds(events: map<string, FeeEvent>, e: FeeEvent, kind: Kind)
    requires e.signature !in events
    ensures Total(Recorded(events[e.signature := e], kind))
         == Total(Recorded(events, kind)) + (if e.kind == kind then Amount(e) else 0)
  {
    var after := Recorded(events[e.signature := e], kind);
    if e.kind == kind {
      TotalRemove(after, e.signature);
      assert after - {e.signature} == Recorded(events, kind);
    } else {
      assert after == Recorded(events, kind);
    }
  }

  lemma {:induction false} ApplyBalances(b: Books, e: FeeEvent)
    requires Balanced(b)
    ensures var (applied, after) := Apply(b.tables, e);
            var short := Amount(e) - BalanceOf(b.tables);
            Balanced(Books(after, b.granted, b.clamped + (if applied && e.kind.Debit? && short > 0 then short else 0)))
  {
    if e.signature !in b.tables.events {
      RecordAdds(b.tables.events, e, Credit);
      RecordAdds(b.tables.events, e, Debit);
    }
  }

  lemma {:induction false} BalancedByLedger(b: Books, t: Tables)
    requires Balanced(b) && SameLedger(t, b.tables)
    ensures Balanced(b.(tables := t))
  {
    hide Recorded;
  }

  lemma {:induction false} KeepBalances(b: Books, op: Op)
    requires Balanced(b)
    ensures Balanced(Keep(b, op))
  {
    hide Balanced, Settle, Apply;
    match op
    case OpEvent(e, now) =>
      ApplyBalances(b, e);
      SettleApplies(b.tables, e, now);
      var short := Amount(e) - BalanceOf(b.tables);
      var lost := if Apply(b.tables, e).0 && e.kind.Debit? && short > 0 then short else 0;
      BalancedByLedger(Books(Apply(b.tables, e).1, b.granted, b.clamped + lost), Settle(b.tables, e, now).1);
    case OpGrant(_) =>
      GrantBalances(b);
    case _ =>
      OnlyReserves(b.tables, op);
      BalancedByLedger(b, Perform(b.tables, op));
  }

  lemma {:induction false} GrantBalances(b: Books)
    requires Balanced(b)
    ensures var (granted, after) := GrantStarter(b.tables);
            Balanced(Books(after, b.granted + (if granted then STARTER_FEE_BALANCE_LAMPORTS else 0), b.clamped))
  {
    hide Recorded;
  }

  /** A ledger as `ensureToken` first creates it. */
  ghost predicate Created(t: Tables) {
    t.balance == Some(0) && t.starterGranted == Some(false) && t.events == map[] && t.reserves == map[]
  }

  /**
   * In every run: balance = starter + distinct credits - distinct debits + what was clamped at zero;
   * never negative; the starter granted at most once.
   */
  lemma {:induction false} BalanceAddsUp(t: Tables, ops: seq<Op>)
    requires Created(t)
    ensures Balanced(KeepAll(t, ops)) && KeepAll(t, ops).tables == RunAll(t, ops)
  {
    hide Keep, Perform;
    if ops == [] {
      assert Recorded(map[], Credit) == map[] && Recorded(map[], Debit) == map[];
    } else {
      BalanceAddsUp(t, ops[..|ops| - 1]);
      KeepBalances(KeepAll(t, ops[..|ops| - 1]), ops[|ops| - 1]);
      KeepPerforms(KeepAll(t, ops[..|ops| - 1]), ops[|ops| - 1]);
    }
  }

  lemma {:induction false} KeepPerforms(b: Books, op: Op)
    ensures Keep(b, op).tables == Perform(b.tables, op)
  {
  }

  // ---------------------------------------------------------------- repeated deliveries

  /** Does an earlier delivery already carry this event's signature? */
  ghost predicate IsRepeat(earlier: seq<Op>, op: Op) {
    op.OpEvent? && op.e.lamports > 0 &&
    exists i :: 0 <= i < |earlier| && earlier[i].OpEvent? && earlier[i].e.lamports > 0
                && earlier[i].e.signature == op.e.signature
  }

  ghost function FirstOnly(ops: seq<Op>): seq<Op> {
    if ops == [] then []
    else
      var n := |ops| - 1;
      if IsRepeat(ops[..n], ops[n]) then FirstOnly(ops[..n]) else FirstOnly(ops[..n]) + [ops[n]]
  }

  lemma {:induction false} PerformSameLedger(a: Tables, b: Tables, op: Op)
    requires SameLedger(a, b)
    ensures SameLedger(Perform(a, op), Perform(b, op))
  {
    hide Settle, Open;
    match op
    case OpEvent(e, now) =>
      SettleApplies(a, e, now);
      SettleApplies(b, e, now);
    case OpGrant(_) =>
    case _ =>
      OnlyReserves(a, op);
      OnlyReserves(b, op);
  }

  lemma {:induction false} EventsAreDelivered(t: Tables, ops: seq<Op>, s: string)
    requires t.events == map[]
    ensures s in RunAll(t, ops).events
       <==> exists i :: 0 <= i < |ops| && ops[i].OpEvent? && ops[i].e.lamports > 0 && ops[i].e.signature == s
  {
    if ops != [] {
      var n := |ops| - 1;
      EventsAreDelivered(t, ops[..n], s);
      assert forall i :: 0 <= i < n ==> ops[..n][i] == ops[i];
      EventsAfter(RunAll(t, ops[..n]), ops[n], s);
    }
  }

  lemma {:induction false} EventsAfter(t: Tables, op: Op, s: string)
    ensures s in Perform(t, op).events
       <==> s in t.events || (op.OpEvent? && op.e.lamports > 0 && op.e.signature == s)
  {
    hide Settle, Open;
    match op
    case OpEvent(e, now) => SettleApplies(t, e, now);
    case OpGrant(_) =>
    case _ => OnlyReserves(t, op);
  }

  lemma {:induction false} RepeatChangesNothing(t: Tables, op: Op)
    requires op.OpEvent? && op.e.signature in t.events
    ensures SameLedger(Perform(t, op), t)
  {
    hide Settle, Open;
    SettleApplies(t, op.e, op.now);
  }

  /** Any delivery with repeats leaves the ledger its first occurrences alone would have left. */
  lemma {:induction false} RepeatsDoNotCount(t: Tables, ops: seq<Op>)
    requires t.events == map[]
    ensures SameLedger(RunAll(t, ops), RunAll(t, FirstOnly(ops)))
  {
    hide Perform;
    if ops != [] {
      var n := |ops| - 1;
      RepeatsDoNotCount(t, ops[..n]);
      if IsRepeat(ops[..n], ops[n]) {
        EventsAreDelivered(t, ops[..n], ops[n].e.signature);
        RepeatChangesNothing(RunAll(t, ops[..n]), ops[n]);
      } else {
        var first := FirstOnly(ops[..n]);
        assert (first + [ops[n]])[..|first|] == first;
        PerformSameLedger(RunAll(t, ops[..n]), RunAll(t, first), ops[n]);
      }
    }
  }
}
