/**
 * The prepaid fee ledger of one token: balance, idempotent fee events, and expiring reserves. Tables
 * are maps, and each store method is one atomic step at a clock reading.
 */
module FeeStore {
  import opened Wrappers
  import opened MapSum

  const MIN_ATTEMPT_FEE_LAMPORTS := 100_000
  const STARTER_FEE_BALANCE_LAMPORTS := 1_000_000
  const MAX_CONCURRENT_FEE_RESERVES := 4
  const FEE_RESERVE_TTL_MS := 90_000

  datatype Kind = Credit | Debit
  datatype FeeEvent = FeeEvent(signature: string, kind: Kind, lamports: int)
  datatype Row = Row(lamports: nat, createdAt: int, expiresAt: int)
  type Reserves = map<string, Row>

  /** The four tables: the token and starter flag from `meta`, the balance row, events and reserves. */
  datatype Tables = Tables(
    token: Option<string>,
    starterGranted: Option<bool>,
    balance: Option<int>,
    events: map<string, FeeEvent>,
    reserves: Reserves)

  // ---------------------------------------------------------------- queries

  function Open(m: Reserves, now: int): Reserves {
    map id | id in m && m[id].expiresAt > now :: m[id]
  }

  function OpenCount(m: Reserves, now: int): nat {
    |Open(m, now)|
  }

  function Amounts(m: Reserves): map<string, nat> {
    map id | id in m :: m[id].lamports
  }

  ghost function OpenTotal(m: Reserves, now: int): nat {
    Total(Amounts(Open(m, now)))
  }

  function BalanceOf(t: Tables): int {
    match t.balance
    case None => 0
    case Some(b) => b
  }

  /** `signature.replace(/:debit$/, "")`. */
  function StripDebit(s: string): string {
    if |s| >= 6 && s[|s| - 6..] == ":debit" then s[..|s| - 6] else s
  }

  // ---------------------------------------------------------------- steps

  /** The row a reserve call inserts, if it inserts one. */
  ghost predicate ReserveInserts(t: Tables, id: string, lamports: int, now: int) {
    && lamports > 0 && id != ""
    && id !in Open(t.reserves, now)
    && OpenCount(t.reserves, now) < MAX_CONCURRENT_FEE_RESERVES
    && OpenTotal(t.reserves, now) + lamports <= BalanceOf(t)
  }

  ghost function Reserve(t: Tables, id: string, lamports: int, ttl: int, now: int): (bool, Tables) {
    if lamports <= 0 || id == "" then (false, t)
    else if id in Open(t.reserves, now) then (true, t)
    else
      var cleared := t.reserves - {id};
      if ReserveInserts(t, id, lamports, now) then
        (true, t.(reserves := cleared[id := Row(lamports, now, now + ttl)]))
      else (false, t.(reserves := cleared))
  }

  function Release(t: Tables, id: string): Tables {
    t.(reserves := t.reserves - {id})
  }

  function Expire(t: Tables, now: int): Tables {
    t.(reserves := Open(t.reserves, now))
  }

  function Rebind(t: Tables, fromId: string, toId: string, now: int): (bool, Tables) {
    if fromId == "" || toId == "" || fromId == toId || fromId !in Open(t.reserves, now) then (false, t)
    else
      var removed := t.reserves - {fromId};
      if toId in removed then (true, t.(reserves := removed))
      else (true, t.(reserves := removed[toId := t.reserves[fromId]]))
  }

  function Apply(t: Tables, e: FeeEvent): (bool, Tables) {
    if e.lamports <= 0 || e.signature in t.events then (false, t)
    else
      var current := BalanceOf(t);
      var next := if e.kind.Credit? then current + e.lamports
                  else if current > e.lamports then current - e.lamports else 0;
      (true, t.(events := t.events[e.signature := e], balance := Some(next)))
  }

  /** A debit first drops expired rows and the row bound to its signature. */
  function Settle(t: Tables, e: FeeEvent, now: int): (bool, Tables) {
    if !e.kind.Debit? then Apply(t, e)
    else Apply(Release(Expire(t, now), StripDebit(e.signature)), e)
  }

  function GrantStarter(t: Tables): (bool, Tables) {
    if t.starterGranted != Some(false) then (false, t)
    else
      var flagged := t.(starterGranted := Some(true));
      if BalanceOf(t) > 0 then (false, flagged)
      else (true, flagged.(balance := Some(STARTER_FEE_BALANCE_LAMPORTS)))
  }

  /** None is the thrown token mismatch. */
  function EnsureToken(t: Tables, token: string): Option<Tables> {
    match t.token
    case Some(existing) => if existing == token then Some(t) else None
    case None => Some(t.(token := Some(token), balance := Some(0), starterGranted := Some(false)))
  }

  // ---------------------------------------------------------------- facts about open rows

  lemma {:induction false} TotalAt(m: Reserves, id: string)
    requires id in m
    ensures Total(Amounts(m)) == m[id].lamports + Total(Amounts(m - {id}))
  {
    TotalRemove(Amounts(m), id);
    assert Amounts(m) - {id} == Amounts(m - {id});
  }

  lemma {:induction false} CountAt(m: Reserves, id: string)
    requires id in m
    ensures |m| == 1 + |m - {id}|
  {
    assert m.Keys == (m - {id}).Keys + {id};
  }

  lemma {:induction false} OpenUpdate(m: Reserves, id: string, r: Row, now: int)
    ensures Open(m - {id}, now) == Open(m, now) - {id}
    ensures r.expiresAt > now ==> Open((m - {id})[id := r], now) == (Open(m, now) - {id})[id := r]
    ensures r.expiresAt <= now ==> Open((m - {id})[id := r], now) == Open(m, now) - {id}
  {
  }

  lemma {:induction false} RemoveShrinks(m: Reserves, id: string)
    ensures |m - {id}| <= |m| && Total(Amounts(m - {id})) <= Total(Amounts(m))
  {
    if id in m {
      TotalAt(m, id);
      CountAt(m, id);
    } else {
      assert m - {id} == m;
    }
  }

  lemma {:induction false} SubsetShrinks(small: Reserves, big: Reserves)
    requires forall id :: id in small ==> id in big && small[id] == big[id]
    ensures |small| <= |big| && Total(Amounts(small)) <= Total(Amounts(big))
    decreases |big|
  {
    if big == map[] {
      assert small == map[];
    } else {
      var id :| id in big;
      TotalAt(big, id);
      CountAt(big, id);
      if id in small {
        TotalAt(small, id);
        CountAt(small, id);
        SubsetShrinks(small - {id}, big - {id});
      } else {
        SubsetShrinks(small, big - {id});
      }
    }
  }

  // ---------------------------------------------------------------- the store as it runs

  class TokenStore {
    var token: Option<string>
    var starterGranted: Option<bool>
    var balance: Option<int>
    var events: map<string, FeeEvent>
    var reserves: Reserves

    function State(): Tables
      reads this
    {
      Tables(token, starterGranted, balance, events, reserves)
    }

    constructor (t: Tables)
      ensures State() == t
    {
      token, starterGranted, balance, events, reserves := t.token, t.starterGranted, t.balance, t.events, t.reserves;
    }

    method EnsureTokenRow(name: string) returns (ok: bool)
      modifies this
      ensures match EnsureToken(old(State()), name)
              case None => !ok && State() == old(State())
              case Some(t) => ok && State() == t
    {
      if token.Some? {
        return token.value == name;
      }
      token := Some(name);
      balance := Some(0);
      starterGranted := Some(false);
      ok := true;
    }

    method GrantStarterIfNeeded() returns (granted: bool)
      modifies this
      ensures (granted, State()) == GrantStarter(old(State()))
    {
      if starterGranted != Some(false) {
        return false;
      }
      starterGranted := Some(true);
      if BalanceOf(State()) > 0 {
        return false;
      }
      balance := Some(STARTER_FEE_BALANCE_LAMPORTS);
      granted := true;
    }

    /** The `SUM(lamports)` query: visit every open row once, in any order. */
    method ReservedLamports(now: int) returns (total: nat)
      ensures total == OpenTotal(reserves, now)
    {
      var rest := Open(reserves, now);
      total := 0;
      while rest != map[]
        invariant total + Total(Amounts(rest)) == OpenTotal(reserves, now)
        decreases |rest|
      {
        var id :| id in rest;
        TotalAt(rest, id);
        CountAt(rest, id);
        total := total + rest[id].lamports;
        rest := rest - {id};
      }
    }

    method AvailableLamports(now: int) returns (available: int)
      ensures available == if BalanceOf(State()) > OpenTotal(reserves, now)
                           then BalanceOf(State()) - OpenTotal(reserves, now) else 0
    {
      var reserved := ReservedLamports(now);
      available := if BalanceOf(State()) > reserved then BalanceOf(State()) - reserved else 0;
    }

    method ReserveAttempt(id: string, lamports: int, ttl: int, now: int) returns (ok: bool)
      modifies this
      ensures (ok, State()) == Reserve(old(State()), id, lamports, ttl, now)
    {
      if lamports <= 0 || id == "" {
        return false;
      }
      if id in reserves && reserves[id].expiresAt > now {
        return true;
      }
      ghost var before := reserves;
      OpenUpdate(reserves, id, Row(0, 0, 0), now);
      assert Open(reserves, now) - {id} == Open(reserves, now);
      reserves := reserves - {id};
      if OpenCount(reserves, now) >= MAX_CONCURRENT_FEE_RESERVES {
        return false;
      }
      var available := AvailableLamports(now);
      if available < lamports {
        return false;
      }
      reserves := reserves[id := Row(lamports, now, now + ttl)];
      ok := true;
    }

    method ReleaseReserve(id: string)
      modifies this
      ensures State() == Release(old(State()), id)
    {
      reserves := reserves - {id};
    }

    method ExpireReserves(now: int) returns (released: nat)
      modifies this
      ensures State() == Expire(old(State()), now)
      ensures released == |old(reserves)| - OpenCount(old(reserves), now)
    {
      SubsetShrinks(Open(reserves, now), reserves);
      released := |reserves| - OpenCount(reserves, now);
      reserves := Open(reserves, now);
    }

    method RebindReserve(fromId: string, toId: string, now: int) returns (ok: bool)
      modifies this
      ensures (ok, State()) == Rebind(old(State()), fromId, toId, now)
    {
      if fromId == "" || toId == "" || fromId == toId {
        return false;
      }
      if fromId !in reserves || reserves[fromId].expiresAt <= now {
        return false;
      }
      var row := reserves[fromId];
      reserves := reserves - {fromId};
      if toId in reserves {
        return true;
      }
      reserves := reserves[toId := row];
      ok := true;
    }

    method ApplyFeeEvent(e: FeeEvent) returns (applied: bool)
      modifies this
      ensures (applied, State()) == Apply(old(State()), e)
    {
      if e.lamports <= 0 || e.signature in events {
        return false;
      }
      events := events[e.signature := e];
      var current := BalanceOf(State());
      if e.kind.Credit? {
        balance := Some(current + e.lamports);
      } else {
        balance := Some(if current - e.lamports > 0 then current - e.lamports else 0);
      }
      applied := true;
    }

    method SettleDebit(e: FeeEvent, now: int) returns (applied: bool)
      modifies this
      ensures (applied, State()) == Settle(old(State()), e, now)
    {
      if !e.kind.Debit? {
        applied := ApplyFeeEvent(e);
        return;
      }
      var released := ExpireReserves(now);
      var sig := StripDebit(e.signature);
      reserves := reserves - {sig};
      applied := ApplyFeeEvent(e);
    }

    /** The earliest open expiry, which the alarm is set to. */
    method NextReserveExpiry(now: int) returns (next: Option<int>)
      ensures next.None? <==> Open(reserves, now) == map[]
      ensures next.Some? ==> exists id :: id in Open(reserves, now) && reserves[id].expiresAt == next.value
      ensures next.Some? ==> forall id :: id in Open(reserves, now) ==> next.value <= reserves[id].expiresAt
    {
      var open := Open(reserves, now);
      var rest := open;
      next := None;
      while rest != map[]
        invariant forall id :: id in rest ==> id in open && rest[id] == open[id]
        invariant next.None? ==> rest == open
        invariant next.Some? ==> exists id :: id in open && open[id].expiresAt == next.value
        invariant forall id :: id in open && id !in rest ==> next.Some? && next.value <= open[id].expiresAt
        decreases |rest|
      {
        var id :| id in rest;
        CountAt(rest, id);
        if next.None? || rest[id].expiresAt < next.value {
          next := Some(rest[id].expiresAt);
        }
        rest := rest - {id};
      }
    }
  }
}
