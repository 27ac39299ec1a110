/** Signing a batch of transactions: reserve, sign, rebind, and roll back on any failure. */
module FeeBatch {
  import opened Wrappers
  import opened FeeStore
  import opened FeeRuns

  type Id = s: string | s != "" witness "x"

  /**
   * One wire of a batch. `decodes` and `tokenMatches` say whether decoding and token binding throw;
   * `signature` is None when the backend throws; the clock is read at the reserve and at the rebind.
   */
  datatype Wire = Wire(
    decodes: bool, tokenMatches: bool, canSign: bool, topUp: bool,
    hash: Id, signature: Option<Id>, reserveAt: int, rebindAt: int)

  datatype Outcome = Signed(tables: Tables, reserved: seq<string>) | RolledBack(tables: Tables)

  function ReleaseAll(t: Tables, ids: seq<string>): Tables {
    if ids == [] then t else Release(ReleaseAll(t, ids[..|ids| - 1]), ids[|ids| - 1])
  }

  /** The batch from here on; after the last wire the reserve alarm is set, which may throw too. */
  ghost function Batch(t: Tables, wires: seq<Wire>, reserved: seq<string>, alarmSet: bool): Outcome
    decreases |wires|
  {
    if wires == [] then
      if alarmSet then Signed(t, reserved) else RolledBack(ReleaseAll(t, reserved))
    else
      var w := wires[0];
      if !w.decodes || !w.tokenMatches || !w.canSign then RolledBack(ReleaseAll(t, reserved))
      else if w.topUp then
        if w.signature.None? then RolledBack(ReleaseAll(t, reserved)) else Batch(t, wires[1..], reserved, alarmSet)
      else
        var (ok, held) := Reserve(t, w.hash, MIN_ATTEMPT_FEE_LAMPORTS, FEE_RESERVE_TTL_MS, w.reserveAt);
        if !ok then RolledBack(ReleaseAll(held, reserved))
        else if w.signature.None? then RolledBack(ReleaseAll(held, reserved + [w.hash]))
        else Batch(Rebind(held, w.hash, w.signature.value, w.rebindAt).1, wires[1..], reserved + [w.signature.value], alarmSet)
  }

  method ReleaseReserves(store: TokenStore, ids: seq<string>)
    modifies store
    ensures store.State() == ReleaseAll(old(store.State()), ids)
  {
    for i := 0 to |ids|
      invariant store.State() == ReleaseAll(old(store.State()), ids[..i])
    {
      assert ids[..i + 1][..i] == ids[..i];
      store.ReleaseReserve(ids[i]);
    }
    assert ids[..|ids|] == ids;
  }

  /** The loop as it runs: ids collected for rollback, the last one replaced after each rebind. */
  method SignTransactions(store: TokenStore, wires: seq<Wire>, now: int, alarmSet: bool) returns (ok: bool, signatures: seq<string>)
    modifies store
    ensures wires == [] ==> !ok && store.State() == old(store.State())
    ensures wires != [] ==>
              match Batch(Expire(old(store.State()), now), wires, [], alarmSet)
              case Signed(t, _) => ok && store.State() == t
              case RolledBack(t) => !ok && store.State() == t
    ensures ok ==> |signatures| == |wires| && forall k :: 0 <= k < |wires| ==> wires[k].signature == Some(signatures[k])
  {
    hide Reserve, Rebind;
    ok, signatures := false, [];
    if wires == [] {
      return;
    }
    var released := store.ExpireReserves(now);
    var reservedIds: seq<string> := [];
    ghost var whole := Batch(store.State(), wires, [], alarmSet);
    for i := 0 to |wires|
      invariant Batch(store.State(), wires[i..], reservedIds, alarmSet) == whole
      invariant |signatures| == i && forall k :: 0 <= k < i ==> wires[k].signature == Some(signatures[k])
    {
      var w := wires[i];
      assert wires[i..][1..] == wires[i + 1..];
      if !w.decodes || !w.tokenMatches || !w.canSign {
        ReleaseReserves(store, reservedIds);
        return;
      }
      if !w.topUp {
        var held := store.ReserveAttempt(w.hash, MIN_ATTEMPT_FEE_LAMPORTS, FEE_RESERVE_TTL_MS, w.reserveAt);
        if !held {
          ReleaseReserves(store, reservedIds);
          return;
        }
        ghost var before := reservedIds;
        reservedIds := reservedIds + [w.hash];
        if w.signature.None? {
          ReleaseReserves(store, reservedIds);
          return;
        }
        var rebound := store.RebindReserve(w.hash, w.signature.value, w.rebindAt);
        reservedIds := reservedIds[|reservedIds| - 1 := w.signature.value];
        assert reservedIds == before + [w.signature.value];
      } else if w.signature.None? {
        ReleaseReserves(store, reservedIds);
        return;
      }
      signatures := signatures + [w.signature.value];
    }
    if !alarmSet {
      ReleaseReserves(store, reservedIds);
      return;
    }
    ok := true;
  }

  // ---------------------------------------------------------------- rollback

  /** The clock never goes back along the batch. */
  ghost predicate Clocked(wires: seq<Wire>, start: int, end: int) {
    && start <= end
    && forall i :: 0 <= i < |wires| ==>
         && start <= wires[i].reserveAt <= wires[i].rebindAt <= end
         && forall j :: i < j < |wires| ==> wires[i].rebindAt <= wires[j].reserveAt
  }

  /** The reserve ids a batch gets hold of: each reserved hash, and the signature it is rebound to. */
  ghost function Touched(t: Tables, wires: seq<Wire>): set<string>
    decreases |wires|
  {
    if wires == [] then {}
    else
      var w := wires[0];
      if !w.decodes || !w.tokenMatches || !w.canSign || (w.topUp && w.signature.None?) then {}
      else if w.topUp then Touched(t, wires[1..])
      else
        var (ok, held) := Reserve(t, w.hash, MIN_ATTEMPT_FEE_LAMPORTS, FEE_RESERVE_TTL_MS, w.reserveAt);
        if !ok then {}
        else if w.signature.None? then {w.hash}
        else
          {w.hash, w.signature.value} + Touched(Rebind(held, w.hash, w.signature.value, w.rebindAt).1, wires[1..])
  }

  /** Rows open at `now` are the untouched ones from before the batch, plus some the batch can release. */
  ghost predicate Owned(m: Reserves, base: Reserves, touched: set<string>, reserved: seq<string>, now: int) {
    && (forall id :: id in base && base[id].expiresAt > now && id !in touched ==> id in m && m[id] == base[id])
    && (forall id :: id in m && m[id].expiresAt > now ==>
          (id in base && m[id] == base[id] && id !in touched) || id in reserved)
    && (forall id :: id in reserved ==> id in touched)
  }

  lemma {:induction false} ReleaseAllReserves(t: Tables, ids: seq<string>)
    ensures forall id :: id in ReleaseAll(t, ids).reserves <==> id in t.reserves && id !in ids
    ensures forall id :: id in ReleaseAll(t, ids).reserves ==> ReleaseAll(t, ids).reserves[id] == t.reserves[id]
  {
    if ids != [] {
      ReleaseAllReserves(t, ids[..|ids| - 1]);
      assert ids == ids[..|ids| - 1] + [ids[|ids| - 1]];
    }
  }

  lemma {:induction false} RollbackRestores(t: Tables, base: Reserves, touched: set<string>, reserved: seq<string>,
                                            now: int, end: int)
    requires Owned(t.reserves, base, touched, reserved, now) && now <= end
    ensures Open(ReleaseAll(t, reserved).reserves, end) == Open(base, end) - touched
  {
    ReleaseAllReserves(t, reserved);
  }

  lemma {:induction false} ReserveOwned(t: Tables, base: Reserves, touched: set<string>, reserved: seq<string>,
                                        id: string, now: int)
    requires Owned(t.reserves, base, touched, reserved, now)
    ensures var (ok, after) := Reserve(t, id, MIN_ATTEMPT_FEE_LAMPORTS, FEE_RESERVE_TTL_MS, now);
            if ok then Owned(after.reserves, base, touched + {id}, reserved + [id], now)
            else Owned(after.reserves, base, touched, reserved, now)
  {
  }

  lemma {:induction false} RebindOwned(t: Tables, base: Reserves, touched: set<string>, reserved: seq<string>,
                                       fromId: string, toId: string, now: int)
    requires Owned(t.reserves, base, touched, reserved + [fromId], now)
    requires fromId != "" && toId != ""
    ensures Owned(Rebind(t, fromId, toId, now).1.reserves, base, touched + {toId}, reserved + [toId], now)
  {
    var before := reserved + [fromId];
    assert forall id :: id in before <==> id in reserved || id == fromId;
    var after := reserved + [toId];
    assert forall id :: id in after <==> id in reserved || id == toId;
  }

  lemma {:induction false} OwnedLater(m: Reserves, base: Reserves, touched: set<string>, reserved: seq<string>,
                                      now: int, later: int)
    requires Owned(m, base, touched, reserved, now) && now <= later
    ensures Owned(m, base, touched, reserved, later)
  {
  }

  lemma {:induction false} BatchRollsBack(t: Tables, base: Reserves, touched: set<string>, wires: seq<Wire>,
                                          reserved: seq<string>, alarmSet: bool, now: int, end: int)
    requires Clocked(wires, now, end) && Owned(t.reserves, base, touched, reserved, now)
    requires Batch(t, wires, reserved, alarmSet).RolledBack?
    ensures Open(Batch(t, wires, reserved, alarmSet).tables.reserves, end) == Open(base, end) - (touched + Touched(t, wires))
    decreases |wires|
  {
    hide Reserve, Rebind, Owned, Open;
    if wires == [] {
      RollbackRestores(t, base, touched, reserved, now, end);
      assert touched + Touched(t, wires) == touched;
      return;
    }
    var w := wires[0];
    if !w.decodes || !w.tokenMatches || !w.canSign || (w.topUp && w.signature.None?) {
      RollbackRestores(t, base, touched, reserved, now, end);
      assert touched + Touched(t, wires) == touched;
    } else if w.topUp {
      BatchRollsBack(t, base, touched, wires[1..], reserved, alarmSet, now, end);
    } else {
      OwnedLater(t.reserves, base, touched, reserved, now, w.reserveAt);
      ReserveOwned(t, base, touched, reserved, w.hash, w.reserveAt);
      var (ok, held) := Reserve(t, w.hash, MIN_ATTEMPT_FEE_LAMPORTS, FEE_RESERVE_TTL_MS, w.reserveAt);
      var more := touched + {w.hash};
      if !ok {
        RollbackRestores(held, base, touched, reserved, w.reserveAt, end);
        assert touched + Touched(t, wires) == touched;
      } else if w.signature.None? {
        RollbackRestores(held, base, more, reserved + [w.hash], w.reserveAt, end);
      } else {
        OwnedLater(held.reserves, base, more, reserved + [w.hash], w.reserveAt, w.rebindAt);
        RebindOwned(held, base, more, reserved, w.hash, w.signature.value, w.rebindAt);
        var next := Rebind(held, w.hash, w.signature.value, w.rebindAt).1;
        var all := more + {w.signature.value};
        BatchRollsBack(next, base, all, wires[1..], reserved + [w.signature.value], alarmSet, w.rebindAt, end);
        assert touched + Touched(t, wires) == all + Touched(next, wires[1..]);
      }
    }
  }

  /**
   * A failed batch takes away exactly the open reserves it got hold of and adds none, whichever wire
   * or step fails and however often a wire repeats. So it is invisible iff it held none of them.
   */
  lemma {:induction false} FailedBatchDropsTouched(t: Tables, wires: seq<Wire>, alarmSet: bool, now: int, end: int)
    requires Clocked(wires, now, end)
    requires Batch(Expire(t, now), wires, [], alarmSet).RolledBack?
    ensures var after := Open(Batch(Expire(t, now), wires, [], alarmSet).tables.reserves, end);
            var touched := Touched(Expire(t, now), wires);
            && after == Open(t.reserves, end) - touched
            && (after == Open(t.reserves, end) <==> forall id :: id in Open(t.reserves, end) ==> id !in touched)
  {
    hide Touched, Batch;
    BatchRollsBack(Expire(t, now), Open(t.reserves, now), {}, wires, [], alarmSet, now, end);
    var touched := Touched(Expire(t, now), wires);
    assert {} + touched == touched;
    assert Open(Open(t.reserves, now), end) == Open(t.reserves, end);
    assert forall id :: id in Open(t.reserves, end) - touched <==> id in Open(t.reserves, end) && id !in touched;
  }

  /** No message hash or signature of the batch names one of these rows. */
  ghost predicate Unused(wires: seq<Wire>, base: Reserves) {
    forall i :: 0 <= i < |wires| ==>
      wires[i].hash !in base && (wires[i].signature.Some? ==> wires[i].signature.value !in base)
  }

  lemma {:induction false} TouchedIsNamed(t: Tables, wires: seq<Wire>, base: Reserves, id: string)
    requires Unused(wires, base) && id in Touched(t, wires)
    ensures id !in base
    decreases |wires|
  {
    hide Reserve, Rebind;
    var w := wires[0];
    if w.topUp {
      TouchedIsNamed(t, wires[1..], base, id);
    } else if id != w.hash && Some(id) != w.signature {
      var held := Reserve(t, w.hash, MIN_ATTEMPT_FEE_LAMPORTS, FEE_RESERVE_TTL_MS, w.reserveAt).1;
      TouchedIsNamed(Rebind(held, w.hash, w.signature.value, w.rebindAt).1, wires[1..], base, id);
    }
  }

  /** In particular, a failed batch leaves no trace if no hash or signature of it was open on entry. */
  lemma {:induction false} FailedBatchIsInvisible(t: Tables, wires: seq<Wire>, alarmSet: bool, now: int, end: int)
    requires Clocked(wires, now, end) && Unused(wires, Open(t.reserves, now))
    requires Batch(Expire(t, now), wires, [], alarmSet).RolledBack?
    ensures Open(Batch(Expire(t, now), wires, [], alarmSet).tables.reserves, end) == Open(t.reserves, end)
  {
    hide Touched, Batch;
    FailedBatchDropsTouched(t, wires, alarmSet, now, end);
    forall id | id in Open(t.reserves, end) && id in Touched(Expire(t, now), wires)
      ensures false
    {
      TouchedIsNamed(Expire(t, now), wires, Open(t.reserves, now), id);
    }
  }

  /**
   * What a retry can cost. A batch signed "m" and left its reserve under the signature "s". The same
   * message comes again: if signing fails, the reserve stays; if a later wire fails, it is dropped.
   */
  lemma {:induction false} FailedRetryDropsReserve()
    ensures var t := Tables(Some("T"), Some(true), Some(1_000_000), map[], map[]);
            var wire := Wire(true, true, true, false, "m", Some("s"), 1, 1);
            var first := Batch(Expire(t, 1), [wire], [], true);
            var retry := wire.(reserveAt := 2, rebindAt := 2);
            var unsigned := Batch(Expire(first.tables, 2), [retry.(signature := None)], [], true);
            var halfway := Batch(Expire(first.tables, 2), [retry, retry.(decodes := false)], [], true);
            && first.Signed? && "s" in Open(first.tables.reserves, 2)
            && unsigned.RolledBack? && "s" in Open(unsigned.tables.reserves, 2)
            && halfway.RolledBack? && "s" !in Open(halfway.tables.reserves, 2)
  {
    hide Batch, Reserve, Rebind;
    var t := Tables(Some("T"), Some(true), Some(1_000_000), map[], map[]);
    var wire := Wire(true, true, true, false, "m", Some("s"), 1, 1);
    var row := Row(MIN_ATTEMPT_FEE_LAMPORTS, 1, 1 + FEE_RESERVE_TTL_MS);
    FirstBatch(t, wire);
    var left := t.(reserves := map["s" := row]);
    assert Expire(left, 2) == left;
    RetryOutcomes(left, wire.(reserveAt := 2, rebindAt := 2), row);
  }

  lemma {:induction false} RetryOutcomes(left: Tables, retry: Wire, row: Row)
    requires row == Row(MIN_ATTEMPT_FEE_LAMPORTS, 1, 1 + FEE_RESERVE_TTL_MS)
    requires left == Tables(Some("T"), Some(true), Some(1_000_000), map[], map["s" := row])
    requires retry == Wire(true, true, true, false, "m", Some("s"), 2, 2)
    ensures var unsigned := Batch(left, [retry.(signature := None)], [], true);
            unsigned.RolledBack? && "s" in Open(unsigned.tables.reserves, 2)
    ensures var halfway := Batch(left, [retry, retry.(decodes := false)], [], true);
            halfway.RolledBack? && "s" !in Open(halfway.tables.reserves, 2)
  {
    hide Reserve, Open, Rebind;
    var more := Row(MIN_ATTEMPT_FEE_LAMPORTS, 2, 2 + FEE_RESERVE_TTL_MS);
    var held := left.(reserves := map["s" := row, "m" := more]);
    RoomForOneMore(left, row);
    assert Rebind(held, "m", "s", 2).1 == left by {
      RebindBack(held, left, row, more);
    }
    assert [retry, retry.(decodes := false)][1..] == [retry.(decodes := false)];
    assert [] + ["m"] == ["m"] && [] + ["s"] == ["s"];
    ReleaseAllReserves(held, ["m"]);
    ReleaseAllReserves(left, ["s"]);
    OpenKeeps(ReleaseAll(held, ["m"]).reserves, "s", 2);
    OpenKeeps(ReleaseAll(left, ["s"]).reserves, "s", 2);
  }

  lemma {:induction false} OpenKeeps(m: Reserves, id: string, now: int)
    ensures id in Open(m, now) <==> id in m && m[id].expiresAt > now
  {
  }

  lemma {:induction false} RebindBack(held: Tables, left: Tables, row: Row, more: Row)
    requires more.expiresAt > 2 && held.reserves == map["s" := row, "m" := more]
    requires left == held.(reserves := map["s" := row])
    ensures Rebind(held, "m", "s", 2).1 == left
  {
    assert held.reserves - {"m"} == left.reserves;
  }

  lemma {:induction false} FirstBatch(t: Tables, wire: Wire)
    requires t == Tables(Some("T"), Some(true), Some(1_000_000), map[], map[])
    requires wire == Wire(true, true, true, false, "m", Some("s"), 1, 1)
    ensures Batch(Expire(t, 1), [wire], [], true)
         == Signed(t.(reserves := map["s" := Row(MIN_ATTEMPT_FEE_LAMPORTS, 1, 1 + FEE_RESERVE_TTL_MS)]), ["s"])
  {
    assert Expire(t, 1) == t && Open(t.reserves, 1) == map[] && Amounts(map[]) == map[];
    var row := Row(MIN_ATTEMPT_FEE_LAMPORTS, 1, 1 + FEE_RESERVE_TTL_MS);
    var held := t.(reserves := map["m" := row]);
    assert t.reserves - {"m"} == map[];
    assert Reserve(t, "m", MIN_ATTEMPT_FEE_LAMPORTS, FEE_RESERVE_TTL_MS, 1) == (true, held);
    assert "m" in Open(held.reserves, 1) && held.reserves - {"m"} == map[];
    assert Rebind(held, "m", "s", 1).1 == t.(reserves := map["s" := row]);
    assert [] + ["s"] == ["s"] && [wire][1..] == [];
  }

  lemma {:induction false} RoomForOneMore(t: Tables, row: Row)
    requires row == Row(MIN_ATTEMPT_FEE_LAMPORTS, 1, 1 + FEE_RESERVE_TTL_MS)
    requires t == Tables(Some("T"), Some(true), Some(1_000_000), map[], map["s" := row])
    ensures Reserve(t, "m", MIN_ATTEMPT_FEE_LAMPORTS, FEE_RESERVE_TTL_MS, 2)
         == (true, t.(reserves := map["s" := row, "m" := Row(MIN_ATTEMPT_FEE_LAMPORTS, 2, 2 + FEE_RESERVE_TTL_MS)]))
  {
    var open := Open(t.reserves, 2);
    assert open == map["s" := row] && |open| == 1;
    assert OpenTotal(t.reserves, 2) == MIN_ATTEMPT_FEE_LAMPORTS by {
      TotalAt(open, "s");
      assert open - {"s"} == map[] && Amounts(map[]) == map[];
    }
    assert t.reserves - {"m"} == t.reserves;
  }

  // ---------------------------------------------------------------- what a signed batch holds

  /** A rebind leaves the signature open iff it was already, or the hash is still open and can take its place. */
  lemma {:induction false} RebindLeavesOpen(t: Tables, fromId: Id, toId: Id, now: int)
    ensures toId in Open(Rebind(t, fromId, toId, now).1.reserves, now)
       <==> toId in Open(t.reserves, now) || (fromId in Open(t.reserves, now) && toId !in t.reserves)
  {
  }

  /** A batch is only signed if every wire of it may be, and the alarm for its reserves was set. */
  lemma {:induction false} SignedBatchMaySign(t: Tables, wires: seq<Wire>, reserved: seq<string>, alarmSet: bool)
    requires Batch(t, wires, reserved, alarmSet).Signed?
    ensures alarmSet
    ensures forall i :: 0 <= i < |wires| ==>
              wires[i].decodes && wires[i].tokenMatches && wires[i].canSign && wires[i].signature.Some?
    decreases |wires|
  {
    hide Reserve, Rebind;
    if wires != [] {
      var w, rest := wires[0], wires[1..];
      if w.topUp {
        SignedBatchMaySign(t, rest, reserved, alarmSet);
      } else {
        var held := Reserve(t, w.hash, MIN_ATTEMPT_FEE_LAMPORTS, FEE_RESERVE_TTL_MS, w.reserveAt).1;
        SignedBatchMaySign(Rebind(held, w.hash, w.signature.value, w.rebindAt).1, rest,
                           reserved + [w.signature.value], alarmSet);
      }
      assert forall i :: 1 <= i < |wires| ==> wires[i] == rest[i - 1];
    }
  }

  /** And if all of it tops the balance up, that is enough: no balance is needed and no reserve made. */
  lemma {:induction false} TopUpsNeedNoBalance(t: Tables, wires: seq<Wire>, reserved: seq<string>, alarmSet: bool)
    requires alarmSet
    requires forall i :: 0 <= i < |wires| ==>
               && wires[i].topUp && wires[i].signature.Some?
               && wires[i].decodes && wires[i].tokenMatches && wires[i].canSign
    ensures Batch(t, wires, reserved, alarmSet) == Signed(t, reserved)
    decreases |wires|
  {
    if wires != [] {
      TopUpsNeedNoBalance(t, wires[1..], reserved, alarmSet);
    }
  }

  /** A wire that pays fees passes iff it may be signed and its message has, or can get, a reserve. */
  lemma {:induction false} FeePayingWirePasses(t: Tables, w: Wire)
    requires !w.topUp
    ensures Batch(t, [w], [], true).Signed?
       <==> && w.decodes && w.tokenMatches && w.canSign && w.signature.Some?
            && (w.hash in Open(t.reserves, w.reserveAt)
                || ReserveInserts(t, w.hash, MIN_ATTEMPT_FEE_LAMPORTS, w.reserveAt))
  {
    hide ReserveInserts, Open;
    FreshReserveIsCovered(t, w.hash, MIN_ATTEMPT_FEE_LAMPORTS, FEE_RESERVE_TTL_MS, w.reserveAt);
    assert [w][1..] == [];
  }

  /** Messages not seen before: no name of the batch has a row, and none occurs twice. */
  ghost predicate FreshNames(wires: seq<Wire>, base: Reserves) {
    && Unused(wires, base)
    && (forall i, j :: 0 <= i < |wires| && 0 <= j < |wires| ==> Some(wires[i].hash) != wires[j].signature)
    && (forall i, j :: 0 <= i < j < |wires| ==>
          wires[i].hash != wires[j].hash && (wires[i].signature.Some? ==> wires[i].signature != wires[j].signature))
  }

  ghost predicate Named(wires: seq<Wire>, id: string) {
    exists i :: 0 <= i < |wires| && (wires[i].hash == id || wires[i].signature == Some(id))
  }

  /** A row that a batch does not name is left as it is. */
  lemma {:induction false} BatchLeaves(t: Tables, wires: seq<Wire>, reserved: seq<string>, alarmSet: bool, id: string)
    requires !Named(wires, id) && Batch(t, wires, reserved, alarmSet).Signed?
    ensures var after := Batch(t, wires, reserved, alarmSet).tables.reserves;
            && (id in after <==> id in t.reserves)
            && (id in after ==> after[id] == t.reserves[id])
    decreases |wires|
  {
    hide ReserveInserts, Open;
    if wires != [] {
      var w := wires[0];
      assert w.hash != id && w.signature != Some(id);
      assert !Named(wires[1..], id) by {
        assert forall i :: 0 <= i < |wires[1..]| ==> wires[1..][i] == wires[i + 1];
      }
      if w.topUp {
        BatchLeaves(t, wires[1..], reserved, alarmSet, id);
      } else {
        var held := Reserve(t, w.hash, MIN_ATTEMPT_FEE_LAMPORTS, FEE_RESERVE_TTL_MS, w.reserveAt).1;
        var next := Rebind(held, w.hash, w.signature.value, w.rebindAt).1;
        BatchLeaves(next, wires[1..], reserved + [w.signature.value], alarmSet, id);
      }
    }
  }

  /** One new wire: its signature's row is there iff the hash was still open at the rebind. */
  lemma {:induction false} WireHolds(t: Tables, w: Wire)
    requires !w.topUp && w.signature.Some? && w.signature != Some(w.hash)
    requires w.hash !in t.reserves && w.signature.value !in t.reserves
    requires Reserve(t, w.hash, MIN_ATTEMPT_FEE_LAMPORTS, FEE_RESERVE_TTL_MS, w.reserveAt).0
    ensures var held := Reserve(t, w.hash, MIN_ATTEMPT_FEE_LAMPORTS, FEE_RESERVE_TTL_MS, w.reserveAt).1;
            var next := Rebind(held, w.hash, w.signature.value, w.rebindAt).1.reserves;
            && next.Keys <= t.reserves.Keys + {w.hash, w.signature.value}
            && (w.signature.value in next <==> w.rebindAt < w.reserveAt + FEE_RESERVE_TTL_MS)
            && (w.signature.value in next ==> next[w.signature.value].expiresAt == w.reserveAt + FEE_RESERVE_TTL_MS)
  {
  }

  lemma {:induction false} FirstIsFresh(wires: seq<Wire>, base: Reserves)
    requires FreshNames(wires, base) && wires != []
    ensures var w := wires[0];
            && w.hash !in base && w.signature != Some(w.hash) && (w.signature.Some? ==> w.signature.value !in base)
            && !Named(wires[1..], w.hash) && (w.signature.Some? ==> !Named(wires[1..], w.signature.value))
  {
    assert forall j :: 0 <= j < |wires[1..]| ==> wires[1..][j] == wires[j + 1];
  }

  lemma {:induction false} FreshRest(base: Reserves, next: Reserves, wires: seq<Wire>)
    requires FreshNames(wires, base) && wires != []
    requires forall id :: id in next ==>
               id in base || id == wires[0].hash || (wires[0].signature.Some? && id == wires[0].signature.value)
    ensures FreshNames(wires[1..], next)
  {
    assert forall j :: 0 <= j < |wires[1..]| ==> wires[1..][j] == wires[j + 1];
  }

  /**
   * A batch of new messages that was signed: a returned signature has an open reserve exactly until
   * the reserve of its message would have expired, be that before the signature was there or after.
   */
  lemma {:induction false} SignedBatchHolds(t: Tables, wires: seq<Wire>, reserved: seq<string>, alarmSet: bool,
                                            now: int, end: int, i: nat)
    requires Clocked(wires, now, end) && FreshNames(wires, t.reserves)
    requires Batch(t, wires, reserved, alarmSet).Signed? && i < |wires| && !wires[i].topUp
    ensures wires[i].signature.Some?
    ensures wires[i].signature.value in Open(Batch(t, wires, reserved, alarmSet).tables.reserves, end)
       <==> end < wires[i].reserveAt + 90_000
    decreases |wires|
  {
    hide Reserve, Rebind, FreshNames, Unused, Named;
    var w, rest := wires[0], wires[1..];
    assert forall j :: 0 <= j < |rest| ==> rest[j] == wires[j + 1];
    if w.topUp {
      FreshRest(t.reserves, t.reserves, wires);
      SignedBatchHolds(t, rest, reserved, alarmSet, now, end, i - 1);
    } else {
      var held := Reserve(t, w.hash, MIN_ATTEMPT_FEE_LAMPORTS, FEE_RESERVE_TTL_MS, w.reserveAt).1;
      var next := Rebind(held, w.hash, w.signature.value, w.rebindAt).1;
      FirstIsFresh(wires, t.reserves);
      WireHolds(t, w);
      FreshRest(t.reserves, next.reserves, wires);
      if i == 0 {
        BatchLeaves(next, rest, reserved + [w.signature.value], alarmSet, w.signature.value);
      } else {
        SignedBatchHolds(next, rest, reserved + [w.signature.value], alarmSet, w.rebindAt, end, i - 1);
      }
    }
  }
}
