/** The signer's request state: replay memory, one operation at a time, single-use authorization. */
module SignerState {
  import opened Bytes
  import opened Wrappers

  const REQUEST_FRESHNESS_WINDOW_MS := 60_000
  const SEEN_REQUEST_IDS_LIMIT := 512

  datatype Operation = Idle | SignPending | PrivateExportPending | AuthPending

  datatype Authorization = Authorization(
    operation: Operation, requestId: string, walletPublicKey: seq<byte>, messageDigest: string, createdAt: int)

  datatype Signer = Signer(
    state: Operation,
    activeRequestId: Option<string>,
    authorization: Option<Authorization>,
    seen: set<string>,
    seenOrder: seq<string>)

  const FRESH_SIGNER := Signer(Idle, None, None, {}, [])

  function Abs(x: int): nat {
    if x < 0 then -x else x
  }

  /** Neither replayed nor stale. */
  predicate Accepts(s: Signer, id: string, timestamp: int, now: int) {
    id !in s.seen && Abs(now - timestamp) <= REQUEST_FRESHNESS_WINDOW_MS
  }

  function Remember(s: Signer, id: string): Signer {
    if id in s.seen then s
    else
      var order := s.seenOrder + [id];
      if |order| > SEEN_REQUEST_IDS_LIMIT then s.(seen := s.seen + {id} - {order[0]}, seenOrder := order[1..])
      else s.(seen := s.seen + {id}, seenOrder := order)
  }

  function Begin(s: Signer, op: Operation, id: string): (bool, Signer) {
    if s.state != Idle then (false, s) else (true, s.(state := op, activeRequestId := Some(id)))
  }

  function End(s: Signer): Signer {
    s.(state := Idle, activeRequestId := None, authorization := None)
  }

  function Authorize(s: Signer, a: Authorization): Signer {
    s.(authorization := Some(a))
  }

  predicate Matches(a: Authorization, op: Operation, id: string, digest: string) {
    a.operation == op && a.requestId == id && a.messageDigest == digest
  }

  /** Hand out the authorization if it matches; either way it is gone. */
  function Consume(s: Signer, op: Operation, id: string, digest: string): (Option<Authorization>, Signer) {
    var spent := s.(authorization := None);
    if s.authorization.Some? && Matches(s.authorization.value, op, id, digest) then (s.authorization, spent)
    else (None, spent)
  }

  class SignerStateMachine {
    var state: Operation
    var activeRequestId: Option<string>
    var authorization: Option<Authorization>
    var seen: set<string>
    var seenOrder: seq<string>

    function Value(): Signer
      reads this
    {
      Signer(state, activeRequestId, authorization, seen, seenOrder)
    }

    constructor ()
      ensures Value() == FRESH_SIGNER
    {
      state, activeRequestId, authorization, seen, seenOrder := Idle, None, None, {}, [];
    }

    method CheckFreshnessAndReplay(id: string, timestamp: int, now: int) returns (ok: bool)
      ensures ok == Accepts(Value(), id, timestamp, now)
    {
      if id in seen {
        return false;
      }
      var skew := Abs(now - timestamp);
      ok := skew <= REQUEST_FRESHNESS_WINDOW_MS;
    }

    method RememberId(id: string)
      modifies this
      ensures Value() == Remember(old(Value()), id)
    {
      if id in seen {
        return;
      }
      seen := seen + {id};
      seenOrder := seenOrder + [id];
      if |seenOrder| > SEEN_REQUEST_IDS_LIMIT {
        var evicted := seenOrder[0];
        seenOrder := seenOrder[1..];
        seen := seen - {evicted};
      }
    }

    method BeginOperation(op: Operation, id: string) returns (ok: bool)
      modifies this
      ensures (ok, Value()) == Begin(old(Value()), op, id)
    {
      if state != Idle {
        return false;
      }
      state := op;
      activeRequestId := Some(id);
      ok := true;
    }

    method EndOperation()
      modifies this
      ensures Value() == End(old(Value()))
    {
      state := Idle;
      activeRequestId := None;
      authorization := None;
    }

    method AuthorizeDigest(a: Authorization)
      modifies this
      ensures Value() == Authorize(old(Value()), a)
    {
      authorization := Some(a);
    }

    method ConsumeAuthorization(op: Operation, id: string, digest: string) returns (r: Option<Authorization>)
      modifies this
      ensures (r, Value()) == Consume(old(Value()), op, id, digest)
    {
      var a := authorization;
      authorization := None;
      if a.None? || a.value.operation != op || a.value.requestId != id || a.value.messageDigest != digest {
        return None;
      }
      r := a;
    }
  }

  // ---------------------------------------------------------------- runs of calls

  /** One call on the state; Request is a check followed, when it passes, by a remember. */
  datatype Call =
    | CallRequest(id: string, timestamp: int, now: int)
    | CallBegin(op: Operation, id: string)
    | CallEnd
    | CallAuthorize(a: Authorization)
    | CallConsume(op: Operation, id: string, digest: string)

  function Do(s: Signer, c: Call): Signer {
    match c
    case CallRequest(id, timestamp, now) => if Accepts(s, id, timestamp, now) then Remember(s, id) else s
    case CallBegin(op, id) => Begin(s, op, id).1
    case CallEnd => End(s)
    case CallAuthorize(a) => Authorize(s, a)
    case CallConsume(op, id, digest) => Consume(s, op, id, digest).1
  }

  function DoAll(calls: seq<Call>): Signer {
    if calls == [] then FRESH_SIGNER else Do(DoAll(calls[..|calls| - 1]), calls[|calls| - 1])
  }

  /** The requests accepted so far, oldest first. */
  function Accepted(calls: seq<Call>): seq<Call> {
    if calls == [] then []
    else
      var before, c := calls[..|calls| - 1], calls[|calls| - 1];
      if c.CallRequest? && Accepts(DoAll(before), c.id, c.timestamp, c.now) then Accepted(before) + [c]
      else Accepted(before)
  }

  predicate AllRequests(calls: seq<Call>) {
    forall i :: 0 <= i < |calls| ==> calls[i].CallRequest?
  }

  function Ids(calls: seq<Call>): (ids: seq<string>)
    requires AllRequests(calls)
    ensures |ids| == |calls| && forall i :: 0 <= i < |ids| ==> ids[i] == calls[i].id
  {
    seq(|calls|, i requires 0 <= i < |calls| => calls[i].id)
  }

  function Latest(ids: seq<string>): seq<string> {
    if |ids| <= SEEN_REQUEST_IDS_LIMIT then ids else ids[|ids| - SEEN_REQUEST_IDS_LIMIT..]
  }

  ghost predicate DuplicateFree(ids: seq<string>) {
    forall i, j :: 0 <= i < j < |ids| ==> ids[i] != ids[j]
  }

  lemma {:induction false} LatestPush(ids: seq<string>, id: string)
    ensures var order := Latest(ids) + [id];
            Latest(ids + [id]) == if |order| > SEEN_REQUEST_IDS_LIMIT then order[1..] else order
  {
  }

  lemma {:induction false} LatestContains(ids: seq<string>, i: nat)
    requires i < |ids| && |ids| - i <= SEEN_REQUEST_IDS_LIMIT
    ensures ids[i] in Latest(ids)
  {
    var k := if |ids| <= SEEN_REQUEST_IDS_LIMIT then i else i - (|ids| - SEEN_REQUEST_IDS_LIMIT);
    assert Latest(ids)[k] == ids[i];
  }

  lemma {:induction false} EvictOldest(order: seq<string>, x: string)
    requires DuplicateFree(order) && order != []
    ensures DuplicateFree(order[1..])
    ensures x in order[1..] <==> x in order && x != order[0]
  {
    assert order == [order[0]] + order[1..];
    if x in order[1..] {
      var k :| 0 <= k < |order[1..]| && order[1..][k] == x;
      assert order[k + 1] == x && order[0] != order[k + 1];
    }
  }

  lemma {:induction false} RememberIsFifo(s: Signer, ids: seq<string>, id: string)
    requires s.seenOrder == Latest(ids) && DuplicateFree(s.seenOrder) && (forall x :: x in s.seen <==> x in s.seenOrder)
    requires id !in s.seen
    ensures var t := Remember(s, id);
            && t.seenOrder == Latest(ids + [id])
            && DuplicateFree(t.seenOrder)
            && (forall x :: x in t.seen <==> x in t.seenOrder)
            && |t.seenOrder| <= SEEN_REQUEST_IDS_LIMIT
  {
    LatestPush(ids, id);
    hide Latest;
    var order := s.seenOrder + [id];
    assert forall x :: x in order <==> x in s.seenOrder || x == id;
    assert DuplicateFree(order);
    forall x
      ensures DuplicateFree(order[1..]) && (x in order[1..] <==> x in order && x != order[0])
    {
      EvictOldest(order, x);
    }
    LatestBounded(ids + [id]);
  }

  lemma {:induction false} LatestBounded(ids: seq<string>)
    ensures |Latest(ids)| <= SEEN_REQUEST_IDS_LIMIT
  {
  }

  /** In every run the replay memory is the duplicate-free FIFO of the latest 512 accepted ids. */
  lemma {:induction false} SeenIsLatestAccepted(calls: seq<Call>)
    ensures AllRequests(Accepted(calls))
    ensures var s := DoAll(calls);
            && s.seenOrder == Latest(Ids(Accepted(calls)))
            && DuplicateFree(s.seenOrder)
            && (forall x :: x in s.seen <==> x in s.seenOrder)
            && |s.seenOrder| <= 512
  {
    hide Remember;
    if calls != [] {
      var before, c := calls[..|calls| - 1], calls[|calls| - 1];
      SeenIsLatestAccepted(before);
      if c.CallRequest? && Accepts(DoAll(before), c.id, c.timestamp, c.now) {
        var ids := Ids(Accepted(before));
        RememberIsFifo(DoAll(before), ids, c.id);
        assert Ids(Accepted(calls)) == ids + [c.id];
      }
    }
  }

  /** Two acceptances of one id are at least 512 other acceptances apart. */
  lemma {:induction false} ReplayNeedsManyOthers(calls: seq<Call>, i: nat, j: nat)
    requires i < j < |Accepted(calls)|
    ensures AllRequests(Accepted(calls))
    ensures Accepted(calls)[i].id == Accepted(calls)[j].id ==> j - i - 1 >= 512
    decreases |calls|
  {
    SeenIsLatestAccepted(calls);
    var before := calls[..|calls| - 1];
    var n := |Accepted(before)|;
    SeenIsLatestAccepted(before);
    if j < n {
      ReplayNeedsManyOthers(before, i, j);
    } else if Accepted(calls)[i].id == Accepted(calls)[j].id {
      var ids := Ids(Accepted(before));
      if n - i <= SEEN_REQUEST_IDS_LIMIT {
        LatestContains(ids, i);
      }
    }
  }

  ghost predicate ClockOrdered(calls: seq<Call>) {
    forall i, j :: 0 <= i < j < |calls| && calls[i].CallRequest? && calls[j].CallRequest? ==> calls[i].now <= calls[j].now
  }

  predicate WasFresh(c: Call) {
    c.CallRequest? && Abs(c.now - c.timestamp) <= REQUEST_FRESHNESS_WINDOW_MS
  }

  lemma {:induction false} AcceptedWereFresh(calls: seq<Call>)
    ensures AllRequests(Accepted(calls))
    ensures forall c :: c in Accepted(calls) ==> WasFresh(c) && c in calls
  {
    hide DoAll;
    if calls != [] {
      var before, c := calls[..|calls| - 1], calls[|calls| - 1];
      AcceptedWereFresh(before);
      assert calls == before + [c];
      assert forall x :: x in Accepted(calls) ==> x in Accepted(before) || (x == c && WasFresh(c));
    }
  }

  lemma {:induction false} AcceptedInOrder(calls: seq<Call>)
    requires ClockOrdered(calls)
    ensures ClockOrdered(Accepted(calls))
  {
    hide DoAll, Accepts;
    if calls != [] {
      var before, c := calls[..|calls| - 1], calls[|calls| - 1];
      assert forall i :: 0 <= i < |before| ==> before[i] == calls[i];
      AcceptedInOrder(before);
      AcceptedWereFresh(before);
      forall k | 0 <= k < |Accepted(before)| && c.CallRequest?
        ensures Accepted(before)[k].now <= c.now
      {
        assert Accepted(before)[k] in Accepted(before);
        var p :| 0 <= p < |before| && before[p] == Accepted(before)[k];
        assert calls[p] == before[p];
      }
    }
  }

  /** After any run, a request is accepted iff its id is not among the latest 512 and it is a minute old at most. */
  lemma {:induction false} AcceptedIffFresh(calls: seq<Call>, id: string, timestamp: int, now: int)
    ensures AllRequests(Accepted(calls))
    ensures Accepted(calls + [CallRequest(id, timestamp, now)])
         == Accepted(calls) + if id !in Latest(Ids(Accepted(calls))) && -60_000 <= now - timestamp <= 60_000
                              then [CallRequest(id, timestamp, now)] else []
  {
    SeenIsLatestAccepted(calls);
    var all := calls + [CallRequest(id, timestamp, now)];
    assert all[..|all| - 1] == calls;
  }

  /** The same request, timestamp included, is accepted twice only within two minutes. */
  lemma {:induction false} ReplayWithinTwoMinutes(calls: seq<Call>, i: nat, j: nat, k: nat)
    requires i <= k <= j < |Accepted(calls)| && ClockOrdered(calls)
    ensures AllRequests(Accepted(calls))
    ensures Accepted(calls)[i].timestamp == Accepted(calls)[j].timestamp ==>
              0 <= Accepted(calls)[k].now - Accepted(calls)[i].now <= 120_000
  {
    AcceptedWereFresh(calls);
    AcceptedInOrder(calls);
    var accepted := Accepted(calls);
    assert accepted[i] in accepted && accepted[j] in accepted && accepted[k] in accepted;
  }

  // ---------------------------------------------------------------- authorization

  /** The last authorize still stands: nothing since then consumed, ended or replaced it. */
  ghost predicate StandsSince(calls: seq<Call>, j: nat)
    requires j < |calls|
  {
    calls[j].CallAuthorize? &&
    forall k :: j < k < |calls| ==> !calls[k].CallConsume? && !calls[k].CallEnd? && !calls[k].CallAuthorize?
  }

  lemma {:induction false} AuthorizationHasOrigin(calls: seq<Call>) returns (j: nat)
    requires DoAll(calls).authorization.Some?
    ensures j < |calls| && StandsSince(calls, j) && calls[j].a == DoAll(calls).authorization.value
  {
    var before, c := calls[..|calls| - 1], calls[|calls| - 1];
    if c.CallAuthorize? {
      j := |calls| - 1;
    } else {
      j := AuthorizationHasOrigin(before);
    }
  }

  /**
   * Every successful consume, in any run of calls, has its own earlier authorize for the same
   * operation, request and digest, with no consume, end or other authorize in between.
   */
  lemma {:induction false} ConsumeHasItsAuthorize(calls: seq<Call>, op: Operation, id: string, digest: string)
      returns (j: nat)
    requires Consume(DoAll(calls), op, id, digest).0.Some?
    ensures j < |calls| && StandsSince(calls, j) && Matches(calls[j].a, op, id, digest)
  {
    j := AuthorizationHasOrigin(calls);
  }
}
