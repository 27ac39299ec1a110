/**
 * The signer's request handling as its asynchronous steps interleave: each step is the code between
 * two awaits. A task is one request that was begun; the log keeps what a person or a caller can see.
 */
module SignerRuns {
  import opened Bytes
  import opened Wrappers
  import opened SignerState

  /** How far a signing request has come. */
  datatype Phase = Waiting | Confirmed | Authorized | Spent

  datatype Task = Task(op: Operation, id: string, frozen: seq<byte>, phase: Phase)

  datatype Event =
    | Approval(task: nat, id: string, message: seq<byte>)
    | Grant(task: nat, a: Authorization)
    | Signature(task: nat, id: string, message: seq<byte>)
    | Denial(task: nat)
    | Ended

  /**
   * `rejected` lists the handlers of last resort that are due, oldest first: one for each request
   * whose promise was rejected, saying whether the report it makes first will be posted.
   */
  datatype Frame = Frame(signer: Signer, tasks: map<nat, Task>, next: nat, log: seq<Event>, rejected: seq<bool>)

  const FRESH_FRAME := Frame(FRESH_SIGNER, map[], 0, [], [])

  /** Whether posting a report succeeds, and, if it throws, whether posting it again does. */
  datatype Report = Report(first: bool, again: bool)

  /**
   * A request refused as busy rejects if its report throws; a begun one rejects if something throws
   * while it settles. Then its handler of last resort reports again and, if that is posted, ends
   * whatever operation is active.
   */
  datatype Step =
    | Receive(op: Operation, id: string, timestamp: int, now: int, message: seq<byte>, report: Report)
    | Approve(task: nat)
    | Bind(task: nat, wallet: seq<byte>, createdAt: int)
    | Sign(task: nat)
    | Finish(task: nat, rejects: bool, again: bool)
    | LastResort

  predicate At(f: Frame, k: nat, phase: Phase) {
    k in f.tasks && f.tasks[k].op == SignPending && f.tasks[k].phase == phase
  }

  function Authorizing(t: Task, digest: seq<byte> -> string, wallet: seq<byte>, createdAt: int): Authorization {
    Authorization(SignPending, t.id, wallet, digest(t.frozen), createdAt)
  }

  function Ending(f: Frame): Frame {
    f.(signer := End(f.signer), log := f.log + [Ended])
  }

  /**
   * A step that its task is not waiting for does not happen, and no message arrives while a handler
   * of last resort is due: it runs in a microtask.
   */
  function Next(f: Frame, digest: seq<byte> -> string, step: Step): Frame {
    match step
    case Receive(op, id, timestamp, now, message, report) =>
      if f.rejected != [] || !Accepts(f.signer, id, timestamp, now) || op == Idle then f
      else
        var (begun, signer) := Begin(Remember(f.signer, id), op, id);
        if !begun then f.(signer := signer, rejected := if report.first then [] else [report.again])
        else f.(signer := signer, tasks := f.tasks[f.next := Task(op, id, message, Waiting)], next := f.next + 1)
    case Approve(k) =>
      if !At(f, k, Waiting) then f
      else f.(tasks := f.tasks[k := f.tasks[k].(phase := Confirmed)],
              log := f.log + [Approval(k, f.tasks[k].id, f.tasks[k].frozen)])
    case Bind(k, wallet, createdAt) =>
      if !At(f, k, Confirmed) then f
      else
        var a := Authorizing(f.tasks[k], digest, wallet, createdAt);
        f.(signer := Authorize(f.signer, a), tasks := f.tasks[k := f.tasks[k].(phase := Authorized)],
           log := f.log + [Grant(k, a)])
    case Sign(k) =>
      if !At(f, k, Authorized) then f
      else
        var t := f.tasks[k];
        var (a, signer) := Consume(f.signer, SignPending, t.id, digest(t.frozen));
        f.(signer := signer, tasks := f.tasks[k := t.(phase := Spent)],
           log := f.log + [if a.Some? then Signature(k, t.id, t.frozen) else Denial(k)])
    case Finish(k, rejects, again) =>
      if k !in f.tasks then f
      else Ending(f).(tasks := f.tasks - {k}, rejected := if rejects then f.rejected + [again] else f.rejected)
    case LastResort =>
      if f.rejected == [] then f
      else
        var rest := f.rejected[1..];
        if f.rejected[0] then Ending(f).(rejected := rest) else f.(rejected := rest)
  }

  function After(digest: seq<byte> -> string, steps: seq<Step>): Frame {
    if steps == [] then FRESH_FRAME
    else Next(After(digest, steps[..|steps| - 1]), digest, steps[|steps| - 1])
  }

  /** The page: its state object, and the tasks whose promises are pending. */
  class SignerPage {
    const state: SignerStateMachine
    const digest: seq<byte> -> string
    var tasks: map<nat, Task>
    var next: nat
    var log: seq<Event>
    var rejected: seq<bool>

    function Value(): Frame
      reads this, state
    {
      Frame(state.Value(), tasks, next, log, rejected)
    }

    constructor (digest: seq<byte> -> string)
      ensures Value() == FRESH_FRAME && this.digest == digest && fresh(state)
    {
      state := new SignerStateMachine();
      this.digest := digest;
      tasks, next, log, rejected := map[], 0, [], [];
    }

    /** A validated message arrives; replays, stale requests and requests while busy go no further. */
    method OnMessage(op: Operation, id: string, timestamp: int, now: int, message: seq<byte>, report: Report)
      requires op != Idle && rejected == []
      modifies this, state
      ensures Value() == Next(old(Value()), digest, Receive(op, id, timestamp, now, message, report))
    {
      var acceptable := state.CheckFreshnessAndReplay(id, timestamp, now);
      if !acceptable {
        return;
      }
      state.RememberId(id);
      var begun := state.BeginOperation(op, id);
      if !begun {
        if !report.first {
          rejected := rejected + [report.again];
        }
        return;
      }
      tasks := tasks[next := Task(op, id, message, Waiting)];
      next := next + 1;
    }

    method OnApproved(k: nat)
      requires At(Value(), k, Waiting)
      modifies this
      ensures Value() == Next(old(Value()), digest, Approve(k))
    {
      var t := tasks[k];
      log := log + [Approval(k, t.id, t.frozen)];
      tasks := tasks[k := t.(phase := Confirmed)];
    }

    method OnUnlocking(k: nat, wallet: seq<byte>, createdAt: int)
      requires At(Value(), k, Confirmed)
      modifies this, state
      ensures Value() == Next(old(Value()), digest, Bind(k, wallet, createdAt))
    {
      var t := tasks[k];
      var a := Authorization(SignPending, t.id, wallet, digest(t.frozen), createdAt);
      state.AuthorizeDigest(a);
      log := log + [Grant(k, a)];
      tasks := tasks[k := t.(phase := Authorized)];
    }

    /** The only place a signature is made. */
    method OnUnlocked(k: nat) returns (signed: Option<seq<byte>>)
      requires At(Value(), k, Authorized)
      modifies this, state
      ensures Value() == Next(old(Value()), digest, Sign(k))
      ensures signed.Some? ==> log == old(log) + [Signature(k, old(tasks[k].id), signed.value)]
      ensures signed.None? ==> log == old(log) + [Denial(k)]
    {
      var t := tasks[k];
      var a := state.ConsumeAuthorization(SignPending, t.id, digest(t.frozen));
      tasks := tasks[k := t.(phase := Spent)];
      if a.None? {
        log := log + [Denial(k)];
        return None;
      }
      log := log + [Signature(k, t.id, t.frozen)];
      signed := Some(t.frozen);
    }

    /** Every way out of a begun request passes here. */
    method OnSettled(k: nat, rejects: bool, again: bool)
      requires k in tasks
      modifies this, state
      ensures Value() == Next(old(Value()), digest, Finish(k, rejects, again))
    {
      tasks := tasks - {k};
      state.EndOperation();
      log := log + [Ended];
      if rejects {
        rejected := rejected + [again];
      }
    }

    /** The report comes before the end, so a report that throws ends nothing. */
    method OnRejected()
      requires rejected != []
      modifies this, state
      ensures Value() == Next(old(Value()), digest, LastResort)
    {
      var posted := rejected[0];
      rejected := rejected[1..];
      if !posted {
        return;
      }
      state.EndOperation();
      log := log + [Ended];
    }
  }

  // ---------------------------------------------------------------- every run

  predicate TouchesGrant(e: Event) {
    !e.Approval?
  }

  /** The grant at j is the latest, and nothing has used it. */
  ghost predicate Stands(log: seq<Event>, j: int) {
    0 <= j < |log| && log[j].Grant? && forall k :: j < k < |log| ==> !TouchesGrant(log[k])
  }

  ghost predicate Standing(log: seq<Event>, a: Authorization) {
    exists j :: Stands(log, j) && log[j].a == a
  }

  ghost predicate ApprovedBy(log: seq<Event>, task: nat, id: string, message: seq<byte>) {
    Approval(task, id, message) in log
  }

  /** A grant is for a message that its task showed and the user approved. */
  ghost predicate GrantSound(digest: seq<byte> -> string, before: seq<Event>, g: Event)
    requires g.Grant?
  {
    g.a.operation == SignPending
    && exists message :: ApprovedBy(before, g.task, g.a.requestId, message) && digest(message) == g.a.messageDigest
  }

  /** A signature is over the message its task got approved, and uses up a matching grant. */
  ghost predicate SignatureSound(digest: seq<byte> -> string, before: seq<Event>, s: Event)
    requires s.Signature?
  {
    && ApprovedBy(before, s.task, s.id, s.message)
    && exists a :: Standing(before, a) && Matches(a, SignPending, s.id, digest(s.message))
  }

  ghost predicate LogSound(digest: seq<byte> -> string, log: seq<Event>) {
    forall i :: 0 <= i < |log| ==>
      && (log[i].Grant? ==> GrantSound(digest, log[..i], log[i]))
      && (log[i].Signature? ==> SignatureSound(digest, log[..i], log[i]))
  }

  /** One task signs at most once, and only while it is known. */
  ghost predicate SignedOnce(f: Frame) {
    && (forall k :: k in f.tasks ==> k < f.next)
    && (forall i :: 0 <= i < |f.log| && f.log[i].Signature? ==>
          f.log[i].task < f.next && (f.log[i].task in f.tasks ==> f.tasks[f.log[i].task].phase == Spent))
    && (forall i, j :: 0 <= i < j < |f.log| && f.log[i].Signature? && f.log[j].Signature? ==> f.log[i].task != f.log[j].task)
  }

  ghost predicate TasksApproved(f: Frame) {
    forall k :: k in f.tasks && f.tasks[k].phase != Waiting ==>
      ApprovedBy(f.log, k, f.tasks[k].id, f.tasks[k].frozen)
  }

  ghost predicate AuthorizationStands(f: Frame) {
    forall a :: f.signer.authorization == Some(a) <==> Standing(f.log, a)
  }

  ghost predicate Sound(digest: seq<byte> -> string, f: Frame) {
    LogSound(digest, f.log) && SignedOnce(f) && TasksApproved(f) && AuthorizationStands(f)
  }

  lemma {:induction false} LogGrows(digest: seq<byte> -> string, log: seq<Event>, e: Event)
    requires LogSound(digest, log)
    requires e.Grant? ==> GrantSound(digest, log, e)
    requires e.Signature? ==> SignatureSound(digest, log, e)
    ensures LogSound(digest, log + [e])
  {
    hide GrantSound, SignatureSound;
    forall i | 0 <= i < |log + [e]|
      ensures (log + [e])[..i] == if i < |log| then log[..i] else log
    {
    }
  }

  /** What an event does to the standing grant: an approval nothing, a grant replaces it, the rest end it. */
  lemma {:induction false} StandingAfter(log: seq<Event>, e: Event, a: Authorization)
    ensures Standing(log + [e], a) <==> if e.Approval? then Standing(log, a) else e.Grant? && e.a == a
  {
    var more := log + [e];
    if e.Approval? && Standing(log, a) {
      var j :| Stands(log, j) && log[j].a == a;
      assert Stands(more, j);
    }
    if Standing(more, a) {
      var j :| Stands(more, j) && more[j].a == a;
      if j < |log| {
        assert !TouchesGrant(more[|log|]);
        assert forall k :: j < k < |log| ==> more[k] == log[k];
        assert Stands(log, j);
      }
    }
    if e.Grant? {
      assert Stands(more, |log|);
    }
  }

  lemma {:induction false} AuthorizationAfter(f: Frame, g: Frame, e: Event)
    requires AuthorizationStands(f) && g.log == f.log + [e]
    requires g.signer.authorization == if e.Approval? then f.signer.authorization else if e.Grant? then Some(e.a) else None
    ensures AuthorizationStands(g)
  {
    hide Standing;
    forall a
      ensures g.signer.authorization == Some(a) <==> Standing(g.log, a)
    {
      StandingAfter(f.log, e, a);
    }
  }

  lemma {:induction false} NextIsSound(f: Frame, digest: seq<byte> -> string, step: Step)
    requires Sound(digest, f)
    ensures Sound(digest, Next(f, digest, step))
  {
    hide Next, LogSound, SignedOnce, TasksApproved, AuthorizationStands;
    NextKeepsTasks(f, digest, step);
    NextKeepsLog(f, digest, step);
  }

  lemma {:induction false} NextKeepsTasks(f: Frame, digest: seq<byte> -> string, step: Step)
    requires SignedOnce(f) && TasksApproved(f)
    ensures SignedOnce(Next(f, digest, step)) && TasksApproved(Next(f, digest, step))
  {
    hide Remember, Accepts;
    var g := Next(f, digest, step);
    assert forall x :: x in f.log ==> x in g.log;
  }

  lemma {:induction false} NextKeepsLog(f: Frame, digest: seq<byte> -> string, step: Step)
    requires LogSound(digest, f.log) && TasksApproved(f) && AuthorizationStands(f)
    ensures LogSound(digest, Next(f, digest, step).log) && AuthorizationStands(Next(f, digest, step))
  {
    hide LogSound, Remember, Accepts, SignatureSound, GrantSound, AuthorizationStands;
    var g := Next(f, digest, step);
    if g.log == f.log {
      assert g.signer.authorization == f.signer.authorization by {
        if step.Receive? { RememberKeepsTheRest(f.signer, step.id); }
      }
      SameStands(f, g);
    } else {
      var e := g.log[|f.log|];
      assert g.log == f.log + [e];
      AuthorizationAfter(f, g, e);
      if step.Bind? {
        GrantIsSound(digest, f.log, e, f.tasks[step.task].frozen);
      } else if e.Signature? {
        StandingGrant(f);
        SignatureIsSound(digest, f.log, e, f.signer.authorization.value);
      }
      LogGrows(digest, f.log, e);
    }
  }

  lemma {:induction false} SameStands(f: Frame, g: Frame)
    requires AuthorizationStands(f) && g.log == f.log && g.signer.authorization == f.signer.authorization
    ensures AuthorizationStands(g)
  {
  }

  lemma {:induction false} StandingGrant(f: Frame)
    requires AuthorizationStands(f) && f.signer.authorization.Some?
    ensures Standing(f.log, f.signer.authorization.value)
  {
  }

  lemma {:induction false} GrantIsSound(digest: seq<byte> -> string, before: seq<Event>, g: Event, message: seq<byte>)
    requires g.Grant? && g.a.operation == SignPending
    requires ApprovedBy(before, g.task, g.a.requestId, message) && digest(message) == g.a.messageDigest
    ensures GrantSound(digest, before, g)
  {
  }

  lemma {:induction false} SignatureIsSound(
      digest: seq<byte> -> string, before: seq<Event>, s: Event, a: Authorization)
    requires s.Signature? && ApprovedBy(before, s.task, s.id, s.message)
    requires Standing(before, a) && Matches(a, SignPending, s.id, digest(s.message))
    ensures SignatureSound(digest, before, s)
  {
  }

  lemma {:induction false} FreshIsSound(digest: seq<byte> -> string)
    ensures Sound(digest, FRESH_FRAME) && Exclusive(digest, FRESH_FRAME)
  {
  }

  lemma {:induction false} RememberKeepsTheRest(s: Signer, id: string)
    ensures var t := Remember(s, id);
            t.state == s.state && t.activeRequestId == s.activeRequestId && t.authorization == s.authorization
  {
  }

  lemma {:induction false} RunsAreSound(digest: seq<byte> -> string, steps: seq<Step>)
    ensures Sound(digest, After(digest, steps))
  {
    hide Sound, Next;
    if steps == [] {
      FreshIsSound(digest);
    } else {
      RunsAreSound(digest, steps[..|steps| - 1]);
      NextIsSound(After(digest, steps[..|steps| - 1]), digest, steps[|steps| - 1]);
    }
  }

  /**
   * In every run, outer failures and reused ids included, a signature uses up its own grant for the
   * same request and digest, the grant's task had that digest approved, and the signed message itself
   * was approved in the signing task. No task signs twice.
   */
  lemma {:induction false} SignedWasApproved(digest: seq<byte> -> string, steps: seq<Step>, i: nat)
      returns (j: nat, message: seq<byte>)
    requires i < |After(digest, steps).log| && After(digest, steps).log[i].Signature?
    ensures var log := After(digest, steps).log;
            && j < i && log[j].Grant? && Matches(log[j].a, SignPending, log[i].id, digest(log[i].message))
            && (forall k :: j < k < i ==> log[k].Approval?)
            && Approval(log[j].task, log[i].id, message) in log[..j] && digest(message) == digest(log[i].message)
            && Approval(log[i].task, log[i].id, log[i].message) in log[..i]
            && (forall k :: 0 <= k < |log| && k != i && log[k].Signature? ==> log[k].task != log[i].task)
  {
    hide After;
    RunsAreSound(digest, steps);
    var log := After(digest, steps).log;
    var s := log[i];
    assert SignatureSound(digest, log[..i], s);
    var a :| Standing(log[..i], a) && Matches(a, SignPending, s.id, digest(s.message));
    var at :| Stands(log[..i], at) && log[..i][at].a == a;
    j := at;
    assert forall k :: j < k < i ==> log[..i][k] == log[k];
    assert GrantSound(digest, log[..j], log[j]);
    message :| ApprovedBy(log[..j], log[j].task, log[j].a.requestId, message) && digest(message) == log[j].a.messageDigest;
  }

  /**
   * In every run, a task that is ready to sign signs iff the latest thing to touch the authorization,
   * a signature, a denial and the end of an operation included, is a grant for its request and digest.
   */
  lemma {:induction false} SignsIffGrantStands(digest: seq<byte> -> string, steps: seq<Step>, k: nat)
    requires At(After(digest, steps), k, Authorized)
    ensures var f := After(digest, steps);
            var t := f.tasks[k];
            var signed := After(digest, steps + [Sign(k)]).log == f.log + [Signature(k, t.id, t.frozen)];
            && (signed <==> exists j :: Stands(f.log, j) && Matches(f.log[j].a, SignPending, t.id, digest(t.frozen)))
            && (!signed <==> After(digest, steps + [Sign(k)]).log == f.log + [Denial(k)])
  {
    hide After, LogSound, SignedOnce, TasksApproved;
    RunsAreSound(digest, steps);
    AfterStep(digest, steps, Sign(k));
    var f := After(digest, steps);
    var g := After(digest, steps + [Sign(k)]);
    assert g.log[|f.log|] == if g.log[|f.log|].Signature? then Signature(k, f.tasks[k].id, f.tasks[k].frozen) else Denial(k);
    if f.signer.authorization.Some? {
      assert Standing(f.log, f.signer.authorization.value);
    }
    forall j | Stands(f.log, j)
      ensures f.signer.authorization == Some(f.log[j].a)
    {
      assert Standing(f.log, f.log[j].a);
    }
  }

  // ---------------------------------------------------------------- one operation at a time

  /** A report that throws throws again: it is the same message to the same window. */
  predicate Steady(steps: seq<Step>) {
    forall i :: 0 <= i < |steps| && steps[i].Receive? && steps[i].report.again ==> steps[i].report.first
  }

  /** The state names the one pending task, and the authorization is its own. */
  ghost predicate Exclusive(digest: seq<byte> -> string, f: Frame) {
    && (f.tasks == map[] <==> f.signer.state == Idle)
    && (f.tasks == map[] ==> f.signer.activeRequestId == None)
    && (forall j, k :: j in f.tasks && k in f.tasks ==> j == k)
    && (forall k :: k in f.tasks ==>
          f.signer.state == f.tasks[k].op && f.signer.activeRequestId == Some(f.tasks[k].id))
    && (forall k :: k in f.tasks && f.tasks[k].phase == Authorized ==>
          f.signer.authorization.Some?
          && Matches(f.signer.authorization.value, SignPending, f.tasks[k].id, digest(f.tasks[k].frozen)))
    && (f.signer.authorization.Some? ==> exists k :: At(f, k, Authorized))
    && (forall i :: 0 <= i < |f.log| ==> !f.log[i].Denial?)
    && (true in f.rejected ==> f.tasks == map[])
  }

  lemma {:induction false} NextIsExclusive(f: Frame, digest: seq<byte> -> string, step: Step)
    requires Exclusive(digest, f) && Steady([step])
    ensures Exclusive(digest, Next(f, digest, step))
  {
    hide Remember, Accepts;
    var g := Next(f, digest, step);
    assert [step][0] == step;
    match step
    case Receive(op, id, timestamp, now, message, report) =>
      RememberKeepsTheRest(f.signer, id);
      if f.signer.state == Idle {
        assert f.signer.authorization.None?;
        assert g == f || (g.tasks == map[f.next := Task(op, id, message, Waiting)] && f.next in g.tasks);
      } else {
        assert g.tasks == f.tasks;
        assert forall k :: At(f, k, Authorized) ==> At(g, k, Authorized);
      }
    case Approve(k) =>
      if At(f, k, Waiting) { assert k in g.tasks; }
    case Bind(k, wallet, createdAt) =>
      if At(f, k, Confirmed) { assert At(g, k, Authorized); }
    case Sign(k) =>
      if At(f, k, Authorized) { assert k in g.tasks; }
    case Finish(k, rejects, again) =>
      if k in f.tasks {
        assert g.tasks == map[] by {
          assert forall j :: j in f.tasks ==> j == k;
        }
      }
    case LastResort =>
      if f.rejected != [] {
        assert f.rejected == [f.rejected[0]] + f.rejected[1..];
        assert forall k :: At(f, k, Authorized) ==> At(g, k, Authorized) || g.signer.authorization.None?;
      }
  }

  /**
   * As long as a report that throws throws again, in every run at most one request is pending, the
   * authorization belongs to it, and the check before signing never denies.
   */
  lemma {:induction false} SteadyRunsAreExclusive(digest: seq<byte> -> string, steps: seq<Step>)
    requires Steady(steps)
    ensures Exclusive(digest, After(digest, steps))
  {
    hide Exclusive, Next;
    if steps == [] {
      FreshIsSound(digest);
    } else {
      SteadyRunsAreExclusive(digest, steps[..|steps| - 1]);
      NextIsExclusive(After(digest, steps[..|steps| - 1]), digest, steps[|steps| - 1]);
    }
  }

  /** With nothing pending, a fresh request that is approved is signed, whatever went before. */
  lemma {:induction false} ApprovedRequestIsSigned(digest: seq<byte> -> string, steps: seq<Step>, r: Step,
                                                   wallet: seq<byte>, createdAt: int)
    requires Steady(steps) && r.Receive? && r.op == SignPending
    requires var f := After(digest, steps);
             f.tasks == map[] && f.rejected == [] && Accepts(f.signer, r.id, r.timestamp, r.now)
    ensures var f := After(digest, steps);
            var k := f.next;
            var g := After(digest, steps + [r] + [Approve(k)] + [Bind(k, wallet, createdAt)] + [Sign(k)]);
            var grant := Authorization(SignPending, r.id, wallet, digest(r.message), createdAt);
            && g.log == f.log + [Approval(k, r.id, r.message)] + [Grant(k, grant)] + [Signature(k, r.id, r.message)]
            && g.signer.authorization == None
            && After(digest, steps + [r] + [Approve(k)] + [Bind(k, wallet, createdAt)] + [Sign(k)]
                             + [Finish(k, false, false)]).signer.state == Idle
  {
    hide After, Accepts;
    SteadyRunsAreExclusive(digest, steps);
    var f := After(digest, steps);
    var k := f.next;
    var s1 := steps + [r];
    var s2 := s1 + [Approve(k)];
    var s3 := s2 + [Bind(k, wallet, createdAt)];
    var s4 := s3 + [Sign(k)];
    AfterStep(digest, steps, r);
    AfterStep(digest, s1, Approve(k));
    AfterStep(digest, s2, Bind(k, wallet, createdAt));
    AfterStep(digest, s3, Sign(k));
    AfterStep(digest, s4, Finish(k, false, false));
    RememberKeepsTheRest(f.signer, r.id);
    hide Remember;
    assert After(digest, s1).tasks == map[k := Task(SignPending, r.id, r.message, Waiting)];
    assert At(After(digest, s2), k, Confirmed) && At(After(digest, s3), k, Authorized);
  }

  /** The active operation, its request and its authorization. */
  ghost predicate SameOperation(f: Frame, g: Frame) {
    && g.signer.state == f.signer.state
    && g.signer.activeRequestId == f.signer.activeRequestId
    && g.signer.authorization == f.signer.authorization
  }

  /**
   * In every run, a request that comes while another is pending touches no task and begins nothing.
   * Once its handler of last resort has run too, the active operation is disturbed iff the request
   * was fresh and its refusal could not be posted and then could.
   */
  lemma {:induction false} BusyIsUndisturbed(digest: seq<byte> -> string, steps: seq<Step>, r: Step)
    requires r.Receive? && r.op != Idle
    requires var f := After(digest, steps);
             f.signer.state != Idle && f.rejected == []
    ensures var f, g, h := After(digest, steps), After(digest, steps + [r]), After(digest, steps + [r] + [LastResort]);
            && g.tasks == h.tasks == f.tasks && g.log == f.log && SameOperation(f, g)
            && (SameOperation(f, h) <==> !(Accepts(f.signer, r.id, r.timestamp, r.now) && !r.report.first && r.report.again))
  {
    hide Remember, Accepts;
    AfterStep(digest, steps, r);
    AfterStep(digest, steps + [r], LastResort);
    RememberKeepsTheRest(After(digest, steps).signer, r.id);
  }

  /**
   * What that can cost: a second request, refused while the first is about to sign, whose refusal is
   * posted only at the second attempt. The first is then denied its signature.
   */
  lemma {:induction false} UnsteadyReportDenies(digest: seq<byte> -> string, a: string, b: string, message: seq<byte>)
    requires a != b
    ensures var steps := [Receive(SignPending, a, 0, 0, message, Report(true, true)), Approve(0), Bind(0, [], 0)]
                         + [Receive(SignPending, b, 0, 0, message, Report(false, true)), LastResort, Sign(0)];
            Denial(0) in After(digest, steps).log
  {
    hide After;
    var r1 := Receive(SignPending, a, 0, 0, message, Report(true, true));
    var r2 := Receive(SignPending, b, 0, 0, message, Report(false, true));
    var granted := [r1, Approve(0), Bind(0, [], 0)];
    GrantedFirst(digest, a, message);
    AfterStep(digest, granted, r2);
    AfterStep(digest, granted + [r2], LastResort);
    AfterStep(digest, granted + [r2] + [LastResort], Sign(0));
    var f4 := After(digest, granted + [r2]);
    assert At(f4, 0, Authorized) && f4.rejected == [true];
    var f5 := After(digest, granted + [r2] + [LastResort]);
    assert At(f5, 0, Authorized) && f5.signer.authorization == None;
    assert granted + [r2] + [LastResort] + [Sign(0)] == granted + [r2, LastResort, Sign(0)];
    assert After(digest, granted + [r2] + [LastResort] + [Sign(0)]).log[|f5.log|] == Denial(0);
  }

  lemma {:induction false} GrantedFirst(digest: seq<byte> -> string, a: string, message: seq<byte>)
    ensures var f := After(digest, [Receive(SignPending, a, 0, 0, message, Report(true, true)), Approve(0), Bind(0, [], 0)]);
            At(f, 0, Authorized) && f.signer.seen == {a} && f.signer.state == SignPending && f.rejected == []
  {
    hide After;
    var r1 := Receive(SignPending, a, 0, 0, message, Report(true, true));
    assert [] + [r1] == [r1] && [r1] + [Approve(0)] == [r1, Approve(0)];
    assert [r1, Approve(0)] + [Bind(0, [], 0)] == [r1, Approve(0), Bind(0, [], 0)];
    Unstarted(digest);
    AfterStep(digest, [], r1);
    AfterStep(digest, [r1], Approve(0));
    AfterStep(digest, [r1, Approve(0)], Bind(0, [], 0));
    var f1 := After(digest, [r1]);
    assert f1.tasks == map[0 := Task(SignPending, a, message, Waiting)] && f1.signer.seen == {a};
  }

  lemma {:induction false} Unstarted(digest: seq<byte> -> string)
    ensures After(digest, []) == FRESH_FRAME
  {
  }

  lemma {:induction false} AfterStep(digest: seq<byte> -> string, steps: seq<Step>, step: Step)
    ensures After(digest, steps + [step]) == Next(After(digest, steps), digest, step)
  {
    assert (steps + [step])[..|steps|] == steps;
  }
}
