/**
 Method calls on devices (hald/hald_dbus.c:3972-4198): one helper at a time per device, the others wait
 in a queue per UDI. A helper that cannot be started reports back before the call that starts it returns,
 so draining a queue is a mutual recursion.
 */
module MethodQueue {
  import Lists

  type Id = nat
  type Udi = string

  const SUCCESS: nat := 0
  const FAILED: nat := 2

  /** How a helper ended: exit type, return code and the lines it wrote to standard error. */
  datatype Outcome = Outcome(kind: nat, code: int, errors: seq<string>)

  datatype Answer = Return(code: int) | Exception(name: string, detail: string) | UnknownError | NoSuchDevice

  /** What is outside: which helpers fail to start, and which strings are valid interface names. */
  datatype Env = Env(fails: Id -> bool, valid: string -> bool)

  datatype Sent = Sent(id: Id, answer: Answer)

  /**
   A request is known by its position in `arrived`; `started` and `log` are histories. `fault` tells that a freed string
   was read; what the program does from then on is not defined.
   */
  datatype State = State(queues: map<Udi, seq<Id>>, running: set<Id>, devices: set<Udi>,
                         arrived: seq<Udi>, started: seq<Id>, log: seq<Sent>, fault: bool)

  /** Nothing queued; `devices` are in the stores. */
  function Idle(devices: set<Udi>): State {
    State(map[], {}, devices, [], [], [], false)
  }

  const UNKNOWN: string := "org.freedesktop.Hal.Device.UnknownError"

  /** The reply of `hald_exec_method_cb`. */
  function AnswerOf(o: Outcome, valid: string -> bool): Answer {
    if o.kind != SUCCESS then UnknownError
    else if |o.errors| >= 2 then
      if valid(o.errors[0]) then Exception(o.errors[0], o.errors[1])
      else Exception(UNKNOWN, o.errors[0] + " \n " + o.errors[1])
    else Return(o.code)
  }

  /**
   What a caller is told: that something went wrong, the helper's return code, or the exception the helper wrote
   to standard error, under a name that D-Bus accepts.
   */
  ghost predicate IsAnswerTo(o: Outcome, valid: string -> bool, a: Answer) {
    && (o.kind != 0 ==> a == UnknownError)
    && (o.kind == 0 && |o.errors| < 2 ==> a == Return(o.code))
    && (o.kind == 0 && |o.errors| >= 2 && valid(o.errors[0]) ==> a == Exception(o.errors[0], o.errors[1]))
    && (o.kind == 0 && |o.errors| >= 2 && !valid(o.errors[0]) ==>
          a == Exception("org.freedesktop.Hal.Device.UnknownError", o.errors[0] + " \n " + o.errors[1]))
  }

  lemma AnswersAreRight(o: Outcome, valid: string -> bool)
    ensures IsAnswerTo(o, valid, AnswerOf(o, valid))
  {
  }

  function QueueLen(s: State, u: Udi): nat {
    if u in s.queues then |s.queues[u]| else 0
  }

  // The code.

  /** `hald_exec_method_do_invocation` together with `hald_runner_run_method`. */
  function DoInvocation(s: State, u: Udi, id: Id, env: Env): (r: (bool, State))
    ensures !r.0 ==> r.1.queues == s.queues
    ensures QueueLen(r.1, u) <= QueueLen(s, u)
    decreases QueueLen(s, u), 2
  {
    if u in s.devices then
      var s1 := s.(started := s.started + [id]);
      (true, if env.fails(id) then Callback(s1, u, id, Outcome(FAILED, 0, []), env) else s1.(running := s1.running + {id}))
    else (false, s.(log := s.log + [Sent(id, NoSuchDevice)]))
  }

  /** `hald_exec_method_cb`: first the rest of the queue, then the reply. */
  function Callback(s: State, u: Udi, id: Id, o: Outcome, env: Env): (r: State)
    ensures QueueLen(r, u) <= QueueLen(s, u)
    decreases QueueLen(s, u), 1
  {
    var s1 := ProcessQueue(s, u, env, false);
    s1.(log := s1.log + [Sent(id, AnswerOf(o, env.valid))])
  }

  /**
   `hald_exec_method_process_queue`. In the recursive call the argument is the string of the invocation at the head
   (`borrowed`), which the call frees before it reads the argument again.
   */
  function ProcessQueue(s: State, u: Udi, env: Env, borrowed: bool): (r: State)
    ensures QueueLen(r, u) <= QueueLen(s, u)
    decreases QueueLen(s, u), 0
  {
    if u !in s.queues || s.queues[u] == [] then s
    else
      var rest := s.queues[u][1..];
      if rest == [] then s.(queues := s.queues - {u})
      else if borrowed then s.(fault := true)
      else
        var s1 := s.(queues := s.queues[u := rest]);
        var (ok, s2) := DoInvocation(s1, u, rest[0], env);
        if ok then s2 else ProcessQueue(s2, u, env, true)
  }

  /** `hald_exec_method_enqueue`: the answer of `DoInvocation` is not looked at. */
  function Enqueue(s: State, u: Udi, env: Env): State {
    var id := |s.arrived|;
    var s1 := s.(arrived := s.arrived + [u]);
    if u in s.queues then s1.(queues := s1.queues[u := s1.queues[u] + [id]])
    else DoInvocation(s1.(queues := s1.queues[u := [id]]), u, id, env).1
  }

  // What draining amounts to.

  /** The length of the longest prefix of helpers that cannot be started. */
  function FailPrefix(q: seq<Id>, env: Env): (k: nat)
    ensures k <= |q| && (forall i :: 0 <= i < k ==> env.fails(q[i])) && (k < |q| ==> !env.fails(q[k]))
  {
    if q == [] || !env.fails(q[0]) then 0 else 1 + FailPrefix(q[1..], env)
  }

  /** The failed starts are reported innermost first. */
  function FailedReplies(q: seq<Id>): seq<Sent> {
    if q == [] then [] else FailedReplies(q[1..]) + [Sent(q[0], UnknownError)]
  }

  /** The one call, if any, that waits for a device that is gone. */
  function GoneReplies(q: seq<Id>): seq<Sent> {
    if q == [] then [] else [Sent(q[0], NoSuchDevice)]
  }

  function SetQueue(queues: map<Udi, seq<Id>>, u: Udi, q: seq<Id>): map<Udi, seq<Id>> {
    if q == [] then queues - {u} else queues[u := q]
  }

  /** The waiting calls `q`, at once. */
  function Drained(s: State, u: Udi, q: seq<Id>, env: Env): State {
    if u in s.devices then
      var k := FailPrefix(q, env);
      s.(queues := SetQueue(s.queues, u, q[k..]),
         started := s.started + Begun(q, k),
         running := s.running + (if k < |q| then {q[k]} else {}),
         log := s.log + FailedReplies(q[..k]))
    else if |q| <= 1 then
      s.(queues := s.queues - {u}, log := s.log + GoneReplies(q))
    else
      s.(queues := s.queues[u := q], log := s.log + [Sent(q[0], NoSuchDevice)], fault := true)
  }

  lemma DrainGone(s: State, u: Udi, env: Env)
    requires u in s.queues && s.queues[u] != [] && u !in s.devices
    ensures ProcessQueue(s, u, env, false) == Drained(s, u, s.queues[u][1..], env)
  {
    var rest := s.queues[u][1..];
    if rest == [] {
      assert s.log + GoneReplies(rest) == s.log;
    } else {
      var s1 := s.(queues := s.queues[u := rest]);
      var s2 := s1.(log := s1.log + [Sent(rest[0], NoSuchDevice)]);
      assert DoInvocation(s1, u, rest[0], env) == (false, s2);
      assert ProcessQueue(s, u, env, false) == ProcessQueue(s2, u, env, true);
      assert s2.queues - {u} == s.queues - {u};
    }
  }

  /** The calls that have been started when `k` of them have failed. */
  function Begun(q: seq<Id>, k: nat): seq<Id> {
    if k < |q| then q[..k + 1] else q
  }

  lemma Slices(q: seq<Id>, k: nat)
    requires q != [] && k < |q|
    ensures q[k + 1..] == q[1..][k..] && q[..k + 1][1..] == q[1..][..k]
    ensures Begun(q, k + 1) == [q[0]] + Begun(q[1..], k)
  {
  }

  lemma FailPrefixStep(q: seq<Id>, env: Env)
    requires q != [] && env.fails(q[0])
    ensures var k := FailPrefix(q[1..], env);
            && FailPrefix(q, env) == k + 1
            && q[k + 1..] == q[1..][k..]
            && FailedReplies(q[..k + 1]) == FailedReplies(q[1..][..k]) + [Sent(q[0], UnknownError)]
            && Begun(q, k + 1) == [q[0]] + Begun(q[1..], k)
  {
    var k := FailPrefix(q[1..], env);
    Slices(q, k);
    hide Begun;
  }

  lemma {:induction false} DrainPresent(s: State, u: Udi, env: Env)
    requires u in s.queues && s.queues[u] != [] && u in s.devices
    ensures ProcessQueue(s, u, env, false) == Drained(s, u, s.queues[u][1..], env)
    decreases |s.queues[u]|
  {
    var rest := s.queues[u][1..];
    if rest == [] {
      assert s.log + FailedReplies(rest) == s.log && s.started + rest == s.started && s.running + {} == s.running;
    } else {
      var id := rest[0];
      var s1 := s.(queues := s.queues[u := rest]);
      var s2 := s1.(started := s1.started + [id]);
      if env.fails(id) {
        DrainPresent(s2, u, env);
        FailPrefixStep(rest, env);
        DrainStep(s, u, rest, s2, env);
        assert ProcessQueue(s, u, env, false) == Callback(s2, u, id, Outcome(FAILED, 0, []), env);
      } else {
        assert rest[0..] == rest && rest[..1] == [id];
        assert s.log + FailedReplies(rest[..0]) == s.log;
        assert ProcessQueue(s, u, env, false) == s2.(running := s2.running + {id});
      }
    }
  }

  lemma DrainStep(s: State, u: Udi, q: seq<Id>, s2: State, env: Env)
    requires q != [] && env.fails(q[0]) && u in s.devices
    requires s2 == s.(queues := s.queues[u := q], started := s.started + [q[0]])
    ensures var d := Drained(s2, u, q[1..], env);
            Drained(s, u, q, env) == d.(log := d.log + [Sent(q[0], UnknownError)])
  {
    hide FailPrefix, FailedReplies, Begun, SetQueue;
    FailPrefixStep(q, env);
    var k := FailPrefix(q[1..], env);
    SetTwice(s.queues, u, q, q[k + 1..]);
    Lists.Associate(s.log, FailedReplies(q[1..][..k]), [Sent(q[0], UnknownError)]);
    Lists.Associate(s.started, [q[0]], Begun(q[1..], k));
    assert k + 1 < |q| <==> k < |q[1..]|;
    assert k + 1 < |q| ==> q[k + 1] == q[1..][k];
  }

  lemma SetTwice(queues: map<Udi, seq<Id>>, u: Udi, p: seq<Id>, q: seq<Id>)
    ensures SetQueue(queues[u := p], u, q) == SetQueue(queues, u, q)
  {
  }

  /**
   The mutual recursion ends, and it does this: with the device there, the waiting calls are started in order up to the first
   that runs, the failed ones are answered innermost first; with the device gone, one waiting call is answered, and with two
   or more the second pass reads the key it has just freed.
   */
  lemma DrainIs(s: State, u: Udi, env: Env)
    ensures ProcessQueue(s, u, env, false)
            == if u in s.queues && s.queues[u] != [] then Drained(s, u, s.queues[u][1..], env) else s
  {
    hide ProcessQueue, Drained;
    if u in s.queues && s.queues[u] != [] {
      if u in s.devices {
        DrainPresent(s, u, env);
      } else {
        DrainGone(s, u, env);
      }
    } else {
      DrainNothing(s, u, env);
    }
  }

  lemma DrainNothing(s: State, u: Udi, env: Env)
    requires u !in s.queues || s.queues[u] == []
    ensures ProcessQueue(s, u, env, false) == s
  {
  }

  // What every event keeps.

  datatype Event =
    | Call(udi: Udi, env: Env)
    | Complete(id: Id, outcome: Outcome, env: Env)
    | Appear(udi: Udi)
    | Vanish(udi: Udi)

  /** A helper reports back while it runs; nothing is said about what follows a fault. */
  predicate Possible(s: State, e: Event) {
    !s.fault && (e.Complete? ==> e.id in s.running && e.id < |s.arrived|)
  }

  function Step(s: State, e: Event): State
    requires Possible(s, e)
  {
    match e
    case Call(u, env) => Enqueue(s, u, env)
    case Complete(id, o, env) => Callback(s.(running := s.running - {id}), s.arrived[id], id, o, env)
    case Appear(u) => s.(devices := s.devices + {u})
    case Vanish(u) => s.(devices := s.devices - {u})
  }

  ghost predicate Ascending(q: seq<Id>) {
    forall i, j :: 0 <= i < j < |q| ==> q[i] < q[j]
  }

  function Queue(s: State, u: Udi): seq<Id> {
    if u in s.queues then s.queues[u] else []
  }

  function Answers(log: seq<Sent>, id: Id): nat {
    if log == [] then 0 else Answers(log[..|log| - 1], id) + if log[|log| - 1].id == id then 1 else 0
  }

  /** The UDI of a request. */
  function Of(arrived: seq<Udi>, id: Id): Udi {
    if id < |arrived| then arrived[id] else ""
  }

  /** The requests for `u` that have not started. */
  function Rest(s: State, u: Udi): seq<Id> {
    if |Queue(s, u)| > 0 then Queue(s, u)[1..] else []
  }

  ghost predicate QueueOk(arrived: seq<Udi>, u: Udi, q: seq<Id>) {
    Ascending(q) && forall id :: id in q ==> id < |arrived| && arrived[id] == u
  }

  /** The queues hold requests for their own UDI, in order of arrival, and are never left empty. */
  ghost predicate QueuesOk(s: State) {
    && (forall u :: u in s.queues ==> s.queues[u] != [])
    && (forall u :: QueueOk(s.arrived, u, Queue(s, u)))
  }

  ghost predicate IsHead(s: State, id: Id) {
    var q := Queue(s, Of(s.arrived, id));
    id < |s.arrived| && q != [] && q[0] == id
  }

  /** What runs is the head of each queue. */
  ghost predicate RunningOk(s: State) {
    forall id :: id in s.running <==> IsHead(s, id)
  }

  /** A request has been answered once if it is no longer queued, and not at all before; `late` is about to be. */
  ghost predicate AnsweredOk(s: State, late: int) {
    && (forall id :: 0 <= id < |s.arrived| ==>
          Answers(s.log, id) == if id in Queue(s, Of(s.arrived, id)) || id == late then 0 else 1)
    && (forall a :: a in s.log ==> a.id < |s.arrived|)
  }

  /** Requests in `a` arrived before those in `b` for the same UDI. */
  ghost predicate Before(arrived: seq<Udi>, a: seq<Id>, b: seq<Id>) {
    forall x, y :: x in a && y in b && Of(arrived, x) == Of(arrived, y) ==> x < y
  }

  ghost predicate InOrder(arrived: seq<Udi>, l: seq<Id>) {
    forall i, j :: 0 <= i < j < |l| && Of(arrived, l[i]) == Of(arrived, l[j]) ==> l[i] < l[j]
  }

  /** Requests for one UDI start in order of arrival, and before those that still wait. */
  ghost predicate OrderOk(s: State) {
    && (forall x :: x in s.started ==> x < |s.arrived|)
    && InOrder(s.arrived, s.started)
    && (forall u :: Before(s.arrived, s.started, Rest(s, u)))
  }

  ghost predicate Inv(s: State) {
    !s.fault && QueuesOk(s) && RunningOk(s) && AnsweredOk(s, -1) && OrderOk(s)
  }

  /** In the middle of an event: `q` is still to be dealt with at `u`, where nothing runs. */
  ghost predicate Mid(s: State, u: Udi, q: seq<Id>, late: int) {
    && !s.fault && Drainable(s, u, q)
    && (forall v :: v in s.queues && v != u ==> s.queues[v] != [])
    && (forall v :: v != u ==> QueueOk(s.arrived, v, Queue(s, v)))
    && QueueOk(s.arrived, u, q)
    && (forall id :: id in s.running <==> Of(s.arrived, id) != u && IsHead(s, id))
    && (forall id :: 0 <= id < |s.arrived| ==>
          Answers(s.log, id) == if id in (if s.arrived[id] == u then q else Queue(s, s.arrived[id])) || id == late then 0 else 1)
    && (forall a :: a in s.log ==> a.id < |s.arrived|)
    && (forall x :: x in s.started ==> x < |s.arrived|)
    && InOrder(s.arrived, s.started)
    && (forall v :: v != u ==> Before(s.arrived, s.started, Rest(s, v)))
    && Before(s.arrived, s.started, q)
  }

  /** The calls `q` waiting for `u` can be dealt with without reading a freed key. */
  predicate Drainable(s: State, u: Udi, q: seq<Id>) {
    u in s.devices || |q| <= 1
  }

  /** How much of `q` is over with after draining. */
  function Done(s: State, u: Udi, q: seq<Id>, env: Env): (k: nat)
    ensures k <= |q|
  {
    if u in s.devices then FailPrefix(q, env) else |q|
  }

  lemma {:induction false} AnswersAppend(a: seq<Sent>, b: seq<Sent>, id: Id)
    ensures Answers(a + b, id) == Answers(a, id) + Answers(b, id)
  {
    if b == [] {
      assert a + b == a;
    } else {
      var n := |b| - 1;
      assert (a + b)[..|a + b| - 1] == a + b[..n];
      AnswersAppend(a, b[..n], id);
    }
  }

  lemma {:induction false} FailedOnce(q: seq<Id>, id: Id)
    requires Ascending(q)
    ensures Answers(FailedReplies(q), id) == if id in q then 1 else 0
    ensures forall a :: a in FailedReplies(q) ==> a.id in q
  {
    if q != [] {
      FailedOnce(q[1..], id);
      AnswersAppend(FailedReplies(q[1..]), [Sent(q[0], UnknownError)], id);
      assert q == [q[0]] + q[1..];
      assert q[0] !in q[1..];
      assert [Sent(q[0], UnknownError)][..0] == [];
    }
  }

  lemma GoneOnce(q: seq<Id>, id: Id)
    requires |q| <= 1
    ensures Answers(GoneReplies(q), id) == if id in q then 1 else 0
    ensures forall a :: a in GoneReplies(q) ==> a.id in q
  {
    if q != [] {
      assert GoneReplies(q)[..0] == [];
    }
  }

  /** Draining answers exactly the calls it is done with. */
  lemma DrainedAnswers(s: State, u: Udi, q: seq<Id>, env: Env, id: Id)
    requires Ascending(q) && Drainable(s, u, q)
    ensures Answers(Drained(s, u, q, env).log, id)
            == Answers(s.log, id) + if id in q[..Done(s, u, q, env)] then 1 else 0
    ensures forall a :: a in Drained(s, u, q, env).log ==> a in s.log || a.id in q
  {
    hide Answers, FailedReplies, GoneReplies;
    var k := Done(s, u, q, env);
    if u in s.devices {
      AnswersAppend(s.log, FailedReplies(q[..k]), id);
      FailedOnce(q[..k], id);
    } else {
      AnswersAppend(s.log, GoneReplies(q), id);
      GoneOnce(q, id);
      assert q[..k] == q;
    }
  }

  function BegunAt(s: State, u: Udi, q: seq<Id>, k: nat): seq<Id> {
    if u !in s.devices then [] else Begun(q, k)
  }

  /** The other parts of the state after draining. */
  lemma DrainedParts(s: State, u: Udi, q: seq<Id>, env: Env)
    requires Drainable(s, u, q)
    ensures var s', k := Drained(s, u, q, env), Done(s, u, q, env);
            && s'.arrived == s.arrived && s'.devices == s.devices && s'.fault == s.fault
            && s'.queues == SetQueue(s.queues, u, q[k..])
            && s'.running == s.running + (if k < |q| then {q[k]} else {})
            && s'.started == s.started + BegunAt(s, u, q, k)
            && (forall v :: Queue(s', v) == if v == u then q[k..] else Queue(s, v))
  {
    hide FailPrefix, FailedReplies, GoneReplies;
    var s', k := Drained(s, u, q, env), Done(s, u, q, env);
    assert k == |q| ==> q[k..] == [];
    assert u !in s.devices ==> s.running + {} == s.running && s.started + [] == s.started;
  }

  lemma DrainedQueues(s: State, u: Udi, q: seq<Id>, env: Env, late: int)
    requires Mid(s, u, q, late)
    ensures QueuesOk(Drained(s, u, q, env)) && RunningOk(Drained(s, u, q, env))
  {
    hide Drained, Done, Answers, InOrder, Before, Rest, QueueOk, IsHead;
    DrainedParts(s, u, q, env);
    var s', k := Drained(s, u, q, env), Done(s, u, q, env);
    SuffixOk(s.arrived, u, q, k);
    forall id
      ensures id in s'.running <==> IsHead(s', id)
    {
      DrainedHead(s, u, q, k, s', id);
    }
  }

  lemma DrainedHead(s: State, u: Udi, q: seq<Id>, k: nat, s': State, id: Id)
    requires QueueOk(s.arrived, u, q) && k <= |q| && s'.arrived == s.arrived
    requires id in s.running <==> Of(s.arrived, id) != u && IsHead(s, id)
    requires forall v :: Queue(s', v) == if v == u then q[k..] else Queue(s, v)
    requires s'.running == s.running + (if k < |q| then {q[k]} else {})
    ensures id in s'.running <==> IsHead(s', id)
  {
    assert k < |q| ==> q[k..][0] == q[k] && q[k] in q;
  }

  lemma DrainedAnswered(s: State, u: Udi, q: seq<Id>, env: Env, late: int)
    requires Mid(s, u, q, late) && late !in q
    ensures AnsweredOk(Drained(s, u, q, env), late)
  {
    hide Drained, Done, Answers, InOrder, Before, Rest;
    DrainedParts(s, u, q, env);
    var s', k := Drained(s, u, q, env), Done(s, u, q, env);
    forall id | 0 <= id < |s'.arrived|
      ensures Answers(s'.log, id) == if id in Queue(s', Of(s'.arrived, id)) || id == late then 0 else 1
    {
      DrainedAnswers(s, u, q, env, id);
      SplitMembers(q, k, id);
      assert s.arrived[id] == Of(s.arrived, id);
    }
    DrainedAnswers(s, u, q, env, 0);
  }

  lemma SplitMembers(q: seq<Id>, k: nat, id: Id)
    requires k <= |q| && Ascending(q)
    ensures id in q <==> id in q[..k] || id in q[k..]
    ensures !(id in q[..k] && id in q[k..])
  {
    assert q == q[..k] + q[k..];
  }

  lemma SuffixOk(arrived: seq<Udi>, u: Udi, q: seq<Id>, k: nat)
    requires QueueOk(arrived, u, q) && k <= |q|
    ensures QueueOk(arrived, u, q[k..])
  {
    assert forall id :: id in q[k..] ==> id in q;
  }

  lemma DrainedOrder(s: State, u: Udi, q: seq<Id>, env: Env, late: int)
    requires Mid(s, u, q, late)
    ensures OrderOk(Drained(s, u, q, env))
  {
    DrainedParts(s, u, q, env);
    var s', k := Drained(s, u, q, env), Done(s, u, q, env);
    hide Drained, Done, Answers, Before, InOrder, IsHead;
    StartedInOrder(s, u, q, k, s');
    forall v
      ensures Before(s'.arrived, s'.started, Rest(s', v))
    {
      if v == u {
        assert Rest(s', u) == if k < |q| then q[k..][1..] else [];
        StartedBeforeRest(s.arrived, s.started, q, k, BegunAt(s, u, q, k), Rest(s', u));
      } else {
        assert Rest(s', v) == Rest(s, v);
        OthersWait(s, u, v, q, k);
      }
    }
  }

  lemma StartedInOrder(s: State, u: Udi, q: seq<Id>, k: nat, s': State)
    requires QueueOk(s.arrived, u, q) && Before(s.arrived, s.started, q) && InOrder(s.arrived, s.started) && k <= |q|
    requires forall x :: x in s.started ==> x < |s.arrived|
    requires s'.arrived == s.arrived && s'.started == s.started + BegunAt(s, u, q, k)
    ensures InOrder(s'.arrived, s'.started) && forall x :: x in s'.started ==> x < |s'.arrived|
  {
    hide Before, InOrder;
    var more := BegunAt(s, u, q, k);
    assert forall x :: x in more ==> x in q;
    BeforeShrinks(s.arrived, s.started, q, more);
    OrderExtends(s.arrived, s.started, more);
  }

  lemma OthersWait(s: State, u: Udi, v: Udi, q: seq<Id>, k: nat)
    requires u != v && k <= |q| && QueueOk(s.arrived, u, q) && QueueOk(s.arrived, v, Queue(s, v))
    requires Before(s.arrived, s.started, Rest(s, v))
    ensures Before(s.arrived, s.started + BegunAt(s, u, q, k), Rest(s, v))
  {
    hide Before;
    var more := BegunAt(s, u, q, k);
    assert forall x :: x in more ==> x in q;
    assert forall y :: y in Rest(s, v) ==> y in Queue(s, v);
    OthersApart(s.arrived, u, v, s.started, more, Rest(s, v));
  }

  lemma BeforeShrinks(arrived: seq<Udi>, a: seq<Id>, b: seq<Id>, c: seq<Id>)
    requires Before(arrived, a, b) && forall x :: x in c ==> x in b
    ensures Before(arrived, a, c)
  {
  }

  lemma OthersApart(arrived: seq<Udi>, u: Udi, v: Udi, a: seq<Id>, more: seq<Id>, rest: seq<Id>)
    requires Before(arrived, a, rest) && u != v
    requires (forall x :: x in more ==> Of(arrived, x) == u) && (forall x :: x in rest ==> Of(arrived, x) == v)
    ensures Before(arrived, a + more, rest)
  {
  }

  lemma StartedBeforeRest(arrived: seq<Udi>, a: seq<Id>, q: seq<Id>, k: nat, more: seq<Id>, rest: seq<Id>)
    requires Before(arrived, a, q) && Ascending(q) && k <= |q|
    requires more == [] || (if k < |q| then more == q[..k + 1] else more == q)
    requires rest == if k < |q| then q[k..][1..] else []
    ensures Before(arrived, a + more, rest)
  {
    if k < |q| {
      assert rest == q[k + 1..];
      forall x, y | x in more && y in rest
        ensures x < y
      {
        var i :| 0 <= i < |more| && more[i] == x;
        var j :| 0 <= j < |rest| && rest[j] == y;
        assert q[i] == x && q[k + 1 + j] == y;
      }
      assert forall y :: y in rest ==> y in q;
    }
  }

  lemma OrderExtends(arrived: seq<Udi>, a: seq<Id>, b: seq<Id>)
    requires InOrder(arrived, a) && Before(arrived, a, b) && Ascending(b)
    ensures InOrder(arrived, a + b)
  {
    forall i, j | 0 <= i < j < |a + b| && Of(arrived, (a + b)[i]) == Of(arrived, (a + b)[j])
      ensures (a + b)[i] < (a + b)[j]
    {
      if i < |a| <= j {
        assert a[i] in a && b[j - |a|] in b;
      }
    }
  }

  /** Finishing an event from the middle. */
  lemma DrainedInv(s: State, u: Udi, q: seq<Id>, env: Env)
    requires Mid(s, u, q, -1)
    ensures Inv(Drained(s, u, q, env))
  {
    DrainedParts(s, u, q, env);
    hide Mid, Drained, QueuesOk, RunningOk, AnsweredOk, OrderOk;
    DrainedQueues(s, u, q, env, -1);
    DrainedAnswered(s, u, q, env, -1);
    DrainedOrder(s, u, q, env, -1);
  }

  /** A helper that reports back leaves the middle of an event behind. */
  lemma CompleteMid(s: State, id: Id)
    requires Inv(s) && id in s.running && id < |s.arrived|
    ensures var u := s.arrived[id];
            && u in s.queues && s.queues[u] != [] && s.queues[u][0] == id
            && id !in s.queues[u][1..] && Rest(s, u) == s.queues[u][1..]
            && (Drainable(s, u, Rest(s, u)) ==> Mid(s.(running := s.running - {id}), u, s.queues[u][1..], id))
  {
    hide Answers, InOrder, Before;
    assert IsHead(s, id);
    var u := s.arrived[id];
    var q := s.queues[u];
    assert Queue(s, u) == q;
    SuffixOk(s.arrived, u, q, 1);
    var s' := s.(running := s.running - {id});
    assert forall x :: x in q <==> x == id || x in q[1..];
    forall x
      ensures x in s'.running <==> Of(s'.arrived, x) != u && IsHead(s', x)
    {
      assert x in s.running <==> IsHead(s, x);
    }
    forall v
      ensures Queue(s', v) == Queue(s, v) && Rest(s', v) == Rest(s, v)
    {
    }
    assert Rest(s, u) == q[1..];
  }

  lemma AnswerLate(s: State, a: Sent)
    requires !s.fault && QueuesOk(s) && RunningOk(s) && OrderOk(s) && AnsweredOk(s, a.id) && a.id < |s.arrived|
    requires a.id !in Queue(s, Of(s.arrived, a.id))
    ensures Inv(s.(log := s.log + [a]))
  {
    var s' := s.(log := s.log + [a]);
    assert forall v :: Queue(s', v) == Queue(s, v) && Rest(s', v) == Rest(s, v);
    assert forall id :: IsHead(s', id) <==> IsHead(s, id);
    forall id | 0 <= id < |s'.arrived|
      ensures Answers(s'.log, id) == if id in Queue(s', Of(s'.arrived, id)) then 0 else 1
    {
      assert (s.log + [a])[..|s.log|] == s.log;
    }
  }

  /** A completion is the drain of what waits, and then the answer. */
  lemma CompleteIs(s: State, id: Id, o: Outcome, env: Env)
    requires Inv(s) && id in s.running && id < |s.arrived|
    ensures var d := Drained(s.(running := s.running - {id}), s.arrived[id], Rest(s, s.arrived[id]), env);
            Step(s, Complete(id, o, env)) == d.(log := d.log + [Sent(id, AnswerOf(o, env.valid))])
  {
    assert !s.fault;
    hide Inv, Mid, Drained, ProcessQueue;
    CompleteMid(s, id);
    DrainIs(s.(running := s.running - {id}), s.arrived[id], env);
  }

  lemma CompleteInv(s: State, id: Id, o: Outcome, env: Env)
    requires Inv(s) && id in s.running && id < |s.arrived| && Drainable(s, s.arrived[id], Rest(s, s.arrived[id]))
    ensures Inv(Step(s, Complete(id, o, env)))
  {
    assert !s.fault;
    hide Inv, Mid, Drained, QueuesOk, RunningOk, AnsweredOk, OrderOk, Step, AnswerOf;
    var u := s.arrived[id];
    CompleteIs(s, id, o, env);
    CompleteMid(s, id);
    var s1, q := s.(running := s.running - {id}), s.queues[u][1..];
    DrainedQueues(s1, u, q, env, id);
    DrainedAnswered(s1, u, q, env, id);
    DrainedOrder(s1, u, q, env, id);
    DrainedParts(s1, u, q, env);
    var s2 := Drained(s1, u, q, env);
    assert id !in Queue(s2, u);
    AnswerLate(s2, Sent(id, AnswerOf(o, env.valid)));
  }

  /**
   What is sent when a helper reports back: the fate of the calls that could not be started, then its own answer; and
   what stays queued. With the device gone and two or more calls waiting there is a fault instead.
   */
  lemma CompleteSends(s: State, id: Id, o: Outcome, env: Env)
    requires Inv(s) && id in s.running && id < |s.arrived|
    ensures var u := s.arrived[id];
            var q := Rest(s, u);
            var s' := Step(s, Complete(id, o, env));
            && (s'.fault <==> u !in s.devices && |q| >= 2)
            && s'.log != [] && s'.log[|s'.log| - 1].id == id && IsAnswerTo(o, env.valid, s'.log[|s'.log| - 1].answer)
            && (!s'.fault ==>
                  var fate := if u in s.devices then FailedReplies(q[..FailPrefix(q, env)]) else GoneReplies(q);
                  && s'.log == s.log + fate + [Sent(id, AnswerOf(o, env.valid))]
                  && Queue(s', u) == (if u in s.devices then q[FailPrefix(q, env)..] else []))
  {
    assert !s.fault;
    AnswersAreRight(o, env.valid);
    CompleteIs(s, id, o, env);
    CompleteMid(s, id);
    hide Inv, Mid, Step, FailPrefix, FailedReplies, GoneReplies, AnswerOf, IsAnswerTo;
    var u := s.arrived[id];
    var s1, q := s.(running := s.running - {id}), s.queues[u][1..];
    if Drainable(s, u, q) {
      DrainedParts(s1, u, q, env);
      assert q[|q|..] == [];
    }
  }

  /** A first call is one waiting call, dealt with at once. */
  lemma FirstCallIs(s: State, u: Udi, env: Env)
    requires u !in s.queues && u in s.devices
    ensures var id := |s.arrived|;
            Enqueue(s, u, env) == Drained(s.(arrived := s.arrived + [u]), u, [id], env)
  {
    var id := |s.arrived|;
    var s1 := s.(arrived := s.arrived + [u]);
    var s2 := s1.(queues := s1.queues[u := [id]], started := s1.started + [id]);
    if env.fails(id) {
      DrainIs(s2, u, env);
      DrainStep(s1, u, [id], s2, env);
      assert Enqueue(s, u, env) == Callback(s2, u, id, Outcome(FAILED, 0, []), env);
    } else {
      assert [id][0..] == [id] && [id][..0] == [];
      assert s.log + FailedReplies([id][..0]) == s.log;
    }
  }

  lemma FirstCallMid(s: State, u: Udi)
    requires Inv(s) && u !in s.queues
    ensures Mid(s.(arrived := s.arrived + [u]), u, [|s.arrived|], -1)
  {
    hide InOrder, Before, Answers;
    var id := |s.arrived|;
    var s' := s.(arrived := s.arrived + [u]);
    assert forall x: nat :: x < id ==> s'.arrived[x] == s.arrived[x] && Of(s'.arrived, x) == Of(s.arrived, x);
    assert forall v :: Queue(s', v) == Queue(s, v) && Rest(s', v) == Rest(s, v);
    NewcomerRunsNot(s, u, s');
    NoAnswers(s.log, id);
    OrderStays(s, s');
    StartedBeforeNew(s'.arrived, s.started, id);
  }

  lemma NewcomerRunsNot(s: State, u: Udi, s': State)
    requires RunningOk(s) && u !in s.queues && s' == s.(arrived := s.arrived + [u])
    ensures forall x :: x in s'.running <==> Of(s'.arrived, x) != u && IsHead(s', x)
  {
    forall x: Id
      ensures x in s'.running <==> Of(s'.arrived, x) != u && IsHead(s', x)
    {
      assert x in s.running <==> IsHead(s, x);
      if x < |s.arrived| {
        assert Of(s'.arrived, x) == Of(s.arrived, x);
      } else {
        assert x > |s.arrived| ==> !IsHead(s', x);
      }
    }
  }

  lemma StartedBeforeNew(arrived: seq<Udi>, a: seq<Id>, id: Id)
    requires forall x :: x in a ==> x < id
    ensures Before(arrived, a, [id])
  {
  }

  lemma {:induction false} NoAnswers(log: seq<Sent>, id: Id)
    requires forall a :: a in log ==> a.id != id
    ensures Answers(log, id) == 0
  {
    if log != [] {
      NoAnswers(log[..|log| - 1], id);
    }
  }

  /** A new arrival does not disturb the order of the others. */
  lemma OrderStays(s: State, s': State)
    requires QueuesOk(s) && OrderOk(s) && s'.started == s.started && |s'.arrived| == |s.arrived| + 1 && s'.arrived[..|s.arrived|] == s.arrived
    ensures InOrder(s'.arrived, s'.started)
    ensures forall u :: Before(s'.arrived, s'.started, Rest(s, u))
  {
    assert forall x: nat :: x < |s.arrived| ==> Of(s'.arrived, x) == Of(s.arrived, x);
    assert forall i :: 0 <= i < |s.started| ==> s.started[i] in s.started;
    forall u
      ensures Before(s'.arrived, s'.started, Rest(s, u))
    {
      assert forall y :: y in Rest(s, u) ==> y in Queue(s, u);
      assert Before(s.arrived, s.started, Rest(s, u));
    }
  }

  /** Recording an arrival for `u` keeps the queues, and lets the queue of `u` take it. */
  lemma QueueGrows(arrived: seq<Udi>, u: Udi, v: Udi, q: seq<Id>)
    requires QueueOk(arrived, v, q)
    ensures QueueOk(arrived + [u], v, q)
    ensures u == v ==> QueueOk(arrived + [u], v, q + [|arrived|])
  {
    var q1 := q + [|arrived|];
    assert forall i :: 0 <= i < |q| ==> q[i] in q;
    assert forall x :: x in q1 <==> x in q || x == |arrived|;
  }

  /** What another call to a busy device changes. */
  lemma NextCallParts(s: State, u: Udi, env: Env)
    requires u in s.queues
    ensures var s' := Enqueue(s, u, env);
            && s'.arrived == s.arrived + [u] && s'.running == s.running && s'.started == s.started && s'.log == s.log
            && s'.queues == s.queues[u := s.queues[u] + [|s.arrived|]]
            && (forall v :: Queue(s', v) == if v == u then Queue(s, u) + [|s.arrived|] else Queue(s, v))
  {
  }

  lemma NextCallQueues(s: State, u: Udi, s': State)
    requires QueuesOk(s) && u in s.queues && s'.arrived == s.arrived + [u]
    requires s'.queues == s.queues[u := s.queues[u] + [|s.arrived|]]
    requires forall v :: Queue(s', v) == if v == u then Queue(s, u) + [|s.arrived|] else Queue(s, v)
    ensures QueuesOk(s') && Queue(s, u)[0] < |s.arrived|
  {
    hide QueueOk;
    forall v
      ensures QueueOk(s'.arrived, v, Queue(s', v))
    {
      assert QueueOk(s.arrived, v, Queue(s, v));
      QueueGrows(s.arrived, u, v, Queue(s, v));
    }
    HeadArrived(s.arrived, u, Queue(s, u));
  }

  lemma HeadArrived(arrived: seq<Udi>, u: Udi, q: seq<Id>)
    requires QueueOk(arrived, u, q) && q != []
    ensures q[0] < |arrived|
  {
    assert q[0] in q;
  }

  lemma NextCallAnswered(s: State, u: Udi, s': State)
    requires AnsweredOk(s, -1) && s'.arrived == s.arrived + [u] && s'.log == s.log
    requires forall v :: Queue(s', v) == if v == u then Queue(s, u) + [|s.arrived|] else Queue(s, v)
    ensures AnsweredOk(s', -1)
  {
    hide Answers, Queue;
    NoAnswers(s.log, |s.arrived|);
    forall id | 0 <= id < |s'.arrived|
      ensures Answers(s'.log, id) == if id in Queue(s', Of(s'.arrived, id)) then 0 else 1
    {
      if id < |s.arrived| {
        assert Of(s'.arrived, id) == Of(s.arrived, id);
      }
    }
  }

  lemma NextCallOrder(s: State, u: Udi, s': State)
    requires QueuesOk(s) && OrderOk(s) && Queue(s, u) != []
    requires s'.arrived == s.arrived + [u] && s'.started == s.started
    requires forall v :: Queue(s', v) == if v == u then Queue(s, u) + [|s.arrived|] else Queue(s, v)
    ensures OrderOk(s')
  {
    hide InOrder, Before, Queue, QueueOk;
    OrderStays(s, s');
    StartedBeforeNew(s'.arrived, s.started, |s.arrived|);
    forall v
      ensures Before(s'.arrived, s'.started, Rest(s', v))
    {
      if v == u {
        assert Rest(s', u) == Rest(s, u) + [|s.arrived|];
        BeforeBoth(s'.arrived, s.started, Rest(s, u), [|s.arrived|]);
      } else {
        assert Rest(s', v) == Rest(s, v);
      }
    }
  }

  lemma NextCallInv(s: State, u: Udi, env: Env)
    requires Inv(s) && u in s.queues
    ensures Inv(Enqueue(s, u, env))
  {
    var s' := Enqueue(s, u, env);
    NextCallParts(s, u, env);
    assert Queue(s, u) != [];
    hide QueuesOk, RunningOk, AnsweredOk, OrderOk, Enqueue;
    NextCallQueues(s, u, s');
    LongerQueueRuns(s, u, s');
    NextCallAnswered(s, u, s');
    NextCallOrder(s, u, s');
  }

  lemma BeforeBoth(arrived: seq<Udi>, a: seq<Id>, b: seq<Id>, c: seq<Id>)
    requires Before(arrived, a, b) && Before(arrived, a, c)
    ensures Before(arrived, a, b + c)
  {
  }

  lemma LongerQueueRuns(s: State, u: Udi, s': State)
    requires RunningOk(s) && Queue(s, u) != []
    requires s'.running == s.running && s'.arrived == s.arrived + [u]
    requires forall v :: Queue(s', v) == if v == u then Queue(s, u) + [|s.arrived|] else Queue(s, v)
    requires Queue(s, u)[0] < |s.arrived|
    ensures RunningOk(s')
  {
    forall x: Id
      ensures x in s'.running <==> IsHead(s', x)
    {
      assert x in s.running <==> IsHead(s, x);
      if x < |s.arrived| {
        assert Of(s'.arrived, x) == Of(s.arrived, x);
      } else if x == |s.arrived| {
        assert !IsHead(s', x);
      }
    }
  }

  lemma DevicesInv(s: State, devices: set<Udi>)
    requires Inv(s)
    ensures Inv(s.(devices := devices))
  {
    hide InOrder, Before, Answers;
    var s' := s.(devices := devices);
    assert forall v :: Queue(s', v) == Queue(s, v) && Rest(s', v) == Rest(s, v);
    assert forall x :: IsHead(s', x) <==> IsHead(s, x);
  }

  /** A call to a device that is gone and has no queue is answered, but leaves an entry behind that nothing will remove. */
  lemma LostCall(s: State, u: Udi, env: Env)
    requires Inv(s) && u !in s.queues && u !in s.devices
    ensures var s' := Enqueue(s, u, env);
            && Stuck(s', u) && !Inv(s') && !s'.fault
  {
    var id := |s.arrived|;
    var s' := Enqueue(s, u, env);
    assert Queue(s', u) == [id] && Of(s'.arrived, id) == u;
    assert IsHead(s', id);
    assert id !in s.running by {
      assert !IsHead(s, id);
    }
    forall x | x in s'.running
      ensures Of(s'.arrived, x) != u
    {
      assert IsHead(s, x);
    }
    forall v
      ensures QueueOk(s'.arrived, v, Queue(s', v))
    {
      assert QueueOk(s.arrived, v, Queue(s, v));
      QueueGrows(s.arrived, u, v, Queue(s, v));
      assert Queue(s', v) == if v == u then [] + [id] else Queue(s, v);
    }
  }

  /** A call for a UDI that is in neither store and has no queue. */
  predicate Lost(s: State, e: Event) {
    e.Call? && e.udi !in s.queues && e.udi !in s.devices
  }

  /** A helper reports back whose device is gone, with two or more calls waiting behind it. */
  predicate ReadsFreedKey(s: State, e: Event)
    requires Possible(s, e)
  {
    e.Complete? && s.arrived[e.id] !in s.devices && |Rest(s, s.arrived[e.id])| >= 2
  }

  /**
   At each UDI a queue exists exactly while its head, and nothing else, runs; requests start in order of arrival and are answered
   once, when they leave the queue; and no freed string is read. Every event keeps this, except a call to a device that is in
   neither store, and a completion for a device that is gone while two or more calls wait.
   */
  lemma StepKeepsInvIff(s: State, e: Event)
    requires Inv(s) && Possible(s, e)
    ensures Inv(Step(s, e)) <==> !Lost(s, e) && !ReadsFreedKey(s, e)
    ensures Step(s, e).fault <==> ReadsFreedKey(s, e)
  {
    hide Mid, Drained, Enqueue, Callback, Stuck, QueuesOk, RunningOk, AnsweredOk, OrderOk;
    match e
    case Call(u, env) =>
      if u in s.queues {
        NextCallInv(s, u, env);
      } else if u in s.devices {
        FirstCallMid(s, u);
        FirstCallIs(s, u, env);
        DrainedInv(s.(arrived := s.arrived + [u]), u, [|s.arrived|], env);
      } else {
        LostCall(s, u, env);
      }
    case Complete(id, o, env) =>
      CompleteSends(s, id, o, env);
      if Drainable(s, s.arrived[id], Rest(s, s.arrived[id])) {
        CompleteInv(s, id, o, env);
      }
    case Appear(u) => DevicesInv(s, s.devices + {u});
    case Vanish(u) => DevicesInv(s, s.devices - {u});
  }

  // Runs.

  ghost predicate AllPossible(s: State, es: seq<Event>)
    decreases |es|
  {
    es == [] || (Possible(s, es[0]) && AllPossible(Step(s, es[0]), es[1..]))
  }

  function Run(s: State, es: seq<Event>): State
    requires AllPossible(s, es)
    decreases |es|
  {
    if es == [] then s else Run(Step(s, es[0]), es[1..])
  }

  /** Calls come for devices the caller has just looked up, as `hald_dbus_filter_handle_methods` does. */
  ghost predicate LookedUp(s: State, es: seq<Event>)
    requires AllPossible(s, es)
    decreases |es|
  {
    es == [] || (!Lost(s, es[0]) && LookedUp(Step(s, es[0]), es[1..]))
  }

  /** Some helper reports back for a device that is gone while two or more calls wait behind it. */
  ghost predicate LosesBusyDevice(s: State, es: seq<Event>)
    requires AllPossible(s, es)
    decreases |es|
  {
    es != [] && (ReadsFreedKey(s, es[0]) || LosesBusyDevice(Step(s, es[0]), es[1..]))
  }

  lemma IdleIsGood(devices: set<Udi>)
    ensures Inv(Idle(devices))
  {
  }

  /** Over every run of calls to devices that were looked up, all is well exactly until a device is lost with two calls waiting. */
  lemma {:induction false} RunKeepsInvIff(s: State, es: seq<Event>)
    requires Inv(s) && AllPossible(s, es) && LookedUp(s, es)
    ensures Inv(Run(s, es)) <==> !LosesBusyDevice(s, es)
    ensures Run(s, es).fault <==> LosesBusyDevice(s, es)
    decreases |es|
  {
    if es == [] {
      assert !s.fault;
    } else {
      hide Step, ReadsFreedKey, Lost, QueuesOk, RunningOk, AnsweredOk, OrderOk;
      StepKeepsInvIff(s, es[0]);
      if ReadsFreedKey(s, es[0]) {
        assert es[1..] == [];
      } else {
        RunKeepsInvIff(Step(s, es[0]), es[1..]);
      }
    }
  }

  /** `n` calls to `u`, the first of them running. */
  function Busy(u: Udi, devices: set<Udi>, n: nat): State
    requires n > 0
  {
    State(map[u := seq(n, i => i)], {0}, devices, seq(n, i => u), [0], [], false)
  }

  lemma FirstOfMany(u: Udi, env: Env)
    requires !env.fails(0)
    ensures Step(Idle({u}), Call(u, env)) == Busy(u, {u}, 1)
  {
    var s := Step(Idle({u}), Call(u, env));
    assert [] + [u] == seq(1, i => u) && [0] == seq(1, i => i);
    assert s.queues == map[u := [0]] && s.started == [0] && s.running == {0};
  }

  lemma OneOfMany(u: Udi, env: Env, n: nat)
    requires n > 0
    ensures Step(Busy(u, {u}, n), Call(u, env)) == Busy(u, {u}, n + 1)
  {
    assert seq(n, i => u) + [u] == seq(n + 1, i => u);
    assert seq(n, i => i) + [n] == seq(n + 1, i => i);
    assert map[u := seq(n, i => i)][u := seq(n + 1, i => i)] == map[u := seq(n + 1, i => i)];
  }

  lemma LastOfMany(u: Udi, o: Outcome, env: Env)
    ensures var s := Busy(u, {}, 3); Possible(s, Complete(0, o, env)) && Step(s, Complete(0, o, env)).fault
  {
    var s := Busy(u, {}, 3);
    DrainIs(s.(running := s.running - {0}), u, env);
  }

  /** One call runs, two wait, the device vanishes, the first completes: a freed key is read. */
  lemma VanishingDeviceReadsFreedKey(u: Udi, o: Outcome, env: Env)
    requires !env.fails(0)
    ensures var es := [Call(u, env), Call(u, env), Call(u, env), Vanish(u), Complete(0, o, env)];
            AllPossible(Idle({u}), es) && LookedUp(Idle({u}), es) && Run(Idle({u}), es).fault
  {
    var e, v, c := Call(u, env), Vanish(u), Complete(0, o, env);
    var s0, s1, s2, s3, s4 := Idle({u}), Busy(u, {u}, 1), Busy(u, {u}, 2), Busy(u, {u}, 3), Busy(u, {}, 3);
    FirstOfMany(u, env);
    OneOfMany(u, env, 1);
    OneOfMany(u, env, 2);
    assert Step(s3, v) == s4;
    LastOfMany(u, o, env);
    var s5 := Step(s4, c);
    assert !Lost(s0, e) && !Lost(s1, e) && !Lost(s2, e) && !Lost(s3, v) && !Lost(s4, c);
    hide Step, Lost, Busy;
    OneEvent(s4, c, []);
    OneEvent(s3, v, [c]);
    OneEvent(s2, e, [v, c]);
    OneEvent(s1, e, [e, v, c]);
    OneEvent(s0, e, [e, e, v, c]);
    assert [c] + [] == [c] && [v] + [c] == [v, c] && [e] + [v, c] == [e, v, c] && [e] + [e, v, c] == [e, e, v, c];
    assert [e] + [e, e, v, c] == [e, e, e, v, c];
  }

  lemma OneEvent(s: State, e: Event, es: seq<Event>)
    requires Possible(s, e) && !Lost(s, e) && AllPossible(Step(s, e), es) && LookedUp(Step(s, e), es)
    ensures AllPossible(s, [e] + es) && LookedUp(s, [e] + es) && Run(s, [e] + es) == Run(Step(s, e), es)
  {
    assert ([e] + es)[1..] == es;
  }

  // After a lost call.

  /** `u` has a queue but nothing runs for it. */
  ghost predicate Stuck(s: State, u: Udi) {
    && u in s.queues && s.queues[u] != []
    && (forall x :: x in s.running ==> x < |s.arrived| && Of(s.arrived, x) != u)
    && (forall v :: QueueOk(s.arrived, v, Queue(s, v)))
    && (forall a :: a in s.log ==> a.id < |s.arrived|)
  }

  /** `s'` follows `s`, and nobody who calls `u` has been answered in between. */
  ghost predicate Silent(s: State, s': State, u: Udi) {
    && |s.arrived| <= |s'.arrived| && s'.arrived[..|s.arrived|] == s.arrived
    && (forall id :: 0 <= id < |s'.arrived| && s'.arrived[id] == u ==>
          Answers(s'.log, id) == if id < |s.arrived| then Answers(s.log, id) else 0)
  }

  /** Draining another queue, up to a fault. */
  lemma DrainedElsewhere(s: State, v: Udi, q: seq<Id>, env: Env, u: Udi)
    requires Stuck(s, u) && v != u && QueueOk(s.arrived, v, q)
    ensures var s' := Drained(s, v, q, env); Stuck(s', u) && Silent(s, s', u) && s'.arrived == s.arrived
  {
    if Drainable(s, v, q) {
      hide Drained;
      DrainableElsewhere(s, v, q, env, u);
      DrainedParts(s, v, q, env);
    } else {
      var s1 := s.(queues := s.queues[v := q], fault := true);
      assert forall w :: Queue(s1, w) == if w == v then q else Queue(s, w);
      assert q[0] in q;
      OneMore(s1, Sent(q[0], NoSuchDevice), u);
    }
  }

  lemma DrainableElsewhere(s: State, v: Udi, q: seq<Id>, env: Env, u: Udi)
    requires Stuck(s, u) && v != u && QueueOk(s.arrived, v, q) && Drainable(s, v, q)
    ensures var s' := Drained(s, v, q, env); Stuck(s', u) && Silent(s, s', u)
  {
    hide Drained, Done, Answers;
    DrainedParts(s, v, q, env);
    var s', k := Drained(s, v, q, env), Done(s, v, q, env);
    SuffixOk(s.arrived, v, q, k);
    DrainedAnswers(s, v, q, env, 0);
    assert Queue(s', u) == Queue(s, u);
    assert k < |q| ==> q[k] in q;
    forall id | 0 <= id < |s'.arrived| && s'.arrived[id] == u
      ensures Answers(s'.log, id) == Answers(s.log, id)
    {
      DrainedAnswers(s, v, q, env, id);
      assert id in q[..k] ==> id in q;
    }
  }

  lemma OneMore(s: State, a: Sent, u: Udi)
    requires Stuck(s, u) && a.id < |s.arrived| && s.arrived[a.id] != u
    ensures var s' := s.(log := s.log + [a]); Stuck(s', u) && Silent(s, s', u)
  {
    var s' := s.(log := s.log + [a]);
    assert forall v :: Queue(s', v) == Queue(s, v);
    assert (s.log + [a])[..|s.log|] == s.log;
  }

  lemma SilentTwice(s: State, s1: State, s2: State, u: Udi)
    requires Silent(s, s1, u) && Silent(s1, s2, u)
    ensures Silent(s, s2, u)
  {
    assert s2.arrived[..|s.arrived|] == s2.arrived[..|s1.arrived|][..|s.arrived|];
    forall id | 0 <= id < |s2.arrived| && s2.arrived[id] == u
      ensures Answers(s2.log, id) == if id < |s.arrived| then Answers(s.log, id) else 0
    {
      assert id < |s1.arrived| ==> s2.arrived[..|s1.arrived|][id] == u;
    }
  }

  lemma CompleteElsewhere(s: State, id: Id, o: Outcome, env: Env, u: Udi)
    requires Stuck(s, u) && !s.fault && id in s.running && id < |s.arrived|
    ensures var s' := Step(s, Complete(id, o, env)); Stuck(s', u) && Silent(s, s', u)
  {
    hide ProcessQueue, Drained, Answers;
    var v := s.arrived[id];
    assert v == Of(s.arrived, id);
    var s1 := s.(running := s.running - {id});
    assert forall w :: Queue(s1, w) == Queue(s, w);
    assert Stuck(s1, u);
    DrainIs(s1, v, env);
    var s2 := ProcessQueue(s1, v, env, false);
    assert QueueOk(s.arrived, v, Queue(s, v));
    if v in s.queues && s.queues[v] != [] {
      SuffixOk(s.arrived, v, s.queues[v], 1);
      DrainedElsewhere(s1, v, s.queues[v][1..], env, u);
    }
    var a := Sent(id, AnswerOf(o, env.valid));
    OneMore(s2, a, u);
    SilentTwice(s, s2, s2.(log := s2.log + [a]), u);
  }

  /** A newcomer that is only recorded. */
  lemma Newcomer(s: State, v: Udi, u: Udi, s1: State)
    requires Stuck(s, u) && s1 == s.(arrived := s.arrived + [v])
    ensures Stuck(s1, u) && Silent(s, s1, u)
  {
    hide Answers;
    assert forall w :: Queue(s1, w) == Queue(s, w);
    assert forall x: nat :: x < |s.arrived| ==> Of(s1.arrived, x) == Of(s.arrived, x);
    NoAnswers(s.log, |s.arrived|);
    forall w
      ensures QueueOk(s1.arrived, w, Queue(s1, w))
    {
      assert QueueOk(s.arrived, w, Queue(s, w));
    }
  }

  lemma CallElsewhere(s: State, v: Udi, env: Env, u: Udi)
    requires Stuck(s, u)
    ensures var s' := Enqueue(s, v, env); Stuck(s', u) && Silent(s, s', u)
  {
    hide Drained, Answers;
    var id := |s.arrived|;
    var s1 := s.(arrived := s.arrived + [v]);
    Newcomer(s, v, u, s1);
    var s' := Enqueue(s, v, env);
    if v in s.queues {
      assert forall w :: Queue(s', w) == if w == v then Queue(s, v) + [id] else Queue(s, w);
      assert QueueOk(s.arrived, v, Queue(s, v));
      QueueGrows(s.arrived, v, v, Queue(s, v));
      assert forall w :: w != v ==> QueueOk(s1.arrived, w, Queue(s1, w)) && Queue(s1, w) == Queue(s', w);
    } else if v in s.devices {
      FirstCallIs(s, v, env);
      DrainedElsewhere(s1, v, [id], env, u);
      SilentTwice(s, s1, s', u);
    } else {
      LostElsewhere(s1, v, u);
      SilentTwice(s, s1, s', u);
    }
  }

  lemma LostElsewhere(s: State, v: Udi, u: Udi)
    requires Stuck(s, u) && u != v && s.arrived != [] && s.arrived[|s.arrived| - 1] == v
    ensures var id := |s.arrived| - 1;
            var s' := s.(queues := s.queues[v := [id]], log := s.log + [Sent(id, NoSuchDevice)]);
            Stuck(s', u) && Silent(s, s', u)
  {
    var id := |s.arrived| - 1;
    var s1 := s.(queues := s.queues[v := [id]]);
    assert forall w :: Queue(s1, w) == if w == v then [id] else Queue(s, w);
    OneMore(s1, Sent(id, NoSuchDevice), u);
  }

  lemma StuckStays(s: State, e: Event, u: Udi)
    requires Stuck(s, u) && Possible(s, e)
    ensures Stuck(Step(s, e), u) && Silent(s, Step(s, e), u)
  {
    match e
    case Call(v, env) =>
      hide Stuck, Silent, Enqueue;
      CallElsewhere(s, v, env, u);
    case Complete(id, o, env) =>
      hide Stuck, Silent, Callback;
      CompleteElsewhere(s, id, o, env, u);
    case Appear(v) => assert forall w :: Queue(Step(s, e), w) == Queue(s, w);
    case Vanish(v) => assert forall w :: Queue(Step(s, e), w) == Queue(s, w);
  }

  /** A lost call costs every later caller of that UDI its answer, even if the device comes back. */
  lemma {:induction false} StuckForever(s: State, es: seq<Event>, u: Udi)
    requires Stuck(s, u) && AllPossible(s, es)
    ensures Stuck(Run(s, es), u) && Silent(s, Run(s, es), u)
    decreases |es|
  {
    hide Stuck, Step;
    if es == [] {
      assert s.arrived[..|s.arrived|] == s.arrived;
    } else {
      hide Silent;
      StuckStays(s, es[0], u);
      StuckForever(Step(s, es[0]), es[1..], u);
      SilentTwice(s, Step(s, es[0]), Run(s, es), u);
    }
  }
}
