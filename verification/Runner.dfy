/**
 The process runner (hald-runner/runner.c): records of running helpers, listed by UDI or as
 singletons, and the events that end them. Everything sent on the bus goes to a log.
 */
module Runner {
  import opened Lists

  type Id = nat

  const SUCCESS: nat := 0
  const TIMEOUT: nat := 1
  const FAILED: nat := 2
  const KILLED: nat := 4

  /** A request as `run_request_run` gets it; `con`, `msg` and `wantPid` say which pointers are not NULL. */
  datatype Request = Request(udi: string, singleton: bool, timeout: nat, con: bool, msg: bool, wantPid: bool) {
    /** `send_reply` sends nothing without a connection and a message. */
    predicate Answerable() {
      con && msg
    }
  }

  datatype RunData = RunData(req: Request, armed: bool, sentKill: bool)

  datatype Out = Reply(id: Id, kind: nat, code: int) | PidExited(id: Id)

  datatype Status = Normal(code: int) | Crashed

  /**
   `live` holds the records not yet freed, `reqs` every request ever made (a request is known by its position),
   and `fault` tells that a freed record was used.
   */
  datatype State = State(live: map<Id, RunData>, udis: map<string, seq<Id>>, singletons: seq<Id>,
                         log: seq<Out>, reqs: seq<Request>, fault: bool)

  const INIT: State := State(map[], map[], [], [], [], false)

  // The callbacks.

  function SendReply(s: State, id: Id, req: Request, kind: nat, code: int): State {
    if req.Answerable() then s.(log := s.log + [Reply(id, kind, code)]) else s
  }

  function Listed(s: State, udi: string): seq<Id> {
    if udi in s.udis then s.udis[udi] else []
  }

  function RemoveRunData(s: State, id: Id): State
    requires id in s.live
  {
    var r := s.live[id].req;
    if r.singleton then s.(singletons := Remove(s.singletons, id))
    else s.(udis := s.udis[r.udi := Remove(Listed(s, r.udi), id)])
  }

  function RequestRun(s: State, r: Request, spawned: bool): State {
    var id := |s.reqs|;
    var s1 := s.(reqs := s.reqs + [r]);
    if !spawned then SendReply(s1, id, r, FAILED, 0)
    else
      var s2 := s1.(live := s1.live[id := RunData(r, r.timeout > 0, false)]);
      if r.singleton then s2.(singletons := [id] + s2.singletons)
      else s2.(udis := s2.udis[r.udi := [id] + Listed(s2, r.udi)])
  }

  /** What an exit sends: the reply, then the announcement of the exit where the PID was returned. */
  function ExitLog(id: Id, r: Request, status: Status): seq<Out> {
    var answer := if status.Crashed? then Reply(id, FAILED, 0) else Reply(id, SUCCESS, status.code);
    (if r.Answerable() then [answer] else []) + (if r.con && r.wantPid then [PidExited(id)] else [])
  }

  function Exited(s: State, id: Id, status: Status): State
    requires id in s.live
  {
    var rd := s.live[id];
    if rd.sentKill then s.(live := s.live - {id})
    else
      var s1 := RemoveRunData(s, id);
      s1.(log := s.log + ExitLog(id, rd.req, status), live := s.live - {id})
  }

  function TimedOut(s: State, id: Id): State
    requires id in s.live
  {
    var rd := s.live[id];
    var s1 := s.(live := s.live[id := rd.(armed := false, sentKill := true)]);
    RemoveRunData(SendReply(s1, id, rd.req, TIMEOUT, 0), id)
  }

  function KillRd(s: State, id: Id): State {
    if id !in s.live then s.(fault := true)
    else
      var rd := s.live[id];
      SendReply(s.(live := s.live[id := rd.(armed := false, sentKill := true)]), id, rd.req, KILLED, 0)
  }

  function KillList(s: State, l: seq<Id>): State
    decreases |l|
  {
    if l == [] then s else KillList(KillRd(s, l[0]), l[1..])
  }

  function KillUdi(s: State, udi: string): State {
    var s1 := KillList(s, Listed(s, udi));
    s1.(udis := s1.udis - {udi})
  }

  function KillUdis(s: State, order: seq<string>): State
    decreases |order|
  {
    if order == [] then s else KillUdis(KillUdi(s, order[0]), order[1..])
  }

  /** `run_kill_all`, given the order in which the hash table is walked. */
  function KillAll(s: State, order: seq<string>): State {
    var s1 := KillUdis(s, order);
    KillList(s1, s1.singletons)
  }

  datatype Event =
    | Run(req: Request, spawned: bool)
    | Exit(id: Id, status: Status)
    | Timeout(id: Id)
    | Kill(udi: string)
    | EndAll(order: seq<string>)

  /** A child exits once, a timer fires while armed, and a walk of the table meets each UDI. */
  ghost predicate Possible(s: State, e: Event) {
    match e
    case Exit(id, _) => id in s.live
    case Timeout(id) => id in s.live && s.live[id].armed
    case EndAll(order) => forall u :: u in s.udis <==> u in order
    case _ => true
  }

  ghost function Step(s: State, e: Event): State
    requires Possible(s, e)
  {
    match e
    case Run(r, spawned) => RequestRun(s, r, spawned)
    case Exit(id, status) => Exited(s, id, status)
    case Timeout(id) => TimedOut(s, id)
    case Kill(udi) => KillUdi(s, udi)
    case EndAll(order) => KillAll(s, order)
  }

  // The registry.

  /** A helper that runs under a UDI and has not been told to stop. */
  predicate Running(s: State, id: Id) {
    id in s.live && !s.live[id].req.singleton && !s.live[id].sentKill
  }

  /** The list of a UDI holds exactly the running records of that UDI, each once. */
  ghost predicate Registered(s: State) {
    && (forall u :: NoDup(Listed(s, u)))
    && (forall u, id :: id in Listed(s, u) <==> Running(s, id) && s.live[id].req.udi == u)
  }

  /** The other facts every run keeps. */
  ghost predicate Sane(s: State) {
    && (forall id :: id in s.live ==> id < |s.reqs| && s.live[id].req == s.reqs[id])
    && (forall id :: id in s.live && s.live[id].armed ==> !s.live[id].sentKill)
    && NoDup(s.singletons)
    && (forall id :: id in s.singletons ==> id < |s.reqs| && s.reqs[id].singleton)
    && (forall o :: o in s.log ==> o.id < |s.reqs|)
  }

  ghost predicate Inv(s: State) {
    Registered(s) && Sane(s)
  }

  /** How many replies request `id` has had. */
  function Replies(log: seq<Out>, id: Id): nat {
    if log == [] then 0
    else Replies(log[..|log| - 1], id) + if log[|log| - 1].Reply? && log[|log| - 1].id == id then 1 else 0
  }

  /** How many it should have had: one, once its record is gone or has been told to stop. */
  function Due(s: State, id: Id): nat
    requires id < |s.reqs|
  {
    if s.reqs[id].Answerable() && (id !in s.live || s.live[id].sentKill) then 1 else 0
  }

  ghost predicate Accounted(s: State) {
    forall id :: 0 <= id < |s.reqs| ==> Replies(s.log, id) == Due(s, id)
  }

  // Lists.

  lemma {:induction false} NoReplies(log: seq<Out>, id: Id)
    requires forall o :: o in log ==> o.id != id
    ensures Replies(log, id) == 0
  {
    if log != [] {
      NoReplies(log[..|log| - 1], id);
    }
  }

  lemma RepliesGrow(log: seq<Out>, o: Out, id: Id)
    ensures Replies(log + [o], id) == Replies(log, id) + if o.Reply? && o.id == id then 1 else 0
  {
    assert (log + [o])[..|log|] == log;
  }

  /** How often `id` occurs in `l`. */
  function Times(l: seq<Id>, id: Id): nat {
    if l == [] then 0 else (if l[0] == id then 1 else 0) + Times(l[1..], id)
  }

  lemma {:induction false} TimesOnce(l: seq<Id>, id: Id)
    requires NoDup(l)
    ensures Times(l, id) == if id in l then 1 else 0
  {
    if l != [] {
      assert l == [l[0]] + l[1..];
      TimesOnce(l[1..], id);
      assert l[0] !in l[1..];
    }
  }

  // Killing.

  function Stopped(rd: RunData): RunData {
    rd.(armed := false, sentKill := true)
  }

  lemma {:induction false} KillListFrame(s: State, l: seq<Id>)
    ensures var s' := KillList(s, l);
            && s'.udis == s.udis && s'.singletons == s.singletons && s'.reqs == s.reqs
            && s'.live == (map id | id in s.live :: if id in l then Stopped(s.live[id]) else s.live[id])
            && (s'.fault <==> s.fault || exists id :: id in l && id !in s.live)
    decreases |l|
  {
    if l != [] {
      var s1 := KillRd(s, l[0]);
      KillListFrame(s1, l[1..]);
      assert forall id :: id in l <==> id == l[0] || id in l[1..];
      assert s1.live.Keys == s.live.Keys;
    }
  }

  lemma {:induction false} KillListLog(s: State, l: seq<Id>, id: Id)
    ensures Replies(KillList(s, l).log, id)
            == Replies(s.log, id) + if id in s.live && s.live[id].req.Answerable() then Times(l, id) else 0
    decreases |l|
  {
    if l != [] {
      var s1 := KillRd(s, l[0]);
      KillListLog(s1, l[1..], id);
      RepliesGrow(s.log, Reply(l[0], KILLED, 0), id);
      assert id in s.live <==> id in s1.live;
      assert id in s.live ==> s1.live[id].req == s.live[id].req;
    }
  }

  lemma {:induction false} KillListIds(s: State, l: seq<Id>, bound: nat)
    requires (forall o :: o in s.log ==> o.id < bound) && (forall id :: id in s.live ==> id < bound)
    ensures forall o :: o in KillList(s, l).log ==> o.id < bound
    decreases |l|
  {
    if l != [] {
      KillListIds(KillRd(s, l[0]), l[1..], bound);
    }
  }

  lemma KillUdiFrame(s: State, udi: string)
    requires Sane(s) && Registered(s)
    ensures var s' := KillUdi(s, udi);
            && s'.singletons == s.singletons && s'.reqs == s.reqs && s'.udis == s.udis - {udi}
            && s'.live == (map id | id in s.live :: if id in Listed(s, udi) then Stopped(s.live[id]) else s.live[id])
            && s'.fault == s.fault
            && (forall o :: o in s'.log ==> o.id < |s.reqs|)
  {
    hide KillList;
    var l := Listed(s, udi);
    KillListFrame(s, l);
    KillListIds(s, l, |s.reqs|);
    forall id | id in l
      ensures id in s.live
    {
      assert Running(s, id);
    }
  }

  lemma KillUdiInv(s: State, udi: string)
    requires Inv(s)
    ensures Inv(KillUdi(s, udi))
  {
    hide KillUdi;
    KillUdiFrame(s, udi);
    var s' := KillUdi(s, udi);
    assert forall u :: Listed(s', u) == if u == udi then [] else Listed(s, u);
    forall u, id
      ensures id in Listed(s', u) <==> Running(s', id) && s'.live[id].req.udi == u
    {
      assert Running(s', id) <==> Running(s, id) && id !in Listed(s, udi);
    }
  }

  lemma KillUdiAccounts(s: State, udi: string)
    requires Inv(s) && Accounted(s)
    ensures Accounted(KillUdi(s, udi))
  {
    hide KillList, Replies, Times;
    var l := Listed(s, udi);
    var s' := KillUdi(s, udi);
    KillUdiFrame(s, udi);
    forall id | 0 <= id < |s'.reqs|
      ensures Replies(s'.log, id) == Due(s', id)
    {
      KillListLog(s, l, id);
      TimesOnce(l, id);
      assert id in l ==> Running(s, id);
      assert Replies(s.log, id) == Due(s, id);
    }
  }

  lemma {:induction false} KillUdisInv(s: State, order: seq<string>)
    requires Inv(s)
    ensures var s' := KillUdis(s, order);
            && Inv(s') && s'.singletons == s.singletons && s'.reqs == s.reqs && s'.fault == s.fault
            && s'.udis == (map u | u in s.udis && u !in order :: s.udis[u])
            && s'.live.Keys == s.live.Keys
            && (forall id :: id in s.live ==>
                  s'.live[id] == if Running(s, id) && s.live[id].req.udi in order then Stopped(s.live[id]) else s.live[id])
            && (Accounted(s) ==> Accounted(s'))
    decreases |order|
  {
    hide KillUdi, Accounted, Sane;
    if order != [] {
      assert order == [order[0]] + order[1..];
      KillUdiInv(s, order[0]);
      KillUdiFrame(s, order[0]);
      if Accounted(s) {
        KillUdiAccounts(s, order[0]);
      }
      var s1 := KillUdi(s, order[0]);
      KillUdisInv(s1, order[1..]);
      assert forall id :: id in Listed(s, order[0]) <==> Running(s, id) && s.live[id].req.udi == order[0];
    }
  }

  // Every event keeps the registry.

  lemma KillAllFrame(s: State, order: seq<string>)
    requires Inv(s) && Possible(s, EndAll(order))
    ensures var s' := KillAll(s, order);
            && s'.singletons == s.singletons && s'.reqs == s.reqs && s'.udis == map[]
            && s'.live.Keys == s.live.Keys
            && (forall id :: id in s.live ==>
                  s'.live[id] == if Running(s, id) || id in s.singletons then Stopped(s.live[id]) else s.live[id])
            && (s'.fault <==> s.fault || exists id :: id in s.singletons && id !in s.live)
            && (forall o :: o in s'.log ==> o.id < |s.reqs|)
  {
    hide KillUdis, KillList;
    KillUdisInv(s, order);
    var s1 := KillUdis(s, order);
    KillListFrame(s1, s1.singletons);
    KillListIds(s1, s1.singletons, |s.reqs|);
    forall id | Running(s, id)
      ensures s.live[id].req.udi in order
    {
      assert id in Listed(s, s.live[id].req.udi);
    }
  }

  lemma KillAllInv(s: State, order: seq<string>)
    requires Inv(s) && Possible(s, EndAll(order))
    ensures Inv(KillAll(s, order))
  {
    hide KillAll, Registered;
    KillAllFrame(s, order);
    var s' := KillAll(s, order);
    forall id
      ensures !Running(s', id)
    {
      assert id in s.live && !s.live[id].req.singleton && !s.live[id].sentKill ==> Running(s, id);
    }
    assert forall u :: Listed(s', u) == [];
    NothingRegistered(s');
  }

  lemma NothingRegistered(s: State)
    requires (forall id :: !Running(s, id)) && (forall u :: Listed(s, u) == [])
    ensures Registered(s)
  {
  }

  lemma NewcomerIsSingle(l: seq<Id>, id: Id)
    requires NoDup(l) && forall x :: x in l ==> x < id
    ensures NoDup([id] + l) && forall x :: x in [id] + l <==> x in l || x == id
  {
    assert forall i :: 0 <= i < |l| ==> l[i] in l;
  }

  lemma RequestRunParts(s: State, r: Request, spawned: bool)
    ensures var id, s' := |s.reqs|, RequestRun(s, r, spawned);
            && s'.reqs == s.reqs + [r]
            && s'.live == (if spawned then s.live[id := RunData(r, r.timeout > 0, false)] else s.live)
            && s'.singletons == (if spawned && r.singleton then [id] + s.singletons else s.singletons)
            && (forall o :: o in s'.log ==> o in s.log || o.id == id)
  {
    hide Listed;
  }

  lemma RequestRunSane(s: State, r: Request, spawned: bool)
    requires Sane(s)
    ensures Sane(RequestRun(s, r, spawned))
  {
    var id := |s.reqs|;
    var s' := RequestRun(s, r, spawned);
    RequestRunParts(s, r, spawned);
    hide Listed, RequestRun;
    assert forall x: nat :: x < id ==> s'.reqs[x] == s.reqs[x];
    NewcomerIsSingle(s.singletons, id);
  }

  lemma RequestRunInv(s: State, r: Request, spawned: bool)
    requires Inv(s)
    ensures Inv(RequestRun(s, r, spawned))
  {
    RequestRunSane(s, r, spawned);
    var id := |s.reqs|;
    assert id !in s.live;
    hide Sane;
    var s' := RequestRun(s, r, spawned);
    if spawned {
      AddedInv(s, r, s');
    } else {
      SameLists(s, s');
    }
  }

  lemma SameLists(s: State, s': State)
    requires Registered(s) && s'.udis == s.udis && s'.live == s.live
    ensures Registered(s')
  {
    assert forall u :: Listed(s', u) == Listed(s, u);
    assert forall x :: Running(s', x) <==> Running(s, x);
  }

  lemma AddedInv(s: State, r: Request, s': State)
    requires Registered(s) && |s.reqs| !in s.live
    requires s'.live == s.live[|s.reqs| := RunData(r, r.timeout > 0, false)]
    requires s'.udis == if r.singleton then s.udis else s.udis[r.udi := [|s.reqs|] + Listed(s, r.udi)]
    ensures Registered(s')
  {
    var id := |s.reqs|;
    assert !Running(s, id);
    AddedLists(s, r, s', id);
    hide Listed;
    forall u, x
      ensures x in Listed(s', u) <==> Running(s', x) && s'.live[x].req.udi == u
    {
      assert x in Listed(s, u) <==> Running(s, x) && s.live[x].req.udi == u;
      assert x != id ==> (Running(s', x) <==> Running(s, x));
    }
    forall u
      ensures NoDup(Listed(s', u))
    {
      assert id !in Listed(s, u);
    }
  }

  lemma AddedLists(s: State, r: Request, s': State, id: Id)
    requires s'.udis == if r.singleton then s.udis else s.udis[r.udi := [id] + Listed(s, r.udi)]
    ensures forall u :: Listed(s', u) == if !r.singleton && u == r.udi then [id] + Listed(s, u) else Listed(s, u)
  {
  }

  /** A record that stops being listed: freed, or told to stop. */
  lemma EndedInv(s: State, id: Id, s': State)
    requires Registered(s) && id in s.live && !s.live[id].sentKill
    requires s'.live == s.live - {id} || s'.live == s.live[id := Stopped(s.live[id])]
    requires s'.udis == RemoveRunData(s, id).udis
    ensures Registered(s')
  {
    hide Remove;
    var r := s.live[id].req;
    RemoveMembers(Listed(s, r.udi), id);
    forall u
      ensures Listed(s', u) == if !r.singleton && u == r.udi then Remove(Listed(s, u), id) else Listed(s, u)
    {
    }
    forall u, x
      ensures x in Listed(s', u) <==> Running(s', x) && s'.live[x].req.udi == u
    {
      assert Running(s', x) <==> Running(s, x) && x != id;
      assert x in Listed(s, u) <==> Running(s, x) && s.live[x].req.udi == u;
    }
  }

  lemma EndedSane(s: State, id: Id, s': State)
    requires Sane(s) && id in s.live
    requires s'.live == s.live - {id} || s'.live == s.live[id := Stopped(s.live[id])]
    requires s'.singletons == s.singletons || s'.singletons == Remove(s.singletons, id)
    requires s'.reqs == s.reqs
    requires forall o :: o in s'.log ==> o in s.log || o.id == id
    ensures Sane(s')
  {
    hide Remove;
    RemoveMembers(s.singletons, id);
  }

  lemma ForgottenInv(s: State, id: Id, s': State)
    requires Registered(s) && id in s.live && s.live[id].sentKill
    requires s'.live == s.live - {id} && s'.udis == s.udis
    ensures Registered(s')
  {
    forall u, x
      ensures x in Listed(s', u) <==> Running(s', x) && s'.live[x].req.udi == u
    {
      assert Running(s', x) <==> Running(s, x);
      assert Listed(s', u) == Listed(s, u);
    }
    assert forall u :: Listed(s', u) == Listed(s, u);
  }

  /** What an exit that was not asked for does, part by part. */
  lemma ExitedIs(s: State, id: Id, status: Status)
    requires id in s.live && !s.live[id].sentKill
    ensures var s' := Exited(s, id, status);
            && s'.live == s.live - {id} && s'.reqs == s.reqs && s'.fault == s.fault
            && s'.udis == RemoveRunData(s, id).udis && s'.singletons == RemoveRunData(s, id).singletons
            && s'.log == s.log + ExitLog(id, s.live[id].req, status)
  {
    hide Remove, ExitLog;
  }

  lemma ExitedInv(s: State, id: Id, status: Status)
    requires Inv(s) && id in s.live
    ensures Inv(Exited(s, id, status))
  {
    var s' := Exited(s, id, status);
    if s.live[id].sentKill {
      hide Registered, Sane;
      EndedSane(s, id, s');
      ForgottenInv(s, id, s');
    } else {
      hide Exited, Registered, Sane, Remove;
      ExitedIs(s, id, status);
      EndedSane(s, id, s');
      EndedInv(s, id, s');
    }
  }

  lemma TimedOutInv(s: State, id: Id)
    requires Inv(s) && id in s.live && s.live[id].armed
    ensures Inv(TimedOut(s, id))
  {
    hide Remove, Registered;
    var s' := TimedOut(s, id);
    EndedInv(s, id, s');
    EndedSane(s, id, s');
  }

  /** Whatever happens, the lists hold exactly the running records, and armed timers belong to records not told to stop. */
  lemma StepKeepsInv(s: State, e: Event)
    requires Inv(s) && Possible(s, e)
    ensures Inv(Step(s, e))
  {
    hide Inv;
    match e
    case Run(r, spawned) => RequestRunInv(s, r, spawned);
    case Exit(id, status) => ExitedInv(s, id, status);
    case Timeout(id) => TimedOutInv(s, id);
    case Kill(udi) => KillUdiInv(s, udi);
    case EndAll(order) => KillAllInv(s, order);
  }

  // Every request is answered once.

  /** A singleton that is still listed although it was told to stop, and whose message is kept. */
  ghost predicate KilledTwice(s: State) {
    exists id :: id in s.singletons && id in s.live && s.live[id].sentKill && s.live[id].req.Answerable()
  }

  lemma KillAllAccounts(s: State, order: seq<string>)
    requires Inv(s) && Accounted(s) && Possible(s, EndAll(order))
    ensures Accounted(KillAll(s, order)) <==> !KilledTwice(s)
  {
    hide KillUdis, KillList, KillAll, Replies, Registered, Times;
    KillUdisInv(s, order);
    KillAllFrame(s, order);
    KillAllIs(s, order);
    var s1, s' := KillUdis(s, order), KillAll(s, order);
    forall id | 0 <= id < |s.reqs|
      ensures Replies(s'.log, id) == Due(s', id)
              <==> !(id in s.singletons && id in s.live && s.live[id].sentKill && s.live[id].req.Answerable())
    {
      KillListLog(s1, s1.singletons, id);
      TimesOnce(s.singletons, id);
      assert Replies(s1.log, id) == Due(s1, id);
      if id in s.live {
        if id in s.singletons {
          assert s.live[id].req.singleton && s1.live[id] == s.live[id];
        } else {
          if Running(s, id) {
            EveryRunningIsStopped(s, order, id);
          }
          assert s'.live[id] == s1.live[id];
        }
      }
    }
  }

  lemma EveryRunningIsStopped(s: State, order: seq<string>, id: Id)
    requires Inv(s) && Possible(s, EndAll(order)) && Running(s, id)
    ensures s.live[id].req.udi in order
  {
    assert id in Listed(s, s.live[id].req.udi);
  }

  lemma KillAllIs(s: State, order: seq<string>)
    ensures KillAll(s, order) == KillList(KillUdis(s, order), KillUdis(s, order).singletons)
  {
  }

  lemma RequestRunAccounts(s: State, r: Request, spawned: bool)
    requires Inv(s) && Accounted(s)
    ensures Accounted(RequestRun(s, r, spawned))
  {
    hide Registered, Listed;
    var n := |s.reqs|;
    var s' := RequestRun(s, r, spawned);
    NoReplies(s.log, n);
    forall id | 0 <= id < |s'.reqs|
      ensures Replies(s'.log, id) == Due(s', id)
    {
      RepliesGrow(s.log, Reply(n, FAILED, 0), id);
      if id < n {
        assert s'.reqs[id] == s.reqs[id];
        assert Replies(s.log, id) == Due(s, id);
      } else {
        assert n !in s.live;
      }
    }
  }

  /** Replies to others do not matter, and one reply to `id` is what ends it. */
  lemma EndedAccounts(s: State, id: Id, s': State)
    requires Sane(s) && Accounted(s) && id in s.live && !s.live[id].sentKill
    requires s'.live == s.live - {id} || s'.live == s.live[id := Stopped(s.live[id])]
    requires s'.reqs == s.reqs
    requires forall x :: Replies(s'.log, x) == Replies(s.log, x) + if x == id && s.live[id].req.Answerable() then 1 else 0
    ensures Accounted(s')
  {
    hide Replies;
    forall x | 0 <= x < |s'.reqs|
      ensures Replies(s'.log, x) == Due(s', x)
    {
      assert Replies(s.log, x) == Due(s, x);
    }
  }

  lemma ExitReplies(log: seq<Out>, id: Id, r: Request, status: Status, x: Id)
    ensures Replies(log + ExitLog(id, r, status), x) == Replies(log, x) + if x == id && r.Answerable() then 1 else 0
  {
    hide Replies;
    var answer := if status.Crashed? then Reply(id, FAILED, 0) else Reply(id, SUCCESS, status.code);
    var log1 := if r.Answerable() then log + [answer] else log;
    RepliesGrow(log, answer, x);
    RepliesGrow(log1, PidExited(id), x);
    assert log + ExitLog(id, r, status) == if r.con && r.wantPid then log1 + [PidExited(id)] else log1;
  }

  lemma ExitedAccounts(s: State, id: Id, status: Status)
    requires Inv(s) && Accounted(s) && id in s.live
    ensures Accounted(Exited(s, id, status))
  {
    hide Registered, Listed, Remove, Replies, ExitLog;
    var s' := Exited(s, id, status);
    if s.live[id].sentKill {
      forall x | 0 <= x < |s'.reqs|
        ensures Replies(s'.log, x) == Due(s', x)
      {
        assert Replies(s.log, x) == Due(s, x);
      }
    } else {
      hide Exited;
      ExitedIs(s, id, status);
      forall x
        ensures Replies(s'.log, x) == Replies(s.log, x) + if x == id && s.live[id].req.Answerable() then 1 else 0
      {
        ExitReplies(s.log, id, s.live[id].req, status, x);
      }
      EndedAccounts(s, id, s');
    }
  }

  lemma TimedOutAccounts(s: State, id: Id)
    requires Inv(s) && Accounted(s) && id in s.live && s.live[id].armed
    ensures Accounted(TimedOut(s, id))
  {
    hide Registered, Listed, Remove, Replies, Accounted;
    var s' := TimedOut(s, id);
    forall x
      ensures Replies(s'.log, x) == Replies(s.log, x) + if x == id && s.live[id].req.Answerable() then 1 else 0
    {
      RepliesGrow(s.log, Reply(id, TIMEOUT, 0), x);
    }
    EndedAccounts(s, id, s');
  }

  /**
   One reply per request, sent when the helper is told to stop or is gone: kept by every event, except by killing
   everything while a singleton with a message is still listed from an earlier time.
   */
  lemma StepAccountsIff(s: State, e: Event)
    requires Inv(s) && Accounted(s) && Possible(s, e)
    ensures Accounted(Step(s, e)) <==> !(e.EndAll? && KilledTwice(s))
  {
    hide Inv, Accounted, KilledTwice;
    match e
    case Run(r, spawned) => RequestRunAccounts(s, r, spawned);
    case Exit(id, status) => ExitedAccounts(s, id, status);
    case Timeout(id) => TimedOutAccounts(s, id);
    case Kill(udi) => KillUdiAccounts(s, udi);
    case EndAll(order) => KillAllAccounts(s, order);
  }

  // Runs.

  ghost predicate AllPossible(s: State, es: seq<Event>)
    decreases |es|
  {
    es == [] || (Possible(s, es[0]) && AllPossible(Step(s, es[0]), es[1..]))
  }

  ghost function RunAll(s: State, es: seq<Event>): State
    requires AllPossible(s, es)
    decreases |es|
  {
    if es == [] then s else RunAll(Step(s, es[0]), es[1..])
  }

  /** Requests as the bus handlers make them (hald-runner/main.c): a singleton never carries the message. */
  ghost predicate FromBus(e: Event) {
    e.Run? && e.req.singleton ==> !e.req.msg
  }

  ghost predicate SilentSingletons(s: State) {
    forall id :: 0 <= id < |s.reqs| && s.reqs[id].singleton ==> !s.reqs[id].msg
  }

  lemma StepReqs(s: State, e: Event)
    requires Inv(s) && Possible(s, e)
    ensures Step(s, e).reqs == if e.Run? then s.reqs + [e.req] else s.reqs
  {
    hide KillUdi, KillAll, Inv;
    match e
    case Run(r, spawned) =>
    case Exit(id, status) =>
    case Timeout(id) =>
    case Kill(udi) =>
      assert Registered(s) && Sane(s) by {
        InvParts(s);
      }
      KillUdiFrame(s, udi);
    case EndAll(order) => KillAllFrame(s, order);
  }

  lemma InvParts(s: State)
    requires Inv(s)
    ensures Registered(s) && Sane(s)
  {
  }

  lemma StepSilent(s: State, e: Event)
    requires Inv(s) && Possible(s, e) && SilentSingletons(s) && FromBus(e)
    ensures SilentSingletons(Step(s, e))
  {
    hide Step, Inv;
    StepReqs(s, e);
  }

  lemma SilentNeverTwice(s: State)
    requires Inv(s) && SilentSingletons(s)
    ensures !KilledTwice(s)
  {
    hide Registered;
  }

  /**
   In every run of requests from the bus, exits, crashes, timeouts, kills and spawn failures, each request
   that expects an answer has had exactly one once its record is freed, and never more.
   */
  lemma {:induction false} AnsweredOnce(s: State, es: seq<Event>)
    requires Inv(s) && Accounted(s) && SilentSingletons(s) && AllPossible(s, es)
    requires forall i :: 0 <= i < |es| ==> FromBus(es[i])
    ensures var s' := RunAll(s, es); Inv(s') && Accounted(s') && SilentSingletons(s')
    decreases |es|
  {
    hide Inv, Accounted, SilentSingletons, Step, Possible, FromBus, KilledTwice;
    if es != [] {
      StepKeepsInv(s, es[0]);
      SilentNeverTwice(s);
      StepAccountsIff(s, es[0]);
      StepSilent(s, es[0]);
      assert forall i :: 0 <= i < |es[1..]| ==> es[1..][i] == es[i + 1];
      AnsweredOnce(Step(s, es[0]), es[1..]);
    }
  }

  lemma InitIsGood()
    ensures Inv(INIT) && Accounted(INIT) && SilentSingletons(INIT) && Clean(INIT)
  {
  }

  // Who is answered, and how.

  /** The helpers an event ends, told from the records alone. */
  ghost predicate Ends(s: State, e: Event, id: Id) {
    match e
    case Run(_, spawned) => id == |s.reqs| && !spawned
    case Exit(x, _) => id == x && x in s.live && !s.live[x].sentKill
    case Timeout(x) => id == x
    case Kill(udi) => Running(s, id) && s.live[id].req.udi == udi
    case EndAll(_) => Running(s, id)
  }

  /** The reply for each way to end, with the codes of hald/hald_runner.h: 0 success, 1 timeout, 2 failed, 4 killed. */
  ghost function Answer(e: Event, id: Id): Out {
    match e
    case Run(_, _) => Reply(id, 2, 0)
    case Exit(_, status) => if status.Normal? then Reply(id, 0, status.code) else Reply(id, 2, 0)
    case Timeout(_) => Reply(id, 1, 0)
    case Kill(_) => Reply(id, 4, 0)
    case EndAll(_) => Reply(id, 4, 0)
  }

  /** An entry of the log that event `e` is right to add. */
  ghost predicate Genuine(s: State, e: Event, o: Out) {
    match o
    case Reply(id, _, _) => Ends(s, e, id) && o == Answer(e, id)
    case PidExited(id) => e.Exit? && Ends(s, e, id) && s.live[id].req.con && s.live[id].req.wantPid
  }

  /** `log'` adds only genuine entries to `s.log`. */
  ghost predicate Adds(s: State, e: Event, log': seq<Out>) {
    |s.log| <= |log'| && log'[..|s.log|] == s.log && forall i :: |s.log| <= i < |log'| ==> Genuine(s, e, log'[i])
  }

  /** Killing a list adds one KILLED per answerable record. */
  lemma {:induction false} KillListAdds(s: State, l: seq<Id>)
    ensures var log' := KillList(s, l).log;
            && |s.log| <= |log'| && log'[..|s.log|] == s.log
            && forall i :: |s.log| <= i < |log'| ==>
                 var o := log'[i]; o == Reply(o.id, KILLED, 0) && o.id in l && o.id in s.live && s.live[o.id].req.Answerable()
    decreases |l|
  {
    if l != [] {
      var s1 := KillRd(s, l[0]);
      KillListAdds(s1, l[1..]);
      assert s1.live.Keys == s.live.Keys;
      assert forall id :: id in s.live ==> s1.live[id].req == s.live[id].req;
      var log' := KillList(s, l).log;
      assert s1.log[..|s.log|] == s.log;
      assert log'[..|s.log|] == log'[..|s1.log|][..|s.log|];
      forall i | |s.log| <= i < |log'|
        ensures var o := log'[i]; o == Reply(o.id, KILLED, 0) && o.id in l && o.id in s.live && s.live[o.id].req.Answerable()
      {
        if i < |s1.log| {
          assert log'[i] == log'[..|s1.log|][i];
        }
      }
    }
  }

  lemma {:induction false} KillListSilent(s: State, l: seq<Id>)
    requires forall id :: id in l && id in s.live ==> !s.live[id].req.Answerable()
    ensures KillList(s, l).log == s.log
    decreases |l|
  {
    if l != [] {
      KillListSilent(KillRd(s, l[0]), l[1..]);
    }
  }

  lemma {:induction false} KillUdisAdds(s: State, order: seq<string>)
    requires Inv(s)
    ensures var log' := KillUdis(s, order).log;
            && |s.log| <= |log'| && log'[..|s.log|] == s.log
            && forall i :: |s.log| <= i < |log'| ==> var o := log'[i]; o == Reply(o.id, KILLED, 0) && Running(s, o.id)
    decreases |order|
  {
    hide KillList, Sane;
    if order != [] {
      var u := order[0];
      var s1 := KillUdi(s, u);
      KillUdiInv(s, u);
      KillUdiFrame(s, u);
      KillListAdds(s, Listed(s, u));
      KillUdisAdds(s1, order[1..]);
      var log' := KillUdis(s, order).log;
      assert s1.log[..|s.log|] == s.log;
      assert log'[..|s.log|] == log'[..|s1.log|][..|s.log|];
      forall i | |s.log| <= i < |log'|
        ensures var o := log'[i]; o == Reply(o.id, KILLED, 0) && Running(s, o.id)
      {
        if i < |s1.log| {
          assert log'[i] == log'[..|s1.log|][i];
          assert log'[i].id in Listed(s, u);
        } else {
          assert Running(s1, log'[i].id);
        }
      }
    }
  }

  lemma KillAllAdds(s: State, order: seq<string>)
    requires Inv(s) && SilentSingletons(s) && Possible(s, EndAll(order))
    ensures Adds(s, EndAll(order), KillAll(s, order).log)
  {
    hide KillList, KillUdis, Registered;
    KillUdisInv(s, order);
    KillUdisAdds(s, order);
    var s1 := KillUdis(s, order);
    KillListSilent(s1, s1.singletons);
  }

  /**
   What is sent when: an event appends to the log, each reply it adds goes to a request that the event ends and says how,
   and a process exit is announced for exactly the helpers that were started with their PID returned.
   */
  lemma StepAdds(s: State, e: Event)
    requires Inv(s) && SilentSingletons(s) && FromBus(e) && Possible(s, e)
    ensures Adds(s, e, Step(s, e).log)
    ensures e.Exit? && Ends(s, e, e.id) && s.live[e.id].req.con && s.live[e.id].req.wantPid ==>
              PidExited(e.id) in Step(s, e).log[|s.log|..]
  {
    hide KillUdi, KillAll, Exited, TimedOut, Listed, Registered, Adds;
    match e
    case Run(r, spawned) => RunAdds(s, r, spawned);
    case Exit(id, status) => ExitAdds(s, id, status);
    case Timeout(id) => TimeoutAdds(s, id);
    case Kill(udi) => KillUdiAdds(s, udi);
    case EndAll(order) => KillAllAdds(s, order);
  }

  lemma RunAdds(s: State, r: Request, spawned: bool)
    ensures Adds(s, Run(r, spawned), RequestRun(s, r, spawned).log)
  {
    hide Listed;
  }

  lemma TimeoutAdds(s: State, id: Id)
    requires id in s.live && s.live[id].armed
    ensures Adds(s, Timeout(id), TimedOut(s, id).log)
  {
    hide Listed, Remove;
  }

  lemma ExitAdds(s: State, id: Id, status: Status)
    requires id in s.live
    ensures Adds(s, Exit(id, status), Exited(s, id, status).log)
    ensures Ends(s, Exit(id, status), id) && s.live[id].req.con && s.live[id].req.wantPid ==>
              PidExited(id) in Exited(s, id, status).log[|s.log|..]
  {
    if !s.live[id].sentKill {
      hide Exited;
      ExitedIs(s, id, status);
      ExitLogIsGenuine(s, id, status);
      hide ExitLog, Genuine;
      var added := ExitLog(id, s.live[id].req, status);
      assert (s.log + added)[|s.log|..] == added;
    }
  }

  lemma ExitLogIsGenuine(s: State, id: Id, status: Status)
    requires id in s.live && !s.live[id].sentKill
    ensures var added := ExitLog(id, s.live[id].req, status);
            && (forall o :: o in added ==> Genuine(s, Exit(id, status), o))
            && (s.live[id].req.con && s.live[id].req.wantPid ==> PidExited(id) in added)
  {
    var added := ExitLog(id, s.live[id].req, status);
    assert s.live[id].req.con && s.live[id].req.wantPid ==> added[|added| - 1] == PidExited(id);
  }

  lemma KillUdiAdds(s: State, udi: string)
    requires Inv(s)
    ensures Adds(s, Kill(udi), KillUdi(s, udi).log)
  {
    hide KillList;
    KillListAdds(s, Listed(s, udi));
    assert forall id :: id in Listed(s, udi) ==> Running(s, id) && s.live[id].req.udi == udi;
  }

  /** Conversely, whoever is ended and expects an answer gets it in that very step. */
  lemma EndedIsAnswered(s: State, e: Event, id: Id)
    requires Inv(s) && Accounted(s) && SilentSingletons(s) && FromBus(e) && Possible(s, e)
    requires Ends(s, e, id) && id < |Step(s, e).reqs| && Step(s, e).reqs[id].Answerable()
    ensures Replies(Step(s, e).log, id) == 1 && (id < |s.reqs| ==> Replies(s.log, id) == 0)
  {
    hide KillList, KillUdi, KillAll, Remove, Registered, Replies;
    SilentNeverTwice(s);
    StepAccountsIff(s, e);
    StepReqs(s, e);
    match e
    case Run(r, spawned) =>
    case Exit(x, status) =>
      ExitedIs(s, x, status);
    case Timeout(x) =>
    case Kill(udi) =>
      KillUdiFrame(s, udi);
      RunningIsListed(s, id);
    case EndAll(order) => KillAllFrame(s, order);
  }

  lemma RunningIsListed(s: State, id: Id)
    requires Registered(s) && Running(s, id)
    ensures id in Listed(s, s.live[id].req.udi)
  {
  }

  // Singletons.

  /** Every listed singleton is live and has not been told to stop. */
  ghost predicate Clean(s: State) {
    !s.fault && forall id :: id in s.singletons ==> id in s.live && !s.live[id].sentKill
  }

  lemma RunClean(s: State, r: Request, spawned: bool)
    requires Sane(s) && Clean(s)
    ensures Clean(RequestRun(s, r, spawned))
  {
    hide Listed;
    var s' := RequestRun(s, r, spawned);
    assert forall id :: id in s'.singletons ==> id == |s.reqs| || id in s.singletons;
  }

  lemma EndedClean(s: State, id: Id, s': State)
    requires Sane(s) && Clean(s) && id in s.live && !s'.fault
    requires s'.live == s.live - {id} || s'.live == s.live[id := Stopped(s.live[id])]
    requires if s.live[id].req.singleton && !s.live[id].sentKill then s'.singletons == Remove(s.singletons, id)
             else s'.singletons == s.singletons
    ensures Clean(s')
  {
    hide Remove;
    RemoveMembers(s.singletons, id);
    assert s.live[id].sentKill || !s.live[id].req.singleton ==> id !in s.singletons;
  }

  lemma ExitClean(s: State, id: Id, status: Status)
    requires Inv(s) && Clean(s) && id in s.live
    ensures Clean(Exited(s, id, status))
  {
    hide Registered, Listed, Remove;
    if !s.live[id].sentKill {
      hide Exited;
      ExitedIs(s, id, status);
      EndedClean(s, id, Exited(s, id, status));
    } else {
      EndedClean(s, id, Exited(s, id, status));
    }
  }

  lemma TimeoutClean(s: State, id: Id)
    requires Inv(s) && Clean(s) && id in s.live && s.live[id].armed
    ensures Clean(TimedOut(s, id))
  {
    hide Registered, Listed, Remove;
    EndedClean(s, id, TimedOut(s, id));
  }

  lemma KillClean(s: State, udi: string)
    requires Inv(s) && Clean(s)
    ensures Clean(KillUdi(s, udi))
  {
    hide KillUdi;
    KillUdiFrame(s, udi);
    forall id | id in s.singletons
      ensures id !in Listed(s, udi)
    {
      SingletonNotListed(s, udi, id);
    }
  }

  lemma KillAllClean(s: State, order: seq<string>)
    requires Inv(s) && Clean(s) && Possible(s, EndAll(order))
    ensures Clean(KillAll(s, order)) <==> s.singletons == []
  {
    hide KillAll, Registered;
    KillAllFrame(s, order);
    if s.singletons != [] {
      assert s.singletons[0] in s.singletons;
    }
  }

  /** The list of singletons stays clean except when everything is killed while it is not empty. */
  lemma StepCleanIff(s: State, e: Event)
    requires Inv(s) && Clean(s) && Possible(s, e)
    ensures Clean(Step(s, e)) <==> !(e.EndAll? && s.singletons != [])
  {
    hide KillUdi, KillAll, Registered, Listed, Clean, RequestRun, Exited, TimedOut;
    match e
    case Run(r, spawned) => RunClean(s, r, spawned);
    case Exit(id, status) => ExitClean(s, id, status);
    case Timeout(id) => TimeoutClean(s, id);
    case Kill(udi) => KillClean(s, udi);
    case EndAll(order) => KillAllClean(s, order);
  }

  lemma SingletonNotListed(s: State, udi: string, id: Id)
    requires Inv(s) && id in s.singletons
    ensures id !in Listed(s, udi)
  {
    assert !Running(s, id);
  }

  // Over runs: exactly when a freed record is used.

  /** `x` is listed as a singleton when event `i` of the run kills everything. */
  ghost predicate ListedAt(s: State, es: seq<Event>, i: int, x: Id)
    requires AllPossible(s, es)
  {
    0 <= i < |es| && es[i].EndAll? && (PrefixPossible(s, es, i); x in RunAll(s, es[..i]).singletons)
  }

  ghost predicate ListedBefore(s: State, es: seq<Event>, x: Id)
    requires AllPossible(s, es)
  {
    exists i :: ListedAt(s, es, i, x)
  }

  /** After being so listed, `x` exits. */
  ghost predicate ExitsAfterwards(s: State, es: seq<Event>, x: Id)
    requires AllPossible(s, es)
  {
    exists i, j :: ListedAt(s, es, i, x) && i < j < |es| && es[j].Exit? && es[j].id == x
  }

  /** And after that everything is killed again. */
  ghost predicate KilledAround(s: State, es: seq<Event>)
    requires AllPossible(s, es)
  {
    exists k :: 0 <= k < |es| && es[k].EndAll? && (PrefixPossible(s, es, k); exists x :: ExitsAfterwards(s, es[..k], x))
  }

  lemma {:induction false} PrefixPossible(s: State, es: seq<Event>, k: nat)
    requires AllPossible(s, es) && k <= |es|
    ensures AllPossible(s, es[..k])
    decreases k
  {
    hide Possible, Step;
    if k > 0 {
      assert es[..k][1..] == es[1..][..k - 1];
      PrefixPossible(Step(s, es[0]), es[1..], k - 1);
    }
  }

  lemma {:induction false} RunSnoc(s: State, es: seq<Event>, e: Event)
    requires AllPossible(s, es + [e]) && Inv(s)
    ensures AllPossible(s, es) && Possible(RunAll(s, es), e) && Inv(RunAll(s, es))
    ensures RunAll(s, es + [e]) == Step(RunAll(s, es), e)
    decreases |es|
  {
    hide Possible, Step, Inv;
    if es == [] {
      assert [e][1..] == [] && [] + [e] == [e];
    } else {
      assert (es + [e])[1..] == es[1..] + [e] && (es + [e])[0] == es[0];
      StepKeepsInv(s, es[0]);
      RunSnoc(Step(s, es[0]), es[1..], e);
    }
  }

  ghost predicate Told(s: State, x: Id) {
    x in s.live && s.live[x].sentKill
  }

  /** What one event does to one singleton. */
  lemma SingletonStep(s: State, e: Event, x: Id)
    requires Inv(s) && Possible(s, e)
    ensures var s' := Step(s, e);
            if e.EndAll? then
              && (x in s'.singletons <==> x in s.singletons) && (x in s'.live <==> x in s.live)
              && (x in s.singletons && x in s.live ==> Told(s', x))
              && (s'.fault <==> s.fault || exists y :: y in s.singletons && y !in s.live)
            else
              && s'.fault == s.fault
              && if e.Exit? && e.id == x then x !in s'.live && (x in s'.singletons <==> x in s.singletons && Told(s, x))
                 else if e.Timeout? && e.id == x then x !in s'.singletons && !Told(s, x)
                 else if e.Run? && x == |s.reqs| then x !in s.singletons && (x in s'.singletons ==> x in s'.live && !Told(s', x))
                 else
                   && (x in s'.singletons <==> x in s.singletons)
                   && (x in s.singletons ==> (x in s'.live <==> x in s.live) && (Told(s', x) <==> Told(s, x)))
  {
    match e
    case Run(r, spawned) =>
      hide Listed, Registered;
      var s' := Step(s, e);
      RequestRunParts(s, r, spawned);
      assert x in s'.singletons ==> x in s.singletons || (spawned && r.singleton && x == |s.reqs|);
    case Exit(id, status) => SingletonExit(s, id, status, x);
    case Timeout(id) => SingletonTimeout(s, id, x);
    case Kill(udi) =>
      hide KillUdi;
      KillUdiFrame(s, udi);
      if x in s.singletons {
        SingletonNotListed(s, udi, x);
      }
    case EndAll(order) =>
      hide KillAll;
      KillAllFrame(s, order);
  }

  lemma SingletonExit(s: State, id: Id, status: Status, x: Id)
    requires Inv(s) && id in s.live
    ensures var s' := Exited(s, id, status);
            && s'.fault == s.fault
            && if id == x then x !in s'.live && (x in s'.singletons <==> x in s.singletons && Told(s, x))
               else
                 && (x in s'.singletons <==> x in s.singletons)
                 && (x in s'.live <==> x in s.live) && (Told(s', x) <==> Told(s, x))
  {
    hide Registered, Listed, Remove;
    RemoveMembers(s.singletons, id);
    if !s.live[id].sentKill {
      hide Exited;
      ExitedIs(s, id, status);
      assert !s.live[id].req.singleton ==> id !in s.singletons;
    }
  }

  lemma SingletonTimeout(s: State, id: Id, x: Id)
    requires Inv(s) && id in s.live && s.live[id].armed
    ensures var s' := TimedOut(s, id);
            && s'.fault == s.fault
            && if id == x then x !in s'.singletons && !Told(s, x)
               else
                 && (x in s'.singletons <==> x in s.singletons)
                 && (x in s'.live <==> x in s.live) && (Told(s', x) <==> Told(s, x))
  {
    hide Registered, Listed, Remove;
    RemoveMembers(s.singletons, id);
    assert !s.live[id].req.singleton ==> id !in s.singletons;
  }

  /** Where a run has left one singleton, told from the events alone. */
  ghost predicate Placed(s: State, es: seq<Event>, x: Id)
    requires AllPossible(s, es)
  {
    var r := RunAll(s, es);
    && (ListedBefore(s, es, x) <==> x in r.singletons && (x !in r.live || Told(r, x)))
    && (ExitsAfterwards(s, es, x) <==> x in r.singletons && x !in r.live)
  }

  lemma ListedSnoc(s: State, es: seq<Event>, e: Event, x: Id)
    requires AllPossible(s, es + [e]) && AllPossible(s, es)
    ensures ListedBefore(s, es + [e], x) <==> ListedBefore(s, es, x) || (e.EndAll? && x in RunAll(s, es).singletons)
    ensures ExitsAfterwards(s, es + [e], x)
            <==> ExitsAfterwards(s, es, x) || (e.Exit? && e.id == x && ListedBefore(s, es, x))
  {
    hide RunAll, AllPossible;
    var l := es + [e];
    assert l[..|es|] == es;
    forall i
      ensures ListedAt(s, l, i, x) <==> if i == |es| then e.EndAll? && x in RunAll(s, es).singletons else ListedAt(s, es, i, x)
    {
      if 0 <= i < |es| {
        assert l[..i] == es[..i];
      }
    }
    if ListedBefore(s, es, x) {
      var i :| ListedAt(s, es, i, x);
      assert ListedAt(s, l, i, x);
    }
    if e.EndAll? && x in RunAll(s, es).singletons {
      assert ListedAt(s, l, |es|, x);
    }
    if ExitsAfterwards(s, es, x) {
      var i, j :| ListedAt(s, es, i, x) && i < j < |es| && es[j].Exit? && es[j].id == x;
      assert ListedAt(s, l, i, x) && l[j] == es[j];
    }
    if e.Exit? && e.id == x && ListedBefore(s, es, x) {
      var i :| ListedAt(s, es, i, x);
      assert ListedAt(s, l, i, x) && l[|es|] == e;
    }
    if ExitsAfterwards(s, l, x) {
      var i, j :| ListedAt(s, l, i, x) && i < j < |l| && l[j].Exit? && l[j].id == x;
      assert ListedAt(s, es, i, x);
    }
  }

  lemma {:induction false} SingletonsArePlaced(s: State, es: seq<Event>, x: Id)
    requires Inv(s) && s.singletons == [] && AllPossible(s, es)
    ensures Placed(s, es, x)
    decreases |es|
  {
    if es == [] {
      assert RunAll(s, es).singletons == [];
    } else {
      var m := |es| - 1;
      var before, e := es[..m], es[m];
      assert es == before + [e];
      RunSnoc(s, before, e);
      SingletonsArePlaced(s, before, x);
      hide ListedBefore, ExitsAfterwards, Inv, Step, Possible, AllPossible, RunAll;
      SingletonStep(RunAll(s, before), e, x);
      ListedSnoc(s, before, e, x);
    }
  }

  /**
   Over every run that starts without singletons, a freed record is used exactly when a singleton that was listed at one
   kill of everything exits before another.
   */
  lemma {:induction false} FreedRecordIsUsedIff(s: State, es: seq<Event>)
    requires Inv(s) && s.singletons == [] && !s.fault && AllPossible(s, es)
    ensures RunAll(s, es).fault <==> KilledAround(s, es)
    decreases |es|
  {
    if es != [] {
      var m := |es| - 1;
      var before, e := es[..m], es[m];
      assert es == before + [e];
      RunSnoc(s, before, e);
      FreedRecordIsUsedIff(s, before);
      var r := RunAll(s, before);
      forall x
        ensures Placed(s, before, x)
      {
        SingletonsArePlaced(s, before, x);
      }
      hide ListedBefore, ExitsAfterwards, Inv, Step, Possible, AllPossible, RunAll, KilledAround;
      SingletonStep(r, e, 0);
      KilledSnoc(s, before, e);
      if exists y :: y in r.singletons && y !in r.live {
        var y :| y in r.singletons && y !in r.live;
        assert Placed(s, before, y);
      }
      if exists x :: ExitsAfterwards(s, before, x) {
        var x :| ExitsAfterwards(s, before, x);
        assert Placed(s, before, x);
      }
    }
  }

  lemma KilledSnoc(s: State, es: seq<Event>, e: Event)
    requires AllPossible(s, es + [e]) && AllPossible(s, es)
    ensures KilledAround(s, es + [e]) <==> KilledAround(s, es) || (e.EndAll? && exists x :: ExitsAfterwards(s, es, x))
  {
    hide RunAll, AllPossible, ExitsAfterwards;
    var l := es + [e];
    assert l[..|es|] == es;
    assert forall k :: 0 <= k < |es| ==> l[..k] == es[..k] && l[k] == es[k];
    if KilledAround(s, es) {
      var k :| 0 <= k < |es| && es[k].EndAll? && (PrefixPossible(s, es, k); exists x :: ExitsAfterwards(s, es[..k], x));
      assert l[k].EndAll?;
      PrefixPossible(s, l, k);
    }
    if e.EndAll? && exists x :: ExitsAfterwards(s, es, x) {
      assert l[|es|].EndAll?;
    }
    if KilledAround(s, l) {
      var k :| 0 <= k < |l| && l[k].EndAll? && (PrefixPossible(s, l, k); exists x :: ExitsAfterwards(s, l[..k], x));
      if k < |es| {
        assert es[k].EndAll?;
      }
    }
  }

  /** Killing everything twice answers a singleton that carries its message twice. */
  lemma KillAllTwiceAnswersTwice()
    ensures var r := Request("", true, 0, true, true, false);
            var s := KillAll(RequestRun(INIT, r, true), []);
            Replies(s.log, 0) == 1 && KilledTwice(s) && Replies(KillAll(s, []).log, 0) == 2
  {
    var r := Request("", true, 0, true, true, false);
    var s1 := RequestRun(INIT, r, true);
    assert s1.live == map[0 := RunData(r, false, false)] && s1.singletons == [0] && s1.log == [];
    assert KillUdis(s1, []) == s1;
    KillListFrame(s1, [0]);
    KillListLog(s1, [0], 0);
    TimesOnce([0], 0);
    var s := KillAll(s1, []);
    assert s.live == map[0 := RunData(r, false, true)] && s.singletons == [0];
    assert 0 in s.singletons && 0 in s.live;
    KillListLog(s, [0], 0);
    assert KillUdis(s, []) == s;
  }

  /** Killing everything twice around a singleton's exit uses its freed record. */
  lemma KillAllTwiceUsesFreedRecord()
    ensures var r := Request("", true, 0, true, false, true);
            var es := [Run(r, true), EndAll([]), Exit(0, Crashed), EndAll([])];
            AllPossible(INIT, es) && RunAll(INIT, es).fault
  {
    var r := Request("", true, 0, true, false, true);
    var e0, e1, e2, e3 := Run(r, true), EndAll([]), Exit(0, Crashed), EndAll([]);
    var es := [e0, e1, e2, e3];
    var s1 := Step(INIT, e0);
    assert s1.live == map[0 := RunData(r, false, false)] && s1.singletons == [0] && s1.udis == map[];
    var s2 := Step(s1, e1);
    assert KillUdis(s1, []) == s1;
    KillListFrame(s1, [0]);
    assert s2.live == map[0 := RunData(r, false, true)] && s2.singletons == [0] && s2.udis == map[];
    var s3 := Step(s2, e2);
    assert s3.live == map[] && s3.singletons == [0] && s3.udis == map[];
    KillListFrame(s3, [0]);
    var s4 := Step(s3, e3);
    assert 0 in s3.singletons && 0 !in s3.live;
    assert s4.fault;
    assert es[1..] == [e1, e2, e3] && es[1..][1..] == [e2, e3] && es[1..][1..][1..] == [e3] && es[1..][1..][1..][1..] == [];
    assert AllPossible(s4, []);
    assert AllPossible(s3, [e3]) && RunAll(s3, [e3]) == s4;
    assert AllPossible(s2, [e2, e3]) && RunAll(s2, [e2, e3]) == s4;
    assert AllPossible(s1, [e1, e2, e3]) && RunAll(s1, [e1, e2, e3]) == s4;
  }
}
