/** The runner's callbacks as they change its tables in place (hald-runner/runner.c:132-379). */
module RunnerProcess {
  import opened Lists
  import opened Runner

  class Process {
    var live: map<Id, RunData>
    var udis: map<string, seq<Id>>
    var singletons: seq<Id>
    var log: seq<Out>
    var reqs: seq<Request>
    var fault: bool

    function Value(): State
      reads this
    {
      State(live, udis, singletons, log, reqs, fault)
    }

    constructor ()
      ensures Value() == INIT
    {
      live, udis, singletons, log, reqs, fault := map[], map[], [], [], [], false;
    }

    method SendReply(id: Id, r: Request, kind: nat, code: int)
      modifies this`log
      ensures Value() == Runner.SendReply(old(Value()), id, r, kind, code)
    {
      if !r.con || !r.msg {
        return;
      }
      log := log + [Reply(id, kind, code)];
    }

    method RemoveRunData(id: Id)
      requires id in live
      modifies this`singletons, this`udis
      ensures Value() == Runner.RemoveRunData(old(Value()), id)
    {
      var r := live[id].req;
      if r.singleton {
        singletons := RemoveLink(singletons, id);
      } else {
        var list := if r.udi in udis then udis[r.udi] else [];
        list := RemoveLink(list, id);
        udis := udis[r.udi := list];
      }
    }

    /** `run_request_run`; `spawned` tells whether the program was found and could be started. */
    method RequestRun(r: Request, spawned: bool) returns (ok: bool)
      modifies this
      ensures ok == spawned && Value() == Runner.RequestRun(old(Value()), r, spawned)
      ensures old(Inv(Value())) ==> Inv(Value())
    {
      ghost var s := Value();
      var id := |reqs|;
      reqs := reqs + [r];
      if !spawned {
        if r.con && r.msg {
          SendReply(id, r, FAILED, 0);
        }
        ok := false;
      } else {
        live := live[id := RunData(r, r.timeout > 0, false)];
        if r.singleton {
          singletons := [id] + singletons;
        } else {
          var list := if r.udi in udis then udis[r.udi] else [];
          udis := udis[r.udi := [id] + list];
        }
        ok := true;
      }
      hide Inv;
      assert Value() == Runner.RequestRun(s, r, spawned);
      if Inv(s) {
        RequestRunInv(s, r, spawned);
      }
    }

    /** `run_exited`. */
    method Exited(id: Id, status: Status)
      requires id in live
      modifies this
      ensures Value() == Runner.Exited(old(Value()), id, status)
      ensures old(Inv(Value())) ==> Inv(Value())
    {
      hide Inv, Remove;
      ghost var s := Value();
      var rd := live[id];
      if rd.sentKill {
        live := live - {id};
      } else {
        if status.Crashed? {
          SendReply(id, rd.req, FAILED, 0);
        } else if rd.req.msg {
          SendReply(id, rd.req, SUCCESS, status.code);
        }
        RemoveRunData(id);
        if rd.req.con && rd.req.wantPid {
          log := log + [PidExited(id)];
        }
        live := live - {id};
        assert log == s.log + ExitLog(id, rd.req, status);
      }
      assert Value() == Runner.Exited(s, id, status);
      if Inv(s) {
        ExitedInv(s, id, status);
      }
    }

    /** `run_timedout`, called by an armed timer. */
    method TimedOut(id: Id)
      requires id in live
      modifies this
      ensures Value() == Runner.TimedOut(old(Value()), id)
      ensures old(Inv(Value()) && live[id].armed) ==> Inv(Value())
    {
      hide Inv, Remove;
      ghost var s := Value();
      live := live[id := live[id].(armed := false)];
      live := live[id := live[id].(sentKill := true)];
      assert live == s.live[id := Stopped(s.live[id])];
      SendReply(id, live[id].req, TIMEOUT, 0);
      RemoveRunData(id);
      if Inv(s) && s.live[id].armed {
        TimedOutInv(s, id);
      }
    }

    /** `kill_rd`. */
    method KillRd(id: Id)
      modifies this`live, this`log, this`fault
      ensures Value() == Runner.KillRd(old(Value()), id)
    {
      if id !in live {
        fault := true;
        return;
      }
      ghost var s := Value();
      if live[id].armed {
        live := live[id := live[id].(armed := false)];
      }
      live := live[id := live[id].(sentKill := true)];
      assert live == s.live[id := Stopped(s.live[id])];
      if live[id].req.msg {
        SendReply(id, live[id].req, KILLED, 0);
      }
    }

    /** `g_list_foreach` with `kill_rd`. */
    method KillList(l: seq<Id>)
      modifies this`live, this`log, this`fault
      ensures Value() == Runner.KillList(old(Value()), l)
    {
      hide Runner.KillRd;
      ghost var s := Value();
      var i := 0;
      while i < |l|
        invariant 0 <= i <= |l| && Runner.KillList(s, l) == Runner.KillList(Value(), l[i..])
      {
        KillRd(l[i]);
        assert l[i..][1..] == l[i + 1..];
        i := i + 1;
      }
    }

    /** `run_kill_udi`. */
    method KillUdi(udi: string)
      modifies this`live, this`log, this`fault, this`udis
      ensures Value() == Runner.KillUdi(old(Value()), udi)
      ensures old(Inv(Value())) ==> Inv(Value())
    {
      hide Inv, Runner.KillList;
      ghost var s := Value();
      var list := if udi in udis then udis[udi] else [];
      KillList(list);
      udis := udis - {udi};
      SameUdis(s, list);
      if Inv(s) {
        KillUdiInv(s, udi);
      }
    }

    /** `run_kill_all`: the table is walked in an order of its own, reported in `order`. */
    method KillAll() returns (ghost order: seq<string>)
      requires Inv(Value())
      modifies this`live, this`log, this`fault, this`udis
      ensures forall u :: u in old(udis) <==> u in order
      ensures Value() == Runner.KillAll(old(Value()), order)
      ensures Inv(Value()) && udis == map[]
    {
      hide Inv, Runner.KillList, Runner.KillUdi, Runner.KillAll;
      ghost var s := Value();
      order := [];
      while udis.Keys != {}
        invariant Inv(Value()) && udis.Keys <= s.udis.Keys && singletons == s.singletons
        invariant forall u :: u in order ==> u in s.udis
        invariant forall u :: u in s.udis <==> u in udis || u in order
        invariant Value() == KillUdis(s, order)
        decreases |udis|
      {
        ghost var s1 := Value();
        var udi :| udi in udis;
        KillUdi(udi);
        UdisShrink(s1, udi);
        KillUdisSnoc(s, order, udi);
        order := order + [udi];
      }
      KillAllFrame(s, order);
      KillAllInv(s, order);
      KillAllIs(s, order);
      KillList(singletons);
    }
  }

  lemma SameUdis(s: State, l: seq<Id>)
    ensures Runner.KillList(s, l).udis == s.udis
  {
    KillListFrame(s, l);
  }

  lemma UdisShrink(s: State, udi: string)
    requires Inv(s) && udi in s.udis
    ensures Runner.KillUdi(s, udi).udis == s.udis - {udi} && Runner.KillUdi(s, udi).singletons == s.singletons
    ensures |s.udis - {udi}| < |s.udis|
  {
    KillUdiFrame(s, udi);
    assert (s.udis - {udi})[udi := s.udis[udi]] == s.udis;
  }

  lemma {:induction false} KillUdisSnoc(s: State, order: seq<string>, udi: string)
    ensures KillUdis(s, order + [udi]) == Runner.KillUdi(KillUdis(s, order), udi)
    decreases |order|
  {
    hide Runner.KillUdi;
    if order == [] {
      assert [udi][1..] == [];
    } else {
      assert (order + [udi])[1..] == order[1..] + [udi];
      KillUdisSnoc(Runner.KillUdi(s, order[0]), order[1..], udi);
    }
  }
}
