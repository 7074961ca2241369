/** The method queues as hald changes them in place (hald/hald_dbus.c:3972-4198). */
module MethodTable {
  import opened MethodQueue

  class Table {
    var queues: map<Udi, seq<Id>>
    var running: set<Id>
    var devices: set<Udi>
    var arrived: seq<Udi>
    var started: seq<Id>
    var log: seq<Sent>
    var fault: bool

    function Value(): State
      reads this
    {
      State(queues, running, devices, arrived, started, log, fault)
    }

    constructor (devices: set<Udi>)
      ensures Value() == Idle(devices) && Inv(Value())
    {
      this.devices := devices;
      queues, running, arrived, started, log, fault := map[], {}, [], [], [], false;
      new;
      IdleIsGood(devices);
    }

    method DoInvocation(u: Udi, id: Id, env: Env) returns (ret: bool)
      modifies this
      ensures (ret, Value()) == MethodQueue.DoInvocation(old(Value()), u, id, env)
      decreases QueueLen(Value(), u), 2
    {
      ret := false;
      if u in devices {
        started := started + [id];
        if env.fails(id) {
          Callback(u, id, Outcome(FAILED, 0, []), env);
        } else {
          running := running + {id};
        }
        ret := true;
      } else {
        log := log + [Sent(id, NoSuchDevice)];
      }
    }

    method Callback(u: Udi, id: Id, o: Outcome, env: Env)
      modifies this
      ensures Value() == MethodQueue.Callback(old(Value()), u, id, o, env)
      ensures log != [] && log[|log| - 1].id == id && IsAnswerTo(o, env.valid, log[|log| - 1].answer)
      decreases QueueLen(Value(), u), 1
    {
      ProcessQueue(u, env, false);
      var exception := o.kind == SUCCESS && |o.errors| >= 2;
      var answer;
      if o.kind != SUCCESS {
        answer := UnknownError;
      } else if exception {
        var name, detail := o.errors[0], o.errors[1];
        if !env.valid(name) {
          detail := name + " \n " + detail;
          name := UNKNOWN;
        }
        answer := Exception(name, detail);
      } else {
        answer := Return(o.code);
      }
      log := log + [Sent(id, answer)];
    }

    /** The recursive call passes a string that it then frees; otherwise the drain equals its closed form. */
    method ProcessQueue(u: Udi, env: Env, borrowed: bool)
      modifies this
      ensures Value() == MethodQueue.ProcessQueue(old(Value()), u, env, borrowed)
      ensures !borrowed ==>
                Value() == if QueueLen(old(Value()), u) > 0 then Drained(old(Value()), u, old(queues[u][1..]), env) else old(Value())
      decreases QueueLen(Value(), u), 0
    {
      DrainIs(Value(), u, env);
      hide Drained;
      if u in queues {
        var queue := queues[u];
        if queue != [] {
          queue := queue[1..];
          if queue == [] {
            queues := queues - {u};
          }
        }
        if queue != [] {
          if borrowed {
            fault := true;
            return;
          }
          queues := queues[u := queue];
          var ok := DoInvocation(u, queue[0], env);
          if !ok {
            ProcessQueue(u, env, true);
          }
        }
      }
    }

    /** The helper of request `id` reports back. */
    method Completed(id: Id, o: Outcome, env: Env)
      requires Inv(Value()) && id in running && id < |arrived|
      modifies this
      ensures Value() == Step(old(Value()), Complete(id, o, env))
      ensures log != [] && log[|log| - 1].id == id && IsAnswerTo(o, env.valid, log[|log| - 1].answer)
      ensures Inv(Value()) <==> old(arrived[id] in devices || |Rest(Value(), arrived[id])| <= 1)
    {
      ghost var s := Value();
      StepKeepsInvIff(s, Complete(id, o, env));
      hide QueuesOk, RunningOk, AnsweredOk, OrderOk, MethodQueue.Callback;
      running := running - {id};
      Callback(arrived[id], id, o, env);
    }

    /** `hald_exec_method_enqueue`. */
    method Enqueue(u: Udi, env: Env)
      modifies this
      ensures Value() == MethodQueue.Enqueue(old(Value()), u, env)
      ensures old(Inv(Value()) && (u in devices || u in queues)) ==> Inv(Value())
    {
      ghost var s := Value();
      var id := |arrived|;
      arrived := arrived + [u];
      if u in queues {
        queues := queues[u := queues[u] + [id]];
      } else {
        queues := queues[u := [id]];
        var _ := DoInvocation(u, id, env);
      }
      hide Inv;
      assert Value() == MethodQueue.Enqueue(s, u, env);
      if Inv(s) {
        StepKeepsInvIff(s, Call(u, env));
      }
    }
  }
}
