/**
 The lock operations as hald carries them out (hald/device.c:40-56, hald/device.c:1733-1913,
 hald/hald_dbus.c:5458-5502): property by property, with loops over snapshots.
 */
module LockManager {
  import opened Lists
  import opened DeviceLocks
  import LockRuns

  lemma ThreeLess(w: map<Dev, Props>, d: Dev, a: string, b: string, c: string)
    requires d in w
    ensures var w1 := w[d := w[d] - {a}];
            var w2 := w1[d := w1[d] - {b}];
            w2[d := w2[d] - {c}] == w[d := w[d] - {a, b, c}]
  {
    assert w[d] - {a} - {b} - {c} == w[d] - {a, b, c};
  }

  class Devices {
    var props: map<Dev, Props>
    var locked: seq<Dev>

    function State(): LockRuns.World
      reads this
    {
      LockRuns.World(props, locked)
    }

    constructor ()
      ensures State() == LockRuns.World(map[], []) && LockRuns.Good(State())
    {
      props, locked := map[], [];
      new;
      LockRuns.NothingIsGood();
    }

    /** `hal_device_property_strlist_contains`. */
    method StrlistContains(d: Dev, key: string, value: string) returns (ret: bool)
      requires d in props
      ensures ret <==> value in GetList(props[d], key)
    {
      var elems := GetList(props[d], key);
      var i := 0;
      ret := false;
      while i < |elems|
        invariant 0 <= i <= |elems| && !ret && value !in elems[..i]
      {
        if elems[i] == value {
          return true;
        }
        i := i + 1;
      }
    }

    /** `hal_device_property_strlist_remove`. */
    method StrlistRemove(d: Dev, key: string, value: string)
      requires d in props
      modifies this`props
      ensures props == old(props)[d := RemoveFromList(old(props[d]), key, value)]
    {
      if key in props[d] && props[d][key].StrList? {
        var l := RemoveLink(props[d][key].l, value);
        props := props[d := props[d][key := StrList(l)]];
      } else {
        assert props[d := props[d]] == props;
      }
    }

    /** `add_to_locked_set`. */
    method AddToLockedSet(d: Dev)
      modifies this`locked
      ensures locked == LockRuns.AddToSet(old(locked), d)
    {
      if d in locked {
        return;
      }
      locked := [d] + locked;
    }

    /** `remove_from_locked_set`. */
    method RemoveFromLockedSet(d: Dev)
      modifies this`locked
      ensures locked == Remove(old(locked), d)
    {
      locked := RemoveLink(locked, d);
    }

    method AcquireLock(d: Dev, name: string, exclusive: bool, sender: Client) returns (ret: bool)
      requires d in props
      modifies this
      ensures (ret, State()) == LockRuns.AcquireLock(old(State()), d, name, exclusive, sender)
      ensures old(LockRuns.Good(State())) && Short(name) ==> LockRuns.Good(State())
    {
      hide Key;
      ghost var w := State();
      ret := false;
      var buf := Key(name, EXCLUSIVE);
      if GetBool(props[d], buf) {
        assert props[d := props[d]] == props;
      } else {
        props := props[d := SetBool(props[d], buf, exclusive)];
        buf := Key(name, HOLDERS);
        var held := StrlistContains(d, buf, sender);
        if !(exclusive && buf in props[d]) && !held {
          props := props[d := Append(props[d], buf, sender)];
          buf := Key(name, LOCKED);
          props := props[d := SetBool(props[d], buf, true)];
          props := props[d := AddToList(props[d], LOCKS, name)];
          AddToLockedSet(d);
          ret := true;
          assert props == w.props[d := props[d]];
        }
      }
      assert (ret, State()) == LockRuns.AcquireLock(w, d, name, exclusive, sender);
      if LockRuns.Good(w) && Short(name) {
        LockRuns.AcquireIsGood(w, d, name, exclusive, sender);
      }
    }

    method RemoveProperty(d: Dev, key: string)
      requires d in props
      modifies this`props
      ensures props == old(props)[d := old(props[d]) - {key}]
    {
      props := props[d := props[d] - {key}];
    }

    /** The last holder's release: the lock's properties go, and with the last lock the device's entry. */
    method DropLock(d: Dev, name: string)
      requires d in props
      modifies this
      ensures var p1 := old(props[d]) - {Key(name, EXCLUSIVE), Key(name, LOCKED), Key(name, HOLDERS)};
              var last := |GetList(p1, LOCKS)| == 1;
              && props == old(props)[d := if last then p1 - {LOCKS} else RemoveFromList(p1, LOCKS, name)]
              && locked == if last then Remove(old(locked), d) else old(locked)
    {
      hide Key, Remove, RemoveFromList, GetList;
      ghost var w := props;
      RemoveProperty(d, Key(name, EXCLUSIVE));
      RemoveProperty(d, Key(name, LOCKED));
      RemoveProperty(d, Key(name, HOLDERS));
      ghost var p1 := w[d] - {Key(name, EXCLUSIVE), Key(name, LOCKED), Key(name, HOLDERS)};
      assert props == w[d := p1] by {
        ThreeLess(w, d, Key(name, EXCLUSIVE), Key(name, LOCKED), Key(name, HOLDERS));
      }
      if |GetList(props[d], LOCKS)| == 1 {
        RemoveProperty(d, LOCKS);
        RemoveFromLockedSet(d);
      } else {
        StrlistRemove(d, LOCKS, name);
      }
      assert w[d := p1][d := props[d]] == w[d := props[d]];
    }

    method ReleaseLock(d: Dev, name: string, sender: Client) returns (ret: bool)
      requires d in props
      modifies this
      ensures (ret, State()) == LockRuns.ReleaseLock(old(State()), d, name, sender)
      ensures old(LockRuns.Good(State())) && Short(name) ==> LockRuns.Good(State())
    {
      hide Key, Remove;
      ghost var w := State();
      ret := false;
      var held := StrlistContains(d, Key(name, HOLDERS), sender);
      if !GetBool(props[d], Key(name, LOCKED)) || !held {
        assert props[d := props[d]] == props;
      } else if |GetList(props[d], Key(name, HOLDERS))| == 1 {
        DropLock(d, name);
        ret := true;
      } else {
        StrlistRemove(d, Key(name, HOLDERS), sender);
        ret := true;
      }
      assert (ret, State()) == LockRuns.ReleaseLock(w, d, name, sender);
      if LockRuns.Good(w) && Short(name) {
        LockRuns.ReleaseIsGood(w, d, name, sender);
      }
    }

    /** `hal_device_client_disconnected`. */
    method ClientDisconnected(sender: Client)
      requires forall d :: d in locked ==> d in props
      modifies this
      ensures State() == LockRuns.Disconnected(old(State()), old(locked), sender)
      ensures old(LockRuns.Good(State())) ==>
                && LockRuns.Good(State())
                && LockRuns.Tables(State()) == LockRuns.KeepAll(old(LockRuns.Tables(State())), iset{sender})
    {
      hide Key, LockRuns.ReleaseLock, LockRuns.Good, LockRuns.Tables;
      ghost var w := State();
      var devs := locked;
      var i := 0;
      while i < |devs|
        invariant 0 <= i <= |devs| && props.Keys == w.props.Keys
        invariant LockRuns.Disconnected(w, devs, sender) == LockRuns.Disconnected(State(), devs[i..], sender)
      {
        var d := devs[i];
        var locks := GetList(props[d], LOCKS);
        ghost var w1 := State();
        var n := 0;
        while n < |locks|
          invariant 0 <= n <= |locks| && props.Keys == w.props.Keys
          invariant LockRuns.ReleaseNames(w1, d, locks, sender) == LockRuns.ReleaseNames(State(), d, locks[n..], sender)
        {
          var _ := ReleaseLock(d, locks[n], sender);
          assert locks[n..][1..] == locks[n + 1..];
          n := n + 1;
        }
        assert devs[i..][1..] == devs[i + 1..];
        i := i + 1;
      }
      if LockRuns.Good(w) {
        LockRuns.DisconnectIsExact(w, sender);
      }
    }

    /** The holders of one lock in `validate_lock_for_device`. */
    method KickHolders(d: Dev, name: string, access: (Dev, Client) -> bool)
      requires d in props
      modifies this
      ensures State() == LockRuns.KickHolders(old(State()), d, name, GetList(old(props[d]), Key(name, HOLDERS)), access)
    {
      hide Key, LockRuns.ReleaseLock;
      ghost var w := State();
      var holders := GetList(props[d], Key(name, HOLDERS));
      var m := 0;
      while m < |holders|
        invariant 0 <= m <= |holders| && props.Keys == w.props.Keys
        invariant LockRuns.KickHolders(w, d, name, holders, access)
                  == LockRuns.KickHolders(State(), d, name, holders[m..], access)
      {
        if !access(d, holders[m]) {
          var _ := ReleaseLock(d, name, holders[m]);
        }
        assert holders[m..][1..] == holders[m + 1..];
        m := m + 1;
      }
    }

    /** `validate_lock_for_device`. */
    method ValidateLockForDevice(d: Dev, access: (Dev, Client) -> bool)
      requires d in props
      modifies this
      ensures State() == LockRuns.ValidateNames(old(State()), d, GetList(old(props[d]), LOCKS), access)
    {
      hide Key, LockRuns.KickHolders;
      ghost var w := State();
      var names := GetList(props[d], LOCKS);
      var n := 0;
      while n < |names|
        invariant 0 <= n <= |names| && props.Keys == w.props.Keys
        invariant LockRuns.ValidateNames(w, d, names, access) == LockRuns.ValidateNames(State(), d, names[n..], access)
      {
        KickHolders(d, names[n], access);
        assert names[n..][1..] == names[n + 1..];
        n := n + 1;
      }
    }

    /** `hal_device_store_foreach` with `validate_lock_for_device`. */
    method ValidateStore(devs: seq<Dev>, access: (Dev, Client) -> bool)
      requires forall d :: d in devs ==> d in props
      modifies this
      ensures State() == LockRuns.Validated(old(State()), devs, access)
    {
      hide Key, LockRuns.ValidateNames;
      ghost var w := State();
      var i := 0;
      while i < |devs|
        invariant 0 <= i <= |devs| && props.Keys == w.props.Keys
        invariant LockRuns.Validated(w, devs, access) == LockRuns.Validated(State(), devs[i..], access)
      {
        ValidateLockForDevice(devs[i], access);
        assert devs[i..][1..] == devs[i + 1..];
        i := i + 1;
      }
    }

    /** `validate_locks` over the temporary and then the global store: exactly the holders with access remain. */
    method ValidateLocks(tdl: seq<Dev>, gdl: seq<Dev>, access: (Dev, Client) -> bool)
      requires LockRuns.Good(State())
      requires forall d :: d in tdl || d in gdl ==> d in props
      modifies this
      ensures LockRuns.Good(State())
      ensures LockRuns.Tables(State())
              == LockRuns.KeepDevices(old(LockRuns.Tables(State())), tdl + gdl, (d: Dev) => LockRuns.Denied(access, d))
    {
      hide Key, LockRuns.Good, LockRuns.Tables, LockRuns.Validated, LockRuns.KeepDevices;
      ghost var w := State();
      ValidateStore(tdl, access);
      LockRuns.ValidatedKeeps(w, tdl, access);
      LockRuns.ValidatedKeeps(State(), gdl, access);
      ValidateStore(gdl, access);
      LockRuns.KeepDevicesAppend(LockRuns.Tables(w), tdl, gdl, (d: Dev) => LockRuns.Denied(access, d));
    }
  }
}
