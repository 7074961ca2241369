/** Who is kept out of an interface by locks (hald/access-check.c:378-547). */
module AccessCheck {
  import opened Options
  import opened DeviceLocks
  import LockRuns

  const COMPUTER: string := "/org/freedesktop/Hal/devices/computer"

  /** The two device stores, by UDI. */
  datatype Stores = Stores(gdl: map<string, Dev>, tdl: map<string, Dev>)

  function Computer(s: Stores): Option<Dev> {
    if COMPUTER in s.gdl then Some(s.gdl[COMPUTER])
    else if COMPUTER in s.tdl then Some(s.tdl[COMPUTER])
    else None
  }

  ghost predicate Known(s: Stores, props: map<Dev, Props>) {
    && (forall u :: u in s.gdl ==> s.gdl[u] in props)
    && (forall u :: u in s.tdl ==> s.tdl[u] in props)
  }

  /** `hal_device_get_lock_holders`; no holders and NULL are the same to the callers here. */
  function LockHolders(props: map<Dev, Props>, d: Dev, name: string): seq<Client>
    requires d in props
  {
    GetList(props[d], Key(name, HOLDERS))
  }

  function GlobalName(iface: string): string {
    "Global." + iface
  }

  /** The computer is the device of that UDI, looked up first in the global store; global locks are its locks with a prefix. */
  lemma ComputerAndGlobalLock(s: Stores, iface: string)
    ensures var udi := "/org/freedesktop/Hal/devices/computer";
            && (udi in s.gdl ==> Computer(s) == Some(s.gdl[udi]))
            && (udi !in s.gdl && udi in s.tdl ==> Computer(s) == Some(s.tdl[udi]))
            && (udi !in s.gdl && udi !in s.tdl ==> Computer(s) == None)
    ensures |GlobalName(iface)| == 7 + |iface| && GlobalName(iface)[..7] == "Global." && GlobalName(iface)[7..] == iface
  {
  }

  /**
   A caller is locked out of a locked interface unless it holds the lock on the device, or the global
   lock together with access to the device.
   */
  ghost predicate LockedOut(holders: seq<Client>, globals: seq<Client>, access: Client -> bool, caller: Client) {
    && caller !in holders
    && !(caller in globals && access(caller))
    && (holders != [] || exists b :: b in globals && b != caller && access(b))
  }

  /** Somebody else holds the lock on the device, or the global lock together with access to the device. */
  ghost predicate LockedByOthers(holders: seq<Client>, globals: seq<Client>, access: Client -> bool, caller: Option<Client>) {
    || (exists b :: b in holders && Some(b) != caller)
    || (exists b :: b in globals && Some(b) != caller && access(b))
  }

  /** `access_check_caller_locked_out`. */
  method CallerLockedOut(s: Stores, props: map<Dev, Props>, access: (Dev, Client) -> bool, d: Dev, caller: Client, iface: string)
    returns (ret: bool)
    requires d in props && Known(s, props)
    ensures Computer(s).None? ==> ret
    ensures Computer(s).Some? ==>
              (ret <==> LockedOut(LockHolders(props, d, iface), LockHolders(props, Computer(s).value, GlobalName(iface)),
                                  c => access(d, c), caller))
  {
    hide Key;
    var computer := Computer(s);
    if computer.None? {
      return true;
    }
    var holders := LockHolders(props, d, iface);
    var globals := LockHolders(props, computer.value, GlobalName(iface));
    var isLocked := false;
    var n := 0;
    while n < |holders|
      invariant 0 <= n <= |holders|
      invariant caller !in holders[..n]
      invariant isLocked <==> n > 0
    {
      isLocked := true;
      if holders[n] == caller {
        return false;
      }
      n := n + 1;
    }
    n := 0;
    while n < |globals|
      invariant 0 <= n <= |globals|
      invariant access(d, caller) ==> caller !in globals[..n]
      invariant isLocked <==> holders != [] || exists b :: b in globals[..n] && b != caller && access(d, b)
    {
      if globals[n] == caller {
        if access(d, globals[n]) {
          return false;
        }
      } else if access(d, globals[n]) {
        isLocked := true;
      }
      assert globals[..n + 1] == globals[..n] + [globals[n]];
      n := n + 1;
    }
    assert globals[..n] == globals && holders[..|holders|] == holders;
    return isLocked;
  }

  /** `access_check_locked_by_others`; a caller without a name is connected directly. */
  method OthersHoldLock(s: Stores, props: map<Dev, Props>, access: (Dev, Client) -> bool, d: Dev, caller: Option<Client>, iface: string)
    returns (ret: bool)
    requires d in props && Known(s, props)
    ensures Computer(s).None? ==> ret
    ensures Computer(s).Some? ==>
              (ret <==> LockedByOthers(LockHolders(props, d, iface), LockHolders(props, Computer(s).value, GlobalName(iface)),
                                       c => access(d, c), caller))
  {
    hide Key;
    var computer := Computer(s);
    if computer.None? {
      return true;
    }
    var holders := LockHolders(props, d, iface);
    var globals := LockHolders(props, computer.value, GlobalName(iface));
    var n := 0;
    while n < |holders|
      invariant 0 <= n <= |holders|
      invariant forall i :: 0 <= i < n ==> Some(holders[i]) == caller
    {
      if caller.None? || holders[n] != caller.value {
        assert holders[n] in holders;
        return true;
      }
      n := n + 1;
    }
    n := 0;
    while n < |globals|
      invariant 0 <= n <= |globals|
      invariant forall i :: 0 <= i < n ==> Some(globals[i]) == caller || !access(d, globals[i])
    {
      if caller.None? || globals[n] != caller.value {
        if access(d, globals[n]) {
          assert globals[n] in globals;
          return true;
        }
      }
      n := n + 1;
    }
    return false;
  }

  /** Being locked out means that others hold the lock; the converse needs that the caller holds none itself. */
  lemma LockedOutIff(holders: seq<Client>, globals: seq<Client>, access: Client -> bool, caller: Client)
    ensures LockedOut(holders, globals, access, caller)
            <==> && LockedByOthers(holders, globals, access, Some(caller))
                 && caller !in holders && !(caller in globals && access(caller))
  {
    if caller !in holders && holders != [] {
      assert holders[0] in holders;
    }
  }

  /**
   The rule as documented (hald/access-check.c:360-366), in which the caller's own global lock counts
   even without access to the device.
   */
  ghost predicate Documented(holders: seq<Client>, globals: seq<Client>, access: Client -> bool, caller: Client) {
    && caller !in holders && caller !in globals
    && (|| (exists b :: b in holders && b != caller)
        || (exists b :: b in globals && b != caller && access(b)))
  }

  /** The code follows the documented rule except for a holder of the global lock without access to a locked device. */
  lemma DocumentedIff(holders: seq<Client>, globals: seq<Client>, access: Client -> bool, caller: Client)
    ensures (LockedOut(holders, globals, access, caller) <==> Documented(holders, globals, access, caller))
            <==> !(&& caller in globals && !access(caller)
                   && LockedByOthers(holders, globals, access, Some(caller)) && caller !in holders)
  {
    LockedOutIff(holders, globals, access, caller);
  }

  /** An exclusive lock on a device keeps out every other caller except holders of the global lock with access. */
  lemma OwnedLocksOut(w: LockRuns.World, d: Dev, iface: string, a: Client, globals: seq<Client>, access: Client -> bool, caller: Client)
    requires LockRuns.Good(w) && LockRuns.Owned(LockRuns.Tables(w), d, iface, a)
    ensures d in w.props
    ensures LockedOut(LockHolders(w.props, d, iface), globals, access, caller)
            <==> caller != a && !(caller in globals && access(caller))
  {
    hide Key, Encoded;
    LockRuns.HoldersFine(w, d, iface);
    assert LockHolders(w.props, d, iface) == [a];
  }

  /** The same at any later time, as long as the exclusive grant has not ended. */
  lemma ExclusiveGrantLocksOut(w: LockRuns.World, d: Dev, iface: string, a: Client, es: seq<LockRuns.Event>,
                               s: Stores, access: (Dev, Client) -> bool, caller: Client)
    requires LockRuns.Good(w) && LockRuns.AllAllowed(w, [LockRuns.Request(d, iface, true, a)] + es)
    requires LockRuns.Step(w, LockRuns.Request(d, iface, true, a)).0
    requires forall i :: 0 <= i < |es| ==> !LockRuns.Ends(es[i], d, iface, a)
    ensures var w' := LockRuns.Run(w, [LockRuns.Request(d, iface, true, a)] + es);
            && d in w'.props
            && (Known(s, w'.props) && Computer(s).Some? ==>
                  var globals := LockHolders(w'.props, Computer(s).value, GlobalName(iface));
                  (LockedOut(LockHolders(w'.props, d, iface), globals, c => access(d, c), caller)
                   <==> caller != a && !(caller in globals && access(d, caller))))
  {
    hide LockRuns.Good, LockRuns.Tables, LockRuns.Step, LockRuns.Ends, LockRuns.Run, LockRuns.AllAllowed, Key, LockedOut;
    LockRuns.ExclusiveGrantExcludes(w, d, iface, a, es);
    var w' := LockRuns.Run(w, [LockRuns.Request(d, iface, true, a)] + es);
    OwnedLocksOut(w', d, iface, a, [], c => access(d, c), caller);
    if Known(s, w'.props) && Computer(s).Some? {
      OwnedLocksOut(w', d, iface, a, LockHolders(w'.props, Computer(s).value, GlobalName(iface)), c => access(d, c), caller);
    }
  }
}
