/** The tracker's signal handler as it changes objects and lists in place (hald/ck-tracker.c:75-150, hald/ck-tracker.c:431-706). */
module TrackerProcess {
  import opened Options
  import opened Lists
  import opened CkTracker
  import opened TrackerView

  class Tracker {
    var h: Heap
    var seats: seq<SeatId>
    var sessions: seq<SessionId>

    function Value(): State
      reads this
    {
      State(h, seats, sessions)
    }

    constructor ()
      ensures Value() == INIT && Inv(Value()) && Tidy(Value())
    {
      h, seats, sessions := INIT.h, [], [];
      new;
      InitIsGood();
    }

    method SessionUnref(x: SessionId)
      modifies this`h
      ensures h == CkTracker.SessionUnref(old(h), x)
    {
      if x !in h.sessions {
        h := h.(fault := true);
        return;
      }
      var r := h.sessions[x].refcount - 1;
      if r == 0 {
        h := h.(sessions := h.sessions - {x});
      } else {
        h := h.(sessions := h.sessions[x := h.sessions[x].(refcount := r)]);
      }
    }

    method SeatUnref(t: SeatId)
      modifies this`h
      ensures h == CkTracker.SeatUnref(old(h), t)
    {
      hide CkTracker.SessionUnref;
      if t !in h.seats {
        h := h.(fault := true);
        return;
      }
      var r := h.seats[t].refcount - 1;
      h := h.(seats := h.seats[t := h.seats[t].(refcount := r)]);
      if r == 0 {
        var l := h.seats[t].sessions;
        ghost var h1 := h;
        var i := 0;
        while i < |l|
          invariant 0 <= i <= |l| && Drop(h1, l) == Drop(h, l[i..])
        {
          h := SetSeat(h, l[i], None);
          SessionUnref(l[i]);
          assert l[i..][1..] == l[i + 1..];
          i := i + 1;
        }
        h := h.(seats := h.seats - {t});
      }
    }

    method DetachSession(t: SeatId, x: SessionId)
      modifies this`h
      ensures h == Detach(old(h), t, x)
    {
      var l := RemoveLink(SeatSessions(h, t), x);
      h := SetSessions(h, t, l);
      h := SetSeat(h, x, None);
      SessionUnref(x);
    }

    method AttachSession(t: SeatId, x: SessionId)
      modifies this`h
      ensures h == Attach(old(h), t, x)
    {
      h := SessionRef(h, x);
      h := SetSeat(h, x, Some(t));
      h := SetSessions(h, t, SeatSessions(h, t) + [x]);
    }

    method FindSeat(path: string) returns (r: Found)
      ensures r == CkTracker.FindSeat(h, seats, path)
    {
      var i := 0;
      while i < |seats|
        invariant 0 <= i <= |seats| && CkTracker.FindSeat(h, seats, path) == CkTracker.FindSeat(h, seats[i..], path)
      {
        if seats[i] !in h.seats {
          return Freed;
        }
        if h.seats[seats[i]].path == path {
          return Hit(seats[i]);
        }
        assert seats[i..][1..] == seats[i + 1..];
        i := i + 1;
      }
      return Missing;
    }

    method FindSession(path: string) returns (r: Found)
      ensures r == CkTracker.FindSession(h, sessions, path)
    {
      var i := 0;
      while i < |sessions|
        invariant 0 <= i <= |sessions|
        invariant CkTracker.FindSession(h, sessions, path) == CkTracker.FindSession(h, sessions[i..], path)
      {
        if sessions[i] !in h.sessions {
          return Freed;
        }
        if h.sessions[sessions[i]].path == path {
          return Hit(sessions[i]);
        }
        assert sessions[i..][1..] == sessions[i + 1..];
        i := i + 1;
      }
      return Missing;
    }

    method SeatRemoved(path: string)
      modifies this
      ensures Value() == CkTracker.SeatRemoved(old(Value()), path)
    {
      hide CkTracker.SeatUnref, Remove;
      var r := FindSeat(path);
      match r
      case Missing =>
      case Freed => h := h.(fault := true);
      case Hit(t) =>
        seats := RemoveLink(seats, t);
        SeatUnref(t);
    }

    method SessionAdded(seatPath: string, path: string, info: Option<bool>)
      modifies this
      ensures Value() == CkTracker.SessionAdded(old(Value()), seatPath, path, info)
    {
      hide Attach;
      var r := FindSeat(seatPath);
      match r
      case Missing =>
      case Freed => h := h.(fault := true);
      case Hit(t) =>
        var (x, h1) := SessionNew(h, path, info.Some? && info.value);
        h := h1;
        if info.Some? {
          AttachSession(t, x);
          sessions := [x] + sessions;
        }
    }

    method SessionRemoved(path: string)
      modifies this
      ensures Value() == CkTracker.SessionRemoved(old(Value()), path)
    {
      hide Detach, CkTracker.SessionUnref, Remove;
      var r := FindSession(path);
      match r
      case Missing =>
      case Freed => h := h.(fault := true);
      case Hit(x) =>
        if h.sessions[x].seat.Some? {
          DetachSession(h.sessions[x].seat.value, x);
        }
        sessions := RemoveLink(sessions, x);
        SessionUnref(x);
    }

    method ActiveChanged(path: string, active: bool)
      modifies this
      ensures Value() == CkTracker.ActiveChanged(old(Value()), path, active)
    {
      var r := FindSession(path);
      match r
      case Missing =>
      case Freed => h := h.(fault := true);
      case Hit(x) => h := h.(sessions := h.sessions[x := h.sessions[x].(active := active)]);
    }

    /** `ck_tracker_remove_all_seats_and_sessions`. */
    method RemoveAllSeatsAndSessions()
      modifies this
      ensures Value() == RemoveAll(old(Value()))
    {
      hide CkTracker.SessionUnref, CkTracker.SeatUnref;
      ghost var s := Value();
      var i := 0;
      while i < |sessions|
        invariant 0 <= i <= |sessions| && sessions == s.sessions && seats == s.seats
        invariant UnrefSessions(s.h, sessions) == UnrefSessions(h, sessions[i..])
      {
        SessionUnref(sessions[i]);
        assert sessions[i..][1..] == sessions[i + 1..];
        i := i + 1;
      }
      sessions := [];
      ghost var h1 := h;
      i := 0;
      while i < |seats|
        invariant 0 <= i <= |seats| && sessions == [] && seats == s.seats
        invariant UnrefSeats(h1, seats) == UnrefSeats(h, seats[i..])
      {
        SeatUnref(seats[i]);
        assert seats[i..][1..] == seats[i + 1..];
        i := i + 1;
      }
      seats := [];
    }

    /** `ck_tracker_init_get_sessions_for_seat`. */
    method InitGetSessionsForSeat(t: SeatId, l: seq<SessionAnswer>) returns (ret: bool)
      modifies this
      ensures (ret, Value()) == ReadSessions(old(Value()), t, l)
    {
      hide Attach;
      ghost var s := Value();
      var i := 0;
      while i < |l|
        invariant 0 <= i <= |l| && ReadSessions(s, t, l) == ReadSessions(Value(), t, l[i..])
      {
        var (x, h1) := SessionNew(h, l[i].path, l[i].info.Some? && l[i].info.value);
        h := h1;
        if l[i].info.None? {
          return false;
        }
        AttachSession(t, x);
        sessions := [x] + sessions;
        assert l[i..][1..] == l[i + 1..];
        i := i + 1;
      }
      return true;
    }

    /** `ck_tracker_init`. */
    method Init(answer: Option<seq<SeatAnswer>>)
      modifies this
      ensures Value() == CkTracker.Init(old(Value()), answer)
    {
      hide ReadSessions;
      if answer.None? {
        return;
      }
      ghost var s := Value();
      var l := answer.value;
      var i := 0;
      while i < |l|
        invariant 0 <= i <= |l| && ReadSeats(s, l) == ReadSeats(Value(), l[i..])
      {
        var (t, h1) := SeatNew(h, l[i].path);
        h := h1;
        if l[i].sessions.None? {
          return;
        }
        var ok := InitGetSessionsForSeat(t, l[i].sessions.value);
        if !ok {
          return;
        }
        seats := [t] + seats;
        assert l[i..][1..] == l[i + 1..];
        i := i + 1;
      }
    }

    /** `ck_tracker_process_system_bus_message`: no signal reaches a freed object or miscounts a reference. */
    method ProcessSystemBusMessage(e: Signal)
      requires Inv(Value())
      modifies this
      ensures Value() == Process(old(Value()), e)
      ensures View(Value()) == PlainStep(old(View(Value())), e)
      ensures Inv(Value()) && !h.fault
    {
      hide CkTracker.SeatRemoved, CkTracker.SessionAdded, CkTracker.SessionRemoved, CkTracker.ActiveChanged, RemoveAll,
           CkTracker.Init, SeatsOk, LinksOk, CountsOk, PointersOk, View, PlainStep;
      ghost var s := Value();
      match e
      {
        case SeatAddedSig(path) =>
          var (t, h1) := SeatNew(h, path);
          h := h1;
          seats := [t] + seats;
        case SeatRemovedSig(path) => SeatRemoved(path);
        case SessionAddedSig(seat, path, info) => SessionAdded(seat, path, info);
        case SessionRemovedSig(path) => SessionRemoved(path);
        case ActiveChangedSig(path, active) => ActiveChanged(path, active);
        case NameOwnerChanged(name, was, now, answer) =>
          if now == "" && name == CONSOLEKIT {
            RemoveAllSeatsAndSessions();
          }
          if was == "" && name == CONSOLEKIT {
            Init(answer);
          }
      }
      ProcessKeepsInv(s, e);
      ProcessIsSeen(s, e);
    }
  }
}
