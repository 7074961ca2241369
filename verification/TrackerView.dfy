/**
 What the tracker's owner sees: plain lists of seats and of sessions with their seat and activity, without heaps and counts.
 Every signal does to these lists what it says.
 */
module TrackerView {
  import opened Options
  import opened Lists
  import opened CkTracker

  datatype SeatView = SeatView(id: SeatId, path: string)
  datatype SessionView = SessionView(id: SessionId, path: string, seat: Option<SeatId>, active: bool)

  /** The lists, and the identities the next new objects will have. */
  datatype Plain = Plain(seats: seq<SeatView>, sessions: seq<SessionView>, nextSeat: SeatId, nextSession: SessionId)

  function ViewSeat(h: Heap, t: SeatId): SeatView {
    SeatView(t, if t in h.seats then h.seats[t].path else "")
  }

  function ViewSession(h: Heap, x: SessionId): SessionView {
    if x in h.sessions then SessionView(x, h.sessions[x].path, h.sessions[x].seat, h.sessions[x].active)
    else SessionView(x, "", None, false)
  }

  function ViewSeats(h: Heap, l: seq<SeatId>): (r: seq<SeatView>)
    ensures |r| == |l| && forall i :: 0 <= i < |l| ==> r[i] == ViewSeat(h, l[i])
  {
    seq(|l|, i requires 0 <= i < |l| => ViewSeat(h, l[i]))
  }

  function ViewSessions(h: Heap, l: seq<SessionId>): (r: seq<SessionView>)
    ensures |r| == |l| && forall i :: 0 <= i < |l| ==> r[i] == ViewSession(h, l[i])
  {
    seq(|l|, i requires 0 <= i < |l| => ViewSession(h, l[i]))
  }

  function View(s: State): Plain {
    Plain(ViewSeats(s.h, s.seats), ViewSessions(s.h, s.sessions), s.h.nextSeat, s.h.nextSession)
  }

  // Signals on plain lists.

  function SeatAt(l: seq<SeatView>, path: string): Option<SeatId> {
    if l == [] then None else if l[0].path == path then Some(l[0].id) else SeatAt(l[1..], path)
  }

  function SessionAt(l: seq<SessionView>, path: string): Option<SessionId> {
    if l == [] then None else if l[0].path == path then Some(l[0].id) else SessionAt(l[1..], path)
  }

  function WithoutSeat(l: seq<SeatView>, t: SeatId): seq<SeatView> {
    if l == [] then [] else (if l[0].id == t then [] else [l[0]]) + WithoutSeat(l[1..], t)
  }

  function WithoutSession(l: seq<SessionView>, x: SessionId): seq<SessionView> {
    if l == [] then [] else (if l[0].id == x then [] else [l[0]]) + WithoutSession(l[1..], x)
  }

  /** The sessions of a seat that is gone are on no seat. */
  function Unseated(l: seq<SessionView>, t: SeatId): seq<SessionView> {
    seq(|l|, i requires 0 <= i < |l| => if l[i].seat == Some(t) then l[i].(seat := None) else l[i])
  }

  function Activated(l: seq<SessionView>, x: SessionId, active: bool): seq<SessionView> {
    seq(|l|, i requires 0 <= i < |l| => if l[i].id == x then l[i].(active := active) else l[i])
  }

  function AddSession(p: Plain, t: SeatId, path: string, info: Option<bool>): Plain {
    var p1 := p.(nextSession := p.nextSession + 1);
    if info.None? then p1
    else p1.(sessions := [SessionView(p.nextSession, path, Some(t), info.value)] + p1.sessions)
  }

  /** Reading the sessions of a seat, up to the first that ConsoleKit says nothing about. */
  function PlainSessions(p: Plain, t: SeatId, l: seq<SessionAnswer>): (bool, Plain)
    decreases |l|
  {
    if l == [] then (true, p)
    else if l[0].info.None? then (false, AddSession(p, t, l[0].path, None))
    else PlainSessions(AddSession(p, t, l[0].path, l[0].info), t, l[1..])
  }

  function PlainSeats(p: Plain, l: seq<SeatAnswer>): Plain
    decreases |l|
  {
    if l == [] then p
    else
      var t := p.nextSeat;
      var p1 := p.(nextSeat := t + 1);
      if l[0].sessions.None? then p1
      else
        var (ok, p2) := PlainSessions(p1, t, l[0].sessions.value);
        if !ok then p2 else PlainSeats(p2.(seats := [SeatView(t, l[0].path)] + p2.seats), l[1..])
  }

  function PlainStep(p: Plain, e: Signal): Plain {
    match e
    case SeatAddedSig(path) => p.(seats := [SeatView(p.nextSeat, path)] + p.seats, nextSeat := p.nextSeat + 1)
    case SeatRemovedSig(path) =>
      var t := SeatAt(p.seats, path);
      if t.None? then p else p.(seats := WithoutSeat(p.seats, t.value), sessions := Unseated(p.sessions, t.value))
    case SessionAddedSig(seat, path, info) =>
      var t := SeatAt(p.seats, seat);
      if t.None? then p else AddSession(p, t.value, path, info)
    case SessionRemovedSig(path) =>
      var x := SessionAt(p.sessions, path);
      if x.None? then p else p.(sessions := WithoutSession(p.sessions, x.value))
    case ActiveChangedSig(path, active) =>
      var x := SessionAt(p.sessions, path);
      if x.None? then p else p.(sessions := Activated(p.sessions, x.value, active))
    case NameOwnerChanged(name, was, now, answer) =>
      var ck := name == "org.freedesktop.ConsoleKit";
      var p1 := if ck && now == "" then p.(seats := [], sessions := []) else p;
      if ck && was == "" && answer.Some? then PlainSeats(p1, answer.value) else p1
  }

  // The tracker carries them out.

  lemma {:induction false} SeatFoundAt(h: Heap, l: seq<SeatId>, path: string)
    requires SeatsThere(h, l)
    ensures var r := FindSeat(h, l, path);
            r != Freed && SeatAt(ViewSeats(h, l), path) == if r.Hit? then Some(r.id) else None
  {
    hide ViewSeats;
    if l != [] {
      assert l[0] in l;
      assert ViewSeats(h, l)[1..] == ViewSeats(h, l[1..]);
      SeatFoundAt(h, l[1..], path);
    }
  }

  lemma {:induction false} SessionFoundAt(h: Heap, l: seq<SessionId>, path: string)
    requires SessionsThere(h, l)
    ensures var r := FindSession(h, l, path);
            r != Freed && SessionAt(ViewSessions(h, l), path) == if r.Hit? then Some(r.id) else None
  {
    hide ViewSessions;
    if l != [] {
      assert l[0] in l;
      assert ViewSessions(h, l)[1..] == ViewSessions(h, l[1..]);
      SessionFoundAt(h, l[1..], path);
    }
  }

  lemma {:induction false} RemovedSeats(h: Heap, l: seq<SeatId>, t: SeatId)
    requires NoDup(l)
    ensures ViewSeats(h, Remove(l, t)) == WithoutSeat(ViewSeats(h, l), t)
  {
    hide ViewSeats;
    if l != [] {
      assert ViewSeats(h, l)[1..] == ViewSeats(h, l[1..]);
      RemovedSeats(h, l[1..], t);
      if l[0] == t {
        assert t !in l[1..];
        RemoveAbsent(l[1..], t);
      } else {
        assert ViewSeats(h, [l[0]] + Remove(l[1..], t)) == [ViewSeat(h, l[0])] + ViewSeats(h, Remove(l[1..], t));
      }
    }
  }

  lemma {:induction false} RemovedSessions(h: Heap, l: seq<SessionId>, x: SessionId)
    requires NoDup(l)
    ensures ViewSessions(h, Remove(l, x)) == WithoutSession(ViewSessions(h, l), x)
  {
    hide ViewSessions;
    if l != [] {
      assert ViewSessions(h, l)[1..] == ViewSessions(h, l[1..]);
      RemovedSessions(h, l[1..], x);
      if l[0] == x {
        assert x !in l[1..];
        RemoveAbsent(l[1..], x);
      } else {
        assert ViewSessions(h, [l[0]] + Remove(l[1..], x)) == [ViewSession(h, l[0])] + ViewSessions(h, Remove(l[1..], x));
      }
    }
  }

  /** Nothing about the listed objects has changed. */
  lemma SameViews(h: Heap, h': Heap, seats: seq<SeatId>, sessions: seq<SessionId>)
    requires forall t :: t in seats ==> ViewSeat(h', t) == ViewSeat(h, t)
    requires forall x :: x in sessions ==> ViewSession(h', x) == ViewSession(h, x)
    ensures ViewSeats(h', seats) == ViewSeats(h, seats) && ViewSessions(h', sessions) == ViewSessions(h, sessions)
  {
    hide ViewSeat, ViewSession;
  }

  lemma SeatAddedView(s: State, path: string)
    requires Inv(s)
    ensures View(SeatAdded(s, path)) == PlainStep(View(s), SeatAddedSig(path))
  {
    hide LinksOk, CountsOk, PointersOk;
    var s' := SeatAdded(s, path);
    assert s.h.nextSeat !in s.seats;
    SameViews(s.h, s'.h, s.seats, s.sessions);
    assert ViewSeats(s'.h, s'.seats) == [SeatView(s.h.nextSeat, path)] + ViewSeats(s'.h, s.seats);
  }

  /** A new session on a seat. */
  lemma AttachView(s: State, t: SeatId, path: string, active: bool)
    requires Inv(s) && t in s.h.seats
    ensures var (x, h) := SessionNew(s.h, path, active);
            View(s.(h := Attach(h, t, x), sessions := [x] + s.sessions)) == AddSession(View(s), t, path, Some(active))
  {
    hide LinksOk, PointersOk;
    var (x, h) := SessionNew(s.h, path, active);
    var h' := Attach(h, t, x);
    assert x !in s.sessions && x !in s.h.sessions;
    assert h'.sessions == s.h.sessions[x := Session(2, path, Some(t), active)];
    assert h'.seats == s.h.seats[t := s.h.seats[t].(sessions := s.h.seats[t].sessions + [x])];
    assert h'.nextSeat == s.h.nextSeat && h'.nextSession == x + 1;
    SameViews(s.h, h', s.seats, s.sessions);
    assert ViewSessions(h', [x] + s.sessions) == [SessionView(x, path, Some(t), active)] + ViewSessions(h', s.sessions);
  }

  /** A session given up on is seen by nobody. */
  lemma GivenUpView(s: State, t: SeatId, path: string)
    requires Inv(s)
    ensures View(s.(h := SessionNew(s.h, path, false).1)) == AddSession(View(s), t, path, None)
  {
    hide LinksOk, PointersOk;
    var (x, h) := SessionNew(s.h, path, false);
    assert x !in s.sessions;
    SameViews(s.h, h, s.seats, s.sessions);
  }

  lemma SessionAddedView(s: State, seat: string, path: string, info: Option<bool>)
    requires Inv(s)
    ensures View(SessionAdded(s, seat, path, info)) == PlainStep(View(s), SessionAddedSig(seat, path, info))
  {
    SeatFoundAt(s.h, s.seats, seat);
    hide Attach, View, AddSession, Ok;
    var r := FindSeat(s.h, s.seats, seat);
    assert View(s).seats == ViewSeats(s.h, s.seats) by {
      ViewIs(s);
    }
    if r.Hit? {
      if info.Some? {
        AttachView(s, r.id, path, info.value);
      } else {
        GivenUpView(s, r.id, path);
      }
    }
  }

  lemma ViewIs(s: State)
    ensures View(s) == Plain(ViewSeats(s.h, s.seats), ViewSessions(s.h, s.sessions), s.h.nextSeat, s.h.nextSession)
  {
  }

  /** Taking one session out touches no other. */
  lemma OthersSame(h: Heap, t: SeatId, x: SessionId, y: SessionId)
    requires y != x
    ensures y in Detach(h, t, x).sessions <==> y in h.sessions
    ensures y in h.sessions ==> Detach(h, t, x).sessions[y] == h.sessions[y]
    ensures y in SessionUnref(h, x).sessions <==> y in h.sessions
    ensures y in h.sessions ==> SessionUnref(h, x).sessions[y] == h.sessions[y]
  {
    hide Remove;
  }

  lemma SeatPathsSame(h: Heap, t: SeatId, x: SessionId, u: SeatId)
    ensures ViewSeat(Detach(h, t, x), u) == ViewSeat(h, u) && ViewSeat(SessionUnref(h, x), u) == ViewSeat(h, u)
    ensures Detach(h, t, x).nextSeat == h.nextSeat && Detach(h, t, x).nextSession == h.nextSession
    ensures SessionUnref(h, x).nextSeat == h.nextSeat && SessionUnref(h, x).nextSession == h.nextSession
  {
    hide Remove;
  }

  lemma SessionRemovedView(s: State, path: string)
    requires Inv(s)
    ensures View(SessionRemoved(s, path)) == PlainStep(View(s), SessionRemovedSig(path))
  {
    SessionFoundAt(s.h, s.sessions, path);
    var r := FindSession(s.h, s.sessions, path);
    var s' := SessionRemoved(s, path);
    if r.Hit? {
      var x := r.id;
      var l := Remove(s.sessions, x);
      RemoveMembers(s.sessions, x);
      RemovedSessions(s.h, s.sessions, x);
      hide Detach, SessionUnref, Remove, Ok;
      var seat := s.h.sessions[x].seat;
      var h1 := if seat.Some? then Detach(s.h, seat.value, x) else s.h;
      forall y | y in l
        ensures ViewSession(s'.h, y) == ViewSession(s.h, y)
      {
        OthersSame(s.h, if seat.Some? then seat.value else 0, x, y);
        OthersSame(h1, 0, x, y);
      }
      forall u
        ensures ViewSeat(s'.h, u) == ViewSeat(s.h, u)
      {
        SeatPathsSame(s.h, if seat.Some? then seat.value else 0, x, u);
        SeatPathsSame(h1, 0, x, u);
      }
      SeatPathsSame(s.h, if seat.Some? then seat.value else 0, x, 0);
      SeatPathsSame(h1, 0, x, 0);
      SameViews(s.h, s'.h, s.seats, l);
    }
  }

  lemma ActiveChangedView(s: State, path: string, active: bool)
    requires Inv(s)
    ensures View(ActiveChanged(s, path, active)) == PlainStep(View(s), ActiveChangedSig(path, active))
  {
    SessionFoundAt(s.h, s.sessions, path);
    hide Ok;
    var r := FindSession(s.h, s.sessions, path);
    var s' := ActiveChanged(s, path, active);
    if r.Hit? {
      assert ViewSeats(s'.h, s.seats) == ViewSeats(s.h, s.seats);
      assert ViewSessions(s'.h, s.sessions) == Activated(ViewSessions(s.h, s.sessions), r.id, active);
    }
  }

  /** What is seen of a session after its seat has let go of the sessions in `l`. */
  ghost predicate LetGo(h: Heap, h': Heap, l: seq<SessionId>, y: SessionId) {
    && y in h.sessions && y in h'.sessions
    && h'.sessions[y].path == h.sessions[y].path && h'.sessions[y].active == h.sessions[y].active
    && h'.sessions[y].seat == if y in l then None else h.sessions[y].seat
  }

  lemma {:induction false} DropIsSeen(h: Heap, seats: seq<SeatId>, sessions: seq<SessionId>, t: SeatId, l: seq<SessionId>)
    requires t in h.seats && Ok(SetSessions(h, t, l), seats, sessions)
    ensures forall y :: y in sessions ==> LetGo(h, Drop(h, l), l, y)
    ensures Drop(h, l).nextSeat == h.nextSeat && Drop(h, l).nextSession == h.nextSession && Drop(h, l).seats == h.seats
    decreases |l|
  {
    var h0 := SetSessions(h, t, l);
    assert SeatSessions(h0, t) == l && NoDup(SeatSessions(h0, t));
    assert forall y :: y in sessions ==> y in h.sessions;
    if l != [] {
      var x := l[0];
      var h1 := SessionUnref(SetSeat(h, x, None), x);
      DropIsDetach(h, t, l);
      DetachOk(h0, seats, sessions, t, x);
      DropIsSeen(h1, seats, sessions, t, l[1..]);
      assert h1.sessions == Detach(h0, t, x).sessions;
      assert x !in l[1..] && forall y :: y in l <==> y == x || y in l[1..];
      hide Ok, Detach, SetSessions;
      forall y | y in sessions
        ensures LetGo(h, Drop(h, l), l, y)
      {
        assert LetGo(h1, Drop(h1, l[1..]), l[1..], y);
        if y != x {
          OthersSame(h0, t, x, y);
        }
      }
    }
  }

  lemma SeatUnrefIsSeen(h: Heap, seats: seq<SeatId>, sessions: seq<SessionId>, t: SeatId)
    requires Ok(h, seats, sessions) && t in h.seats
    ensures var h' := SeatUnref(h, t);
            && (forall y :: y in sessions ==> LetGo(h, h', h.seats[t].sessions, y))
            && (forall u :: u != t ==> ViewSeat(h', u) == ViewSeat(h, u))
            && h'.nextSeat == h.nextSeat && h'.nextSession == h.nextSession
  {
    var l := h.seats[t].sessions;
    assert h.seats[t].refcount == 1;
    assert SetSessions(h, t, l) == h;
    hide Ok, Drop;
    SeatUnrefIs(h, t);
    DropIgnoresCount(h, h.(seats := h.seats[t := h.seats[t].(refcount := 0)]), t, l);
    DropIsSeen(h, seats, sessions, t, l);
  }

  lemma SeatRemovedView(s: State, path: string)
    requires Inv(s)
    ensures View(SeatRemoved(s, path)) == PlainStep(View(s), SeatRemovedSig(path))
  {
    SeatFoundAt(s.h, s.seats, path);
    var r := FindSeat(s.h, s.seats, path);
    if r.Hit? {
      var t := r.id;
      RemoveMembers(s.seats, t);
      RemovedSeats(s.h, s.seats, t);
      SeatUnrefIsSeen(s.h, s.seats, s.sessions, t);
      UnseatedIs(s, t);
      hide SeatUnref, Remove, Ok;
      var s' := SeatRemoved(s, path);
      assert ViewSeats(s'.h, s'.seats) == ViewSeats(s.h, s'.seats);
    }
  }

  lemma UnseatedIs(s: State, t: SeatId)
    requires Inv(s) && t in s.h.seats
    requires forall y :: y in s.sessions ==> LetGo(s.h, SeatUnref(s.h, t), s.h.seats[t].sessions, y)
    ensures ViewSessions(SeatUnref(s.h, t), s.sessions) == Unseated(ViewSessions(s.h, s.sessions), t)
  {
    hide SeatUnref, SeatsOk, CountsOk, PointersOk;
    var h' := SeatUnref(s.h, t);
    var a, b := ViewSessions(h', s.sessions), Unseated(ViewSessions(s.h, s.sessions), t);
    forall i | 0 <= i < |s.sessions|
      ensures a[i] == b[i]
    {
      var y := s.sessions[i];
      assert LetGo(s.h, h', s.h.seats[t].sessions, y);
      assert y in SeatSessions(s.h, t) <==> s.h.sessions[y].seat == Some(t);
    }
  }

  // Losing and reading everything.

  lemma {:induction false} UnrefSessionsCounters(h: Heap, l: seq<SessionId>)
    ensures UnrefSessions(h, l).nextSeat == h.nextSeat && UnrefSessions(h, l).nextSession == h.nextSession
    decreases |l|
  {
    if l != [] {
      UnrefSessionsCounters(SessionUnref(h, l[0]), l[1..]);
    }
  }

  lemma {:induction false} DropCounters(h: Heap, l: seq<SessionId>)
    ensures Drop(h, l).nextSeat == h.nextSeat && Drop(h, l).nextSession == h.nextSession
    decreases |l|
  {
    if l != [] {
      DropCounters(SessionUnref(SetSeat(h, l[0], None), l[0]), l[1..]);
    }
  }

  lemma {:induction false} UnrefSeatsCounters(h: Heap, l: seq<SeatId>)
    ensures UnrefSeats(h, l).nextSeat == h.nextSeat && UnrefSeats(h, l).nextSession == h.nextSession
    decreases |l|
  {
    if l != [] {
      if l[0] in h.seats {
        DropCounters(h.(seats := h.seats[l[0] := h.seats[l[0]].(refcount := h.seats[l[0]].refcount - 1)]), h.seats[l[0]].sessions);
      }
      hide Drop;
      UnrefSeatsCounters(SeatUnref(h, l[0]), l[1..]);
    }
  }

  lemma RemoveAllView(s: State)
    ensures View(RemoveAll(s)) == View(s).(seats := [], sessions := [])
  {
    hide UnrefSeats, UnrefSessions;
    UnrefSessionsCounters(s.h, s.sessions);
    UnrefSeatsCounters(UnrefSessions(s.h, s.sessions), s.seats);
  }

  lemma {:induction false} ReadSessionsView(s: State, t: SeatId, l: seq<SessionAnswer>)
    requires Inv(s) && t in s.h.seats
    ensures var (ok, s') := ReadSessions(s, t, l);
            && (ok, View(s')) == PlainSessions(View(s), t, l)
            && ViewSeat(s'.h, t) == ViewSeat(s.h, t)
    decreases |l|
  {
    hide Ok, View, AddSession, Attach;
    if l != [] {
      if l[0].info.None? {
        GivenUpView(s, t, l[0].path);
      } else {
        var (x, h) := SessionNew(s.h, l[0].path, l[0].info.value);
        AttachOk(s.h, s.seats, s.sessions, t, l[0].path, l[0].info.value);
        AttachView(s, t, l[0].path, l[0].info.value);
        AttachKeepsSeat(h, t, x);
        ReadSessionsView(s.(h := Attach(h, t, x), sessions := [x] + s.sessions), t, l[1..]);
      }
    }
  }

  lemma AttachKeepsSeat(h: Heap, t: SeatId, x: SessionId)
    ensures ViewSeat(Attach(h, t, x), t) == ViewSeat(h, t)
    ensures t in h.seats ==> t in Attach(h, t, x).seats
  {
  }

  lemma ListSeatView(s: State, t: SeatId, path: string)
    requires ViewSeat(s.h, t) == SeatView(t, path)
    ensures View(s.(seats := [t] + s.seats)) == View(s).(seats := [SeatView(t, path)] + View(s).seats)
  {
    assert ViewSeats(s.h, [t] + s.seats) == [SeatView(t, path)] + ViewSeats(s.h, s.seats);
  }

  lemma NewSeatView(s: State, path: string)
    requires Inv(s)
    ensures var (t, h) := SeatNew(s.h, path);
            && t == View(s).nextSeat && ViewSeat(h, t) == SeatView(t, path)
            && View(s.(h := h)) == View(s).(nextSeat := t + 1)
  {
    hide LinksOk, CountsOk, PointersOk;
    var (t, h) := SeatNew(s.h, path);
    assert t !in s.seats;
    SameViews(s.h, h, s.seats, s.sessions);
  }

  lemma {:induction false} ReadSeatsView(s: State, l: seq<SeatAnswer>)
    requires Inv(s)
    ensures View(ReadSeats(s, l).1) == PlainSeats(View(s), l)
    decreases |l|
  {
    hide Ok, View, ReadSessions, PlainSessions, ViewSeat;
    if l != [] {
      var (t, h) := SeatNew(s.h, l[0].path);
      SeatNewOk(s.h, s.seats, s.sessions, l[0].path);
      NewSeatIsNew(s.h, s.seats, s.sessions, l[0].path);
      NewSeatView(s, l[0].path);
      var s1 := s.(h := h);
      if l[0].sessions.Some? {
        ReadSessionsOk(s1, t, l[0].sessions.value);
        ReadSessionsView(s1, t, l[0].sessions.value);
        var (ok, s2) := ReadSessions(s1, t, l[0].sessions.value);
        if ok {
          ListOk(s2.h, s2.seats, s2.sessions, t);
          ListSeatView(s2, t, l[0].path);
          ReadSeatsView(s2.(seats := [t] + s2.seats), l[1..]);
        }
      }
    }
  }

  /** Every signal does to what the owner sees exactly what it says. */
  lemma ProcessIsSeen(s: State, e: Signal)
    requires Inv(s)
    ensures View(Process(s, e)) == PlainStep(View(s), e)
  {
    match e
    case SeatAddedSig(path) => SeatAddedView(s, path);
    case SeatRemovedSig(path) => SeatRemovedView(s, path);
    case SessionAddedSig(seat, path, info) => SessionAddedView(s, seat, path, info);
    case SessionRemovedSig(path) => SessionRemovedView(s, path);
    case ActiveChangedSig(path, active) => ActiveChangedView(s, path, active);
    case NameOwnerChanged(name, was, now, answer) =>
      hide View, RemoveAll, ReadSeats, PlainSeats, Ok;
      RemoveAllInv(s);
      RemoveAllView(s);
      if answer.Some? {
        ReadSeatsView(s, answer.value);
        ReadSeatsView(RemoveAll(s), answer.value);
      }
  }

  function PlainAll(p: Plain, es: seq<Signal>): Plain
    decreases |es|
  {
    if es == [] then p else PlainAll(PlainStep(p, es[0]), es[1..])
  }

  /** So does every sequence of signals. */
  lemma {:induction false} RunIsSeen(s: State, es: seq<Signal>)
    requires Inv(s)
    ensures View(ProcessAll(s, es)) == PlainAll(View(s), es)
    decreases |es|
  {
    hide View, Process, PlainStep, Ok;
    if es != [] {
      ProcessIsSeen(s, es[0]);
      ProcessKeepsInv(s, es[0]);
      RunIsSeen(Process(s, es[0]), es[1..]);
    }
  }

  // By path.

  ghost predicate UniqueSession(l: seq<SessionView>, path: string) {
    && (forall i, j :: 0 <= i < j < |l| ==> l[i].id != l[j].id)
    && (forall i, j :: 0 <= i < j < |l| && l[i].path == path ==> l[j].path != path)
  }

  function OtherPaths(l: seq<SessionView>, path: string): seq<SessionView> {
    if l == [] then [] else (if l[0].path == path then [] else [l[0]]) + OtherPaths(l[1..], path)
  }

  lemma {:induction false} NoneOfPath(l: seq<SessionView>, path: string)
    requires forall i :: 0 <= i < |l| ==> l[i].path != path
    ensures OtherPaths(l, path) == l
  {
    if l != [] {
      NoneOfPath(l[1..], path);
    }
  }

  lemma {:induction false} NoneOfId(l: seq<SessionView>, x: SessionId)
    requires forall i :: 0 <= i < |l| ==> l[i].id != x
    ensures WithoutSession(l, x) == l
  {
    if l != [] {
      NoneOfId(l[1..], x);
    }
  }

  /** The found session is one of those listed. */
  lemma {:induction false} SessionAtIs(l: seq<SessionView>, path: string)
    ensures SessionAt(l, path) == None <==> forall i :: 0 <= i < |l| ==> l[i].path != path
    ensures SessionAt(l, path).Some? ==> exists i :: 0 <= i < |l| && l[i].path == path && l[i].id == SessionAt(l, path).value
  {
    if l != [] {
      SessionAtIs(l[1..], path);
      assert forall i :: 0 <= i < |l[1..]| ==> l[1..][i] == l[i + 1];
      assert forall i :: 0 < i < |l| ==> l[i] == l[1..][i - 1];
    }
  }

  lemma {:induction false} RemovedByPath(l: seq<SessionView>, path: string)
    requires UniqueSession(l, path)
    ensures (if SessionAt(l, path).None? then l else WithoutSession(l, SessionAt(l, path).value)) == OtherPaths(l, path)
  {
    if l != [] {
      var rest := l[1..];
      assert forall i :: 0 <= i < |rest| ==> rest[i] == l[i + 1];
      if l[0].path == path {
        NoneOfPath(rest, path);
        NoneOfId(rest, l[0].id);
      } else {
        RemovedByPath(rest, path);
        SessionAtIs(rest, path);
      }
    }
  }

  /** With one session of a path, its removal leaves exactly the sessions of other paths, as they were. */
  lemma SessionRemovedByPath(s: State, path: string)
    requires Inv(s) && UniqueSession(View(s).sessions, path)
    ensures View(Process(s, SessionRemovedSig(path))) == View(s).(sessions := OtherPaths(View(s).sessions, path))
  {
    hide View, Process;
    ProcessIsSeen(s, SessionRemovedSig(path));
    RemovedByPath(View(s).sessions, path);
  }

  /** And a change of activity sets that session's flag and no other. */
  lemma ActiveChangedByPath(s: State, path: string, active: bool)
    requires Inv(s) && UniqueSession(View(s).sessions, path)
    ensures var l, l' := View(s).sessions, View(Process(s, ActiveChangedSig(path, active))).sessions;
            && |l'| == |l|
            && forall i :: 0 <= i < |l| ==> l'[i] == if l[i].path == path then l[i].(active := active) else l[i]
  {
    hide View, Process;
    ProcessIsSeen(s, ActiveChangedSig(path, active));
    SessionAtIs(View(s).sessions, path);
  }

  /** After a seat is removed no listed session is on it. */
  lemma NobodyOnRemovedSeat(s: State, path: string)
    requires Inv(s) && SeatAt(View(s).seats, path).Some?
    ensures var t, p := SeatAt(View(s).seats, path).value, View(Process(s, SeatRemovedSig(path)));
            && (forall i :: 0 <= i < |p.seats| ==> p.seats[i].id != t)
            && (forall i :: 0 <= i < |p.sessions| ==> p.sessions[i].seat != Some(t))
  {
    hide View, Process;
    ProcessIsSeen(s, SeatRemovedSig(path));
    SeatIsOut(View(s).seats, SeatAt(View(s).seats, path).value);
  }

  lemma {:induction false} SeatIsOut(l: seq<SeatView>, t: SeatId)
    ensures forall i :: 0 <= i < |WithoutSeat(l, t)| ==> WithoutSeat(l, t)[i].id != t
  {
    if l != [] {
      SeatIsOut(l[1..], t);
    }
  }
}
