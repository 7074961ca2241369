/**
 Tracking of ConsoleKit seats and sessions (hald/ck-tracker.c): reference counts over a shared graph.
 Objects live in two heaps and are never given the identity of a freed one; touching a freed object sets `fault`.
 */
module CkTracker {
  import opened Options
  import opened Lists

  type SessionId = nat
  type SeatId = nat

  datatype Session = Session(refcount: int, path: string, seat: Option<SeatId>, active: bool)
  datatype Seat = Seat(refcount: int, path: string, sessions: seq<SessionId>)

  datatype Heap = Heap(sessions: map<SessionId, Session>, seats: map<SeatId, Seat>, nextSession: nat, nextSeat: nat, fault: bool)

  datatype State = State(h: Heap, seats: seq<SeatId>, sessions: seq<SessionId>)

  const INIT: State := State(Heap(map[], map[], 0, 0, false), [], [])

  // Objects.

  function SessionNew(h: Heap, path: string, active: bool): (SessionId, Heap) {
    (h.nextSession, h.(sessions := h.sessions[h.nextSession := Session(1, path, None, active)], nextSession := h.nextSession + 1))
  }

  function SeatNew(h: Heap, path: string): (SeatId, Heap) {
    (h.nextSeat, h.(seats := h.seats[h.nextSeat := Seat(1, path, [])], nextSeat := h.nextSeat + 1))
  }

  function SessionUnref(h: Heap, x: SessionId): Heap {
    if x !in h.sessions then h.(fault := true)
    else
      var r := h.sessions[x].refcount - 1;
      if r == 0 then h.(sessions := h.sessions - {x})
      else h.(sessions := h.sessions[x := h.sessions[x].(refcount := r)])
  }

  function SetSeat(h: Heap, x: SessionId, seat: Option<SeatId>): Heap {
    if x !in h.sessions then h.(fault := true) else h.(sessions := h.sessions[x := h.sessions[x].(seat := seat)])
  }

  function SetSessions(h: Heap, t: SeatId, l: seq<SessionId>): Heap {
    if t !in h.seats then h.(fault := true) else h.(seats := h.seats[t := h.seats[t].(sessions := l)])
  }

  function SessionRef(h: Heap, x: SessionId): Heap {
    if x !in h.sessions then h.(fault := true)
    else h.(sessions := h.sessions[x := h.sessions[x].(refcount := h.sessions[x].refcount + 1)])
  }

  function SeatSessions(h: Heap, t: SeatId): seq<SessionId> {
    if t in h.seats then h.seats[t].sessions else []
  }

  function Attach(h: Heap, t: SeatId, x: SessionId): Heap {
    var h1 := SetSeat(SessionRef(h, x), x, Some(t));
    SetSessions(h1, t, SeatSessions(h1, t) + [x])
  }

  function Detach(h: Heap, t: SeatId, x: SessionId): Heap {
    SessionUnref(SetSeat(SetSessions(h, t, Remove(SeatSessions(h, t), x)), x, None), x)
  }

  /** The sessions of a seat about to be freed. */
  function Drop(h: Heap, l: seq<SessionId>): Heap
    decreases |l|
  {
    if l == [] then h else Drop(SessionUnref(SetSeat(h, l[0], None), l[0]), l[1..])
  }

  function SeatUnref(h: Heap, t: SeatId): Heap {
    if t !in h.seats then h.(fault := true)
    else
      var r := h.seats[t].refcount - 1;
      var h1 := h.(seats := h.seats[t := h.seats[t].(refcount := r)]);
      if r != 0 then h1
      else var h2 := Drop(h1, h1.seats[t].sessions); h2.(seats := h2.seats - {t})
  }

  function UnrefSessions(h: Heap, l: seq<SessionId>): Heap
    decreases |l|
  {
    if l == [] then h else UnrefSessions(SessionUnref(h, l[0]), l[1..])
  }

  function UnrefSeats(h: Heap, l: seq<SeatId>): Heap
    decreases |l|
  {
    if l == [] then h else UnrefSeats(SeatUnref(h, l[0]), l[1..])
  }

  // Signals.

  /** The outcome of a walk along a list: nothing, an object, or a freed object on the way. */
  datatype Found = Missing | Hit(id: nat) | Freed

  function FindSeat(h: Heap, l: seq<SeatId>, path: string): (r: Found)
    ensures r.Hit? ==> r.id in h.seats && r.id in l && h.seats[r.id].path == path
  {
    if l == [] then Missing
    else if l[0] !in h.seats then Freed
    else if h.seats[l[0]].path == path then Hit(l[0])
    else FindSeat(h, l[1..], path)
  }

  function FindSession(h: Heap, l: seq<SessionId>, path: string): (r: Found)
    ensures r.Hit? ==> r.id in h.sessions && r.id in l && h.sessions[r.id].path == path
  {
    if l == [] then Missing
    else if l[0] !in h.sessions then Freed
    else if h.sessions[l[0]].path == path then Hit(l[0])
    else FindSession(h, l[1..], path)
  }

  function Faulted(s: State): State {
    s.(h := s.h.(fault := true))
  }

  /** A walk along a list meets no freed object. */
  ghost predicate SeatsThere(h: Heap, l: seq<SeatId>) {
    forall t :: t in l ==> t in h.seats
  }

  ghost predicate SessionsThere(h: Heap, l: seq<SessionId>) {
    forall x :: x in l ==> x in h.sessions
  }

  function SeatAdded(s: State, path: string): State {
    var (t, h) := SeatNew(s.h, path);
    s.(h := h, seats := [t] + s.seats)
  }

  function SeatRemoved(s: State, path: string): State {
    match FindSeat(s.h, s.seats, path)
    case Missing => s
    case Freed => Faulted(s)
    case Hit(t) => s.(seats := Remove(s.seats, t), h := SeatUnref(s.h, t))
  }

  /** `info` is what ConsoleKit tells about the session, if it answers. */
  function SessionAdded(s: State, seatPath: string, path: string, info: Option<bool>): State {
    match FindSeat(s.h, s.seats, seatPath)
    case Missing => s
    case Freed => Faulted(s)
    case Hit(t) =>
      var (x, h) := SessionNew(s.h, path, info.Some? && info.value);
      if info.None? then s.(h := h)
      else s.(h := Attach(h, t, x), sessions := [x] + s.sessions)
  }

  function SessionRemoved(s: State, path: string): State {
    match FindSession(s.h, s.sessions, path)
    case Missing => s
    case Freed => Faulted(s)
    case Hit(x) =>
      var h := if s.h.sessions[x].seat.Some? then Detach(s.h, s.h.sessions[x].seat.value, x) else s.h;
      s.(h := SessionUnref(h, x), sessions := Remove(s.sessions, x))
  }

  function ActiveChanged(s: State, path: string, active: bool): State {
    match FindSession(s.h, s.sessions, path)
    case Missing => s
    case Freed => Faulted(s)
    case Hit(x) => s.(h := s.h.(sessions := s.h.sessions[x := s.h.sessions[x].(active := active)]))
  }

  /** `ck_tracker_remove_all_seats_and_sessions`. */
  function RemoveAll(s: State): State {
    State(UnrefSeats(UnrefSessions(s.h, s.sessions), s.seats), [], [])
  }

  /** ConsoleKit's answers while the tracker (re)reads everything; None where a call fails. */
  datatype SessionAnswer = SessionAnswer(path: string, info: Option<bool>)
  datatype SeatAnswer = SeatAnswer(path: string, sessions: Option<seq<SessionAnswer>>)

  /** `ck_tracker_init_get_sessions_for_seat` */
  function ReadSessions(s: State, t: SeatId, l: seq<SessionAnswer>): (bool, State)
    decreases |l|
  {
    if l == [] then (true, s)
    else
      var (x, h) := SessionNew(s.h, l[0].path, l[0].info.Some? && l[0].info.value);
      if l[0].info.None? then (false, s.(h := h))
      else ReadSessions(s.(h := Attach(h, t, x), sessions := [x] + s.sessions), t, l[1..])
  }

  /** `ck_tracker_init_get_seats_and_sessions` */
  function ReadSeats(s: State, l: seq<SeatAnswer>): (bool, State)
    decreases |l|
  {
    if l == [] then (true, s)
    else
      var (t, h) := SeatNew(s.h, l[0].path);
      var s1 := s.(h := h);
      if l[0].sessions.None? then (false, s1)
      else
        var (ok, s2) := ReadSessions(s1, t, l[0].sessions.value);
        if !ok then (false, s2) else ReadSeats(s2.(seats := [t] + s2.seats), l[1..])
  }

  datatype Signal =
    | SeatAddedSig(path: string)
    | SeatRemovedSig(path: string)
    | SessionAddedSig(seat: string, path: string, info: Option<bool>)
    | SessionRemovedSig(path: string)
    | ActiveChangedSig(path: string, active: bool)
    | NameOwnerChanged(name: string, was: string, now: string, answer: Option<seq<SeatAnswer>>)

  const CONSOLEKIT: string := "org.freedesktop.ConsoleKit"

  function Init(s: State, answer: Option<seq<SeatAnswer>>): State {
    if answer.None? then s else ReadSeats(s, answer.value).1
  }

  function Process(s: State, e: Signal): State {
    match e
    case SeatAddedSig(path) => SeatAdded(s, path)
    case SeatRemovedSig(path) => SeatRemoved(s, path)
    case SessionAddedSig(seat, path, info) => SessionAdded(s, seat, path, info)
    case SessionRemovedSig(path) => SessionRemoved(s, path)
    case ActiveChangedSig(path, active) => ActiveChanged(s, path, active)
    case NameOwnerChanged(name, was, now, answer) =>
      var s1 := if now == "" && name == CONSOLEKIT then RemoveAll(s) else s;
      if was == "" && name == CONSOLEKIT then Init(s1, answer) else s1
  }

  // Conservation.

  ghost predicate SeatsOk(h: Heap, seats: seq<SeatId>) {
    && NoDup(seats) && SeatsThere(h, seats)
    && (forall t :: t in h.seats ==> h.seats[t].refcount == 1 && t < h.nextSeat)
    && (forall t :: NoDup(SeatSessions(h, t)))
  }

  /** A session's seat is the seat that lists it; nothing listed has been freed. */
  ghost predicate LinksOk(h: Heap) {
    forall t: SeatId, x: SessionId :: x in SeatSessions(h, t) <==> x in h.sessions && h.sessions[x].seat == Some(t)
  }

  /** Pointers to seats are good. */
  ghost predicate PointersOk(h: Heap) {
    forall x :: x in h.sessions && h.sessions[x].seat.Some? ==> h.sessions[x].seat.value in h.seats
  }

  function Count(session: Session, listed: bool): int {
    (if listed then 1 else 0) + (if session.seat.Some? then 1 else 0)
  }

  /** Each reference counted is held by the tracker or by the seat; a session that nobody holds was given up on creation. */
  ghost predicate CountsOk(h: Heap, sessions: seq<SessionId>) {
    && NoDup(sessions) && SessionsThere(h, sessions)
    && (forall x :: x in h.sessions ==>
          var n := Count(h.sessions[x], x in sessions);
          h.sessions[x].refcount == (if n == 0 then 1 else n) && x < h.nextSession)
  }

  ghost predicate Ok(h: Heap, seats: seq<SeatId>, sessions: seq<SessionId>) {
    !h.fault && SeatsOk(h, seats) && LinksOk(h) && PointersOk(h) && CountsOk(h, sessions)
  }

  ghost predicate Inv(s: State) {
    Ok(s.h, s.seats, s.sessions)
  }

  /** Dropping the tracker's reference. */
  lemma SessionUnrefOk(h: Heap, seats: seq<SeatId>, sessions: seq<SessionId>, x: SessionId)
    requires Ok(h, seats, sessions) && x in sessions
    ensures Ok(SessionUnref(h, x), seats, Remove(sessions, x))
  {
    hide Remove;
    RemoveMembers(sessions, x);
    var h' := SessionUnref(h, x);
    SameSeats(h, h', seats);
    assert x !in h'.sessions ==> h.sessions[x].seat == None;
    SameLinks(h, h');
    hide SeatsOk, LinksOk, SeatSessions;
  }

  /** Links only depend on the seats' lists and the sessions' seats. */
  lemma SameLinks(h: Heap, h': Heap)
    requires LinksOk(h) && (forall t :: SeatSessions(h', t) == SeatSessions(h, t))
    requires forall y :: y in h'.sessions ==> y in h.sessions && h'.sessions[y].seat == h.sessions[y].seat
    requires forall y :: y in h.sessions && y !in h'.sessions ==> h.sessions[y].seat.None?
    ensures LinksOk(h')
  {
    hide SeatSessions;
    forall t: SeatId, y: SessionId
      ensures y in SeatSessions(h', t) <==> y in h'.sessions && h'.sessions[y].seat == Some(t)
    {
      assert y in SeatSessions(h, t) <==> y in h.sessions && h.sessions[y].seat == Some(t);
    }
  }

  lemma SameSeats(h: Heap, h': Heap, seats: seq<SeatId>)
    requires SeatsOk(h, seats) && h'.seats == h.seats && h'.nextSeat == h.nextSeat
    ensures SeatsOk(h', seats) && forall t :: SeatSessions(h', t) == SeatSessions(h, t)
  {
    assert forall t :: SeatSessions(h', t) == SeatSessions(h, t);
  }

  lemma DetachOk(h: Heap, seats: seq<SeatId>, sessions: seq<SessionId>, t: SeatId, x: SessionId)
    requires Ok(h, seats, sessions) && x in SeatSessions(h, t)
    ensures Ok(Detach(h, t, x), seats, sessions)
    ensures x in h.sessions && t in h.seats
    ensures x in sessions ==> x in Detach(h, t, x).sessions && Detach(h, t, x).sessions[x] == h.sessions[x].(seat := None, refcount := 1)
  {
    hide Remove;
    var l := SeatSessions(h, t);
    RemoveMembers(l, x);
    var h' := Detach(h, t, x);
    assert forall u :: SeatSessions(h', u) == if u == t then Remove(l, x) else SeatSessions(h, u);
  }

  lemma AttachOk(h: Heap, seats: seq<SeatId>, sessions: seq<SessionId>, t: SeatId, path: string, active: bool)
    requires Ok(h, seats, sessions) && t in h.seats
    ensures var (x, h1) := SessionNew(h, path, active);
            Ok(Attach(h1, t, x), seats, [x] + sessions)
  {
    var (x, h1) := SessionNew(h, path, active);
    var h' := Attach(h1, t, x);
    assert h1.sessions[x] == Session(1, path, None, active);
    assert h'.sessions == h.sessions[x := Session(2, path, Some(t), active)];
    assert x !in h.sessions;
    assert forall u :: SeatSessions(h', u) == if u == t then SeatSessions(h, t) + [x] else SeatSessions(h, u);
    AttachSeats(h, h', seats, t, x);
    AttachLinks(h, h', t, x, path, active);
    var l := [x] + sessions;
    assert forall y :: y in l <==> y == x || y in sessions;
    assert NoDup(l);
  }

  lemma AttachSeats(h: Heap, h': Heap, seats: seq<SeatId>, t: SeatId, x: SessionId)
    requires SeatsOk(h, seats) && LinksOk(h) && x !in h.sessions && t in h.seats
    requires h'.seats == h.seats[t := h.seats[t].(sessions := h.seats[t].sessions + [x])] && h'.nextSeat == h.nextSeat
    ensures SeatsOk(h', seats)
  {
    assert x !in SeatSessions(h, t);
    forall u
      ensures NoDup(SeatSessions(h', u))
    {
      assert NoDup(SeatSessions(h, u));
    }
  }

  lemma AttachLinks(h: Heap, h': Heap, t: SeatId, x: SessionId, path: string, active: bool)
    requires LinksOk(h) && x !in h.sessions
    requires forall u :: SeatSessions(h', u) == if u == t then SeatSessions(h, t) + [x] else SeatSessions(h, u)
    requires h'.sessions == h.sessions[x := Session(2, path, Some(t), active)]
    ensures LinksOk(h')
  {
    hide SeatSessions;
    forall u: SeatId, y: SessionId
      ensures y in SeatSessions(h', u) <==> y in h'.sessions && h'.sessions[y].seat == Some(u)
    {
      assert y in SeatSessions(h, u) <==> y in h.sessions && h.sessions[y].seat == Some(u);
    }
  }

  /** A session whose information cannot be had is given up. */
  lemma GivenUpOk(h: Heap, seats: seq<SeatId>, sessions: seq<SessionId>, path: string, active: bool)
    requires Ok(h, seats, sessions)
    ensures Ok(SessionNew(h, path, active).1, seats, sessions)
  {
    var (x, h') := SessionNew(h, path, active);
    assert x !in h.sessions;
    assert forall u :: SeatSessions(h', u) == SeatSessions(h, u);
    forall u: SeatId, y: SessionId
      ensures y in SeatSessions(h', u) <==> y in h'.sessions && h'.sessions[y].seat == Some(u)
    {
      assert y in SeatSessions(h, u) <==> y in h.sessions && h.sessions[y].seat == Some(u);
    }
  }

  lemma SeatNewOk(h: Heap, seats: seq<SeatId>, sessions: seq<SessionId>, path: string)
    requires Ok(h, seats, sessions)
    ensures var (t, h') := SeatNew(h, path);
            Ok(h', seats, sessions) && Ok(h', [t] + seats, sessions)
  {
    var (t, h') := SeatNew(h, path);
    assert t !in h.seats && t !in seats;
    assert forall u :: SeatSessions(h', u) == SeatSessions(h, u);
    assert forall u: SeatId, y: SessionId :: y in SeatSessions(h', u) <==> y in SeatSessions(h, u);
  }

  /** A seat that is no longer listed. */
  lemma UnlistOk(h: Heap, seats: seq<SeatId>, sessions: seq<SessionId>, t: SeatId)
    requires Ok(h, seats, sessions)
    ensures Ok(h, Remove(seats, t), sessions) && t !in Remove(seats, t)
  {
    hide Remove;
    RemoveMembers(seats, t);
  }

  /** Forgetting the sessions of `t` one by one is detaching them from the front of its list. */
  lemma DropIsDetach(h: Heap, t: SeatId, l: seq<SessionId>)
    requires t in h.seats && l != []
    ensures SetSessions(SessionUnref(SetSeat(h, l[0], None), l[0]), t, l[1..]) == Detach(SetSessions(h, t, l), t, l[0])
  {
    var x := l[0];
    assert Remove(l, x) == l[1..];
    var h0 := SetSessions(h, t, l);
    assert SetSessions(h0, t, l[1..]) == SetSessions(h, t, l[1..]);
  }

  lemma {:induction false} DropOk(h: Heap, seats: seq<SeatId>, sessions: seq<SessionId>, t: SeatId, l: seq<SessionId>)
    requires t in h.seats && Ok(SetSessions(h, t, l), seats, sessions)
    ensures t in Drop(h, l).seats && Drop(h, l).seats == h.seats && Ok(SetSessions(Drop(h, l), t, []), seats, sessions)
    decreases |l|
  {
    hide Ok, Detach;
    if l != [] {
      var h1 := SessionUnref(SetSeat(h, l[0], None), l[0]);
      DropIsDetach(h, t, l);
      assert SeatSessions(SetSessions(h, t, l), t) == l;
      DetachOk(SetSessions(h, t, l), seats, sessions, t, l[0]);
      DropOk(h1, seats, sessions, t, l[1..]);
    }
  }

  lemma EmptySeatGoes(h: Heap, seats: seq<SeatId>, sessions: seq<SessionId>, t: SeatId)
    requires Ok(SetSessions(h, t, []), seats, sessions) && t in h.seats && t !in seats
    ensures Ok(h.(seats := h.seats - {t}), seats, sessions)
  {
    var h0, h' := SetSessions(h, t, []), h.(seats := h.seats - {t});
    assert forall u :: SeatSessions(h', u) == SeatSessions(h0, u);
    assert forall u :: u in h'.seats ==> u in h0.seats && h0.seats[u] == h'.seats[u];
    assert SeatSessions(h0, t) == [];
    forall x | x in h'.sessions && h'.sessions[x].seat.Some?
      ensures h'.sessions[x].seat.value in h'.seats
    {
      assert x in SeatSessions(h0, h0.sessions[x].seat.value);
    }
    assert forall u: SeatId, y: SessionId :: y in SeatSessions(h', u) <==> y in SeatSessions(h0, u);
  }

  lemma SeatUnrefOk(h: Heap, seats: seq<SeatId>, sessions: seq<SessionId>, t: SeatId)
    requires Ok(h, seats, sessions) && t in h.seats && t !in seats
    ensures Ok(SeatUnref(h, t), seats, sessions)
  {
    var l := h.seats[t].sessions;
    var h1 := h.(seats := h.seats[t := h.seats[t].(refcount := 0)]);
    assert h.seats[t].refcount == 1;
    SeatUnrefIs(h, t);
    DropIgnoresCount(h, h1, t, l);
    assert SetSessions(h, t, l) == h;
    DropOk(h, seats, sessions, t, l);
    EmptySeatGoes(Drop(h, l), seats, sessions, t);
  }

  lemma SeatUnrefIs(h: Heap, t: SeatId)
    requires t in h.seats && h.seats[t].refcount == 1
    ensures var h2 := Drop(h.(seats := h.seats[t := h.seats[t].(refcount := 0)]), h.seats[t].sessions);
            SeatUnref(h, t) == h2.(seats := h2.seats - {t})
  {
    hide Drop;
  }

  /** The seat's own count does not matter to its sessions. */
  lemma {:induction false} DropIgnoresCount(h: Heap, h1: Heap, t: SeatId, l: seq<SessionId>)
    requires t in h.seats && h1 == h.(seats := h1.seats) && h1.seats - {t} == h.seats - {t}
    ensures var d, d1 := Drop(h, l), Drop(h1, l);
            d1 == d.(seats := h1.seats) && d.seats == h.seats
    decreases |l|
  {
    if l != [] {
      var g, g1 := SessionUnref(SetSeat(h, l[0], None), l[0]), SessionUnref(SetSeat(h1, l[0], None), l[0]);
      DropIgnoresCount(g, g1, t, l[1..]);
    }
  }

  lemma {:induction false} UnrefSessionsOk(h: Heap, seats: seq<SeatId>, l: seq<SessionId>)
    requires Ok(h, seats, l)
    ensures Ok(UnrefSessions(h, l), seats, [])
    decreases |l|
  {
    hide Ok, SessionUnref;
    if l != [] {
      SessionUnrefOk(h, seats, l, l[0]);
      assert Remove(l, l[0]) == l[1..];
      UnrefSessionsOk(SessionUnref(h, l[0]), seats, l[1..]);
    }
  }

  lemma {:induction false} UnrefSeatsOk(h: Heap, l: seq<SeatId>, sessions: seq<SessionId>)
    requires Ok(h, l, sessions)
    ensures Ok(UnrefSeats(h, l), [], sessions)
    decreases |l|
  {
    if l != [] {
      assert l[0] in l && l[0] in h.seats;
      hide Ok, SeatUnref;
      UnlistOk(h, l, sessions, l[0]);
      assert Remove(l, l[0]) == l[1..];
      SeatUnrefOk(h, l[1..], sessions, l[0]);
      UnrefSeatsOk(SeatUnref(h, l[0]), l[1..], sessions);
    }
  }

  lemma {:induction false} ReadSessionsOk(s: State, t: SeatId, l: seq<SessionAnswer>)
    requires Inv(s) && t in s.h.seats
    ensures var s' := ReadSessions(s, t, l).1;
            Inv(s') && t in s'.h.seats && s'.seats == s.seats && s'.h.seats.Keys == s.h.seats.Keys
    decreases |l|
  {
    hide Ok;
    if l != [] {
      var (x, h) := SessionNew(s.h, l[0].path, l[0].info.Some? && l[0].info.value);
      if l[0].info.None? {
        GivenUpOk(s.h, s.seats, s.sessions, l[0].path, false);
      } else {
        AttachOk(s.h, s.seats, s.sessions, t, l[0].path, l[0].info.value);
        ReadSessionsOk(s.(h := Attach(h, t, x), sessions := [x] + s.sessions), t, l[1..]);
      }
    }
  }

  /** A seat that is there and was never listed can be listed. */
  lemma ListOk(h: Heap, seats: seq<SeatId>, sessions: seq<SessionId>, t: SeatId)
    requires Ok(h, seats, sessions) && t in h.seats && t !in seats
    ensures Ok(h, [t] + seats, sessions)
  {
    var l := [t] + seats;
    assert NoDup(l);
    assert forall u :: u in l <==> u == t || u in seats;
  }

  lemma NewSeatIsNew(h: Heap, seats: seq<SeatId>, sessions: seq<SessionId>, path: string)
    requires Ok(h, seats, sessions)
    ensures SeatNew(h, path).0 !in seats && SeatNew(h, path).0 in SeatNew(h, path).1.seats
  {
  }

  lemma {:induction false} ReadSeatsOk(s: State, l: seq<SeatAnswer>)
    requires Inv(s)
    ensures Inv(ReadSeats(s, l).1)
    decreases |l|
  {
    hide Ok, ReadSessions;
    if l != [] {
      var (t, h) := SeatNew(s.h, l[0].path);
      SeatNewOk(s.h, s.seats, s.sessions, l[0].path);
      NewSeatIsNew(s.h, s.seats, s.sessions, l[0].path);
      var s1 := s.(h := h);
      if l[0].sessions.Some? {
        ReadSessionsOk(s1, t, l[0].sessions.value);
        var (ok, s2) := ReadSessions(s1, t, l[0].sessions.value);
        if ok {
          ListOk(s2.h, s2.seats, s2.sessions, t);
          ReadSeatsOk(s2.(seats := [t] + s2.seats), l[1..]);
        }
      }
    }
  }

  lemma {:induction false} SeatFound(h: Heap, l: seq<SeatId>, path: string)
    requires SeatsThere(h, l)
    ensures FindSeat(h, l, path) != Freed
    ensures FindSeat(h, l, path) == Missing <==> forall t :: t in l ==> h.seats[t].path != path
  {
    if l != [] {
      assert l[0] in l;
      assert forall t :: t in l <==> t == l[0] || t in l[1..];
      SeatFound(h, l[1..], path);
    }
  }

  lemma {:induction false} SessionFound(h: Heap, l: seq<SessionId>, path: string)
    requires SessionsThere(h, l)
    ensures FindSession(h, l, path) != Freed
    ensures FindSession(h, l, path) == Missing <==> forall x :: x in l ==> h.sessions[x].path != path
  {
    if l != [] {
      assert l[0] in l;
      assert forall x :: x in l <==> x == l[0] || x in l[1..];
      SessionFound(h, l[1..], path);
    }
  }

  lemma RemoveAllInv(s: State)
    requires Inv(s)
    ensures Inv(RemoveAll(s))
  {
    hide Ok, UnrefSeats, UnrefSessions;
    UnrefSessionsOk(s.h, s.seats, s.sessions);
    UnrefSeatsOk(UnrefSessions(s.h, s.sessions), s.seats, []);
  }

  lemma SeatRemovedInv(s: State, path: string)
    requires Inv(s)
    ensures Inv(SeatRemoved(s, path))
  {
    hide Remove, SeatUnref;
    SeatFound(s.h, s.seats, path);
    var r := FindSeat(s.h, s.seats, path);
    if r.Hit? {
      UnlistOk(s.h, s.seats, s.sessions, r.id);
      SeatUnrefOk(s.h, Remove(s.seats, r.id), s.sessions, r.id);
    }
  }

  lemma SessionAddedInv(s: State, seat: string, path: string, info: Option<bool>)
    requires Inv(s)
    ensures Inv(SessionAdded(s, seat, path, info))
  {
    SeatFound(s.h, s.seats, seat);
    hide Ok, Attach;
    var r := FindSeat(s.h, s.seats, seat);
    if r.Hit? {
      if info.Some? {
        AttachOk(s.h, s.seats, s.sessions, r.id, path, info.value);
      } else {
        GivenUpOk(s.h, s.seats, s.sessions, path, false);
      }
    }
  }

  lemma SessionRemovedInv(s: State, path: string)
    requires Inv(s)
    ensures Inv(SessionRemoved(s, path))
  {
    SessionFound(s.h, s.sessions, path);
    var r := FindSession(s.h, s.sessions, path);
    if r.Hit? {
      var x := r.id;
      var seat := s.h.sessions[x].seat;
      assert seat.Some? ==> x in SeatSessions(s.h, seat.value);
      hide Ok, Detach, SessionUnref, Remove;
      if seat.Some? {
        DetachOk(s.h, s.seats, s.sessions, seat.value, x);
        SessionUnrefOk(Detach(s.h, seat.value, x), s.seats, s.sessions, x);
      } else {
        SessionUnrefOk(s.h, s.seats, s.sessions, x);
      }
    }
  }

  lemma ActiveChangedInv(s: State, path: string, active: bool)
    requires Inv(s)
    ensures Inv(ActiveChanged(s, path, active))
  {
    SessionFound(s.h, s.sessions, path);
    var s' := ActiveChanged(s, path, active);
    SameSeats(s.h, s'.h, s.seats);
    SameLinks(s.h, s'.h);
    hide SeatsOk, LinksOk, SeatSessions, FindSession;
  }

  /**
   Every signal conserves references: counts equal the number of lists that hold the session, a session's seat is the seat
   that lists it, and nothing that can be reached has been freed.
   */
  lemma ProcessKeepsInv(s: State, e: Signal)
    requires Inv(s)
    ensures Inv(Process(s, e))
  {
    hide Inv, RemoveAll, ReadSeats, SeatAdded, SeatRemoved, SessionAdded, SessionRemoved, ActiveChanged;
    match e
    case SeatAddedSig(path) => SeatAddedInv(s, path);
    case SeatRemovedSig(path) => SeatRemovedInv(s, path);
    case SessionAddedSig(seat, path, info) => SessionAddedInv(s, seat, path, info);
    case SessionRemovedSig(path) => SessionRemovedInv(s, path);
    case ActiveChangedSig(path, active) => ActiveChangedInv(s, path, active);
    case NameOwnerChanged(name, was, now, answer) =>
      RemoveAllInv(s);
      if answer.Some? {
        ReadSeatsOk(s, answer.value);
        ReadSeatsOk(RemoveAll(s), answer.value);
      }
  }

  lemma SeatAddedInv(s: State, path: string)
    requires Inv(s)
    ensures Inv(SeatAdded(s, path))
  {
    hide Ok;
    SeatNewOk(s.h, s.seats, s.sessions, path);
  }

  function ProcessAll(s: State, es: seq<Signal>): State
    decreases |es|
  {
    if es == [] then s else ProcessAll(Process(s, es[0]), es[1..])
  }

  lemma {:induction false} RunKeepsInv(s: State, es: seq<Signal>)
    requires Inv(s)
    ensures Inv(ProcessAll(s, es))
    decreases |es|
  {
    hide Inv, Process;
    if es != [] {
      ProcessKeepsInv(s, es[0]);
      RunKeepsInv(Process(s, es[0]), es[1..]);
    }
  }

  lemma InitIsGood()
    ensures Inv(INIT) && Tidy(INIT)
  {
  }

  // Leaks.

  /** Every session is held by the tracker or by a seat, and every seat by the tracker (or is `spare`). */
  ghost predicate Held(h: Heap, seats: seq<SeatId>, sessions: seq<SessionId>, spare: int) {
    && (forall x :: x in h.sessions ==> x in sessions || h.sessions[x].seat.Some?)
    && (forall t :: t in h.seats ==> t in seats || t == spare)
  }

  ghost predicate Tidy(s: State) {
    Held(s.h, s.seats, s.sessions, -1)
  }

  lemma SessionUnrefHeld(h: Heap, seats: seq<SeatId>, sessions: seq<SessionId>, x: SessionId, spare: int)
    requires Ok(h, seats, sessions) && x in sessions && Held(h, seats, sessions, spare)
    ensures Held(SessionUnref(h, x), seats, Remove(sessions, x), spare)
  {
    hide Remove, SeatsOk, LinksOk;
    RemoveMembers(sessions, x);
    assert h.sessions[x].refcount == Count(h.sessions[x], true);
  }

  lemma DetachHeld(h: Heap, seats: seq<SeatId>, sessions: seq<SessionId>, t: SeatId, x: SessionId, spare: int)
    requires Ok(h, seats, sessions) && x in SeatSessions(h, t) && Held(h, seats, sessions, spare)
    ensures Held(Detach(h, t, x), seats, sessions, spare)
  {
    hide Remove;
    assert x in h.sessions && h.sessions[x].seat == Some(t);
    assert h.sessions[x].refcount == Count(h.sessions[x], x in sessions);
  }

  lemma {:induction false} DropHeld(h: Heap, seats: seq<SeatId>, sessions: seq<SessionId>, t: SeatId, l: seq<SessionId>)
    requires t in h.seats && Ok(SetSessions(h, t, l), seats, sessions) && Held(h, seats, sessions, t)
    ensures Held(Drop(h, l), seats, sessions, t)
    decreases |l|
  {
    hide Ok, Detach;
    if l != [] {
      var h0 := SetSessions(h, t, l);
      var h1 := SessionUnref(SetSeat(h, l[0], None), l[0]);
      DropIsDetach(h, t, l);
      assert SeatSessions(h0, t) == l;
      DetachOk(h0, seats, sessions, t, l[0]);
      assert Held(h0, seats, sessions, t);
      DetachHeld(h0, seats, sessions, t, l[0], t);
      assert h1.sessions == Detach(h0, t, l[0]).sessions && h1.seats == h.seats;
      DropHeld(h1, seats, sessions, t, l[1..]);
    }
  }

  lemma SeatUnrefHeld(h: Heap, seats: seq<SeatId>, sessions: seq<SessionId>, t: SeatId)
    requires Ok(h, seats, sessions) && t in h.seats && t !in seats && Held(h, seats, sessions, t)
    ensures Held(SeatUnref(h, t), seats, sessions, -1)
  {
    var l := h.seats[t].sessions;
    assert h.seats[t].refcount == 1;
    assert SetSessions(h, t, l) == h;
    hide Ok, Drop;
    SeatUnrefIs(h, t);
    DropIgnoresCount(h, h.(seats := h.seats[t := h.seats[t].(refcount := 0)]), t, l);
    DropHeld(h, seats, sessions, t, l);
  }

  lemma {:induction false} UnrefSessionsHeld(h: Heap, seats: seq<SeatId>, l: seq<SessionId>)
    requires Ok(h, seats, l) && Held(h, seats, l, -1)
    ensures Held(UnrefSessions(h, l), seats, [], -1)
    decreases |l|
  {
    hide Ok, Held, SessionUnref;
    if l != [] {
      SessionUnrefOk(h, seats, l, l[0]);
      SessionUnrefHeld(h, seats, l, l[0], -1);
      assert Remove(l, l[0]) == l[1..];
      UnrefSessionsHeld(SessionUnref(h, l[0]), seats, l[1..]);
    }
  }

  lemma {:induction false} UnrefSeatsHeld(h: Heap, l: seq<SeatId>, sessions: seq<SessionId>)
    requires Ok(h, l, sessions) && Held(h, l, sessions, -1)
    ensures Held(UnrefSeats(h, l), [], sessions, -1)
    decreases |l|
  {
    if l != [] {
      assert l[0] in l && l[0] in h.seats;
      assert Held(h, l[1..], sessions, l[0]);
      hide Ok, Held, SeatUnref;
      UnlistOk(h, l, sessions, l[0]);
      assert Remove(l, l[0]) == l[1..];
      SeatUnrefOk(h, l[1..], sessions, l[0]);
      SeatUnrefHeld(h, l[1..], sessions, l[0]);
      UnrefSeatsHeld(SeatUnref(h, l[0]), l[1..], sessions);
    }
  }

  /** When ConsoleKit goes away, everything is freed. */
  lemma RemoveAllFreesAll(s: State)
    requires Inv(s) && Tidy(s)
    ensures var s' := RemoveAll(s);
            Tidy(s') && s'.h.sessions == map[] && s'.h.seats == map[]
  {
    hide UnrefSeats, UnrefSessions;
    RemoveAllInv(s);
    UnrefSessionsOk(s.h, s.seats, s.sessions);
    UnrefSessionsHeld(s.h, s.seats, s.sessions);
    UnrefSeatsHeld(UnrefSessions(s.h, s.sessions), s.seats, []);
    hide SeatsOk, LinksOk, CountsOk;
    var h := RemoveAll(s).h;
    assert h.seats == map[];
    assert forall x :: x !in h.sessions;
  }

  lemma AttachHeld(h: Heap, seats: seq<SeatId>, sessions: seq<SessionId>, t: SeatId, path: string, active: bool)
    requires t in h.seats && Held(h, seats, sessions, t)
    ensures var (x, h1) := SessionNew(h, path, active);
            Held(Attach(h1, t, x), seats, [x] + sessions, t) && Attach(h1, t, x).seats.Keys == h.seats.Keys
  {
  }

  lemma ListTidy(s: State, t: SeatId)
    requires Held(s.h, s.seats, s.sessions, t)
    ensures Tidy(s.(seats := [t] + s.seats))
  {
  }

  /** ConsoleKit answers every question about these sessions. */
  ghost predicate AllKnown(l: seq<SessionAnswer>) {
    forall i :: 0 <= i < |l| ==> l[i].info.Some?
  }

  ghost predicate Complete(a: SeatAnswer) {
    a.sessions.Some? && AllKnown(a.sessions.value)
  }

  ghost predicate AllComplete(l: seq<SeatAnswer>) {
    forall i :: 0 <= i < |l| ==> Complete(l[i])
  }

  lemma AllKnownStep(l: seq<SessionAnswer>)
    requires l != []
    ensures AllKnown(l) <==> l[0].info.Some? && AllKnown(l[1..])
  {
    assert forall i :: 0 <= i < |l[1..]| ==> l[1..][i] == l[i + 1];
    assert forall i :: 0 < i < |l| ==> l[i] == l[1..][i - 1];
  }

  lemma AllCompleteStep(l: seq<SeatAnswer>)
    requires l != []
    ensures AllComplete(l) <==> Complete(l[0]) && AllComplete(l[1..])
  {
    assert forall i :: 0 <= i < |l[1..]| ==> l[1..][i] == l[i + 1];
    assert forall i :: 0 < i < |l| ==> l[i] == l[1..][i - 1];
  }

  /** A session that could not be asked about is held by nobody. */
  lemma GivenUpIsLost(s: State, path: string)
    requires Inv(s)
    ensures !Tidy(s.(h := SessionNew(s.h, path, false).1))
  {
    var (x, h) := SessionNew(s.h, path, false);
    assert x !in s.sessions && x in h.sessions && h.sessions[x].seat.None?;
  }

  lemma {:induction false} ReadSessionsTidyIff(s: State, t: SeatId, l: seq<SessionAnswer>)
    requires Inv(s) && t in s.h.seats && Held(s.h, s.seats, s.sessions, t)
    ensures var (ok, s') := ReadSessions(s, t, l);
            && (ok ==> Held(s'.h, s'.seats, s'.sessions, t))
            && (!ok ==> !Tidy(s'))
            && (ok <==> AllKnown(l))
    decreases |l|
  {
    hide Ok, Attach, Held, AllKnown, Tidy;
    if l == [] {
      NothingToKnow();
    } else {
      AllKnownStep(l);
      if l[0].info.None? {
        GivenUpIsLost(s, l[0].path);
      } else {
        var (x, h) := SessionNew(s.h, l[0].path, l[0].info.value);
        AttachOk(s.h, s.seats, s.sessions, t, l[0].path, l[0].info.value);
        AttachHeld(s.h, s.seats, s.sessions, t, l[0].path, l[0].info.value);
        ReadSessionsTidyIff(s.(h := Attach(h, t, x), sessions := [x] + s.sessions), t, l[1..]);
      }
    }
  }

  lemma NothingToKnow()
    ensures AllKnown([]) && AllComplete([])
  {
  }

  /** A new seat is held by nobody yet. */
  lemma NewSeatIsSpare(s: State, path: string)
    requires Inv(s) && Tidy(s)
    ensures var (t, h) := SeatNew(s.h, path);
            Held(h, s.seats, s.sessions, t) && !Tidy(s.(h := h))
  {
    var (t, h) := SeatNew(s.h, path);
    assert t in h.seats && t !in s.seats;
  }

  lemma {:induction false} ReadSeatsTidyIff(s: State, l: seq<SeatAnswer>)
    requires Inv(s) && Tidy(s)
    ensures Tidy(ReadSeats(s, l).1) <==> AllComplete(l)
    decreases |l|
  {
    hide Ok, ReadSessions, AllComplete, AllKnown, Tidy, Held;
    if l == [] {
      NothingToKnow();
    } else {
      AllCompleteStep(l);
      var (t, h) := SeatNew(s.h, l[0].path);
      SeatNewOk(s.h, s.seats, s.sessions, l[0].path);
      NewSeatIsNew(s.h, s.seats, s.sessions, l[0].path);
      NewSeatIsSpare(s, l[0].path);
      var s1 := s.(h := h);
      if l[0].sessions.Some? {
        ReadSessionsOk(s1, t, l[0].sessions.value);
        ReadSessionsTidyIff(s1, t, l[0].sessions.value);
        var (ok, s2) := ReadSessions(s1, t, l[0].sessions.value);
        if ok {
          ListOk(s2.h, s2.seats, s2.sessions, t);
          ListTidy(s2, t);
          ReadSeatsTidyIff(s2.(seats := [t] + s2.seats), l[1..]);
        }
      }
    }
  }

  /** The signals that leave an object behind that nothing refers to: ConsoleKit did not answer a question. */
  ghost predicate Leaks(s: State, e: Signal) {
    match e
    case SessionAddedSig(seat, _, info) => info.None? && exists t :: t in s.seats && t in s.h.seats && s.h.seats[t].path == seat
    case NameOwnerChanged(name, was, _, answer) =>
      name == CONSOLEKIT && was == "" && answer.Some? && !AllComplete(answer.value)
    case _ => false
  }

  lemma SeatRemovedTidy(s: State, path: string)
    requires Inv(s) && Tidy(s)
    ensures Tidy(SeatRemoved(s, path))
  {
    hide Remove, SeatUnref;
    SeatFound(s.h, s.seats, path);
    var r := FindSeat(s.h, s.seats, path);
    if r.Hit? {
      RemoveMembers(s.seats, r.id);
      UnlistOk(s.h, s.seats, s.sessions, r.id);
      SeatUnrefHeld(s.h, Remove(s.seats, r.id), s.sessions, r.id);
    }
  }

  lemma SessionAddedTidyIff(s: State, seat: string, path: string, info: Option<bool>)
    requires Inv(s) && Tidy(s)
    ensures Tidy(SessionAdded(s, seat, path, info)) <==> !Leaks(s, SessionAddedSig(seat, path, info))
  {
    SeatFound(s.h, s.seats, seat);
    var r := FindSeat(s.h, s.seats, seat);
    assert forall t :: t in s.seats ==> t in s.h.seats;
    if r.Hit? {
      var (x, h) := SessionNew(s.h, path, info.Some? && info.value);
      assert x !in s.sessions && x !in s.h.sessions;
      assert r.id in s.seats && r.id in s.h.seats && s.h.seats[r.id].path == seat;
    }
  }

  lemma SessionRemovedTidy(s: State, path: string)
    requires Inv(s) && Tidy(s)
    ensures Tidy(SessionRemoved(s, path))
  {
    SessionFound(s.h, s.sessions, path);
    var r := FindSession(s.h, s.sessions, path);
    if r.Hit? {
      var x := r.id;
      var seat := s.h.sessions[x].seat;
      assert seat.Some? ==> x in SeatSessions(s.h, seat.value);
      hide Ok, Detach, SessionUnref, Remove;
      if seat.Some? {
        DetachOk(s.h, s.seats, s.sessions, seat.value, x);
        DetachHeld(s.h, s.seats, s.sessions, seat.value, x, -1);
        SessionUnrefHeld(Detach(s.h, seat.value, x), s.seats, s.sessions, x, -1);
      } else {
        SessionUnrefHeld(s.h, s.seats, s.sessions, x, -1);
      }
    }
  }

  /** Nothing leaks, except when ConsoleKit fails to answer while a session or seat is read. */
  lemma ProcessTidyIff(s: State, e: Signal)
    requires Inv(s) && Tidy(s)
    ensures Tidy(Process(s, e)) <==> !Leaks(s, e)
  {
    match e
    case SeatAddedSig(path) =>
    case SeatRemovedSig(path) =>
      hide Tidy, SeatRemoved;
      SeatRemovedTidy(s, path);
    case SessionAddedSig(seat, path, info) =>
      hide Tidy, SessionAdded;
      SessionAddedTidyIff(s, seat, path, info);
    case SessionRemovedSig(path) =>
      hide Tidy, SessionRemoved;
      SessionRemovedTidy(s, path);
    case ActiveChangedSig(path, active) =>
      SessionFound(s.h, s.sessions, path);
    case NameOwnerChanged(name, was, now, answer) =>
      hide Tidy, RemoveAll, ReadSeats, Inv;
      RemoveAllFreesAll(s);
      RemoveAllInv(s);
      if answer.Some? {
        ReadSeatsTidyIff(s, answer.value);
        ReadSeatsTidyIff(RemoveAll(s), answer.value);
      }
  }

  /** Over any run in which ConsoleKit answers, nothing leaks. */
  lemma {:induction false} RunIsTidy(s: State, es: seq<Signal>)
    requires Inv(s) && Tidy(s)
    requires forall i :: 0 <= i < |es| ==> Answered(es[i])
    ensures Tidy(ProcessAll(s, es))
    decreases |es|
  {
    hide Inv, Process, Tidy;
    if es != [] {
      ProcessKeepsInv(s, es[0]);
      ProcessTidyIff(s, es[0]);
      assert Answered(es[0]);
      assert forall i :: 0 <= i < |es[1..]| ==> es[1..][i] == es[i + 1];
      RunIsTidy(Process(s, es[0]), es[1..]);
    }
  }

  ghost predicate Answered(e: Signal) {
    match e
    case SessionAddedSig(_, _, info) => info.Some?
    case NameOwnerChanged(_, _, _, answer) => answer.Some? ==> AllComplete(answer.value)
    case _ => true
  }
}
