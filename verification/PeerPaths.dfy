/** Per-path accounting of a connection and the anti-amplification limit of an unvalidated server path. */
module PeerPaths {
  const USIZE_MAX: nat := 0xFFFF_FFFF_FFFF_FFFF

  type Usize = n: nat | n <= USIZE_MAX

  type Addr = nat

  datatype PathState = PathState(received: Usize, sent: Usize, validated: bool)

  type Paths = map<Addr, PathState>

  const FRESH: PathState := PathState(0, 0, false)

  function SatAdd(a: nat, b: nat): Usize { if a + b > USIZE_MAX then USIZE_MAX else a + b }

  function SatTriple(a: nat): Usize { if 3 * a > USIZE_MAX then USIZE_MAX else 3 * a }

  /** The state of a path; an address never seen is fresh. */
  function At(paths: Paths, a: Addr): PathState { if a in paths then paths[a] else FRESH }

  // ---- The plain map ----

  function Received(p: PathState, n: nat): PathState {
    if p.validated then p else p.(received := SatAdd(p.received, n))
  }

  function Sent(p: PathState, n: nat): PathState {
    if p.validated then p else p.(sent := SatAdd(p.sent, n))
  }

  /** The gate: a validated path may send anything, another at most three times what it received. */
  predicate MaySend(p: PathState, n: nat) {
    p.validated || SatAdd(p.sent, n) <= SatTriple(p.received)
  }

  /** A server connection: the path in use, every path's state, and the bytes built for the path in use but not yet
      handed to the socket. */
  datatype State = State(active: Addr, paths: Paths, unsent: nat)

  datatype Action =
    | Datagram(from: Addr, size: nat)
    | Validate(addr: Addr)
    | Switch(to: Addr)
    | BuildCoalesced(size: nat, limit: nat)
    | BuildApplication(size: nat)
    | SendTargeted(addr: Addr, size: nat)
    | Flush

  /** A send pass runs to its end before the path changes or a frame is sent to a chosen path. */
  predicate Possible(s: State, x: Action) {
    x.Switch? || x.SendTargeted? ==> s.unsent == 0
  }

  function Flushed(s: State): State {
    s.(paths := s.paths[s.active := Sent(At(s.paths, s.active), s.unsent)], unsent := 0)
  }

  function Apply(s: State, x: Action): State {
    match x
    case Datagram(from, size) => s.(paths := s.paths[from := Received(At(s.paths, from), size)])
    case Validate(addr) => s.(paths := s.paths[addr := At(s.paths, addr).(validated := true)])
    case Switch(to) => s.(active := to)
    case BuildCoalesced(size, limit) =>
      if !MaySend(At(s.paths, s.active), SatAdd(s.unsent, size)) then s
      else if s.unsent + size <= limit then s.(unsent := s.unsent + size)
      else Flushed(s).(unsent := size)
    case BuildApplication(size) =>
      if !MaySend(At(s.paths, s.active), size) then s
      else Flushed(Flushed(s).(unsent := size))
    case SendTargeted(addr, size) =>
      if !MaySend(At(s.paths, addr), size) then s
      else s.(paths := s.paths[addr := Sent(At(s.paths, addr), size)])
    case Flush => Flushed(s)
  }

  function SizeOf(x: Action): nat {
    match x
    case BuildCoalesced(size, _) => size
    case BuildApplication(size) => size
    case _ => 0
  }

  /** While nothing saturates, every byte let through on the path in use is counted once, as sent or as unsent, and no
      other path's account changes. */
  lemma BuiltBytesCounted(s: State, x: Action, a: Addr)
    requires x.BuildCoalesced? || x.BuildApplication? || x.Flush?
    requires !At(s.paths, s.active).validated && At(s.paths, s.active).sent + s.unsent + SizeOf(x) <= USIZE_MAX
    ensures var p, q := At(s.paths, s.active), At(Apply(s, x).paths, s.active);
      q.sent + Apply(s, x).unsent - p.sent - s.unsent ==
        if (x.BuildCoalesced? && MaySend(p, s.unsent + x.size)) || (x.BuildApplication? && MaySend(p, x.size))
        then SizeOf(x) else 0
    ensures (x.BuildApplication? && MaySend(At(s.paths, s.active), x.size)) || x.Flush? ==> Apply(s, x).unsent == 0
    ensures a != s.active ==> At(Apply(s, x).paths, a) == At(s.paths, a)
  {
  }

  // ---- The limit over runs ----

  function Unsent(s: State, a: Addr): nat { if a == s.active then s.unsent else 0 }

  /** What the path has sent, together with what is built for it, is within the limit. */
  predicate WithinLimit(s: State, a: Addr) { MaySend(At(s.paths, a), Unsent(s, a)) }

  ghost predicate Bounded(s: State) { forall a: Addr :: WithinLimit(s, a) }

  /** An application packet is gated without the bytes already built; this asks for room for both. */
  predicate HasRoom(s: State, x: Action) {
    x.BuildApplication? && MaySend(At(s.paths, s.active), x.size) ==>
      MaySend(At(s.paths, s.active), s.unsent + x.size)
  }

  lemma WithinLimitMeans(s: State, a: Addr)
    requires WithinLimit(s, a) && !At(s.paths, a).validated
    ensures At(s.paths, a).sent <= 3 * At(s.paths, a).received
  {
  }

  lemma StepBounded(s: State, x: Action, a: Addr)
    requires Bounded(s) && Possible(s, x) && HasRoom(s, x)
    ensures WithinLimit(Apply(s, x), a)
  {
    assert WithinLimit(s, a) && WithinLimit(s, s.active);
  }

  lemma NoRoomBreaks(s: State, x: Action)
    requires !HasRoom(s, x)
    ensures !Bounded(Apply(s, x))
  {
    assert !WithinLimit(Apply(s, x), s.active);
  }

  /** The limit holds after every step of the run. */
  ghost predicate BoundedThroughout(s: State, xs: seq<Action>)
    decreases |xs|
  {
    Bounded(s) && (xs != [] ==> BoundedThroughout(Apply(s, xs[0]), xs[1..]))
  }

  predicate CanRun(s: State, xs: seq<Action>)
    decreases |xs|
  {
    xs != [] ==> Possible(s, xs[0]) && CanRun(Apply(s, xs[0]), xs[1..])
  }

  predicate EveryGateCounts(s: State, xs: seq<Action>)
    decreases |xs|
  {
    xs != [] ==> HasRoom(s, xs[0]) && EveryGateCounts(Apply(s, xs[0]), xs[1..])
  }

  /** Over every run from a bounded state the limit holds throughout, exactly when each application packet let through
      would also have been let through counting the coalesced bytes it follows. */
  lemma {:induction false} AmplificationExactly(s: State, xs: seq<Action>)
    requires Bounded(s) && CanRun(s, xs)
    ensures BoundedThroughout(s, xs) <==> EveryGateCounts(s, xs)
    decreases |xs|
  {
    hide Apply, HasRoom, Bounded, Possible;
    if xs != [] {
      if HasRoom(s, xs[0]) {
        StepKeepsBound(s, xs[0]);
        AmplificationExactly(Apply(s, xs[0]), xs[1..]);
      } else {
        NoRoomBreaks(s, xs[0]);
      }
    }
  }

  lemma StepKeepsBound(s: State, x: Action)
    requires Bounded(s) && Possible(s, x) && HasRoom(s, x)
    ensures Bounded(Apply(s, x))
  {
    forall a: Addr ensures WithinLimit(Apply(s, x), a) {
      StepBounded(s, x, a);
    }
  }

  /** A first flight that coalesces 2400 bytes and then adds a 1300-byte application packet sends 3700 bytes for the
      1200 received. */
  lemma CoalescedFlightExceeds()
    ensures var s := State(7, map[], 0);
      var xs := [Datagram(7, 1200), BuildCoalesced(1200, 1472), BuildCoalesced(1200, 1472), BuildApplication(1300)];
      Bounded(s) && CanRun(s, xs) && !BoundedThroughout(s, xs)
  {
    var s := State(7, map[], 0);
    var s1 := Apply(s, Datagram(7, 1200));
    var s2 := Apply(s1, BuildCoalesced(1200, 1472));
    var s3 := Apply(s2, BuildCoalesced(1200, 1472));
    var xs := [Datagram(7, 1200), BuildCoalesced(1200, 1472), BuildCoalesced(1200, 1472), BuildApplication(1300)];
    assert At(s3.paths, 7) == PathState(1200, 1200, false) && s3.unsent == 1200 && s3.active == 7;
    assert !HasRoom(s3, BuildApplication(1300));
    OneStep(s3, xs[3..]);
    OneStep(s2, xs[2..]);
    OneStep(s1, xs[1..]);
    OneStep(s, xs);
    AmplificationExactly(s, xs);
  }

  lemma OneStep(s: State, xs: seq<Action>)
    requires xs != []
    ensures Possible(s, xs[0]) && CanRun(Apply(s, xs[0]), xs[1..]) ==> CanRun(s, xs)
    ensures EveryGateCounts(s, xs) ==> HasRoom(s, xs[0]) && EveryGateCounts(Apply(s, xs[0]), xs[1..])
  {
  }

  function Exec(s: State, xs: seq<Action>): State
    decreases |xs|
  {
    if xs == [] then s else Exec(Apply(s, xs[0]), xs[1..])
  }

  /** Validation is permanent, and no run validates a path without an event for that very path. */
  lemma {:induction false} ValidationPerPath(s: State, xs: seq<Action>, a: Addr)
    ensures At(Exec(s, xs).paths, a).validated <==> At(s.paths, a).validated || Validate(a) in xs
    decreases |xs|
  {
    if xs != [] {
      assert At(Apply(s, xs[0]).paths, a).validated <==> At(s.paths, a).validated || xs[0] == Validate(a);
      ValidationPerPath(Apply(s, xs[0]), xs[1..], a);
      assert xs == [xs[0]] + xs[1..];
    }
  }

  /** A packet joins the coalesced datagram whenever it fits; otherwise the datagram goes out and the packet begins the
      next. So no datagram is longer than the limit unless one packet is. */
  lemma DatagramSizes(s: State, size: nat, limit: nat)
    requires MaySend(At(s.paths, s.active), SatAdd(s.unsent, size))
    ensures var t := Apply(s, BuildCoalesced(size, limit));
      && (s.unsent + size <= limit ==> t.paths == s.paths && t.unsent == s.unsent + size)
      && (s.unsent + size > limit ==> t == Flushed(s).(unsent := size))
      && (t.unsent <= limit || t.unsent == size)
  {
  }

  /** The path in use after a run: the last one switched to. */
  function LastSwitch(xs: seq<Action>, first: Addr): Addr {
    if xs == [] then first else LastSwitch(xs[1..], if xs[0].Switch? then xs[0].to else first)
  }

  lemma {:induction false} ActiveIs(s: State, xs: seq<Action>)
    ensures Exec(s, xs).active == LastSwitch(xs, s.active)
    decreases |xs|
  {
    if xs != [] {
      ActiveIs(Apply(s, xs[0]), xs[1..]);
    }
  }

  // ---- The accounts over runs ----

  /** Bytes of the datagrams from a path along a run. */
  function Arrived(xs: seq<Action>, a: Addr): nat {
    if xs == [] then 0 else (if xs[0].Datagram? && xs[0].from == a then xs[0].size else 0) + Arrived(xs[1..], a)
  }

  /** Bytes a step may send to a path: what its gate lets through. */
  function LetThrough(s: State, x: Action, a: Addr): nat {
    match x
    case BuildCoalesced(size, _) =>
      if a == s.active && MaySend(At(s.paths, a), SatAdd(s.unsent, size)) then size else 0
    case BuildApplication(size) => if a == s.active && MaySend(At(s.paths, a), size) then size else 0
    case SendTargeted(addr, size) => if a == addr && MaySend(At(s.paths, a), size) then size else 0
    case _ => 0
  }

  function AllLetThrough(s: State, xs: seq<Action>, a: Addr): nat
    decreases |xs|
  {
    if xs == [] then 0 else LetThrough(s, xs[0], a) + AllLetThrough(Apply(s, xs[0]), xs[1..], a)
  }

  /** Bytes counted for a path as sent or built. */
  function Outgoing(s: State, a: Addr): Usize { SatAdd(At(s.paths, a).sent, Unsent(s, a)) }

  lemma AccountStep(s: State, x: Action, a: Addr)
    requires Possible(s, x) && !At(s.paths, a).validated && x != Validate(a)
    ensures var t := Apply(s, x);
      && !At(t.paths, a).validated
      && At(t.paths, a).received ==
           SatAdd(At(s.paths, a).received, if x.Datagram? && x.from == a then x.size else 0)
      && Outgoing(t, a) == SatAdd(Outgoing(s, a), LetThrough(s, x, a))
  {
  }

  lemma SatAddTwice(n: nat, a: nat, b: nat)
    ensures SatAdd(SatAdd(n, a), b) == SatAdd(n, a + b)
  {
  }

  /** Over every run, until it is validated, a path's account of bytes received is the sum of its datagrams and that of
      bytes sent or built is the sum of what the gates let through to it, both saturating. */
  lemma {:induction false} AccountsAre(s: State, xs: seq<Action>, a: Addr)
    requires CanRun(s, xs) && !At(s.paths, a).validated && Validate(a) !in xs
    ensures At(Exec(s, xs).paths, a).received == SatAdd(At(s.paths, a).received, Arrived(xs, a))
    ensures Outgoing(Exec(s, xs), a) == SatAdd(Outgoing(s, a), AllLetThrough(s, xs, a))
    decreases |xs|
  {
    hide Apply, Possible, LetThrough, Outgoing, SatAdd;
    if xs == [] {
      SatAddNone(At(s.paths, a).received);
      SatAddNone(Outgoing(s, a));
    } else {
      assert xs[0] in xs && forall x :: x in xs[1..] ==> x in xs;
      AccountStep(s, xs[0], a);
      AccountsAre(Apply(s, xs[0]), xs[1..], a);
      SatAddTwice(At(s.paths, a).received, if xs[0].Datagram? && xs[0].from == a then xs[0].size else 0,
                  Arrived(xs[1..], a));
      SatAddTwice(Outgoing(s, a), LetThrough(s, xs[0], a), AllLetThrough(Apply(s, xs[0]), xs[1..], a));
    }
  }

  lemma SatAddNone(n: Usize)
    ensures SatAdd(n, 0) == n
  {
  }

  /** Once validated, a path is no longer counted for. */
  lemma {:induction false} ValidatedAccountsStay(s: State, xs: seq<Action>, a: Addr)
    requires At(s.paths, a).validated
    ensures At(Exec(s, xs).paths, a) == At(s.paths, a)
    decreases |xs|
  {
    if xs != [] {
      ValidatedAccountsStay(Apply(s, xs[0]), xs[1..], a);
    }
  }

  // ---- The cached path ----

  datatype Side = Client | Server

  datatype Validation = Idle | Pending(addr: Addr, challenge: seq<nat>)

  /** The fields of the connection: the state of the path in use is cached beside the map, and the map's own entry for
      that path may lag behind. */
  class PathTable {
    const side: Side
    var peerAddr: Addr
    var bytesReceived: Usize
    var bytesSent: Usize
    var peerAddressValidated: bool
    var peerPaths: Paths
    var coalesced: nat
    var validation: Validation
    ghost var paths: Paths

    ghost predicate Valid()
      reads this
    {
      && (side == Server ==> paths == peerPaths[peerAddr := Cached()])
      && (side == Client ==> paths == peerPaths)
    }

    function Cached(): PathState
      reads this
    {
      PathState(bytesReceived, bytesSent, peerAddressValidated)
    }

    ghost function View(): State
      reads this
    {
      State(peerAddr, paths, coalesced)
    }

    constructor (side: Side, peerAddr: Addr, validated: bool)
      ensures Valid() && this.side == side && coalesced == 0 && this.peerAddr == peerAddr
      ensures paths == map[peerAddr := PathState(0, 0, side == Client || validated)]
    {
      this.side := side;
      this.peerAddr := peerAddr;
      bytesReceived, bytesSent, coalesced, validation := 0, 0, 0, Idle;
      peerAddressValidated := side == Client || validated;
      peerPaths := map[peerAddr := PathState(0, 0, side == Client || validated)];
      paths := map[peerAddr := PathState(0, 0, side == Client || validated)];
    }

    method PeerPathStateForAddr(addr: Addr) returns (p: PathState)
      requires Valid()
      ensures p == At(paths, addr)
    {
      if side == Server && addr == peerAddr {
        return Cached();
      }
      return At(peerPaths, addr);
    }

    method StoreActivePeerPathState()
      requires Valid()
      modifies `peerPaths
      ensures Valid() && (side == Server ==> peerPaths == paths)
    {
      if side == Server {
        peerPaths := peerPaths[peerAddr := Cached()];
      }
    }

    method SetActivePeerAddr(addr: Addr)
      requires Valid()
      modifies this
      ensures Valid() && peerAddr == addr && coalesced == old(coalesced) && validation == old(validation)
      ensures side == Client ==> paths == old(paths)
      ensures side == Server ==> addr in paths && forall a: Addr :: At(paths, a) == At(old(paths), a)
    {
      if side == Server {
        StoreActivePeerPathState();
        if addr !in peerPaths {
          peerPaths := peerPaths[addr := FRESH];
          paths := paths[addr := FRESH];
        }
      }
      peerAddr := addr;
      if side == Server {
        var p := peerPaths[peerAddr];
        bytesReceived, bytesSent, peerAddressValidated := p.received, p.sent, p.validated;
      }
    }

    method RecordUnvalidatedBytesReceived(addr: Addr, bytes: nat)
      requires Valid()
      modifies this
      ensures Valid() && validation == old(validation)
      ensures View() == if side == Server then Apply(old(View()), Datagram(addr, bytes)) else old(View())
    {
      if side != Server {
        return;
      }
      paths := paths[addr := Received(At(paths, addr), bytes)];
      if addr == peerAddr {
        if !peerAddressValidated {
          bytesReceived := SatAdd(bytesReceived, bytes);
          StoreActivePeerPathState();
        }
        return;
      }
      var p := At(peerPaths, addr);
      peerPaths := peerPaths[addr := if p.validated then p else p.(received := SatAdd(p.received, bytes))];
    }

    method RecordUnvalidatedBytesSent(addr: Addr, bytes: nat)
      requires Valid()
      modifies this
      ensures Valid() && validation == old(validation) && peerAddr == old(peerAddr) && coalesced == old(coalesced)
      ensures paths == if side == Server then old(paths)[addr := Sent(At(old(paths), addr), bytes)] else old(paths)
    {
      if side != Server {
        return;
      }
      paths := paths[addr := Sent(At(paths, addr), bytes)];
      if addr == peerAddr {
        if !peerAddressValidated {
          bytesSent := SatAdd(bytesSent, bytes);
          StoreActivePeerPathState();
        }
        return;
      }
      var p := At(peerPaths, addr);
      peerPaths := peerPaths[addr := if p.validated then p else p.(sent := SatAdd(p.sent, bytes))];
    }

    method MarkPeerPathValidated(addr: Addr)
      requires Valid()
      modifies this
      ensures Valid() && validation == old(validation)
      ensures View() == if side == Server then Apply(old(View()), Validate(addr)) else old(View())
    {
      if side != Server {
        return;
      }
      paths := paths[addr := At(paths, addr).(validated := true)];
      if addr == peerAddr {
        peerAddressValidated := true;
        StoreActivePeerPathState();
        return;
      }
      peerPaths := peerPaths[addr := At(peerPaths, addr).(validated := true)];
    }

    /** A PATH_RESPONSE validates and activates the path under validation, if it answers its challenge. */
    method ProcessPathResponse(addr: Addr, data: seq<nat>)
      requires Valid()
      modifies this
      ensures Valid() && coalesced == old(coalesced)
      ensures old(validation) != Pending(addr, data) ==> View() == old(View()) && validation == old(validation)
      ensures old(validation) == Pending(addr, data) ==> peerAddr == addr && validation == Idle
      ensures old(validation) == Pending(addr, data) && side == Server ==>
        forall a: Addr :: At(paths, a) == At(Apply(old(View()), Validate(addr)).paths, a)
    {
      if validation == Pending(addr, data) {
        MarkPeerPathValidated(addr);
        SetActivePeerAddr(addr);
        validation := Idle;
      }
    }

    method CanSendToAddr(addr: Addr, packetLen: nat) returns (ok: bool)
      requires Valid()
      ensures ok <==> side == Client || MaySend(At(paths, addr), packetLen)
    {
      if side != Server {
        return true;
      }
      var p := PeerPathStateForAddr(addr);
      if p.validated {
        return true;
      }
      return SatAdd(p.sent, packetLen) <= SatTriple(p.received);
    }

    /** An Initial or Handshake packet of the pass: gated with the coalesced bytes, then added to the datagram or
        starting the next one. */
    method BuildLongHeaderPacket(packetLen: nat, maxSize: nat) returns (built: bool)
      requires Valid()
      modifies this
      ensures Valid() && (side == Server ==> View() == Apply(old(View()), BuildCoalesced(packetLen, maxSize)))
      ensures built <==> side == Client || MaySend(At(old(paths), peerAddr), SatAdd(old(coalesced), packetLen))
      ensures side == Client ==> paths == old(paths)
    {
      built := CanSendToAddr(peerAddr, SatAdd(coalesced, packetLen));
      if !built {
        return;
      }
      if coalesced + packetLen <= maxSize {
        coalesced := coalesced + packetLen;
      } else {
        FlushDatagram();
        coalesced := packetLen;
      }
    }

    /** An application packet of the pass: gated alone, sent after the coalesced datagram. */
    method BuildApplicationPacket(packetLen: nat) returns (built: bool)
      requires Valid()
      modifies this
      ensures Valid() && (side == Server ==> View() == Apply(old(View()), BuildApplication(packetLen)))
      ensures built <==> side == Client || MaySend(At(old(paths), peerAddr), packetLen)
      ensures side == Client ==> paths == old(paths)
    {
      built := CanSendToAddr(peerAddr, packetLen);
      if !built {
        return;
      }
      FlushDatagram();
      coalesced := packetLen;
      FlushDatagram();
    }

    method FlushDatagram()
      requires Valid()
      modifies this
      ensures Valid() && coalesced == 0 && validation == old(validation) && peerAddr == old(peerAddr)
      ensures View() == if side == Server then Flushed(old(View())) else old(View()).(unsent := 0)
    {
      RecordUnvalidatedBytesSent(peerAddr, coalesced);
      coalesced := 0;
    }
  }
}
