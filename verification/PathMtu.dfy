/** Path MTU search of one path: probe sizes, their outcome, and where the search ends. */
module PathMtu {
  const USIZE_MAX: nat := 0xFFFF_FFFF_FFFF_FFFF
  const MAX_DATAGRAM_SIZE: nat := 1472
  const MAX_LOCAL_UDP_PAYLOAD_SIZE: nat := 65527

  datatype Probe = NoProbe | InFlight(pn: nat, size: nat)

  /** `current` is the datagram size in use; the three limits bound the search from above. */
  datatype Search = Search(current: nat, local: nat, peer: nat, upper: nat, probe: Probe)

  datatype ProbeSize = Done | Size(size: nat)

  function Min(a: nat, b: nat): nat { if a < b then a else b }

  function Limit(s: Search): nat { Min(Min(s.local, s.peer), s.upper) }

  function SatDouble(n: nat): nat { Min(2 * n, USIZE_MAX) }

  /** Double while the limit allows it, then halve the gap, rounding up. */
  function Candidate(current: nat, limit: nat): nat {
    if limit < SatDouble(current) then current + (limit - current + 1) / 2 else SatDouble(current)
  }

  function NextProbeSize(current: nat, limit: nat): ProbeSize {
    if limit <= current then Done
    else
      var candidate := Candidate(current, limit);
      if candidate > current then Size(Min(candidate, limit)) else Done
  }

  /** Every probe is larger than what is in use and within the limit, and there is one while the limit is above. */
  lemma ProbeInRange(current: nat, limit: nat)
    requires limit <= USIZE_MAX
    ensures NextProbeSize(current, limit).Size? <==> 0 < current < limit
    ensures NextProbeSize(current, limit).Size? ==> current < NextProbeSize(current, limit).size <= limit
  {
  }

  /** A probe is twice the size in use while that is within the limit, and then the middle of the gap, rounded up. */
  lemma ProbeIs(current: nat, limit: nat)
    requires 0 < current < limit <= USIZE_MAX
    ensures var n := NextProbeSize(current, limit).size;
      if 2 * current <= limit || limit == USIZE_MAX then n == Min(2 * current, limit)
      else current + limit <= 2 * n <= current + limit + 1
  {
  }

  // ---- Steps ----

  datatype Event = Sent(pn: nat) | Acked(pn: nat) | Lost(pn: nat) | Abandoned(pn: nat)

  function Below(n: nat): nat { if n == 0 then 0 else n - 1 }

  predicate Resolves(s: Search, pn: nat) { s.probe.InFlight? && s.probe.pn == pn }

  function Apply(s: Search, e: Event): Search {
    match e
    case Sent(pn) =>
      if s.probe.InFlight? || NextProbeSize(s.current, Limit(s)) == Done then s
      else s.(probe := InFlight(pn, NextProbeSize(s.current, Limit(s)).size))
    case Acked(pn) => if Resolves(s, pn) then s.(current := s.probe.size, probe := NoProbe) else s
    case Lost(pn) => if Resolves(s, pn) then s.(upper := Min(s.upper, Below(s.probe.size)), probe := NoProbe) else s
    case Abandoned(pn) => if Resolves(s, pn) then s.(probe := NoProbe) else s
  }

  function Exec(s: Search, es: seq<Event>): Search
    decreases |es|
  {
    if es == [] then s else Exec(Apply(s, es[0]), es[1..])
  }

  /** Sizes of the probes acknowledged along a run. */
  function AckedSizes(s: Search, es: seq<Event>): set<nat>
    decreases |es|
  {
    if es == [] then {}
    else
      (if es[0].Acked? && Resolves(s, es[0].pn) then {s.probe.size} else {}) + AckedSizes(Apply(s, es[0]), es[1..])
  }

  predicate Sound(s: Search) {
    s.current > 0 && Limit(s) <= USIZE_MAX && (s.probe.InFlight? ==> s.current < s.probe.size <= Limit(s))
  }

  lemma StepSound(s: Search, e: Event)
    requires Sound(s)
    ensures Sound(Apply(s, e)) && Limit(Apply(s, e)) <= Limit(s) && s.current <= Apply(s, e).current
  {
    ProbeInRange(s.current, Limit(s));
  }

  /** Over every run: a probe in flight is above the size in use and within the limit, the size in use is the initial
      one or an acknowledged probe's, it never shrinks, and it never passes the limit the search started with. */
  lemma {:induction false} EveryRunSound(s: Search, es: seq<Event>)
    requires Sound(s)
    ensures Sound(Exec(s, es))
    ensures Exec(s, es).current == s.current || Exec(s, es).current in AckedSizes(s, es)
    ensures s.current <= Exec(s, es).current
    ensures Exec(s, es).current == s.current || Exec(s, es).current <= Limit(s)
    decreases |es|
  {
    if es != [] {
      StepSound(s, es[0]);
      EveryRunSound(Apply(s, es[0]), es[1..]);
    }
  }

  /** Sizes of the probes declared lost along a run. */
  function LostSizes(s: Search, es: seq<Event>): set<nat>
    decreases |es|
  {
    if es == [] then {}
    else
      (if es[0].Lost? && Resolves(s, es[0].pn) then {s.probe.size} else {}) + LostSizes(Apply(s, es[0]), es[1..])
  }

  /** The upper bound falls only by losses of the probe in flight: it ends below every size lost, and is the bound the
      run began with or one below a size lost. The other limits never change. */
  lemma {:induction false} EveryRunBound(s: Search, es: seq<Event>)
    requires Sound(s)
    ensures var t := Exec(s, es);
      && t.upper <= s.upper && t.local == s.local && t.peer == s.peer
      && (forall n :: n in LostSizes(s, es) ==> t.upper < n)
      && (t.upper == s.upper || t.upper + 1 in LostSizes(s, es))
    decreases |es|
  {
    if es != [] {
      StepSound(s, es[0]);
      EveryRunBound(Apply(s, es[0]), es[1..]);
    }
  }

  /** The event is about probe number `pn`. */
  predicate About(e: Event, pn: nat) { !e.Sent? && e.pn == pn }

  /** A probe in flight waits for an event with its own number: until then nothing changes, and such an event ends
      it. */
  lemma {:induction false} ProbeWaits(s: Search, es: seq<Event>)
    requires s.probe.InFlight?
    ensures (forall e :: e in es ==> !About(e, s.probe.pn)) ==> Exec(s, es) == s
    ensures es != [] && About(es[0], s.probe.pn) ==> Apply(s, es[0]).probe == NoProbe
    decreases |es|
  {
    if es != [] {
      assert es[0] in es;
      if !About(es[0], s.probe.pn) {
        ProbeWaits(s, es[1..]);
      }
    }
  }

  /** Without a probe in flight, only sending one changes anything. */
  lemma {:induction false} NothingToResolve(s: Search, es: seq<Event>)
    requires s.probe == NoProbe && forall e :: e in es ==> !e.Sent?
    ensures Exec(s, es) == s
    decreases |es|
  {
    if es != [] {
      assert es[0] in es;
      NothingToResolve(s, es[1..]);
    }
  }

  // ---- A path that delivers exactly the sizes up to M ----

  datatype Outcome = Outcome(size: nat, probes: nat)

  /** The search on such a path, one probe at a time. */
  function Converge(current: nat, limit: nat, m: nat): Outcome
    requires 0 < current && limit <= USIZE_MAX
    decreases if limit > current then limit - current else 0
  {
    ProbeInRange(current, limit);
    match NextProbeSize(current, limit)
    case Done => Outcome(current, 0)
    case Size(n) =>
      var rest := if n <= m then Converge(n, limit, m) else Converge(current, n - 1, m);
      Outcome(rest.size, rest.probes + 1)
  }

  /** The search ends at the largest deliverable size within the limit, or where it started if even that is too big. */
  lemma {:induction false} ConvergesToMtu(current: nat, limit: nat, m: nat)
    requires 0 < current && limit <= USIZE_MAX
    ensures Converge(current, limit, m).size ==
      if m < current || limit < current then current else Min(m, limit)
    decreases if limit > current then limit - current else 0
  {
    ProbeInRange(current, limit);
    match NextProbeSize(current, limit)
    case Done =>
    case Size(n) =>
      if n <= m {
        ConvergesToMtu(n, limit, m);
      } else {
        ConvergesToMtu(current, n - 1, m);
      }
  }

  // ---- How many probes ----

  /** Number of binary digits. */
  function Bits(n: nat): nat { if n == 0 then 0 else 1 + Bits(n / 2) }

  lemma {:induction false} BitsMonotone(a: nat, b: nat)
    requires a <= b
    ensures Bits(a) <= Bits(b)
  {
    if a > 0 {
      BitsMonotone(a / 2, b / 2);
    }
  }

  lemma BitsHalf(n: nat)
    requires n > 0
    ensures Bits(n) == Bits(n / 2) + 1 && Bits(0) == 0
  {
  }

  lemma ConvergeDone(current: nat, limit: nat, m: nat)
    requires 0 < current && limit <= current && limit <= USIZE_MAX
    ensures Converge(current, limit, m).probes == 0
  {
  }

  /** A probe of the doubling phase. */
  lemma ConvergeDouble(current: nat, limit: nat, m: nat)
    requires 0 < current && 2 * current <= limit < USIZE_MAX
    ensures Converge(current, limit, m).probes ==
      1 + (if 2 * current <= m then Converge(2 * current, limit, m) else Converge(current, 2 * current - 1, m)).probes
  {
  }

  /** A probe of the halving phase: at most half the gap is left on either side. */
  lemma ConvergeHalf(current: nat, limit: nat, m: nat) returns (n: nat, half: nat)
    requires 0 < current < limit < 2 * current && limit < USIZE_MAX
    ensures current < n <= limit && limit - n <= half && n - 1 - current <= half
    ensures Bits(limit - current) == Bits(half) + 1
    ensures Converge(current, limit, m).probes ==
      1 + (if n <= m then Converge(n, limit, m) else Converge(current, n - 1, m)).probes
  {
    n, half := NextProbeSize(current, limit).size, (limit - current) / 2;
  }

  /** Once the limit is below twice the size in use, every probe halves the gap. */
  lemma {:induction false} HalvingProbes(current: nat, limit: nat, m: nat)
    requires 0 < current && limit < 2 * current && limit < USIZE_MAX
    ensures Converge(current, limit, m).probes <= Bits(if limit > current then limit - current else 0)
    decreases if limit > current then limit - current else 0
  {
    hide Bits, Converge;
    if limit <= current {
      ConvergeDone(current, limit, m);
    } else {
      var n, half := ConvergeHalf(current, limit, m);
      if n <= m {
        HalvingProbes(n, limit, m);
        BitsMonotone(limit - n, half);
      } else {
        HalvingProbes(current, n - 1, m);
        BitsMonotone(n - 1 - current, half);
      }
      BitsNone();
    }
  }

  lemma BitsNone()
    ensures Bits(0) == 0
  {
  }

  /** Before that, every delivered probe doubles the size in use, and the first lost one ends the doubling. */
  lemma {:induction false} DoublingProbes(current: nat, limit: nat, m: nat)
    requires 0 < current && 2 * current <= limit < USIZE_MAX
    ensures Converge(current, limit, m).probes <= 2 * Bits(limit) + 1 - Bits(current)
    decreases limit - current
  {
    hide Bits, Converge;
    BitsMonotone(current, limit);
    ConvergeDouble(current, limit, m);
    if 2 * current <= m {
      BitsHalf(2 * current);
      BitsMonotone(2 * current, limit);
      if 4 * current <= limit {
        DoublingProbes(2 * current, limit, m);
      } else {
        HalvingProbes(2 * current, limit, m);
        BitsMonotone(limit - 2 * current, limit);
      }
    } else {
      HalvingProbes(current, 2 * current - 1, m);
      BitsMonotone(current - 1, limit);
    }
  }

  /** The number of probes is at most about twice the digits of the limit. */
  lemma LogarithmicallyManyProbes(current: nat, limit: nat, m: nat)
    requires 0 < current && limit < USIZE_MAX
    ensures Converge(current, limit, m).probes <= 2 * Bits(limit) + 1
  {
    if limit < 2 * current {
      HalvingProbes(current, limit, m);
      BitsMonotone(if limit > current then limit - current else 0, limit);
    } else {
      DoublingProbes(current, limit, m);
    }
  }

  // ---- The search as a run ----

  /** On a path that delivers exactly sizes up to `m`, the events of the search: each probe sent, then acknowledged or
      lost. */
  function Schedule(current: nat, limit: nat, m: nat, pn: nat): seq<Event>
    requires 0 < current && limit <= USIZE_MAX
    decreases if limit > current then limit - current else 0
  {
    ProbeInRange(current, limit);
    match NextProbeSize(current, limit)
    case Done => []
    case Size(n) =>
      if n <= m then [Sent(pn)] + ([Acked(pn)] + Schedule(n, limit, m, pn + 1))
      else [Sent(pn)] + ([Lost(pn)] + Schedule(current, n - 1, m, pn + 1))
  }

  lemma ExecCons(s: Search, e: Event, es: seq<Event>)
    ensures Exec(s, [e] + es) == Exec(Apply(s, e), es)
  {
    assert ([e] + es)[1..] == es;
  }

  lemma ProbeStep(s: Search, pn: nat, m: nat)
    requires Sound(s) && s.probe == NoProbe && s.current < Limit(s)
    ensures var n := NextProbeSize(s.current, Limit(s)).size;
      var t := Apply(Apply(s, Sent(pn)), if n <= m then Acked(pn) else Lost(pn));
      && Sound(t) && t.probe == NoProbe
      && t.current == (if n <= m then n else s.current)
      && Limit(t) == (if n <= m then Limit(s) else n - 1)
  {
    ProbeInRange(s.current, Limit(s));
  }

  /** From any quiet state, that run ends with no probe left to send, at min(m, limit) when the size in use is
      deliverable and within the limit, after two events for each of logarithmically many probes. */
  lemma {:induction false} ScheduleEnds(s: Search, m: nat, pn: nat)
    requires Sound(s) && s.probe == NoProbe
    ensures var es := Schedule(s.current, Limit(s), m, pn);
      var t := Exec(s, es);
      && t.current == Converge(s.current, Limit(s), m).size
      && |es| == 2 * Converge(s.current, Limit(s), m).probes
      && t.probe == NoProbe && NextProbeSize(t.current, Limit(t)) == Done
    decreases if Limit(s) > s.current then Limit(s) - s.current else 0
  {
    hide Apply, Exec, Sound, Limit;
    SoundMeans(s);
    ProbeInRange(s.current, Limit(s));
    if s.current < Limit(s) {
      ProbeStep(s, pn, m);
      var n := NextProbeSize(s.current, Limit(s)).size;
      var e := if n <= m then Acked(pn) else Lost(pn);
      var t := Apply(Apply(s, Sent(pn)), e);
      ScheduleEnds(t, m, pn + 1);
      var rest := Schedule(t.current, Limit(t), m, pn + 1);
      ExecCons(s, Sent(pn), [e] + rest);
      ExecCons(Apply(s, Sent(pn)), e, rest);
    } else {
      ExecNone(s);
    }
  }

  lemma ExecNone(s: Search)
    ensures Exec(s, []) == s
  {
  }

  lemma SoundMeans(s: Search)
    requires Sound(s)
    ensures 0 < s.current && Limit(s) <= USIZE_MAX
  {
  }

  // ---- The connection's fields ----

  class PathMtuState {
    var maxSendUdpPayloadSize: nat
    var peerMaxUdpPayloadSize: nat
    var localMaxUdpPayloadSize: nat
    var probeUpperBound: nat
    var inFlightProbe: Probe

    ghost function View(): Search
      reads this
    {
      Search(maxSendUdpPayloadSize, localMaxUdpPayloadSize, peerMaxUdpPayloadSize, probeUpperBound, inFlightProbe)
    }

    ghost predicate Valid()
      reads this
    {
      Sound(View())
    }

    constructor ()
      ensures Valid() && View() ==
        Search(MAX_DATAGRAM_SIZE, MAX_LOCAL_UDP_PAYLOAD_SIZE, MAX_DATAGRAM_SIZE, MAX_LOCAL_UDP_PAYLOAD_SIZE, NoProbe)
    {
      maxSendUdpPayloadSize, peerMaxUdpPayloadSize := MAX_DATAGRAM_SIZE, MAX_DATAGRAM_SIZE;
      localMaxUdpPayloadSize, probeUpperBound := MAX_LOCAL_UDP_PAYLOAD_SIZE, MAX_LOCAL_UDP_PAYLOAD_SIZE;
      inFlightProbe := NoProbe;
    }

    function SearchLimit(): nat
      reads this
    {
      Min(Min(localMaxUdpPayloadSize, peerMaxUdpPayloadSize), probeUpperBound)
    }

    /** The peer's transport parameters: its limit replaces the default, and the size in use comes down to it. */
    method ApplyPeerLimit(peerMax: nat)
      requires Valid() && 0 < peerMax <= USIZE_MAX && probeUpperBound > 0 && localMaxUdpPayloadSize > 0
      modifies this
      ensures Valid() && peerMaxUdpPayloadSize == peerMax
      ensures maxSendUdpPayloadSize <= SearchLimit()
      ensures maxSendUdpPayloadSize == old(maxSendUdpPayloadSize) || maxSendUdpPayloadSize == SearchLimit()
      ensures maxSendUdpPayloadSize <= old(maxSendUdpPayloadSize)
      ensures probeUpperBound == old(probeUpperBound) && localMaxUdpPayloadSize == old(localMaxUdpPayloadSize)
      ensures old(inFlightProbe).InFlight? ==>
        inFlightProbe == if old(inFlightProbe).size <= SearchLimit() then old(inFlightProbe) else NoProbe
      ensures old(inFlightProbe) == NoProbe ==> inFlightProbe == NoProbe
    {
      peerMaxUdpPayloadSize := peerMax;
      maxSendUdpPayloadSize := Min(maxSendUdpPayloadSize, SearchLimit());
      if inFlightProbe.InFlight? && inFlightProbe.size > SearchLimit() {
        AbandonProbe(inFlightProbe.pn);
      }
    }

    /** Send the next probe, if one is due: none in flight and room above the size in use. */
    method SendProbe(pn: nat)
      requires Valid()
      modifies this
      ensures Valid() && View() == Apply(old(View()), Sent(pn))
    {
      StepSound(View(), Sent(pn));
      if inFlightProbe.InFlight? {
        return;
      }
      var next := NextProbeSize(maxSendUdpPayloadSize, SearchLimit());
      if next.Size? {
        inFlightProbe := InFlight(pn, next.size);
      }
    }

    method CompleteProbeSuccess(pn: nat)
      requires Valid()
      modifies this
      ensures Valid() && View() == Apply(old(View()), Acked(pn))
    {
      if inFlightProbe == NoProbe || inFlightProbe.pn != pn {
        return;
      }
      maxSendUdpPayloadSize := inFlightProbe.size;
      inFlightProbe := NoProbe;
    }

    method CompleteProbeFailure(pn: nat)
      requires Valid()
      modifies this
      ensures Valid() && View() == Apply(old(View()), Lost(pn))
    {
      if inFlightProbe == NoProbe || inFlightProbe.pn != pn {
        return;
      }
      probeUpperBound := Min(probeUpperBound, Below(inFlightProbe.size));
      inFlightProbe := NoProbe;
    }

    method AbandonProbe(pn: nat)
      modifies `inFlightProbe
      ensures View() == Apply(old(View()), Abandoned(pn))
    {
      if inFlightProbe.InFlight? && inFlightProbe.pn == pn {
        inFlightProbe := NoProbe;
      }
    }
  }
}
