/** ECN feedback of the application packet number space: which counts a peer reports are believed. */
module EcnFeedback {
  import opened AckRanges

  datatype Marking = Unmarked | Ect0 | Ect1

  datatype Counts = Counts(ect0: nat, ect1: nat, ce: nat)

  datatype AckEcn = NoCounts | Reported(counts: Counts)

  /** Packets in flight by number with their marking; whether outbound ECN is on; the counts believed so far; the
      counts sent; and, for the statement, the congestion signals raised, the distinct marked packets acknowledged and
      every number ever used. */
  datatype State = State(
    inFlight: map<nat, Marking>, enabled: bool, stored: Counts, sent: Counts,
    ceCalls: nat, confirmed: set<nat>, used: set<nat>)

  function Init(): State { State(map[], true, Counts(0, 0, 0), Counts(0, 0, 0), 0, {}, {}) }

  function Sum(c: Counts): nat { c.ect0 + c.ect1 + c.ce }

  predicate NoneBelow(a: Counts, b: Counts) { a.ect0 <= b.ect0 && a.ect1 <= b.ect1 && a.ce <= b.ce }

  // ---- Newly acknowledged packets ----

  predicate Distinct(pns: seq<nat>) { forall i, j :: 0 <= i < j < |pns| ==> pns[i] != pns[j] }

  /** `pns` lists, each once, the packets in flight that the ranges acknowledge. */
  ghost predicate Newly(inFlight: map<nat, Marking>, ranges: seq<Range>, pns: seq<nat>) {
    Distinct(pns) && forall pn: nat :: pn in pns <==> pn in inFlight && Has(ranges, pn)
  }

  function Count(inFlight: map<nat, Marking>, pns: seq<nat>, m: Marking): (n: nat)
    ensures n <= |pns|
  {
    if pns == [] then 0
    else
      var last := pns[|pns| - 1];
      Count(inFlight, pns[..|pns| - 1], m) + if last in inFlight && inFlight[last] == m then 1 else 0
  }

  function Marked(inFlight: map<nat, Marking>, pns: seq<nat>): nat {
    Count(inFlight, pns, Ect0) + Count(inFlight, pns, Ect1)
  }

  function MarkedSet(inFlight: map<nat, Marking>, pns: seq<nat>): set<nat> {
    set pn | pn in pns && pn in inFlight && inFlight[pn] != Unmarked
  }

  lemma {:induction false} MarkedCounts(inFlight: map<nat, Marking>, pns: seq<nat>)
    requires Distinct(pns)
    ensures |MarkedSet(inFlight, pns)| == Marked(inFlight, pns)
  {
    if pns != [] {
      var rest, last := pns[..|pns| - 1], pns[|pns| - 1];
      assert pns == rest + [last];
      MarkedCounts(inFlight, rest);
      assert last !in rest;
      var before := MarkedSet(inFlight, rest);
      if last in inFlight && inFlight[last] != Unmarked {
        assert MarkedSet(inFlight, pns) == before + {last};
      } else {
        assert MarkedSet(inFlight, pns) == before;
      }
    }
  }

  /** Congestion signals raised while walking the newly acknowledged packets with `ce` of them to report. */
  function CeSignals(inFlight: map<nat, Marking>, pns: seq<nat>, ce: nat): nat {
    if pns == [] then 0
    else
      var last := pns[|pns| - 1];
      var n := CeSignals(inFlight, pns[..|pns| - 1], ce);
      if n < ce && last in inFlight && inFlight[last] != Unmarked then n + 1 else n
  }

  lemma {:induction false} CeSignalsAre(inFlight: map<nat, Marking>, pns: seq<nat>, ce: nat)
    ensures CeSignals(inFlight, pns, ce) == if ce < Marked(inFlight, pns) then ce else Marked(inFlight, pns)
  {
    if pns != [] {
      CeSignalsAre(inFlight, pns[..|pns| - 1], ce);
    }
  }

  // ---- Steps ----

  datatype Event =
    | Send(pn: nat, marking: Marking, ackEliciting: bool, tracked: bool)
    | Acknowledge(ranges: seq<Range>, newly: seq<nat>, ecn: AckEcn, isNewLargest: bool)
    | Forget(pns: set<nat>)

  ghost predicate Possible(s: State, e: Event) {
    match e
    case Send(pn, marking, _, _) => pn !in s.used && (marking != Unmarked ==> s.enabled)
    case Acknowledge(ranges, newly, _, _) => Newly(s.inFlight, ranges, newly)
    case Forget(_) => true
  }

  /** The reported counts go back, or claim more than was sent or more than this ACK newly covers. */
  predicate Refused(s: State, newly: seq<nat>, c: Counts) {
    || !NoneBelow(s.stored, c)
    || c.ect0 > s.sent.ect0
    || c.ect1 > s.sent.ect1
    || Sum(c) - Sum(s.stored) > Marked(s.inFlight, newly)
  }

  /** Outcome of the validation: the state after it and the CE delta believed. */
  function Validated(s: State, newly: seq<nat>, ecn: AckEcn, isNewLargest: bool): (State, nat) {
    if !s.enabled then (s, 0)
    else if ecn == NoCounts then
      (if Marked(s.inFlight, newly) > 0 && isNewLargest then s.(enabled := false) else s, 0)
    else if Refused(s, newly, ecn.counts) then (if isNewLargest then s.(enabled := false) else s, 0)
    else (s.(stored := ecn.counts), ecn.counts.ce - s.stored.ce)
  }

  function CountSent(sent: Counts, marking: Marking): Counts {
    match marking
    case Unmarked => sent
    case Ect0 => sent.(ect0 := sent.ect0 + 1)
    case Ect1 => sent.(ect1 := sent.ect1 + 1)
  }

  function Apply(s: State, e: Event): State {
    match e
    case Send(pn, marking, ackEliciting, tracked) =>
      s.(inFlight := if tracked then s.inFlight[pn := marking] else s.inFlight, used := s.used + {pn},
         sent := if ackEliciting then CountSent(s.sent, marking) else s.sent)
    case Acknowledge(_, newly, ecn, isNewLargest) =>
      var (t, ce) := Validated(s, newly, ecn, isNewLargest);
      t.(inFlight := s.inFlight - (set pn | pn in newly), ceCalls := s.ceCalls + CeSignals(s.inFlight, newly, ce),
         confirmed := s.confirmed + MarkedSet(s.inFlight, newly))
    case Forget(pns) => s.(inFlight := s.inFlight - pns)
  }

  // ---- What every run keeps ----

  predicate Inv(s: State) {
    && s.ceCalls == s.stored.ce
    && Sum(s.stored) <= |s.confirmed|
    && s.stored.ect0 <= s.sent.ect0 && s.stored.ect1 <= s.sent.ect1
    && s.confirmed <= s.used && s.inFlight.Keys <= s.used
    && s.confirmed !! s.inFlight.Keys
  }

  lemma AckInv(s: State, newly: seq<nat>, ecn: AckEcn, isNewLargest: bool, ranges: seq<Range>)
    requires Inv(s) && Newly(s.inFlight, ranges, newly)
    ensures Inv(Apply(s, Acknowledge(ranges, newly, ecn, isNewLargest)))
  {
    hide MarkedSet, CeSignals, Count, Newly;
    var (t, ce) := Validated(s, newly, ecn, isNewLargest);
    AckSets(s, newly, ranges);
    CeSignalsAre(s.inFlight, newly, ce);
  }

  lemma AckSets(s: State, newly: seq<nat>, ranges: seq<Range>)
    requires Inv(s) && Newly(s.inFlight, ranges, newly)
    ensures var confirmed := s.confirmed + MarkedSet(s.inFlight, newly);
      var inFlight := s.inFlight - (set pn | pn in newly);
      && |confirmed| == |s.confirmed| + Marked(s.inFlight, newly)
      && confirmed <= s.used && inFlight.Keys <= s.used && confirmed !! inFlight.Keys
  {
    hide MarkedSet, Count;
    MarkedCounts(s.inFlight, newly);
    MarkedInFlight(s.inFlight, newly);
    Disjoint(s.confirmed, MarkedSet(s.inFlight, newly));
  }

  lemma MarkedInFlight(inFlight: map<nat, Marking>, pns: seq<nat>)
    ensures MarkedSet(inFlight, pns) <= inFlight.Keys && MarkedSet(inFlight, pns) <= (set pn | pn in pns)
  {
  }

  lemma Disjoint(a: set<nat>, b: set<nat>)
    requires a !! b
    ensures |a + b| == |a| + |b|
  {
  }

  lemma StepInv(s: State, e: Event)
    requires Inv(s) && Possible(s, e)
    ensures Inv(Apply(s, e))
  {
    match e
    case Send(pn, marking, _, tracked) => assert tracked ==> Apply(s, e).inFlight.Keys == s.inFlight.Keys + {pn};
    case Acknowledge(ranges, newly, ecn, isNewLargest) => AckInv(s, newly, ecn, isNewLargest, ranges);
    case Forget(pns) => assert Apply(s, e).inFlight.Keys == s.inFlight.Keys - pns;
  }

  lemma StepMonotone(s: State, e: Event)
    ensures NoneBelow(s.stored, Apply(s, e).stored) && s.confirmed <= Apply(s, e).confirmed
    ensures !s.enabled ==> !Apply(s, e).enabled && Apply(s, e).stored == s.stored
  {
    hide MarkedSet, CeSignals, Count;
  }

  /** Feedback on a new largest number is believed or ends ECN: while it stays on, the counts stored are the peer's, or
      the peer sent none and had no marked packet to report. */
  lemma BelievedOrOff(s: State, ranges: seq<Range>, newly: seq<nat>, ecn: AckEcn)
    requires s.enabled && Newly(s.inFlight, ranges, newly)
    ensures var t := Apply(s, Acknowledge(ranges, newly, ecn, true));
      t.enabled ==> (ecn.Reported? && t.stored == ecn.counts) || (ecn == NoCounts && t.confirmed == s.confirmed)
  {
    MarkedCounts(s.inFlight, newly);
  }

  function Exec(s: State, es: seq<Event>): State
    decreases |es|
  {
    if es == [] then s else Exec(Apply(s, es[0]), es[1..])
  }

  ghost predicate CanRun(s: State, es: seq<Event>)
    decreases |es|
  {
    es != [] ==> Possible(s, es[0]) && CanRun(Apply(s, es[0]), es[1..])
  }

  /** Over every run: as many congestion signals as the stored CE count, stored counts that never go back and never sum
      to more than the distinct marked packets acknowledged, and ECN that stays off once off. */
  lemma {:induction false} EveryRunCountsHonestly(s: State, es: seq<Event>)
    requires Inv(s) && CanRun(s, es)
    ensures Inv(Exec(s, es))
    ensures NoneBelow(s.stored, Exec(s, es).stored)
    ensures s.confirmed <= Exec(s, es).confirmed
    ensures !s.enabled ==> !Exec(s, es).enabled && Exec(s, es).stored == s.stored
    decreases |es|
  {
    hide Inv, Apply, Possible;
    if es != [] {
      StepInv(s, es[0]);
      StepMonotone(s, es[0]);
      EveryRunCountsHonestly(Apply(s, es[0]), es[1..]);
    }
  }

  lemma InitInv()
    ensures Inv(Init())
  {
  }

  /** From a fresh connection, in particular. */
  lemma {:induction false} FreshRunCountsHonestly(es: seq<Event>)
    requires CanRun(Init(), es)
    ensures var s := Exec(Init(), es);
      s.ceCalls == s.stored.ce && Sum(s.stored) <= |s.confirmed| && s.confirmed <= s.used
  {
    hide Apply, Possible, CanRun, Exec, Init;
    InitInv();
    EveryRunCountsHonestly(Init(), es);
  }

  // ---- The connection's fields ----

  class EcnState {
    var inFlight: map<nat, Marking>
    var outboundEcnEnabled: bool
    var peerAckEcnCounts: AckEcn
    var sentEcnCounts: Counts
    ghost var ceCalls: nat
    ghost var confirmed: set<nat>
    ghost var used: set<nat>

    ghost function View(): State
      reads this
    {
      State(inFlight, outboundEcnEnabled, Believed(), sentEcnCounts, ceCalls, confirmed, used)
    }

    function Believed(): Counts
      reads this
    {
      if peerAckEcnCounts.Reported? then peerAckEcnCounts.counts else Counts(0, 0, 0)
    }

    constructor ()
      ensures View() == Init() && Inv(View())
    {
      inFlight, outboundEcnEnabled, peerAckEcnCounts, sentEcnCounts := map[], true, NoCounts, Counts(0, 0, 0);
      ceCalls, confirmed, used := 0, {}, {};
    }

    method OnPacketSent(pn: nat, marking: Marking, ackEliciting: bool, tracked: bool)
      requires Inv(View()) && pn !in used && (marking != Unmarked ==> outboundEcnEnabled)
      modifies this
      ensures View() == Apply(old(View()), Send(pn, marking, ackEliciting, tracked)) && Inv(View())
    {
      hide Inv, CountSent;
      StepInv(View(), Send(pn, marking, ackEliciting, tracked));
      if ackEliciting {
        sentEcnCounts := CountSent(sentEcnCounts, marking);
      }
      if tracked {
        inFlight := inFlight[pn := marking];
      }
      used := used + {pn};
    }

    method ValidateAckEcnAndCountCe(ecn: AckEcn, newly: seq<nat>, isNewLargest: bool) returns (ce: nat)
      modifies `outboundEcnEnabled, `peerAckEcnCounts
      ensures (View(), ce) == Validated(old(View()), newly, ecn, isNewLargest)
    {
      if !outboundEcnEnabled {
        return 0;
      }
      var ect0, ect1 := 0, 0;
      for i := 0 to |newly|
        invariant ect0 == Count(inFlight, newly[..i], Ect0) && ect1 == Count(inFlight, newly[..i], Ect1)
        invariant View() == old(View())
      {
        assert newly[..i + 1][..i] == newly[..i];
        if newly[i] in inFlight && inFlight[newly[i]] == Ect0 {
          ect0 := ect0 + 1;
        } else if newly[i] in inFlight && inFlight[newly[i]] == Ect1 {
          ect1 := ect1 + 1;
        }
      }
      assert newly[..|newly|] == newly;
      if ecn == NoCounts {
        if ect0 + ect1 > 0 && isNewLargest {
          outboundEcnEnabled := false;
        }
        return 0;
      }
      var previous, counts := Believed(), ecn.counts;
      if counts.ect0 < previous.ect0 || counts.ect1 < previous.ect1 || counts.ce < previous.ce {
        if isNewLargest {
          outboundEcnEnabled := false;
        }
        return 0;
      }
      var ect0Delta, ect1Delta, ceDelta := counts.ect0 - previous.ect0, counts.ect1 - previous.ect1,
          counts.ce - previous.ce;
      if counts.ect0 > sentEcnCounts.ect0 || counts.ect1 > sentEcnCounts.ect1 ||
         ect0Delta + ect1Delta + ceDelta > ect0 + ect1 {
        if isNewLargest {
          outboundEcnEnabled := false;
        }
        return 0;
      }
      peerAckEcnCounts := ecn;
      return ceDelta;
    }

    /** An ACK frame: take the newly acknowledged packets out of flight, validate the counts, and raise one congestion
        signal for each packet believed to be CE-marked. */
    method ProcessAck(ranges: seq<Range>, ecn: AckEcn, isNewLargest: bool) returns (ghost newly: seq<nat>)
      requires Inv(View())
      modifies this
      ensures Newly(old(inFlight), ranges, newly)
      ensures View() == Apply(old(View()), Acknowledge(ranges, newly, ecn, isNewLargest)) && Inv(View())
    {
      hide Inv, MarkedSet, CeSignals, Count, Refused;
      ghost var s := View();
      var pns := NewlyAcked(inFlight, ranges);
      newly := pns;
      AckInv(s, pns, ecn, isNewLargest, ranges);
      var ce := ValidateAckEcnAndCountCe(ecn, pns, isNewLargest);
      var calls := SignalCe(inFlight, pns, ce);
      ceCalls := ceCalls + calls;
      confirmed := confirmed + MarkedSet(inFlight, pns);
      inFlight := inFlight - (set pn | pn in pns);
    }
  }

  /** The walk over the newly acknowledged packets: how many congestion signals it raises. */
  method SignalCe(inFlight: map<nat, Marking>, pns: seq<nat>, ce: nat) returns (calls: nat)
    ensures calls == CeSignals(inFlight, pns, ce)
  {
    var left := ce;
    calls := 0;
    for i := 0 to |pns|
      invariant left + calls == ce && calls == CeSignals(inFlight, pns[..i], ce)
    {
      assert pns[..i + 1][..i] == pns[..i];
      if left > 0 && pns[i] in inFlight && inFlight[pns[i]] != Unmarked {
        left, calls := left - 1, calls + 1;
      }
    }
    assert pns[..|pns|] == pns;
  }

  /** The packets in flight that some range covers, range by range. */
  method NewlyAcked(inFlight: map<nat, Marking>, ranges: seq<Range>) returns (pns: seq<nat>)
    ensures Newly(inFlight, ranges, pns)
  {
    pns := [];
    for i := 0 to |ranges|
      invariant Newly(inFlight, ranges[..i], pns)
    {
      ghost var before := pns;
      var keys := inFlight.Keys;
      while keys != {}
        invariant keys <= inFlight.Keys && Distinct(pns)
        invariant forall pn: nat :: pn in pns <==>
          pn in before || (pn in inFlight && pn !in keys && Contains(ranges[i], pn))
        decreases keys
      {
        var pn :| pn in keys;
        if Contains(ranges[i], pn) && pn !in pns {
          pns := pns + [pn];
        }
        keys := keys - {pn};
      }
      forall pn: nat ensures Has(ranges[..i + 1], pn) <==> Has(ranges[..i], pn) || Contains(ranges[i], pn) {
        assert ranges[..i + 1] == ranges[..i] + [ranges[i]];
        HasConcat(ranges[..i], [ranges[i]], pn);
        HasOne(ranges[i], pn);
      }
    }
    assert ranges[..|ranges|] == ranges;
  }
}
