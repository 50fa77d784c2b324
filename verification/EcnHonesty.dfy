/** ECN against a peer that counts honestly: when its reports are believed, and when they end ECN all the same. */
module EcnHonesty {
  import AckRanges
  import opened EcnFeedback

  /** How a marked packet reached the peer. */
  datatype Seen = AsEct0 | AsEct1 | AsCe

  /** The marked packets a peer has received, by number. */
  type Saw = map<nat, Seen>

  function SeenAs(saw: Saw, v: Seen): set<nat> { set pn | pn in saw && saw[pn] == v }

  /** What an honest peer reports. */
  function Tally(saw: Saw): Counts { Counts(|SeenAs(saw, AsEct0)|, |SeenAs(saw, AsEct1)|, |SeenAs(saw, AsCe)|) }

  /** `a` is what the peer had seen when it saw no more than `b`. */
  predicate Earlier(a: Saw, b: Saw) { forall pn :: pn in a ==> pn in b && b[pn] == a[pn] }

  lemma TallySum(saw: Saw)
    ensures Sum(Tally(saw)) == |saw|
  {
    var a, b, c := SeenAs(saw, AsEct0), SeenAs(saw, AsEct1), SeenAs(saw, AsCe);
    assert a + b + c == saw.Keys && a !! b && (a + b) !! c;
    Disjoint(a, b);
    Disjoint(a + b, c);
    assert |saw.Keys| == |saw|;
  }

  lemma SubsetSize(a: set<nat>, b: set<nat>)
    requires a <= b
    ensures |a| <= |b| && (|a| == |b| ==> a == b)
  {
    Disjoint(a, b - a);
    assert a + (b - a) == b;
  }

  lemma TallyGrows(a: Saw, b: Saw)
    requires Earlier(a, b)
    ensures NoneBelow(Tally(a), Tally(b)) && |a| <= |b|
  {
    SubsetSize(SeenAs(a, AsEct0), SeenAs(b, AsEct0));
    SubsetSize(SeenAs(a, AsEct1), SeenAs(b, AsEct1));
    SubsetSize(SeenAs(a, AsCe), SeenAs(b, AsCe));
    TallySum(a);
    TallySum(b);
  }

  lemma SameWhenAsMany(a: Saw, b: Saw)
    requires Earlier(a, b) && |a| == |b|
    ensures Earlier(b, a)
  {
    assert |a.Keys| == |a| && |b.Keys| == |b|;
    SubsetSize(a.Keys, b.Keys);
  }

  /** The report follows the last one believed, every packet counted since is newly acknowledged, and no more packets
      arrived with their mark than are counted as sent. */
  predicate Covered(s: State, last: Saw, saw: Saw, newly: seq<nat>) {
    && Earlier(last, saw)
    && |saw| - |last| <= Marked(s.inFlight, newly)
    && |SeenAs(saw, AsEct0)| <= s.sent.ect0 && |SeenAs(saw, AsEct1)| <= s.sent.ect1
  }

  lemma RefusedIs(s: State, newly: seq<nat>, c: Counts, follows: bool, before: nat, now: nat)
    requires Sum(s.stored) == before && Sum(c) == now
    requires if follows then NoneBelow(s.stored, c) else now < before
    ensures Refused(s, newly, c) <==>
      !(follows && now - before <= Marked(s.inFlight, newly) && c.ect0 <= s.sent.ect0 && c.ect1 <= s.sent.ect1)
  {
    hide Marked;
  }

  /** An honest report is refused exactly when it is not covered. */
  lemma HonestRefusedExactly(s: State, last: Saw, saw: Saw, newly: seq<nat>)
    requires s.stored == Tally(last) && (Earlier(last, saw) || Earlier(saw, last))
    ensures Refused(s, newly, Tally(saw)) <==> !Covered(s, last, saw, newly)
  {
    hide Earlier, SeenAs, Marked, Refused, Sum, NoneBelow;
    TallySum(last);
    TallySum(saw);
    if Earlier(last, saw) {
      TallyGrows(last, saw);
    } else {
      TallyGrows(saw, last);
      if |saw| == |last| {
        SameWhenAsMany(saw, last);
      }
    }
    RefusedIs(s, newly, Tally(saw), Earlier(last, saw), |last|, |saw|);
  }

  // ---- Over runs ----

  /** A packet sent or given up, or an ACK of the honest peer with what it has seen. */
  datatype PeerEvent =
    | Other(event: Event)
    | Report(ranges: seq<AckRanges.Range>, newly: seq<nat>, saw: Saw, isNewLargest: bool)

  function AsEvent(x: PeerEvent): Event {
    match x
    case Other(e) => e
    case Report(ranges, newly, saw, isNewLargest) => Acknowledge(ranges, newly, Reported(Tally(saw)), isNewLargest)
  }

  /** What the peer had seen at the last report believed. */
  function NextLast(s: State, last: Saw, x: PeerEvent): Saw {
    if x.Report? && s.enabled && Covered(s, last, x.saw, x.newly) then x.saw else last
  }

  /** All ACKs come from the honest peer, whose reports are of one growing record. */
  predicate HonestRun(s: State, last: Saw, xs: seq<PeerEvent>)
    decreases |xs|
  {
    xs != [] ==>
      && (match xs[0]
          case Other(e) => !e.Acknowledge?
          case Report(_, _, saw, _) => Earlier(last, saw) || Earlier(saw, last))
      && HonestRun(Apply(s, AsEvent(xs[0])), NextLast(s, last, xs[0]), xs[1..])
  }

  function LastBelieved(s: State, last: Saw, xs: seq<PeerEvent>): Saw
    decreases |xs|
  {
    if xs == [] then last else LastBelieved(Apply(s, AsEvent(xs[0])), NextLast(s, last, xs[0]), xs[1..])
  }

  function PlayPeer(s: State, xs: seq<PeerEvent>): State
    decreases |xs|
  {
    if xs == [] then s else PlayPeer(Apply(s, AsEvent(xs[0])), xs[1..])
  }

  /** Every report on a new largest number is covered when it comes. */
  predicate NewReportsCovered(s: State, last: Saw, xs: seq<PeerEvent>)
    decreases |xs|
  {
    xs != [] ==>
      && (xs[0].Report? && xs[0].isNewLargest ==> Covered(s, last, xs[0].saw, xs[0].newly))
      && NewReportsCovered(Apply(s, AsEvent(xs[0])), NextLast(s, last, xs[0]), xs[1..])
  }

  lemma {:induction false} StaysOff(s: State, xs: seq<PeerEvent>)
    requires !s.enabled
    ensures !PlayPeer(s, xs).enabled
    decreases |xs|
  {
    hide Apply;
    if xs != [] {
      StepMonotone(s, AsEvent(xs[0]));
      StaysOff(Apply(s, AsEvent(xs[0])), xs[1..]);
    }
  }

  lemma HonestStep(s: State, last: Saw, x: PeerEvent)
    requires s.enabled && s.stored == Tally(last)
    requires x.Other? ==> !x.event.Acknowledge?
    requires x.Report? ==> Earlier(last, x.saw) || Earlier(x.saw, last)
    ensures var t := Apply(s, AsEvent(x));
      && (t.enabled <==> (x.Report? && x.isNewLargest ==> Covered(s, last, x.saw, x.newly)))
      && (t.enabled ==> t.stored == Tally(NextLast(s, last, x)))
  {
    hide Count, MarkedSet, CeSignals, Tally, Covered, Refused;
    if x.Report? {
      HonestRefusedExactly(s, last, x.saw, x.newly);
    }
  }

  /** Against an honest peer ECN is still on after a run exactly when every report on a new largest number was covered;
      and then the counts stored are what the peer had seen at the last report believed. */
  lemma {:induction false} EcnStaysOnExactly(s: State, last: Saw, xs: seq<PeerEvent>)
    requires s.enabled && s.stored == Tally(last) && HonestRun(s, last, xs)
    ensures PlayPeer(s, xs).enabled <==> NewReportsCovered(s, last, xs)
    ensures PlayPeer(s, xs).enabled ==> PlayPeer(s, xs).stored == Tally(LastBelieved(s, last, xs))
    decreases |xs|
  {
    hide Apply, Tally, Covered, NextLast, Earlier;
    if xs != [] {
      HonestStep(s, last, xs[0]);
      if Apply(s, AsEvent(xs[0])).enabled {
        EcnStaysOnExactly(Apply(s, AsEvent(xs[0])), NextLast(s, last, xs[0]), xs[1..]);
      } else {
        StaysOff(Apply(s, AsEvent(xs[0])), xs[1..]);
      }
    }
  }

  /** The failing run: a marked packet that elicits no ACK is neither counted as sent nor tracked, but the peer counts
      it. Its honest report with the next ACK ends ECN. */
  lemma AckOnlyPacketEndsEcn()
    ensures var saw := map[0 := AsEct0, 1 := AsEct0];
      var xs := [Other(Send(0, Ect0, false, false)), Other(Send(1, Ect0, true, true)),
                 Report([AckRanges.Range(1, 1)], [1], saw, true)];
      HonestRun(Init(), map[], xs) && !PlayPeer(Init(), xs).enabled
  {
    hide HonestRun, PlayPeer, Earlier, Refused;
    var saw := map[0 := AsEct0, 1 := AsEct0];
    var x, y := Other(Send(0, Ect0, false, false)), Other(Send(1, Ect0, true, true));
    var z := Report([AckRanges.Range(1, 1)], [1], saw, true);
    var s1 := Apply(Init(), AsEvent(x));
    var s2 := Apply(s1, AsEvent(y));
    NothingEarlier(saw);
    HonestReportRefused(s2);
    NoPeerStep(Apply(s2, AsEvent(z)), NextLast(s2, map[], z));
    PeerCons(s2, map[], z, []);
    PeerCons(s1, map[], y, [z] + []);
    PeerCons(Init(), map[], x, [y] + ([z] + []));
    assert [x, y, z] == [x] + ([y] + ([z] + []));
  }

  lemma NothingEarlier(saw: Saw)
    ensures Earlier(map[], saw)
  {
  }

  lemma HonestReportRefused(s: State)
    requires s.enabled && s.stored == Counts(0, 0, 0) && s.sent.ect0 == 1
    ensures var saw := map[0 := AsEct0, 1 := AsEct0];
      !Apply(s, AsEvent(Report([AckRanges.Range(1, 1)], [1], saw, true))).enabled
  {
    hide Apply, AsEvent;
    var saw := map[0 := AsEct0, 1 := AsEct0];
    NothingSeen();
    NothingEarlier(saw);
    assert SeenAs(saw, AsEct0) == {0, 1};
    HonestStep(s, map[], Report([AckRanges.Range(1, 1)], [1], saw, true));
  }

  lemma PeerCons(s: State, last: Saw, x: PeerEvent, xs: seq<PeerEvent>)
    requires (x.Other? ==> !x.event.Acknowledge?) && (x.Report? ==> Earlier(last, x.saw) || Earlier(x.saw, last))
    requires HonestRun(Apply(s, AsEvent(x)), NextLast(s, last, x), xs)
    ensures HonestRun(s, last, [x] + xs) && PlayPeer(s, [x] + xs) == PlayPeer(Apply(s, AsEvent(x)), xs)
  {
    assert ([x] + xs)[1..] == xs;
  }

  lemma NothingSeen()
    ensures Tally(map[]) == Counts(0, 0, 0)
  {
    assert SeenAs(map[], AsEct0) == {} && SeenAs(map[], AsEct1) == {} && SeenAs(map[], AsCe) == {};
  }

  lemma NoPeerStep(s: State, last: Saw)
    ensures HonestRun(s, last, []) && PlayPeer(s, []) == s
  {
  }

  // ---- What is counted as sent ----

  /** Ack-eliciting packets sent with a marking along a run. */
  function SentWith(es: seq<Event>, m: Marking): nat {
    if es == [] then 0
    else (if es[0].Send? && es[0].ackEliciting && es[0].marking == m then 1 else 0) + SentWith(es[1..], m)
  }

  lemma SentStep(s: State, e: Event)
    ensures var t := Apply(s, e);
      && t.sent.ect0 == s.sent.ect0 + SentWith([e], Ect0) && t.sent.ect1 == s.sent.ect1 + SentWith([e], Ect1)
      && t.sent.ce == s.sent.ce
  {
    assert [e][1..] == [];
  }

  /** The counts sent are the ack-eliciting marked packets, and nothing else. */
  lemma {:induction false} SentCountsAre(s: State, es: seq<Event>)
    ensures var t := Exec(s, es);
      && t.sent.ect0 == s.sent.ect0 + SentWith(es, Ect0) && t.sent.ect1 == s.sent.ect1 + SentWith(es, Ect1)
      && t.sent.ce == s.sent.ce
    decreases |es|
  {
    hide Apply;
    if es != [] {
      SentStep(s, es[0]);
      SentCountsAre(Apply(s, es[0]), es[1..]);
      assert [es[0]][1..] == [];
    }
  }

  /** From a fresh connection they are just those. */
  lemma FreshSentCounts(es: seq<Event>)
    ensures Exec(Init(), es).sent == Counts(SentWith(es, Ect0), SentWith(es, Ect1), 0)
  {
    hide Exec;
    SentCountsAre(Init(), es);
  }

  // ---- A peer that reports no counts ----

  /** Every ACK of the run comes without counts. */
  predicate Silent(es: seq<Event>) {
    forall i :: 0 <= i < |es| && es[i].Acknowledge? ==> es[i].ecn == NoCounts
  }

  /** Some ACK on a new largest number newly covers a marked packet. */
  predicate MarkedAcked(s: State, es: seq<Event>)
    decreases |es|
  {
    es != [] &&
    (|| (es[0].Acknowledge? && es[0].isNewLargest && MarkedSet(s.inFlight, es[0].newly) != {})
     || MarkedAcked(Apply(s, es[0]), es[1..]))
  }

  lemma SilentStep(s: State, e: Event)
    requires s.enabled && Possible(s, e) && (e.Acknowledge? ==> e.ecn == NoCounts)
    ensures Apply(s, e).enabled <==> !(e.Acknowledge? && e.isNewLargest && MarkedSet(s.inFlight, e.newly) != {})
  {
    hide MarkedSet, CeSignals, Count;
    if e.Acknowledge? {
      MarkedCounts(s.inFlight, e.newly);
    }
  }

  /** With a peer that never reports counts, ECN is off after a run exactly when an ACK on a new largest number has
      newly covered a marked packet. */
  lemma {:induction false} SilentPeerExactly(s: State, es: seq<Event>)
    requires s.enabled && CanRun(s, es) && Silent(es)
    ensures Exec(s, es).enabled <==> !MarkedAcked(s, es)
    decreases |es|
  {
    hide Apply, Possible, MarkedSet;
    if es != [] {
      SilentStep(s, es[0]);
      if Apply(s, es[0]).enabled {
        assert Silent(es[1..]);
        SilentPeerExactly(Apply(s, es[0]), es[1..]);
      } else {
        OffForGood(Apply(s, es[0]), es[1..]);
      }
    }
  }

  lemma {:induction false} OffForGood(s: State, es: seq<Event>)
    requires !s.enabled
    ensures !Exec(s, es).enabled
    decreases |es|
  {
    hide Apply;
    if es != [] {
      StepMonotone(s, es[0]);
      OffForGood(Apply(s, es[0]), es[1..]);
    }
  }

  // ---- In flight ----

  /** The event takes the packet out of flight: a newly acknowledged packet, or one given up. */
  predicate Takes(e: Event, pn: nat) {
    match e
    case Send(_, _, _, _) => false
    case Acknowledge(_, newly, _, _) => pn in newly
    case Forget(pns) => pn in pns
  }

  lemma FlightStep(s: State, e: Event, pn: nat)
    requires e.Send? ==> e.pn != pn
    ensures var t := Apply(s, e);
      && (pn in t.inFlight <==> pn in s.inFlight && !Takes(e, pn))
      && (pn in t.inFlight ==> t.inFlight[pn] == s.inFlight[pn])
  {
    hide CeSignals, Count, MarkedSet;
  }

  /** A tracked packet is in flight with its marking until an ACK newly covers it or it is given up. */
  lemma {:induction false} InFlightExactly(s: State, es: seq<Event>, pn: nat)
    requires CanRun(s, es) && pn in s.used
    ensures var t := Exec(s, es);
      && (pn in t.inFlight <==> pn in s.inFlight && forall i :: 0 <= i < |es| ==> !Takes(es[i], pn))
      && (pn in t.inFlight ==> t.inFlight[pn] == s.inFlight[pn])
    decreases |es|
  {
    hide Apply, Takes;
    if es != [] {
      assert Possible(s, es[0]);
      FlightStep(s, es[0], pn);
      UsedGrows(s, es[0]);
      InFlightExactly(Apply(s, es[0]), es[1..], pn);
      assert forall i :: 1 <= i < |es| ==> es[i] == es[1..][i - 1];
      assert forall i :: 0 <= i < |es[1..]| ==> es[1..][i] == es[i + 1];
    }
  }

  lemma UsedGrows(s: State, e: Event)
    ensures s.used <= Apply(s, e).used
    ensures e.Send? ==> e.pn in Apply(s, e).used
    ensures e.Send? && e.tracked ==> e.pn in Apply(s, e).inFlight && Apply(s, e).inFlight[e.pn] == e.marking
    ensures e.Send? && !e.tracked ==> Apply(s, e).inFlight == s.inFlight
  {
    hide CeSignals, Count, MarkedSet;
  }
}
