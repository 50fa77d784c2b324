/** Received packet numbers of one packet number space as the ranges an ACK frame reports. */
module AckRanges {
  const MAX_TRACKED_RECV_PN_RANGES: nat := 32

  datatype Range = Range(start: nat, end: nat)

  predicate Contains(r: Range, q: nat) { r.start <= q <= r.end }

  ghost predicate Has(ranges: seq<Range>, q: nat) {
    exists i :: 0 <= i < |ranges| && Contains(ranges[i], q)
  }

  /** At least one number is missing between the lower range `b` and the higher range `a`. */
  predicate Above(a: Range, b: Range) { b.end + 1 < a.start }

  /** Non-empty ranges, strictly descending, with a missing number between neighbours. */
  ghost predicate WellFormed(ranges: seq<Range>) {
    && (forall i :: 0 <= i < |ranges| ==> ranges[i].start <= ranges[i].end)
    && (forall i, j :: 0 <= i < j < |ranges| ==> Above(ranges[i], ranges[j]))
  }

  ghost predicate SameNumbers(a: seq<Range>, b: seq<Range>) {
    forall q: nat :: Has(a, q) <==> Has(b, q)
  }

  // ---- Range lists as sets ----

  lemma HasConcat(a: seq<Range>, b: seq<Range>, q: nat)
    ensures Has(a + b, q) <==> Has(a, q) || Has(b, q)
  {
    if Has(a, q) {
      var i :| 0 <= i < |a| && Contains(a[i], q);
      assert Contains((a + b)[i], q);
    }
    if Has(b, q) {
      var i :| 0 <= i < |b| && Contains(b[i], q);
      assert Contains((a + b)[|a| + i], q);
    }
    if Has(a + b, q) {
      var i :| 0 <= i < |a + b| && Contains((a + b)[i], q);
      assert i >= |a| ==> Contains(b[i - |a|], q);
    }
  }

  lemma HasOne(r: Range, q: nat)
    ensures Has([r], q) <==> Contains(r, q)
  {
    assert Contains(r, q) ==> Contains([r][0], q);
  }

  lemma HasSplice(pre: seq<Range>, mid: Range, post: seq<Range>, q: nat)
    ensures Has(pre + [mid] + post, q) <==> Has(pre, q) || Contains(mid, q) || Has(post, q)
  {
    HasConcat(pre + [mid], post, q);
    HasConcat(pre, [mid], q);
    HasOne(mid, q);
  }

  lemma WellFormedSplice(pre: seq<Range>, mid: Range, post: seq<Range>)
    requires WellFormed(pre + post) && mid.start <= mid.end
    requires pre != [] ==> Above(pre[|pre| - 1], mid)
    requires post != [] ==> Above(mid, post[0])
    ensures WellFormed(pre + [mid] + post)
  {
    var all, both := pre + [mid] + post, pre + post;
    forall i, j | 0 <= i < j < |all| ensures Above(all[i], all[j]) {
      if i < |pre| && j == |pre| {
        assert both[i] == pre[i] && both[|pre| - 1] == pre[|pre| - 1];
      } else if i == |pre| {
        assert both[j - 1] == all[j] && both[|pre|] == post[0];
      } else {
        assert i < |pre| ==> both[i] == all[i];
        assert i > |pre| ==> both[i - 1] == all[i];
        assert j > |pre| ==> both[j - 1] == all[j];
        assert j < |pre| ==> both[j] == all[j];
      }
    }
    forall i | 0 <= i < |all| ensures all[i].start <= all[i].end {
      assert i < |pre| ==> both[i] == all[i];
      assert i > |pre| ==> both[i - 1] == all[i];
    }
  }

  lemma Tail(a: seq<Range>, q: nat)
    requires a != [] && WellFormed(a)
    ensures WellFormed(a[1..])
    ensures Has(a[1..], q) <==> Has(a, q) && q < a[0].start
    ensures Has(a, q) ==> q <= a[0].end
  {
    assert a == [a[0]] + a[1..];
    HasConcat([a[0]], a[1..], q);
    HasOne(a[0], q);
  }

  lemma SameHead(a: seq<Range>, b: seq<Range>)
    requires WellFormed(a) && WellFormed(b) && SameNumbers(a, b) && a != [] && b != []
    ensures a[0] == b[0]
  {
    assert Contains(a[0], a[0].end) && Contains(b[0], b[0].end);
    assert Has(a, a[0].end) && Has(b, b[0].end);
    Tail(a, b[0].end);
    Tail(b, a[0].end);
    if a[0].start > b[0].start {
      NoneBelow(a, b);
    } else if b[0].start > a[0].start {
      NoneBelow(b, a);
    }
  }

  lemma NoneBelow(a: seq<Range>, b: seq<Range>)
    requires WellFormed(a) && SameNumbers(a, b) && a != [] && b != []
    requires a[0].end == b[0].end && a[0].start <= a[0].end
    ensures a[0].start <= b[0].start
  {
    if a[0].start > 0 {
      var q := a[0].start - 1;
      assert !Has(a, q);
      assert !Contains(b[0], q);
    }
  }

  /** The representation is canonical: two well-formed lists with the same numbers are the same list. */
  lemma {:induction false} Canonical(a: seq<Range>, b: seq<Range>)
    requires WellFormed(a) && WellFormed(b) && SameNumbers(a, b)
    ensures a == b
    decreases |a|
  {
    if a == [] || b == [] {
      if a != [] {
        assert Contains(a[0], a[0].end) && Has(a, a[0].end);
      }
      if b != [] {
        assert Contains(b[0], b[0].end) && Has(b, b[0].end);
      }
    } else {
      SameHead(a, b);
      forall q: nat ensures Has(a[1..], q) <==> Has(b[1..], q) {
        Tail(a, q);
        Tail(b, q);
      }
      Tail(a, 0);
      Tail(b, 0);
      Canonical(a[1..], b[1..]);
    }
  }

  // ---- Insertion ----

  predicate PacketNumbersAreAdjacent(lower: nat, higher: nat) { lower + 1 == higher }

  /** First range wholly below `pn`. */
  method InsertIndex(ranges: seq<Range>, pn: nat) returns (idx: nat)
    ensures idx <= |ranges|
    ensures forall i :: 0 <= i < idx ==> ranges[i].end >= pn
    ensures idx < |ranges| ==> ranges[idx].end < pn
  {
    idx := 0;
    while idx < |ranges| && ranges[idx].end >= pn
      invariant idx <= |ranges|
      invariant forall i :: 0 <= i < idx ==> ranges[i].end >= pn
    {
      idx := idx + 1;
    }
  }

  /** Where the new number goes: the ranges before `from` stay, those from `to` on stay, `merged` replaces the rest. */
  ghost predicate Merges(ranges: seq<Range>, pn: nat, from: nat, to: nat, merged: Range) {
    && from <= to <= |ranges|
    && merged.start <= pn <= merged.end
    && (from > 0 ==> Above(ranges[from - 1], merged))
    && (to < |ranges| ==> Above(merged, ranges[to]))
    && (forall q: nat :: Contains(merged, q) <==> q == pn || Has(ranges[from..to], q))
  }

  ghost function Spliced(ranges: seq<Range>, from: nat, to: nat, merged: Range): seq<Range>
    requires from <= to <= |ranges|
  {
    ranges[..from] + [merged] + ranges[to..]
  }

  lemma MergedNumbers(ranges: seq<Range>, pn: nat, from: nat, to: nat, merged: Range, q: nat)
    requires Merges(ranges, pn, from, to, merged)
    ensures Has(Spliced(ranges, from, to, merged), q) <==> Has(ranges, q) || q == pn
  {
    HasSplice(ranges[..from], merged, ranges[to..], q);
    assert ranges == ranges[..from] + (ranges[from..to] + ranges[to..]);
    HasConcat(ranges[..from], ranges[from..to] + ranges[to..], q);
    HasConcat(ranges[from..to], ranges[to..], q);
  }

  lemma MergedWellFormed(ranges: seq<Range>, pn: nat, from: nat, to: nat, merged: Range)
    requires WellFormed(ranges) && Merges(ranges, pn, from, to, merged)
    ensures WellFormed(Spliced(ranges, from, to, merged))
  {
    WellFormedSplice(ranges[..from], merged, ranges[to..]);
  }

  lemma HasSlice(ranges: seq<Range>, from: nat, to: nat, q: nat)
    requires from <= to <= |ranges| && to <= from + 2
    ensures Has(ranges[from..to], q) <==>
      (from < to && Contains(ranges[from], q)) || (from + 2 == to && Contains(ranges[from + 1], q))
  {
    var s := ranges[from..to];
    assert from < to ==> s[0] == ranges[from];
    assert from + 2 == to ==> s[1] == ranges[from + 1];
    assert from < to && Contains(s[0], q) ==> Has(s, q);
    assert from + 2 == to && Contains(s[1], q) ==> Has(s, q);
  }

  /** Grow a new range at `idx` by the neighbours it touches. */
  method MergeAt(ranges: seq<Range>, pn: nat, idx: nat) returns (from: nat, to: nat, merged: Range)
    requires WellFormed(ranges) && idx <= |ranges|
    requires idx > 0 ==> pn < ranges[idx - 1].start
    requires idx < |ranges| ==> ranges[idx].end < pn
    ensures Merges(ranges, pn, from, to, merged)
  {
    var mergedStart, mergedEnd := pn, pn;
    from, to := idx, idx;
    if idx > 0 && PacketNumbersAreAdjacent(pn, ranges[idx - 1].start) {
      mergedEnd := ranges[idx - 1].end;
      from := idx - 1;
    }
    if idx < |ranges| && PacketNumbersAreAdjacent(ranges[idx].end, mergedStart) {
      var end := ranges[idx].end;
      mergedStart := ranges[idx].start;
      mergedEnd := if mergedEnd > end then mergedEnd else end;
      to := idx + 1;
    }
    merged := Range(mergedStart, mergedEnd);
    forall q: nat ensures Contains(merged, q) <==> q == pn || Has(ranges[from..to], q) {
      HasSlice(ranges, from, to, q);
    }
  }

  /** `result` is the canonical form of `ranges` plus `pn`, cut to the highest 32 ranges; `dropped` is what the cut
      removed, at most one range. */
  ghost predicate Inserted(ranges: seq<Range>, pn: nat, result: seq<Range>, dropped: seq<Range>) {
    && WellFormed(result + dropped)
    && (forall q: nat :: Has(result + dropped, q) <==> Has(ranges, q) || q == pn)
    && 0 < |result| <= MAX_TRACKED_RECV_PN_RANGES
    && |dropped| <= 1
    && (dropped != [] ==> |result| == MAX_TRACKED_RECV_PN_RANGES)
  }

  ghost predicate InsertedInto(ranges: seq<Range>, pn: nat, result: seq<Range>) {
    exists dropped :: Inserted(ranges, pn, result, dropped)
  }

  /** The result of an insertion is determined by the numbers alone. */
  lemma InsertedUnique(ranges: seq<Range>, pn: nat, r1: seq<Range>, d1: seq<Range>, r2: seq<Range>, d2: seq<Range>)
    requires Inserted(ranges, pn, r1, d1) && Inserted(ranges, pn, r2, d2)
    ensures r1 == r2 && d1 == d2
  {
    assert SameNumbers(r1 + d1, r2 + d2);
    Canonical(r1 + d1, r2 + d2);
    assert |r1| == |r2|;
    assert r1 == (r1 + d1)[..|r1|] && r2 == (r2 + d2)[..|r2|];
    assert d1 == (r1 + d1)[|r1|..] && d2 == (r2 + d2)[|r2|..];
  }

  method RecordRecvPn(ranges: seq<Range>, pn: nat) returns (result: seq<Range>)
    requires WellFormed(ranges) && |ranges| <= MAX_TRACKED_RECV_PN_RANGES
    ensures InsertedInto(ranges, pn, result)
  {
    var idx := InsertIndex(ranges, pn);
    if (idx > 0 && Contains(ranges[idx - 1], pn)) || (idx < |ranges| && Contains(ranges[idx], pn)) {
      assert ranges + [] == ranges && Has(ranges, pn);
      assert Inserted(ranges, pn, ranges, []);
      return ranges;
    }
    var from, to, merged := MergeAt(ranges, pn, idx);
    MergedWellFormed(ranges, pn, from, to, merged);
    result := ranges[..from] + [merged] + ranges[to..];
    ghost var all := result;
    forall q: nat ensures Has(all, q) <==> Has(ranges, q) || q == pn {
      MergedNumbers(ranges, pn, from, to, merged, q);
    }
    ghost var dropped: seq<Range> := [];
    if |result| > MAX_TRACKED_RECV_PN_RANGES {
      dropped := result[MAX_TRACKED_RECV_PN_RANGES..];
      result := result[..MAX_TRACKED_RECV_PN_RANGES];
    }
    assert result + dropped == all;
    assert Inserted(ranges, pn, result, dropped);
  }

  // ---- One packet number space ----

  datatype AckFrame = NoAck | Ack(largestAcknowledged: nat, ranges: seq<Range>)

  ghost predicate IsMax(log: seq<nat>, n: nat) {
    n in log && forall q :: q in log ==> q <= n
  }

  /** What the space knows about the packets `log` received since the last reset, `lost` being those cut off. */
  ghost predicate Tracks(log: seq<nat>, lost: iset<nat>, ranges: seq<Range>, received: bool, largest: nat) {
    && WellFormed(ranges) && |ranges| <= MAX_TRACKED_RECV_PN_RANGES
    && (received <==> log != [])
    && (log == [] ==> ranges == [] && largest == 0)
    && (log != [] ==> ranges != [] && ranges[0].end == largest && IsMax(log, largest))
    && (forall q: nat :: Has(ranges, q) || q in lost <==> q in log)
    && (forall q :: q in lost ==> !Has(ranges, q))
  }

  ghost function NumbersIn(r: Range): iset<nat> {
    iset q: nat | Contains(r, q)
  }

  ghost function Lost(lost: iset<nat>, pn: nat, dropped: seq<Range>): iset<nat>
    requires |dropped| <= 1
  {
    lost - iset{pn} + if dropped == [] then iset{} else NumbersIn(dropped[0])
  }

  lemma DroppedNumbers(result: seq<Range>, dropped: seq<Range>, q: nat)
    requires WellFormed(result + dropped) && |dropped| <= 1
    ensures WellFormed(result)
    ensures Has(result + dropped, q) <==> Has(result, q) || (dropped != [] && Contains(dropped[0], q))
    ensures dropped != [] && Contains(dropped[0], q) ==> !Has(result, q)
  {
    HasConcat(result, dropped, q);
    assert forall i :: 0 <= i < |result| ==> (result + dropped)[i] == result[i];
    if dropped != [] {
      assert dropped == [dropped[0]] && (result + dropped)[|result|] == dropped[0];
      HasOne(dropped[0], q);
    }
  }

  lemma TracksNumber(log: seq<nat>, lost: iset<nat>, ranges: seq<Range>, pn: nat, result: seq<Range>,
                     dropped: seq<Range>, q: nat)
    requires Inserted(ranges, pn, result, dropped)
    requires forall k: nat :: Has(ranges, k) || k in lost <==> k in log
    requires forall k :: k in lost ==> !Has(ranges, k)
    ensures Has(result, q) || q in Lost(lost, pn, dropped) <==> q in log + [pn]
    ensures q in Lost(lost, pn, dropped) ==> !Has(result, q)
  {
    DroppedNumbers(result, dropped, q);
    assert Has(result + dropped, q) <==> Has(ranges, q) || q == pn;
  }

  /** The highest range survives every insertion, and ends at the highest number. */
  lemma LargestKept(log: seq<nat>, ranges: seq<Range>, pn: nat, result: seq<Range>, dropped: seq<Range>)
    requires WellFormed(ranges) && Inserted(ranges, pn, result, dropped)
    requires log != [] ==> ranges != [] && IsMax(log, ranges[0].end)
    requires log == [] ==> ranges == []
    ensures IsMax(log + [pn], result[0].end)
    ensures result[0].end == if log == [] || pn > ranges[0].end then pn else ranges[0].end
  {
    var all := result + dropped;
    var top := if log == [] || pn > ranges[0].end then pn else ranges[0].end;
    assert all[0] == result[0] && Contains(all[0], all[0].end) && Has(all, all[0].end);
    assert log != [] ==> Contains(ranges[0], ranges[0].end) && Has(ranges, ranges[0].end);
    assert Has(all, top);
    Tail(all, top);
    if log != [] {
      Tail(ranges, all[0].end);
    } else {
      assert !Has(ranges, all[0].end);
    }
  }

  lemma TracksStep(log: seq<nat>, lost: iset<nat>, ranges: seq<Range>, largest: nat, pn: nat, result: seq<Range>,
                   dropped: seq<Range>)
    requires Tracks(log, lost, ranges, log != [], largest) && Inserted(ranges, pn, result, dropped)
    ensures Tracks(log + [pn], Lost(lost, pn, dropped), result, true,
                   if log == [] || pn > largest then pn else largest)
  {
    DroppedNumbers(result, dropped, 0);
    LargestKept(log, ranges, pn, result, dropped);
    forall q: nat
      ensures Has(result, q) || q in Lost(lost, pn, dropped) <==> q in log + [pn]
      ensures q in Lost(lost, pn, dropped) ==> !Has(result, q)
    {
      TracksNumber(log, lost, ranges, pn, result, dropped, q);
    }
  }

  class RecvSpace {
    var receivedPackets: bool
    var largestRecvPn: nat
    var recvPnRanges: seq<Range>
    ghost var log: seq<nat>
    ghost var lost: iset<nat>

    ghost predicate Valid()
      reads this
    {
      Tracks(log, lost, recvPnRanges, receivedPackets, largestRecvPn)
    }

    constructor ()
      ensures Valid() && log == [] && lost == iset{}
    {
      receivedPackets, largestRecvPn, recvPnRanges := false, 0, [];
      log, lost := [], iset{};
    }

    /** A packet that decrypted: update the largest number, then the ranges. */
    method OnPacket(pn: nat)
      requires Valid()
      modifies this
      ensures Valid() && log == old(log) + [pn]
      ensures forall q :: q in lost - old(lost) ==>
        |recvPnRanges| == MAX_TRACKED_RECV_PN_RANGES && q < recvPnRanges[|recvPnRanges| - 1].start
    {
      hide Tracks, Inserted;
      TracksParts(log, lost, recvPnRanges, receivedPackets, largestRecvPn);
      if !receivedPackets || pn > largestRecvPn {
        largestRecvPn := pn;
      }
      receivedPackets := true;
      var result := RecordRecvPn(recvPnRanges, pn);
      ghost var dropped :| Inserted(recvPnRanges, pn, result, dropped);
      TracksStep(log, lost, recvPnRanges, old(largestRecvPn), pn, result, dropped);
      LostLow(recvPnRanges, pn, result, dropped, lost);
      recvPnRanges := result;
      lost := Lost(lost, pn, dropped);
      log := log + [pn];
    }

    /** Retry forgets the Initial space. */
    method Reset()
      modifies this
      ensures Valid() && log == [] && lost == iset{}
    {
      receivedPackets, largestRecvPn, recvPnRanges := false, 0, [];
      log, lost := [], iset{};
    }

    /** The ACK frame `generate_acks` queues, `due` being the outcome of its timing and key tests. */
    method GenerateAck(due: bool) returns (ack: AckFrame)
      requires Valid()
      ensures ack.Ack? <==> due && log != []
      ensures ack.Ack? ==> IsMax(log, ack.largestAcknowledged) && ack.largestAcknowledged == largestRecvPn
      ensures ack.Ack? ==> WellFormed(ack.ranges) && 0 < |ack.ranges| <= MAX_TRACKED_RECV_PN_RANGES
      ensures ack.Ack? ==> ack.ranges[0].end == ack.largestAcknowledged
      ensures ack.Ack? ==> forall q: nat :: Has(ack.ranges, q) <==> q in log && q !in lost
    {
      if !due || recvPnRanges == [] {
        return NoAck;
      }
      return Ack(recvPnRanges[0].end, recvPnRanges);
    }
  }

  lemma TracksParts(log: seq<nat>, lost: iset<nat>, ranges: seq<Range>, received: bool, largest: nat)
    requires Tracks(log, lost, ranges, received, largest)
    ensures WellFormed(ranges) && |ranges| <= MAX_TRACKED_RECV_PN_RANGES && (received <==> log != [])
  {
  }

  lemma LostLow(ranges: seq<Range>, pn: nat, result: seq<Range>, dropped: seq<Range>, lost: iset<nat>)
    requires Inserted(ranges, pn, result, dropped)
    ensures |dropped| <= 1
    ensures forall q :: q in Lost(lost, pn, dropped) - lost ==>
      |result| == MAX_TRACKED_RECV_PN_RANGES && q < result[|result| - 1].start
  {
    if dropped != [] {
      assert (result + dropped)[|result|] == dropped[0] && (result + dropped)[|result| - 1] == result[|result| - 1];
    }
  }
}
