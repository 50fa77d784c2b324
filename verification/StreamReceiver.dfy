/** The receive side of one stream as the connection keeps it, proved against the runs of `StreamDelivery`. */
module StreamReceiver {
  import opened StreamBuffer
  import opened StreamDelivery

  const U64_MAX: nat := 0xFFFF_FFFF_FFFF_FFFF

  datatype FinalSize = Unknown | Known(size: nat)

  datatype RecvState = Receiving | SizeKnown | DataRecvd | ResetRecvd | DataRead | ResetRead

  datatype FrameResult = Accepted | FinalSizeError | FlowControlError

  datatype ReadResult = Read(data: seq<Byte>, fin: bool) | StreamReset

  lemma StartHasNoPredecessor(buf: Buffer, s: nat, t: nat)
    requires Separated(buf) && s in buf && t in buf && s > 0
    ensures !Within(t, buf[t], s - 1)
  {
  }

  /** A segment starts at `k` exactly when byte `k` is stored and byte `k - 1` is not. */
  lemma KeyStartsRun(buf: Buffer, k: nat)
    requires Separated(buf)
    ensures k in buf <==> k in Bytes(buf) && (k == 0 || k - 1 !in Bytes(buf))
  {
    if k in buf {
      assert Within(k, buf[k], k);
      if k > 0 {
        forall t | t in buf ensures !Within(t, buf[t], k - 1) {
          StartHasNoPredecessor(buf, k, t);
        }
      }
    } else if Covered(buf, k) {
      var t :| t in buf && Within(t, buf[t], k);
      assert Within(t, buf[t], k - 1);
    }
  }

  /** Removing a whole segment removes its bytes and no other. */
  lemma RemoveSegment(buf: Buffer, s: nat)
    requires Separated(buf) && s in buf
    ensures Separated(buf - {s})
    ensures Bytes(buf - {s}) == WithoutRange(Bytes(buf), s, s + |buf[s]|)
  {
    var c := buf - {s};
    forall k: nat
      ensures k in Bytes(c) <==> k in Bytes(buf) && !(s <= k < s + |buf[s]|)
      ensures k in Bytes(c) && k in Bytes(buf) ==> Bytes(c)[k] == Bytes(buf)[k]
    {
      RemovedByte(buf, s, k);
    }
  }

  lemma RemovedCover(buf: Buffer, s: nat, k: nat)
    requires Disjoint(buf) && s in buf
    ensures Covered(buf - {s}, k) <==> Covered(buf, k) && !Within(s, buf[s], k)
  {
    var c := buf - {s};
    if Covered(buf, k) {
      var t :| t in buf && Within(t, buf[t], k);
      if t != s {
        assert t in c && Within(t, c[t], k);
      }
    }
    if Covered(c, k) {
      var t :| t in c && Within(t, c[t], k);
      assert t in buf && Within(t, buf[t], k);
    }
  }

  lemma RemovedByte(buf: Buffer, s: nat, k: nat)
    requires Disjoint(buf) && s in buf && Disjoint(buf - {s})
    ensures k in Bytes(buf - {s}) <==> k in Bytes(buf) && !Within(s, buf[s], k)
    ensures k in Bytes(buf - {s}) && k in Bytes(buf) ==> Bytes(buf - {s})[k] == Bytes(buf)[k]
  {
    hide Disjoint;
    RemovedCover(buf, s, k);
    var c := buf - {s};
    if Covered(c, k) {
      var t :| t in c && Within(t, c[t], k);
      ByteAtIs(c, t, k);
      ByteAtIs(buf, t, k);
    }
  }

  /** `chunk` is what `m` stores from `offset` on. */
  ghost predicate Stores(m: imap<nat, Byte>, offset: nat, chunk: seq<Byte>) {
    forall k: nat :: Within(offset, chunk, k) ==> k in m && m[k] == chunk[k - offset]
  }

  /** Putting the unread tail of a removed segment back leaves exactly the bytes read missing. */
  lemma PutBack(m: imap<nat, Byte>, s: nat, data: seq<Byte>, n: nat)
    requires n <= |data| && Stores(m, s, data)
    ensures Extend(WithoutRange(m, s, s + |data|), s + n, data[n..]) == WithoutRange(m, s, s + n)
  {
    var l := Extend(WithoutRange(m, s, s + |data|), s + n, data[n..]);
    var r := WithoutRange(m, s, s + n);
    forall k: nat ensures k in l <==> k in r {
      assert Within(s + n, data[n..], k) <==> s + n <= k < s + |data|;
      assert s <= k < s + |data| ==> Within(s, data, k);
    }
    forall k: nat | k in l ensures l[k] == r[k] {
      if s + n <= k < s + |data| {
        assert Within(s, data, k) && data[n..][k - (s + n)] == data[k - s];
      }
    }
  }

  ghost predicate AllStored(m: imap<nat, Byte>, from: nat, to: nat) {
    forall k: nat :: from <= k < to ==> k in m
  }

  /** Sort-and-sweep over the stored ranges, for any buffer whatsoever: true exactly when every byte from the read
      offset up to the final size is stored. */
  method StreamHasReceivedAllData(buf: Buffer, recvOffset: nat, finalSize: FinalSize) returns (all: bool)
    ensures all <==> finalSize.Known? && AllStored(Bytes(buf), recvOffset, finalSize.size)
  {
    if finalSize == Unknown {
      return false;
    }
    if recvOffset >= finalSize.size {
      return true;
    }
    var coveredUntil := recvOffset;
    var segments := SortedSegments(buf);
    for i := 0 to |segments|
      invariant recvOffset <= coveredUntil < finalSize.size
      invariant forall k: nat :: recvOffset <= k < coveredUntil ==> Covered(buf, k)
      invariant forall j :: 0 <= j < i ==> End(segments[j]) <= coveredUntil
    {
      var start, end := segments[i].start, End(segments[i]);
      if end <= coveredUntil {
        continue;
      }
      if start > coveredUntil {
        GapAt(buf, segments, i, coveredUntil);
        assert coveredUntil !in Bytes(buf);
        return false;
      }
      forall k: nat | coveredUntil <= k < end ensures Covered(buf, k) {
        assert Within(start, buf[start], k);
      }
      coveredUntil := end;
      if coveredUntil >= finalSize.size {
        return true;
      }
    }
    GapAt(buf, segments, |segments|, coveredUntil);
    assert coveredUntil !in Bytes(buf);
    return false;
  }

  lemma GapAt(buf: Buffer, segments: seq<Segment>, i: nat, k: nat)
    requires Lists(segments, buf) && Ascending(segments) && i <= |segments|
    requires forall j :: 0 <= j < i ==> End(segments[j]) <= k
    requires i < |segments| ==> k < segments[i].start
    ensures !Covered(buf, k)
  {
    ListCovers(segments, buf, k);
  }

  ghost predicate RunStarts(m: imap<nat, Byte>, k: nat) {
    k in m && (k == 0 || k - 1 !in m)
  }

  lemma StoresPrefix(m: imap<nat, Byte>, offset: nat, data: seq<Byte>, n: nat)
    requires n <= |data| && Stores(m, offset, data)
    ensures Stores(m, offset, data[..n])
  {
    forall k: nat | Within(offset, data[..n], k) ensures k in m && m[k] == data[..n][k - offset] {
      assert Within(offset, data, k);
    }
  }

  lemma SegmentBytes(buf: Buffer, s: nat)
    requires Separated(buf) && s in buf
    ensures Stores(Bytes(buf), s, buf[s]) && s + |buf[s]| !in Bytes(buf)
  {
    forall k: nat | Within(s, buf[s], k) ensures k in Bytes(buf) && Bytes(buf)[k] == buf[s][k - s] {
      ByteAtIs(buf, s, k);
    }
  }

  /** Remove the segment at the read offset, copy what fits, and buffer the rest again. */
  method NextChunk(buf: Buffer, offset: nat, room: nat) returns (chunk: seq<Byte>, rest: Buffer)
    requires Separated(buf) && offset in buf && room > 0
    ensures 0 < |chunk| <= room && Separated(rest)
    ensures Bytes(rest) == WithoutRange(Bytes(buf), offset, offset + |chunk|)
    ensures Stores(Bytes(buf), offset, chunk)
    ensures |chunk| < room ==> offset + |chunk| !in Bytes(buf)
  {
    hide Bytes;
    var data := buf[offset];
    var copyLen := if |data| < room then |data| else room;
    RemoveSegment(buf, offset);
    SegmentBytes(buf, offset);
    StoresPrefix(Bytes(buf), offset, data, copyLen);
    chunk := data[..copyLen];
    rest := buf - {offset};
    if copyLen < |data| {
      rest := PutBackTail(rest, offset, data, copyLen, Bytes(buf));
    }
  }

  method PutBackTail(buf: Buffer, offset: nat, data: seq<Byte>, copyLen: nat, ghost m: imap<nat, Byte>)
    returns (rest: Buffer)
    requires Separated(buf) && copyLen < |data| && Stores(m, offset, data)
    requires Bytes(buf) == WithoutRange(m, offset, offset + |data|)
    ensures Separated(rest)
    ensures Bytes(rest) == WithoutRange(m, offset, offset + copyLen)
  {
    hide Bytes;
    PutBack(m, offset, data, copyLen);
    rest := BufferStreamRecvData(buf, offset + copyLen, data[copyLen..]);
  }

  /** State of a read after copying `out`, with `m` still stored. */
  ghost predicate Partial(s: Stream, room: nat, out: seq<Byte>, m: imap<nat, Byte>) {
    && |out| <= room
    && m == WithoutRange(s.bytes, s.offset, s.offset + |out|)
    && Stores(s.bytes, s.offset, out)
    && (out != [] ==> Readable(s))
    && (0 < |out| < room ==> s.offset + |out| !in s.bytes)
  }

  lemma PartialStart(s: Stream, room: nat)
    ensures Partial(s, room, [], s.bytes)
  {
  }

  lemma PartialStep(s: Stream, room: nat, out: seq<Byte>, m: imap<nat, Byte>, chunk: seq<Byte>)
    requires Partial(s, room, out, m) && RunStarts(m, s.offset + |out|)
    requires 0 < |chunk| <= room - |out| && Stores(m, s.offset + |out|, chunk)
    requires |chunk| < room - |out| ==> s.offset + |out| + |chunk| !in m
    ensures Partial(s, room, out + chunk, WithoutRange(m, s.offset + |out|, s.offset + |out| + |chunk|))
  {
    assert out == [];
    assert m == s.bytes;
    assert out + chunk == chunk;
  }

  lemma PartialDone(s: Stream, room: nat, out: seq<Byte>, m: imap<nat, Byte>)
    requires Partial(s, room, out, m) && (|out| == room || !RunStarts(m, s.offset + |out|))
    ensures Reads(s, room, out)
  {
    if out == [] {
      assert m == s.bytes;
    }
    forall k: nat | s.offset <= k < s.offset + |out| ensures k in s.bytes && s.bytes[k] == out[k - s.offset] {
      assert Within(s.offset, out, k);
    }
  }

  /** The copying loop of `stream_recv`: consecutive stored segments while they start at the read offset. */
  method CopyOut(buf: Buffer, offset: nat, room: nat, ghost s: Stream) returns (out: seq<Byte>, rest: Buffer)
    requires Separated(buf) && s.bytes == Bytes(buf) && s.offset == offset
    ensures Separated(rest)
    ensures Reads(s, room, out)
    ensures Bytes(rest) == WithoutRange(s.bytes, s.offset, s.offset + |out|)
  {
    hide Bytes;
    out, rest := [], buf;
    ghost var m := s.bytes;
    PartialStart(s, room);
    while |out| < room
      invariant Separated(rest) && Bytes(rest) == m
      invariant Partial(s, room, out, m)
      decreases room - |out|
    {
      KeyStartsRun(rest, offset + |out|);
      if offset + |out| !in rest {
        break;
      }
      var chunk, next := NextChunk(rest, offset + |out|, room - |out|);
      PartialStep(s, room, out, m, chunk);
      m := WithoutRange(m, offset + |out|, offset + |out| + |chunk|);
      rest, out := next, out + chunk;
    }
    PartialDone(s, room, out, m);
  }

  /** No byte at or beyond `n` is stored. */
  ghost predicate AllBelow(m: imap<nat, Byte>, n: nat) {
    forall k: nat :: k in m ==> k < n
  }

  lemma ExtendBelow(m: imap<nat, Byte>, offset: nat, data: seq<Byte>, n: nat, n': nat)
    requires AllBelow(m, n) && n <= n' && offset + |data| <= n'
    ensures AllBelow(m, n') && AllBelow(Extend(m, offset, data), n')
  {
  }

  lemma WithoutBelow(m: imap<nat, Byte>, from: nat, to: nat, n: nat)
    requires AllBelow(m, n)
    ensures AllBelow(WithoutRange(m, from, to), n)
  {
  }

  function Max(a: nat, b: nat): nat { if a < b then b else a }

  /** The frame ends within the offset range and any final size already known. */
  predicate EndsWithin(finalSize: FinalSize, end: nat) {
    end <= U64_MAX && (finalSize.Known? ==> end <= finalSize.size)
  }

  lemma BelowMore(m: imap<nat, Byte>, n: nat, more: nat)
    requires AllBelow(m, n) && n <= more
    ensures AllBelow(m, more)
  {
  }

  function MaxOf(ns: seq<nat>): nat {
    if ns == [] then 0 else Max(MaxOf(ns[..|ns| - 1]), ns[|ns| - 1])
  }

  ghost predicate SomeBeyond(ns: seq<nat>, n: nat) { exists i :: 0 <= i < |ns| && ns[i] > n }

  lemma {:induction false} MaxOfIs(ns: seq<nat>, n: nat)
    ensures MaxOf(ns) > n <==> SomeBeyond(ns, n)
    decreases |ns|
  {
    if ns != [] {
      var front := ns[..|ns| - 1];
      MaxOfIs(front, n);
      if SomeBeyond(front, n) {
        var i :| 0 <= i < |front| && front[i] > n;
        assert ns[i] > n;
      }
      if SomeBeyond(ns, n) {
        var i :| 0 <= i < |ns| && ns[i] > n;
        assert i < |front| ==> front[i] > n;
      }
    }
  }

  lemma MaxOfSnoc(ns: seq<nat>, n: nat)
    ensures MaxOf(ns + [n]) == Max(MaxOf(ns), n)
  {
    assert (ns + [n])[..|ns|] == ns;
  }

  /** `received` is the highest end among `ends`, the frames that were within range and final size. */
  class RecvStream {
    var recvBuf: Buffer
    var recvOffset: nat
    var received: nat
    var finalSize: FinalSize
    var state: RecvState
    ghost var bytes: imap<nat, Byte>
    ghost var log: seq<Arrival>
    ghost var delivered: seq<Byte>
    ghost var ends: seq<nat>

    ghost predicate Valid()
      reads this
    {
      && Separated(recvBuf)
      && bytes == Bytes(recvBuf)
      && received == MaxOf(ends)
      && AllBelow(bytes, received)
      && (finalSize.Known? ==> received <= finalSize.size)
      && (state == SizeKnown || state == DataRecvd || state == DataRead ==> finalSize.Known?)
    }

    /** The abstract stream this object stands for. */
    ghost function View(): Stream
      reads this
    {
      Stream(bytes, recvOffset, log, delivered)
    }

    constructor ()
      ensures Valid() && View() == Empty() && state == Receiving && finalSize == Unknown && ends == []
    {
      recvBuf, recvOffset, received := map[], 0, 0;
      finalSize, state := Unknown, Receiving;
      bytes, log, delivered, ends := imap[], [], [], [];
    }

    /** A STREAM frame: final-size and flow-control checks, buffering, then the FIN bookkeeping.
        `recvMax` is this stream's limit, `connectionAllows` the outcome of the connection-level check. */
    method OnStreamFrame(offset: nat, data: seq<Byte>, fin: bool, recvMax: nat, connectionAllows: bool)
      returns (r: FrameResult)
      requires Valid()
      modifies this
      ensures Valid() && delivered == old(delivered)
      ensures ends == if EndsWithin(old(finalSize), offset + |data|) then old(ends) + [offset + |data|] else old(ends)
      ensures View() ==
        if r == Accepted || (r == FinalSizeError && EndsWithin(old(finalSize), offset + |data|))
        then Apply(old(View()), Got(offset, data)) else old(View())
      ensures r != Accepted ==> finalSize == old(finalSize) && state == old(state)
      ensures r == Accepted ==> finalSize == if fin then Known(offset + |data|) else old(finalSize)
      ensures r == FlowControlError <==>
        && EndsWithin(old(finalSize), offset + |data|)
        && (SomeBeyond(old(ends) + [offset + |data|], recvMax) || !connectionAllows)
      ensures r == FinalSizeError <==>
        || offset + |data| > U64_MAX
        || (old(finalSize).Known? && offset + |data| > old(finalSize).size)
        || (r != FlowControlError && fin && (SomeBeyond(old(ends), offset + |data|) ||
            (old(finalSize).Known? && old(finalSize).size != offset + |data|)))
      ensures r == Accepted && old(finalSize).Known? ==> finalSize == old(finalSize)
      ensures r == Accepted && old(state) in {Receiving, SizeKnown} ==>
        && (state == DataRecvd <==>
             (fin || old(state) == SizeKnown) && AllStored(View().bytes, recvOffset, finalSize.size))
        && (state == DataRecvd || state == if fin then SizeKnown else old(state))
      ensures old(state) !in {Receiving, SizeKnown} ==> state == old(state)
    {
      hide Bytes, Separated, Disjoint, Extend, WithoutRange, AllStored, Reads, AllBelow, MaxOf, SomeBeyond;
      var end := offset + |data|;
      MaxOfIs(ends, end);
      r := Admit(end, recvMax, connectionAllows);
      if r != Accepted {
        return;
      }
      Store(offset, data);
      if fin {
        var ok := MarkFinal(end);
        if !ok {
          return FinalSizeError;
        }
      }
      NoteAllReceived();
    }

    /** The checks before anything is stored: offset range, final size, flow control. */
    method Admit(end: nat, recvMax: nat, connectionAllows: bool) returns (r: FrameResult)
      requires Valid()
      modifies `received, `ends
      ensures Valid()
      ensures r == FinalSizeError <==> !EndsWithin(finalSize, end)
      ensures r == FlowControlError <==>
        EndsWithin(finalSize, end) && (SomeBeyond(old(ends) + [end], recvMax) || !connectionAllows)
      ensures ends == if EndsWithin(finalSize, end) then old(ends) + [end] else old(ends)
      ensures received == if EndsWithin(finalSize, end) then Max(old(received), end) else old(received)
    {
      hide Bytes, Separated, AllBelow, MaxOf, SomeBeyond;
      if end > U64_MAX {
        return FinalSizeError;
      }
      if finalSize.Known? && end > finalSize.size {
        return FinalSizeError;
      }
      MaxOfSnoc(ends, end);
      MaxOfIs(ends + [end], recvMax);
      BelowMore(bytes, received, Max(received, end));
      ends := ends + [end];
      if end > received {
        received := end;
      }
      if received > recvMax || !connectionAllows {
        return FlowControlError;
      }
      return Accepted;
    }

    /** Buffering the data of an admitted frame. */
    method Store(offset: nat, data: seq<Byte>)
      requires Valid() && offset + |data| <= received
      modifies `recvBuf, `bytes, `log
      ensures Valid() && View() == Apply(old(View()), Got(offset, data))
    {
      hide Bytes, Separated, Disjoint, Extend, AllBelow, MaxOf;
      ExtendBelow(bytes, offset, data, received, received);
      SeparatedIsDisjoint(recvBuf);
      recvBuf := BufferStreamRecvData(recvBuf, offset, data);
      bytes := Extend(bytes, offset, data);
      log := log + [Arrival(offset, data, recvOffset)];
    }

    /** The frame was the last one: the final size must agree with an earlier one and with the data received. */
    method MarkFinal(end: nat) returns (ok: bool)
      requires Valid()
      modifies `finalSize, `state
      ensures Valid()
      ensures ok <==> (old(finalSize).Known? ==> old(finalSize).size == end) && received <= end
      ensures ok ==> finalSize == Known(end) && state == if old(state) == Receiving then SizeKnown else old(state)
      ensures !ok ==> finalSize == old(finalSize) && state == old(state)
    {
      hide Bytes, Separated, AllBelow;
      if (finalSize.Known? && finalSize.size != end) || received > end {
        return false;
      }
      finalSize := Known(end);
      if state == Receiving {
        state := SizeKnown;
      }
      return true;
    }

    method NoteAllReceived()
      requires Valid()
      modifies `state
      ensures Valid()
      ensures state ==
        if old(state) == SizeKnown && AllStored(bytes, recvOffset, finalSize.size) then DataRecvd else old(state)
    {
      hide Bytes, Separated, AllBelow, AllStored;
      if state == SizeKnown {
        var all := StreamHasReceivedAllData(recvBuf, recvOffset, finalSize);
        if all {
          state := DataRecvd;
        }
      }
    }

    /** A RESET_STREAM frame: its final size is checked like a FIN's, and what is buffered is given up. */
    method OnResetFrame(size: nat) returns (ok: bool)
      requires Valid()
      modifies `finalSize, `state, `recvBuf, `bytes
      ensures Valid()
      ensures ok <==> (old(finalSize).Known? ==> old(finalSize).size == size) && !SomeBeyond(ends, size)
      ensures ok ==> finalSize == Known(size) && state == ResetRecvd && View() == old(View()).(bytes := imap[])
      ensures !ok ==> finalSize == old(finalSize) && state == old(state) && View() == old(View())
    {
      hide MaxOf, SomeBeyond;
      MaxOfIs(ends, size);
      if (finalSize.Known? && finalSize.size != size) || received > size {
        return false;
      }
      finalSize, state := Known(size), ResetRecvd;
      recvBuf, bytes := map[], imap[];
      return true;
    }

    /** `stream_recv`: copy out what is readable, then the end-of-stream bookkeeping. */
    method StreamRecv(room: nat) returns (r: ReadResult)
      requires Valid()
      modifies this
      ensures Valid() && log == old(log) && finalSize == old(finalSize) && ends == old(ends)
      ensures r == StreamReset <==> old(state) == ResetRecvd
      ensures r == StreamReset ==> View() == old(View()) && state == ResetRead
      ensures r.Read? ==> Reads(old(View()), room, r.data) && View() == Apply(old(View()), Took(room, r.data))
      ensures r.Read? ==> (r.fin <==> finalSize.Known? && recvOffset >= finalSize.size)
      ensures r.Read? ==> state == if r.fin && old(state) in {SizeKnown, DataRecvd} then DataRead else old(state)
    {
      hide Bytes, Separated, Disjoint, Extend, WithoutRange, AllStored, Reads, AllBelow, MaxOf;
      if state == ResetRecvd {
        state := ResetRead;
        return StreamReset;
      }
      var out, rest := CopyOut(recvBuf, recvOffset, room, View());
      WithoutBelow(bytes, recvOffset, recvOffset + |out|, received);
      bytes := WithoutRange(bytes, recvOffset, recvOffset + |out|);
      recvBuf, recvOffset := rest, recvOffset + |out|;
      delivered := delivered + out;
      var fin := false;
      if finalSize.Known? && recvOffset >= finalSize.size {
        fin := true;
        if state == SizeKnown {
          state := DataRecvd;
        }
        if state == DataRecvd {
          state := DataRead;
        }
      }
      return Read(out, fin);
    }
  }

}
