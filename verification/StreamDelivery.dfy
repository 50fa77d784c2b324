/** In-order delivery of a STREAM: what every run of arriving frames and reads returns. */
module StreamDelivery {
  import opened StreamBuffer

  // ---- Runs over the byte map ----

  /** A frame as it arrived, with the read offset at that moment. */
  datatype Arrival = Arrival(start: nat, data: seq<Byte>, at: nat)

  /** Undelivered bytes, read offset, arrivals so far, and everything returned to the reader so far. */
  datatype Stream = Stream(bytes: imap<nat, Byte>, offset: nat, log: seq<Arrival>, delivered: seq<Byte>)

  datatype Event = Got(start: nat, data: seq<Byte>) | Took(room: nat, out: seq<Byte>)

  ghost function Empty(): Stream { Stream(imap[], 0, [], []) }

  /** A stored run begins exactly at the read offset. */
  ghost predicate Readable(s: Stream) {
    s.offset in s.bytes && (s.offset == 0 || s.offset - 1 !in s.bytes)
  }

  /** `out` is what a read into a buffer of `room` bytes returns. */
  ghost predicate Reads(s: Stream, room: nat, out: seq<Byte>) {
    && |out| <= room
    && (out != [] <==> room > 0 && Readable(s))
    && (forall k: nat :: s.offset <= k < s.offset + |out| ==> k in s.bytes && s.bytes[k] == out[k - s.offset])
    && (0 < |out| < room ==> s.offset + |out| !in s.bytes)
  }

  ghost function WithoutRange(m: imap<nat, Byte>, from: nat, to: nat): imap<nat, Byte> {
    imap k: nat | k in m && !(from <= k < to) :: m[k]
  }

  ghost predicate Possible(s: Stream, e: Event) {
    e.Took? ==> Reads(s, e.room, e.out)
  }

  ghost function Apply(s: Stream, e: Event): Stream {
    match e
    case Got(start, data) =>
      s.(bytes := Extend(s.bytes, start, data), log := s.log + [Arrival(start, data, s.offset)])
    case Took(room, out) =>
      s.(bytes := WithoutRange(s.bytes, s.offset, s.offset + |out|), offset := s.offset + |out|,
         delivered := s.delivered + out)
  }

  ghost predicate Steps(p: Stream, e: Event, s: Stream) { Possible(p, e) && s == Apply(p, e) }

  function Front(es: seq<Event>): seq<Event>
    requires es != []
  {
    es[..|es| - 1]
  }

  function Last(es: seq<Event>): Event
    requires es != []
  {
    es[|es| - 1]
  }

  /** Events `es` lead from the fresh stream to `s`. */
  ghost predicate Runs(es: seq<Event>, s: Stream)
    decreases |es|
  {
    if es == [] then s == Empty() else exists p :: Runs(Front(es), p) && Steps(p, Last(es), s)
  }

  // ---- Which bytes are stored ----

  ghost predicate Arrived(log: seq<Arrival>, k: nat) {
    exists i :: 0 <= i < |log| && Within(log[i].start, log[i].data, k)
  }

  /** Some frame brought byte `k` when it had already been delivered. */
  ghost predicate Stale(log: seq<Arrival>, k: nat) {
    exists i :: 0 <= i < |log| && Within(log[i].start, log[i].data, k) && k < log[i].at
  }

  ghost predicate StoredOk(s: Stream, k: nat) {
    && (k in s.bytes <==> if k < s.offset then Stale(s.log, k) else Arrived(s.log, k))
    && (k < s.offset ==> Arrived(s.log, k))
  }

  ghost predicate Inv(s: Stream) {
    && |s.delivered| == s.offset
    && (forall i :: 0 <= i < |s.log| ==> s.log[i].at <= s.offset)
    && (forall k: nat :: StoredOk(s, k))
  }

  lemma LogSnoc(log: seq<Arrival>, a: Arrival, k: nat)
    ensures Arrived(log + [a], k) <==> Arrived(log, k) || Within(a.start, a.data, k)
    ensures Stale(log + [a], k) <==> Stale(log, k) || (Within(a.start, a.data, k) && k < a.at)
  {
    var longer := log + [a];
    assert longer[|log|] == a;
    if Arrived(log, k) {
      var i :| 0 <= i < |log| && Within(log[i].start, log[i].data, k);
      assert longer[i] == log[i];
    }
    if Stale(log, k) {
      var i :| 0 <= i < |log| && Within(log[i].start, log[i].data, k) && k < log[i].at;
      assert longer[i] == log[i];
    }
  }

  lemma StepInv(s: Stream, e: Event)
    requires Inv(s) && Possible(s, e)
    ensures Inv(Apply(s, e))
  {
    var t := Apply(s, e);
    forall k: nat ensures StoredOk(t, k) {
      assert StoredOk(s, k);
      if e.Got? {
        LogSnoc(s.log, Arrival(e.start, e.data, s.offset), k);
      } else {
        NotStaleYet(s, k);
      }
    }
  }

  lemma NotStaleYet(s: Stream, k: nat)
    requires forall i :: 0 <= i < |s.log| ==> s.log[i].at <= s.offset
    ensures s.offset <= k ==> !Stale(s.log, k)
  {
  }

  lemma {:induction false} RunInv(es: seq<Event>, s: Stream)
    requires Runs(es, s)
    ensures Inv(s)
    decreases |es|
  {
    if es != [] {
      var p :| Runs(Front(es), p) && Steps(p, Last(es), s);
      RunInv(Front(es), p);
      StepInv(p, Last(es));
    }
  }

  /** What a read returns is determined by the stored bytes and the room. */
  lemma ReadsUnique(s: Stream, room: nat, a: seq<Byte>, b: seq<Byte>)
    requires Reads(s, room, a) && Reads(s, room, b)
    ensures a == b
  {
    ReadsNoLonger(s, room, a, b);
    ReadsNoLonger(s, room, b, a);
    forall i | 0 <= i < |a| ensures a[i] == b[i] {
      assert s.bytes[s.offset + i] == a[s.offset + i - s.offset];
      assert s.bytes[s.offset + i] == b[s.offset + i - s.offset];
    }
  }

  lemma ReadsNoLonger(s: Stream, room: nat, a: seq<Byte>, b: seq<Byte>)
    requires Reads(s, room, a) && Reads(s, room, b)
    ensures |a| <= |b|
  {
    assert |b| < |a| ==> s.offset + |b| in s.bytes;
  }

  // ---- Delivery safety ----

  /** Every frame of the run was cut from the one source string. */
  ghost predicate CutFrom(es: seq<Event>, source: nat -> Byte) {
    forall i, k: nat :: 0 <= i < |es| && es[i].Got? && Within(es[i].start, es[i].data, k) ==>
      es[i].data[k - es[i].start] == source(k)
  }

  ghost predicate FromSource(s: Stream, source: nat -> Byte) {
    && (forall k: nat :: k in s.bytes ==> s.bytes[k] == source(k))
    && (forall k: nat :: k < |s.delivered| ==> s.delivered[k] == source(k))
  }

  lemma DeliveredSoFar(es: seq<Event>, s: Stream)
    requires Runs(es, s)
    ensures |s.delivered| == s.offset
  {
    hide Runs;
    RunInv(es, s);
  }

  /** However frames are reordered, duplicated or overlapped, the reads so far concatenate to the source prefix of
      length `recv_offset`. */
  lemma {:induction false} DeliverySafety(es: seq<Event>, s: Stream, source: nat -> Byte)
    requires Runs(es, s) && CutFrom(es, source)
    ensures FromSource(s, source) && |s.delivered| == s.offset
    decreases |es|
  {
    hide FromSource, Inv, Possible, Apply;
    DeliveredSoFar(es, s);
    if es == [] {
      NothingYet(source);
    } else {
      var init, e := Front(es), Last(es);
      var p :| Runs(init, p) && Steps(p, e, s);
      assert forall i :: 0 <= i < |init| ==> init[i] == es[i];
      DeliverySafety(init, p, source);
      assert e.Got? ==> forall k: nat :: Within(e.start, e.data, k) ==> e.data[k - e.start] == source(k);
      SourceStep(p, e, source);
    }
  }

  lemma NothingYet(source: nat -> Byte)
    ensures FromSource(Empty(), source)
  {
  }

  lemma SourceStep(p: Stream, e: Event, source: nat -> Byte)
    requires FromSource(p, source) && Possible(p, e) && |p.delivered| == p.offset
    requires e.Got? ==> forall k: nat :: Within(e.start, e.data, k) ==> e.data[k - e.start] == source(k)
    ensures FromSource(Apply(p, e), source)
  {
    hide FromSource, Reads, Apply;
    if e.Took? {
      TookFromSource(p, e.room, e.out, source);
    } else {
      GotFromSource(p, e.start, e.data, source);
    }
  }

  lemma GotFromSource(p: Stream, start: nat, data: seq<Byte>, source: nat -> Byte)
    requires FromSource(p, source) && forall k: nat :: Within(start, data, k) ==> data[k - start] == source(k)
    ensures FromSource(Apply(p, Got(start, data)), source)
  {
    var t := Apply(p, Got(start, data));
    forall k: nat | k in t.bytes ensures t.bytes[k] == source(k) {
      assert k in p.bytes || Within(start, data, k);
    }
  }

  lemma TookFromSource(p: Stream, room: nat, out: seq<Byte>, source: nat -> Byte)
    requires FromSource(p, source) && Reads(p, room, out) && |p.delivered| == p.offset
    ensures FromSource(Apply(p, Took(room, out)), source)
  {
    var t := Apply(p, Took(room, out));
    forall k: nat | k < |t.delivered| ensures t.delivered[k] == source(k) {
      if k >= |p.delivered| {
        assert k in p.bytes && p.bytes[k] == out[k - p.offset];
      }
    }
  }

  // ---- Progress ----

  /** A frame that arrived at the current read offset begins below it and reaches it. */
  ghost predicate Straddled(s: Stream) {
    exists i :: 0 <= i < |s.log| && s.log[i].at == s.offset
             && s.log[i].start < s.offset <= s.log[i].start + |s.log[i].data|
  }

  /** In every run a read with room returns data exactly when the next byte has arrived and no frame that came in
      at the present read offset began below it and reached up to it. */
  lemma ProgressExactly(es: seq<Event>, s: Stream, room: nat, out: seq<Byte>)
    requires Runs(es, s) && Reads(s, room, out) && room > 0
    ensures out != [] <==> Arrived(s.log, s.offset) && !Straddled(s)
  {
    RunInv(es, s);
    assert StoredOk(s, s.offset);
    if s.offset > 0 {
      assert StoredOk(s, s.offset - 1);
      StaleIsStraddled(s);
    }
  }

  lemma StaleIsStraddled(s: Stream)
    requires s.offset > 0 && forall i :: 0 <= i < |s.log| ==> s.log[i].at <= s.offset
    ensures Stale(s.log, s.offset - 1) <==> Straddled(s)
  {
    if Stale(s.log, s.offset - 1) {
      var i :| 0 <= i < |s.log| && Within(s.log[i].start, s.log[i].data, s.offset - 1) && s.offset - 1 < s.log[i].at;
    }
    if Straddled(s) {
      var i :| 0 <= i < |s.log| && s.log[i].at == s.offset
             && s.log[i].start < s.offset <= s.log[i].start + |s.log[i].data|;
      assert Within(s.log[i].start, s.log[i].data, s.offset - 1);
    }
  }

  /** If every frame starts at or beyond the read offset it meets, reads never stall. */
  lemma ForwardFramesNeverStall(es: seq<Event>, s: Stream, room: nat, out: seq<Byte>)
    requires Runs(es, s) && Reads(s, room, out) && room > 0
    requires forall i :: 0 <= i < |s.log| ==> s.log[i].at <= s.log[i].start
    ensures out != [] <==> Arrived(s.log, s.offset)
  {
    ProgressExactly(es, s, room, out);
  }

  /** Events `es` lead from `s` to `t`. */
  ghost predicate Continues(s: Stream, es: seq<Event>, t: Stream)
    decreases |es|
  {
    if es == [] then t == s else exists p :: Continues(s, Front(es), p) && Steps(p, Last(es), t)
  }

  lemma StallStep(s: Stream, e: Event)
    requires Inv(s) && Straddled(s) && Possible(s, e)
    ensures var t := Apply(s, e); t.offset == s.offset && t.delivered == s.delivered && Straddled(t)
  {
    assert StoredOk(s, s.offset - 1);
    StaleIsStraddled(s);
    var i :| 0 <= i < |s.log| && s.log[i].at == s.offset
           && s.log[i].start < s.offset <= s.log[i].start + |s.log[i].data|;
    assert Apply(s, e).log[i] == s.log[i];
  }

  /** A straddled read offset stalls for good: whatever arrives and however often it is read, nothing more is
      delivered. */
  lemma {:induction false} StallIsPermanent(es: seq<Event>, s: Stream, more: seq<Event>, t: Stream)
    requires Runs(es, s) && Straddled(s) && Continues(s, more, t)
    ensures Inv(t) && Straddled(t) && t.offset == s.offset && t.delivered == s.delivered
    decreases |more|
  {
    hide Inv, Straddled, Runs;
    if more == [] {
      RunInv(es, s);
    } else {
      var p :| Continues(s, Front(more), p) && Steps(p, Last(more), t);
      StallIsPermanent(es, s, Front(more), p);
      StepInv(p, Last(more));
      StallStep(p, Last(more));
    }
  }

  lemma RunsOn(es: seq<Event>, s: Stream, ys: seq<Event>, p: Stream, t: Stream)
    requires ys != [] && Runs(es + Front(ys), p) && Steps(p, Last(ys), t)
    ensures Runs(es + ys, t)
  {
    hide Steps;
    assert Front(es + ys) == es + Front(ys) && Last(es + ys) == Last(ys);
  }

  /** Where frames never straddled the read offset and every byte below `n` has arrived, each read with room moves on
      until byte `n`. */
  lemma {:induction false} ReadsProgress(es: seq<Event>, s: Stream, ys: seq<Event>, t: Stream, n: nat)
    requires Runs(es, s) && Continues(s, ys, t) && forall i :: 0 <= i < |ys| ==> ys[i].Took? && ys[i].room > 0
    requires forall i :: 0 <= i < |s.log| ==> s.log[i].at <= s.log[i].start
    requires forall k: nat :: k < n ==> Arrived(s.log, k)
    ensures Runs(es + ys, t) && t.log == s.log && (t.offset >= n || t.offset >= s.offset + |ys|)
    decreases |ys|
  {
    hide Runs, Arrived, Reads;
    if ys == [] {
      assert es + ys == es;
    } else {
      var p :| Continues(s, Front(ys), p) && Steps(p, Last(ys), t);
      var e := Last(ys);
      ReadsProgress(es, s, Front(ys), p, n);
      RunsOn(es, s, ys, p, t);
      ForwardFramesNeverStall(es + Front(ys), p, e.room, e.out);
    }
  }

  /** The first five bytes are read, sent again, and then the next five arrive: the reader never gets them. */
  lemma RetransmissionStalls(d: seq<Byte>, e: seq<Byte>) returns (es: seq<Event>, s: Stream)
    requires |d| == 5 && |e| == 5
    ensures Runs(es, s) && Arrived(s.log, s.offset) && Reads(s, 1, [])
    ensures es == [Got(0, d), Took(5, d), Got(0, d), Got(5, e)]
    ensures forall more, t :: Continues(s, more, t) ==> t.offset == 5 && t.delivered == s.delivered
  {
    hide Runs, Reads;
    var s1 := Apply(Empty(), Got(0, d));
    RunsSnoc([], Empty(), Got(0, d));
    var e1 := [] + [Got(0, d)];
    FirstRead(d);
    var s2 := Apply(s1, Took(5, d));
    RunsSnoc(e1, s1, Took(5, d));
    var e2 := e1 + [Took(5, d)];
    var s3 := Apply(s2, Got(0, d));
    RunsSnoc(e2, s2, Got(0, d));
    var e3 := e2 + [Got(0, d)];
    s := Apply(s3, Got(5, e));
    RunsSnoc(e3, s3, Got(5, e));
    es := e3 + [Got(5, e)];
    StalledAt(es, s, d, e);
    forall more, t | Continues(s, more, t) ensures t.offset == 5 && t.delivered == s.delivered {
      StallIsPermanent(es, s, more, t);
    }
  }

  lemma FirstRead(d: seq<Byte>)
    requires |d| == 5
    ensures Reads(Apply(Empty(), Got(0, d)), 5, d)
  {
  }

  lemma StalledAt(es: seq<Event>, s: Stream, d: seq<Byte>, e: seq<Byte>)
    requires Runs(es, s) && |d| == 5 && |e| == 5 && s.offset == 5
    requires s.log == [Arrival(0, d, 0), Arrival(0, d, 5), Arrival(5, e, 5)]
    ensures Arrived(s.log, 5) && Reads(s, 1, []) && Straddled(s)
  {
    assert Within(s.log[2].start, s.log[2].data, 5);
    RunInv(es, s);
    assert StoredOk(s, 4);
    assert Within(s.log[1].start, s.log[1].data, 4) && 4 < s.log[1].at;
  }

  lemma RunsSnoc(es: seq<Event>, p: Stream, e: Event)
    requires Runs(es, p) && Possible(p, e)
    ensures Runs(es + [e], Apply(p, e))
  {
    assert Front(es + [e]) == es && Last(es + [e]) == e;
    assert Steps(p, e, Apply(p, e));
  }

  // ---- "All data received" ----

  /** The stored bytes cover everything up to `size` exactly when every byte below `size` has arrived. */
  lemma CoverageIsArrival(es: seq<Event>, s: Stream, size: nat)
    requires Runs(es, s)
    ensures (forall k: nat :: s.offset <= k < size ==> k in s.bytes) <==>
      (forall k: nat :: k < size ==> Arrived(s.log, k))
  {
    RunInv(es, s);
    if forall k: nat :: s.offset <= k < size ==> k in s.bytes {
      forall k: nat | k < size ensures Arrived(s.log, k) {
        assert StoredOk(s, k);
      }
    }
    if forall k: nat :: k < size ==> Arrived(s.log, k) {
      forall k: nat | s.offset <= k < size ensures k in s.bytes {
        assert StoredOk(s, k);
      }
    }
  }
}
