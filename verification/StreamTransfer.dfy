/** One stream from the send queue of one endpoint to the reader at the other. */
module StreamTransfer {
  import StreamBuffer
  import opened FrameSplitting
  import opened Packetiser
  import opened StreamDelivery

  ghost predicate Carries(f: Frame, id: nat, k: nat, b: Byte) {
    f.Stream? && f.streamId == id && f.offset <= k < f.offset + |f.data| && f.data[k - f.offset] == b
  }

  /** Some frame of the list has `b` as byte `k` of stream `id`. */
  ghost predicate HasByte(fs: seq<Frame>, id: nat, k: nat, b: Byte) {
    exists i :: 0 <= i < |fs| && Carries(fs[i], id, k, b)
  }

  lemma FrameByte(f: Frame, id: nat, k: nat, b: Byte)
    ensures StreamByte(id, k, b) in FrameAtoms(f) <==> Carries(f, id, k, b)
  {
    if Carries(f, id, k, b) {
      assert DataAtoms(f)[k - f.offset] == StreamByte(id, k, b);
      assert FrameAtoms(f)[k - f.offset] == StreamByte(id, k, b);
    }
  }

  lemma {:induction false} ListByte(fs: seq<Frame>, id: nat, k: nat, b: Byte)
    ensures StreamByte(id, k, b) in Atoms(fs) <==> HasByte(fs, id, k, b)
    decreases |fs|
  {
    if fs != [] {
      FrameByte(fs[0], id, k, b);
      ListByte(fs[1..], id, k, b);
      if HasByte(fs[1..], id, k, b) {
        var i :| 0 <= i < |fs[1..]| && Carries(fs[1..][i], id, k, b);
        assert Carries(fs[i + 1], id, k, b);
      }
      if HasByte(fs, id, k, b) && !Carries(fs[0], id, k, b) {
        var i :| 0 <= i < |fs| && Carries(fs[i], id, k, b);
        assert Carries(fs[1..][i - 1], id, k, b);
      }
    }
  }

  /** Packetising neither invents nor drops stream bytes while every split attempt has room. */
  lemma BytesSurvive(fs: seq<Frame>, maxPayload: nat -> nat, gate: nat -> bool, id: nat, k: nat, b: Byte)
    requires EverySplitHasRoom(fs, maxPayload, gate, 0)
    ensures var p := Pass(fs, maxPayload, gate, 0);
      HasByte(fs, id, k, b) <==> HasByte(Flat(p.packets), id, k, b) || HasByte(p.left, id, k, b)
  {
    hide Atoms, Flat, Pass, EverySplitHasRoom, HasByte;
    var p := Pass(fs, maxPayload, gate, 0);
    ConservesExactly(fs, maxPayload, gate);
    ListByte(fs, id, k, b);
    ListByte(Flat(p.packets), id, k, b);
    ListByte(p.left, id, k, b);
  }

  // ---- At the receiver ----

  ghost predicate Brings(e: Event, k: nat, b: Byte) {
    e.Got? && e.start <= k < e.start + |e.data| && e.data[k - e.start] == b
  }

  ghost predicate Brought(es: seq<Event>, k: nat, b: Byte) {
    exists i :: 0 <= i < |es| && Brings(es[i], k, b)
  }

  /** The event is the arrival of that frame of stream `id`. */
  ghost predicate IsArrival(e: Event, f: Frame, id: nat) {
    f.Stream? && f.streamId == id && e == Got(f.offset, f.data)
  }

  ghost predicate OnlyThese(es: seq<Event>, fs: seq<Frame>, id: nat) {
    forall i :: 0 <= i < |es| && es[i].Got? ==> exists j :: 0 <= j < |fs| && IsArrival(es[i], fs[j], id)
  }

  ghost predicate AllOfThem(es: seq<Event>, fs: seq<Frame>, id: nat) {
    forall j :: 0 <= j < |fs| && fs[j].Stream? && fs[j].streamId == id ==>
      exists i :: 0 <= i < |es| && IsArrival(es[i], fs[j], id)
  }

  /** The frames of stream `id` in the list have arrived, in any order and any number of times, and no others. */
  ghost predicate Delivers(es: seq<Event>, fs: seq<Frame>, id: nat) { OnlyThese(es, fs, id) && AllOfThem(es, fs, id) }

  lemma BroughtWasSent(es: seq<Event>, fs: seq<Frame>, id: nat, k: nat, b: Byte)
    requires OnlyThese(es, fs, id) && Brought(es, k, b)
    ensures HasByte(fs, id, k, b)
  {
    var i :| 0 <= i < |es| && Brings(es[i], k, b);
    var j :| 0 <= j < |fs| && IsArrival(es[i], fs[j], id);
    assert Carries(fs[j], id, k, b);
  }

  lemma SentIsBrought(es: seq<Event>, fs: seq<Frame>, id: nat, k: nat, b: Byte)
    requires AllOfThem(es, fs, id) && HasByte(fs, id, k, b)
    ensures Brought(es, k, b)
  {
    var j :| 0 <= j < |fs| && Carries(fs[j], id, k, b);
    var i :| 0 <= i < |es| && IsArrival(es[i], fs[j], id);
    assert Brings(es[i], k, b);
  }

  lemma BroughtIsSent(es: seq<Event>, fs: seq<Frame>, id: nat, k: nat, b: Byte)
    requires Delivers(es, fs, id)
    ensures Brought(es, k, b) <==> HasByte(fs, id, k, b)
  {
    hide OnlyThese, AllOfThem, HasByte, Brought;
    if Brought(es, k, b) {
      BroughtWasSent(es, fs, id, k, b);
    }
    if HasByte(fs, id, k, b) {
      SentIsBrought(es, fs, id, k, b);
    }
  }

  lemma BroughtSnoc(es: seq<Event>, k: nat, b: Byte)
    requires es != []
    ensures Brought(es, k, b) <==> Brought(Front(es), k, b) || Brings(Last(es), k, b)
  {
    if Brought(Front(es), k, b) {
      var i :| 0 <= i < |Front(es)| && Brings(Front(es)[i], k, b);
      assert Brings(es[i], k, b);
    }
    if Brings(Last(es), k, b) {
      assert Brings(es[|es| - 1], k, b);
    }
    if Brought(es, k, b) {
      var i :| 0 <= i < |es| && Brings(es[i], k, b);
      assert i < |es| - 1 ==> Brings(Front(es)[i], k, b);
    }
  }

  /** The frames logged by the receiver are those of the run. */
  lemma {:induction false} LogIsEvents(es: seq<Event>, s: Stream, k: nat)
    requires Runs(es, s)
    ensures Arrived(s.log, k) <==> exists b: Byte :: Brought(es, k, b)
    decreases |es|
  {
    hide Brought;
    if es == [] {
      NothingBrought(k);
    } else {
      var p :| Runs(Front(es), p) && Steps(p, Last(es), s);
      LogIsEvents(Front(es), p, k);
      LastArrival(p, Last(es), k);
      forall b: Byte ensures Brought(es, k, b) <==> Brought(Front(es), k, b) || Brings(Last(es), k, b) {
        BroughtSnoc(es, k, b);
      }
    }
  }

  lemma NothingBrought(k: nat)
    ensures forall b: Byte :: !Brought([], k, b)
  {
  }

  lemma LastArrival(p: Stream, e: Event, k: nat)
    ensures Arrived(Apply(p, e).log, k) <==> Arrived(p.log, k) || exists b: Byte :: Brings(e, k, b)
  {
    if e.Got? {
      LogSnoc(p.log, Arrival(e.start, e.data, p.offset), k);
      if StreamBuffer.Within(e.start, e.data, k) {
        assert Brings(e, k, e.data[k - e.start]);
      }
    }
  }

  lemma CutFromSource(es: seq<Event>, source: nat -> Byte)
    requires forall j: nat, b: Byte :: Brought(es, j, b) ==> b == source(j)
    ensures CutFrom(es, source)
  {
    forall i, j: nat | 0 <= i < |es| && es[i].Got? && StreamBuffer.Within(es[i].start, es[i].data, j)
      ensures es[i].data[j - es[i].start] == source(j)
    {
      assert Brings(es[i], j, es[i].data[j - es[i].start]);
      assert Brought(es, j, es[i].data[j - es[i].start]);
    }
  }

  lemma QueueIsCut(fs: seq<Frame>, maxPayload: nat -> nat, gate: nat -> bool, id: nat, source: nat -> Byte,
                   es: seq<Event>)
    requires EverySplitHasRoom(fs, maxPayload, gate, 0) && Pass(fs, maxPayload, gate, 0).left == []
    requires forall j: nat, b: Byte :: HasByte(fs, id, j, b) ==> b == source(j)
    requires Delivers(es, Flat(Pass(fs, maxPayload, gate, 0).packets), id)
    ensures CutFrom(es, source) && forall j: nat, b: Byte :: HasByte(fs, id, j, b) <==> Brought(es, j, b)
  {
    hide EverySplitHasRoom, Pass, Flat, HasByte, Brought, Delivers, CutFrom;
    forall j: nat, b: Byte ensures HasByte(fs, id, j, b) <==> Brought(es, j, b) {
      BytesSurvive(fs, maxPayload, gate, id, j, b);
      NoBytes(id, j, b);
      BroughtIsSent(es, Flat(Pass(fs, maxPayload, gate, 0).packets), id, j, b);
    }
    CutFromSource(es, source);
  }

  /** A queue that the pass emptied, its packets received in any order with any repetition: exactly the queued bytes
      have arrived, and what has been read is the source prefix up to the read offset. */
  lemma QueueReachesReader(fs: seq<Frame>, maxPayload: nat -> nat, gate: nat -> bool, id: nat, source: nat -> Byte,
                           es: seq<Event>, s: Stream, k: nat)
    requires EverySplitHasRoom(fs, maxPayload, gate, 0) && Pass(fs, maxPayload, gate, 0).left == []
    requires forall j: nat, b: Byte :: HasByte(fs, id, j, b) ==> b == source(j)
    requires Runs(es, s) && Delivers(es, Flat(Pass(fs, maxPayload, gate, 0).packets), id)
    ensures Arrived(s.log, k) <==> exists b: Byte :: HasByte(fs, id, k, b)
    ensures FromSource(s, source) && |s.delivered| == s.offset
  {
    hide EverySplitHasRoom, Pass, Flat, HasByte, Runs, Arrived, Brought, Delivers, CutFrom;
    LogIsEvents(es, s, k);
    QueueIsCut(fs, maxPayload, gate, id, source, es);
    DeliverySafety(es, s, source);
  }

  lemma ReadsCutFrom(es: seq<Event>, ys: seq<Event>, source: nat -> Byte)
    requires CutFrom(es, source) && forall i :: 0 <= i < |ys| ==> ys[i].Took?
    ensures CutFrom(es + ys, source)
  {
  }

  /** And if each frame met a read offset at or below its start, the reader gets the queued prefix whole: in any further
      reads with room, as many as it has bytes, whatever room they have. */
  lemma ReaderGetsAll(fs: seq<Frame>, maxPayload: nat -> nat, gate: nat -> bool, id: nat, source: nat -> Byte,
                      es: seq<Event>, s: Stream, n: nat, ys: seq<Event>, t: Stream)
    requires EverySplitHasRoom(fs, maxPayload, gate, 0) && Pass(fs, maxPayload, gate, 0).left == []
    requires forall j: nat, b: Byte :: HasByte(fs, id, j, b) ==> b == source(j)
    requires Runs(es, s) && Delivers(es, Flat(Pass(fs, maxPayload, gate, 0).packets), id)
    requires forall i :: 0 <= i < |s.log| ==> s.log[i].at <= s.log[i].start
    requires forall k: nat :: k < n ==> HasByte(fs, id, k, source(k))
    requires Continues(s, ys, t) && |ys| >= n && forall i :: 0 <= i < |ys| ==> ys[i].Took? && ys[i].room > 0
    ensures |t.delivered| >= n && forall k: nat :: k < |t.delivered| ==> t.delivered[k] == source(k)
  {
    hide EverySplitHasRoom, Pass, Flat, HasByte, Runs, Arrived, Brought, Delivers, CutFrom, Continues;
    forall k: nat | k < n ensures Arrived(s.log, k) {
      assert HasByte(fs, id, k, source(k));
      QueueReachesReader(fs, maxPayload, gate, id, source, es, s, k);
    }
    QueueIsCut(fs, maxPayload, gate, id, source, es);
    ReadsProgress(es, s, ys, t, n);
    ReadsCutFrom(es, ys, source);
    DeliverySafety(es + ys, t, source);
  }

  lemma NoBytes(id: nat, k: nat, b: Byte)
    ensures !HasByte([], id, k, b)
  {
  }
}
