/** `send_pending_frames`: filling packets from the frame queue, with splitting, refusals and re-queueing. */
module Packetiser {
  import opened FrameSplitting

  // ---- What a queue carries ----

  /** The indivisible content of frames. `Blank` marks a data frame with neither bytes nor FIN. */
  datatype Atom =
    | CryptoByte(offset: nat, b: Byte)
    | StreamByte(streamId: nat, offset: nat, b: Byte)
    | Fin(streamId: nat, offset: nat)
    | Blank(frame: Frame)
    | Whole(frame: Frame)

  function DataAtoms(f: Frame): (r: seq<Atom>)
    requires IsData(f)
    ensures |r| == |f.data|
  {
    seq(|f.data|, i requires 0 <= i < |f.data| =>
      if f.Crypto? then CryptoByte(f.offset + i, f.data[i]) else StreamByte(f.streamId, f.offset + i, f.data[i]))
  }

  function Ending(f: Frame): seq<Atom> {
    if f.Control? then [Whole(f)]
    else if f.Stream? && f.fin then [Fin(f.streamId, f.offset + |f.data|)]
    else if f.data == [] then [Blank(f)] else []
  }

  function FrameAtoms(f: Frame): seq<Atom> {
    if f.Control? then Ending(f) else DataAtoms(f) + Ending(f)
  }

  /** Everything a list of frames carries, in order. */
  function Atoms(fs: seq<Frame>): seq<Atom> {
    if fs == [] then [] else FrameAtoms(fs[0]) + Atoms(fs[1..])
  }

  lemma {:induction false} AtomsConcat(a: seq<Frame>, b: seq<Frame>)
    ensures Atoms(a + b) == Atoms(a) + Atoms(b)
    decreases |a|
  {
    if a == [] {
      assert a + b == b;
    } else {
      assert (a + b)[1..] == a[1..] + b;
      AtomsConcat(a[1..], b);
      assert FrameAtoms(a[0]) + (Atoms(a[1..]) + Atoms(b)) == FrameAtoms(a[0]) + Atoms(a[1..]) + Atoms(b);
    }
  }

  lemma AtomsOne(f: Frame)
    ensures Atoms([f]) == FrameAtoms(f) && |FrameAtoms(f)| > 0
  {
    assert Atoms([f][1..]) == [];
  }

  /** Splitting loses and reorders nothing. */
  lemma SplitAtoms(f: Frame, n: nat)
    requires IsData(f) && 0 < n < |f.data|
    ensures FrameAtoms(Head(f, n)) + FrameAtoms(Tail(f, n)) == FrameAtoms(f)
  {
    var h, t := Head(f, n), Tail(f, n);
    assert DataAtoms(h) + DataAtoms(t) == DataAtoms(f);
    assert Ending(h) == [] && Ending(t) == Ending(f);
    assert FrameAtoms(h) + FrameAtoms(t) == DataAtoms(h) + DataAtoms(t) + Ending(f);
  }

  // ---- Filling one packet ----

  datatype Filled = Filled(taken: seq<Frame>, rest: seq<Frame>, lost: seq<Frame>)

  /** Bytes left to send, counting one for each frame. */
  function Weight(fs: seq<Frame>): nat {
    if fs == [] then 0 else (if fs[0].Control? then 1 else |fs[0].data| + 1) + Weight(fs[1..])
  }

  function SatSub(a: nat, b: nat): nat { if a < b then 0 else a - b }

  /** A frame that does not fit, meets a positive budget and carries data, but cannot be split there. */
  predicate NoRoomToSplit(f: Frame, budget: nat) {
    IsData(f) && 0 < budget < EncodedLen(f) && !CanSplit(f, budget)
  }

  /** The frame goes in as it is: it fits, or it is first, does not fit and is not to be split. */
  predicate GoesWhole(payload: nat, f: Frame, maxPayload: nat) {
    EncodedLen(f) <= SatSub(maxPayload, payload) || (payload == 0 && !(maxPayload > 0 && IsData(f)))
  }

  /** A frame larger than the limit goes out whole exactly if it is no data frame, or nothing at all would fit. */
  lemma OversizedExactly(f: Frame, maxPayload: nat)
    requires EncodedLen(f) > maxPayload
    ensures GoesWhole(0, f, maxPayload) <==> f.Control? || maxPayload == 0
  {
  }

  /** What the frame that ends the packet leaves: split, dropped, or put back. */
  function Stop(payload: nat, f: Frame, later: seq<Frame>, maxPayload: nat): Filled {
    var budget := SatSub(maxPayload, payload);
    if budget > 0 && IsData(f) then
      if CanSplit(f, budget) then
        SplitIsOptimal(f, budget);
        var n := SplitLen(f, budget);
        Filled([Head(f, n)], [Tail(f, n)] + later, [])
      else Filled([], later, [f])
    else Filled([], [f] + later, [])
  }

  /** Frames that go into the packet after `payload` bytes, the frames still queued, and those in neither. */
  function Fill(payload: nat, frames: seq<Frame>, maxPayload: nat): Filled
    decreases |frames|
  {
    if frames == [] then Filled([], [], [])
    else if GoesWhole(payload, frames[0], maxPayload) then
      var r := Fill(payload + EncodedLen(frames[0]), frames[1..], maxPayload);
      r.(taken := [frames[0]] + r.taken)
    else Stop(payload, frames[0], frames[1..], maxPayload)
  }

  lemma StopWeight(payload: nat, f: Frame, later: seq<Frame>, maxPayload: nat)
    ensures var r := Stop(payload, f, later, maxPayload);
      && Weight(r.rest) <= Weight([f] + later)
      && (r.taken != [] || r.lost != [] ==> Weight(r.rest) < Weight([f] + later))
      && (payload == 0 && !GoesWhole(payload, f, maxPayload) ==> r.taken != [] || r.lost != [])
  {
    assert ([f] + later)[1..] == later;
    var budget := SatSub(maxPayload, payload);
    if CanSplit(f, budget) {
      SplitIsOptimal(f, budget);
      var t := Tail(f, SplitLen(f, budget));
      assert ([t] + later)[1..] == later;
    }
  }

  /** Filling makes progress, so building packets ends. */
  lemma {:induction false} FillProgress(payload: nat, frames: seq<Frame>, maxPayload: nat)
    ensures var r := Fill(payload, frames, maxPayload);
      && Weight(r.rest) <= Weight(frames)
      && (r.taken != [] || r.lost != [] ==> Weight(r.rest) < Weight(frames))
      && (payload == 0 && frames != [] ==> r.taken != [] || r.lost != [])
    decreases |frames|
  {
    if frames != [] {
      assert frames == [frames[0]] + frames[1..];
      StopWeight(payload, frames[0], frames[1..], maxPayload);
      if GoesWhole(payload, frames[0], maxPayload) {
        FillProgress(payload + EncodedLen(frames[0]), frames[1..], maxPayload);
      }
    }
  }

  lemma Regroup<T>(a: seq<T>, b: seq<T>, c: seq<T>, d: seq<T>)
    ensures a + (b + c + d) == (a + b) + c + d
  {
  }

  lemma StopConserves(payload: nat, f: Frame, later: seq<Frame>, maxPayload: nat)
    ensures var r := Stop(payload, f, later, maxPayload);
      FrameAtoms(f) + Atoms(later) == Atoms(r.taken) + Atoms(r.lost) + Atoms(r.rest)
  {
    hide Atoms, FrameAtoms;
    var budget := SatSub(maxPayload, payload);
    var r := Stop(payload, f, later, maxPayload);
    AtomsNone();
    AtomsOne(f);
    AtomsConcat([f], later);
    if budget > 0 && CanSplit(f, budget) {
      SplitIsOptimal(f, budget);
      var n := SplitLen(f, budget);
      SplitAtoms(f, n);
      AtomsOne(Head(f, n));
      AtomsOne(Tail(f, n));
      AtomsConcat([Tail(f, n)], later);
      Regroup(FrameAtoms(Head(f, n)), [], FrameAtoms(Tail(f, n)), Atoms(later));
    }
  }

  lemma AtomsNone()
    ensures Atoms([]) == []
  {
  }

  lemma {:induction false} FillConserves(payload: nat, frames: seq<Frame>, maxPayload: nat)
    ensures var r := Fill(payload, frames, maxPayload);
      Atoms(frames) == Atoms(r.taken) + Atoms(r.lost) + Atoms(r.rest)
    decreases |frames|
  {
    hide Atoms, FrameAtoms, Stop, GoesWhole;
    if frames == [] {
      AtomsNone();
    } else {
      var f, later := frames[0], frames[1..];
      AtomsCons(frames);
      if GoesWhole(payload, f, maxPayload) {
        var r := Fill(payload + EncodedLen(f), later, maxPayload);
        FillConserves(payload + EncodedLen(f), later, maxPayload);
        AtomsConcat([f], r.taken);
        AtomsOne(f);
        Regroup(FrameAtoms(f), Atoms(r.taken), Atoms(r.lost), Atoms(r.rest));
      } else {
        StopConserves(payload, f, later, maxPayload);
      }
    }
  }

  lemma AtomsCons(fs: seq<Frame>)
    requires fs != []
    ensures Atoms(fs) == FrameAtoms(fs[0]) + Atoms(fs[1..])
  {
  }

  /** How many queued frames go in whole. */
  function WholeFrames(payload: nat, frames: seq<Frame>, maxPayload: nat): (k: nat)
    ensures k <= |frames|
    decreases |frames|
  {
    if frames == [] || !GoesWhole(payload, frames[0], maxPayload) then 0
    else 1 + WholeFrames(payload + EncodedLen(frames[0]), frames[1..], maxPayload)
  }

  function Size(fs: seq<Frame>): nat {
    if fs == [] then 0 else EncodedLen(fs[0]) + Size(fs[1..])
  }

  /** The guard of the losing branch, before the packet is filled: the first frame that does not go in whole either
      is not to be split, or has room for one of its bytes. */
  predicate SplitHasRoom(payload: nat, frames: seq<Frame>, maxPayload: nat) {
    var k := WholeFrames(payload, frames, maxPayload);
    k == |frames| || !NoRoomToSplit(frames[k], SatSub(maxPayload, payload + Size(frames[..k])))
  }

  lemma {:induction false} FillLosesExactly(payload: nat, frames: seq<Frame>, maxPayload: nat)
    ensures Fill(payload, frames, maxPayload).lost == [] <==> SplitHasRoom(payload, frames, maxPayload)
    decreases |frames|
  {
    if frames != [] {
      var f, later := frames[0], frames[1..];
      var k := WholeFrames(payload, frames, maxPayload);
      if k > 0 {
        FillLosesExactly(payload + EncodedLen(f), later, maxPayload);
        assert frames[..k][1..] == later[..k - 1];
      } else {
        assert frames[..0] == [];
      }
    }
  }

  /** A packet stays within its payload limit, unless its first frame alone exceeds it. */
  lemma {:induction false} FillFits(payload: nat, frames: seq<Frame>, maxPayload: nat)
    ensures var r := Fill(payload, frames, maxPayload);
      || payload + Size(r.taken) <= (if payload < maxPayload then maxPayload else payload)
      || (payload == 0 && r.taken != [] && Size(r.taken) == EncodedLen(r.taken[0]))
    decreases |frames|
  {
    if frames != [] {
      var f, later := frames[0], frames[1..];
      var r := Fill(payload, frames, maxPayload);
      if GoesWhole(payload, f, maxPayload) {
        FillFits(payload + EncodedLen(f), later, maxPayload);
        assert r.taken[1..] == Fill(payload + EncodedLen(f), later, maxPayload).taken;
      } else if CanSplit(f, SatSub(maxPayload, payload)) {
        SplitIsOptimal(f, SatSub(maxPayload, payload));
        assert r.taken[1..] == [];
      }
    }
  }

  // ---- Filling packets until the queue is empty or the gate refuses ----

  /** Packets built, frames put back in the queue, frames in neither. */
  datatype Passed = Passed(packets: seq<seq<Frame>>, left: seq<Frame>, lost: seq<Frame>)

  /** `maxPayload(i)` is the payload limit of the i-th packet and `gate(i)` says whether it may be built. */
  function Pass(frames: seq<Frame>, maxPayload: nat -> nat, gate: nat -> bool, i: nat): Passed
    decreases Weight(frames)
  {
    if frames == [] then Passed([], [], [])
    else
      FillProgress(0, frames, maxPayload(i));
      var r := Fill(0, frames, maxPayload(i));
      if r.taken == [] then Passed([], r.rest, r.lost)
      else if !gate(i) then Passed([], r.taken + r.rest, r.lost)
      else
        var p := Pass(r.rest, maxPayload, gate, i + 1);
        Passed([r.taken] + p.packets, p.left, r.lost + p.lost)
  }

  function Flat(packets: seq<seq<Frame>>): seq<Frame> {
    if packets == [] then [] else packets[0] + Flat(packets[1..])
  }

  /** Every packet's split attempt has room. */
  predicate EverySplitHasRoom(frames: seq<Frame>, maxPayload: nat -> nat, gate: nat -> bool, i: nat)
    decreases Weight(frames)
  {
    if frames == [] then true
    else
      FillProgress(0, frames, maxPayload(i));
      var r := Fill(0, frames, maxPayload(i));
      && SplitHasRoom(0, frames, maxPayload(i))
      && (r.taken != [] && gate(i) ==> EverySplitHasRoom(r.rest, maxPayload, gate, i + 1))
  }

  lemma {:induction false} PassLosesExactly(frames: seq<Frame>, maxPayload: nat -> nat, gate: nat -> bool, i: nat)
    ensures Pass(frames, maxPayload, gate, i).lost == [] <==> EverySplitHasRoom(frames, maxPayload, gate, i)
    decreases Weight(frames)
  {
    if frames != [] {
      var r := Fill(0, frames, maxPayload(i));
      FillProgress(0, frames, maxPayload(i));
      FillLosesExactly(0, frames, maxPayload(i));
      if r.taken != [] && gate(i) {
        PassLosesExactly(r.rest, maxPayload, gate, i + 1);
      }
    }
  }

  lemma FlatCons(first: seq<Frame>, packets: seq<seq<Frame>>)
    ensures Flat([first] + packets) == first + Flat(packets)
  {
    assert ([first] + packets)[1..] == packets;
  }

  lemma PassStep(frames: seq<Frame>, maxPayload: nat -> nat, gate: nat -> bool, i: nat)
    requires frames != []
    ensures var r, p := Fill(0, frames, maxPayload(i)), Pass(frames, maxPayload, gate, i);
      && Atoms(frames) == Atoms(r.taken) + Atoms(r.lost) + Atoms(r.rest)
      && (r.taken == [] || !gate(i) ==>
           p.packets == [] && Atoms(p.left) == Atoms(r.taken) + Atoms(r.rest) && p.lost == r.lost)
      && (r.taken != [] && gate(i) ==>
           var q := Pass(r.rest, maxPayload, gate, i + 1);
           && Weight(r.rest) < Weight(frames)
           && Atoms(Flat(p.packets)) == Atoms(r.taken) + Atoms(Flat(q.packets))
           && p.left == q.left && p.lost == r.lost + q.lost && Atoms(p.lost) == Atoms(r.lost) + Atoms(q.lost))
  {
    hide Atoms, Flat, Fill, Weight;
    var r := Fill(0, frames, maxPayload(i));
    FillProgress(0, frames, maxPayload(i));
    FillConserves(0, frames, maxPayload(i));
    AtomsNone();
    if r.taken != [] && gate(i) {
      var q := Pass(r.rest, maxPayload, gate, i + 1);
      FlatCons(r.taken, q.packets);
      AtomsConcat(r.taken, Flat(q.packets));
      AtomsConcat(r.lost, q.lost);
    } else {
      AtomsConcat(r.taken, r.rest);
    }
  }

  lemma FlatNone()
    ensures Flat([]) == []
  {
  }

  /** Every atom queued is in a packet, back in the queue, or in a frame that had no room to split. */
  lemma {:induction false} PassAccounts(frames: seq<Frame>, maxPayload: nat -> nat, gate: nat -> bool, i: nat)
    ensures var p := Pass(frames, maxPayload, gate, i);
      multiset(Atoms(frames)) == multiset(Atoms(Flat(p.packets))) + multiset(Atoms(p.left)) + multiset(Atoms(p.lost))
    decreases Weight(frames)
  {
    hide Atoms, Flat, Fill, Weight;
    AtomsNone();
    FlatNone();
    if frames != [] {
      hide Pass;
      var r := Fill(0, frames, maxPayload(i));
      PassStep(frames, maxPayload, gate, i);
      if r.taken != [] && gate(i) {
        PassAccounts(r.rest, maxPayload, gate, i + 1);
      }
    }
  }

  lemma {:induction false} PassInOrder(frames: seq<Frame>, maxPayload: nat -> nat, gate: nat -> bool, i: nat)
    requires Pass(frames, maxPayload, gate, i).lost == []
    ensures var p := Pass(frames, maxPayload, gate, i); Atoms(frames) == Atoms(Flat(p.packets)) + Atoms(p.left)
    decreases Weight(frames)
  {
    hide Atoms, Flat, Fill, Weight;
    AtomsNone();
    FlatNone();
    if frames != [] {
      hide Pass;
      var r := Fill(0, frames, maxPayload(i));
      PassStep(frames, maxPayload, gate, i);
      if r.taken != [] && gate(i) {
        var q := Pass(r.rest, maxPayload, gate, i + 1);
        PassInOrder(r.rest, maxPayload, gate, i + 1);
        Regroup([], Atoms(r.taken), Atoms(Flat(q.packets)), Atoms(q.left));
      }
    }
  }

  /** With every gate open and nothing lost, the pass leaves nothing queued. */
  lemma {:induction false} OpenPassEmpties(frames: seq<Frame>, maxPayload: nat -> nat, gate: nat -> bool, i: nat)
    requires forall j: nat :: gate(j)
    requires Pass(frames, maxPayload, gate, i).lost == []
    ensures Pass(frames, maxPayload, gate, i).left == []
    decreases Weight(frames)
  {
    if frames != [] {
      FillProgress(0, frames, maxPayload(i));
      OpenPassEmpties(Fill(0, frames, maxPayload(i)).rest, maxPayload, gate, i + 1);
    }
  }

  lemma LostAtoms(lost: seq<Frame>)
    requires lost != []
    ensures |Atoms(lost)| > 0
  {
    AtomsOne(lost[0]);
  }

  /** Packetising conserves, in order, exactly when every split attempt has room for one data byte. */
  lemma ConservesExactly(frames: seq<Frame>, maxPayload: nat -> nat, gate: nat -> bool)
    ensures var p := Pass(frames, maxPayload, gate, 0);
      Atoms(frames) == Atoms(Flat(p.packets)) + Atoms(p.left) <==> EverySplitHasRoom(frames, maxPayload, gate, 0)
  {
    hide Atoms, Flat, Pass, EverySplitHasRoom;
    var p := Pass(frames, maxPayload, gate, 0);
    PassLosesExactly(frames, maxPayload, gate, 0);
    PassAccounts(frames, maxPayload, gate, 0);
    if p.lost == [] {
      PassInOrder(frames, maxPayload, gate, 0);
    } else {
      LostAtoms(p.lost);
      assert |multiset(Atoms(frames))| == |Atoms(Flat(p.packets))| + |Atoms(p.left)| + |Atoms(p.lost)|;
    }
  }

  /** The property fails as soon as a frame meets a budget too small for its header. With the default limit of 1356
      payload bytes, a STREAM frame of 1348 data bytes leaves three; a one-byte fragment of the next needs five, and
      that frame is neither sent nor queued again. */
  lemma FrameLost(d: seq<Byte>)
    requires |d| == 1348
    ensures var first, second := Stream(0, 0, false, d), Stream(4, 0, false, [1, 2]);
      var p := Pass([first, second], (i: nat) => 1356, (i: nat) => true, 0);
      p.packets == [[first]] && p.left == [] && p.lost == [second]
  {
    var first, second := Stream(0, 0, false, d), Stream(4, 0, false, [1, 2]);
    var frames := [first, second];
    assert frames[1..] == [second];
    assert EncodedLen(first) == 1353 && !CanSplit(second, 3);
    assert Fill(1353, [second], 1356) == Filled([], [], [second]);
    assert Fill(0, frames, 1356) == Filled([first], [], [second]);
  }
}
