/** The packets of a pass: each within its limit, each let through by its gate, and the pass ended by a closed one. */
module PassPackets {
  import opened FrameSplitting
  import opened Packetiser

  /** Within the payload limit, unless it holds a single frame that is larger. */
  predicate Fits(packet: seq<Frame>, limit: nat) { packet != [] && (Size(packet) <= limit || |packet| == 1) }

  lemma SizeOfOne(fs: seq<Frame>)
    requires fs != [] && Size(fs) == EncodedLen(fs[0])
    ensures |fs| == 1
  {
    assert Size(fs[1..]) == 0;
  }

  /** Packet `i` and those after it fit their limits, and their gates are open. */
  predicate AllFit(packets: seq<seq<Frame>>, maxPayload: nat -> nat, gate: nat -> bool, i: nat)
    decreases |packets|
  {
    packets != [] ==> gate(i) && Fits(packets[0], maxPayload(i)) && AllFit(packets[1..], maxPayload, gate, i + 1)
  }

  /** One packet of a pass. */
  lemma PassUnfolds(fs: seq<Frame>, maxPayload: nat -> nat, gate: nat -> bool, i: nat)
    requires fs != []
    ensures var r, p := Fill(0, fs, maxPayload(i)), Pass(fs, maxPayload, gate, i);
      && (r.taken == [] ==> r.lost != [])
      && (r.taken == [] || !gate(i) ==> p.packets == [] && p.lost == r.lost)
      && (r.taken != [] && gate(i) ==>
           var q := Pass(r.rest, maxPayload, gate, i + 1);
           && Weight(r.rest) < Weight(fs) && p.packets == [r.taken] + q.packets && p.packets[1..] == q.packets
           && p.left == q.left && p.lost == r.lost + q.lost)
  {
    hide Fill, Weight;
    FillProgress(0, fs, maxPayload(i));
  }

  /** Every packet built fits its limit and was let through by its own gate. */
  lemma {:induction false} PacketsFit(fs: seq<Frame>, maxPayload: nat -> nat, gate: nat -> bool, i: nat)
    ensures AllFit(Pass(fs, maxPayload, gate, i).packets, maxPayload, gate, i)
    decreases Weight(fs)
  {
    hide Fill, Size, Weight, Pass;
    if fs == [] {
      EmptyPass(maxPayload, gate, i);
    } else {
      PassUnfolds(fs, maxPayload, gate, i);
      var r := Fill(0, fs, maxPayload(i));
      if r.taken != [] && gate(i) {
        FillFits(0, fs, maxPayload(i));
        if Size(r.taken) == EncodedLen(r.taken[0]) {
          SizeOfOne(r.taken);
        }
        PacketsFit(r.rest, maxPayload, gate, i + 1);
      }
    }
  }

  lemma EmptyPass(maxPayload: nat -> nat, gate: nat -> bool, i: nat)
    ensures Pass([], maxPayload, gate, i) == Passed([], [], [])
  {
  }

  /** What stays queued, with nothing dropped, was stopped by the gate of the next packet. */
  lemma {:induction false} EndedByGate(fs: seq<Frame>, maxPayload: nat -> nat, gate: nat -> bool, i: nat)
    requires Pass(fs, maxPayload, gate, i).lost == [] && Pass(fs, maxPayload, gate, i).left != []
    ensures !gate(i + |Pass(fs, maxPayload, gate, i).packets|)
    decreases Weight(fs)
  {
    hide Fill, Weight, Pass;
    if fs == [] {
      EmptyPass(maxPayload, gate, i);
    } else {
      PassUnfolds(fs, maxPayload, gate, i);
      if gate(i) {
        EndedByGate(Fill(0, fs, maxPayload(i)).rest, maxPayload, gate, i + 1);
      }
    }
  }
}
