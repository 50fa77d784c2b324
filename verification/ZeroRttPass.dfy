/** What a pass in 0-RTT sends and what it holds back. */
module ZeroRttPass {
  import opened FrameSplitting
  import opened Packetiser
  import opened FramePieces
  import opened SendPath

  lemma PiecesNotBarred(gs: seq<Frame>, fs: seq<Frame>)
    requires AllPieces(gs, fs) && NoneBarred(fs)
    ensures NoneBarred(gs)
  {
    forall i | 0 <= i < |gs| ensures !Barred(gs[i]) {
      assert FromSome(gs[i], fs);
      var j :| 0 <= j < |fs| && PieceOf(gs[i], fs[j]);
    }
  }

  /** No packet of a 0-RTT pass holds a barred frame. Every barred frame is still queued, in order, ahead of what is
      left over; and with every gate open and nothing dropped, nothing else is queued. */
  lemma ZeroRttSends(before: seq<Queued>, after: seq<Queued>, maxPayload: nat -> nat, gate: nat -> bool,
                     packets: seq<seq<Frame>>, lost: seq<Frame>, s: Space)
    requires SpaceDone(before, after, ZeroRtt, maxPayload, gate, packets, lost, s)
    ensures NoneBarred(Flat(packets))
    ensures var held := Held(Select(before, s)); held <= Select(after, s) && NoneBarred(Select(after, s)[|held|..])
    ensures (forall j: nat :: gate(j)) && lost == [] ==> Select(after, s) == Held(Select(before, s))
  {
    hide Allowed, Held, Pass, NoneBarred, AllPieces, Select, Flat;
    var frames := Select(before, s);
    var yes := Allowed(frames, true);
    var p := Pass(yes, maxPayload, gate, 0);
    AllowedIs(frames);
    PassPieces(yes, maxPayload, gate, 0);
    PiecesNotBarred(Flat(p.packets), yes);
    PiecesNotBarred(p.left, yes);
    assert Select(after, s)[|Held(frames)|..] == p.left;
    if (forall j: nat :: gate(j)) && lost == [] {
      OpenPassEmpties(yes, maxPayload, gate, 0);
    }
  }

  /** With keys, every gate open and nothing dropped, the space is empty afterwards. */
  lemma KeyedSends(before: seq<Queued>, after: seq<Queued>, maxPayload: nat -> nat, gate: nat -> bool,
                   packets: seq<seq<Frame>>, lost: seq<Frame>, s: Space)
    requires SpaceDone(before, after, Keyed, maxPayload, gate, packets, lost, s)
    requires (forall j: nat :: gate(j)) && lost == []
    ensures Select(after, s) == [] && AllPieces(Flat(packets), Select(before, s))
  {
    hide Pass, AllPieces, Select, Flat;
    OpenPassEmpties(Select(before, s), maxPayload, gate, 0);
    PassPieces(Select(before, s), maxPayload, gate, 0);
  }
}
