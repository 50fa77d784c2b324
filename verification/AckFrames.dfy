/** The ACK frame's ranges on the wire: a first range, then alternating gaps and lengths. */
module AckFrames {
  import opened AckRanges

  datatype Block = Block(gap: nat, length: nat)

  /** The range fields of an ACK frame. */
  datatype Wire = Wire(largest: nat, first: nat, blocks: seq<Block>)

  datatype Decoded = Ranges(ranges: seq<Range>) | InvalidFrame

  function SatSub(a: nat, b: nat): nat { if a < b then 0 else a - b }

  function BlockFor(smallest: nat, r: Range): Block {
    Block(SatSub(SatSub(smallest, r.end), 2), SatSub(r.end, r.start))
  }

  /** Blocks for `ranges`, the previous range starting at `smallest`. */
  function Blocks(smallest: nat, ranges: seq<Range>): seq<Block>
    decreases |ranges|
  {
    if ranges == [] then [] else [BlockFor(smallest, ranges[0])] + Blocks(ranges[0].start, ranges[1..])
  }

  /** Reads the blocks back, each range strictly below `smallest`; an underflow refuses the frame. */
  function Unblock(smallest: nat, blocks: seq<Block>): Decoded
    decreases |blocks|
  {
    if blocks == [] then Ranges([])
    else
      var b := blocks[0];
      if smallest < b.gap + 2 || smallest - b.gap - 2 < b.length then InvalidFrame
      else
        var end := smallest - b.gap - 2;
        match Unblock(end - b.length, blocks[1..])
        case InvalidFrame => InvalidFrame
        case Ranges(rest) => Ranges([Range(end - b.length, end)] + rest)
  }

  function Encoded(largest: nat, ranges: seq<Range>): Wire {
    if ranges == [] then Wire(largest, 0, [])
    else Wire(largest, SatSub(largest, ranges[0].start), Blocks(ranges[0].start, ranges[1..]))
  }

  function Decode(w: Wire): Decoded {
    if w.largest < w.first then InvalidFrame
    else
      match Unblock(w.largest - w.first, w.blocks)
      case InvalidFrame => InvalidFrame
      case Ranges(rest) => Ranges([Range(w.largest - w.first, w.largest)] + rest)
  }

  // ---- The loops of the codec ----

  lemma BlocksSnoc(smallest: nat, ranges: seq<Range>, r: Range)
    ensures Blocks(smallest, ranges + [r]) ==
      Blocks(smallest, ranges) + [BlockFor(if ranges == [] then smallest else ranges[|ranges| - 1].start, r)]
    decreases |ranges|
  {
    if ranges != [] {
      assert (ranges + [r])[1..] == ranges[1..] + [r];
      BlocksSnoc(ranges[0].start, ranges[1..], r);
    } else {
      assert ([] + [r])[1..] == [];
    }
  }

  method Encode(largest: nat, ranges: seq<Range>) returns (w: Wire)
    ensures w == Encoded(largest, ranges)
  {
    if ranges == [] {
      return Wire(largest, 0, []);
    }
    var prevSmallest := ranges[0].start;
    var blocks := [];
    for i := 1 to |ranges|
      invariant prevSmallest == ranges[i - 1].start
      invariant blocks == Blocks(ranges[0].start, ranges[1..i])
    {
      BlocksSnoc(ranges[0].start, ranges[1..i], ranges[i]);
      assert ranges[1..i + 1] == ranges[1..i] + [ranges[i]];
      blocks := blocks + [BlockFor(prevSmallest, ranges[i])];
      prevSmallest := ranges[i].start;
    }
    assert ranges[1..|ranges|] == ranges[1..];
    return Wire(largest, SatSub(largest, ranges[0].start), blocks);
  }

  lemma UnblockNone()
    ensures forall smallest: nat :: Unblock(smallest, []) == Ranges([])
  {
  }

  lemma UnblockCons(smallest: nat, blocks: seq<Block>)
    requires blocks != []
    ensures var b := blocks[0];
      Unblock(smallest, blocks) ==
        if smallest < b.gap + 2 + b.length then InvalidFrame
        else
          var end := smallest - b.gap - 2;
          Prepended([Range(end - b.length, end)], Unblock(end - b.length, blocks[1..]))
  {
  }

  method DecodeAckFrame(w: Wire) returns (r: Decoded)
    ensures r == Decode(w)
  {
    hide Unblock;
    UnblockNone();
    if w.largest < w.first {
      return InvalidFrame;
    }
    var smallest: nat := w.largest - w.first;
    var ranges := [Range(smallest, w.largest)];
    for i := 0 to |w.blocks|
      invariant Decode(w) == Prepended(ranges, Unblock(smallest, w.blocks[i..]))
    {
      var b := w.blocks[i];
      assert w.blocks[i..][0] == b && w.blocks[i..][1..] == w.blocks[i + 1..];
      UnblockCons(smallest, w.blocks[i..]);
      if smallest < b.gap + 2 || smallest - b.gap - 2 < b.length {
        return InvalidFrame;
      }
      var end := smallest - b.gap - 2;
      PrependedOne(ranges, Range(end - b.length, end), Unblock(end - b.length, w.blocks[i + 1..]));
      ranges := ranges + [Range(end - b.length, end)];
      smallest := end - b.length;
    }
    return Ranges(ranges);
  }

  function Prepended(done: seq<Range>, rest: Decoded): Decoded {
    if rest.InvalidFrame? then InvalidFrame else Ranges(done + rest.ranges)
  }

  lemma PrependedOne(done: seq<Range>, r: Range, rest: Decoded)
    ensures Prepended(done, Prepended([r], rest)) == Prepended(done + [r], rest)
  {
    assert rest.Ranges? ==> done + ([r] + rest.ranges) == done + [r] + rest.ranges;
  }

  /** Without ranges a frame acknowledges its largest number alone. */
  lemma NoRangesAckLargest(largest: nat)
    ensures Decode(Encoded(largest, [])) == Ranges([Range(largest, largest)])
  {
  }

  // ---- Round trips ----

  /** `ranges` are well-formed and lie wholly below a range that starts at `smallest`. */
  ghost predicate Below(smallest: nat, ranges: seq<Range>) {
    WellFormed(ranges) && (ranges != [] ==> ranges[0].end + 1 < smallest)
  }

  lemma BelowCons(smallest: nat, r: Range, rest: seq<Range>)
    ensures Below(smallest, [r] + rest) <==> r.start <= r.end && r.end + 1 < smallest && Below(r.start, rest)
  {
    var all := [r] + rest;
    assert all[1..] == rest;
    if Below(smallest, all) {
      assert rest != [] ==> Above(all[0], all[1]);
      forall i | 0 <= i < |rest| ensures rest[i].start <= rest[i].end {
        assert rest[i] == all[i + 1];
      }
      forall i, j | 0 <= i < j < |rest| ensures Above(rest[i], rest[j]) {
        assert rest[i] == all[i + 1] && rest[j] == all[j + 1];
      }
    }
    if r.start <= r.end && r.end + 1 < smallest && Below(r.start, rest) {
      forall i, j | 0 <= i < j < |all| ensures Above(all[i], all[j]) {
        if i > 0 {
          assert all[i] == rest[i - 1] && all[j] == rest[j - 1];
        } else if j > 1 {
          assert Above(rest[0], rest[j - 1]);
        }
      }
    }
  }

  lemma {:induction false} BlocksRoundTrip(smallest: nat, ranges: seq<Range>)
    ensures Unblock(smallest, Blocks(smallest, ranges)) == Ranges(ranges) <==> Below(smallest, ranges)
    decreases |ranges|
  {
    hide WellFormed, Above;
    if ranges == [] {
      NoBlocks(smallest);
    } else {
      var r, rest := ranges[0], ranges[1..];
      assert ranges == [r] + rest;
      BelowCons(smallest, r, rest);
      BlocksRoundTrip(r.start, rest);
      var bs := Blocks(smallest, ranges);
      assert bs[0] == BlockFor(smallest, r) && bs[1..] == Blocks(r.start, rest);
      var decoded := Unblock(smallest, bs);
      if decoded == Ranges(ranges) {
        assert decoded.ranges[0] == r && decoded.ranges[1..] == rest;
      }
    }
  }

  /** The peer reads back exactly the ranges sent, if and only if they are well-formed and start at the largest
      acknowledged number. The encoder's saturating subtractions never matter on such ranges. */
  lemma RoundTripExactly(largest: nat, ranges: seq<Range>)
    ensures Decode(Encoded(largest, ranges)) == Ranges(ranges) <==>
      ranges != [] && WellFormed(ranges) && ranges[0].end == largest
  {
    hide WellFormed, Above;
    if ranges != [] {
      var r, rest := ranges[0], ranges[1..];
      assert ranges == [r] + rest;
      BelowCons(r.end + 2, r, rest);
      BlocksRoundTrip(r.start, rest);
      var decoded := Decode(Encoded(largest, ranges));
      if decoded == Ranges(ranges) {
        assert decoded.ranges[0] == r && decoded.ranges[1..] == rest;
      }
    }
  }

  lemma BlocksCons(smallest: nat, r: Range, rest: seq<Range>)
    ensures Blocks(smallest, [r] + rest) == [BlockFor(smallest, r)] + Blocks(r.start, rest)
  {
    assert ([r] + rest)[1..] == rest;
  }

  lemma {:induction false} UnblockInverse(smallest: nat, blocks: seq<Block>)
    requires Unblock(smallest, blocks).Ranges?
    ensures Below(smallest, Unblock(smallest, blocks).ranges)
    ensures Blocks(smallest, Unblock(smallest, blocks).ranges) == blocks
    decreases |blocks|
  {
    hide Below, Blocks, Unblock;
    if blocks == [] {
      NoBlocks(smallest);
    } else {
      var r, rest := UnblockStep(smallest, blocks);
      UnblockInverse(r.start, blocks[1..]);
      BelowCons(smallest, r, rest);
      BlocksCons(smallest, r, rest);
      assert [blocks[0]] + blocks[1..] == blocks;
    }
  }

  lemma UnblockStep(smallest: nat, blocks: seq<Block>) returns (r: Range, rest: seq<Range>)
    requires blocks != [] && Unblock(smallest, blocks).Ranges?
    ensures r.start <= r.end && r.end + 1 < smallest && BlockFor(smallest, r) == blocks[0]
    ensures Unblock(r.start, blocks[1..]) == Ranges(rest)
    ensures Unblock(smallest, blocks) == Ranges([r] + rest)
  {
    var b := blocks[0];
    var end: nat := smallest - b.gap - 2;
    r := Range(end - b.length, end);
    rest := Unblock(r.start, blocks[1..]).ranges;
  }

  lemma NoBlocks(smallest: nat)
    ensures Blocks(smallest, []) == [] && Unblock(smallest, []) == Ranges([]) && Below(smallest, [])
  {
  }

  /** Whatever frame is accepted yields well-formed ranges topped by the largest number, and is the only encoding of
      them. */
  lemma AcceptedIsWellFormed(w: Wire)
    requires Decode(w).Ranges?
    ensures var ranges := Decode(w).ranges;
      ranges != [] && WellFormed(ranges) && ranges[0].end == w.largest && Encoded(w.largest, ranges) == w
  {
    hide WellFormed, Blocks, Unblock;
    var rest := Unblock(w.largest - w.first, w.blocks).ranges;
    var r := Range(w.largest - w.first, w.largest);
    UnblockInverse(w.largest - w.first, w.blocks);
    BelowCons(w.largest + 2, r, rest);
    assert ([r] + rest)[1..] == rest;
  }

  /** Every ACK a packet number space generates survives the trip. */
  method SendAck(space: RecvSpace) returns (w: Wire, r: Decoded)
    requires space.Valid() && space.log != []
    ensures IsMax(space.log, w.largest) && r.Ranges?
    ensures forall q: nat :: Has(r.ranges, q) <==> q in space.log && q !in space.lost
  {
    var ack := space.GenerateAck(true);
    w := Encode(ack.largestAcknowledged, ack.ranges);
    r := DecodeAckFrame(w);
    RoundTripExactly(ack.largestAcknowledged, ack.ranges);
  }
}
