/** Frames as the send path sees them, their encoded size, and the split of a CRYPTO or STREAM frame at a budget. */
module FrameSplitting {
  import StreamBuffer

  type Byte = StreamBuffer.Byte

  const VARINT_MAX: nat := 0x3FFF_FFFF_FFFF_FFFF

  type Positive = n: nat | n > 0 witness 1

  /** The control frames that 0-RTT treats specially, and the others. */
  datatype ControlKind = Ack | HandshakeDone | NewToken | PathResponse | RetireConnectionId | OtherKind

  /** `Control` stands for every frame that is never split: `id` tells them apart, `size` is its encoded size. */
  datatype Frame =
    | Crypto(offset: nat, data: seq<Byte>)
    | Stream(streamId: nat, offset: nat, fin: bool, data: seq<Byte>)
    | Control(kind: ControlKind, id: nat, size: Positive)

  predicate IsData(f: Frame) { f.Crypto? || f.Stream? }

  function VarintLen(value: nat): nat {
    if value < 0x40 then 1 else if value < 0x4000 then 2 else if value < 0x4000_0000 then 4 else 8
  }

  /** `encode` fails when a field does not fit a variable-length integer. */
  predicate Encodable(f: Frame) {
    match f
    case Crypto(offset, data) => offset <= VARINT_MAX && |data| <= VARINT_MAX
    case Stream(streamId, offset, _, data) => streamId <= VARINT_MAX && offset <= VARINT_MAX && |data| <= VARINT_MAX
    case Control(_, _, _) => true
  }

  /** Size of a data frame that carries `n` data bytes. */
  function SizeWith(f: Frame, n: nat): nat
    requires IsData(f)
  {
    match f
    case Crypto(offset, _) => 1 + VarintLen(offset) + VarintLen(n) + n
    case Stream(streamId, offset, _, _) => 1 + VarintLen(streamId) + VarintLen(offset) + VarintLen(n) + n
  }

  function EncodedLen(f: Frame): Positive {
    if f.Control? then f.size else SizeWith(f, |f.data|)
  }

  function Head(f: Frame, n: nat): Frame
    requires IsData(f) && n <= |f.data|
  {
    match f
    case Crypto(offset, data) => Crypto(offset, data[..n])
    case Stream(streamId, offset, _, data) => Stream(streamId, offset, false, data[..n])
  }

  function Tail(f: Frame, n: nat): Frame
    requires IsData(f) && n <= |f.data|
  {
    match f
    case Crypto(offset, data) => Crypto(offset + n, data[n..])
    case Stream(streamId, offset, fin, data) => Stream(streamId, offset + n, fin, data[n..])
  }

  // ---- The split point ----

  ghost predicate NonDecreasing(size: nat -> nat) {
    forall m: nat, n: nat :: m <= n ==> size(m) <= size(n)
  }

  /** The most bytes, at most `n`, whose size is within `budget`; 0 if not even one. */
  function LongestFit(size: nat -> nat, n: nat, budget: nat): (r: nat)
    ensures r <= n && (r > 0 ==> size(r) <= budget)
    ensures forall m: nat :: r < m <= n ==> size(m) > budget
  {
    if n == 0 || size(n) <= budget then n else LongestFit(size, n - 1, budget)
  }

  /** The binary search over split points finds what trying every length from the top would find. */
  method SplitPoint(size: nat -> nat, len: nat, budget: nat) returns (splitAt: nat)
    requires NonDecreasing(size) && len > 1
    ensures splitAt == LongestFit(size, len - 1, budget)
  {
    var low, high: nat := 1, len - 1;
    splitAt := 0;
    while low <= high
      invariant 1 <= low <= high + 1 <= len && splitAt == low - 1
      invariant splitAt > 0 ==> size(splitAt) <= budget
      invariant forall m: nat :: high < m < len ==> size(m) > budget
      decreases high + 1 - low
    {
      var mid := low + (high - low) / 2;
      if size(mid) <= budget {
        splitAt := mid;
        low := mid + 1;
      } else {
        high := mid - 1;
      }
    }
  }

  lemma SizeGrows(f: Frame)
    requires IsData(f)
    ensures NonDecreasing((n: nat) => SizeWith(f, n))
  {
  }

  // ---- split_frame ----

  datatype Split = NotSplit | Parts(head: Frame, tail: Frame)

  /** The split exists: at least two data bytes, too large as it is, and room for one byte. */
  predicate CanSplit(f: Frame, budget: nat) {
    && IsData(f)
    && |f.data| > 1
    && Encodable(f)
    && EncodedLen(f) > budget
    && SizeWith(f, 1) <= budget
  }

  /** That is: it encodes, does not fit whole, and some proper prefix with data does. */
  lemma CanSplitExactly(f: Frame, budget: nat)
    ensures CanSplit(f, budget) <==>
      IsData(f) && Encodable(f) && EncodedLen(f) > budget && SomePrefixFits(f, budget)
  {
    if IsData(f) {
      SizeGrows(f);
      var size := (n: nat) => SizeWith(f, n);
      if SomePrefixFits(f, budget) {
        var n: nat :| 0 < n < |f.data| && SizeWith(f, n) <= budget;
        assert size(1) <= size(n);
      }
      assert CanSplit(f, budget) ==> 0 < 1 < |f.data| && SizeWith(f, 1) <= budget;
    }
  }

  ghost predicate SomePrefixFits(f: Frame, budget: nat)
    requires IsData(f)
  {
    exists n: nat :: 0 < n < |f.data| && SizeWith(f, n) <= budget
  }

  function SplitLen(f: Frame, budget: nat): nat
    requires IsData(f) && |f.data| > 0
  {
    LongestFit((n: nat) => SizeWith(f, n), |f.data| - 1, budget)
  }

  method SplitFrame(f: Frame, budget: nat) returns (r: Split)
    ensures r.Parts? <==> CanSplit(f, budget)
    ensures r.Parts? ==> 0 < SplitLen(f, budget) < |f.data|
    ensures r.Parts? ==> r.head == Head(f, SplitLen(f, budget)) && r.tail == Tail(f, SplitLen(f, budget))
  {
    if !IsData(f) {
      return NotSplit;
    }
    if |f.data| <= 1 || !Encodable(f) || EncodedLen(f) <= budget {
      return NotSplit;
    }
    SizeGrows(f);
    var size := (n: nat) => SizeWith(f, n);
    var splitAt := SplitPoint(size, |f.data|, budget);
    SplitExists(f, budget);
    if splitAt == 0 {
      return NotSplit;
    }
    return Parts(Head(f, splitAt), Tail(f, splitAt));
  }

  lemma SplitExists(f: Frame, budget: nat)
    requires IsData(f) && |f.data| > 1
    ensures SplitLen(f, budget) > 0 <==> SizeWith(f, 1) <= budget
    ensures SplitLen(f, budget) < |f.data|
  {
    var size := (n: nat) => SizeWith(f, n);
    SizeGrows(f);
    assert size(1) <= size(if SplitLen(f, budget) > 0 then SplitLen(f, budget) else 1);
    assert size(1) == SizeWith(f, 1);
  }

  /** What a split gives: the head fits and no longer proper prefix would; head and tail are the frame's bytes in
      order at contiguous offsets; FIN stays with the last byte. */
  lemma SplitIsOptimal(f: Frame, budget: nat)
    requires CanSplit(f, budget)
    ensures var n := SplitLen(f, budget);
      && 0 < n < |f.data|
      && EncodedLen(Head(f, n)) <= budget
      && (forall m: nat :: n < m < |f.data| ==> EncodedLen(Head(f, m)) > budget)
      && Head(f, n).data + Tail(f, n).data == f.data
      && Head(f, n).offset + |Head(f, n).data| == Tail(f, n).offset
      && (f.Stream? ==> !Head(f, n).fin && Tail(f, n).fin == f.fin)
  {
    SplitExists(f, budget);
    var n := SplitLen(f, budget);
    var size := (k: nat) => SizeWith(f, k);
    forall m: nat | n < m < |f.data| ensures EncodedLen(Head(f, m)) > budget {
      assert size(m) > budget;
    }
  }
}
