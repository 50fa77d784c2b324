/** Truncated packet numbers: how many bytes a sender uses and what a receiver reconstructs. */
module PacketNumberCodec {
  const PN_LIMIT: nat := 0x4000_0000_0000_0000

  /** Bytes of an encoded packet number. */
  type Length = n: nat | 1 <= n <= 4 witness 1

  function Window(n: Length): nat {
    if n == 1 then 0x100 else if n == 2 then 0x1_0000 else if n == 3 then 0x100_0000 else 0x1_0000_0000
  }

  function Half(n: Length): nat { Window(n) / 2 }

  function EncodedLength(pn: nat, largestAcked: nat): Length {
    var unacked := if pn < largestAcked then 0 else pn - largestAcked;
    if unacked < 0x80 then 1 else if unacked < 0x8000 then 2 else if unacked < 0x80_0000 then 3 else 4
  }

  function Truncated(pn: nat, n: Length): nat { pn % Window(n) }

  /** The number closest to the expected one with the given low bytes, within the packet number range. */
  function Decode(truncated: nat, n: Length, largest: nat): nat {
    var expected := largest + 1;
    var candidate := expected - expected % Window(n) + truncated;
    if candidate + Half(n) <= expected && candidate + Window(n) < PN_LIMIT then candidate + Window(n)
    else if candidate > expected + Half(n) && candidate >= Window(n) then candidate - Window(n)
    else candidate
  }

  /** Each byte widens the window 256 times. */
  lemma WindowIs(n: Length)
    ensures Window(1) == 256 && (n < 4 ==> Window(n + 1) == 256 * Window(n))
  {
  }

  /** The sender takes the fewest bytes whose half window exceeds the distance to the largest number acknowledged, and
      four if none does. */
  lemma LengthIsLeast(pn: nat, largestAcked: nat, m: Length)
    ensures var n := EncodedLength(pn, largestAcked);
      && (n < 4 ==> pn < largestAcked + Half(n))
      && (m < n ==> pn >= largestAcked + Half(m))
  {
  }

  /** Less than half a window behind the expected number, at most half a window ahead. */
  predicate Near(pn: nat, n: Length, largest: nat) {
    largest + 1 < pn + Half(n) && pn <= largest + 1 + Half(n)
  }

  /** At either end of the number range there is no other candidate. */
  predicate AtEnd(pn: nat, n: Length, largest: nat) {
    || (largest + 1 + Half(n) < pn < Window(n))
    || (pn + Half(n) <= largest + 1 && PN_LIMIT <= pn + Window(n) && pn / Window(n) == (largest + 1) / Window(n))
  }

  /** How two multiples of the window can lie: the same, neighbours, or further apart. */
  predicate Blocks(p: nat, b: nat, win: nat) {
    && (p == 0 || p >= win) && (b == 0 || b >= win)
    && (p == b || p == b + win || b == p + win || p >= b + 2 * win || b >= p + 2 * win)
  }

  lemma DivMod(x: nat, win: nat)
    requires win > 0
    ensures x == Multiple(x / win, win) + x % win && x % win < win
  {
  }

  lemma Spaced(p: nat, b: nat, win: nat)
    requires win > 0
    ensures Blocks(Multiple(p, win), Multiple(b, win), win)
    ensures p == b <==> Multiple(p, win) == Multiple(b, win)
  {
    if p > b {
      Product(p - b, win);
      assert p * win == b * win + (p - b) * win;
    } else if p < b {
      Product(b - p, win);
      assert b * win == p * win + (b - p) * win;
    }
    if p > 0 {
      Product(p, win);
    }
    if b > 0 {
      Product(b, win);
    }
  }

  /** Splits two numbers into block and remainder. */
  lemma Place(x: nat, y: nat, win: nat) returns (p: nat, b: nat)
    requires win > 0
    ensures x == p + x % win && y == b + y % win && x % win < win && y % win < win
    ensures Blocks(p, b, win) && (x / win == y / win <==> p == b)
  {
    hide Blocks, Multiple;
    p, b := Multiple(x / win, win), Multiple(y / win, win);
    Spaced(x / win, y / win, win);
    DivMod(x, win);
    DivMod(y, win);
  }

  function Multiple(k: nat, win: nat): nat { k * win }

  lemma Product(k: nat, win: nat)
    requires k > 0
    ensures k * win >= win && (k > 1 ==> k * win >= 2 * win) && (k == 1 ==> k * win == win)
  {
  }

  /** The decoder's choice, with the number in block `p` and the expected one in block `b`. */
  lemma ChoiceIsRight(pn: nat, t: nat, p: nat, expected: nat, r: nat, b: nat, win: nat, half: nat)
    requires win == 2 * half && Blocks(p, b, win) && pn == p + t && expected == b + r && t < win && r < win
    requires pn < PN_LIMIT && expected < PN_LIMIT
    ensures var candidate := b + t;
      var decoded :=
        if candidate + half <= expected && candidate + win < PN_LIMIT then candidate + win
        else if candidate > expected + half && candidate >= win then candidate - win
        else candidate;
      decoded == pn <==>
        || (expected < pn + half && pn <= expected + half)
        || (expected + half < pn < win)
        || (pn + half <= expected && PN_LIMIT <= pn + win && p == b)
  {
  }

  lemma HalfWindow(n: Length)
    ensures Window(n) == 2 * Half(n) > 0
  {
  }

  /** The receiver reconstructs a packet number exactly when it is near the expected one, or at the end of the range. */
  lemma DecodesExactly(pn: nat, n: Length, largest: nat)
    requires pn < PN_LIMIT && largest + 1 < PN_LIMIT
    ensures Decode(Truncated(pn, n), n, largest) == pn <==> Near(pn, n, largest) || AtEnd(pn, n, largest)
  {
    hide Window, Half, Blocks;
    var win, expected := Window(n), largest + 1;
    HalfWindow(n);
    var p, b := Place(pn, expected, win);
    ChoiceIsRight(pn, pn % win, p, expected, expected % win, b, win, Half(n));
  }

  /** With the sender's choice of length, and a receiver that has received what it acknowledged: the number survives
      exactly when no packet half a window newer came first, and, at the longest length, when it is itself no more than
      half a window ahead. The shorter lengths are only chosen where the latter holds. */
  lemma RoundTripExactly(pn: nat, largestAcked: nat, largest: nat)
    requires pn < PN_LIMIT && largest + 1 < PN_LIMIT && largestAcked <= largest
    ensures var n := EncodedLength(pn, largestAcked);
      Decode(Truncated(pn, n), n, largest) == pn <==>
        || (largest + 1 < pn + Half(n) && (n < 4 || pn <= largest + 1 + Half(4)))
        || AtEnd(pn, n, largest)
  {
    DecodesExactly(pn, EncodedLength(pn, largestAcked), largest);
  }
}
