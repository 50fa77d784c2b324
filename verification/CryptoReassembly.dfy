/** CRYPTO reassembly of one packet number space: what reaches TLS, for frames arriving in any order, overlapping or
    repeated. */
module CryptoReassembly {
  import opened StreamBuffer

  datatype Frame = Frame(offset: nat, data: seq<Byte>)

  /** Received chunks by start offset. Unlike STREAM segments they may overlap. */
  type Chunks = map<nat, seq<Byte>>

  ghost predicate Carries(f: Frame, k: nat) { Within(f.offset, f.data, k) }

  ghost predicate Arrived(log: seq<Frame>, k: nat) {
    exists f :: f in log && Carries(f, k)
  }

  /** Some frame received so far has `b` as byte `k`. */
  ghost predicate Supplied(log: seq<Frame>, k: nat, b: Byte) {
    exists f :: f in log && Carries(f, k) && f.data[k - f.offset] == b
  }

  /** `n` is the length of the longest prefix covered by the frames received. */
  ghost predicate LongestPrefix(log: seq<Frame>, n: nat) {
    && (forall k: nat :: k < n ==> Arrived(log, k))
    && !Arrived(log, n)
  }

  /** The frame is a slice of the peer's handshake bytes. */
  ghost predicate CutFrom(src: seq<Byte>, f: Frame) {
    f.offset + |f.data| <= |src| && f.data == src[f.offset..f.offset + |f.data|]
  }

  // ---- What the buffer owes to the frames ----

  /** Everything fed came from a frame, at its own offset. */
  ghost predicate FedSupplied(log: seq<Frame>, fed: seq<Byte>) {
    forall k: nat :: k < |fed| ==> Supplied(log, k, fed[k])
  }

  ghost predicate ChunksLogged(log: seq<Frame>, buf: Chunks) {
    forall s :: s in buf ==> Frame(s, buf[s]) in log
  }

  /** No arrived byte at or beyond `offset` is missing from the buffer. */
  ghost predicate NothingLost(log: seq<Frame>, buf: Chunks, offset: nat) {
    forall k: nat :: k >= offset && Arrived(log, k) ==> Covered(buf, k)
  }

  /** No buffered chunk could be fed. */
  ghost predicate Settled(buf: Chunks, offset: nat) {
    forall s :: s in buf ==> s > offset
  }

  ghost predicate Inv(log: seq<Frame>, buf: Chunks, fed: seq<Byte>) {
    FedSupplied(log, fed) && ChunksLogged(log, buf) && NothingLost(log, buf, |fed|)
  }

  lemma SettledIsFrontier(log: seq<Frame>, buf: Chunks, fed: seq<Byte>)
    requires Inv(log, buf, fed) && Settled(buf, |fed|)
    ensures LongestPrefix(log, |fed|)
  {
    forall k: nat | k < |fed| ensures Arrived(log, k) {
      assert Supplied(log, k, fed[k]);
    }
  }

  /** Neither the order nor the repetition of frames matters: the same frames give the same prefix. */
  lemma OrderIrrelevant(log: seq<Frame>, other: seq<Frame>, m: nat, n: nat)
    requires forall f :: f in log <==> f in other
    requires LongestPrefix(log, m) && LongestPrefix(other, n)
    ensures m == n
  {
    SameArrivals(log, other, if m < n then m else n);
  }

  lemma SameArrivals(log: seq<Frame>, other: seq<Frame>, k: nat)
    requires forall f :: f in log <==> f in other
    ensures Arrived(log, k) <==> Arrived(other, k)
  {
    if Arrived(log, k) {
      var f :| f in log && Carries(f, k);
      assert f in other;
    }
    if Arrived(other, k) {
      var f :| f in other && Carries(f, k);
      assert f in log;
    }
  }

  /** With every frame cut from one source, what TLS has been fed is a prefix of that source. */
  lemma FedIsSourcePrefix(log: seq<Frame>, fed: seq<Byte>, src: seq<Byte>)
    requires FedSupplied(log, fed) && forall f :: f in log ==> CutFrom(src, f)
    ensures fed <= src
  {
    if fed != [] {
      FedByte(log, fed, src, |fed| - 1);
    }
    forall k: nat | k < |fed| ensures fed[k] == src[k] {
      FedByte(log, fed, src, k);
    }
  }

  lemma FedByte(log: seq<Frame>, fed: seq<Byte>, src: seq<Byte>, k: nat)
    requires FedSupplied(log, fed) && (forall f :: f in log ==> CutFrom(src, f)) && k < |fed|
    ensures k < |src| && fed[k] == src[k]
  {
    assert Supplied(log, k, fed[k]);
  }

  // ---- Steps ----

  lemma LogGrows(log: seq<Frame>, f: Frame, buf: Chunks, fed: seq<Byte>)
    requires FedSupplied(log, fed) && ChunksLogged(log, buf)
    ensures FedSupplied(log + [f], fed) && ChunksLogged(log + [f], buf)
  {
    forall k: nat | k < |fed| ensures Supplied(log + [f], k, fed[k]) {
      assert Supplied(log, k, fed[k]);
      var g :| g in log && Carries(g, k) && g.data[k - g.offset] == fed[k];
      assert g in log + [f];
    }
  }

  lemma ArrivedSplits(log: seq<Frame>, f: Frame, k: nat)
    ensures Arrived(log + [f], k) <==> Arrived(log, k) || Carries(f, k)
  {
    if Arrived(log, k) {
      var g :| g in log && Carries(g, k);
      assert g in log + [f];
    }
    if Carries(f, k) {
      assert f in log + [f];
    }
  }

  /** A frame wholly below the read offset changes nothing. */
  lemma DuplicateInv(log: seq<Frame>, f: Frame, buf: Chunks, fed: seq<Byte>)
    requires Inv(log, buf, fed) && f.offset + |f.data| <= |fed|
    ensures Inv(log + [f], buf, fed)
  {
    LogGrows(log, f, buf, fed);
    forall k: nat | k >= |fed| && Arrived(log + [f], k) ensures Covered(buf, k) {
      ArrivedSplits(log, f, k);
    }
  }

  /** Buffering keeps the longer of two chunks with the same start. */
  function Buffered(buf: Chunks, f: Frame): Chunks {
    if f.offset in buf && |buf[f.offset]| >= |f.data| then buf else buf[f.offset := f.data]
  }

  /** A chunk gives way only to a longer one with the same start, and others stay. */
  lemma BufferedKeeps(buf: Chunks, f: Frame, s: nat)
    ensures s in buf ==> s in Buffered(buf, f) && |buf[s]| <= |Buffered(buf, f)[s]|
    ensures s in buf && (s != f.offset || |f.data| <= |buf[s]|) ==> Buffered(buf, f)[s] == buf[s]
    ensures f.offset in Buffered(buf, f) && |f.data| <= |Buffered(buf, f)[f.offset]|
  {
  }

  lemma BufferedCovers(buf: Chunks, f: Frame, k: nat)
    ensures Covered(Buffered(buf, f), k) <==> Covered(buf, k) || Carries(f, k)
  {
    var c := Buffered(buf, f);
    if Covered(buf, k) {
      var s :| s in buf && Within(s, buf[s], k);
      assert s in c && Within(s, c[s], k);
    }
    if Carries(f, k) {
      assert f.offset in c && Within(f.offset, c[f.offset], k);
    }
    if Covered(c, k) {
      var s :| s in c && Within(s, c[s], k);
      assert s != f.offset ==> s in buf && Within(s, buf[s], k);
      assert s == f.offset && !Carries(f, k) ==> s in buf && Within(s, buf[s], k);
    }
  }

  lemma BufferedInv(log: seq<Frame>, f: Frame, buf: Chunks, fed: seq<Byte>)
    requires Inv(log, buf, fed) && f.offset > |fed|
    ensures Inv(log + [f], Buffered(buf, f), fed)
    ensures Settled(buf, |fed|) ==> Settled(Buffered(buf, f), |fed|)
  {
    LogGrows(log, f, buf, fed);
    forall k: nat | k >= |fed| && Arrived(log + [f], k) ensures Covered(Buffered(buf, f), k) {
      ArrivedSplits(log, f, k);
      BufferedCovers(buf, f, k);
    }
  }

  /** Feeding the unread tail of a frame that reaches back to the read offset. */
  lemma FedTail(log: seq<Frame>, f: Frame, fed: seq<Byte>)
    requires FedSupplied(log, fed) && f in log && f.offset <= |fed| <= f.offset + |f.data|
    ensures FedSupplied(log, fed + f.data[|fed| - f.offset..])
  {
    var more := fed + f.data[|fed| - f.offset..];
    forall k: nat | k < |more| ensures Supplied(log, k, more[k]) {
      if k < |fed| {
        assert Supplied(log, k, fed[k]);
      } else {
        assert Carries(f, k) && f.data[k - f.offset] == more[k];
      }
    }
  }

  lemma FeedFrameInv(log: seq<Frame>, f: Frame, buf: Chunks, fed: seq<Byte>)
    requires Inv(log, buf, fed) && f.offset <= |fed| < f.offset + |f.data|
    ensures Inv(log + [f], buf, fed + f.data[|fed| - f.offset..])
  {
    LogGrows(log, f, buf, fed);
    FedTail(log + [f], f, fed);
    forall k: nat | k >= f.offset + |f.data| && Arrived(log + [f], k) ensures Covered(buf, k) {
      ArrivedSplits(log, f, k);
    }
  }

  predicate Stale(buf: Chunks, s: nat, next: nat)
    requires s in buf
  {
    s + |buf[s]| <= next
  }

  /** The chunks that reach beyond `next`. */
  function Live(buf: Chunks, next: nat): Chunks {
    map s | s in buf && !Stale(buf, s, next) :: buf[s]
  }

  lemma DropStaleInv(log: seq<Frame>, buf: Chunks, fed: seq<Byte>, rest: Chunks)
    requires Inv(log, buf, fed) && rest == Live(buf, |fed|)
    ensures Inv(log, rest, fed) && |rest| <= |buf|
  {
    SubsetSize(rest.Keys, buf.Keys);
    forall k: nat | k >= |fed| && Arrived(log, k) ensures Covered(rest, k) {
      var s :| s in buf && Within(s, buf[s], k);
      assert s in rest && Within(s, rest[s], k);
    }
  }

  lemma FeedChunkInv(log: seq<Frame>, buf: Chunks, fed: seq<Byte>, s: nat)
    requires Inv(log, buf, fed) && s in buf && s <= |fed| < s + |buf[s]|
    ensures Inv(log, buf - {s}, fed + buf[s][|fed| - s..])
  {
    var f := Frame(s, buf[s]);
    FedTail(log, f, fed);
    forall k: nat | k >= s + |buf[s]| && Arrived(log, k) ensures Covered(buf - {s}, k) {
      var t :| t in buf && Within(t, buf[t], k);
      assert t in buf - {s} && Within(t, (buf - {s})[t], k);
    }
  }

  // ---- Loops ----

  /** Exactly the chunks ending at or below `next` go. */
  method RemoveStale(buf: Chunks, next: nat) returns (rest: Chunks)
    ensures rest == Live(buf, next)
  {
    rest := buf;
    var keys := buf.Keys;
    while keys != {}
      invariant keys <= buf.Keys
      invariant rest == map s | s in buf && (s in keys || !Stale(buf, s, next)) :: buf[s]
      decreases keys
    {
      var s :| s in keys;
      if Stale(buf, s, next) {
        rest := rest - {s};
      }
      keys := keys - {s};
    }
  }

  datatype Start = Nothing | At(start: nat)

  predicate Feedable(buf: Chunks, s: nat, next: nat) {
    s in buf && s <= next < s + |buf[s]|
  }

  /** The largest start whose chunk holds byte `next`. */
  method FindNext(buf: Chunks, next: nat) returns (r: Start)
    ensures r == Nothing <==> forall s :: s in buf ==> !Feedable(buf, s, next)
    ensures r.At? ==> Feedable(buf, r.start, next) && forall s :: s in buf && Feedable(buf, s, next) ==> s <= r.start
  {
    r := Nothing;
    var keys := buf.Keys;
    while keys != {}
      invariant keys <= buf.Keys
      invariant r == Nothing ==> forall s :: s in buf && s !in keys ==> !Feedable(buf, s, next)
      invariant r.At? ==> Feedable(buf, r.start, next)
      invariant r.At? ==> forall s :: s in buf && s !in keys && Feedable(buf, s, next) ==> s <= r.start
      decreases keys
    {
      var s :| s in keys;
      if Feedable(buf, s, next) && (r == Nothing || s > r.start) {
        r := At(s);
      }
      keys := keys - {s};
    }
  }

  lemma NothingFeedable(buf: Chunks, next: nat)
    requires forall s :: s in Live(buf, next) ==> !Feedable(Live(buf, next), s, next)
    ensures Settled(Live(buf, next), next)
  {
  }

  class CryptoStream {
    /** The TLS library's verdict on everything it has been given. */
    const accepts: seq<Byte> -> bool

    var recvBuf: Chunks
    var recvOffset: nat
    var fed: seq<Byte>
    ghost var log: seq<Frame>

    ghost predicate Valid()
      reads this
    {
      recvOffset == |fed| && Inv(log, recvBuf, fed)
    }

    constructor (accepts: seq<Byte> -> bool)
      ensures Valid() && Settled(recvBuf, recvOffset) && log == [] && fed == []
      ensures this.accepts == accepts
    {
      this.accepts := accepts;
      recvBuf, recvOffset, fed, log := map[], 0, [], [];
    }

    method ReadHs(data: seq<Byte>) returns (ok: bool)
      modifies `fed
      ensures fed == old(fed) + data && ok == accepts(fed)
    {
      fed := fed + data;
      ok := accepts(fed);
    }

    /** Feed buffered chunks while one holds the next byte. */
    method Drain() returns (ok: bool)
      requires Valid()
      modifies `recvBuf, `recvOffset, `fed
      ensures Valid() && old(fed) <= fed
      ensures ok ==> Settled(recvBuf, recvOffset)
      ensures !ok ==> !accepts(fed)
    {
      hide Inv, Live;
      while true
        invariant Valid() && old(fed) <= fed
        decreases |recvBuf|
      {
        var next := recvOffset;
        ghost var before := recvBuf;
        recvBuf := RemoveStale(recvBuf, next);
        DropStaleInv(log, before, fed, recvBuf);
        var found := FindNext(recvBuf, next);
        if found == Nothing {
          NothingFeedable(before, next);
          return true;
        }
        var s := found.start;
        var useful := recvBuf[s][next - s..];
        FeedChunkInv(log, recvBuf, fed, s);
        recvBuf := recvBuf - {s};
        recvOffset := recvOffset + |useful|;
        var accepted := ReadHs(useful);
        if !accepted {
          return false;
        }
      }
    }

    /** `process_crypto_data`: ignore, buffer, or feed and drain. */
    method OnCryptoFrame(offset: nat, data: seq<Byte>) returns (ok: bool)
      requires Valid()
      modifies this
      ensures Valid() && log == old(log) + [Frame(offset, data)] && old(fed) <= fed
      ensures ok && old(Settled(recvBuf, recvOffset)) ==> LongestPrefix(log, recvOffset)
      ensures ok && fed != old(fed) ==> LongestPrefix(log, recvOffset)
      ensures ok && (fed != old(fed) || old(Settled(recvBuf, recvOffset))) ==> Settled(recvBuf, recvOffset)
      ensures !ok ==> !accepts(fed) && fed != old(fed)
    {
      var expected := recvOffset;
      ghost var f := Frame(offset, data);
      if offset + |data| <= expected {
        DuplicateInv(log, f, recvBuf, fed);
        log := log + [f];
        if Settled(recvBuf, recvOffset) {
          SettledIsFrontier(log, recvBuf, fed);
        }
        return true;
      }
      if offset > expected {
        BufferedInv(log, f, recvBuf, fed);
        if offset !in recvBuf || |recvBuf[offset]| < |data| {
          recvBuf := recvBuf[offset := data];
        }
        log := log + [f];
        if Settled(recvBuf, recvOffset) {
          SettledIsFrontier(log, recvBuf, fed);
        }
        return true;
      }
      var useful := data[expected - offset..];
      FeedFrameInv(log, f, recvBuf, fed);
      recvOffset := recvOffset + |useful|;
      ok := ReadHs(useful);
      log := log + [f];
      if !ok {
        return false;
      }
      ok := Drain();
      if ok {
        SettledIsFrontier(log, recvBuf, fed);
      }
    }
  }

  /** A whole run: whatever the order, overlap and repetition of the frames, TLS is fed a prefix of the source, and
      while TLS accepts it that prefix is the longest one the frames cover. */
  method ReceiveAll(accepts: seq<Byte> -> bool, frames: seq<Frame>, ghost src: seq<Byte>)
    returns (fed: seq<Byte>, ok: bool)
    requires forall f :: f in frames ==> CutFrom(src, f)
    ensures fed <= src
    ensures ok ==> LongestPrefix(frames, |fed|)
    ensures !ok ==> !accepts(fed)
  {
    hide Inv;
    var c := new CryptoStream(accepts);
    ok := true;
    var i := 0;
    assert frames[..0] == [];
    while i < |frames| && ok
      invariant 0 <= i <= |frames|
      invariant c.Valid() && c.log == frames[..i] && c.accepts == accepts
      invariant ok ==> Settled(c.recvBuf, c.recvOffset)
      invariant !ok ==> !accepts(c.fed)
      decreases |frames| - i
    {
      ok := c.OnCryptoFrame(frames[i].offset, frames[i].data);
      assert frames[..i + 1] == frames[..i] + [frames[i]];
      i := i + 1;
    }
    fed := c.fed;
    InvParts(c.log, c.recvBuf, fed);
    FedIsSourcePrefix(c.log, fed, src);
    if ok {
      assert frames[..i] == frames;
      SettledIsFrontier(c.log, c.recvBuf, fed);
    }
  }

  lemma InvParts(log: seq<Frame>, buf: Chunks, fed: seq<Byte>)
    requires Inv(log, buf, fed)
    ensures FedSupplied(log, fed)
  {
  }

  lemma SubsetSize(a: set<nat>, b: set<nat>)
    requires a <= b
    ensures |a| <= |b|
  {
    assert b == a + (b - a);
  }
}
