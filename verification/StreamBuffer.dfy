/** Receive buffer of a STREAM: segments keyed by offset, refined to a byte map. */
module StreamBuffer {

  type Byte = b: nat | b < 256

  type Buffer = map<nat, seq<Byte>>

  datatype Segment = Segment(start: nat, data: seq<Byte>)

  // ---- The byte map a buffer stands for ----

  ghost predicate Within(start: nat, data: seq<Byte>, k: nat) {
    start <= k < start + |data|
  }

  ghost predicate Covered(buf: Buffer, k: nat) {
    exists st :: st in buf && Within(st, buf[st], k)
  }

  ghost function ByteAt(buf: Buffer, k: nat): Byte
    requires Covered(buf, k)
  {
    var st :| st in buf && Within(st, buf[st], k);
    buf[st][k - st]
  }

  ghost function Bytes(buf: Buffer): imap<nat, Byte> {
    imap k: nat | Covered(buf, k) :: ByteAt(buf, k)
  }

  /** The old map, extended with the new bytes where nothing was stored. */
  ghost function Extend(m: imap<nat, Byte>, start: nat, data: seq<Byte>): imap<nat, Byte> {
    imap k: nat | k in m || Within(start, data, k) :: if k in m then m[k] else data[k - start]
  }

  /** Non-empty segments that do not overlap. */
  ghost predicate Disjoint(buf: Buffer) {
    && (forall s :: s in buf ==> buf[s] != [])
    && (forall s, t :: s in buf && t in buf && s < t ==> s + |buf[s]| <= t)
  }

  /** Disjoint and maximal: a byte is missing between any two segments. */
  ghost predicate Separated(buf: Buffer) {
    && (forall s :: s in buf ==> buf[s] != [])
    && (forall s, t :: s in buf && t in buf && s < t ==> s + |buf[s]| < t)
  }

  // ---- Segment lists ----

  ghost predicate Has(g: Segment, k: nat) { Within(g.start, g.data, k) }

  ghost predicate Some(gs: seq<Segment>, k: nat) {
    exists i :: 0 <= i < |gs| && Has(gs[i], k)
  }

  ghost predicate Agrees(g: Segment, m: imap<nat, Byte>) {
    forall k: nat :: Has(g, k) ==> k in m && m[k] == g.data[k - g.start]
  }

  ghost predicate AllAgree(gs: seq<Segment>, m: imap<nat, Byte>) {
    forall i :: 0 <= i < |gs| ==> Agrees(gs[i], m)
  }

  function End(g: Segment): nat { g.start + |g.data| }

  ghost predicate Ordered(gs: seq<Segment>) {
    && (forall i :: 0 <= i < |gs| ==> gs[i].data != [])
    && (forall i, j :: 0 <= i < j < |gs| ==> End(gs[i]) <= gs[j].start)
  }

  ghost predicate Gapped(gs: seq<Segment>) {
    && (forall i :: 0 <= i < |gs| ==> gs[i].data != [])
    && (forall i, j :: 0 <= i < j < |gs| ==> End(gs[i]) < gs[j].start)
  }

  ghost function Starts(gs: seq<Segment>): set<nat> { set g | g in gs :: g.start }

  ghost predicate Copies(gs: seq<Segment>, buf: Buffer) {
    forall i :: 0 <= i < |gs| ==> gs[i].start in buf && buf[gs[i].start] == gs[i].data
  }

  /** `gs` lists exactly the entries of `buf`. */
  ghost predicate Lists(gs: seq<Segment>, buf: Buffer) {
    Starts(gs) == buf.Keys && Copies(gs, buf)
  }

  ghost predicate Ascending(gs: seq<Segment>) {
    forall i, j :: 0 <= i < j < |gs| ==> gs[i].start < gs[j].start
  }

  lemma StartsSnoc(gs: seq<Segment>, g: Segment)
    ensures Starts(gs + [g]) == Starts(gs) + {g.start}
  {
    assert g in gs + [g];
    forall h | h in gs ensures h in gs + [g] {
    }
  }

  lemma ByteAtIs(buf: Buffer, s: nat, k: nat)
    requires Disjoint(buf) && s in buf && Within(s, buf[s], k)
    ensures k in Bytes(buf) && Bytes(buf)[k] == buf[s][k - s]
  {
    assert Covered(buf, k);
    var t :| t in buf && Within(t, buf[t], k) && ByteAt(buf, k) == buf[t][k - t];
    assert s == t;
  }

  lemma ListBytes(gs: seq<Segment>, buf: Buffer)
    requires Disjoint(buf) && Lists(gs, buf)
    ensures AllAgree(gs, Bytes(buf))
    ensures forall k: nat :: k in Bytes(buf) <==> Some(gs, k)
  {
    forall i | 0 <= i < |gs| ensures Agrees(gs[i], Bytes(buf)) {
      forall k: nat | Has(gs[i], k) ensures k in Bytes(buf) && Bytes(buf)[k] == gs[i].data[k - gs[i].start] {
        ByteAtIs(buf, gs[i].start, k);
      }
    }
    forall k: nat ensures k in Bytes(buf) <==> Some(gs, k) {
      ListCovers(gs, buf, k);
    }
  }

  lemma ListCovers(gs: seq<Segment>, buf: Buffer, k: nat)
    requires Lists(gs, buf)
    ensures Covered(buf, k) <==> Some(gs, k)
  {
    if Covered(buf, k) {
      var s :| s in buf && Within(s, buf[s], k);
      assert s in Starts(gs);
      var g :| g in gs && g.start == s;
      var i :| 0 <= i < |gs| && gs[i] == g;
      assert Has(gs[i], k);
    }
    if Some(gs, k) {
      var i :| 0 <= i < |gs| && Has(gs[i], k);
      assert gs[i].start in buf;
    }
  }

  /** Two maps with the same domain that agree with the same covering list are equal. */
  lemma SameBytes(gs: seq<Segment>, m: imap<nat, Byte>, n: imap<nat, Byte>)
    requires AllAgree(gs, m) && AllAgree(gs, n)
    requires forall k: nat :: k in m <==> Some(gs, k)
    requires forall k: nat :: k in n <==> Some(gs, k)
    ensures m == n
  {
    forall k: nat | k in m ensures k in n && m[k] == n[k] {
      var i :| 0 <= i < |gs| && Has(gs[i], k);
      assert Agrees(gs[i], m) && Agrees(gs[i], n);
    }
  }

  // ---- Collecting a hash map into a list sorted by offset ----

  ghost predicate Least(k: nat, ks: set<nat>) {
    k in ks && forall j: nat :: j in ks ==> k <= j
  }

  lemma LeastExists(ks: set<nat>) returns (least: nat)
    requires ks != {}
    ensures Least(least, ks)
  {
    least :| least in ks;
    var rest := ks - {least};
    if rest == {} {
      assert ks == {least};
    } else {
      var l := LeastExists(rest);
      assert ks == rest + {least};
      least := if least < l then least else l;
    }
  }

  method SortedSegments(buf: Buffer) returns (gs: seq<Segment>)
    ensures Lists(gs, buf) && Ascending(gs)
  {
    gs := [];
    var rest := buf.Keys;
    while rest != {}
      invariant rest <= buf.Keys && Starts(gs) == buf.Keys - rest
      invariant Copies(gs, buf) && Ascending(gs)
      invariant forall i, s: nat :: 0 <= i < |gs| && s in rest ==> gs[i].start < s
      decreases rest
    {
      ghost var least := LeastExists(rest);
      var k :| k in rest && forall j :: j in rest ==> k <= j;
      StartsSnoc(gs, Segment(k, buf[k]));
      gs := gs + [Segment(k, buf[k])];
      rest := rest - {k};
    }
  }

  lemma SortedIsOrdered(gs: seq<Segment>, buf: Buffer)
    requires Lists(gs, buf) && Disjoint(buf) && Ascending(gs)
    ensures Ordered(gs)
  {
  }

  /** Rebuilding a buffer from a list. */
  method FromSegments(gs: seq<Segment>) returns (buf: Buffer)
    requires Ordered(gs)
    ensures Lists(gs, buf)
  {
    buf := map[];
    for i := 0 to |gs|
      invariant Lists(gs[..i], buf)
    {
      hide Lists;
      assert gs[..i + 1] == gs[..i] + [gs[i]];
      ListsSnoc(gs[..i], gs[i], buf);
      buf := buf[gs[i].start := gs[i].data];
    }
    assert gs[..|gs|] == gs;
  }

  lemma ListsSnoc(gs: seq<Segment>, g: Segment, buf: Buffer)
    requires Lists(gs, buf) && forall j :: 0 <= j < |gs| ==> gs[j].start != g.start
    ensures Lists(gs + [g], buf[g.start := g.data])
  {
    hide Starts;
    StartsSnoc(gs, g);
  }

  lemma Find(gs: seq<Segment>, buf: Buffer, s: nat) returns (i: nat)
    requires Lists(gs, buf) && s in buf
    ensures i < |gs| && gs[i].start == s && gs[i].data == buf[s]
  {
    assert s in Starts(gs);
    var g :| g in gs && g.start == s;
    i :| 0 <= i < |gs| && gs[i] == g;
  }

  lemma OrderedIsDisjoint(gs: seq<Segment>, buf: Buffer)
    requires Lists(gs, buf) && Ordered(gs)
    ensures Disjoint(buf)
    ensures Gapped(gs) ==> Separated(buf)
  {
    forall s | s in buf ensures buf[s] != [] {
      var i := Find(gs, buf, s);
    }
    forall s, t | s in buf && t in buf && s < t
      ensures s + |buf[s]| <= t
      ensures Gapped(gs) ==> s + |buf[s]| < t
    {
      var i := Find(gs, buf, s);
      var j := Find(gs, buf, t);
      assert i < j;
    }
  }

  // ---- Cutting the bytes already stored out of the new segments ----

  lemma SomeConcat(a: seq<Segment>, b: seq<Segment>, k: nat)
    ensures Some(a + b, k) <==> Some(a, k) || Some(b, k)
  {
    if Some(a, k) {
      var i :| 0 <= i < |a| && Has(a[i], k);
      assert (a + b)[i] == a[i];
    }
    if Some(b, k) {
      var i :| 0 <= i < |b| && Has(b[i], k);
      assert (a + b)[|a| + i] == b[i];
    }
  }

  lemma SomeSnoc(a: seq<Segment>, i: nat, k: nat)
    requires i < |a|
    ensures Some(a[..i + 1], k) <==> Some(a[..i], k) || Has(a[i], k)
  {
    assert a[..i + 1] == a[..i] + [a[i]];
    SomeConcat(a[..i], [a[i]], k);
    assert Some([a[i]], k) <==> Has([a[i]][0], k);
  }

  function Slice(g: Segment, from: nat, to: nat): Segment
    requires from <= to <= |g.data|
  {
    Segment(g.start + from, g.data[from..to])
  }

  /** What is left of one segment around the stored range `[lo, hi)`: a prefix, a suffix, both, none, or all of it. */
  function CutOne(g: Segment, lo: nat, hi: nat): seq<Segment> {
    var from := if g.start < lo then lo else g.start;
    var to := if End(g) < hi then End(g) else hi;
    if to <= from then [g]
    else
      (if g.start < from then [Slice(g, 0, from - g.start)] else [])
      + (if to < End(g) then [Slice(g, to - g.start, |g.data|)] else [])
  }

  lemma SliceAgrees(g: Segment, from: nat, to: nat, m: imap<nat, Byte>)
    requires from <= to <= |g.data| && Agrees(g, m)
    ensures Agrees(Slice(g, from, to), m)
  {
    var h := Slice(g, from, to);
    forall k: nat | Has(h, k) ensures k in m && m[k] == h.data[k - h.start] {
      assert Has(g, k);
    }
  }

  lemma CutOneAgrees(g: Segment, lo: nat, hi: nat, m: imap<nat, Byte>)
    requires Agrees(g, m)
    ensures AllAgree(CutOne(g, lo, hi), m)
  {
    hide Agrees, Slice;
    var from := if g.start < lo then lo else g.start;
    var to := if End(g) < hi then End(g) else hi;
    if from < to {
      SliceAgrees(g, 0, from - g.start, m);
      SliceAgrees(g, to - g.start, |g.data|, m);
    }
  }

  lemma CutOneIs(g: Segment, lo: nat, hi: nat)
    requires g.data != []
    ensures Ordered(CutOne(g, lo, hi))
    ensures forall i :: 0 <= i < |CutOne(g, lo, hi)| ==>
      g.start <= CutOne(g, lo, hi)[i].start && End(CutOne(g, lo, hi)[i]) <= End(g)
  {
  }

  lemma CutOneCovers(g: Segment, lo: nat, hi: nat, k: nat)
    ensures Some(CutOne(g, lo, hi), k) <==> Has(g, k) && !(lo <= k < hi)
  {
    var c := CutOne(g, lo, hi);
    if Has(g, k) && !(lo <= k < hi) {
      assert (|c| > 0 && Has(c[0], k)) || (|c| > 1 && Has(c[1], k));
    }
  }

  /** One pass of the outer loop: every pending segment is cut around one stored range. */
  method Cut(pending: seq<Segment>, lo: nat, hi: nat, ghost m: imap<nat, Byte>) returns (next: seq<Segment>)
    requires Ordered(pending) && AllAgree(pending, m)
    ensures Ordered(next) && AllAgree(next, m)
    ensures forall k: nat :: Some(next, k) <==> Some(pending, k) && !(lo <= k < hi)
  {
    next := [];
    for i := 0 to |pending|
      invariant Ordered(next) && AllAgree(next, m)
      invariant forall j :: 0 <= j < |next| && i < |pending| ==> End(next[j]) <= pending[i].start
      invariant forall k: nat :: Some(next, k) <==> Some(pending[..i], k) && !(lo <= k < hi)
    {
      var cut := CutOne(pending[i], lo, hi);
      CutOneIs(pending[i], lo, hi);
      CutOneAgrees(pending[i], lo, hi, m);
      forall k: nat ensures Some(next + cut, k) <==> Some(pending[..i + 1], k) && !(lo <= k < hi) {
        SomeConcat(next, cut, k);
        SomeSnoc(pending, i, k);
        CutOneCovers(pending[i], lo, hi, k);
      }
      next := next + cut;
    }
    assert pending[..|pending|] == pending;
  }

  // ---- Merging touching segments ----

  /** One step of the sweep over segments in offset order. */
  function Merge(merged: seq<Segment>, g: Segment): seq<Segment> {
    if merged != [] && g.start <= End(merged[|merged| - 1]) then
      var last := merged[|merged| - 1];
      var overlap := End(last) - g.start;
      if overlap < |g.data| then
        merged[..|merged| - 1] + [Segment(last.start, last.data + g.data[overlap..])]
      else merged
    else merged + [g]
  }

  ghost predicate Before(gs: seq<Segment>, k: nat) {
    forall i :: 0 <= i < |gs| ==> End(gs[i]) <= k
  }

  lemma MergeShape(merged: seq<Segment>, g: Segment)
    requires Gapped(merged) && g.data != [] && Before(merged, g.start)
    ensures Gapped(Merge(merged, g)) && Before(Merge(merged, g), End(g))
  {
  }

  ghost predicate SameCover(gs: seq<Segment>, hs: seq<Segment>) {
    forall k: nat :: Some(gs, k) <==> Some(hs, k)
  }

  ghost function Joined(last: Segment, g: Segment): Segment { Segment(last.start, last.data + g.data) }

  lemma JoinedAgrees(last: Segment, g: Segment, m: imap<nat, Byte>)
    requires g.start == End(last) && Agrees(last, m) && Agrees(g, m)
    ensures Agrees(Joined(last, g), m)
    ensures forall k: nat :: Has(Joined(last, g), k) <==> Has(last, k) || Has(g, k)
  {
    forall k: nat ensures Has(Joined(last, g), k) <==> Has(last, k) || Has(g, k) {
    }
  }

  lemma SomeLast(init: seq<Segment>, g: Segment, k: nat)
    ensures Some(init + [g], k) <==> Some(init, k) || Has(g, k)
  {
    SomeConcat(init, [g], k);
    assert Some([g], k) <==> Has([g][0], k);
  }

  lemma MergeBytes(merged: seq<Segment>, g: Segment, m: imap<nat, Byte>)
    requires AllAgree(merged, m) && Agrees(g, m) && Before(merged, g.start) && g.data != []
    ensures AllAgree(Merge(merged, g), m)
    ensures SameCover(Merge(merged, g), merged + [g])
  {
    if merged != [] && g.start == End(merged[|merged| - 1]) {
      var init, last := merged[..|merged| - 1], merged[|merged| - 1];
      assert Merge(merged, g) == init + [Joined(last, g)];
      assert merged == init + [last];
      JoinedAgrees(last, g, m);
      forall k: nat ensures Some(init + [Joined(last, g)], k) <==> Some(merged + [g], k) {
        SomeLast(init, Joined(last, g), k);
        SomeLast(init, last, k);
        SomeLast(merged, g, k);
      }
    }
  }

  lemma MergeStep(merged: seq<Segment>, segments: seq<Segment>, i: nat, m: imap<nat, Byte>)
    requires Ordered(segments) && AllAgree(segments, m) && i < |segments|
    requires Gapped(merged) && AllAgree(merged, m) && Before(merged, segments[i].start)
    requires SameCover(merged, segments[..i])
    ensures var out := Merge(merged, segments[i]);
            && Gapped(out) && AllAgree(out, m) && SameCover(out, segments[..i + 1])
            && (i + 1 < |segments| ==> Before(out, segments[i + 1].start))
  {
    var out := Merge(merged, segments[i]);
    MergeShape(merged, segments[i]);
    MergeBytes(merged, segments[i], m);
    forall k: nat ensures Some(out, k) <==> Some(segments[..i + 1], k) {
      SomeSnoc(segments, i, k);
      SomeLast(merged, segments[i], k);
    }
  }

  lemma MergedBytes(merged: seq<Segment>, out: Buffer, segments: seq<Segment>, buf: Buffer)
    requires Disjoint(buf) && Lists(segments, buf) && Disjoint(out) && Lists(merged, out)
    requires AllAgree(merged, Bytes(buf)) && SameCover(merged, segments)
    ensures Bytes(out) == Bytes(buf)
  {
    ListBytes(segments, buf);
    ListBytes(merged, out);
    SameBytes(merged, Bytes(out), Bytes(buf));
  }

  lemma SortedAgrees(segments: seq<Segment>, buf: Buffer)
    requires Lists(segments, buf) && Disjoint(buf) && Ascending(segments)
    ensures Ordered(segments) && AllAgree(segments, Bytes(buf))
  {
    SortedIsOrdered(segments, buf);
    ListBytes(segments, buf);
  }

  lemma NothingMerged(segments: seq<Segment>, m: imap<nat, Byte>)
    ensures Gapped([]) && AllAgree([], m) && SameCover([], segments[..0])
    ensures segments != [] ==> Before([], segments[0].start)
  {
  }

  lemma GappedIsOrdered(gs: seq<Segment>)
    requires Gapped(gs)
    ensures Ordered(gs)
  {
  }

  method CoalesceStreamRecvData(buf: Buffer) returns (out: Buffer)
    requires Disjoint(buf)
    ensures Separated(out) && Bytes(out) == Bytes(buf)
  {
    hide Gapped, AllAgree, SameCover, Before, Ordered, Lists, Ascending, Disjoint, Separated, Bytes, Merge;
    var segments := SortedSegments(buf);
    SortedAgrees(segments, buf);
    var merged := [];
    NothingMerged(segments, Bytes(buf));
    for i := 0 to |segments|
      invariant Gapped(merged) && AllAgree(merged, Bytes(buf)) && SameCover(merged, segments[..i])
      invariant i < |segments| ==> Before(merged, segments[i].start)
    {
      MergeStep(merged, segments, i, Bytes(buf));
      merged := Merge(merged, segments[i]);
    }
    assert segments[..|segments|] == segments;
    GappedIsOrdered(merged);
    out := FromSegments(merged);
    OrderedIsDisjoint(merged, out);
    MergedBytes(merged, out, segments, buf);
  }

  // ---- Buffering one frame ----

  ghost predicate Free(b: Buffer, g: Segment) {
    forall k: nat :: Has(g, k) ==> !Covered(b, k)
  }

  lemma InsertDisjoint(b: Buffer, g: Segment)
    requires Disjoint(b) && g.data != [] && Free(b, g)
    ensures g.start !in b && Disjoint(b[g.start := g.data])
  {
    if g.start in b {
      assert Within(g.start, b[g.start], g.start) && Has(g, g.start);
      assert Covered(b, g.start);
    }
    forall t | t in b
      ensures t < g.start ==> t + |b[t]| <= g.start
      ensures g.start < t ==> End(g) <= t
    {
      if t < g.start && g.start < t + |b[t]| {
        assert Within(t, b[t], g.start) && Has(g, g.start);
        assert Covered(b, g.start);
      }
      if g.start < t < End(g) {
        assert Within(t, b[t], t) && Has(g, t);
        assert Covered(b, t);
      }
    }
  }

  lemma InsertedByte(b: Buffer, g: Segment, k: nat)
    requires Disjoint(b) && Disjoint(b[g.start := g.data]) && g.start !in b && Free(b, g)
    ensures var c := b[g.start := g.data];
            && (k in Bytes(c) <==> k in Bytes(b) || Has(g, k))
            && (k in Bytes(b) ==> Bytes(c)[k] == Bytes(b)[k])
            && (Has(g, k) ==> Bytes(c)[k] == g.data[k - g.start])
  {
    var c := b[g.start := g.data];
    if Has(g, k) {
      assert Within(g.start, c[g.start], k);
      ByteAtIs(c, g.start, k);
    } else if Covered(b, k) {
      var t :| t in b && Within(t, b[t], k);
      ByteAtIs(b, t, k);
      ByteAtIs(c, t, k);
    } else {
      CoveredInsert(b, g, k);
    }
  }

  lemma CoveredInsert(b: Buffer, g: Segment, k: nat)
    requires g.start !in b
    ensures Covered(b[g.start := g.data], k) ==> Has(g, k) || Covered(b, k)
  {
    if Covered(b[g.start := g.data], k) && !Has(g, k) {
      var t :| t in b[g.start := g.data] && Within(t, b[g.start := g.data][t], k);
      assert t in b && Within(t, b[t], k);
    }
  }

  /** The new frame's own bytes. */
  ghost function FrameBytes(start: nat, data: seq<Byte>): imap<nat, Byte> {
    imap k: nat | Within(start, data, k) :: data[k - start]
  }

  /** Byte `k` of `n` comes unchanged from `m`, or from `gs`. */
  ghost predicate Kept(n: imap<nat, Byte>, m: imap<nat, Byte>, gs: seq<Segment>, k: nat) {
    && (k in n <==> k in m || Some(gs, k))
    && (k in m && k in n ==> n[k] == m[k])
  }

  /** `out` holds the bytes of `buf`, unchanged, and those of `gs`. */
  ghost predicate Filled(out: Buffer, buf: Buffer, gs: seq<Segment>) {
    && (forall k: nat :: Kept(Bytes(out), Bytes(buf), gs, k))
    && AllAgree(gs, Bytes(out))
  }

  lemma FillStep(out: Buffer, buf: Buffer, pending: seq<Segment>, i: nat)
    requires Disjoint(out) && Ordered(pending) && i < |pending| && Filled(out, buf, pending[..i])
    requires forall k: nat :: Some(pending, k) ==> k !in Bytes(buf)
    ensures var c := out[pending[i].start := pending[i].data];
            Disjoint(c) && Filled(c, buf, pending[..i + 1])
  {
    var g := pending[i];
    forall k: nat | Has(g, k) ensures !Covered(out, k) {
      NotYet(pending, i, k);
      assert Kept(Bytes(out), Bytes(buf), pending[..i], k);
    }
    InsertDisjoint(out, g);
    var c, done := out[g.start := g.data], pending[..i + 1];
    forall k: nat ensures Kept(Bytes(c), Bytes(buf), done, k) {
      assert Kept(Bytes(out), Bytes(buf), pending[..i], k);
      FillByte(out, Bytes(buf), pending, i, k);
    }
    FillAgrees(out, pending, i);
  }

  lemma FillByte(out: Buffer, m: imap<nat, Byte>, pending: seq<Segment>, i: nat, k: nat)
    requires Disjoint(out) && i < |pending| && Free(out, pending[i])
    requires pending[i].start !in out && Disjoint(out[pending[i].start := pending[i].data])
    requires Kept(Bytes(out), m, pending[..i], k)
    ensures Kept(Bytes(out[pending[i].start := pending[i].data]), m, pending[..i + 1], k)
  {
    InsertedByte(out, pending[i], k);
    SomeSnoc(pending, i, k);
  }

  lemma FillAgrees(out: Buffer, pending: seq<Segment>, i: nat)
    requires Disjoint(out) && i < |pending| && AllAgree(pending[..i], Bytes(out)) && Free(out, pending[i])
    requires pending[i].start !in out && Disjoint(out[pending[i].start := pending[i].data])
    ensures AllAgree(pending[..i + 1], Bytes(out[pending[i].start := pending[i].data]))
  {
    var c := out[pending[i].start := pending[i].data];
    var done := pending[..i + 1];
    forall j | 0 <= j < |done| ensures Agrees(done[j], Bytes(c)) {
      assert j < i ==> done[j] == pending[..i][j] && Agrees(done[j], Bytes(out));
      InsertKeepsAgreement(out, pending[i], done[j]);
    }
  }

  lemma InsertKeepsAgreement(b: Buffer, g: Segment, h: Segment)
    requires Disjoint(b) && g.start !in b && Free(b, g) && Disjoint(b[g.start := g.data])
    requires h == g || Agrees(h, Bytes(b))
    ensures Agrees(h, Bytes(b[g.start := g.data]))
  {
    var c := b[g.start := g.data];
    var m, n := Bytes(b), Bytes(c);
    forall k: nat
      ensures k in m ==> k in n && n[k] == m[k]
      ensures Has(g, k) ==> k in n && n[k] == g.data[k - g.start]
    {
      InsertedByte(b, g, k);
    }
    StillAgrees(h, g, m, n);
  }

  lemma StillAgrees(h: Segment, g: Segment, m: imap<nat, Byte>, n: imap<nat, Byte>)
    requires forall k: nat :: k in m ==> k in n && n[k] == m[k]
    requires forall k: nat :: Has(g, k) ==> k in n && n[k] == g.data[k - g.start]
    requires h == g || Agrees(h, m)
    ensures Agrees(h, n)
  {
  }

  method InsertAll(buf: Buffer, pending: seq<Segment>) returns (out: Buffer)
    requires Disjoint(buf) && Ordered(pending)
    requires forall k: nat :: Some(pending, k) ==> k !in Bytes(buf)
    ensures Disjoint(out) && Filled(out, buf, pending)
  {
    out := buf;
    for i := 0 to |pending|
      invariant Disjoint(out) && Filled(out, buf, pending[..i])
    {
      FillStep(out, buf, pending, i);
      out := out[pending[i].start := pending[i].data];
    }
    assert pending[..|pending|] == pending;
  }

  lemma NotYet(pending: seq<Segment>, i: nat, k: nat)
    requires Ordered(pending) && i < |pending| && Has(pending[i], k)
    ensures Some(pending, k) && !Some(pending[..i], k)
  {
  }

  /** `pending` is what the frame adds beyond the stored segments `done`. */
  ghost predicate Remaining(pending: seq<Segment>, done: seq<Segment>, offset: nat, data: seq<Byte>) {
    && Ordered(pending) && AllAgree(pending, FrameBytes(offset, data))
    && forall k: nat :: Some(pending, k) <==> Within(offset, data, k) && !Some(done, k)
  }

  lemma RemainingStart(offset: nat, data: seq<Byte>)
    requires data != []
    ensures Remaining([Segment(offset, data)], [], offset, data)
  {
    forall k: nat ensures Some([Segment(offset, data)], k) <==> Within(offset, data, k) {
      assert Some([Segment(offset, data)], k) <==> Has([Segment(offset, data)][0], k);
    }
  }

  lemma RemainingStep(next: seq<Segment>, pending: seq<Segment>, existing: seq<Segment>, i: nat,
                      offset: nat, data: seq<Byte>)
    requires i < |existing| && Remaining(pending, existing[..i], offset, data)
    requires Ordered(next) && AllAgree(next, FrameBytes(offset, data))
    requires forall k: nat :: Some(next, k) <==> Some(pending, k) && !(existing[i].start <= k < End(existing[i]))
    ensures Remaining(next, existing[..i + 1], offset, data)
  {
    forall k: nat ensures Some(next, k) <==> Within(offset, data, k) && !Some(existing[..i + 1], k) {
      SomeSnoc(existing, i, k);
    }
  }

  /** The frame brings a byte that is not stored. */
  ghost predicate BringsNew(buf: Buffer, offset: nat, data: seq<Byte>) {
    exists k: nat :: Within(offset, data, k) && k !in Bytes(buf)
  }

  /** Buffering a frame yields exactly the old bytes plus the new ones where nothing was stored, again as disjoint,
      non-empty segments. A frame with no new byte returns before coalescing and leaves the buffer as it was; so the
      segments are maximal exactly when they were before or the frame brings a new byte. */
  method BufferStreamRecvData(buf: Buffer, offset: nat, data: seq<Byte>) returns (out: Buffer)
    requires Disjoint(buf)
    ensures Disjoint(out)
    ensures Bytes(out) == Extend(Bytes(buf), offset, data)
    ensures Separated(out) <==> Separated(buf) || BringsNew(buf, offset, data)
    ensures !BringsNew(buf, offset, data) ==> out == buf
  {
    hide Bytes, Extend, Disjoint, Separated, Lists, Some, Ordered, AllAgree, Filled, BringsNew;
    if data == [] {
      EmptyFrame(buf, offset);
      out := buf;
      return;
    }
    var pending := [Segment(offset, data)];
    RemainingStart(offset, data);
    var existing := SortedSegments(buf);
    ListBytes(existing, buf);
    for i := 0 to |existing|
      invariant Remaining(pending, existing[..i], offset, data) && pending != []
    {
      var next := Cut(pending, existing[i].start, End(existing[i]), FrameBytes(offset, data));
      RemainingStep(next, pending, existing, i, offset, data);
      pending := next;
      if pending == [] {
        NothingNew(existing, i + 1, buf, offset, data);
        out := buf;
        return;
      }
    }
    assert existing[..|existing|] == existing;
    StillNew(pending, existing, buf, offset, data);
    var filled := InsertAll(buf, pending);
    BuffersAll(buf, filled, pending, offset, data);
    out := CoalesceStreamRecvData(filled);
    SeparatedIsDisjoint(out);
  }

  /** Two touching segments and a frame that repeats the first: buffering leaves them apart. */
  method TouchingSegmentsStay() returns (buf: Buffer, out: Buffer)
    ensures buf == map[0 := [1], 1 := [2]] && Disjoint(buf) && !Separated(buf)
    ensures out == buf && !Separated(out)
  {
    buf := map[0 := [1], 1 := [2]];
    assert 0 in buf && 1 in buf;
    assert !BringsNew(buf, 0, [1]) by {
      assert Within(0, buf[0], 0) && Covered(buf, 0);
    }
    out := BufferStreamRecvData(buf, 0, [1]);
  }

  lemma SeparatedIsDisjoint(buf: Buffer)
    requires Separated(buf)
    ensures Disjoint(buf)
  {
  }

  lemma EmptyFrame(buf: Buffer, offset: nat)
    ensures Extend(Bytes(buf), offset, []) == Bytes(buf) && !BringsNew(buf, offset, [])
  {
  }

  /** What remains of the frame after all stored segments are cut out of it is new. */
  lemma StillNew(pending: seq<Segment>, existing: seq<Segment>, buf: Buffer, offset: nat, data: seq<Byte>)
    requires pending != [] && Remaining(pending, existing, offset, data)
    requires forall k: nat :: k in Bytes(buf) <==> Some(existing, k)
    ensures BringsNew(buf, offset, data)
  {
    var k := pending[0].start;
    assert Has(pending[0], k) && Some(pending, k);
  }

  lemma NothingNew(existing: seq<Segment>, i: nat, buf: Buffer, offset: nat, data: seq<Byte>)
    requires i <= |existing| && forall k: nat :: k in Bytes(buf) <==> Some(existing, k)
    requires Remaining([], existing[..i], offset, data)
    ensures Bytes(buf) == Extend(Bytes(buf), offset, data) && !BringsNew(buf, offset, data)
  {
    assert existing == existing[..i] + existing[i..];
    forall k: nat | Within(offset, data, k) ensures k in Bytes(buf) {
      assert !Some([], k);
      SomeConcat(existing[..i], existing[i..], k);
    }
  }

  lemma BuffersAll(buf: Buffer, filled: Buffer, pending: seq<Segment>, offset: nat, data: seq<Byte>)
    requires forall k: nat :: Some(pending, k) <==> Within(offset, data, k) && k !in Bytes(buf)
    requires Filled(filled, buf, pending) && AllAgree(pending, FrameBytes(offset, data))
    ensures Bytes(filled) == Extend(Bytes(buf), offset, data)
  {
    forall k: nat ensures k in Bytes(filled) <==> k in Extend(Bytes(buf), offset, data) {
      assert Kept(Bytes(filled), Bytes(buf), pending, k);
    }
    forall k: nat | k in Bytes(filled) ensures Bytes(filled)[k] == Extend(Bytes(buf), offset, data)[k] {
      assert Kept(Bytes(filled), Bytes(buf), pending, k);
      if k !in Bytes(buf) {
        var i :| 0 <= i < |pending| && Has(pending[i], k);
        assert Agrees(pending[i], Bytes(filled)) && Agrees(pending[i], FrameBytes(offset, data));
      }
    }
  }
}
