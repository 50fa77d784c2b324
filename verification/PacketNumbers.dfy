/** Packet numbers under packet-protection keys: which pairs a connection uses over its life. */
module PacketNumbers {
  datatype Space = Initial | Handshake | Application

  /** Initial keys are derived from a connection ID; the others come from TLS and are labelled by their installation.
      There is one set of 0-RTT keys. */
  datatype Key = InitialKey(cid: nat) | HandshakeKey(install: nat) | ZeroRttKey | OneRttKey(install: nat)

  datatype KeySlot = Absent | Installed(key: Key)

  /** A protected packet: the key, the number, and whether the Initial numbering had been reset. */
  datatype Packet = Packet(key: Key, pn: nat, afterRetry: bool)

  datatype Numbers = Numbers(initial: nat, handshake: nat, application: nat)

  function Next(n: Numbers, space: Space): nat {
    match space
    case Initial => n.initial
    case Handshake => n.handshake
    case Application => n.application
  }

  function Bump(n: Numbers, space: Space): Numbers {
    match space
    case Initial => n.(initial := n.initial + 1)
    case Handshake => n.(handshake := n.handshake + 1)
    case Application => n.(application := n.application + 1)
  }

  datatype State = State(
    client: bool, original: nat, retry: nat, retried: bool,
    initial: KeySlot, handshake: KeySlot, zeroRtt: KeySlot, oneRtt: KeySlot,
    nextPn: Numbers, installs: nat, sent: seq<Packet>, sentBefore: nat)

  function Start(client: bool, dcid: nat): State {
    State(client, dcid, dcid, false, Installed(InitialKey(dcid)), Absent, Absent, Absent,
          Numbers(0, 0, 0), 0, [], 0)
  }

  datatype Action =
    | Build(space: Space)
    | InstallHandshake
    | InstallZeroRtt
    | InstallOneRtt
    | UpdateKeys
    | FailedTrial
    | DiscardInitial
    | DiscardHandshake
    | DiscardZeroRtt
    | Retry(scid: nat)

  /** The key a packet of the space would be protected with: 0-RTT only on a client without 1-RTT keys. */
  function SendKey(s: State, space: Space): KeySlot {
    match space
    case Initial => s.initial
    case Handshake => s.handshake
    case Application => if s.oneRtt.Installed? then s.oneRtt else if s.client then s.zeroRtt else Absent
  }

  function Built(s: State, space: Space): State {
    if SendKey(s, space) == Absent then s
    else
      s.(sent := s.sent + [Packet(SendKey(s, space).key, Next(s.nextPn, space), s.retried)],
         nextPn := Bump(s.nextPn, space))
  }

  function Apply(s: State, x: Action): State {
    match x
    case Build(space) => Built(s, space)
    case InstallHandshake => s.(handshake := Installed(HandshakeKey(s.installs)), installs := s.installs + 1)
    case InstallZeroRtt => if s.oneRtt == Absent then s.(zeroRtt := Installed(ZeroRttKey)) else s
    case InstallOneRtt => s.(oneRtt := Installed(OneRttKey(s.installs)), installs := s.installs + 1)
    case UpdateKeys =>
      if s.oneRtt == Absent then s else s.(oneRtt := Installed(OneRttKey(s.installs)), installs := s.installs + 1)
    case FailedTrial => s.(installs := s.installs + 1)
    case DiscardInitial => s.(initial := Absent)
    case DiscardHandshake => s.(handshake := Absent)
    case DiscardZeroRtt => s.(zeroRtt := Absent)
    case Retry(scid) =>
      if !s.client || s.retried then s
      else
        s.(retried := true, retry := scid, initial := Installed(InitialKey(scid)), sentBefore := s.nextPn.initial,
           nextPn := s.nextPn.(initial := 0))
  }

  function SpaceOf(k: Key): Space {
    match k
    case InitialKey(_) => Initial
    case HandshakeKey(_) => Handshake
    case ZeroRttKey => Application
    case OneRttKey(_) => Application
  }

  // ---- What every step keeps ----

  /** The packet belongs to the numbering its space uses now. */
  predicate Current(s: State, p: Packet) { SpaceOf(p.key) == Initial ==> p.afterRetry == s.retried }

  predicate SameNumbering(p: Packet, q: Packet) {
    SpaceOf(p.key) == SpaceOf(q.key) && (SpaceOf(p.key) == Initial ==> p.afterRetry == q.afterRetry)
  }

  ghost predicate Ascending(sent: seq<Packet>) {
    forall i, j :: 0 <= i < j < |sent| && SameNumbering(sent[i], sent[j]) ==> sent[i].pn < sent[j].pn
  }

  predicate PacketOk(s: State, p: Packet) {
    && (Current(s, p) ==> p.pn < Next(s.nextPn, SpaceOf(p.key)))
    && (p.key.InitialKey? ==> p.key.cid == if p.afterRetry then s.retry else s.original)
    && (p.afterRetry ==> s.retried)
    && (p.key.InitialKey? && !p.afterRetry && s.retried ==> p.pn < s.sentBefore)
  }

  predicate KeysOk(s: State) {
    && (s.initial.Installed? ==> s.initial.key == InitialKey(CurrentCid(s)))
    && (s.handshake.Installed? ==> s.handshake.key.HandshakeKey?)
    && (s.zeroRtt.Installed? ==> s.zeroRtt.key == ZeroRttKey)
    && (s.oneRtt.Installed? ==> s.oneRtt.key.OneRttKey?)
  }

  function CurrentCid(s: State): nat { if s.retried then s.retry else s.original }

  ghost predicate Used(sent: seq<Packet>, cid: nat, afterRetry: bool, pn: nat) {
    Packet(InitialKey(cid), pn, afterRetry) in sent
  }

  ghost predicate AllUsed(sent: seq<Packet>, cid: nat, afterRetry: bool, count: nat) {
    forall n: nat :: n < count ==> Used(sent, cid, afterRetry, n)
  }

  /** Every number below the next one has been used in the Initial space, before the Retry and since. */
  ghost predicate InitialUsed(s: State) {
    && AllUsed(s.sent, CurrentCid(s), s.retried, s.nextPn.initial)
    && (s.retried ==> AllUsed(s.sent, s.original, false, s.sentBefore))
  }

  ghost predicate Inv(s: State) {
    && KeysOk(s)
    && Ascending(s.sent)
    && (forall i :: 0 <= i < |s.sent| ==> PacketOk(s, s.sent[i]))
    && InitialUsed(s)
  }

  lemma StartInv(client: bool, dcid: nat)
    ensures Inv(Start(client, dcid))
  {
  }

  lemma BuildInv(s: State, space: Space)
    requires Inv(s)
    ensures Inv(Built(s, space))
  {
    var t := Built(s, space);
    if t != s {
      var p := t.sent[|s.sent|];
      forall i | 0 <= i < |t.sent| ensures PacketOk(t, t.sent[i]) {
        assert i < |s.sent| ==> PacketOk(s, s.sent[i]);
      }
      forall i, j | 0 <= i < j < |t.sent| && SameNumbering(t.sent[i], t.sent[j]) ensures t.sent[i].pn < t.sent[j].pn {
        assert PacketOk(s, s.sent[i]);
      }
      BuildUsed(s, space);
    }
  }

  lemma UsedGrows(sent: seq<Packet>, p: Packet, cid: nat, afterRetry: bool, count: nat)
    requires AllUsed(sent, cid, afterRetry, count)
    ensures AllUsed(sent + [p], cid, afterRetry, count)
    ensures p == Packet(InitialKey(cid), count, afterRetry) ==> AllUsed(sent + [p], cid, afterRetry, count + 1)
  {
    forall n: nat | n < count ensures Used(sent + [p], cid, afterRetry, n) {
      assert Used(sent, cid, afterRetry, n);
    }
    assert p in sent + [p];
  }

  lemma BuildUsed(s: State, space: Space)
    requires Inv(s)
    ensures InitialUsed(Built(s, space))
  {
    hide AllUsed, Ascending;
    var slot := SendKey(s, space);
    if slot.Installed? {
      var p := Packet(slot.key, Next(s.nextPn, space), s.retried);
      UsedGrows(s.sent, p, CurrentCid(s), s.retried, s.nextPn.initial);
      if s.retried {
        UsedGrows(s.sent, p, s.original, false, s.sentBefore);
      }
    }
  }

  lemma NoneUsed(sent: seq<Packet>, cid: nat, afterRetry: bool)
    ensures AllUsed(sent, cid, afterRetry, 0)
  {
  }

  /** A step that neither sends nor resets. */
  lemma QuietInv(s: State, t: State)
    requires Inv(s) && KeysOk(t)
    requires t.sent == s.sent && t.nextPn == s.nextPn && t.retried == s.retried && t.retry == s.retry
    requires t.original == s.original && t.sentBefore == s.sentBefore
    ensures Inv(t)
  {
    hide AllUsed, Ascending, KeysOk;
    forall i | 0 <= i < |t.sent| ensures PacketOk(t, t.sent[i]) {
      assert PacketOk(s, s.sent[i]);
    }
  }

  lemma RetryInv(s: State, scid: nat)
    requires Inv(s)
    ensures Inv(Apply(s, Retry(scid)))
  {
    hide AllUsed, Ascending;
    var t := Apply(s, Retry(scid));
    if t != s {
      forall i | 0 <= i < |t.sent| ensures PacketOk(t, t.sent[i]) {
        assert PacketOk(s, s.sent[i]);
      }
      NoneUsed(s.sent, scid, true);
    }
  }

  lemma StepInv(s: State, x: Action)
    requires Inv(s)
    ensures Inv(Apply(s, x))
  {
    match x
    case Build(space) => BuildInv(s, space);
    case Retry(scid) => RetryInv(s, scid);
    case _ => QuietInv(s, Apply(s, x));
  }

  function Exec(s: State, xs: seq<Action>): State
    decreases |xs|
  {
    if xs == [] then s else Exec(Apply(s, xs[0]), xs[1..])
  }

  lemma {:induction false} ExecInv(s: State, xs: seq<Action>)
    requires Inv(s)
    ensures Inv(Exec(s, xs))
    decreases |xs|
  {
    hide Inv, Apply;
    if xs != [] {
      StepInv(s, xs[0]);
      ExecInv(Apply(s, xs[0]), xs[1..]);
    }
  }

  // ---- Uniqueness ----

  /** No two packets share a key and a number. */
  ghost predicate NoRepeat(sent: seq<Packet>) {
    forall i, j :: 0 <= i < j < |sent| ==> sent[i].key != sent[j].key || sent[i].pn != sent[j].pn
  }

  /** The Retry gave back the connection ID the first Initial keys came from, with Initial packets sent both before and
      since. */
  predicate ReusedInitialKeys(s: State) {
    s.retried && s.retry == s.original && s.sentBefore > 0 && s.nextPn.initial > 0
  }

  lemma NoReuseNoRepeat(s: State)
    requires Inv(s) && !ReusedInitialKeys(s)
    ensures NoRepeat(s.sent)
  {
    forall i, j | 0 <= i < j < |s.sent| ensures s.sent[i].key != s.sent[j].key || s.sent[i].pn != s.sent[j].pn {
      var p, q := s.sent[i], s.sent[j];
      assert PacketOk(s, p) && PacketOk(s, q);
      assert SameNumbering(p, q) ==> p.pn < q.pn;
    }
  }

  lemma ReuseRepeats(s: State)
    requires Inv(s) && ReusedInitialKeys(s)
    ensures !NoRepeat(s.sent)
  {
    assert Used(s.sent, s.original, false, 0) && Used(s.sent, s.retry, true, 0);
    var i :| 0 <= i < |s.sent| && s.sent[i] == Packet(InitialKey(s.original), 0, false);
    var j :| 0 <= j < |s.sent| && s.sent[j] == Packet(InitialKey(s.retry), 0, true);
    assert s.sent[i].key == s.sent[j].key && s.sent[i].pn == s.sent[j].pn;
    assert i < j || j < i;
  }

  // ---- Numbers are consecutive ----

  /** Packets sent in the numbering the space uses now. */
  function SentIn(sent: seq<Packet>, space: Space, retried: bool): nat {
    if sent == [] then 0
    else
      var p := sent[|sent| - 1];
      SentIn(sent[..|sent| - 1], space, retried) +
      if SpaceOf(p.key) == space && (space == Initial ==> p.afterRetry == retried) then 1 else 0
  }

  /** The next number of each space is the count of packets sent in it. */
  predicate Counted(s: State, space: Space) { Next(s.nextPn, space) == SentIn(s.sent, space, s.retried) }

  lemma SentInSnoc(sent: seq<Packet>, p: Packet, space: Space, retried: bool)
    ensures SentIn(sent + [p], space, retried) == SentIn(sent, space, retried) +
      if SpaceOf(p.key) == space && (space == Initial ==> p.afterRetry == retried) then 1 else 0
  {
    assert (sent + [p])[..|sent|] == sent;
  }

  lemma {:induction false} NoneAfterRetry(sent: seq<Packet>)
    requires forall i :: 0 <= i < |sent| ==> !sent[i].afterRetry
    ensures SentIn(sent, Initial, true) == 0
    decreases |sent|
  {
    if sent != [] {
      NoneAfterRetry(sent[..|sent| - 1]);
    }
  }

  lemma {:induction false} RetryIrrelevant(sent: seq<Packet>, space: Space, a: bool, b: bool)
    requires space != Initial
    ensures SentIn(sent, space, a) == SentIn(sent, space, b)
    decreases |sent|
  {
    if sent != [] {
      RetryIrrelevant(sent[..|sent| - 1], space, a, b);
    }
  }

  lemma BuildCounted(s: State, build: Space, space: Space)
    requires KeysOk(s) && Counted(s, space)
    ensures Counted(Built(s, build), space)
  {
    hide SentIn;
    if SendKey(s, build).Installed? {
      SentInSnoc(s.sent, Packet(SendKey(s, build).key, Next(s.nextPn, build), s.retried), space, s.retried);
    }
  }

  lemma RetryCounted(s: State, scid: nat, space: Space)
    requires Inv(s) && Counted(s, space)
    ensures Counted(Apply(s, Retry(scid)), space)
  {
    hide SentIn, Ascending, InitialUsed;
    if s.client && !s.retried {
      if space == Initial {
        assert forall i :: 0 <= i < |s.sent| ==> PacketOk(s, s.sent[i]);
        NoneAfterRetry(s.sent);
      } else {
        RetryIrrelevant(s.sent, space, false, true);
      }
    }
  }

  lemma CountedStep(s: State, x: Action, space: Space)
    requires Inv(s) && Counted(s, space)
    ensures Counted(Apply(s, x), space)
  {
    hide SentIn, Ascending, InitialUsed;
    match x
    case Build(build) => BuildCounted(s, build, space);
    case Retry(scid) => RetryCounted(s, scid, space);
    case _ =>
  }

  lemma {:induction false} CountedRun(s: State, xs: seq<Action>, space: Space)
    requires Inv(s) && Counted(s, space)
    ensures Counted(Exec(s, xs), space)
    decreases |xs|
  {
    hide Inv, Apply, Counted;
    if xs != [] {
      StepInv(s, xs[0]);
      CountedStep(s, xs[0], space);
      CountedRun(Apply(s, xs[0]), xs[1..], space);
    }
  }

  /** In every run the packets of a space are numbered 0, 1, 2 and so on, from 0 again in the Initial space after the
      Retry: the next packet takes the count of those before it. */
  lemma NumbersConsecutive(client: bool, dcid: nat, xs: seq<Action>, space: Space)
    ensures var s := Exec(Start(client, dcid), xs);
      var t := Apply(s, Build(space));
      && (SendKey(s, space) == Absent ==> t == s)
      && (SendKey(s, space).Installed? ==>
           && |t.sent| == |s.sent| + 1 && t.sent[..|s.sent|] == s.sent
           && t.sent[|s.sent|].pn == SentIn(s.sent, space, s.retried) && SpaceOf(t.sent[|s.sent|].key) == space)
  {
    hide Exec, SentIn, Inv;
    StartInv(client, dcid);
    ExecInv(Start(client, dcid), xs);
    StartCounted(client, dcid, space);
    CountedRun(Start(client, dcid), xs, space);
    InvKeys(Exec(Start(client, dcid), xs));
  }

  lemma StartCounted(client: bool, dcid: nat, space: Space)
    ensures Counted(Start(client, dcid), space)
  {
  }

  lemma InvKeys(s: State)
    requires Inv(s)
    ensures KeysOk(s)
  {
  }

  // ---- When the Initial keys are reused, as a condition on the events ----

  /** An Initial packet is asked for before the Initial keys are discarded. */
  predicate SendsInitial(xs: seq<Action>) {
    xs != [] && xs[0] != DiscardInitial && (xs[0] == Build(Initial) || SendsInitial(xs[1..]))
  }

  predicate FirstRetry(xs: seq<Action>, i: nat) {
    i < |xs| && xs[i].Retry? && forall j :: 0 <= j < i ==> !xs[j].Retry?
  }

  /** The first Retry names `dcid`, with Initial packets asked for under installed keys before it and since. */
  predicate HandsBack(xs: seq<Action>, dcid: nat) {
    exists i :: 0 <= i < |xs| && FirstRetry(xs, i) && xs[i].scid == dcid &&
      SendsInitial(xs[..i]) && SendsInitial(xs[i + 1..])
  }

  /** A stretch of events without an effective Retry. */
  lemma {:induction false} Stretch(s: State, xs: seq<Action>)
    requires s.client && !s.retried ==> forall i :: 0 <= i < |xs| ==> !xs[i].Retry?
    ensures var t := Exec(s, xs);
      && t.client == s.client && t.retried == s.retried && t.retry == s.retry && t.original == s.original
      && t.sentBefore == s.sentBefore
      && (t.nextPn.initial > 0 <==> s.nextPn.initial > 0 || (s.initial.Installed? && SendsInitial(xs)))
    decreases |xs|
  {
    if xs != [] {
      StretchStep(s, xs[0]);
      Stretch(Apply(s, xs[0]), xs[1..]);
    }
  }

  lemma StretchStep(s: State, x: Action)
    requires s.client && !s.retried ==> !x.Retry?
    ensures var t := Apply(s, x);
      && t.client == s.client && t.retried == s.retried && t.retry == s.retry && t.original == s.original
      && t.sentBefore == s.sentBefore
      && (t.nextPn.initial > 0 <==> s.nextPn.initial > 0 || (s.initial.Installed? && x == Build(Initial)))
      && (t.initial.Installed? <==> s.initial.Installed? && x != DiscardInitial)
  {
    match x
    case Build(space) =>
    case UpdateKeys =>
    case _ =>
  }

  lemma {:induction false} ExecSplit(s: State, xs: seq<Action>, ys: seq<Action>)
    ensures Exec(s, xs + ys) == Exec(Exec(s, xs), ys)
    decreases |xs|
  {
    if xs == [] {
      assert xs + ys == ys;
    } else {
      assert (xs + ys)[1..] == xs[1..] + ys;
      ExecSplit(Apply(s, xs[0]), xs[1..], ys);
    }
  }

  lemma FindRetry(xs: seq<Action>) returns (i: nat)
    ensures if i < |xs| then FirstRetry(xs, i) else forall j :: 0 <= j < |xs| ==> !xs[j].Retry?
  {
    i := 0;
    while i < |xs| && !xs[i].Retry?
      invariant i <= |xs| && forall j :: 0 <= j < i ==> !xs[j].Retry?
    {
      i := i + 1;
    }
  }

  /** The run around its first Retry. */
  lemma AroundRetry(dcid: nat, xs: seq<Action>, i: nat)
    requires FirstRetry(xs, i)
    ensures ReusedInitialKeys(Exec(Start(true, dcid), xs)) <==>
      xs[i].scid == dcid && SendsInitial(xs[..i]) && SendsInitial(xs[i + 1..])
  {
    hide Exec, SendsInitial;
    var s1 := Exec(Start(true, dcid), xs[..i]);
    var s2 := Apply(s1, xs[i]);
    Stretch(Start(true, dcid), xs[..i]);
    Stretch(s2, xs[i + 1..]);
    assert xs == xs[..i] + xs[i..];
    ExecSplit(Start(true, dcid), xs[..i], xs[i..]);
    ExecCons(s1, xs[i..]);
    assert xs[i..][1..] == xs[i + 1..];
  }

  lemma ExecCons(s: State, xs: seq<Action>)
    requires xs != []
    ensures Exec(s, xs) == Exec(Apply(s, xs[0]), xs[1..])
  {
  }

  lemma ReusedIs(client: bool, dcid: nat, xs: seq<Action>)
    ensures ReusedInitialKeys(Exec(Start(client, dcid), xs)) <==> client && HandsBack(xs, dcid)
  {
    hide Exec, SendsInitial, Apply;
    var i := FindRetry(xs);
    if client && i < |xs| {
      AroundRetry(dcid, xs, i);
      assert forall j :: 0 <= j < |xs| && FirstRetry(xs, j) ==> j == i;
    } else {
      Stretch(Start(client, dcid), xs);
    }
  }

  /** Over every run, through refusals, key updates, failed trial decryptions, the switch to 1-RTT and the single Retry:
      numbers are never repeated under a key, except exactly when a client's first Retry hands back the original
      connection ID and Initial packets are sent on both sides of it. */
  lemma UniqueExactly(client: bool, dcid: nat, xs: seq<Action>)
    ensures NoRepeat(Exec(Start(client, dcid), xs).sent) <==> !(client && HandsBack(xs, dcid))
  {
    hide Inv, Apply, NoRepeat, ReusedInitialKeys, HandsBack, Exec;
    StartInv(client, dcid);
    ExecInv(Start(client, dcid), xs);
    ReusedIs(client, dcid, xs);
    var s := Exec(Start(client, dcid), xs);
    if ReusedInitialKeys(s) {
      ReuseRepeats(s);
    } else {
      NoReuseNoRepeat(s);
    }
  }

  /** In particular a Retry with any other connection ID, and every server, never repeats. */
  lemma UniqueUnlessSameCid(client: bool, dcid: nat, xs: seq<Action>)
    requires client ==> Retry(dcid) !in xs
    ensures NoRepeat(Exec(Start(client, dcid), xs).sent)
  {
    hide Exec, NoRepeat, SendsInitial;
    UniqueExactly(client, dcid, xs);
    assert forall i :: 0 <= i < |xs| ==> xs[i] in xs;
  }

  /** The failing run: an Initial packet, a Retry naming the same connection ID, another Initial packet. */
  lemma SameCidRepeats(dcid: nat)
    ensures !NoRepeat(Exec(Start(true, dcid), [Build(Initial), Retry(dcid), Build(Initial)]).sent)
  {
    var xs := [Build(Initial), Retry(dcid), Build(Initial)];
    var s := Start(true, dcid);
    var s1 := Apply(s, xs[0]);
    var s2 := Apply(s1, xs[1]);
    var t := Apply(s2, xs[2]);
    assert Exec(t, xs[3..]) == t;
    assert Exec(s2, xs[2..]) == Exec(t, xs[2..][1..]) && xs[2..][1..] == xs[3..];
    assert Exec(s1, xs[1..]) == Exec(s2, xs[1..][1..]) && xs[1..][1..] == xs[2..];
    assert t.sent[0] == Packet(InitialKey(dcid), 0, false) && t.sent[1] == Packet(InitialKey(dcid), 0, true);
  }
}
