/** The frame queue of a connection and the pass that turns it into packets, space by space. */
module SendPath {
  import opened FrameSplitting
  import opened Packetiser

  const SPACES: nat := 3

  /** Initial, Handshake, ApplicationData. */
  type Space = s: nat | s < SPACES

  datatype Queued = Queued(space: Space, frame: Frame)

  /** What a space may send: nothing without keys, everything, or only frames allowed in 0-RTT. */
  datatype Kind = NoKeys | Keyed | ZeroRtt

  predicate FrameAllowedInZeroRtt(f: Frame) {
    match f
    case Crypto(_, _) => false
    case Stream(_, _, _, _) => true
    case Control(kind, _, _) =>
      match kind
      case Ack => false
      case HandshakeDone => false
      case NewToken => false
      case PathResponse => false
      case RetireConnectionId => false
      case OtherKind => true
  }

  // ---- One queue seen as three ----

  function Select(q: seq<Queued>, s: Space): seq<Frame> {
    if q == [] then [] else Select(q[..|q| - 1], s) + OneFrame(q[|q| - 1], s)
  }

  function OneFrame(x: Queued, s: Space): seq<Frame> { if x.space == s then [x.frame] else [] }

  function Without(q: seq<Queued>, s: Space): seq<Queued> {
    if q == [] then [] else Without(q[..|q| - 1], s) + OneOther(q[|q| - 1], s)
  }

  function OneOther(x: Queued, s: Space): seq<Queued> { if x.space == s then [] else [x] }

  function Tagged(s: Space, fs: seq<Frame>): (r: seq<Queued>)
    ensures |r| == |fs|
  {
    seq(|fs|, i requires 0 <= i < |fs| => Queued(s, fs[i]))
  }

  lemma Assoc<T>(a: seq<T>, b: seq<T>, c: seq<T>)
    ensures (a + b) + c == a + (b + c)
  {
  }

  lemma {:induction false} SelectConcat(a: seq<Queued>, b: seq<Queued>, s: Space)
    ensures Select(a + b, s) == Select(a, s) + Select(b, s)
    decreases |b|
  {
    hide OneFrame;
    if b == [] {
      assert a + b == a;
    } else {
      var b', x := b[..|b| - 1], b[|b| - 1];
      assert (a + b)[..|a + b| - 1] == a + b';
      SelectConcat(a, b', s);
      Assoc(Select(a, s), Select(b', s), OneFrame(x, s));
    }
  }

  lemma SelectOne(x: Queued, s: Space)
    ensures Select([x], s) == OneFrame(x, s)
  {
    assert [x][..0] == [];
  }

  lemma {:induction false} SelectWithout(q: seq<Queued>, s: Space, t: Space)
    ensures Select(Without(q, s), t) == if s == t then [] else Select(q, t)
    decreases |q|
  {
    if q != [] {
      var q', x := q[..|q| - 1], q[|q| - 1];
      SelectWithout(q', s, t);
      SelectConcat(Without(q', s), OneOther(x, s), t);
      SelectOne(x, t);
    }
  }

  lemma {:induction false} SelectTagged(fs: seq<Frame>, s: Space, t: Space)
    ensures Select(Tagged(s, fs), t) == if s == t then fs else []
    decreases |fs|
  {
    if fs != [] {
      var fs' := fs[..|fs| - 1];
      SelectTagged(fs', s, t);
      assert Tagged(s, fs)[..|fs| - 1] == Tagged(s, fs');
      assert fs == fs' + [fs[|fs| - 1]];
    }
  }

  function Allowed(fs: seq<Frame>, yes: bool): seq<Frame> {
    if fs == [] then [] else Allowed(fs[..|fs| - 1], yes) + OneAllowed(fs[|fs| - 1], yes)
  }

  function OneAllowed(f: Frame, yes: bool): seq<Frame> { if FrameAllowedInZeroRtt(f) == yes then [f] else [] }

  lemma {:induction false} AllowedAtoms(fs: seq<Frame>)
    ensures multiset(Atoms(fs)) == multiset(Atoms(Allowed(fs, true))) + multiset(Atoms(Allowed(fs, false)))
    decreases |fs|
  {
    hide Atoms, FrameAtoms;
    AtomsNone();
    if fs != [] {
      var fs', f := fs[..|fs| - 1], fs[|fs| - 1];
      AllowedAtoms(fs');
      assert fs == fs' + [f];
      AtomsConcat(fs', [f]);
      AtomsConcat(Allowed(fs', true), OneAllowed(f, true));
      AtomsConcat(Allowed(fs', false), OneAllowed(f, false));
    }
  }

  // ---- What 0-RTT may carry ----

  /** The frames that may not be sent in 0-RTT, by section 12.5 of RFC 9000. */
  predicate Barred(f: Frame) {
    f.Crypto? || (f.Control? && f.kind in {Ack, HandshakeDone, NewToken, PathResponse, RetireConnectionId})
  }

  /** The barred frames of a queue, in order. */
  function Held(fs: seq<Frame>): seq<Frame> { if fs == [] then [] else OneHeld(fs[0]) + Held(fs[1..]) }

  function OneHeld(f: Frame): seq<Frame> { if Barred(f) then [f] else [] }

  ghost predicate NoneBarred(fs: seq<Frame>) { forall i :: 0 <= i < |fs| ==> !Barred(fs[i]) }

  lemma {:induction false} HeldSnoc(fs: seq<Frame>, f: Frame)
    ensures Held(fs + [f]) == Held(fs) + OneHeld(f)
    decreases |fs|
  {
    hide OneHeld;
    if fs == [] {
      assert [f][1..] == [];
    } else {
      assert (fs + [f])[1..] == fs[1..] + [f];
      HeldSnoc(fs[1..], f);
      Assoc(OneHeld(fs[0]), Held(fs[1..]), OneHeld(f));
    }
  }

  /** The frames set aside are the barred ones, in order; none of the others is barred. */
  lemma {:induction false} AllowedIs(fs: seq<Frame>)
    ensures Allowed(fs, false) == Held(fs) && NoneBarred(Allowed(fs, true))
    decreases |fs|
  {
    hide Held;
    if fs == [] {
      NothingHeld();
    } else {
      var front, f := fs[..|fs| - 1], fs[|fs| - 1];
      AllowedIs(front);
      HeldSnoc(front, f);
      assert fs == front + [f];
    }
  }

  lemma NothingHeld()
    ensures Held([]) == []
  {
  }

  // ---- What one pass does to one space ----

  function Outcome(kind: Kind, frames: seq<Frame>, maxPayload: nat -> nat, gate: nat -> bool): Passed {
    match kind
    case NoKeys => Passed([], frames, [])
    case Keyed => Pass(frames, maxPayload, gate, 0)
    case ZeroRtt =>
      var p := Pass(Allowed(frames, true), maxPayload, gate, 0);
      p.(left := Allowed(frames, false) + p.left)
  }

  /** In every space the content queued equals the content sent, kept and lost. */
  lemma OutcomeAccounts(kind: Kind, frames: seq<Frame>, maxPayload: nat -> nat, gate: nat -> bool)
    ensures var p := Outcome(kind, frames, maxPayload, gate);
      multiset(Atoms(frames)) == multiset(Atoms(Flat(p.packets))) + multiset(Atoms(p.left)) + multiset(Atoms(p.lost))
  {
    hide Atoms, Flat, Pass, Allowed;
    AtomsNone();
    FlatNone();
    if kind == Keyed {
      PassAccounts(frames, maxPayload, gate, 0);
    } else if kind == ZeroRtt {
      AllowedAtoms(frames);
      PassAccounts(Allowed(frames, true), maxPayload, gate, 0);
      AtomsConcat(Allowed(frames, false), Pass(Allowed(frames, true), maxPayload, gate, 0).left);
    }
  }

  // ---- The loops ----

  /** No `encode` error: every offset the frame reaches fits a variable-length integer. */
  predicate Sendable(f: Frame) {
    match f
    case Crypto(offset, data) => offset + |data| <= VARINT_MAX
    case Stream(streamId, offset, _, data) => streamId <= VARINT_MAX && offset + |data| <= VARINT_MAX
    case Control(_, _, _) => true
  }

  /** Just then the frame and every tail that splitting may leave of it encode. */
  lemma SendableExactly(f: Frame)
    ensures Sendable(f) <==>
      Encodable(f) && (IsData(f) ==> forall n: nat :: n <= |f.data| ==> Encodable(Tail(f, n)))
  {
    if IsData(f) && Encodable(f) {
      assert Encodable(Tail(f, |f.data|)) <==> Sendable(f);
    }
  }

  ghost predicate AllSendable(fs: seq<Frame>) {
    forall f :: f in fs ==> Sendable(f)
  }

  lemma SendableApart(fs: seq<Frame>)
    requires fs != [] && AllSendable(fs)
    ensures Sendable(fs[0]) && AllSendable(fs[1..])
  {
    hide Sendable;
  }

  lemma SendableJoin(a: seq<Frame>, b: seq<Frame>)
    requires AllSendable(a) && AllSendable(b)
    ensures AllSendable(a + b)
  {
    hide Sendable;
  }

  lemma NoneSendable()
    ensures AllSendable([])
  {
  }

  lemma SendableOne(f: Frame)
    requires Sendable(f)
    ensures AllSendable([f])
  {
  }

  /** What the loop keeps of its frames: none of them stops encoding. */
  lemma SendableTaken(taken: seq<Frame>, rest: seq<Frame>)
    requires rest != [] && AllSendable(taken) && AllSendable(rest)
    ensures AllSendable(taken + [rest[0]]) && AllSendable(rest[1..])
  {
    hide Sendable, AllSendable;
    SendableApart(rest);
    SendableOne(rest[0]);
    SendableJoin(taken, [rest[0]]);
  }

  lemma SendableCut(taken: seq<Frame>, rest: seq<Frame>, n: nat)
    requires rest != [] && IsData(rest[0]) && n <= |rest[0].data| && AllSendable(taken) && AllSendable(rest)
    ensures AllSendable(taken + [Head(rest[0], n)]) && AllSendable([Tail(rest[0], n)] + rest[1..])
  {
    hide Sendable, AllSendable, Head, Tail;
    SendableApart(rest);
    SplitSendable(rest[0], n);
    SendableOne(Head(rest[0], n));
    SendableOne(Tail(rest[0], n));
    SendableJoin(taken, [Head(rest[0], n)]);
    SendableJoin([Tail(rest[0], n)], rest[1..]);
  }

  function Prepended(taken: seq<Frame>, r: Filled): Filled { r.(taken := taken + r.taken) }

  lemma PrependedOne(taken: seq<Frame>, f: Frame, r: Filled)
    ensures Prepended(taken, Prepended([f], r)) == Prepended(taken + [f], r)
  {
    assert taken + ([f] + r.taken) == taken + [f] + r.taken;
  }

  lemma FillWhole(payload: nat, frames: seq<Frame>, maxPayload: nat)
    requires frames != [] && GoesWhole(payload, frames[0], maxPayload)
    ensures Fill(payload, frames, maxPayload) ==
      Prepended([frames[0]], Fill(payload + EncodedLen(frames[0]), frames[1..], maxPayload))
  {
  }

  lemma FillStops(payload: nat, frames: seq<Frame>, maxPayload: nat)
    requires frames != [] && !GoesWhole(payload, frames[0], maxPayload)
    ensures Fill(payload, frames, maxPayload) == Stop(payload, frames[0], frames[1..], maxPayload)
  {
  }

  lemma FillNone(payload: nat, maxPayload: nat)
    ensures Fill(payload, [], maxPayload) == Filled([], [], [])
  {
  }

  /** The inner loop of `send_pending_frames`. `ok` is false when a frame does not encode. */
  method FillPacket(queue: seq<Frame>, maxPayload: nat) returns (ok: bool, taken: seq<Frame>, rest: seq<Frame>,
                                                                ghost lost: seq<Frame>)
    ensures ok ==> Filled(taken, rest, lost) == Fill(0, queue, maxPayload)
    ensures AllSendable(queue) ==> ok && AllSendable(taken) && AllSendable(rest)
  {
    hide CanSplit, SplitLen, EncodedLen, Head, Tail, Encodable, Sendable, AllSendable, Fill;
    NoneSendable();
    ok, taken, rest, lost := true, [], queue, [];
    var payload: nat := 0;
    while rest != []
      invariant ok && lost == []
      invariant Fill(0, queue, maxPayload) == Prepended(taken, Fill(payload, rest, maxPayload))
      invariant payload == 0 ==> taken == []
      invariant AllSendable(queue) ==> AllSendable(taken) && AllSendable(rest)
      decreases |rest|
    {
      var f := rest[0];
      var later := rest[1..];
      SendableEncodes(f);
      if AllSendable(queue) {
        SendableApart(rest);
        SendableTaken(taken, rest);
      }
      if !Encodable(f) {
        return false, taken, rest, lost;
      }
      var budget := SatSub(maxPayload, payload);
      if EncodedLen(f) <= budget {
        FillWhole(payload, rest, maxPayload);
        PrependedOne(taken, f, Fill(payload + EncodedLen(f), later, maxPayload));
        taken, rest, payload := taken + [f], later, payload + EncodedLen(f);
      } else if budget > 0 && IsData(f) {
        FillStops(payload, rest, maxPayload);
        var split := SplitFrame(f, budget);
        if split.Parts? {
          if AllSendable(queue) {
            SendableCut(taken, rest, SplitLen(f, budget));
          }
          taken := taken + [split.head];
          rest := [split.tail] + later;
        } else {
          rest, lost := later, [f];
        }
        return;
      } else if payload == 0 {
        FillWhole(payload, rest, maxPayload);
        PrependedOne(taken, f, Fill(payload + EncodedLen(f), later, maxPayload));
        taken, rest, payload := taken + [f], later, payload + EncodedLen(f);
      } else {
        FillStops(payload, rest, maxPayload);
        assert [f] + later == rest;
        return;
      }
    }
    FillNone(payload, maxPayload);
  }

  lemma SendableEncodes(f: Frame)
    ensures Sendable(f) ==> Encodable(f)
  {
  }

  lemma SplitSendable(f: Frame, n: nat)
    requires IsData(f) && n <= |f.data|
    ensures Sendable(f) ==> Sendable(Head(f, n)) && Sendable(Tail(f, n))
  {
  }

  function After(packets: seq<seq<Frame>>, lost: seq<Frame>, p: Passed): Passed {
    Passed(packets + p.packets, p.left, lost + p.lost)
  }

  lemma AfterOne(packets: seq<seq<Frame>>, lost: seq<Frame>, taken: seq<Frame>, more: seq<Frame>, p: Passed)
    ensures After(packets, lost, After([taken], more, p)) == After(packets + [taken], lost + more, p)
  {
    assert packets + ([taken] + p.packets) == packets + [taken] + p.packets;
    assert lost + (more + p.lost) == lost + more + p.lost;
  }

  /** The packet loop of one space. A refused packet's frames go back to the front, in order. */
  method SendSpace(frames: seq<Frame>, maxPayload: nat -> nat, gate: nat -> bool)
    returns (ok: bool, packets: seq<seq<Frame>>, left: seq<Frame>, ghost lost: seq<Frame>)
    ensures ok ==> Passed(packets, left, lost) == Pass(frames, maxPayload, gate, 0)
    ensures AllSendable(frames) ==> ok
  {
    hide Fill, Weight;
    ok, packets, left, lost := true, [], frames, [];
    var i := 0;
    while left != []
      invariant ok
      invariant Pass(frames, maxPayload, gate, 0) == After(packets, lost, Pass(left, maxPayload, gate, i))
      invariant AllSendable(frames) ==> AllSendable(left)
      decreases Weight(left)
    {
      FillProgress(0, left, maxPayload(i));
      var filled, taken, rest;
      ghost var more;
      filled, taken, rest, more := FillPacket(left, maxPayload(i));
      if !filled {
        return false, packets, left, lost;
      }
      if taken == [] {
        left, lost := rest, lost + more;
        return;
      }
      if !gate(i) {
        left, lost := taken + rest, lost + more;
        return;
      }
      AfterOne(packets, lost, taken, more, Pass(rest, maxPayload, gate, i + 1));
      packets, left, lost, i := packets + [taken], rest, lost + more, i + 1;
    }
  }

  method Separate(q: seq<Queued>, s: Space) returns (mine: seq<Frame>, others: seq<Queued>)
    ensures mine == Select(q, s) && others == Without(q, s)
  {
    mine, others := [], [];
    for i := 0 to |q|
      invariant mine == Select(q[..i], s) && others == Without(q[..i], s)
    {
      assert q[..i + 1][..i] == q[..i];
      if q[i].space == s {
        mine := mine + [q[i].frame];
      } else {
        others := others + [q[i]];
      }
    }
    assert q[..|q|] == q;
  }

  method FilterZeroRtt(fs: seq<Frame>) returns (yes: seq<Frame>, no: seq<Frame>)
    ensures yes == Allowed(fs, true) && no == Allowed(fs, false)
    ensures no == Held(fs) && NoneBarred(yes)
  {
    AllowedIs(fs);
    yes, no := [], [];
    for i := 0 to |fs|
      invariant yes == Allowed(fs[..i], true) && no == Allowed(fs[..i], false)
    {
      assert fs[..i + 1][..i] == fs[..i];
      if FrameAllowedInZeroRtt(fs[i]) {
        yes := yes + [fs[i]];
      } else {
        no := no + [fs[i]];
      }
    }
    assert fs[..|fs|] == fs;
  }

  /** After a pass, space `s` holds what `Outcome` leaves of what it held. */
  ghost predicate SpaceDone(before: seq<Queued>, after: seq<Queued>, kind: Kind, maxPayload: nat -> nat,
                            gate: nat -> bool, packets: seq<seq<Frame>>, lost: seq<Frame>, s: Space) {
    Outcome(kind, Select(before, s), maxPayload, gate) == Passed(packets, Select(after, s), lost)
  }

  lemma SelectRequeued(q: seq<Queued>, s: Space, back: seq<Frame>, left: seq<Frame>, t: Space)
    ensures Select(Without(q, s) + Tagged(s, back) + Tagged(s, left), t) ==
      if s == t then back + left else Select(q, t)
  {
    hide Select, Without;
    SelectConcat(Without(q, s) + Tagged(s, back), Tagged(s, left), t);
    SelectConcat(Without(q, s), Tagged(s, back), t);
    SelectWithout(q, s, t);
    SelectTagged(back, s, t);
    SelectTagged(left, s, t);
  }

  class FrameQueue {
    var pending: seq<Queued>

    constructor ()
      ensures pending == []
    {
      pending := [];
    }

    /** One space's turn: take its frames out, build packets, put the rest back. */
    method SendFrom(s: Space, kind: Kind, maxPayload: nat -> nat, gate: nat -> bool)
      returns (ok: bool, packets: seq<seq<Frame>>, ghost lost: seq<Frame>)
      modifies this
      ensures AllSendable(Select(old(pending), s)) ==> ok
      ensures ok ==> SpaceDone(old(pending), pending, kind, maxPayload, gate, packets, lost, s)
      ensures ok ==> forall t: Space :: t != s ==> Select(pending, t) == Select(old(pending), t)
    {
      hide Select, Without, Pass;
      if kind == NoKeys {
        return true, [], [];
      }
      ghost var before := pending;
      var mine, others := Separate(pending, s);
      pending := others;
      ghost var back: seq<Frame> := [];
      if kind == ZeroRtt {
        AllowedSendable(mine);
        var yes, no := FilterZeroRtt(mine);
        pending := pending + Tagged(s, no);
        mine, back := yes, no;
      }
      assert pending == Without(before, s) + Tagged(s, back);
      var left;
      ok, packets, left, lost := SendSpace(mine, maxPayload, gate);
      pending := pending + Tagged(s, left);
      forall t: Space ensures Select(pending, t) == if s == t then back + left else Select(before, t) {
        SelectRequeued(before, s, back, left, t);
      }
      assert kind == Keyed ==> back + left == left;
    }

    /** All spaces in turn. */
    method SendPendingFrames(kinds: seq<Kind>, maxPayload: nat -> (nat -> nat), gate: nat -> (nat -> bool))
      returns (ok: bool, packets: seq<seq<seq<Frame>>>, ghost lost: seq<seq<Frame>>)
      requires |kinds| == SPACES
      modifies this
      ensures (forall s: Space :: AllSendable(Select(old(pending), s))) ==> ok
      ensures ok ==> |packets| == SPACES == |lost|
      ensures ok ==> forall s: Space ::
        SpaceDone(old(pending), pending, kinds[s], maxPayload(s), gate(s), packets[s], lost[s], s)
    {
      hide Select, Outcome;
      ok, packets, lost := true, [], [];
      for i := 0 to SPACES
        invariant ok && |packets| == i == |lost|
        invariant forall s: Space :: s < i ==>
          SpaceDone(old(pending), pending, kinds[s], maxPayload(s), gate(s), packets[s], lost[s], s)
        invariant forall s: Space :: s >= i ==> Select(pending, s) == Select(old(pending), s)
      {
        var sent, built;
        ghost var dropped;
        sent, built, dropped := SendFrom(i, kinds[i], maxPayload(i), gate(i));
        if !sent {
          return false, packets, lost;
        }
        packets, lost := packets + [built], lost + [dropped];
      }
    }
  }

  lemma {:induction false} AllowedSendable(fs: seq<Frame>)
    ensures AllSendable(fs) ==> AllSendable(Allowed(fs, true))
    decreases |fs|
  {
    if fs != [] {
      var fs' := fs[..|fs| - 1];
      assert fs == fs' + [fs[|fs| - 1]];
      AllowedSendable(fs');
    }
  }

  /** Whatever the keys, limits and refusals of a pass: space by space, the content queued before is the content in
      its packets, queued after, and lost. Nothing is lost, and order is kept among the frames that may be sent, exactly
      where every split attempt has room; frames held back in 0-RTT stay in order ahead of those left over. */
  lemma PassConserves(before: seq<Queued>, after: seq<Queued>, kind: Kind, maxPayload: nat -> nat, gate: nat -> bool,
                      packets: seq<seq<Frame>>, lost: seq<Frame>, s: Space)
    requires SpaceDone(before, after, kind, maxPayload, gate, packets, lost, s)
    ensures multiset(Atoms(Select(before, s))) ==
      multiset(Atoms(Flat(packets))) + multiset(Atoms(Select(after, s))) + multiset(Atoms(lost))
    ensures kind == NoKeys ==> Select(after, s) == Select(before, s) && packets == []
    ensures kind == Keyed ==>
      (Atoms(Select(before, s)) == Atoms(Flat(packets)) + Atoms(Select(after, s)) <==>
       EverySplitHasRoom(Select(before, s), maxPayload, gate, 0))
    ensures kind == ZeroRtt ==>
      (lost == [] <==> EverySplitHasRoom(Allowed(Select(before, s), true), maxPayload, gate, 0))
    ensures kind == ZeroRtt ==>
      var yes, no := Allowed(Select(before, s), true), Allowed(Select(before, s), false);
      && no <= Select(after, s)
      && (Atoms(yes) == Atoms(Flat(packets)) + Atoms(Select(after, s)[|no|..]) <==>
          EverySplitHasRoom(yes, maxPayload, gate, 0))
  {
    hide Atoms, Flat, Select, Pass, EverySplitHasRoom, Allowed;
    OutcomeAccounts(kind, Select(before, s), maxPayload, gate);
    if kind == ZeroRtt {
      var yes, no := Allowed(Select(before, s), true), Allowed(Select(before, s), false);
      PassLosesExactly(yes, maxPayload, gate, 0);
      ConservesExactly(yes, maxPayload, gate);
      assert Select(after, s)[|no|..] == Pass(yes, maxPayload, gate, 0).left;
    }
    if kind == Keyed {
      ConservesExactly(Select(before, s), maxPayload, gate);
    }
  }
}
