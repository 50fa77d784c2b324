/** Garbage bags of one reactor: three intrusive lists indexed by `epoch % 3`, refined
    to a plain collection of (epoch, allocation) pairs. */
module EpochBags {

  // ---- Specification: tagged entries in three bags ----

  datatype Entry<A> = Entry(tag: nat, alloc: A)

  type Bags<A> = b: seq<seq<Entry<A>>> | |b| == 3 witness [[], [], []]

  ghost function EmptyBags<A>(): Bags<A> { [[], [], []] }

  /** A deferral at `epoch` is pushed at the head of bag `epoch % 3`. */
  ghost function Defer<A>(b: Bags<A>, epoch: nat, a: A): Bags<A> {
    b[epoch % 3 := [Entry(epoch, a)] + b[epoch % 3]]
  }

  /** Number of bags the replay loop visits, capped at the number of slots. A current epoch below the old one
      would be a huge wrapped distance. */
  function Advances(oldEpoch: nat, current: nat): nat {
    if oldEpoch <= current && current - oldEpoch < 3 then current - oldEpoch else 3
  }

  /** Slot drained by the `i`-th replayed advance after `oldEpoch`. */
  function Slot(oldEpoch: nat, i: nat): nat { (oldEpoch + 1 + i + 1) % 3 }

  ghost function Drain<A>(b: Bags<A>, oldEpoch: nat, n: nat): Bags<A> {
    if n == 0 then b else Drain(b, oldEpoch, n - 1)[Slot(oldEpoch, n - 1) := []]
  }

  ghost function Drained<A>(b: Bags<A>, oldEpoch: nat, n: nat): seq<Entry<A>> {
    if n == 0 then [] else Drained(b, oldEpoch, n - 1) + Drain(b, oldEpoch, n - 1)[Slot(oldEpoch, n - 1)]
  }

  ghost function Reclaim<A>(b: Bags<A>, oldEpoch: nat, current: nat): Bags<A> {
    Drain(b, oldEpoch, Advances(oldEpoch, current))
  }

  ghost function Reclaimed<A>(b: Bags<A>, oldEpoch: nat, current: nat): seq<Entry<A>> {
    Drained(b, oldEpoch, Advances(oldEpoch, current))
  }

  // ---- Reference: a plain collection filtered by the E+2 rule ----

  ghost function All<A>(b: Bags<A>): seq<Entry<A>> { b[0] + b[1] + b[2] }

  ghost predicate Expired(e: Entry, current: nat) { e.tag + 2 <= current }

  ghost function Select<A>(s: seq<Entry<A>>, current: nat, expired: bool): seq<Entry<A>> {
    if s == [] then []
    else (if Expired(s[0], current) == expired then [s[0]] else []) + Select(s[1..], current, expired)
  }

  /** At local epoch `at`, bag `i` only holds entries tagged `at` or `at - 1`, in their own slot. */
  ghost predicate Current<A>(b: Bags<A>, at: nat) {
    forall i, k :: 0 <= i < 3 && 0 <= k < |b[i]| ==>
      && b[i][k].tag % 3 == i
      && b[i][k].tag <= at <= b[i][k].tag + 1
  }

  lemma {:induction false} SelectConcat<A>(s: seq<Entry<A>>, t: seq<Entry<A>>, current: nat, expired: bool)
    ensures Select(s + t, current, expired) == Select(s, current, expired) + Select(t, current, expired)
  {
    if s == [] {
      assert s + t == t;
    } else {
      assert (s + t)[1..] == s[1..] + t;
      SelectConcat(s[1..], t, current, expired);
    }
  }

  lemma {:induction false} SelectUniform<A>(s: seq<Entry<A>>, current: nat, expired: bool)
    requires forall k :: 0 <= k < |s| ==> (Expired(s[k], current) <==> expired)
    ensures Select(s, current, expired) == s
    ensures Select(s, current, !expired) == []
  {
    if s != [] {
      SelectUniform(s[1..], current, expired);
    }
  }

  /** Which epoch owns slot `i` at local epoch `at`. */
  lemma SlotOwner(at: nat, t: nat)
    requires t == at || t + 1 == at
    ensures t % 3 == if t == at then at % 3 else (at + 2) % 3
    ensures at % 3 != (at + 1) % 3 && at % 3 != (at + 2) % 3 && (at + 1) % 3 != (at + 2) % 3
  {
  }

  /** In a current state every bag holds one tag: `at` in its own slot, `at - 1` in the slot before it, and
      nothing in the third. */
  lemma SingleTagPerBag<A>(b: Bags<A>, at: nat, k: nat)
    requires Current(b, at)
    ensures k < |b[at % 3]| ==> b[at % 3][k].tag == at
    ensures k < |b[(at + 2) % 3]| ==> b[(at + 2) % 3][k].tag + 1 == at
    ensures b[(at + 1) % 3] == []
  {
    if k < |b[at % 3]| {
      SlotOwner(at, b[at % 3][k].tag);
    }
    if k < |b[(at + 2) % 3]| {
      SlotOwner(at, b[(at + 2) % 3][k].tag);
    }
    if b[(at + 1) % 3] != [] {
      SlotOwner(at, b[(at + 1) % 3][0].tag);
      assert false;
    }
  }

  lemma SelectAll<A>(b: Bags<A>, current: nat, expired: bool)
    ensures Select(All(b), current, expired)
         == Select(b[0], current, expired) + Select(b[1], current, expired) + Select(b[2], current, expired)
  {
    SelectConcat(b[0] + b[1], b[2], current, expired);
    SelectConcat(b[0], b[1], current, expired);
  }

  /** What the first `n` advances take out, slot by slot; the three slots are distinct. */
  lemma DrainByCount<A>(b: Bags<A>, o: nat)
    ensures Slot(o, 0) == (o + 2) % 3 && Slot(o, 1) == o % 3 && Slot(o, 2) == (o + 1) % 3
    ensures Drain(b, o, 0) == b && Drained(b, o, 0) == []
    ensures Drain(b, o, 1) == b[(o + 2) % 3 := []] && Drained(b, o, 1) == b[(o + 2) % 3]
    ensures Drain(b, o, 2) == b[(o + 2) % 3 := []][o % 3 := []]
    ensures Drained(b, o, 2) == b[(o + 2) % 3] + b[o % 3]
    ensures Drain(b, o, 3) == [[], [], []]
    ensures Drained(b, o, 3) == b[(o + 2) % 3] + b[o % 3] + b[(o + 1) % 3]
  {
    var s0, s1, s2 := (o + 2) % 3, o % 3, (o + 1) % 3;
    assert s0 != s1 && s1 != s2 && s0 != s2;
    assert Slot(o, 0) == s0 && Slot(o, 1) == s1 && Slot(o, 2) == s2;
    assert Drained(b, o, 1) == Drained(b, o, 0) + b[s0] == b[s0];
    var b1 := b[s0 := []];
    assert Drain(b, o, 1) == b1 && b1[s1] == b[s1];
    var b2 := b1[s1 := []];
    assert Drain(b, o, 2) == b2 && b2[s2] == b[s2];
    assert b2[s2 := []] == [[], [], []];
  }

  /** The replay visits no slot twice: as many as the epochs are apart, three at most. Epochs that are three or more
      apart, or run backwards, give up everything. */
  lemma ReplayIsCapped<A>(b: Bags<A>, o: nat, c: nat)
    ensures Advances(o, c) <= 3 && (o <= c < o + 3 ==> Advances(o, c) == c - o)
    ensures c < o || o + 3 <= c ==>
      Reclaim(b, o, c) == [[], [], []] && multiset(Reclaimed(b, o, c)) == multiset(All(b))
  {
    hide Drain, Drained, All, Slot;
    DrainByCount(b, o);
    Rotation(b, o);
  }

  lemma Rotation<A>(b: Bags<A>, o: nat)
    ensures multiset(b[(o + 2) % 3] + b[o % 3] + b[(o + 1) % 3]) == multiset(All(b))
  {
    var r := o % 3;
    if r == 0 {
      assert (o + 2) % 3 == 2 && (o + 1) % 3 == 1;
      Rotates(b[2], b[0], b[1]);
    } else if r == 1 {
      assert (o + 2) % 3 == 0 && (o + 1) % 3 == 2;
    } else {
      assert (o + 2) % 3 == 1 && (o + 1) % 3 == 0;
      Rotates(b[0], b[1], b[2]);
    }
  }

  lemma Rotates<A>(a: seq<Entry<A>>, b: seq<Entry<A>>, c: seq<Entry<A>>)
    ensures multiset(a + b + c) == multiset(b + c + a)
  {
  }

  lemma BagUniform<A>(b: Bags<A>, o: nat, c: nat, i: nat)
    requires Current(b, o) && i < 3
    ensures i == (o + 2) % 3 && o + 1 <= c ==> Select(b[i], c, true) == b[i] && Select(b[i], c, false) == []
    ensures i == (o + 2) % 3 && c <= o ==> Select(b[i], c, true) == [] && Select(b[i], c, false) == b[i]
    ensures i == o % 3 && o + 2 <= c ==> Select(b[i], c, true) == b[i] && Select(b[i], c, false) == []
    ensures i == o % 3 && c <= o + 1 ==> Select(b[i], c, true) == [] && Select(b[i], c, false) == b[i]
    ensures i == (o + 1) % 3 ==> Select(b[i], c, true) == [] == Select(b[i], c, false) && b[i] == []
  {
    SlotOwner(o, o);
    var expired := if i == (o + 2) % 3 then o + 1 <= c else o + 2 <= c;
    forall k | 0 <= k < |b[i]| ensures Expired(b[i][k], c) <==> expired {
      SingleTagPerBag(b, o, k);
    }
    SingleTagPerBag(b, o, 0);
    SelectUniform(b[i], c, expired);
  }

  /** Every bag is kept whole or emptied whole, exactly as the E+2 rule says of its entries. */
  lemma ReclaimPerBag<A>(b: Bags<A>, o: nat, c: nat, i: nat)
    requires Current(b, o) && o <= c && i < 3
    ensures Reclaim(b, o, c)[i] == Select(b[i], c, false)
  {
    DrainByCount(b, o);
    SlotOwner(o, o);
    BagUniform(b, o, c, i);
  }

  /** The capped mod-3 replay refines the plain collection: for any gap, `reclaim(o, c)` frees exactly the
      entries with `tag + 2 <= c`, keeps exactly the others, and leaves the bags current for epoch `c`. */
  lemma ReclaimRefinesPlainList<A>(b: Bags<A>, o: nat, c: nat)
    requires Current(b, o) && o <= c
    ensures multiset(Reclaimed(b, o, c)) == multiset(Select(All(b), c, true))
    ensures multiset(All(Reclaim(b, o, c))) == multiset(Select(All(b), c, false))
    ensures Current(Reclaim(b, o, c), c)
  {
    ReclaimedInOrder(b, o, c);
    RotatedSelect(b, o, c);
    SelectAll(b, c, true);
    KeptInPlace(b, o, c);
    KeptStayCurrent(b, o, c);
  }

  lemma RotatedSelect<A>(b: Bags<A>, o: nat, c: nat)
    ensures multiset(Select(b[(o + 2) % 3], c, true) + Select(b[o % 3], c, true) + Select(b[(o + 1) % 3], c, true))
         == multiset(Select(b[0], c, true) + Select(b[1], c, true) + Select(b[2], c, true))
  {
    Rotated((i: nat) requires i < 3 => multiset(Select(b[i], c, true)), o);
  }

  lemma Rotated<T>(f: nat --> multiset<T>, o: nat)
    requires f.requires(0) && f.requires(1) && f.requires(2)
    ensures f.requires((o + 2) % 3) && f.requires(o % 3) && f.requires((o + 1) % 3)
    ensures f((o + 2) % 3) + f(o % 3) + f((o + 1) % 3) == f(0) + f(1) + f(2)
  {
    SlotOwner(o, o);
    if o % 3 == 0 {
      assert (o + 1) % 3 == 1 && (o + 2) % 3 == 2;
    } else if o % 3 == 1 {
      assert (o + 1) % 3 == 2 && (o + 2) % 3 == 0;
    } else {
      assert (o + 1) % 3 == 0 && (o + 2) % 3 == 1;
    }
  }

  lemma KeptInPlace<A>(b: Bags<A>, o: nat, c: nat)
    requires Current(b, o) && o <= c
    ensures All(Reclaim(b, o, c)) == Select(All(b), c, false)
  {
    SelectAll(b, c, false);
    ReclaimPerBag(b, o, c, 0);
    ReclaimPerBag(b, o, c, 1);
    ReclaimPerBag(b, o, c, 2);
  }

  /** The freed entries, in the order the replay visits the slots. */
  lemma ReclaimedInOrder<A>(b: Bags<A>, o: nat, c: nat)
    requires Current(b, o) && o <= c
    ensures Reclaimed(b, o, c)
         == Select(b[(o + 2) % 3], c, true) + Select(b[o % 3], c, true) + Select(b[(o + 1) % 3], c, true)
  {
    DrainByCount(b, o);
    BagUniform(b, o, c, (o + 2) % 3);
    BagUniform(b, o, c, o % 3);
    BagUniform(b, o, c, (o + 1) % 3);
  }

  lemma KeptStayCurrent<A>(b: Bags<A>, o: nat, c: nat)
    requires Current(b, o) && o <= c
    ensures Current(Reclaim(b, o, c), c)
  {
    var r := Reclaim(b, o, c);
    forall i, k | 0 <= i < 3 && 0 <= k < |r[i]|
      ensures r[i][k].tag % 3 == i && r[i][k].tag <= c <= r[i][k].tag + 1
    {
      ReclaimPerBag(b, o, c, i);
      SelectMembers(b[i], c, false, r[i][k]);
    }
  }

  // ---- Every run of one reactor's bags ----

  datatype Op<A> = DeferOp(a: A) | AdvanceOp(to: nat)

  /** Local epoch, bags, and the histories of deferred and freed entries. */
  datatype Garbage<A> = Garbage(at: nat, bags: Bags<A>, deferred: seq<Entry<A>>, freed: seq<Entry<A>>)

  /** `deferred_delete` tags with the local epoch; `pin`/`repin` reclaim and move the local epoch forward. */
  ghost function Step<A>(g: Garbage<A>, op: Op<A>): Garbage<A> {
    match op
    case DeferOp(a) => g.(bags := Defer(g.bags, g.at, a), deferred := g.deferred + [Entry(g.at, a)])
    case AdvanceOp(to) =>
      if to <= g.at then g
      else g.(at := to, bags := Reclaim(g.bags, g.at, to), freed := g.freed + Reclaimed(g.bags, g.at, to))
  }

  ghost function Run<A>(g: Garbage<A>, ops: seq<Op<A>>): Garbage<A> {
    if ops == [] then g else Step(Run(g, ops[..|ops| - 1]), ops[|ops| - 1])
  }

  ghost function Start<A>(at: nat): Garbage<A> { Garbage(at, EmptyBags(), [], []) }

  ghost predicate Conserved<A>(g: Garbage<A>) {
    multiset(g.freed) + multiset(All(g.bags)) == multiset(g.deferred)
  }

  lemma {:induction false} SelectSplits<A>(s: seq<Entry<A>>, c: nat)
    ensures multiset(Select(s, c, true)) + multiset(Select(s, c, false)) == multiset(s)
  {
    if s != [] {
      SelectSplits(s[1..], c);
      assert s == [s[0]] + s[1..];
    }
  }

  lemma {:induction false} SelectMembers<A>(s: seq<Entry<A>>, c: nat, expired: bool, e: Entry<A>)
    ensures e in Select(s, c, expired) <==> e in s && Expired(e, c) == expired
  {
    if s != [] {
      SelectMembers(s[1..], c, expired, e);
      assert e in s <==> e == s[0] || e in s[1..];
    }
  }

  lemma ReclaimMembers<A>(b: Bags<A>, o: nat, c: nat, e: Entry<A>)
    requires Current(b, o) && o <= c
    ensures e in Reclaimed(b, o, c) <==> e in All(b) && Expired(e, c)
    ensures e in All(Reclaim(b, o, c)) <==> e in All(b) && !Expired(e, c)
  {
    ReclaimRefinesPlainList(b, o, c);
    SelectMembers(All(b), c, true, e);
    SelectMembers(All(b), c, false, e);
    assert e in Reclaimed(b, o, c) <==> e in multiset(Reclaimed(b, o, c));
    assert e in All(Reclaim(b, o, c)) <==> e in multiset(All(Reclaim(b, o, c)));
  }

  lemma DeferAdds<A>(b: Bags<A>, at: nat, a: A)
    requires Current(b, at)
    ensures Current(Defer(b, at, a), at)
    ensures multiset(All(Defer(b, at, a))) == multiset(All(b)) + multiset{Entry(at, a)}
  {
    var i := at % 3;
    assert Defer(b, at, a)[i][1..] == b[i];
  }

  lemma DeferMembers<A>(b: Bags<A>, at: nat, a: A, e: Entry<A>)
    requires Current(b, at)
    ensures e in All(Defer(b, at, a)) <==> e in All(b) || e == Entry(at, a)
  {
    DeferAdds(b, at, a);
    assert e in All(Defer(b, at, a)) <==> e in multiset(All(Defer(b, at, a)));
    assert e in All(b) <==> e in multiset(All(b));
  }

  /** In every run the bags stay current, nothing is freed before its epoch is two behind, and freed plus
      still-bagged entries are exactly the deferred ones: draining the bags at final drop frees each
      deferred allocation exactly once. */
  lemma {:induction false} EveryRunFreesOnce<A>(at: nat, ops: seq<Op<A>>)
    ensures var g := Run(Start<A>(at), ops);
            && Current(g.bags, g.at)
            && Conserved(g)
            && (forall e :: e in g.freed ==> Expired(e, g.at))
            && (forall e :: e in All(g.bags) ==> !Expired(e, g.at))
  {
    if ops != [] {
      EveryRunFreesOnce(at, ops[..|ops| - 1]);
      StepConserves(Run(Start<A>(at), ops[..|ops| - 1]), ops[|ops| - 1]);
    }
  }

  lemma StepConserves<A>(g: Garbage<A>, op: Op<A>)
    requires Current(g.bags, g.at) && Conserved(g)
    requires forall e :: e in g.freed ==> Expired(e, g.at)
    ensures Current(Step(g, op).bags, Step(g, op).at) && Conserved(Step(g, op))
    ensures forall e :: e in Step(g, op).freed ==> Expired(e, Step(g, op).at)
    ensures forall e :: e in All(Step(g, op).bags) ==> !Expired(e, Step(g, op).at)
  {
    hide Select, Reclaim, Reclaimed, All, Current;
    match op
    case DeferOp(a) =>
      DeferAdds(g.bags, g.at, a);
      BaggedUnexpired(Step(g, op).bags, g.at);
    case AdvanceOp(to) =>
      if g.at < to {
        ReclaimRefinesPlainList(g.bags, g.at, to);
        SelectSplits(All(g.bags), to);
        BaggedUnexpired(Step(g, op).bags, to);
        forall e | e in Reclaimed(g.bags, g.at, to) ensures Expired(e, to) {
          ReclaimMembers(g.bags, g.at, to, e);
        }
      } else {
        BaggedUnexpired(g.bags, g.at);
      }
  }

  lemma BaggedUnexpired<A>(b: Bags<A>, at: nat)
    requires Current(b, at)
    ensures forall e :: e in All(b) ==> !Expired(e, at)
  {
    forall e | e in All(b) ensures !Expired(e, at) {
      var i, k :| 0 <= i < 3 && 0 <= k < |b[i]| && b[i][k] == e;
    }
  }

  // ---- The intrusive lists and the three-bag object ----

  /** A dropped allocation whose own memory holds the list link. */
  class Allocation {
    var next: Allocation?

    constructor ()
      ensures next == null
    {
      next := null;
    }
  }

  ghost predicate Distinct(c: seq<Allocation>) {
    forall i, j :: 0 <= i < j < |c| ==> c[i] != c[j]
  }

  class DeferredList {
    var head: Allocation?
    ghost var chain: seq<Allocation>

    /** `chain` is the list reached from `head` by `next`, without repeats. */
    ghost predicate Valid()
      reads this, chain
    {
      && (chain == [] ==> head == null)
      && (chain != [] ==> head == chain[0] && chain[|chain| - 1].next == null)
      && Distinct(chain)
      && (forall i, j :: 0 <= i && j == i + 1 && j < |chain| ==> chain[i].next == chain[j])
    }

    constructor ()
      ensures Valid() && chain == []
    {
      head := null;
      chain := [];
    }

    method Append(node: Allocation)
      requires Valid() && node !in chain
      modifies this, node
      ensures Valid() && chain == [node] + old(chain)
    {
      node.next := head;
      head := node;
      chain := [node] + chain;
    }

    /** Walks the list, reading each link before the node is given back. */
    method Reclaim() returns (freed: seq<Allocation>)
      requires Valid()
      modifies this
      ensures Valid() && chain == [] && freed == old(chain) && Distinct(freed)
    {
      var node := head;
      freed := [];
      while node != null
        invariant |freed| <= |chain| && freed == chain[..|freed|]
        invariant node == null <==> |freed| == |chain|
        invariant node != null ==> node == chain[|freed|]
        decreases |chain| - |freed|
      {
        var next := node.next;
        assert |freed| + 1 < |chain| ==> next == chain[|freed| + 1];
        freed := freed + [node];
        node := next;
      }
      head := null;
      chain := [];
    }
  }

  ghost function Tagged(tags: map<Allocation, nat>, c: seq<Allocation>): (t: seq<Entry<Allocation>>)
    requires forall n :: n in c ==> n in tags
    ensures |t| == |c|
  {
    seq(|c|, k requires 0 <= k < |c| => Entry(tags[c[k]], c[k]))
  }

  lemma TaggedFrame(tags: map<Allocation, nat>, c: seq<Allocation>, node: Allocation, epoch: nat)
    requires forall n :: n in c ==> n in tags && n != node
    ensures Tagged(tags[node := epoch], c) == Tagged(tags, c)
    ensures Tagged(tags[node := epoch], [node] + c) == [Entry(epoch, node)] + Tagged(tags, c)
  {
  }

  lemma TaggedConcat(tags: map<Allocation, nat>, c: seq<Allocation>, d: seq<Allocation>)
    requires forall n :: n in c || n in d ==> n in tags
    ensures Tagged(tags, c + d) == Tagged(tags, c) + Tagged(tags, d)
  {
  }

  class EpochGenerations {
    const bag0: DeferredList
    const bag1: DeferredList
    const bag2: DeferredList
    ghost var tags: map<Allocation, nat>

    function Bag(i: nat): DeferredList
      requires i < 3
    {
      if i == 0 then bag0 else if i == 1 then bag1 else bag2
    }

    ghost predicate Valid()
      reads this, bag0, bag1, bag2, bag0.chain, bag1.chain, bag2.chain
    {
      && bag0 != bag1 && bag0 != bag2 && bag1 != bag2
      && bag0.Valid() && bag1.Valid() && bag2.Valid()
      && (forall n :: n in bag0.chain ==> n in tags && n !in bag1.chain && n !in bag2.chain)
      && (forall n :: n in bag1.chain ==> n in tags && n !in bag2.chain)
      && (forall n :: n in bag2.chain ==> n in tags)
    }

    /** The three lists as tagged bags. */
    ghost function View(): Bags<Allocation>
      reads this, bag0, bag1, bag2, bag0.chain, bag1.chain, bag2.chain
      requires Valid()
    {
      [Tagged(tags, bag0.chain), Tagged(tags, bag1.chain), Tagged(tags, bag2.chain)]
    }

    constructor ()
      ensures Valid() && View() == EmptyBags()
    {
      bag0 := new DeferredList();
      bag1 := new DeferredList();
      bag2 := new DeferredList();
      tags := map[];
    }

    method DeferAt(epoch: nat, node: Allocation)
      requires Valid()
      requires node !in bag0.chain && node !in bag1.chain && node !in bag2.chain
      modifies this`tags, bag0, bag1, bag2, node
      ensures Valid() && View() == Defer(old(View()), epoch, node)
    {
      hide Tagged;
      TaggedFrame(tags, bag0.chain, node, epoch);
      TaggedFrame(tags, bag1.chain, node, epoch);
      TaggedFrame(tags, bag2.chain, node, epoch);
      Bag(epoch % 3).Append(node);
      tags := tags[node := epoch];
    }

    method ReclaimBag(slot: nat) returns (freed: seq<Allocation>)
      requires Valid() && slot < 3
      modifies bag0, bag1, bag2
      ensures Valid() && View() == old(View())[slot := []]
      ensures forall n :: n in freed ==> n in tags
      ensures Tagged(tags, freed) == old(View())[slot]
    {
      freed := Bag(slot).Reclaim();
    }

    /** Replays every advance from `oldEpoch` to `current`, at most three of them. */
    method ReclaimBetween(oldEpoch: nat, current: nat) returns (freed: seq<Allocation>)
      requires Valid()
      modifies bag0, bag1, bag2
      ensures Valid() && View() == Reclaim(old(View()), oldEpoch, current)
      ensures forall n :: n in freed ==> n in tags
      ensures Tagged(tags, freed) == Reclaimed(old(View()), oldEpoch, current)
    {
      freed := [];
      for i := 0 to Advances(oldEpoch, current)
        invariant Valid() && View() == Drain(old(View()), oldEpoch, i)
        invariant forall n :: n in freed ==> n in tags
        invariant Tagged(tags, freed) == Drained(old(View()), oldEpoch, i)
      {
        var epoch := oldEpoch + 1 + i;
        var chunk := ReclaimBag((epoch + 1) % 3);
        TaggedConcat(tags, freed, chunk);
        freed := freed + chunk;
      }
    }

    /** Dropping the counter drops the three lists, each of which drains itself. */
    method DropAll() returns (freed: seq<Allocation>)
      requires Valid()
      modifies bag0, bag1, bag2
      ensures Valid() && View() == EmptyBags()
      ensures forall n :: n in freed ==> n in tags
      ensures Tagged(tags, freed) == All(old(View()))
    {
      var f0 := ReclaimBag(0);
      var f1 := ReclaimBag(1);
      var f2 := ReclaimBag(2);
      TaggedConcat(tags, f0, f1);
      TaggedConcat(tags, f0 + f1, f2);
      freed := f0 + f1 + f2;
    }
  }
}
