/** What every interleaving of the epoch protocol guarantees, and exactly when a deferral is safe for readers. */
module EpochSafety {
  import opened EpochBags
  import opened EpochProtocol

  lemma {:induction false} ExecInv(s: State, xs: seq<Action>)
    requires Inv(s) && CanRun(s, xs)
    ensures Inv(Exec(s, xs))
    decreases |xs|
  {
    if xs != [] {
      StepInv(s, xs[0]);
      ExecInv(Apply(s, xs[0]), xs[1..]);
    }
  }

  lemma ReachableInv(s: State)
    requires Reachable(s)
    ensures Inv(s)
  {
    var n: nat, xs :| CanRun(Init(n), xs) && Exec(Init(n), xs) == s;
    InitInv(n);
    ExecInv(Init(n), xs);
  }

  lemma ReachableReactor(s: State, r: nat)
    requires Reachable(s) && r < |s.reactors|
    ensures ReactorOk(s.global, s.serials, r, s.reactors[r])
  {
    ReachableInv(s);
  }

  lemma EpochsAdvance(s: State, x: Action, r: nat)
    requires Enabled(s, x) && r < |s.reactors| && ReactorOk(s.global, s.serials, r, s.reactors[r])
    ensures s.global <= Apply(s, x).global <= s.global + 1 && |Apply(s, x).reactors| == |s.reactors|
    ensures s.reactors[r].local <= Apply(s, x).reactors[r].local
  {
  }

  /** Lag bound: in every reachable state each reactor is at the global epoch or one behind, and no step moves a
      local epoch, or the global one, back. */
  lemma LagBound(s: State, x: Action, r: nat)
    requires Reachable(s) && Enabled(s, x) && r < |s.reactors|
    ensures s.global - 1 <= s.reactors[r].local <= s.global
    ensures s.global <= Apply(s, x).global <= s.global + 1 && |Apply(s, x).reactors| == |s.reactors|
    ensures s.reactors[r].local <= Apply(s, x).reactors[r].local
  {
    ReachableReactor(s, r);
    EpochsAdvance(s, x, r);
  }

  /** A step that frees is a reclaim of an entry two epochs behind the global epoch. */
  lemma FreeingStep(s: State, x: Action, a: Alloc)
    requires Inv(s) && Enabled(s, x)
    requires a !in s.freed && a in Apply(s, x).freed
    ensures x.PinReclaim? || x.RepinReclaim?
    ensures a in s.deferrals && s.deferrals[a].tag + 2 <= s.global
    ensures Apply(s, x).freed[a] == s.deferrals[a].held
  {
    if x.PinReclaim? || x.RepinReclaim? {
      ReclaimGap(s, x);
      var rec := s.reactors[x.r];
      BagsAreCurrent(s, x.r);
      ReclaimMembers(rec.bags, rec.local, s.global, Entry(s.deferrals[a].tag, a));
    } else {
      OtherStepsFreeNothing(s, x);
    }
  }

  lemma BagsAreCurrent(s: State, r: nat)
    requires BagsCurrent(s) && r < |s.reactors|
    requires s.reactors[r].pc.PinLoaded? || s.reactors[r].pc.RepinLoaded?
    ensures Current(s.reactors[r].bags, s.reactors[r].local)
  {
  }

  lemma OtherStepsFreeNothing(s: State, x: Action)
    requires Enabled(s, x) && !x.PinReclaim? && !x.RepinReclaim?
    ensures Apply(s, x).freed == s.freed
  {
  }

  /** Grace period: when a step frees an allocation tagged E, every guard that is still live, on any reactor,
      has an observed epoch above E. */
  lemma GracePeriod(s: State, x: Action, a: Alloc, g: Guard)
    requires Reachable(s) && Enabled(s, x)
    requires a !in s.freed && a in Apply(s, x).freed
    requires HasGuard(s, g)
    ensures a in s.deferrals && s.deferrals[a].tag < s.reactors[g.owner].guards[g]
  {
    ReachableInv(s);
    FreeingStep(s, x, a);
    assert ReactorOk(s.global, s.serials, g.owner, s.reactors[g.owner]);
  }

  // ---- Reader safety of one deferral ----

  /** Some reactor holds a guard while its local epoch is above the tag the deferral by `r` is about to use. */
  ghost predicate PinnedAhead(s: State, r: nat)
    requires r < |s.reactors|
  {
    exists g :: HasGuard(s, g) && s.reactors[g.owner].local > s.reactors[r].local
  }

  /** `a` was freed while a guard live at its deferral was still held, un-repinned. */
  ghost predicate FreedUnderReader(s: State, a: Alloc) {
    a in s.freed && s.freed[a] != map[]
  }

  ghost predicate SubMap(m: map<Guard, nat>, n: map<Guard, nat>) {
    forall g :: g in m ==> g in n && m[g] == n[g]
  }

  /** `a` keeps its tag, and what is held or was held at its free comes from `first`. */
  ghost predicate History(s: State, a: Alloc, tag: nat, first: map<Guard, nat>) {
    && a in s.deferrals && s.deferrals[a].tag == tag
    && SubMap(s.deferrals[a].held, first)
    && (a in s.freed ==> SubMap(s.freed[a], first))
  }

  lemma HistoryStep(s: State, x: Action, a: Alloc, tag: nat, first: map<Guard, nat>)
    requires Inv(s) && Enabled(s, x) && History(s, a, tag, first)
    ensures History(Apply(s, x), a, tag, first)
  {
    if a !in s.freed && a in Apply(s, x).freed {
      FreeingStep(s, x, a);
    }
    HistoryOfFreed(s, x, a);
  }

  /** No step touches an allocation's tag, adds to its held guards, or rewrites the record of its free. */
  lemma HistoryOfFreed(s: State, x: Action, a: Alloc)
    requires Inv(s) && Enabled(s, x) && a in s.deferrals
    ensures var t := Apply(s, x);
            && a in t.deferrals && t.deferrals[a].tag == s.deferrals[a].tag
            && SubMap(t.deferrals[a].held, s.deferrals[a].held)
            && (a in s.freed ==> a in t.freed && t.freed[a] == s.freed[a])
  {
    DeferralKept(s, x, a);
    if a in s.freed {
      FreedKept(s, x, a);
    }
  }

  lemma FreedKept(s: State, x: Action, a: Alloc)
    requires Inv(s) && Enabled(s, x) && a in s.deferrals && a in s.freed
    ensures a in Apply(s, x).freed && Apply(s, x).freed[a] == s.freed[a]
  {
    if x.PinReclaim? || x.RepinReclaim? {
      ReclaimGap(s, x);
      NotFreedAgain(s, x.r, a);
    } else {
      OtherStepsFreeNothing(s, x);
    }
  }

  lemma DeferralKept(s: State, x: Action, a: Alloc)
    requires Enabled(s, x) && a in s.deferrals
    ensures var t := Apply(s, x);
            && a in t.deferrals && t.deferrals[a].tag == s.deferrals[a].tag
            && SubMap(t.deferrals[a].held, s.deferrals[a].held)
  {
  }

  lemma NotFreedAgain(s: State, r: nat, a: Alloc)
    requires BagsCurrent(s) && BagsOk(s) && r < |s.reactors| && s.reactors[r].local <= s.global
    requires s.reactors[r].pc.PinLoaded? || s.reactors[r].pc.RepinLoaded?
    requires a in s.freed && a in s.deferrals
    ensures Entry(s.deferrals[a].tag, a) !in Reclaimed(s.reactors[r].bags, s.reactors[r].local, s.global)
  {
    var rec, e := s.reactors[r], Entry(s.deferrals[a].tag, a);
    BagsAreCurrent(s, r);
    ReclaimMembers(rec.bags, rec.local, s.global, e);
    assert Bagged(s, r, e) <==> Owed(s, r, e);
  }

  lemma {:induction false} HistoryRun(s: State, xs: seq<Action>, a: Alloc, tag: nat, first: map<Guard, nat>)
    requires Inv(s) && CanRun(s, xs) && History(s, a, tag, first)
    ensures History(Exec(s, xs), a, tag, first)
    decreases |xs|
  {
    if xs != [] {
      HistoryStep(s, xs[0], a, tag, first);
      StepInv(s, xs[0]);
      HistoryRun(Apply(s, xs[0]), xs[1..], a, tag, first);
    }
  }

  ghost predicate Reaches(s: State, t: State) {
    exists xs :: CanRun(s, xs) && Exec(s, xs) == t
  }

  /** No continuation of `t` frees `a` under a reader. */
  ghost predicate SafeForReaders(t: State, a: Alloc) {
    forall u :: Reaches(t, u) ==> !FreedUnderReader(u, a)
  }

  /** If no pinned reactor is ahead of the deferring one, no continuation frees the allocation under a reader. */
  lemma SafeIfNoneAhead(s: State, r: nat, a: Alloc)
    requires Reachable(s) && Enabled(s, DeferDelete(r, a)) && !PinnedAhead(s, r)
    ensures SafeForReaders(Apply(s, DeferDelete(r, a)), a)
  {
    ReachableInv(s);
    var t := Apply(s, DeferDelete(r, a));
    StepInv(s, DeferDelete(r, a));
    assert a !in t.freed by {
      assert FreedOk(s);
    }
    forall g | g in t.deferrals[a].held ensures t.deferrals[a].held[g] <= t.deferrals[a].tag {
      ObservedIs(s, g);
    }
    forall u | Reaches(t, u) ensures !FreedUnderReader(u, a) {
      NeverUnder(t, u, a);
    }
  }

  lemma NeverUnder(t: State, u: State, a: Alloc)
    requires Inv(t) && a in t.deferrals && a !in t.freed && Reaches(t, u)
    requires forall g :: g in t.deferrals[a].held ==> t.deferrals[a].held[g] <= t.deferrals[a].tag
    ensures !FreedUnderReader(u, a)
  {
    var xs :| CanRun(t, xs) && Exec(t, xs) == u;
    HistoryRun(t, xs, a, t.deferrals[a].tag, t.deferrals[a].held);
    ExecInv(t, xs);
  }

  lemma ObservedIs(s: State, g: Guard)
    requires ReactorsOk(s)
    ensures g in Observed(s) <==> HasGuard(s, g)
    ensures HasGuard(s, g) ==> Observed(s)[g] == s.reactors[g.owner].local
  {
    if g in LiveGuards(s) {
      var q :| 0 <= q < |s.reactors| && g in s.reactors[q].guards;
      assert ReactorOk(s.global, s.serials, q, s.reactors[q]);
    }
  }

  // ---- A schedule that frees under a reader whenever some pinned reactor is ahead ----

  lemma {:induction false} ExecConcat(s: State, xs: seq<Action>, ys: seq<Action>)
    requires CanRun(s, xs) && CanRun(Exec(s, xs), ys)
    ensures CanRun(s, xs + ys) && Exec(s, xs + ys) == Exec(Exec(s, xs), ys)
    decreases |xs|
  {
    if xs == [] {
      assert xs + ys == ys;
    } else {
      assert (xs + ys)[1..] == xs[1..] + ys;
      ExecConcat(Apply(s, xs[0]), xs[1..], ys);
    }
  }

  lemma ReachesSelf(s: State)
    ensures Reaches(s, s)
  {
    assert CanRun(s, []) && Exec(s, []) == s;
  }

  lemma ReachesStep(s: State, x: Action)
    requires Enabled(s, x)
    ensures Reaches(s, Apply(s, x))
  {
    var xs := [x];
    assert xs[1..] == [];
    assert CanRun(Apply(s, x), []);
    assert CanRun(s, xs) && Exec(s, xs) == Apply(s, x);
  }

  lemma ReachesTrans(s: State, t: State, u: State)
    requires Reaches(s, t) && Reaches(t, u)
    ensures Reaches(s, u)
  {
    var xs :| CanRun(s, xs) && Exec(s, xs) == t;
    var ys :| CanRun(t, ys) && Exec(t, ys) == u;
    ExecConcat(s, xs, ys);
  }

  /** `a` is still waiting in the bags of `r` and guard `g` has been held since its deferral. */
  ghost predicate Waiting(s: State, r: nat, a: Alloc, g: Guard) {
    && r < |s.reactors| && r != g.owner
    && a in s.deferrals && a !in s.freed && g in s.deferrals[a].held
    && s.deferrals[a].owner == r
  }

  /** The schedule moved from `s` to `t` by steps of reactor `q` alone. */
  ghost predicate Beside(s: State, t: State, q: nat, a: Alloc) {
    && Reaches(s, t)
    && t.global == s.global && t.bumps == s.bumps && |t.reactors| == |s.reactors|
    && (forall i :: 0 <= i < |s.reactors| && i != q ==> t.reactors[i] == s.reactors[i])
    && a in t.deferrals && a in s.deferrals && t.deferrals[a].tag == s.deferrals[a].tag
  }

  lemma BesideTrans(s: State, t: State, u: State, q: nat, a: Alloc)
    requires Beside(s, t, q, a) && Beside(t, u, q, a)
    ensures Beside(s, u, q, a)
  {
    ReachesTrans(s, t, u);
  }

  ghost function Actor(x: Action): nat {
    match x
    case Unpin(g) => g.owner
    case RepinLoad(g) => g.owner
    case PinNested(r) => r
    case PinLoad(r) => r
    case PinReclaim(r) => r
    case PinStore(r) => r
    case PinSame(r) => r
    case RepinReclaim(r) => r
    case RepinStore(r) => r
    case RepinNested(r) => r
    case RepinSame(r) => r
    case DeferDelete(r, a) => r
    case BumpLoad(b) => 0
    case BumpRead(b) => 0
    case BumpFinish(b) => 0
  }

  ghost predicate GuardStep(x: Action) {
    !x.DeferDelete? && !x.BumpLoad? && !x.BumpRead? && !x.BumpFinish?
  }

  /** Steps of other reactors leave guard `g` held; they leave `a` bagged unless the epoch is two past its tag. */
  lemma StepBeside(s: State, x: Action, r: nat, a: Alloc, g: Guard)
    requires Inv(s) && Enabled(s, x) && GuardStep(x) && Actor(x) != g.owner && Waiting(s, r, a, g)
    requires x.PinReclaim? || x.RepinReclaim? ==> s.global < s.deferrals[a].tag + 2
    ensures Inv(Apply(s, x)) && Waiting(Apply(s, x), r, a, g) && Beside(s, Apply(s, x), Actor(x), a)
  {
    StepInv(s, x);
    ReachesStep(s, x);
    StepKeepsHeld(s, x, a, g);
    if a in Apply(s, x).freed {
      FreeingStep(s, x, a);
      assert false;
    }
  }

  lemma StepKeepsHeld(s: State, x: Action, a: Alloc, g: Guard)
    requires Enabled(s, x) && GuardStep(x) && Actor(x) != g.owner
    requires a in s.deferrals && g in s.deferrals[a].held
    requires x.RepinStore? ==> s.reactors[x.r].pc.guard.owner == x.r
    ensures var t := Apply(s, x);
            && a in t.deferrals && g in t.deferrals[a].held && t.deferrals[a].owner == s.deferrals[a].owner
            && t.deferrals[a].tag == s.deferrals[a].tag
            && t.global == s.global && t.bumps == s.bumps && |t.reactors| == |s.reactors|
            && (forall i :: 0 <= i < |s.reactors| && i != Actor(x) ==> t.reactors[i] == s.reactors[i])
  {
  }

  /** Everything the schedule below carries along. */
  ghost predicate Stage(s: State, r: nat, a: Alloc, g: Guard) {
    Inv(s) && Waiting(s, r, a, g)
  }

  /** Finish whatever pin or repin reactor `q` is in the middle of. */
  lemma Settle(s: State, q: nat, r: nat, a: Alloc, g: Guard) returns (t: State)
    requires Stage(s, r, a, g) && q < |s.reactors| && q != g.owner
    requires s.global < s.deferrals[a].tag + 2
    ensures Stage(t, r, a, g) && Beside(s, t, q, a) && t.reactors[q].pc == Ready
    decreases match s.reactors[q].pc
      case Ready => 0
      case PinReclaimed(_) => 1
      case RepinReclaimed(_, _) => 1
      case _ => 2
  {
    hide BumpsOk, HeldOk, BagsCurrent, BagsOk, FreedOk;
    var rec := s.reactors[q];
    assert ReactorOk(s.global, s.serials, q, rec);
    if rec.pc == Ready {
      ReachesSelf(s);
      return s;
    }
    var x := match rec.pc {
      case PinLoaded(seen) => if seen == rec.local then PinSame(q) else PinReclaim(q)
      case PinReclaimed(_) => PinStore(q)
      case RepinLoaded(h, seen) =>
        if seen == rec.guards[h] then RepinSame(q) else if rec.pinCount == 1 then RepinReclaim(q) else RepinNested(q)
      case RepinReclaimed(_, _) => RepinStore(q)
    };
    StepBeside(s, x, r, a, g);
    var u := Apply(s, x);
    t := Settle(u, q, r, a, g);
    BesideTrans(s, u, t, q, a);
  }

  /** Drop every guard of reactor `q`. */
  lemma DropGuards(s: State, q: nat, r: nat, a: Alloc, g: Guard) returns (t: State)
    requires Stage(s, r, a, g) && q < |s.reactors| && q != g.owner && s.reactors[q].pc == Ready
    ensures Stage(t, r, a, g) && Beside(s, t, q, a)
    ensures t.reactors[q].pc == Ready && t.reactors[q].pinCount == 0 && t.reactors[q].local == s.reactors[q].local
    decreases s.reactors[q].pinCount
  {
    var rec := s.reactors[q];
    assert ReactorOk(s.global, s.serials, q, rec);
    if rec.pinCount == 0 {
      ReachesSelf(s);
      return s;
    }
    var h :| h in rec.guards;
    StepBeside(s, Unpin(h), r, a, g);
    var u := Apply(s, Unpin(h));
    t := DropGuards(u, q, r, a, g);
    BesideTrans(s, u, t, q, a);
  }

  /** An unpinned reactor pins and so moves to the global epoch. */
  lemma PinToGlobal(s: State, q: nat, r: nat, a: Alloc, g: Guard) returns (t: State)
    requires Stage(s, r, a, g) && q < |s.reactors| && q != g.owner
    requires s.reactors[q].pc == Ready && s.reactors[q].pinCount == 0
    requires s.global < s.deferrals[a].tag + 2
    ensures Stage(t, r, a, g) && Beside(s, t, q, a)
    ensures t.reactors[q].pc == Ready && t.reactors[q].local == s.global
  {
    hide BumpsOk, HeldOk, BagsCurrent, BagsOk, FreedOk;
    StepBeside(s, PinLoad(q), r, a, g);
    var u := Apply(s, PinLoad(q));
    assert ReactorOk(u.global, u.serials, q, u.reactors[q]);
    if u.reactors[q].local == u.global {
      StepBeside(u, PinSame(q), r, a, g);
      t := Apply(u, PinSame(q));
      BesideTrans(s, u, t, q, a);
    } else {
      StepBeside(u, PinReclaim(q), r, a, g);
      var v := Apply(u, PinReclaim(q));
      BesideTrans(s, u, v, q, a);
      StepBeside(v, PinStore(q), r, a, g);
      t := Apply(v, PinStore(q));
      BesideTrans(s, v, t, q, a);
    }
  }

  lemma CatchUp(s: State, q: nat, r: nat, a: Alloc, g: Guard) returns (t: State)
    requires Stage(s, r, a, g) && q < |s.reactors| && q != g.owner
    requires s.global < s.deferrals[a].tag + 2
    ensures Stage(t, r, a, g) && Beside(s, t, q, a)
    ensures t.reactors[q].pc == Ready && t.reactors[q].local == s.global
  {
    var u := Settle(s, q, r, a, g);
    var v := DropGuards(u, q, r, a, g);
    BesideTrans(s, u, v, q, a);
    t := PinToGlobal(v, q, r, a, g);
    BesideTrans(s, v, t, q, a);
  }

  /** Bring every reactor but the guard's own to the global epoch, one after the other. */
  lemma {:induction false} CatchUpAll(s: State, k: nat, r: nat, a: Alloc, g: Guard) returns (t: State)
    requires Stage(s, r, a, g) && g.owner < |s.reactors| && k <= |s.reactors|
    requires s.global < s.deferrals[a].tag + 2
    requires forall i :: 0 <= i < k && i != g.owner ==> s.reactors[i].local == s.global && s.reactors[i].pc == Ready
    ensures Stage(t, r, a, g) && Reaches(s, t) && t.global == s.global && |t.reactors| == |s.reactors|
    ensures t.reactors[g.owner] == s.reactors[g.owner] && t.deferrals[a].tag == s.deferrals[a].tag
    ensures forall i :: 0 <= i < |t.reactors| && i != g.owner ==>
      t.reactors[i].local == s.global && t.reactors[i].pc == Ready
    decreases |s.reactors| - k
  {
    if k == |s.reactors| {
      ReachesSelf(s);
      t := s;
    } else if k == g.owner {
      t := CatchUpAll(s, k + 1, r, a, g);
    } else {
      var u := CatchUp(s, k, r, a, g);
      t := CatchUpAll(u, k + 1, r, a, g);
      ReachesTrans(s, u, t);
    }
  }

  lemma {:induction false} UnusedId<V>(m: map<nat, V>) returns (b: nat)
    ensures b !in m
  {
    b := MaxId(m.Keys) + 1;
    if b in m {
      MaxIdBounds(m.Keys, b);
      assert false;
    }
  }

  ghost function MaxId(ids: set<nat>): nat {
    if ids == {} then 0
    else var i :| i in ids; var rest := MaxId(ids - {i}); if i < rest then rest else i
  }

  lemma MaxIdBounds(ids: set<nat>, b: nat)
    requires b in ids
    ensures b <= MaxId(ids)
  {
  }

  /** What a scan leaves alone. */
  ghost predicate OnlyGlobal(s: State, t: State) {
    && Reaches(s, t) && t.reactors == s.reactors && t.deferrals == s.deferrals && t.freed == s.freed
  }

  /** With every reactor at the loaded epoch, the rest of the scan and the compare-exchange succeed. */
  lemma {:induction false} Scan(s: State, b: nat) returns (t: State)
    requires b in s.bumps && s.bumps[b].seen == s.global && s.bumps[b].next <= |s.reactors|
    requires s.bumps[b].low.Low? ==> s.bumps[b].low.epoch >= s.global
    requires forall i :: 0 <= i < |s.reactors| ==> s.reactors[i].local >= s.global
    ensures OnlyGlobal(s, t) && t.global == s.global + 1
    decreases |s.reactors| - s.bumps[b].next
  {
    if s.bumps[b].next == |s.reactors| {
      t := Apply(s, BumpFinish(b));
      ReachesStep(s, BumpFinish(b));
    } else {
      var u := Apply(s, BumpRead(b));
      ReachesStep(s, BumpRead(b));
      t := Scan(u, b);
      ReachesTrans(s, u, t);
    }
  }

  lemma BumpOnce(s: State) returns (t: State)
    requires forall i :: 0 <= i < |s.reactors| ==> s.reactors[i].local >= s.global
    ensures OnlyGlobal(s, t) && t.global == s.global + 1
  {
    var b := UnusedId(s.bumps);
    var u := Apply(s, BumpLoad(b));
    ReachesStep(s, BumpLoad(b));
    t := Scan(u, b);
    ReachesTrans(s, u, t);
  }

  lemma ReachesInv(s: State, t: State)
    requires Inv(s) && Reaches(s, t)
    ensures Inv(t)
  {
    var xs :| CanRun(s, xs) && Exec(s, xs) == t;
    ExecInv(s, xs);
  }

  /** Two epochs past the tag, the deferring reactor unpins and pins again: `a` is freed while `g` is held. */
  lemma FreeUnder(s: State, r: nat, a: Alloc, g: Guard) returns (t: State)
    requires Stage(s, r, a, g) && s.global == s.deferrals[a].tag + 2
    requires s.reactors[r].pc == Ready && s.reactors[r].local + 1 == s.global
    ensures Reaches(s, t) && FreedUnderReader(t, a)
  {
    var u := DropGuards(s, r, r, a, g);
    StepBeside(u, PinLoad(r), r, a, g);
    var v := Apply(u, PinLoad(r));
    ReachesTrans(s, u, v);
    t := Apply(v, PinReclaim(r));
    ReachesStep(v, PinReclaim(r));
    ReachesTrans(s, v, t);
    FreesWaiting(v, r, a, g);
  }

  lemma FreesWaiting(s: State, r: nat, a: Alloc, g: Guard)
    requires Stage(s, r, a, g) && s.global == s.deferrals[a].tag + 2
    requires s.reactors[r].pc == PinLoaded(s.global) && s.reactors[r].local + 1 == s.global
    ensures FreedUnderReader(Apply(s, PinReclaim(r)), a)
  {
    var e := Entry(s.deferrals[a].tag, a);
    assert Bagged(s, r, e) <==> Owed(s, r, e);
    BagsAreCurrent(s, r);
    ReclaimMembers(s.reactors[r].bags, s.reactors[r].local, s.global, e);
    assert g in Apply(s, PinReclaim(r)).freed[a];
  }

  /** From the deferral on: everyone else catches up, the epoch is bumped once, the deferring reactor pins anew. */
  lemma Schedule(s: State, r: nat, a: Alloc, g: Guard) returns (t: State)
    requires Stage(s, r, a, g) && s.global == s.deferrals[a].tag + 1
    requires HasGuard(s, g) && s.reactors[g.owner].local == s.global
    ensures Reaches(s, t) && FreedUnderReader(t, a)
  {
    var u := CatchUpAll(s, 0, r, a, g);
    var v := BumpOnce(u);
    ReachesInv(u, v);
    var w := FreeUnder(v, r, a, g);
    ReachesTrans(s, u, v);
    ReachesTrans(s, v, w);
    t := w;
  }

  lemma DeferStage(s: State, r: nat, a: Alloc, g: Guard)
    requires Inv(s) && Enabled(s, DeferDelete(r, a)) && HasGuard(s, g)
    requires s.reactors[g.owner].local > s.reactors[r].local
    ensures var t := Apply(s, DeferDelete(r, a));
            && Stage(t, r, a, g) && t.global == t.deferrals[a].tag + 1
            && HasGuard(t, g) && t.reactors[g.owner].local == t.global
  {
    StepInv(s, DeferDelete(r, a));
    ObservedIs(s, g);
    DeferredAhead(s, r, g);
    assert a !in s.freed by {
      assert FreedOk(s);
    }
  }

  /** If some pinned reactor is ahead of the deferring one, a continuation frees the allocation under its guard. */
  lemma UnsafeIfAhead(s: State, r: nat, a: Alloc)
    requires Reachable(s) && Enabled(s, DeferDelete(r, a)) && PinnedAhead(s, r)
    ensures !SafeForReaders(Apply(s, DeferDelete(r, a)), a)
  {
    ReachableInv(s);
    var g :| HasGuard(s, g) && s.reactors[g.owner].local > s.reactors[r].local;
    DeferStage(s, r, a, g);
    var t := Schedule(Apply(s, DeferDelete(r, a)), r, a, g);
  }

  lemma DeferredAhead(s: State, r: nat, g: Guard)
    requires ReactorsOk(s) && r < |s.reactors| && HasGuard(s, g) && s.reactors[g.owner].local > s.reactors[r].local
    ensures s.reactors[g.owner].local == s.global == s.reactors[r].local + 1
  {
    assert ReactorOk(s.global, s.serials, r, s.reactors[r]);
    assert ReactorOk(s.global, s.serials, g.owner, s.reactors[g.owner]);
  }

  /** A deferral is safe in every continuation exactly when no pinned reactor is ahead of the deferring one. */
  lemma ReaderSafetyExactly(s: State, r: nat, a: Alloc)
    requires Reachable(s) && Enabled(s, DeferDelete(r, a))
    ensures SafeForReaders(Apply(s, DeferDelete(r, a)), a) <==> !PinnedAhead(s, r)
  {
    if PinnedAhead(s, r) {
      UnsafeIfAhead(s, r, a);
    } else {
      SafeIfNoneAhead(s, r, a);
    }
  }

  /** The failing run of two reactors. Reactor 0 pins at the first epoch; a bump reads both slots and advances the
      global epoch; reactor 1 pins one epoch ahead. A deferral by reactor 0 is then tagged with the first epoch, and
      some continuation frees it under reactor 1's guard. */
  lemma LaggingTagUnsafe(a: Alloc) returns (xs: seq<Action>, s: State)
    ensures xs == [PinLoad(0), PinSame(0), BumpLoad(0), BumpRead(0), BumpRead(0), BumpFinish(0),
                   PinLoad(1), PinReclaim(1), PinStore(1)]
    ensures CanRun(Init(2), xs) && s == Exec(Init(2), xs) && Enabled(s, DeferDelete(0, a))
    ensures !SafeForReaders(Apply(s, DeferDelete(0, a)), a)
  {
    hide CanRun, Exec, Apply, Init, SafeForReaders, Enabled;
    var first, bump, second :=
      [PinLoad(0), PinSame(0)], [BumpLoad(0), BumpRead(0), BumpRead(0), BumpFinish(0)],
      [PinLoad(1), PinReclaim(1), PinStore(1)];
    var t := PinnedFirst();
    var u := BumpedPast(t);
    s := PinnedNext(u, a);
    ExecConcat(Init(2), first, bump);
    ExecConcat(Init(2), first + bump, second);
    xs := first + bump + second;
    assert Reachable(s);
    UnsafeIfAhead(s, 0, a);
  }

  /** Reactor 0 pins at the first epoch. */
  lemma PinnedFirst() returns (t: State)
    ensures CanRun(Init(2), [PinLoad(0), PinSame(0)]) && t == Exec(Init(2), [PinLoad(0), PinSame(0)])
    ensures |t.reactors| == 2 && t.global == 1 && t.serials == 1 && t.deferrals == map[] && t.bumps == map[]
    ensures t.reactors[0].local == 1 && t.reactors[0].pinCount == 1 && t.reactors[0].pc == Ready
    ensures t.reactors[1] == Reactor(1, 0, map[], EmptyBags(), Ready)
  {
    hide CanRun, Exec;
    var s1 := Apply(Init(2), PinLoad(0));
    t := Apply(s1, PinSame(0));
    RunNone(t);
    RunCons(s1, PinSame(0), []);
    RunCons(Init(2), PinLoad(0), [PinSame(0)] + []);
    assert [PinLoad(0), PinSame(0)] == [PinLoad(0)] + ([PinSame(0)] + []);
  }

  /** A bump finds both slots at the global epoch and advances it. */
  lemma BumpedPast(s: State) returns (t: State)
    requires |s.reactors| == 2 && s.global == s.reactors[0].local == s.reactors[1].local && s.bumps == map[]
    ensures var xs := [BumpLoad(0), BumpRead(0), BumpRead(0), BumpFinish(0)]; CanRun(s, xs) && t == Exec(s, xs)
    ensures t.global == s.global + 1 && t.reactors == s.reactors && t.serials == s.serials
    ensures t.deferrals == s.deferrals
  {
    hide CanRun, Exec;
    var s1 := Apply(s, BumpLoad(0));
    var s2 := Apply(s1, BumpRead(0));
    var s3 := Apply(s2, BumpRead(0));
    t := Apply(s3, BumpFinish(0));
    RunNone(t);
    RunCons(s3, BumpFinish(0), []);
    RunCons(s2, BumpRead(0), [BumpFinish(0)] + []);
    RunCons(s1, BumpRead(0), [BumpRead(0)] + ([BumpFinish(0)] + []));
    RunCons(s, BumpLoad(0), [BumpRead(0)] + ([BumpRead(0)] + ([BumpFinish(0)] + [])));
    assert [BumpLoad(0), BumpRead(0), BumpRead(0), BumpFinish(0)] ==
      [BumpLoad(0)] + ([BumpRead(0)] + ([BumpRead(0)] + ([BumpFinish(0)] + [])));
  }

  /** Reactor 1 pins at the new epoch. */
  lemma PinnedNext(t: State, a: Alloc) returns (s: State)
    requires |t.reactors| == 2 && t.global == 2 && t.serials == 1 && t.deferrals == map[]
    requires t.reactors[0].local == 1 && t.reactors[0].pinCount == 1 && t.reactors[0].pc == Ready
    requires t.reactors[1] == Reactor(1, 0, map[], EmptyBags(), Ready)
    ensures var xs := [PinLoad(1), PinReclaim(1), PinStore(1)]; CanRun(t, xs) && s == Exec(t, xs)
    ensures Enabled(s, DeferDelete(0, a)) && HasGuard(s, Guard(1, 1)) && s.reactors[1].local > s.reactors[0].local
  {
    hide CanRun, Exec;
    var s1 := Apply(t, PinLoad(1));
    var s2 := Apply(s1, PinReclaim(1));
    s := Apply(s2, PinStore(1));
    RunNone(s);
    RunCons(s2, PinStore(1), []);
    RunCons(s1, PinReclaim(1), [PinStore(1)] + []);
    RunCons(t, PinLoad(1), [PinReclaim(1)] + ([PinStore(1)] + []));
    assert [PinLoad(1), PinReclaim(1), PinStore(1)] == [PinLoad(1)] + ([PinReclaim(1)] + ([PinStore(1)] + []));
  }

  lemma RunNone(s: State)
    ensures CanRun(s, []) && Exec(s, []) == s
  {
  }

  lemma RunCons(s: State, x: Action, xs: seq<Action>)
    requires Enabled(s, x) && CanRun(Apply(s, x), xs)
    ensures CanRun(s, [x] + xs) && Exec(s, [x] + xs) == Exec(Apply(s, x), xs)
  {
    assert ([x] + xs)[1..] == xs;
  }

  /** In particular a deferral whose tag is the global epoch is safe for every guard live at that moment. */
  lemma CurrentTagIsSafe(s: State, r: nat, a: Alloc)
    requires Reachable(s) && Enabled(s, DeferDelete(r, a)) && s.reactors[r].local == s.global
    ensures SafeForReaders(Apply(s, DeferDelete(r, a)), a)
  {
    ReachableInv(s);
    forall g | HasGuard(s, g) ensures s.reactors[g.owner].local <= s.reactors[r].local {
      assert ReactorOk(s.global, s.serials, g.owner, s.reactors[g.owner]);
    }
    SafeIfNoneAhead(s, r, a);
  }

  // ---- The u32 representation ----

  const EPOCH_VALUES: nat := 0x1_0000_0000

  ghost predicate AllCaughtUp(locals: seq<nat>, global: nat) {
    forall i :: 0 <= i < |locals| ==> global <= locals[i]
  }

  /** The comparison as coded, on 32-bit values. */
  ghost predicate RawCaughtUp(locals: seq<nat>, global: nat) {
    forall i :: 0 <= i < |locals| ==> global % EPOCH_VALUES <= locals[i] % EPOCH_VALUES
  }

  lemma RawLocal(local: nat, global: nat)
    requires local <= global <= local + 1
    ensures global % EPOCH_VALUES <= local % EPOCH_VALUES <==> local == global || global % EPOCH_VALUES == 0
  {
    if local != global && global % EPOCH_VALUES != 0 {
      assert local == EPOCH_VALUES * (global / EPOCH_VALUES) + (global % EPOCH_VALUES - 1);
    } else if local != global {
      assert local == EPOCH_VALUES * (global / EPOCH_VALUES - 1) + (EPOCH_VALUES - 1);
    }
  }

  /** Under the lag bound, the raw 32-bit test of `bump_epoch` agrees with the one on unbounded epochs unless the
      global epoch has just wrapped to zero while some reactor still lags. */
  lemma RawTestExactly(locals: seq<nat>, global: nat)
    requires forall i :: 0 <= i < |locals| ==> locals[i] <= global <= locals[i] + 1
    ensures (RawCaughtUp(locals, global) <==> AllCaughtUp(locals, global))
       <==> (global % EPOCH_VALUES != 0 || AllCaughtUp(locals, global))
  {
    forall i | 0 <= i < |locals|
      ensures global % EPOCH_VALUES <= locals[i] % EPOCH_VALUES <==> locals[i] == global || global % EPOCH_VALUES == 0
    {
      RawLocal(locals[i], global);
    }
  }

  /** The failing input: one reactor still at the last 32-bit epoch while the global one has wrapped to zero. The raw
      test lets the epoch advance past it. */
  lemma RawTestWraps()
    ensures var locals, global := [0xFFFF_FFFF], 0x1_0000_0000;
      RawCaughtUp(locals, global) && !AllCaughtUp(locals, global)
  {
    assert !(0x1_0000_0000 <= [0xFFFF_FFFF][0]);
  }
}
