/** A guard repinned while nested can keep its reactor, and with it every reactor, from advancing. */
module EpochStall {
  import opened EpochBags
  import opened EpochProtocol
  import opened EpochSafety

  /** `g` is live on a reactor one epoch behind the global one. */
  ghost predicate Lags(s: State, g: Guard) {
    HasGuard(s, g) && s.reactors[g.owner].local + 1 == s.global
  }

  /** The guard carries the global epoch already, or is about to be given it by a nested repin, so that no later repin
      of it finds a difference; and the reactor is not between reclaiming and storing its epoch. */
  ghost predicate Stuck(s: State, g: Guard)
    requires HasGuard(s, g)
  {
    var rec := s.reactors[g.owner];
    && !rec.pc.RepinReclaimed?
    && (rec.guards[g] == s.global || (rec.pc == RepinLoaded(g, s.global) && rec.pinCount > 1))
  }

  ghost predicate Unmoved(s: State, t: State, r: nat)
    requires r < |s.reactors|
  {
    r < |t.reactors| && t.global == s.global && t.reactors[r].local == s.reactors[r].local
  }

  // ---- Stuck is for good ----

  /** A bump that has read every slot gives up or loses its compare-exchange. */
  lemma BumpGivesUp(s: State, b: nat, g: Guard)
    requires Inv(s) && Enabled(s, BumpFinish(b)) && Lags(s, g)
    ensures Apply(s, BumpFinish(b)).global == s.global
  {
    hide ReactorsOk, HeldOk, BagsCurrent, BagsOk, FreedOk;
    assert BumpOk(s, s.bumps[b]);
    assert s.bumps[b].low.Low? ==> s.bumps[b].low.epoch <= s.reactors[g.owner].local;
  }

  /** A sole guard that is stuck has nothing to repin. */
  lemma NoReclaim(s: State, g: Guard)
    requires Inv(s) && Lags(s, g) && Stuck(s, g)
    ensures !Enabled(s, RepinReclaim(g.owner))
  {
    hide BumpsOk, HeldOk, BagsCurrent, BagsOk, FreedOk;
    var rec := s.reactors[g.owner];
    assert ReactorOk(s.global, s.serials, g.owner, rec);
    if Enabled(s, RepinReclaim(g.owner)) {
      OnlyKey(rec.guards, g, rec.pc.guard);
      assert false;
    }
  }

  lemma Pinned(s: State, g: Guard)
    requires ReactorsOk(s) && HasGuard(s, g)
    ensures var rec := s.reactors[g.owner]; rec.pinCount > 0 && !rec.pc.PinLoaded? && !rec.pc.PinReclaimed?
    ensures var rec := s.reactors[g.owner]; rec.local <= rec.guards[g] <= s.global && PcOk(s.global, rec)
    ensures g.serial < s.serials
  {
    assert ReactorOk(s.global, s.serials, g.owner, s.reactors[g.owner]);
    assert g in s.reactors[g.owner].guards.Keys;
  }

  lemma StuckStep(s: State, x: Action, g: Guard)
    requires Inv(s) && Enabled(s, x) && x != Unpin(g) && Lags(s, g) && Stuck(s, g)
    ensures var t := Apply(s, x); Unmoved(s, t, g.owner) && Lags(t, g) && Stuck(t, g)
  {
    hide ReactorsOk, BumpsOk, HeldOk, BagsCurrent, BagsOk, FreedOk, Apply, Enabled, Stuck;
    if x.BumpLoad? || x.BumpRead? || x.BumpFinish? {
      StuckBump(s, x, g);
    } else if x.RepinLoad? || x.RepinReclaim? || x.RepinStore? || x.RepinNested? || x.RepinSame? {
      StuckRepin(s, x, g);
    } else {
      StuckPin(s, x, g);
    }
  }

  lemma StuckBump(s: State, x: Action, g: Guard)
    requires Inv(s) && Enabled(s, x) && Lags(s, g) && Stuck(s, g) && (x.BumpLoad? || x.BumpRead? || x.BumpFinish?)
    ensures var t := Apply(s, x); Unmoved(s, t, g.owner) && Lags(t, g) && Stuck(t, g)
  {
    hide ReactorsOk, BumpsOk, HeldOk, BagsCurrent, BagsOk, FreedOk;
    if x.BumpFinish? {
      BumpGivesUp(s, x.b, g);
    }
  }

  lemma StuckRepin(s: State, x: Action, g: Guard)
    requires Inv(s) && Enabled(s, x) && Lags(s, g) && Stuck(s, g)
    requires x.RepinLoad? || x.RepinReclaim? || x.RepinStore? || x.RepinNested? || x.RepinSame?
    ensures var t := Apply(s, x); Unmoved(s, t, g.owner) && Lags(t, g) && Stuck(t, g)
  {
    hide ReactorsOk, BumpsOk, HeldOk, BagsCurrent, BagsOk, FreedOk, Reclaim, Reclaimed, Release;
    Pinned(s, g);
    NoReclaim(s, g);
  }

  lemma StuckPin(s: State, x: Action, g: Guard)
    requires Inv(s) && Enabled(s, x) && x != Unpin(g) && Lags(s, g) && Stuck(s, g)
    requires x.PinNested? || x.PinLoad? || x.PinReclaim? || x.PinStore? || x.PinSame? || x.Unpin? || x.DeferDelete?
    ensures var t := Apply(s, x); Unmoved(s, t, g.owner) && Lags(t, g) && Stuck(t, g)
  {
    hide ReactorsOk, BumpsOk, HeldOk, BagsCurrent, BagsOk, FreedOk, Reclaim, Reclaimed, Observed, Release;
    Pinned(s, g);
  }

  lemma {:induction false} StuckRun(s: State, xs: seq<Action>, g: Guard)
    requires Inv(s) && CanRun(s, xs) && Unpin(g) !in xs && Lags(s, g) && Stuck(s, g)
    ensures var t := Exec(s, xs); Unmoved(s, t, g.owner) && Lags(t, g) && Stuck(t, g)
    decreases |xs|
  {
    hide Inv, Stuck, Apply, Enabled;
    if xs != [] {
      assert xs[0] in xs && forall x :: x in xs[1..] ==> x in xs;
      StuckStep(s, xs[0], g);
      StepInv(s, xs[0]);
      StuckRun(Apply(s, xs[0]), xs[1..], g);
    }
  }

  // ---- Otherwise the reactor can catch up with the guard held ----

  /** Steps left of the guard's reactor, apart from those that drop guards. */
  ghost function Rank(s: State, g: Guard): nat
    requires HasGuard(s, g)
  {
    match s.reactors[g.owner].pc
    case RepinReclaimed(_, _) => 0
    case RepinLoaded(h, seen) => if h == g && seen == s.global then 1 else 3
    case _ => 2
  }

  lemma OtherGuard(m: map<Guard, nat>, g: Guard) returns (h: Guard)
    requires g in m && |m| != 1
    ensures h in m && h != g
  {
    assert |m.Keys| == |m|;
    assert m.Keys != {g};
    h :| h in m && h != g;
  }

  /** One step of the guard's reactor towards the global epoch, other than dropping the guard. */
  lemma NextStep(s: State, g: Guard) returns (x: Action)
    requires Inv(s) && Lags(s, g) && !Stuck(s, g)
    ensures Enabled(s, x) && x != Unpin(g)
    ensures var t := Apply(s, x);
      && t.global == s.global && HasGuard(t, g)
      && (|| t.reactors[g.owner].local == s.global
          || (&& Lags(t, g) && !Stuck(t, g) && t.reactors[g.owner].pinCount <= s.reactors[g.owner].pinCount
              && (t.reactors[g.owner].pinCount == s.reactors[g.owner].pinCount ==> Rank(t, g) < Rank(s, g))))
  {
    hide ReactorsOk, BumpsOk, HeldOk, BagsCurrent, BagsOk, FreedOk, Reclaim, Reclaimed, Observed, Release;
    var r := g.owner;
    var rec := s.reactors[r];
    Pinned(s, g);
    PinCounts(s, r);
    match rec.pc
    case RepinReclaimed(_, _) => x := RepinStore(r);
    case RepinLoaded(h, seen) =>
      x :=
        if rec.guards[h] == seen then RepinSame(r)
        else if rec.pinCount == 1 then RepinReclaim(r) else RepinNested(r);
    case Ready =>
      if rec.pinCount == 1 {
        x := RepinLoad(g);
      } else {
        var h := OtherGuard(rec.guards, g);
        GuardOwner(s, r, h);
        x := Unpin(h);
      }
  }

  lemma PinCounts(s: State, r: nat)
    requires ReactorsOk(s) && r < |s.reactors|
    ensures s.reactors[r].pinCount == |s.reactors[r].guards|
  {
    assert ReactorOk(s.global, s.serials, r, s.reactors[r]);
  }

  lemma GuardOwner(s: State, r: nat, h: Guard)
    requires ReactorsOk(s) && r < |s.reactors| && h in s.reactors[r].guards
    ensures h.owner == r
  {
    assert ReactorOk(s.global, s.serials, r, s.reactors[r]);
  }

  lemma {:induction false} CatchesUp(s: State, g: Guard) returns (xs: seq<Action>)
    requires Inv(s) && Lags(s, g) && !Stuck(s, g)
    ensures CanRun(s, xs) && Unpin(g) !in xs
    ensures var t := Exec(s, xs); HasGuard(t, g) && t.global == t.reactors[g.owner].local == s.global
    decreases s.reactors[g.owner].pinCount, Rank(s, g)
  {
    hide Inv, Stuck, Apply, Enabled, Rank, CanRun, Exec;
    var x := NextStep(s, g);
    var t := Apply(s, x);
    if t.reactors[g.owner].local == s.global {
      RunNone(t);
      RunCons(s, x, []);
      xs := [x] + [];
    } else {
      StepInv(s, x);
      var ys := CatchesUp(t, g);
      RunCons(s, x, ys);
      xs := [x] + ys;
    }
  }

  // ---- The exact condition ----

  /** However the run goes on, while `g` is not dropped neither its reactor nor the global epoch moves. */
  ghost predicate HoldsEpoch(s: State, g: Guard)
    requires HasGuard(s, g)
  {
    forall xs :: CanRun(s, xs) && Unpin(g) !in xs ==> Unmoved(s, Exec(s, xs), g.owner)
  }

  /** A guard on a lagging reactor holds back the epoch of all reactors until it is dropped, repinned or not, exactly
      when it carries the global epoch already or a nested repin is about to give it that. */
  lemma StallExactly(s: State, g: Guard)
    requires Reachable(s) && Lags(s, g)
    ensures HoldsEpoch(s, g) <==> Stuck(s, g)
  {
    hide Stuck, CanRun, Exec, Reachable, Inv;
    ReachableInv(s);
    if Stuck(s, g) {
      forall xs | CanRun(s, xs) && Unpin(g) !in xs ensures Unmoved(s, Exec(s, xs), g.owner) {
        StuckRun(s, xs, g);
      }
    } else {
      var xs := CatchesUp(s, g);
    }
  }

  // ---- Only a repin leads there ----

  /** `g`, if live, carries its reactor's local epoch, and no repin of it is under way. */
  ghost predicate Unrepinned(s: State, g: Guard) {
    HasGuard(s, g) ==>
      var rec := s.reactors[g.owner];
      && rec.guards[g] == rec.local
      && (rec.pc.RepinLoaded? || rec.pc.RepinReclaimed? ==> rec.pc.guard != g)
  }

  /** Moving the local epoch by way of another guard means that `g` is not live. */
  lemma StoreByAnother(s: State, g: Guard)
    requires Inv(s) && HasGuard(s, g) && Unrepinned(s, g)
    ensures !s.reactors[g.owner].pc.RepinReclaimed?
  {
    hide BumpsOk, HeldOk, BagsCurrent, BagsOk, FreedOk;
    var rec := s.reactors[g.owner];
    assert ReactorOk(s.global, s.serials, g.owner, rec);
    if rec.pc.RepinReclaimed? {
      OnlyKey(rec.guards, g, rec.pc.guard);
      assert false;
    }
  }

  lemma UnrepinnedStep(s: State, x: Action, g: Guard)
    requires Inv(s) && Enabled(s, x) && x != RepinLoad(g) && Unrepinned(s, g)
    ensures Unrepinned(Apply(s, x), g)
  {
    hide ReactorsOk, BumpsOk, HeldOk, BagsCurrent, BagsOk, FreedOk, Reclaim, Reclaimed, Observed, Release;
    if HasGuard(s, g) {
      Pinned(s, g);
      StoreByAnother(s, g);
    } else if x.RepinNested? || x.RepinStore? {
      RepinsLive(s, x);
    }
  }

  lemma RepinsLive(s: State, x: Action)
    requires Inv(s) && Enabled(s, x) && (x.RepinNested? || x.RepinStore?)
    ensures s.reactors[x.r].pc.guard in s.reactors[x.r].guards && s.reactors[x.r].pc.guard.owner == x.r
  {
    hide BumpsOk, HeldOk, BagsCurrent, BagsOk, FreedOk;
    assert ReactorOk(s.global, s.serials, x.r, s.reactors[x.r]);
  }

  /** A guard that is never repinned carries its reactor's local epoch from the pin that made it to the end. */
  lemma {:induction false} BornLocal(s: State, xs: seq<Action>, g: Guard)
    requires Inv(s) && CanRun(s, xs) && RepinLoad(g) !in xs && Unrepinned(s, g)
    ensures Unrepinned(Exec(s, xs), g)
    decreases |xs|
  {
    hide Inv, Apply, Enabled, Unrepinned;
    if xs != [] {
      assert xs[0] in xs && forall x :: x in xs[1..] ==> x in xs;
      UnrepinnedStep(s, xs[0], g);
      StepInv(s, xs[0]);
      BornLocal(Apply(s, xs[0]), xs[1..], g);
    }
  }

  /** So in every run from the start, a guard that holds the epoch of all reactors has been repinned. */
  lemma OnlyRepinsStall(n: nat, xs: seq<Action>, g: Guard)
    requires CanRun(Init(n), xs) && Lags(Exec(Init(n), xs), g) && RepinLoad(g) !in xs
    ensures !HoldsEpoch(Exec(Init(n), xs), g)
  {
    hide CanRun, Exec, Inv, HoldsEpoch;
    InitInv(n);
    BornLocal(Init(n), xs, g);
    StallExactly(Exec(Init(n), xs), g);
  }

  // ---- What it costs ----

  /** The allocation was due already: deferred, with a tag two epochs behind. */
  ghost predicate Due(s: State, a: Alloc) { a in s.deferrals && s.deferrals[a].tag + 2 <= s.global }

  lemma DueBefore(s: State, x: Action, a: Alloc)
    requires Inv(s) && Enabled(s, x) && Apply(s, x).global == s.global && Due(Apply(s, x), a)
    ensures Due(s, a)
  {
    hide BumpsOk, HeldOk, BagsCurrent, BagsOk, FreedOk, Reclaim, Reclaimed, Observed;
    if x.DeferDelete? {
      assert ReactorOk(s.global, s.serials, x.r, s.reactors[x.r]);
    }
  }

  /** Meanwhile no reactor frees anything but what was due when the stall began. */
  lemma {:induction false} StallKeepsGarbage(s: State, xs: seq<Action>, g: Guard, a: Alloc)
    requires Inv(s) && CanRun(s, xs) && Unpin(g) !in xs && Lags(s, g) && Stuck(s, g)
    requires a in Exec(s, xs).freed
    ensures a in s.freed || Due(s, a)
    decreases |xs|
  {
    hide Inv, Stuck, Apply, Enabled;
    if xs != [] {
      var t := Apply(s, xs[0]);
      assert xs[0] in xs && forall x :: x in xs[1..] ==> x in xs;
      StuckStep(s, xs[0], g);
      StepInv(s, xs[0]);
      StallKeepsGarbage(t, xs[1..], g, a);
      if a in t.freed {
        if a !in s.freed {
          FreeingStep(s, xs[0], a);
        }
      } else {
        DueBefore(s, xs[0], a);
      }
    }
  }

  // ---- A run into it ----

  const OUTER := Guard(0, 0)
  const INNER := Guard(0, 1)

  /** Reactor 0 pins twice, the epoch advances, the inner guard is repinned, the outer one dropped: the one guard left
      holds the epoch. */
  lemma StallReached() returns (xs: seq<Action>, s: State)
    ensures xs == [PinLoad(0), PinSame(0), PinNested(0), BumpLoad(0), BumpRead(0), BumpFinish(0),
                   RepinLoad(INNER), RepinNested(0), Unpin(OUTER)]
    ensures CanRun(Init(1), xs) && s == Exec(Init(1), xs)
    ensures Lags(s, INNER) && s.reactors[0].pinCount == 1 && HoldsEpoch(s, INNER)
  {
    hide CanRun, Exec, Init, Apply, Enabled, Stuck, HoldsEpoch;
    var pins, bump, drop :=
      [PinLoad(0), PinSame(0), PinNested(0)], [BumpLoad(0), BumpRead(0), BumpFinish(0)],
      [RepinLoad(INNER), RepinNested(0), Unpin(OUTER)];
    var t := PinnedTwice();
    var u := BumpedOne(t);
    s := RepinnedInner(u);
    ExecConcat(Init(1), pins, bump);
    ExecConcat(Init(1), pins + bump, drop);
    xs := pins + bump + drop;
    assert Reachable(s);
    StallExactly(s, INNER);
  }

  lemma RunThree(s: State, x: Action, y: Action, z: Action)
    requires Enabled(s, x) && Enabled(Apply(s, x), y) && Enabled(Apply(Apply(s, x), y), z)
    ensures CanRun(s, [x, y, z]) && Exec(s, [x, y, z]) == Apply(Apply(Apply(s, x), y), z)
  {
    hide CanRun, Exec, Apply, Enabled;
    var s1 := Apply(s, x);
    var s2 := Apply(s1, y);
    RunNone(Apply(s2, z));
    RunCons(s2, z, []);
    RunCons(s1, y, [z] + []);
    RunCons(s, x, [y] + ([z] + []));
    assert [x, y, z] == [x] + ([y] + ([z] + []));
  }

  lemma PinnedTwice() returns (t: State)
    ensures var xs := [PinLoad(0), PinSame(0), PinNested(0)]; CanRun(Init(1), xs) && t == Exec(Init(1), xs)
    ensures |t.reactors| == 1 && t.global == 1 && t.bumps == map[] && t.reactors[0].pc == Ready
    ensures t.reactors[0].local == 1 && t.reactors[0].pinCount == 2
    ensures t.reactors[0].guards == map[OUTER := 1, INNER := 1]
  {
    var s1 := Apply(Init(1), PinLoad(0));
    var s2 := Apply(s1, PinSame(0));
    t := Apply(s2, PinNested(0));
    RunThree(Init(1), PinLoad(0), PinSame(0), PinNested(0));
  }

  lemma BumpedOne(s: State) returns (t: State)
    requires |s.reactors| == 1 && s.global == s.reactors[0].local && s.bumps == map[]
    ensures var xs := [BumpLoad(0), BumpRead(0), BumpFinish(0)]; CanRun(s, xs) && t == Exec(s, xs)
    ensures t.global == s.global + 1 && t.reactors == s.reactors
  {
    var s1 := Apply(s, BumpLoad(0));
    var s2 := Apply(s1, BumpRead(0));
    t := Apply(s2, BumpFinish(0));
    RunThree(s, BumpLoad(0), BumpRead(0), BumpFinish(0));
  }

  lemma RepinnedInner(s: State) returns (t: State)
    requires |s.reactors| == 1 && s.global == 2 && s.reactors[0].pc == Ready && s.reactors[0].local == 1
    requires s.reactors[0].pinCount == 2 && s.reactors[0].guards == map[OUTER := 1, INNER := 1]
    ensures var xs := [RepinLoad(INNER), RepinNested(0), Unpin(OUTER)]; CanRun(s, xs) && t == Exec(s, xs)
    ensures Lags(t, INNER) && t.reactors[0].pinCount == 1 && Stuck(t, INNER)
  {
    var s1 := Apply(s, RepinLoad(INNER));
    var s2 := Apply(s1, RepinNested(0));
    t := Apply(s2, Unpin(OUTER));
    RunThree(s, RepinLoad(INNER), RepinNested(0), Unpin(OUTER));
  }
}
