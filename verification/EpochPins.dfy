/** What pinning observes: an outermost pin sees the global epoch of its time, and can always complete. */
module EpochPins {
  import opened EpochBags
  import opened EpochProtocol
  import opened EpochSafety

  ghost predicate Unpinned(s: State, r: nat) {
    r < |s.reactors| && s.reactors[r].pc == Ready && s.reactors[r].pinCount == 0
  }

  /** Since the global epoch was `seen`, reactor `r` has not pinned, is about to pin at that epoch or a later one, or is
      at such an epoch. */
  ghost predicate Observes(s: State, r: nat, seen: nat) {
    && r < |s.reactors|
    && seen <= s.global
    && var rec := s.reactors[r];
       || Unpinned(s, r)
       || ((rec.pc.PinLoaded? || rec.pc.PinReclaimed?) && seen <= rec.pc.seen)
       || seen <= rec.local
  }

  lemma ObservesStep(s: State, x: Action, r: nat, seen: nat)
    requires Inv(s) && Enabled(s, x) && Observes(s, r, seen)
    ensures Observes(Apply(s, x), r, seen)
  {
    hide BumpsOk, HeldOk, BagsCurrent, BagsOk, FreedOk, Apply, Enabled;
    assert ReactorOk(s.global, s.serials, r, s.reactors[r]);
    EpochsAdvance(s, x, r);
    if s.reactors[r].local < seen {
      PinningStep(s, x, r, seen);
    }
  }

  /** An unpinned reactor stays so or loads the epoch; one that has loaded it goes on to pin. */
  lemma PinningStep(s: State, x: Action, r: nat, seen: nat)
    requires ReactorsOk(s) && Enabled(s, x) && Observes(s, r, seen) && s.reactors[r].local < seen
    ensures var t := Apply(s, x);
      && r < |t.reactors|
      && var rec := t.reactors[r];
         Unpinned(t, r) || ((rec.pc.PinLoaded? || rec.pc.PinReclaimed?) && seen <= rec.pc.seen) || seen <= rec.local
  {
    hide ReactorsOk, Reclaim, Reclaimed, Observed, Release;
    NotPinned(s, r);
    if x.Unpin? || x.RepinLoad? {
      GuardMeansPinned(s, x.g);
    }
  }

  lemma NotPinned(s: State, r: nat)
    requires ReactorsOk(s) && r < |s.reactors|
    ensures s.reactors[r].pc.PinLoaded? || s.reactors[r].pc.PinReclaimed? ==> s.reactors[r].pinCount == 0
  {
    assert ReactorOk(s.global, s.serials, r, s.reactors[r]);
  }

  lemma GuardMeansPinned(s: State, g: Guard)
    requires ReactorsOk(s) && HasGuard(s, g)
    ensures s.reactors[g.owner].pinCount > 0
  {
    assert ReactorOk(s.global, s.serials, g.owner, s.reactors[g.owner]);
    assert g in s.reactors[g.owner].guards.Keys;
  }

  lemma {:induction false} ObservesRun(s: State, xs: seq<Action>, r: nat, seen: nat)
    requires Inv(s) && CanRun(s, xs) && Observes(s, r, seen)
    ensures Observes(Exec(s, xs), r, seen)
    decreases |xs|
  {
    hide Inv, Apply, Enabled, Observes;
    if xs != [] {
      ObservesStep(s, xs[0], r, seen);
      StepInv(s, xs[0]);
      ObservesRun(Apply(s, xs[0]), xs[1..], r, seen);
    }
  }

  /** Whatever an unpinned reactor goes through, a guard it holds later is pinned at an epoch no older than the global
      one was before. */
  lemma PinObservesGlobal(s: State, xs: seq<Action>, g: Guard)
    requires Reachable(s) && Unpinned(s, g.owner) && CanRun(s, xs) && HasGuard(Exec(s, xs), g)
    ensures var t := Exec(s, xs); s.global <= t.reactors[g.owner].local <= t.reactors[g.owner].guards[g]
  {
    hide CanRun, Exec, Reachable, BumpsOk, HeldOk, BagsCurrent, BagsOk, FreedOk;
    ReachableInv(s);
    ObservesRun(s, xs, g.owner, s.global);
    ExecInv(s, xs);
    var t := Exec(s, xs);
    GuardMeansPinned(t, g);
    assert ReactorOk(t.global, t.serials, g.owner, t.reactors[g.owner]);
  }

  /** An unpinned reactor can always pin, in two or three steps of its own, at the global epoch. */
  lemma PinCompletes(s: State, r: nat) returns (xs: seq<Action>)
    requires Inv(s) && Unpinned(s, r)
    ensures |xs| <= 3 && CanRun(s, xs)
    ensures var t := Exec(s, xs);
      && t.global == s.global && r < |t.reactors| && t.reactors[r].pc == Ready && t.reactors[r].local == s.global
      && Guard(r, s.serials) in t.reactors[r].guards && t.reactors[r].guards[Guard(r, s.serials)] == s.global
  {
    hide BumpsOk, HeldOk, BagsCurrent, BagsOk, FreedOk, Reclaim, Reclaimed, CanRun, Exec;
    assert ReactorOk(s.global, s.serials, r, s.reactors[r]);
    var s1 := Apply(s, PinLoad(r));
    if s.reactors[r].local == s.global {
      var t := Apply(s1, PinSame(r));
      RunNone(t);
      RunCons(s1, PinSame(r), []);
      RunCons(s, PinLoad(r), [PinSame(r)] + []);
      xs := [PinLoad(r)] + ([PinSame(r)] + []);
    } else {
      var s2 := Apply(s1, PinReclaim(r));
      var t := Apply(s2, PinStore(r));
      RunNone(t);
      RunCons(s2, PinStore(r), []);
      RunCons(s1, PinReclaim(r), [PinStore(r)] + []);
      RunCons(s, PinLoad(r), [PinReclaim(r)] + ([PinStore(r)] + []));
      xs := [PinLoad(r)] + ([PinReclaim(r)] + ([PinStore(r)] + []));
    }
  }

  /** Only a reactor with a live guard defers. */
  lemma DefersUnderGuard(s: State, r: nat, a: Alloc)
    requires Inv(s) && Enabled(s, DeferDelete(r, a))
    ensures exists g :: HasGuard(s, g) && g.owner == r
  {
    hide BumpsOk, HeldOk, BagsCurrent, BagsOk, FreedOk;
    var guards := s.reactors[r].guards;
    assert ReactorOk(s.global, s.serials, r, s.reactors[r]);
    assert |guards.Keys| == |guards|;
    var g :| g in guards;
    assert HasGuard(s, g) && g.owner == r;
  }

  /** A bump that has finished is over, and another may begin under its name. */
  lemma BumpIsOver(s: State, b: nat)
    requires Enabled(s, BumpFinish(b))
    ensures var t := Apply(s, BumpFinish(b));
      && b !in t.bumps && Enabled(t, BumpLoad(b)) && t.reactors == s.reactors
      && forall c :: c in s.bumps && c != b ==> c in t.bumps && t.bumps[c] == s.bumps[c]
  {
  }
}
