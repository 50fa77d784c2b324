/** Epoch-based reclamation as a protocol between any number of reactors and epoch bumpers.
    Every atomic load, store and compare-exchange is a step of its own. */
module EpochProtocol {
  import opened EpochBags

  // ---- State ----

  type Alloc = nat

  /** Guards are never sent to another thread: `owner` is the reactor that created the guard. */
  datatype Guard = Guard(owner: nat, serial: nat)

  /** Where a reactor thread is inside `pin` or `repin`. */
  datatype Pc =
    | Ready
    | PinLoaded(seen: nat)
    | PinReclaimed(seen: nat)
    | RepinLoaded(guard: Guard, seen: nat)
    | RepinReclaimed(guard: Guard, seen: nat)

  /** `guards` maps each live guard to its `epoch_index`. */
  datatype Reactor = Reactor(local: nat, pinCount: nat, guards: map<Guard, nat>, bags: Bags<Alloc>, pc: Pc)

  /** A bump that loaded `seen` and has read the first `next` slots; `low` is the minimum read so far. */
  datatype Bump = Bump(seen: nat, next: nat, low: Low)

  /** `u32::MAX` seeds the minimum in the code; no slot read leaves it there. */
  datatype Low = NoSlot | Low(epoch: nat)

  /** History of one deferral: tag, global epoch at that moment, and the guards that were live then and have
      neither been dropped nor moved their reactor's local epoch since, with that local epoch. */
  datatype Deferral = Deferral(owner: nat, tag: nat, global: nat, held: map<Guard, nat>)

  datatype State = State(
    global: nat,
    reactors: seq<Reactor>,
    bumps: map<nat, Bump>,
    serials: nat,
    deferrals: map<Alloc, Deferral>,
    freed: map<Alloc, map<Guard, nat>>)

  ghost function Init(n: nat): State {
    State(1, seq(n, i => Reactor(1, 0, map[], EmptyBags(), Ready)), map[], 0, map[], map[])
  }

  // ---- Steps ----

  datatype Action =
    | PinNested(r: nat)
    | PinLoad(r: nat)
    | PinReclaim(r: nat)
    | PinStore(r: nat)
    | PinSame(r: nat)
    | Unpin(g: Guard)
    | RepinLoad(g: Guard)
    | RepinReclaim(r: nat)
    | RepinStore(r: nat)
    | RepinNested(r: nat)
    | RepinSame(r: nat)
    | DeferDelete(r: nat, a: Alloc)
    | BumpLoad(b: nat)
    | BumpRead(b: nat)
    | BumpFinish(b: nat)

  ghost predicate HasGuard(s: State, g: Guard) {
    g.owner < |s.reactors| && g in s.reactors[g.owner].guards
  }

  ghost predicate Enabled(s: State, x: Action) {
    match x
    case PinNested(r) => r < |s.reactors| && s.reactors[r].pc == Ready && s.reactors[r].pinCount > 0
    case PinLoad(r) => r < |s.reactors| && s.reactors[r].pc == Ready && s.reactors[r].pinCount == 0
    case PinReclaim(r) =>
      r < |s.reactors| && s.reactors[r].pc.PinLoaded? && s.reactors[r].local != s.reactors[r].pc.seen
    case PinStore(r) => r < |s.reactors| && s.reactors[r].pc.PinReclaimed?
    case PinSame(r) => r < |s.reactors| && s.reactors[r].pc == PinLoaded(s.reactors[r].local)
    case Unpin(g) => HasGuard(s, g) && s.reactors[g.owner].pc == Ready && s.reactors[g.owner].pinCount > 0
    case RepinLoad(g) => HasGuard(s, g) && s.reactors[g.owner].pc == Ready
    case RepinReclaim(r) =>
      && r < |s.reactors| && s.reactors[r].pc.RepinLoaded? && s.reactors[r].pc.guard in s.reactors[r].guards
      && s.reactors[r].guards[s.reactors[r].pc.guard] != s.reactors[r].pc.seen && s.reactors[r].pinCount == 1
    case RepinStore(r) => r < |s.reactors| && s.reactors[r].pc.RepinReclaimed?
    case RepinNested(r) =>
      && r < |s.reactors| && s.reactors[r].pc.RepinLoaded? && s.reactors[r].pc.guard in s.reactors[r].guards
      && s.reactors[r].guards[s.reactors[r].pc.guard] != s.reactors[r].pc.seen && s.reactors[r].pinCount != 1
    case RepinSame(r) =>
      && r < |s.reactors| && s.reactors[r].pc.RepinLoaded? && s.reactors[r].pc.guard in s.reactors[r].guards
      && s.reactors[r].guards[s.reactors[r].pc.guard] == s.reactors[r].pc.seen
    case DeferDelete(r, a) =>
      r < |s.reactors| && s.reactors[r].pc == Ready && s.reactors[r].pinCount > 0 && a !in s.deferrals
    case BumpLoad(b) => b !in s.bumps
    case BumpRead(b) => b in s.bumps && s.bumps[b].next < |s.reactors|
    case BumpFinish(b) => b in s.bumps && s.bumps[b].next == |s.reactors|
  }

  ghost function SetReactor(s: State, r: nat, rec: Reactor): State
    requires r < |s.reactors|
  {
    s.(reactors := s.reactors[r := rec])
  }

  /** `pin` returns a guard carrying the local epoch. */
  ghost function AddGuard(s: State, r: nat, local: nat): State
    requires r < |s.reactors|
  {
    var rec := s.reactors[r];
    SetReactor(s, r, rec.(local := local, pinCount := rec.pinCount + 1,
                          guards := rec.guards[Guard(r, s.serials) := local], pc := Ready))
      .(serials := s.serials + 1)
  }

  ghost function Release(d: map<Alloc, Deferral>, g: Guard): map<Alloc, Deferral> {
    map a | a in d :: d[a].(held := d[a].held - {g})
  }

  ghost function LiveGuards(s: State): set<Guard> {
    set r, g | 0 <= r < |s.reactors| && g in s.reactors[r].guards :: g
  }

  ghost function Observed(s: State): map<Guard, nat> {
    map g | g in LiveGuards(s) && g.owner < |s.reactors| :: s.reactors[g.owner].local
  }

  /** Reclaim the bags of `r` from epoch `from` to `to` and give the drained allocations back. */
  ghost function Free(s: State, r: nat, from: nat, to: nat, pc: Pc): State
    requires r < |s.reactors|
  {
    var rec := s.reactors[r];
    var gone := Reclaimed(rec.bags, from, to);
    SetReactor(s, r, rec.(bags := Reclaim(rec.bags, from, to), pc := pc))
      .(freed := s.freed + map a | a in s.deferrals && Entry(s.deferrals[a].tag, a) in gone :: s.deferrals[a].held)
  }

  ghost function Apply(s: State, x: Action): State
    requires Enabled(s, x)
  {
    match x
    case PinNested(r) => AddGuard(s, r, s.reactors[r].local)
    case PinLoad(r) => SetReactor(s, r, s.reactors[r].(pc := PinLoaded(s.global)))
    case PinReclaim(r) =>
      Free(s, r, s.reactors[r].local, s.reactors[r].pc.seen, PinReclaimed(s.reactors[r].pc.seen))
    case PinStore(r) => AddGuard(s, r, s.reactors[r].pc.seen)
    case PinSame(r) => AddGuard(s, r, s.reactors[r].local)
    case Unpin(g) =>
      var rec := s.reactors[g.owner];
      SetReactor(s, g.owner, rec.(pinCount := rec.pinCount - 1, guards := rec.guards - {g}))
        .(deferrals := Release(s.deferrals, g))
    case RepinLoad(g) => SetReactor(s, g.owner, s.reactors[g.owner].(pc := RepinLoaded(g, s.global)))
    case RepinReclaim(r) =>
      var pc := s.reactors[r].pc;
      Free(s, r, s.reactors[r].guards[pc.guard], pc.seen, RepinReclaimed(pc.guard, pc.seen))
    case RepinStore(r) =>
      var rec := s.reactors[r];
      SetReactor(s, r, rec.(local := rec.pc.seen, guards := rec.guards[rec.pc.guard := rec.pc.seen], pc := Ready))
        .(deferrals := Release(s.deferrals, rec.pc.guard))
    case RepinNested(r) =>
      var rec := s.reactors[r];
      SetReactor(s, r, rec.(guards := rec.guards[rec.pc.guard := rec.pc.seen], pc := Ready))
    case RepinSame(r) => SetReactor(s, r, s.reactors[r].(pc := Ready))
    case DeferDelete(r, a) =>
      var rec := s.reactors[r];
      SetReactor(s, r, rec.(bags := Defer(rec.bags, rec.local, a)))
        .(deferrals := s.deferrals[a := Deferral(r, rec.local, s.global, Observed(s))])
    case BumpLoad(b) => s.(bumps := s.bumps[b := Bump(s.global, 0, NoSlot)])
    case BumpRead(b) =>
      var bump := s.bumps[b];
      var local := s.reactors[bump.next].local;
      s.(bumps := s.bumps[b := bump.(next := bump.next + 1,
        low := if bump.low.Low? && bump.low.epoch < local then bump.low else Low(local))])
    case BumpFinish(b) =>
      var bump := s.bumps[b];
      // A minimum below the loaded epoch gives up; otherwise one compare-exchange.
      (if (bump.low.Low? ==> bump.seen <= bump.low.epoch) && s.global == bump.seen
       then s.(global := s.global + 1) else s).(bumps := s.bumps - {b})
  }

  // ---- Runs ----

  ghost predicate CanRun(s: State, xs: seq<Action>)
    decreases |xs|
  {
    xs == [] || (Enabled(s, xs[0]) && CanRun(Apply(s, xs[0]), xs[1..]))
  }

  ghost function Exec(s: State, xs: seq<Action>): State
    requires CanRun(s, xs)
    decreases |xs|
  {
    if xs == [] then s else Exec(Apply(s, xs[0]), xs[1..])
  }

  ghost predicate Reachable(s: State) {
    exists n: nat, xs :: CanRun(Init(n), xs) && Exec(Init(n), xs) == s
  }

  // ---- Invariant ----

  ghost predicate PcOk(global: nat, rec: Reactor) {
    match rec.pc
    case Ready => true
    case PinLoaded(seen) => rec.pinCount == 0 && rec.local <= seen <= global
    case PinReclaimed(seen) => rec.pinCount == 0 && rec.local + 1 == seen <= global
    case RepinLoaded(g, seen) => g in rec.guards && rec.guards[g] <= seen <= global
    case RepinReclaimed(g, seen) => rec.pinCount == 1 && g in rec.guards && rec.local + 1 == seen <= global
  }

  /** The epoch the bags have been reclaimed up to. */
  ghost function BagEpoch(rec: Reactor): nat {
    if rec.pc.PinReclaimed? || rec.pc.RepinReclaimed? then rec.pc.seen else rec.local
  }

  ghost predicate GuardsOk(global: nat, serials: nat, r: nat, rec: Reactor) {
    && rec.pinCount == |rec.guards|
    && forall g :: g in rec.guards ==> g.owner == r && g.serial < serials && rec.local <= rec.guards[g] <= global
  }

  /** The local epoch is the global one or one less; live guards observed one of the two. */
  ghost predicate ReactorOk(global: nat, serials: nat, r: nat, rec: Reactor) {
    && rec.local <= global <= rec.local + 1
    && GuardsOk(global, serials, r, rec)
    && PcOk(global, rec)
  }

  ghost predicate ReactorsOk(s: State) {
    forall r :: 0 <= r < |s.reactors| ==> ReactorOk(s.global, s.serials, r, s.reactors[r])
  }

  /** Slots already read still hold at least the value read. */
  ghost predicate BumpOk(s: State, bump: Bump) {
    && bump.seen <= s.global
    && bump.next <= |s.reactors|
    && (bump.low.NoSlot? ==> bump.next == 0)
    && (bump.low.Low? ==> forall i :: 0 <= i < bump.next ==> bump.low.epoch <= s.reactors[i].local)
  }

  ghost predicate BumpsOk(s: State) {
    forall b :: b in s.bumps ==> BumpOk(s, s.bumps[b])
  }

  /** A guard still held since a deferral has kept its reactor's local epoch where it was. */
  ghost predicate HeldOk(s: State) {
    forall a, g :: a in s.deferrals && g in s.deferrals[a].held ==>
      HasGuard(s, g) && s.reactors[g.owner].local == s.deferrals[a].held[g]
  }

  ghost predicate BagsCurrent(s: State) {
    forall r :: 0 <= r < |s.reactors| ==> Current(s.reactors[r].bags, BagEpoch(s.reactors[r]))
  }

  ghost predicate Bagged(s: State, r: nat, e: Entry<Alloc>) {
    r < |s.reactors| && e in All(s.reactors[r].bags)
  }

  /** `e` records an allocation deferred by `r` that has not been freed. */
  ghost predicate Owed(s: State, r: nat, e: Entry<Alloc>) {
    && e.alloc in s.deferrals && e.alloc !in s.freed
    && s.deferrals[e.alloc].owner == r && s.deferrals[e.alloc].tag == e.tag
  }

  /** The bags hold exactly the deferred allocations that have not been freed. */
  ghost predicate BagsOk(s: State) {
    forall r: nat, e :: Bagged(s, r, e) <==> Owed(s, r, e)
  }

  /** Any guard held through the free was on a reactor ahead of the tag. */
  ghost predicate FreedOk(s: State) {
    forall a :: a in s.freed ==>
      a in s.deferrals && forall g :: g in s.freed[a] ==> s.deferrals[a].tag < s.freed[a][g]
  }

  ghost predicate Inv(s: State) {
    ReactorsOk(s) && BumpsOk(s) && HeldOk(s) && BagsCurrent(s) && BagsOk(s) && FreedOk(s)
  }

  // ---- Preservation ----

  lemma OnlyKey<V>(m: map<Guard, V>, g: Guard, h: Guard)
    requires |m| == 1 && g in m && h in m
    ensures g == h
  {
    assert |m.Keys - {g}| == 0;
    assert h !in m.Keys - {g};
  }

  lemma InitInv(n: nat)
    ensures Inv(Init(n))
  {
  }

  /** `t` differs from `s` in reactor `r` alone, whose local epoch did not move back. */
  ghost predicate OneReactor(s: State, t: State, r: nat) {
    && r < |s.reactors| == |t.reactors|
    && t.global == s.global && t.serials >= s.serials
    && (forall i :: 0 <= i < |s.reactors| && i != r ==> t.reactors[i] == s.reactors[i])
    && s.reactors[r].local <= t.reactors[r].local
  }

  lemma ReactorsFrame(s: State, t: State, r: nat)
    requires ReactorsOk(s) && OneReactor(s, t, r)
    requires ReactorOk(t.global, t.serials, r, t.reactors[r])
    ensures ReactorsOk(t)
  {
  }

  lemma BumpsFrame(s: State, t: State, r: nat)
    requires BumpsOk(s) && OneReactor(s, t, r) && t.bumps == s.bumps
    ensures BumpsOk(t)
  {
    forall b | b in t.bumps ensures BumpOk(t, t.bumps[b]) {
      assert BumpOk(s, s.bumps[b]);
    }
  }

  /** Bags, tags and frees untouched. */
  ghost predicate SameGarbage(s: State, t: State) {
    && t.freed == s.freed
    && t.deferrals.Keys == s.deferrals.Keys
    && (forall a :: a in s.deferrals ==>
          t.deferrals[a].owner == s.deferrals[a].owner && t.deferrals[a].tag == s.deferrals[a].tag)
  }

  lemma GarbageFrame(s: State, t: State, r: nat)
    requires BagsCurrent(s) && BagsOk(s) && FreedOk(s) && OneReactor(s, t, r) && SameGarbage(s, t)
    requires t.reactors[r].bags == s.reactors[r].bags && BagEpoch(t.reactors[r]) == BagEpoch(s.reactors[r])
    ensures BagsCurrent(t) && BagsOk(t) && FreedOk(t)
  {
    forall q: nat, e ensures Bagged(t, q, e) <==> Owed(t, q, e) {
      assert Bagged(s, q, e) <==> Owed(s, q, e);
    }
  }

  /** Held guards survive a step that keeps the guards and the local epoch of their reactor. */
  lemma HeldFrame(s: State, t: State, r: nat)
    requires HeldOk(s) && OneReactor(s, t, r) && t.deferrals == s.deferrals
    requires forall g :: g in s.reactors[r].guards ==> g in t.reactors[r].guards
    requires s.reactors[r].guards == map[] || t.reactors[r].local == s.reactors[r].local
    ensures HeldOk(t)
  {
    forall a, g | a in t.deferrals && g in t.deferrals[a].held
      ensures HasGuard(t, g) && t.reactors[g.owner].local == t.deferrals[a].held[g]
    {
      assert HasGuard(s, g);
    }
  }

  /** Held guards survive a step that releases `g` and otherwise keeps guards. */
  lemma ReleaseFrame(s: State, t: State, g: Guard)
    requires HeldOk(s) && OneReactor(s, t, g.owner) && t.deferrals == Release(s.deferrals, g)
    requires forall h :: h in s.reactors[g.owner].guards && h != g ==>
      h in t.reactors[g.owner].guards && t.reactors[g.owner].local == s.reactors[g.owner].local
    ensures HeldOk(t) && SameGarbage(s, t.(freed := s.freed))
  {
    forall a, h | a in t.deferrals && h in t.deferrals[a].held
      ensures HasGuard(t, h) && t.reactors[h.owner].local == t.deferrals[a].held[h]
    {
      assert h in s.deferrals[a].held && HasGuard(s, h) && h != g;
    }
  }

  lemma AddGuardInv(s: State, r: nat, local: nat)
    requires Inv(s) && r < |s.reactors|
    requires s.reactors[r].pc.Ready? || s.reactors[r].pc.PinLoaded? ==> local == s.reactors[r].local
    requires s.reactors[r].pc.PinReclaimed? ==> local == s.reactors[r].pc.seen
    requires !s.reactors[r].pc.RepinLoaded? && !s.reactors[r].pc.RepinReclaimed?
    ensures Inv(AddGuard(s, r, local))
  {
    var rec := s.reactors[r];
    var t := AddGuard(s, r, local);
    assert ReactorOk(s.global, s.serials, r, rec);
    AddGuardReactor(s, r, local);
    assert OneReactor(s, t, r);
    ReactorsFrame(s, t, r);
    BumpsFrame(s, t, r);
    HeldFrame(s, t, r);
    GarbageFrame(s, t, r);
  }

  lemma AddGuardReactor(s: State, r: nat, local: nat)
    requires r < |s.reactors| && ReactorOk(s.global, s.serials, r, s.reactors[r])
    requires s.reactors[r].local <= local <= s.global
    requires local == s.reactors[r].local || s.reactors[r].pinCount == 0
    ensures var t := AddGuard(s, r, local); ReactorOk(t.global, t.serials, r, t.reactors[r])
  {
    var g := Guard(r, s.serials);
    var guards := s.reactors[r].guards;
    assert g !in guards;
    assert guards[g := local].Keys == guards.Keys + {g};
  }

  lemma UnpinInv(s: State, g: Guard)
    requires Inv(s) && Enabled(s, Unpin(g))
    ensures Inv(Apply(s, Unpin(g)))
  {
    var t := Apply(s, Unpin(g));
    var rec := s.reactors[g.owner];
    assert ReactorOk(s.global, s.serials, g.owner, rec);
    assert t.reactors[g.owner].guards.Keys == rec.guards.Keys - {g};
    assert ReactorOk(t.global, t.serials, g.owner, t.reactors[g.owner]);
    assert OneReactor(s, t, g.owner);
    ReactorsFrame(s, t, g.owner);
    BumpsFrame(s, t, g.owner);
    ReleaseFrame(s, t, g);
    GarbageFrame(s, t, g.owner);
  }

  /** Steps that only move a reactor's program counter. */
  lemma PcInv(s: State, x: Action)
    requires Inv(s) && Enabled(s, x) && (x.PinLoad? || x.RepinLoad? || x.RepinSame?)
    ensures Inv(Apply(s, x))
  {
    var t := Apply(s, x);
    var r := if x.RepinLoad? then x.g.owner else x.r;
    assert ReactorOk(s.global, s.serials, r, s.reactors[r]);
    assert ReactorOk(t.global, t.serials, r, t.reactors[r]);
    OwnRecord(s, t, r);
  }

  /** A step that changes only the record of `r`, keeping its local epoch, its guards and its bags. */
  lemma OwnRecord(s: State, t: State, r: nat)
    requires Inv(s) && OneReactor(s, t, r) && t.bumps == s.bumps && t.deferrals == s.deferrals && t.freed == s.freed
    requires ReactorOk(t.global, t.serials, r, t.reactors[r])
    requires t.reactors[r].local == s.reactors[r].local && t.reactors[r].guards.Keys == s.reactors[r].guards.Keys
    requires t.reactors[r].bags == s.reactors[r].bags && BagEpoch(t.reactors[r]) == BagEpoch(s.reactors[r])
    ensures Inv(t)
  {
    ReactorsFrame(s, t, r);
    BumpsFrame(s, t, r);
    HeldFrame(s, t, r);
    GarbageFrame(s, t, r);
  }

  lemma RepinNestedInv(s: State, r: nat)
    requires Inv(s) && Enabled(s, RepinNested(r))
    ensures Inv(Apply(s, RepinNested(r)))
  {
    var t := Apply(s, RepinNested(r));
    assert ReactorOk(s.global, s.serials, r, s.reactors[r]);
    assert t.reactors[r].guards.Keys == s.reactors[r].guards.Keys;
    assert ReactorOk(t.global, t.serials, r, t.reactors[r]);
    OwnRecord(s, t, r);
  }

  lemma RepinStoreInv(s: State, r: nat)
    requires Inv(s) && Enabled(s, RepinStore(r))
    ensures Inv(Apply(s, RepinStore(r)))
  {
    var t := Apply(s, RepinStore(r));
    var rec := s.reactors[r];
    var g := rec.pc.guard;
    assert ReactorOk(s.global, s.serials, r, rec);
    assert t.reactors[r].guards.Keys == rec.guards.Keys;
    forall h | h in rec.guards ensures h == g {
      OnlyKey(rec.guards, g, h);
    }
    assert ReactorOk(t.global, t.serials, r, t.reactors[r]);
    assert OneReactor(s, t, r);
    ReactorsFrame(s, t, r);
    BumpsFrame(s, t, r);
    ReleaseFrame(s, t, g);
    GarbageFrame(s, t, r);
  }

  lemma DeferInv(s: State, r: nat, a: Alloc)
    requires Inv(s) && Enabled(s, DeferDelete(r, a))
    ensures Inv(Apply(s, DeferDelete(r, a)))
  {
    var t := Apply(s, DeferDelete(r, a));
    assert ReactorOk(s.global, s.serials, r, s.reactors[r]);
    assert ReactorOk(t.global, t.serials, r, t.reactors[r]);
    assert OneReactor(s, t, r);
    ReactorsFrame(s, t, r);
    BumpsFrame(s, t, r);
    DeferHeld(s, t, a);
    DeferGarbage(s, r, a);
  }

  lemma DeferHeld(s: State, t: State, a: Alloc)
    requires HeldOk(s) && ReactorsOk(s) && |t.reactors| == |s.reactors| && a !in s.deferrals
    requires forall i :: 0 <= i < |s.reactors| ==>
      t.reactors[i].local == s.reactors[i].local && t.reactors[i].guards == s.reactors[i].guards
    requires a in t.deferrals && t.deferrals == s.deferrals[a := t.deferrals[a]] && t.deferrals[a].held == Observed(s)
    ensures HeldOk(t)
  {
    forall b, g | b in t.deferrals && g in t.deferrals[b].held
      ensures HasGuard(t, g) && t.reactors[g.owner].local == t.deferrals[b].held[g]
    {
      if b == a {
        var q :| 0 <= q < |s.reactors| && g in s.reactors[q].guards;
        assert ReactorOk(s.global, s.serials, q, s.reactors[q]);
      } else {
        assert HasGuard(s, g);
      }
    }
  }

  lemma DeferGarbage(s: State, r: nat, a: Alloc)
    requires Inv(s) && Enabled(s, DeferDelete(r, a))
    ensures var t := Apply(s, DeferDelete(r, a)); BagsCurrent(t) && BagsOk(t) && FreedOk(t)
  {
    var t := Apply(s, DeferDelete(r, a));
    DeferAdds(s.reactors[r].bags, s.reactors[r].local, a);
    forall q: nat, e ensures Bagged(t, q, e) <==> Owed(t, q, e) {
      DeferEntry(s, r, a, q, e);
    }
  }

  lemma DeferEntry(s: State, r: nat, a: Alloc, q: nat, e: Entry<Alloc>)
    requires BagsCurrent(s) && FreedOk(s) && Enabled(s, DeferDelete(r, a))
    requires Bagged(s, q, e) <==> Owed(s, q, e)
    ensures var t := Apply(s, DeferDelete(r, a)); Bagged(t, q, e) <==> Owed(t, q, e)
  {
    if q == r {
      DeferMembers(s.reactors[r].bags, s.reactors[r].local, a, e);
    }
  }

  lemma BumpInv(s: State, x: Action)
    requires Inv(s) && Enabled(s, x)
    requires x.BumpLoad? || x.BumpRead?
    ensures Inv(Apply(s, x))
  {
    var t := Apply(s, x);
    if x.BumpRead? {
      BumpReadOk(s, s.bumps[x.b]);
    }
    BumpAdded(s, t, x.b);
    SameButGlobal(s, t);
  }

  lemma BumpReadOk(s: State, bump: Bump)
    requires BumpOk(s, bump) && bump.next < |s.reactors|
    ensures var local := s.reactors[bump.next].local;
            BumpOk(s, bump.(next := bump.next + 1,
                            low := if bump.low.Low? && bump.low.epoch < local then bump.low else Low(local)))
  {
  }

  lemma BumpAdded(s: State, t: State, b: nat)
    requires BumpsOk(s) && t.reactors == s.reactors && t.global == s.global
    requires b in t.bumps && BumpOk(s, t.bumps[b])
    requires forall c :: c in t.bumps && c != b ==> c in s.bumps && t.bumps[c] == s.bumps[c]
    ensures BumpsOk(t)
  {
    forall c | c in t.bumps ensures BumpOk(t, t.bumps[c]) {
      assert BumpOk(s, t.bumps[c]);
    }
  }

  /** A successful compare-exchange means every reactor was seen at the current epoch, so all lags become one. */
  lemma BumpFinishInv(s: State, b: nat)
    requires Inv(s) && Enabled(s, BumpFinish(b))
    ensures Inv(Apply(s, BumpFinish(b)))
  {
    var t := Apply(s, BumpFinish(b));
    var bump := s.bumps[b];
    assert BumpOk(s, bump);
    FewerBumps(s, t);
    forall r | 0 <= r < |s.reactors| ensures ReactorOk(t.global, t.serials, r, t.reactors[r]) {
      assert ReactorOk(s.global, s.serials, r, s.reactors[r]);
      assert bump.low.epoch <= s.reactors[r].local;
    }
    SameButGlobal(s, t);
  }

  lemma FewerBumps(s: State, t: State)
    requires BumpsOk(s) && t.reactors == s.reactors && s.global <= t.global
    requires forall c :: c in t.bumps ==> c in s.bumps && t.bumps[c] == s.bumps[c]
    ensures BumpsOk(t)
  {
    forall c | c in t.bumps ensures BumpOk(t, t.bumps[c]) {
      assert BumpOk(s, s.bumps[c]);
    }
  }

  lemma SameButGlobal(s: State, t: State)
    requires HeldOk(s) && BagsCurrent(s) && BagsOk(s) && FreedOk(s)
    requires t.reactors == s.reactors && t.deferrals == s.deferrals && t.freed == s.freed
    ensures HeldOk(t) && BagsCurrent(t) && BagsOk(t) && FreedOk(t)
  {
    forall a, g | a in t.deferrals && g in t.deferrals[a].held
      ensures HasGuard(t, g) && t.reactors[g.owner].local == t.deferrals[a].held[g]
    {
      assert HasGuard(s, g);
    }
    forall q: nat, e ensures Bagged(t, q, e) <==> Owed(t, q, e) {
      assert Bagged(s, q, e) <==> Owed(s, q, e);
    }
  }

  /** The reactor that reclaims is about to move one epoch ahead, to the epoch it loaded, which is still current. */
  lemma ReclaimGap(s: State, x: Action)
    requires Inv(s) && Enabled(s, x) && (x.PinReclaim? || x.RepinReclaim?)
    ensures var rec := s.reactors[x.r];
            && rec.pc.seen == rec.local + 1 == s.global
            && (x.RepinReclaim? ==> rec.guards[rec.pc.guard] == rec.local)
  {
    assert ReactorOk(s.global, s.serials, x.r, s.reactors[x.r]);
  }

  /** State and program counter in which `Free` runs. */
  ghost predicate AtReclaim(s: State, r: nat, pc: Pc) {
    && r < |s.reactors|
    && var rec := s.reactors[r];
       && s.global == rec.local + 1
       && (|| (rec.pc == PinLoaded(s.global) && pc == PinReclaimed(s.global))
           || (rec.pc.RepinLoaded? && rec.pinCount == 1 && pc == RepinReclaimed(rec.pc.guard, s.global)))
  }

  lemma FreeInv(s: State, r: nat, pc: Pc)
    requires Inv(s) && AtReclaim(s, r, pc)
    ensures Inv(Free(s, r, s.reactors[r].local, s.global, pc))
  {
    var rec := s.reactors[r];
    var t := Free(s, r, rec.local, s.global, pc);
    assert ReactorOk(s.global, s.serials, r, rec);
    assert ReactorOk(t.global, t.serials, r, t.reactors[r]);
    assert OneReactor(s, t, r);
    ReactorsFrame(s, t, r);
    BumpsFrame(s, t, r);
    HeldFrame(s, t, r);
    FreeGarbage(s, r, pc);
    FreeFreed(s, r, pc);
  }

  lemma FreeGarbage(s: State, r: nat, pc: Pc)
    requires BagsCurrent(s) && BagsOk(s) && AtReclaim(s, r, pc)
    ensures var t := Free(s, r, s.reactors[r].local, s.global, pc); BagsCurrent(t) && BagsOk(t)
  {
    var rec := s.reactors[r];
    var t := Free(s, r, rec.local, s.global, pc);
    ReclaimRefinesPlainList(rec.bags, rec.local, s.global);
    forall q: nat, e ensures Bagged(t, q, e) <==> Owed(t, q, e) {
      assert Bagged(s, q, e) <==> Owed(s, q, e);
      if e.alloc in s.deferrals {
        var o := s.deferrals[e.alloc];
        assert Bagged(s, r, Entry(o.tag, e.alloc)) <==> Owed(s, r, Entry(o.tag, e.alloc));
        ReclaimMembers(rec.bags, rec.local, s.global, Entry(o.tag, e.alloc));
      }
      if q == r {
        ReclaimMembers(rec.bags, rec.local, s.global, e);
      }
    }
  }

  lemma FreeFreed(s: State, r: nat, pc: Pc)
    requires Inv(s) && AtReclaim(s, r, pc)
    ensures FreedOk(Free(s, r, s.reactors[r].local, s.global, pc))
  {
    var rec := s.reactors[r];
    var t := Free(s, r, rec.local, s.global, pc);
    forall a, g | a in t.freed && g in t.freed[a] ensures a in t.deferrals && t.deferrals[a].tag < t.freed[a][g] {
      if a in s.deferrals && Entry(s.deferrals[a].tag, a) in Reclaimed(rec.bags, rec.local, s.global) {
        ReclaimMembers(rec.bags, rec.local, s.global, Entry(s.deferrals[a].tag, a));
        assert HasGuard(s, g);
        assert ReactorOk(s.global, s.serials, g.owner, s.reactors[g.owner]);
      }
    }
  }

  lemma StepInv(s: State, x: Action)
    requires Inv(s) && Enabled(s, x)
    ensures Inv(Apply(s, x))
  {
    hide Inv;
    match x
    case PinNested(r) => AddGuardInv(s, r, s.reactors[r].local);
    case PinStore(r) => AddGuardInv(s, r, s.reactors[r].pc.seen);
    case PinSame(r) => AddGuardInv(s, r, s.reactors[r].local);
    case PinReclaim(r) => ReclaimGap(s, x); FreeInv(s, r, PinReclaimed(s.global));
    case RepinReclaim(r) => ReclaimGap(s, x); FreeInv(s, r, RepinReclaimed(s.reactors[r].pc.guard, s.global));
    case Unpin(g) => UnpinInv(s, g);
    case RepinStore(r) => RepinStoreInv(s, r);
    case DeferDelete(r, a) => DeferInv(s, r, a);
    case BumpLoad(b) => BumpInv(s, x);
    case BumpRead(b) => BumpInv(s, x);
    case BumpFinish(b) => BumpFinishInv(s, b);
    case PinLoad(r) => PcInv(s, x);
    case RepinLoad(g) => PcInv(s, x);
    case RepinSame(r) => PcInv(s, x);
    case RepinNested(r) => RepinNestedInv(s, r);
  }
}
