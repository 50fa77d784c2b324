/** One turn of the reactor loop: which queue the next future comes from, and how long a future can wait. */
module ReactorTurns {
  const EXTERNAL_PRIORITY_STREAK: nat := 8
  const U32_MAX: nat := 0xFFFF_FFFF

  /** A future waiting for its time. */
  datatype Delayed<T> = Delayed(at: nat, future: T)

  /** The queues the loop serves: futures from other reactors, completed I/O, timers by time, local futures. */
  datatype Loop<T> = Loop(streak: nat, external: seq<T>, io: seq<T>, delayed: seq<Delayed<T>>, active: seq<T>)

  datatype Pick<T> = External(future: T) | Completed(future: T) | Timer(future: T) | Active(future: T) | Idle

  function SatInc(n: nat): nat { if n >= U32_MAX then U32_MAX else n + 1 }

  /** I/O goes first once the streak of external picks is long enough. */
  predicate GiveIoTurn<T>(s: Loop<T>) { s.streak >= EXTERNAL_PRIORITY_STREAK }

  /** What is left when neither external futures nor completions are waiting. */
  function PickLocal<T>(s: Loop<T>, now: nat): (Loop<T>, Pick<T>) {
    if s.delayed != [] && now >= s.delayed[0].at then (s.(delayed := s.delayed[1..]), Timer(s.delayed[0].future))
    else if s.active != [] then (s.(active := s.active[1..]), Active(s.active[0]))
    else (s, Idle)
  }

  function Turn<T>(s: Loop<T>, now: nat): (Loop<T>, Pick<T>) {
    if GiveIoTurn(s) && s.io != [] then (s.(streak := 0, io := s.io[1..]), Completed(s.io[0]))
    else if s.external != [] then
      (s.(streak := SatInc(s.streak), external := s.external[1..]), External(s.external[0]))
    else if s.io != [] then (s.(streak := 0, io := s.io[1..]), Completed(s.io[0]))
    else PickLocal(s.(streak := 0), now)
  }

  // ---- Runs ----

  /** What arrives before a turn, and the time of the turn. */
  datatype Arrivals<T> = Arrivals(external: seq<T>, io: seq<T>, now: nat)

  function Arrive<T>(s: Loop<T>, a: Arrivals<T>): Loop<T> {
    s.(external := s.external + a.external, io := s.io + a.io)
  }

  /** The picks of the turns that follow the given arrivals. */
  function Picks<T>(s: Loop<T>, arrivals: seq<Arrivals<T>>): (r: seq<Pick<T>>)
    ensures |r| == |arrivals|
    decreases |arrivals|
  {
    if arrivals == [] then []
    else
      var (t, pick) := Turn(Arrive(s, arrivals[0]), arrivals[0].now);
      [pick] + Picks(t, arrivals[1..])
  }

  lemma PicksStep<T>(s: Loop<T>, arrivals: seq<Arrivals<T>>)
    requires arrivals != []
    ensures var (t, pick) := Turn(Arrive(s, arrivals[0]), arrivals[0].now);
      Picks(s, arrivals) == [pick] + Picks(t, arrivals[1..])
  {
  }

  function Capped(streak: nat): nat {
    if streak < EXTERNAL_PRIORITY_STREAK then streak else EXTERNAL_PRIORITY_STREAK
  }

  /** Turns the external future at position `p` may take: one for each future up to it, and one I/O turn for every
      eight. */
  function ExternalBound(streak: nat, p: nat): nat { p + 1 + (p + Capped(streak)) / EXTERNAL_PRIORITY_STREAK }

  /** Whatever arrives, the external future at position `p` runs within its bound. */
  lemma {:induction false} ExternalRunsWithin<T>(s: Loop<T>, p: nat, arrivals: seq<Arrivals<T>>) returns (k: nat)
    requires p < |s.external| && ExternalBound(s.streak, p) <= |arrivals|
    ensures k < ExternalBound(s.streak, p) && Picks(s, arrivals)[k] == External(s.external[p])
    decreases |arrivals|
  {
    hide Picks;
    PicksStep(s, arrivals);
    var u := Arrive(s, arrivals[0]);
    var (t, pick) := Turn(u, arrivals[0].now);
    if GiveIoTurn(u) && u.io != [] {
      assert t.external[p] == s.external[p];
      k := ExternalRunsWithin(t, p, arrivals[1..]);
      k := k + 1;
    } else if p == 0 {
      k := 0;
    } else {
      assert t.external[p - 1] == s.external[p];
      k := ExternalRunsWithin(t, p - 1, arrivals[1..]);
      k := k + 1;
    }
  }

  /** Turns the completion at position `p` may take: nine for each completion up to it. */
  function IoBound(streak: nat, p: nat): nat { (EXTERNAL_PRIORITY_STREAK + 1) * (p + 1) - Capped(streak) }

  /** Whatever arrives, the completed I/O at position `p` is delivered within its bound. */
  lemma {:induction false} IoDeliveredWithin<T>(s: Loop<T>, p: nat, arrivals: seq<Arrivals<T>>) returns (k: nat)
    requires p < |s.io| && IoBound(s.streak, p) <= |arrivals|
    ensures k < IoBound(s.streak, p) && Picks(s, arrivals)[k] == Completed(s.io[p])
    decreases |arrivals|
  {
    hide Picks;
    PicksStep(s, arrivals);
    var u := Arrive(s, arrivals[0]);
    var (t, pick) := Turn(u, arrivals[0].now);
    if !GiveIoTurn(u) && u.external != [] {
      assert t.io[p] == s.io[p];
      k := IoDeliveredWithin(t, p, arrivals[1..]);
      k := k + 1;
    } else if p == 0 {
      k := 0;
    } else {
      assert t.io[p - 1] == s.io[p];
      k := IoDeliveredWithin(t, p - 1, arrivals[1..]);
      k := k + 1;
    }
  }

  /** The same run, seen from after the first arrivals. */
  lemma ArrivedAlready<T>(s: Loop<T>, arrivals: seq<Arrivals<T>>)
    requires arrivals != []
    ensures Picks(s, arrivals) ==
      Picks(Arrive(s, arrivals[0]), [Arrivals([], [], arrivals[0].now)] + arrivals[1..])
  {
    var u := Arrive(s, arrivals[0]);
    var later := [Arrivals([], [], arrivals[0].now)] + arrivals[1..];
    assert Arrive(u, later[0]) == u && later[1..] == arrivals[1..];
  }

  /** In any nine consecutive turns of which the first finds a completion ready, at least one is delivered. */
  lemma NineTurnsDeliverIo<T>(s: Loop<T>, arrivals: seq<Arrivals<T>>) returns (k: nat)
    requires |arrivals| >= EXTERNAL_PRIORITY_STREAK + 1 && Arrive(s, arrivals[0]).io != []
    ensures k < EXTERNAL_PRIORITY_STREAK + 1 && Picks(s, arrivals)[k].Completed?
  {
    ArrivedAlready(s, arrivals);
    k := IoDeliveredWithin(Arrive(s, arrivals[0]), 0, [Arrivals([], [], arrivals[0].now)] + arrivals[1..]);
  }

  /** In any two consecutive turns of which the first finds an external future, at least one external future runs. */
  lemma TwoTurnsRunExternal<T>(s: Loop<T>, arrivals: seq<Arrivals<T>>) returns (k: nat)
    requires |arrivals| >= 2 && Arrive(s, arrivals[0]).external != []
    ensures k < 2 && Picks(s, arrivals)[k].External?
  {
    ArrivedAlready(s, arrivals);
    k := ExternalRunsWithin(Arrive(s, arrivals[0]), 0, [Arrivals([], [], arrivals[0].now)] + arrivals[1..]);
  }

  // ---- Which queue a turn serves ----

  /** The first timer is due. */
  predicate Due<T>(s: Loop<T>, now: nat) { s.delayed != [] && now >= s.delayed[0].at }

  /** A turn is idle only with nothing to do; a timer runs only when due, ahead of local futures; both only when neither
      external futures nor completions wait; and each pick is the head of its queue, the others untouched. */
  lemma TurnServes<T>(s: Loop<T>, now: nat)
    ensures var (t, pick) := Turn(s, now);
      && (pick.Idle? <==> s.external == [] && s.io == [] && !Due(s, now) && s.active == [])
      && (pick.Timer? <==> s.external == [] && s.io == [] && Due(s, now))
      && (pick.Active? <==> s.external == [] && s.io == [] && !Due(s, now) && s.active != [])
      && (pick.Completed? <==> s.io != [] && (s.external == [] || s.streak >= EXTERNAL_PRIORITY_STREAK))
      && s.external == Taken(pick.External?, pick) + t.external && s.io == Taken(pick.Completed?, pick) + t.io
      && s.active == Taken(pick.Active?, pick) + t.active
      && Futures(s.delayed) == Taken(pick.Timer?, pick) + Futures(t.delayed)
  {
    if Due(s, now) {
      assert s.delayed == [s.delayed[0]] + s.delayed[1..];
    }
  }

  /** The future of a pick of the kind asked for. */
  function Taken<T>(yes: bool, pick: Pick<T>): seq<T> { if yes && !pick.Idle? then [pick.future] else [] }

  function Futures<T>(delayed: seq<Delayed<T>>): seq<T> {
    if delayed == [] then [] else [delayed[0].future] + Futures(delayed[1..])
  }

  datatype Kind = FromExternal | FromIo | FromTimers | FromActive

  predicate IsFrom<T>(pick: Pick<T>, kind: Kind) {
    match kind
    case FromExternal => pick.External?
    case FromIo => pick.Completed?
    case FromTimers => pick.Timer?
    case FromActive => pick.Active?
  }

  function Waiting<T>(s: Loop<T>, kind: Kind): seq<T> {
    match kind
    case FromExternal => s.external
    case FromIo => s.io
    case FromTimers => Futures(s.delayed)
    case FromActive => s.active
  }

  /** Everything that arrives for the queue along a run. */
  function Arriving<T>(arrivals: seq<Arrivals<T>>, kind: Kind): seq<T> {
    if arrivals == [] then []
    else
      (match kind
       case FromExternal => arrivals[0].external
       case FromIo => arrivals[0].io
       case _ => []) + Arriving(arrivals[1..], kind)
  }

  /** The futures picked from the queue, in order. */
  function Served<T>(picks: seq<Pick<T>>, kind: Kind): seq<T> {
    if picks == [] then [] else Taken(IsFrom(picks[0], kind), picks[0]) + Served(picks[1..], kind)
  }

  function After<T>(s: Loop<T>, arrivals: seq<Arrivals<T>>): Loop<T>
    decreases |arrivals|
  {
    if arrivals == [] then s else After(Turn(Arrive(s, arrivals[0]), arrivals[0].now).0, arrivals[1..])
  }

  lemma Regroup<T>(a: seq<T>, now: seq<T>, later: seq<T>, first: seq<T>, rest: seq<T>, served: seq<T>, left: seq<T>)
    requires a + now == first + rest && rest + later == served + left
    ensures a + (now + later) == first + served + left
  {
    assert a + (now + later) == a + now + later == first + (rest + later) == first + served + left;
  }

  lemma ServedStep<T>(s: Loop<T>, a: Arrivals<T>, kind: Kind)
    ensures var (t, pick) := Turn(Arrive(s, a), a.now);
      Waiting(s, kind) + Arriving([a], kind) == Taken(IsFrom(pick, kind), pick) + Waiting(t, kind)
  {
    hide Turn;
    TurnServes(Arrive(s, a), a.now);
    assert [a][1..] == [];
  }

  lemma ArrivingCons<T>(arrivals: seq<Arrivals<T>>, kind: Kind)
    requires arrivals != []
    ensures Arriving(arrivals, kind) == Arriving([arrivals[0]], kind) + Arriving(arrivals[1..], kind)
  {
    assert [arrivals[0]][1..] == [];
  }

  /** Every queue is served first in, first out, over every run: what has been picked from it and what still waits are
      together what waited and what arrived. */
  lemma {:induction false} EveryQueueInOrder<T>(s: Loop<T>, arrivals: seq<Arrivals<T>>, kind: Kind)
    ensures Waiting(s, kind) + Arriving(arrivals, kind) ==
      Served(Picks(s, arrivals), kind) + Waiting(After(s, arrivals), kind)
    decreases |arrivals|
  {
    hide Picks, Turn, Arriving, Waiting, Taken, IsFrom;
    if arrivals == [] {
      NothingArrives<T>(kind);
      assert Picks(s, arrivals) == [];
    } else {
      var (t, pick) := Turn(Arrive(s, arrivals[0]), arrivals[0].now);
      PicksStep(s, arrivals);
      ArrivingCons(arrivals, kind);
      ServedStep(s, arrivals[0], kind);
      EveryQueueInOrder(t, arrivals[1..], kind);
      assert Picks(s, arrivals)[1..] == Picks(t, arrivals[1..]);
      Regroup(Waiting(s, kind), Arriving([arrivals[0]], kind), Arriving(arrivals[1..], kind),
              Taken(IsFrom(pick, kind), pick), Waiting(t, kind), Served(Picks(t, arrivals[1..]), kind),
              Waiting(After(s, arrivals), kind));
    }
  }

  lemma NothingArrives<T>(kind: Kind)
    ensures Arriving<T>([], kind) == []
  {
  }

  // ---- The streak ----

  /** External picks at the end of a run, after `first` of them before it. */
  function Trailing<T>(picks: seq<Pick<T>>, first: nat): nat {
    if picks == [] then first
    else if picks[|picks| - 1].External? then Trailing(picks[..|picks| - 1], first) + 1 else 0
  }

  lemma {:induction false} TrailingCons<T>(pick: Pick<T>, picks: seq<Pick<T>>, first: nat)
    ensures Trailing([pick] + picks, first) == Trailing(picks, if pick.External? then first + 1 else 0)
    decreases |picks|
  {
    if picks == [] {
      assert ([pick] + picks)[..0] == [];
    } else {
      assert ([pick] + picks)[..|picks|] == [pick] + picks[..|picks| - 1];
      TrailingCons(pick, picks[..|picks| - 1], first);
    }
  }

  lemma {:induction false} TrailingCapped<T>(picks: seq<Pick<T>>, a: nat, b: nat)
    requires a == b || (a >= U32_MAX && b >= U32_MAX)
    ensures CappedAt(Trailing(picks, a)) == CappedAt(Trailing(picks, b))
    decreases |picks|
  {
    if picks != [] {
      TrailingCapped(picks[..|picks| - 1], a, b);
    }
  }

  function CappedAt(n: nat): nat { if n < U32_MAX then n else U32_MAX }

  lemma TurnStreak<T>(s: Loop<T>, now: nat)
    ensures Turn(s, now).0.streak == if Turn(s, now).1.External? then SatInc(s.streak) else 0
  {
  }

  /** After any run the streak is the number of external picks since the last pick of another kind or idle turn,
      saturating at the width of its counter. */
  lemma {:induction false} StreakCounts<T>(s: Loop<T>, arrivals: seq<Arrivals<T>>)
    requires s.streak <= U32_MAX
    ensures After(s, arrivals).streak == CappedAt(Trailing(Picks(s, arrivals), s.streak))
    decreases |arrivals|
  {
    hide Turn, Picks, Trailing;
    if arrivals == [] {
      assert Picks(s, arrivals) == [];
      TrailingNone<T>(s.streak);
    } else {
      var u := Arrive(s, arrivals[0]);
      var (t, pick) := Turn(u, arrivals[0].now);
      PicksStep(s, arrivals);
      TurnStreak(u, arrivals[0].now);
      StreakCounts(t, arrivals[1..]);
      TrailingCons(pick, Picks(t, arrivals[1..]), s.streak);
      TrailingCapped(Picks(t, arrivals[1..]), t.streak, if pick.External? then s.streak + 1 else 0);
    }
  }

  lemma TrailingNone<T>(first: nat)
    ensures Trailing<T>([], first) == first
  {
  }

  // ---- Under sustained pressure ----

  /** Both queues are non-empty at every turn of the run. */
  predicate Saturated<T>(s: Loop<T>, arrivals: seq<Arrivals<T>>)
    decreases |arrivals|
  {
    arrivals != [] ==>
      var u := Arrive(s, arrivals[0]);
      u.external != [] && u.io != [] && Saturated(Turn(u, arrivals[0].now).0, arrivals[1..])
  }

  /** One saturated turn: a completion when the streak is full, an external otherwise. */
  lemma SaturatedTurn<T>(u: Loop<T>, now: nat)
    requires u.external != [] && u.io != [] && u.streak <= EXTERNAL_PRIORITY_STREAK
    ensures var (t, pick) := Turn(u, now);
      && (u.streak == EXTERNAL_PRIORITY_STREAK ==> pick.Completed? && t.streak == 0)
      && (u.streak < EXTERNAL_PRIORITY_STREAK ==> pick.External? && t.streak == u.streak + 1)
  {
  }

  /** Whether turn `k` of a saturated run that starts at the given streak delivers a completion. */
  predicate IsIoTurn(streak: nat, k: nat) {
    (streak + k) % (EXTERNAL_PRIORITY_STREAK + 1) == EXTERNAL_PRIORITY_STREAK
  }

  lemma IoTurnShifts(streak: nat, k: nat)
    requires streak <= EXTERNAL_PRIORITY_STREAK
    ensures IsIoTurn(streak, 0) <==> streak == EXTERNAL_PRIORITY_STREAK
    ensures IsIoTurn(if streak == EXTERNAL_PRIORITY_STREAK then 0 else streak + 1, k) <==> IsIoTurn(streak, k + 1)
  {
    AddPeriod(k);
    assert streak == EXTERNAL_PRIORITY_STREAK ==> streak + (k + 1) == k + (EXTERNAL_PRIORITY_STREAK + 1);
    assert streak + 1 + k == streak + (k + 1);
  }

  lemma AddPeriod(k: nat)
    ensures (k + (EXTERNAL_PRIORITY_STREAK + 1)) % (EXTERNAL_PRIORITY_STREAK + 1) == k % (EXTERNAL_PRIORITY_STREAK + 1)
  {
  }

  /** With both queues never empty the bounds are met exactly: the picks repeat eight externals and one completion. */
  lemma {:induction false} SaturatedPattern<T>(s: Loop<T>, arrivals: seq<Arrivals<T>>, k: nat)
    requires Saturated(s, arrivals) && k < |arrivals| && s.streak <= EXTERNAL_PRIORITY_STREAK
    ensures Picks(s, arrivals)[k].Completed? <==> IsIoTurn(s.streak, k)
    ensures Picks(s, arrivals)[k].External? <==> !IsIoTurn(s.streak, k)
    decreases |arrivals|
  {
    hide Picks, Turn, IsIoTurn;
    PicksStep(s, arrivals);
    var u := Arrive(s, arrivals[0]);
    SaturatedTurn(u, arrivals[0].now);
    IoTurnShifts(s.streak, if k > 0 then k - 1 else 0);
    if k > 0 {
      SaturatedPattern(Turn(u, arrivals[0].now).0, arrivals[1..], k - 1);
    }
  }

  // ---- The loop's own queues ----

  class Reactor<T> {
    var externalStreak: nat
    var externalFutures: seq<T>
    var completedIo: seq<T>
    var delayedFutures: seq<Delayed<T>>
    var activeFutures: seq<T>

    ghost function View(): Loop<T>
      reads this
    {
      Loop(externalStreak, externalFutures, completedIo, delayedFutures, activeFutures)
    }

    constructor ()
      ensures View() == Loop(0, [], [], [], [])
    {
      externalStreak, externalFutures, completedIo, delayedFutures, activeFutures := 0, [], [], [], [];
    }

    method TakeCompletedIo() returns (r: Pick<T>)
      modifies `completedIo
      ensures r.Completed? || r.Idle?
      ensures r.Completed? <==> old(completedIo) != []
      ensures r.Completed? ==> r.future == old(completedIo)[0] && completedIo == old(completedIo)[1..]
      ensures r.Idle? ==> completedIo == old(completedIo)
    {
      if completedIo == [] {
        return Idle;
      }
      r := Completed(completedIo[0]);
      completedIo := completedIo[1..];
    }

    /** The picking part of one loop turn. */
    method NextFuture(now: nat) returns (pick: Pick<T>)
      modifies this
      ensures (View(), pick) == Turn(old(View()), now)
    {
      var giveIoTurn := externalStreak >= EXTERNAL_PRIORITY_STREAK;
      pick := Idle;
      if giveIoTurn {
        pick := TakeCompletedIo();
      }
      if !pick.Idle? {
        externalStreak := 0;
      } else if externalFutures != [] {
        pick := External(externalFutures[0]);
        externalFutures := externalFutures[1..];
        externalStreak := SatInc(externalStreak);
      } else {
        externalStreak := 0;
        if !giveIoTurn {
          pick := TakeCompletedIo();
        }
      }
      if pick.Idle? && delayedFutures != [] && now >= delayedFutures[0].at {
        pick := Timer(delayedFutures[0].future);
        delayedFutures := delayedFutures[1..];
      }
      if pick.Idle? && activeFutures != [] {
        pick := Active(activeFutures[0]);
        activeFutures := activeFutures[1..];
      }
    }
  }
}
