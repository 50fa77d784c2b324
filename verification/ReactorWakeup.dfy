/** The sleeping-flag handshake between one reactor and any number of senders and shutdown setters, over a memory in
    which a thread's stores wait in its own buffer until they reach the others. */
module ReactorWakeup {
  /** Which halves of the handshake have their fence. */
  datatype Config = Config(sleeperFence: bool, senderFence: bool)

  const AS_WRITTEN: Config := Config(true, true)

  /** A sender pushes a future on the external queue; a setter stores the shutdown flag. */
  datatype Store = PushFuture | SetShutdown(value: bool)

  /** Between its store and the end of its test of the sleeping flag. */
  datatype ThreadPc = Ready | Stored | Fenced | Waking

  datatype Thread = Thread(pc: ThreadPc, buffer: seq<Store>)

  /** The reactor on its way to sleep: the flag stored, fenced, the shutdown flag loaded, then blocked. `quiet` says
      it had neither active I/O nor timers when it loaded the shutdown flag, `exitReady` that the flag was also set. */
  datatype ReactorPc =
    | Running
    | FlagStored
    | FlagFenced
    | ShutdownLoaded(exitReady: bool, quiet: bool)
    | Blocked(quiet: bool)

  /** Shared memory, the wake token, the reactor with its buffered stores to the sleeping flag, and the threads. */
  datatype State = State(
    queue: nat, shutdown: bool, sleeping: bool, token: bool,
    pc: ReactorPc, flagBuffer: seq<bool>, threads: map<nat, Thread>)

  const IDLE: Thread := Thread(Ready, [])

  function At(s: State, i: nat): Thread { if i in s.threads then s.threads[i] else IDLE }

  function Init(): State { State(0, true, false, false, Running, [], map[]) }

  datatype Action =
    | StoreOp(i: nat, store: Store)
    | FlushOp(i: nat)
    | FenceOp(i: nat)
    | TestFlag(i: nat)
    | Wake(i: nat)
    | StoreFlag
    | FlushFlag
    | FenceFlag
    | LoadShutdown(quiet: bool)
    | Recheck
    | Woken
    | TimeoutOrIo
    | Pop
    | ConsumeToken

  predicate Possible(c: Config, s: State, x: Action) {
    match x
    case StoreOp(i, _) => At(s, i).pc == Ready
    case FlushOp(i) => At(s, i).buffer != []
    case FenceOp(i) => At(s, i).pc == Stored && At(s, i).buffer == []
    case TestFlag(i) => At(s, i).pc == Fenced || (At(s, i).pc == Stored && !c.senderFence)
    case Wake(i) => At(s, i).pc == Waking
    case StoreFlag => s.pc == Running
    case FlushFlag => s.flagBuffer != []
    case FenceFlag => s.pc == FlagStored && s.flagBuffer == []
    case LoadShutdown(_) => s.pc == FlagFenced || (s.pc == FlagStored && !c.sleeperFence)
    case Recheck => s.pc.ShutdownLoaded?
    case Woken => s.pc.Blocked? && s.token
    case TimeoutOrIo => s.pc.Blocked?
    case Pop => s.pc == Running && s.queue > 0
    case ConsumeToken => s.pc == Running && s.token
  }

  function Put(s: State, i: nat, t: Thread): State { s.(threads := s.threads[i := t]) }

  /** A store reaches shared memory. */
  function Reached(s: State, store: Store): State {
    match store
    case PushFuture => s.(queue := s.queue + 1)
    case SetShutdown(value) => s.(shutdown := value)
  }

  function Apply(s: State, x: Action): State {
    match x
    case StoreOp(i, store) => Put(s, i, Thread(Stored, At(s, i).buffer + [store]))
    case FlushOp(i) =>
      if At(s, i).buffer == [] then s
      else
        Reached(Put(s, i, At(s, i).(buffer := At(s, i).buffer[1..])), At(s, i).buffer[0])
    case FenceOp(i) => Put(s, i, At(s, i).(pc := Fenced))
    case TestFlag(i) => Put(s, i, At(s, i).(pc := if s.sleeping then Waking else Ready))
    case Wake(i) => Put(s, i, At(s, i).(pc := Ready)).(token := true)
    case StoreFlag => s.(pc := FlagStored, flagBuffer := s.flagBuffer + [true])
    case FlushFlag => if s.flagBuffer == [] then s else s.(sleeping := s.flagBuffer[0], flagBuffer := s.flagBuffer[1..])
    case FenceFlag => s.(pc := FlagFenced)
    case LoadShutdown(quiet) => s.(pc := ShutdownLoaded(s.shutdown && quiet, quiet))
    case Recheck =>
      if !s.pc.ShutdownLoaded? then s
      else if s.queue > 0 || s.pc.exitReady then s.(pc := Running, flagBuffer := s.flagBuffer + [false])
      else s.(pc := Blocked(s.pc.quiet))
    case Woken => s.(pc := Running, token := false, flagBuffer := s.flagBuffer + [false])
    case TimeoutOrIo => s.(pc := Running, flagBuffer := s.flagBuffer + [false])
    case Pop => if s.queue == 0 then s else s.(queue := s.queue - 1)
    case ConsumeToken => s.(token := false)
  }

  predicate CanRun(c: Config, s: State, xs: seq<Action>)
    decreases |xs|
  {
    xs != [] ==> Possible(c, s, xs[0]) && CanRun(c, Apply(s, xs[0]), xs[1..])
  }

  function Exec(s: State, xs: seq<Action>): State
    decreases |xs|
  {
    if xs == [] then s else Exec(Apply(s, xs[0]), xs[1..])
  }

  // ---- The property ----

  /** Something the blocked reactor should get up for. */
  predicate Work(s: State) { s.queue > 0 || (s.shutdown && s.pc.Blocked? && s.pc.quiet) }

  /** The thread is about to wake the reactor, or is still to test the flag and will find it set. */
  predicate WillWake(s: State, i: nat) {
    At(s, i).pc == Waking || (s.sleeping && (At(s, i).pc == Stored || At(s, i).pc == Fenced))
  }

  ghost predicate WakeupPending(s: State) { s.token || exists i: nat :: WillWake(s, i) }

  ghost predicate NothingLost(s: State) { s.pc.Blocked? && Work(s) ==> WakeupPending(s) }

  ghost predicate NeverLost(c: Config) {
    forall xs: seq<Action> :: CanRun(c, Init(), xs) ==> NothingLost(Exec(Init(), xs))
  }

  // ---- With both fences ----

  /** The reactor's latest store to the flag, wherever it is. */
  function LatestFlag(s: State): bool {
    if s.flagBuffer == [] then s.sleeping else s.flagBuffer[|s.flagBuffer| - 1]
  }

  /** The flag is up, or on its way up, exactly while the reactor is not running. */
  predicate FlagOk(s: State) {
    && (LatestFlag(s) <==> s.pc != Running)
    && (s.pc == FlagFenced || Committed(s) ==> s.flagBuffer == [] && s.sleeping)
  }

  ghost predicate BuffersOk(s: State) { forall i: nat :: At(s, i).buffer != [] ==> At(s, i).pc == Stored }

  /** Blocked, or past the load of the shutdown flag. */
  predicate Committed(s: State) { s.pc.ShutdownLoaded? || s.pc.Blocked? }

  /** The reactor will sleep on something it has not seen: work, once blocked, or a shutdown set since its load. */
  predicate Missed(s: State) {
    match s.pc
    case Blocked(quiet) => Work(s)
    case ShutdownLoaded(exitReady, quiet) => !exitReady && s.shutdown && quiet
    case _ => false
  }

  ghost predicate Inv(s: State) { FlagOk(s) && BuffersOk(s) && (Missed(s) ==> WakeupPending(s)) }

  lemma BuffersStep(s: State, x: Action, i: nat)
    requires BuffersOk(s) && Possible(AS_WRITTEN, s, x)
    ensures At(Apply(s, x), i).buffer != [] ==> At(Apply(s, x), i).pc == Stored
  {
    assert At(s, i).buffer != [] ==> At(s, i).pc == Stored;
  }

  /** A thread that will wake the reactor still will after another's step, or has just left the token. */
  lemma StillPending(s: State, x: Action, i: nat)
    requires FlagOk(s) && Committed(s) && Committed(Apply(s, x)) && Possible(AS_WRITTEN, s, x)
    requires WillWake(s, i)
    ensures Apply(s, x).token || WillWake(Apply(s, x), i)
  {
  }

  /** What the reactor has not seen can only come from a thread that is still to test the flag. */
  lemma NewWorkPending(s: State, x: Action)
    requires FlagOk(s) && BuffersOk(s) && Possible(AS_WRITTEN, s, x)
    requires !Missed(s) && Missed(Apply(s, x))
    ensures x.FlushOp? && WillWake(Apply(s, x), x.i)
  {
    if x.FlushOp? {
      assert At(s, x.i).pc == Stored;
    }
  }

  lemma PendingStep(s: State, x: Action)
    requires Inv(s) && Possible(AS_WRITTEN, s, x)
    ensures Missed(Apply(s, x)) ==> WakeupPending(Apply(s, x))
  {
    var t := Apply(s, x);
    if Missed(t) {
      if !Missed(s) {
        NewWorkPending(s, x);
      } else if s.token {
        assert t.token;
      } else {
        var i: nat :| WillWake(s, i);
        StillPending(s, x, i);
      }
    }
  }

  lemma StepInv(s: State, x: Action)
    requires Inv(s) && Possible(AS_WRITTEN, s, x)
    ensures Inv(Apply(s, x))
  {
    PendingStep(s, x);
    forall i: nat ensures At(Apply(s, x), i).buffer != [] ==> At(Apply(s, x), i).pc == Stored {
      BuffersStep(s, x, i);
    }
  }

  lemma {:induction false} ExecInv(s: State, xs: seq<Action>)
    requires Inv(s) && CanRun(AS_WRITTEN, s, xs)
    ensures Inv(Exec(s, xs))
    decreases |xs|
  {
    hide Inv, Apply, Possible;
    if xs != [] {
      StepInv(s, xs[0]);
      ExecInv(Apply(s, xs[0]), xs[1..]);
    }
  }

  // ---- Without one ----

  lemma RunCons(c: Config, s: State, x: Action, xs: seq<Action>)
    requires Possible(c, s, x) && CanRun(c, Apply(s, x), xs)
    ensures CanRun(c, s, [x] + xs) && Exec(s, [x] + xs) == Exec(Apply(s, x), xs)
  {
    assert ([x] + xs)[1..] == xs;
  }

  lemma NoStep(c: Config, s: State)
    ensures CanRun(c, s, []) && Exec(s, []) == s
  {
  }

  ghost predicate Asleep(s: State) {
    s.queue > 0 && s.pc.Blocked? && !s.token && (forall i: nat :: At(s, i).pc == Ready)
  }

  lemma AsleepIsLost(s: State)
    requires Asleep(s)
    ensures !NothingLost(s)
  {
    forall i: nat ensures !WillWake(s, i) {
      assert At(s, i).pc == Ready;
    }
  }

  lemma LostRun(c: Config, xs: seq<Action>)
    requires CanRun(c, Init(), xs) && Asleep(Exec(Init(), xs))
    ensures !NeverLost(c)
  {
    AsleepIsLost(Exec(Init(), xs));
  }

  /** A sender whose push reaches memory, and that tests the flag, while the reactor sleeps with the flag unseen. */
  lemma TestsUnseenFlag(c: Config, s: State) returns (xs: seq<Action>)
    requires s.queue == 0 && !s.token && !s.sleeping && s.pc.Blocked?
    requires At(s, 0) == Thread(Stored, [PushFuture]) && forall i: nat :: i != 0 ==> At(s, i).pc == Ready
    ensures CanRun(c, s, xs) && Asleep(Exec(s, xs))
  {
    hide CanRun, Exec;
    var s1 := Apply(s, FlushOp(0));
    var s2 := Apply(s1, FenceOp(0));
    var s3 := Apply(s2, TestFlag(0));
    forall i: nat ensures At(s3, i).pc == Ready {
      assert i != 0 ==> At(s, i).pc == Ready;
    }
    assert At(s1, 0).buffer == [] && Asleep(s3);
    NoStep(c, s3);
    xs := [];
    RunCons(c, s2, TestFlag(0), xs);
    xs := [TestFlag(0)] + xs;
    RunCons(c, s1, FenceOp(0), xs);
    xs := [FenceOp(0)] + xs;
    RunCons(c, s, FlushOp(0), xs);
    xs := [FlushOp(0)] + xs;
  }

  /** The sleeper looks at the queue while its flag is still in its own buffer: it misses the push, and the sender
      misses the flag. */
  lemma SleeperNeedsFence(c: Config)
    requires !c.sleeperFence
    ensures !NeverLost(c)
  {
    hide CanRun, Exec, NeverLost;
    var s1 := Apply(Init(), StoreFlag);
    var s2 := Apply(s1, StoreOp(0, PushFuture));
    var s3 := Apply(s2, LoadShutdown(false));
    var s4 := Apply(s3, Recheck);
    var xs := TestsUnseenFlag(c, s4);
    RunCons(c, s3, Recheck, xs);
    xs := [Recheck] + xs;
    RunCons(c, s2, LoadShutdown(false), xs);
    xs := [LoadShutdown(false)] + xs;
    RunCons(c, s1, StoreOp(0, PushFuture), xs);
    xs := [StoreOp(0, PushFuture)] + xs;
    RunCons(c, Init(), StoreFlag, xs);
    LostRun(c, [StoreFlag] + xs);
  }

  /** A reactor that goes to sleep while a push is on its way from a sender that has already tested the flag. */
  lemma SleepsThroughLatePush(c: Config, s: State) returns (xs: seq<Action>)
    requires s.queue == 0 && !s.token && s.pc == Running && s.flagBuffer == []
    requires At(s, 0).buffer == [PushFuture] && forall i: nat :: At(s, i).pc == Ready
    ensures CanRun(c, s, xs) && Asleep(Exec(s, xs))
  {
    hide CanRun, Exec;
    var s1 := Apply(s, StoreFlag);
    var s2 := Apply(s1, FlushFlag);
    var s3 := Apply(s2, FenceFlag);
    var s4 := Apply(s3, LoadShutdown(false));
    var s5 := Apply(s4, Recheck);
    var s6 := Apply(s5, FlushOp(0));
    assert s2.flagBuffer == [] && At(s5, 0) == At(s, 0);
    forall i: nat ensures At(s6, i).pc == Ready {
      assert At(s, i).pc == Ready;
    }
    assert Asleep(s6);
    NoStep(c, s6);
    xs := [];
    RunCons(c, s5, FlushOp(0), xs);
    xs := [FlushOp(0)] + xs;
    RunCons(c, s4, Recheck, xs);
    xs := [Recheck] + xs;
    RunCons(c, s3, LoadShutdown(false), xs);
    xs := [LoadShutdown(false)] + xs;
    RunCons(c, s2, FenceFlag, xs);
    xs := [FenceFlag] + xs;
    RunCons(c, s1, FlushFlag, xs);
    xs := [FlushFlag] + xs;
    RunCons(c, s, StoreFlag, xs);
    xs := [StoreFlag] + xs;
  }

  /** The sender tests the flag while its push is still in its own buffer. */
  lemma SenderNeedsFence(c: Config)
    requires !c.senderFence
    ensures !NeverLost(c)
  {
    hide CanRun, Exec, NeverLost;
    var s1 := Apply(Init(), StoreOp(0, PushFuture));
    var s2 := Apply(s1, TestFlag(0));
    var xs := SleepsThroughLatePush(c, s2);
    RunCons(c, s1, TestFlag(0), xs);
    RunCons(c, Init(), StoreOp(0, PushFuture), [TestFlag(0)] + xs);
    LostRun(c, [StoreOp(0, PushFuture)] + ([TestFlag(0)] + xs));
  }

  /** No wakeup is lost in any interleaving of any number of senders and setters, exactly when both halves of the
      handshake have their fence. */
  lemma NoLostWakeupExactly(c: Config)
    ensures NeverLost(c) <==> c.sleeperFence && c.senderFence
  {
    if !c.sleeperFence {
      SleeperNeedsFence(c);
    } else if !c.senderFence {
      SenderNeedsFence(c);
    } else {
      forall xs: seq<Action> | CanRun(c, Init(), xs) ensures NothingLost(Exec(Init(), xs)) {
        ExecInv(Init(), xs);
      }
    }
  }

  // ---- When the re-check blocks ----

  /** A step of another thread, or of the memory system. */
  predicate Elsewhere(x: Action) {
    x.StoreOp? || x.FlushOp? || x.FenceOp? || x.TestFlag? || x.Wake? || x.FlushFlag?
  }

  lemma {:induction false} ElsewhereKeeps(c: Config, s: State, xs: seq<Action>)
    requires CanRun(c, s, xs) && forall x :: x in xs ==> Elsewhere(x)
    ensures Exec(s, xs).pc == s.pc
    decreases |xs|
  {
    if xs != [] {
      assert xs[0] in xs;
      ElsewhereKeeps(c, Apply(s, xs[0]), xs[1..]);
    }
  }

  /** Whatever others do between the two loads, the re-check keeps the reactor running exactly when there is work in the
      queue then, or the shutdown flag was set in memory at its load with nothing active; otherwise it blocks. It leaves
      the queue alone. */
  lemma RecheckExactly(c: Config, s: State, quiet: bool, xs: seq<Action>)
    requires Possible(c, s, LoadShutdown(quiet)) && CanRun(c, Apply(s, LoadShutdown(quiet)), xs)
    requires forall x :: x in xs ==> Elsewhere(x)
    ensures var t := Exec(Apply(s, LoadShutdown(quiet)), xs);
      && Possible(c, t, Recheck) && Apply(t, Recheck).queue == t.queue
      && Apply(t, Recheck).pc == if t.queue > 0 || (s.shutdown && quiet) then Running else Blocked(quiet)
  {
    hide CanRun, Exec;
    ElsewhereKeeps(c, Apply(s, LoadShutdown(quiet)), xs);
  }

  /** An idle reactor does go to sleep: with no work and no shutdown it blocks, whatever is active. */
  lemma IdleBlocks(s: State, quiet: bool)
    requires s.pc == Running && s.flagBuffer == [] && s.queue == 0 && !s.shutdown
    ensures var xs := [StoreFlag, FlushFlag, FenceFlag, LoadShutdown(quiet), Recheck];
      CanRun(AS_WRITTEN, s, xs) && Exec(s, xs).pc == Blocked(quiet) && Exec(s, xs).sleeping
  {
    hide CanRun, Exec;
    var s1 := Apply(s, StoreFlag);
    var s2 := Apply(s1, FlushFlag);
    var s3 := Apply(s2, FenceFlag);
    var s4 := Apply(s3, LoadShutdown(quiet));
    NoStep(AS_WRITTEN, Apply(s4, Recheck));
    RunCons(AS_WRITTEN, s4, Recheck, []);
    RunCons(AS_WRITTEN, s3, LoadShutdown(quiet), [Recheck] + []);
    RunCons(AS_WRITTEN, s2, FenceFlag, [LoadShutdown(quiet)] + ([Recheck] + []));
    RunCons(AS_WRITTEN, s1, FlushFlag, [FenceFlag] + ([LoadShutdown(quiet)] + ([Recheck] + [])));
    RunCons(AS_WRITTEN, s, StoreFlag, [FlushFlag] + ([FenceFlag] + ([LoadShutdown(quiet)] + ([Recheck] + []))));
    assert [StoreFlag, FlushFlag, FenceFlag, LoadShutdown(quiet), Recheck] ==
      [StoreFlag] + ([FlushFlag] + ([FenceFlag] + ([LoadShutdown(quiet)] + ([Recheck] + []))));
  }

  /** A new reactor has its shutdown flag set: until somebody stores another value, it does not block with nothing
      active. */
  lemma FreshDoesNotSleep(xs: seq<Action>)
    requires CanRun(AS_WRITTEN, Init(), xs) && forall x :: x in xs ==> !x.StoreOp? && x != LoadShutdown(false)
    ensures Exec(Init(), xs).shutdown && !Exec(Init(), xs).pc.Blocked?
  {
    hide CanRun, Exec;
    FreshRun(Init(), xs);
  }

  lemma {:induction false} FreshRun(s: State, xs: seq<Action>)
    requires CanRun(AS_WRITTEN, s, xs) && forall x :: x in xs ==> !x.StoreOp? && x != LoadShutdown(false)
    requires s.shutdown && s.threads == map[] && !s.pc.Blocked? && (s.pc.ShutdownLoaded? ==> s.pc.exitReady)
    ensures Exec(s, xs).shutdown && !Exec(s, xs).pc.Blocked?
    decreases |xs|
  {
    if xs != [] {
      assert xs[0] in xs && forall x :: x in xs[1..] ==> x in xs;
      FreshRun(Apply(s, xs[0]), xs[1..]);
    }
  }

  // ---- Getting up ----

  predicate GetsUp(x: Action) { x.Woken? || x.TimeoutOrIo? }

  /** A blocked reactor stays blocked until it is woken, its wait ends or I/O completes; then it runs, with its flag on
      the way down. */
  lemma {:induction false} BlockedUntil(c: Config, s: State, xs: seq<Action>)
    requires s.pc.Blocked? && CanRun(c, s, xs)
    ensures (forall x :: x in xs ==> !GetsUp(x)) ==> Exec(s, xs).pc == s.pc
    ensures xs != [] && GetsUp(xs[0]) ==> Apply(s, xs[0]).pc == Running && !LatestFlag(Apply(s, xs[0]))
    decreases |xs|
  {
    hide Apply, Possible, LatestFlag, GetsUp;
    if xs != [] {
      assert xs[0] in xs;
      BlockedStep(c, s, xs[0]);
      if !GetsUp(xs[0]) {
        BlockedUntil(c, Apply(s, xs[0]), xs[1..]);
      }
    }
  }

  lemma BlockedStep(c: Config, s: State, x: Action)
    requires s.pc.Blocked? && Possible(c, s, x)
    ensures GetsUp(x) ==> Apply(s, x).pc == Running && !LatestFlag(Apply(s, x))
    ensures !GetsUp(x) ==> Apply(s, x).pc == s.pc
  {
  }

  /** Only a running reactor takes work, and it can whenever there is some. */
  lemma TakesWorkExactly(c: Config, s: State)
    ensures Possible(c, s, Pop) <==> s.pc == Running && s.queue > 0
    ensures Possible(c, s, TimeoutOrIo) <==> s.pc.Blocked?
    ensures Possible(c, s, StoreFlag) <==> s.pc == Running
  {
  }

  // ---- The pending wakeup arrives ----

  function Rank(t: Thread): nat {
    match t.pc
    case Ready => 0
    case Waking => 1
    case Fenced => 2
    case Stored => 3 + |t.buffer|
  }

  /** The thread's next step on the way to the wake call, and the thread after it. */
  function NextStep(t: Thread, i: nat): Action {
    if t.pc == Stored then if t.buffer == [] then FenceOp(i) else FlushOp(i) else TestFlag(i)
  }

  function AfterStep(t: Thread): Thread {
    if t.pc == Stored then
      if t.buffer == [] then Thread(Fenced, []) else Thread(Stored, t.buffer[1..])
    else Thread(Waking, t.buffer)
  }

  /** What the thread still has to do until the reactor is up again. */
  function Remaining(t: Thread, i: nat): seq<Action>
    decreases Rank(t)
  {
    if Rank(t) <= 1 then [Wake(i), Woken] else [NextStep(t, i)] + Remaining(AfterStep(t), i)
  }

  lemma WakeStep(s: State, i: nat)
    requires FlagOk(s) && s.pc.Blocked? && WillWake(s, i) && At(s, i).pc != Waking
    ensures var x := NextStep(At(s, i), i);
      && Possible(AS_WRITTEN, s, x) && Apply(s, x).pc.Blocked? && WillWake(Apply(s, x), i)
      && At(Apply(s, x), i) == AfterStep(At(s, i)) && Rank(AfterStep(At(s, i))) < Rank(At(s, i))
  {
  }

  /** Whichever thread the pending wakeup rests on, its own remaining steps get the reactor running, whatever the
      others have done. */
  lemma {:induction false} PendingThreadWakes(s: State, i: nat)
    requires Inv(s) && s.pc.Blocked? && WillWake(s, i)
    ensures var xs := Remaining(At(s, i), i); CanRun(AS_WRITTEN, s, xs) && Exec(s, xs).pc == Running
    decreases Rank(At(s, i))
  {
    hide CanRun, Exec, BuffersOk, Missed, FlagOk;
    if At(s, i).pc == Waking {
      var u := Apply(s, Wake(i));
      NoStep(AS_WRITTEN, Apply(u, Woken));
      RunCons(AS_WRITTEN, u, Woken, []);
      RunCons(AS_WRITTEN, s, Wake(i), [Woken] + []);
      assert Remaining(At(s, i), i) == [Wake(i)] + ([Woken] + []);
    } else {
      hide Apply, Possible;
      var x := NextStep(At(s, i), i);
      WakeStep(s, i);
      StepInv(s, x);
      PendingThreadWakes(Apply(s, x), i);
      RunCons(AS_WRITTEN, s, x, Remaining(AfterStep(At(s, i)), i));
    }
  }
}
