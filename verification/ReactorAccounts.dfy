/** What every run of the sleep handshake keeps count of: stores, queued futures and wake tokens. */
module ReactorAccounts {
  import opened ReactorWakeup

  /** The stores thread `i` makes along a run. */
  function Issued(xs: seq<Action>, i: nat): seq<Store> {
    if xs == [] then []
    else Issued(xs[..|xs| - 1], i) + Made(xs[|xs| - 1], i)
  }

  function Made(x: Action, i: nat): seq<Store> { if x.StoreOp? && x.i == i then [x.store] else [] }

  /** A store leaving the buffer of its thread. */
  function Leaves(s: State, x: Action): seq<Store> {
    if x.FlushOp? && At(s, x.i).buffer != [] then [At(s, x.i).buffer[0]] else []
  }

  /** The stores that reach memory along a run, in order, and those of them from thread `i`. */
  function Landed(s: State, xs: seq<Action>): seq<Store> {
    if xs == [] then [] else Landed(s, xs[..|xs| - 1]) + Leaves(Exec(s, xs[..|xs| - 1]), xs[|xs| - 1])
  }

  function LandedFrom(s: State, xs: seq<Action>, i: nat): seq<Store> {
    if xs == [] then []
    else
      LandedFrom(s, xs[..|xs| - 1], i) + Sent(Exec(s, xs[..|xs| - 1]), xs[|xs| - 1], i)
  }

  function Sent(s: State, x: Action, i: nat): seq<Store> { if x.FlushOp? && x.i == i then Leaves(s, x) else [] }

  function Pushes(stores: seq<Store>): nat {
    if stores == [] then 0
    else Pushes(stores[..|stores| - 1]) + if stores[|stores| - 1] == PushFuture then 1 else 0
  }

  function Pops(xs: seq<Action>): nat {
    if xs == [] then 0 else Pops(xs[..|xs| - 1]) + if xs[|xs| - 1] == Pop then 1 else 0
  }

  /** The value of the last shutdown store, if there is one. */
  function LastShutdown(stores: seq<Store>, first: bool): bool {
    if stores == [] then first
    else if stores[|stores| - 1].SetShutdown? then stores[|stores| - 1].value
    else LastShutdown(stores[..|stores| - 1], first)
  }

  lemma {:induction false} ExecSnoc(s: State, xs: seq<Action>, x: Action)
    ensures Exec(s, xs + [x]) == Apply(Exec(s, xs), x)
    decreases |xs|
  {
    if xs == [] {
      assert [x][1..] == [];
    } else {
      assert (xs + [x])[1..] == xs[1..] + [x];
      ExecSnoc(Apply(s, xs[0]), xs[1..], x);
    }
  }

  lemma {:induction false} CanRunSnoc(c: Config, s: State, xs: seq<Action>)
    requires CanRun(c, s, xs) && xs != []
    ensures CanRun(c, s, xs[..|xs| - 1]) && Possible(c, Exec(s, xs[..|xs| - 1]), xs[|xs| - 1])
    decreases |xs|
  {
    if |xs| == 1 {
      assert xs[..0] == [];
    } else {
      CanRunSnoc(c, Apply(s, xs[0]), xs[1..]);
      assert xs[1..][..|xs| - 2] == xs[..|xs| - 1][1..];
    }
  }

  lemma LastStep(c: Config, s: State, xs: seq<Action>)
    requires CanRun(c, s, xs) && xs != []
    ensures var front, x := xs[..|xs| - 1], xs[|xs| - 1];
      CanRun(c, s, front) && Possible(c, Exec(s, front), x) && Exec(s, xs) == Apply(Exec(s, front), x)
  {
    hide CanRun, Exec;
    CanRunSnoc(c, s, xs);
    ExecSnoc(s, xs[..|xs| - 1], xs[|xs| - 1]);
    assert xs == xs[..|xs| - 1] + [xs[|xs| - 1]];
  }

  /** A thread's stores reach memory in the order it made them, each once: what has landed and what is still buffered
      are together what it has stored. */
  lemma {:induction false} StoresInOrder(c: Config, s: State, xs: seq<Action>, i: nat)
    requires CanRun(c, s, xs)
    ensures At(s, i).buffer + Issued(xs, i) == LandedFrom(s, xs, i) + At(Exec(s, xs), i).buffer
    decreases |xs|
  {
    hide CanRun, Exec, Possible, Apply, Leaves;
    if xs == [] {
      NoStep(c, s);
    } else {
      var front, x := xs[..|xs| - 1], xs[|xs| - 1];
      var t := Exec(s, front);
      LastStep(c, s, xs);
      StoresInOrder(c, s, front, i);
      OneStore(t, x, i);
      Regroup(At(s, i).buffer, Issued(front, i), LandedFrom(s, front, i), At(t, i).buffer, Made(x, i), Sent(t, x, i),
              At(Exec(s, xs), i).buffer);
    }
  }

  lemma Regroup(a: seq<Store>, issued: seq<Store>, landed: seq<Store>, b: seq<Store>, made: seq<Store>,
                sent: seq<Store>, b': seq<Store>)
    requires a + issued == landed + b && b + made == sent + b'
    ensures a + (issued + made) == landed + sent + b'
  {
    assert a + (issued + made) == a + issued + made == landed + (b + made) == landed + sent + b';
  }

  lemma OneStore(s: State, x: Action, i: nat)
    ensures At(s, i).buffer + Made(x, i) == Sent(s, x, i) + At(Apply(s, x), i).buffer
  {
    hide Apply;
    BufferStep(s, x, i);
    var b := At(s, i).buffer;
    assert b != [] ==> b == [b[0]] + b[1..];
  }

  lemma BufferStep(s: State, x: Action, i: nat)
    ensures At(Apply(s, x), i).buffer ==
      if x.StoreOp? && x.i == i then At(s, i).buffer + [x.store]
      else if x.FlushOp? && x.i == i && At(s, i).buffer != [] then At(s, i).buffer[1..] else At(s, i).buffer
  {
    match x
    case StoreOp(_, _) =>
    case FlushOp(_) =>
    case FenceOp(_) =>
    case TestFlag(_) =>
    case Wake(_) =>
    case _ =>
  }

  lemma PushesSnoc(stores: seq<Store>, store: Store)
    ensures Pushes(stores + [store]) == Pushes(stores) + if store == PushFuture then 1 else 0
    ensures LastShutdown(stores + [store], true) ==
      if store.SetShutdown? then store.value else LastShutdown(stores, true)
    ensures LastShutdown(stores + [store], false) ==
      if store.SetShutdown? then store.value else LastShutdown(stores, false)
  {
    assert (stores + [store])[..|stores|] == stores;
  }

  /** Every push that lands is popped once or still queued, and the shutdown flag holds the last value that landed. */
  lemma {:induction false} QueueConserved(c: Config, s: State, xs: seq<Action>)
    requires CanRun(c, s, xs)
    ensures Exec(s, xs).queue + Pops(xs) == s.queue + Pushes(Landed(s, xs))
    ensures Exec(s, xs).shutdown == LastShutdown(Landed(s, xs), s.shutdown)
    decreases |xs|
  {
    hide CanRun, Exec, Pushes, LastShutdown, Apply, Possible;
    if xs == [] {
      NoStep(c, s);
      NoStores();
    } else {
      var front, x := xs[..|xs| - 1], xs[|xs| - 1];
      LastStep(c, s, xs);
      QueueConserved(c, s, front);
      QueueStep(c, Exec(s, front), x);
      var leaves := Leaves(Exec(s, front), x);
      if leaves != [] {
        PushesSnoc(Landed(s, front), leaves[0]);
        assert leaves == [leaves[0]];
      } else {
        assert Landed(s, front) + leaves == Landed(s, front);
      }
    }
  }

  lemma QueueStep(c: Config, s: State, x: Action)
    requires Possible(c, s, x)
    ensures var t, leaves := Apply(s, x), Leaves(s, x);
      && t.queue + (if x == Pop then 1 else 0) == s.queue + (if leaves == [PushFuture] then 1 else 0)
      && t.shutdown == if leaves != [] && leaves[0].SetShutdown? then leaves[0].value else s.shutdown
  {
  }

  lemma NoStores()
    ensures Pushes([]) == 0 && LastShutdown([], true) && !LastShutdown([], false)
  {
  }

  /** Stores and wake calls of thread `i` along a run, and whether it is between the two. */
  function StoresBy(xs: seq<Action>, i: nat): nat {
    if xs == [] then 0 else StoresBy(xs[1..], i) + if xs[0].StoreOp? && xs[0].i == i then 1 else 0
  }

  function WakesBy(xs: seq<Action>, i: nat): nat {
    if xs == [] then 0 else WakesBy(xs[1..], i) + if xs[0] == Wake(i) then 1 else 0
  }

  function Busy(s: State, i: nat): nat { if At(s, i).pc == Ready then 0 else 1 }

  lemma BusyStep(c: Config, s: State, x: Action, i: nat)
    requires Possible(c, s, x)
    ensures Busy(Apply(s, x), i) + (if x == Wake(i) then 1 else 0) <=
      Busy(s, i) + (if x.StoreOp? && x.i == i then 1 else 0)
    ensures x == Wake(i) ==> At(Apply(s, x), i).pc == Ready
  {
    match x
    case StoreOp(_, _) =>
    case FlushOp(_) =>
    case FenceOp(_) =>
    case TestFlag(_) =>
    case Wake(_) =>
    case _ =>
  }

  /** A thread wakes the reactor at most once for each store it makes. */
  lemma {:induction false} OneWakePerStore(c: Config, s: State, xs: seq<Action>, i: nat)
    requires CanRun(c, s, xs)
    ensures WakesBy(xs, i) + Busy(Exec(s, xs), i) <= StoresBy(xs, i) + Busy(s, i)
    decreases |xs|
  {
    hide Apply, Possible, Busy;
    if xs != [] {
      BusyStep(c, s, xs[0], i);
      OneWakePerStore(c, Apply(s, xs[0]), xs[1..], i);
    }
  }

  /** Wake calls made along a run, and tokens taken. */
  function Wakes(xs: seq<Action>): nat {
    if xs == [] then 0 else Wakes(xs[1..]) + if xs[0].Wake? then 1 else 0
  }

  function Takes(xs: seq<Action>): nat {
    if xs == [] then 0 else Takes(xs[1..]) + if xs[0].Woken? || xs[0].ConsumeToken? then 1 else 0
  }

  function Held(s: State): nat { if s.token then 1 else 0 }

  /** Every token taken comes from a wake call of its own, and a token stays until it is taken. */
  lemma {:induction false} TokensConserved(c: Config, s: State, xs: seq<Action>)
    requires CanRun(c, s, xs)
    ensures Takes(xs) + Held(Exec(s, xs)) <= Wakes(xs) + Held(s)
    ensures Takes(xs) == 0 ==> (Exec(s, xs).token <==> s.token || Wakes(xs) > 0)
    decreases |xs|
  {
    hide Apply, Possible;
    if xs != [] {
      TokenStep(c, s, xs[0]);
      TokensConserved(c, Apply(s, xs[0]), xs[1..]);
    }
  }

  lemma TokenStep(c: Config, s: State, x: Action)
    requires Possible(c, s, x)
    ensures x.Woken? || x.ConsumeToken? ==> s.token && !Apply(s, x).token
    ensures !x.Woken? && !x.ConsumeToken? ==> (Apply(s, x).token <==> s.token || x.Wake?)
  {
  }
}
