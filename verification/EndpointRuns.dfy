/** How long the entries of an endpoint's tables last: handles, initial routes, reset tokens and places in the queue. */
module EndpointRuns {
  import opened EndpointTables

  // ---- Handles ----

  /** The event ends connection `h`: it fails, fails to close, or reports that it is closed. */
  predicate Ends(e: Event, h: Handle) {
    match e
    case Fail(g) => g == h
    case Close(g, ok) => g == h && !ok
    case Report(g, u) => g == h && u.closed
    case _ => false
  }

  predicate SomeEnds(es: seq<Event>, h: Handle) { exists i :: 0 <= i < |es| && Ends(es[i], h) }

  lemma SomeEndsCons(es: seq<Event>, h: Handle)
    requires es != []
    ensures SomeEnds(es, h) <==> Ends(es[0], h) || SomeEnds(es[1..], h)
  {
    if SomeEnds(es, h) && !Ends(es[0], h) {
      var i :| 0 <= i < |es| && Ends(es[i], h);
      assert Ends(es[1..][i - 1], h);
    }
    if SomeEnds(es[1..], h) {
      var i :| 0 <= i < |es[1..]| && Ends(es[1..][i], h);
      assert Ends(es[i + 1], h);
    }
  }

  lemma StepLive(t: Tables, e: Event, h: Handle)
    requires h < t.nextHandle
    ensures h in Apply(t, e).live <==> h in t.live && !Ends(e, h)
    ensures h < Apply(t, e).nextHandle
  {
    hide Without, WithTokens, Routed, Unrouted;
  }

  /** A connection is managed exactly until an event ends it. */
  lemma {:induction false} LiveExactly(t: Tables, es: seq<Event>, h: Handle)
    requires h < t.nextHandle
    ensures h in Exec(t, es).live <==> h in t.live && !SomeEnds(es, h)
    decreases |es|
  {
    hide Apply, Ends, SomeEnds;
    if es == [] {
      NothingEnds(h);
    } else {
      StepLive(t, es[0], h);
      SomeEndsCons(es, h);
      LiveExactly(Apply(t, es[0]), es[1..], h);
    }
  }

  lemma NothingEnds(h: Handle)
    ensures !SomeEnds([], h)
  {
  }

  function Connects(es: seq<Event>): nat {
    if es == [] then 0 else (if es[0].Connect? then 1 else 0) + Connects(es[1..])
  }

  /** Handles are numbered in the order connections come. */
  lemma {:induction false} HandlesCounted(t: Tables, es: seq<Event>)
    ensures Exec(t, es).nextHandle == t.nextHandle + Connects(es)
    decreases |es|
  {
    hide Without, WithTokens, Routed, Unrouted;
    if es != [] {
      HandlesCounted(Apply(t, es[0]), es[1..]);
    }
  }

  // ---- Initial routes ----

  /** Another connection is registered under the initial ID. */
  predicate Retakes(es: seq<Event>, d: Cid) { exists i :: 0 <= i < |es| && es[i].Connect? && es[i].initialDcid == d }

  lemma RetakesCons(es: seq<Event>, d: Cid)
    requires es != []
    ensures Retakes(es, d) <==> (es[0].Connect? && es[0].initialDcid == d) || Retakes(es[1..], d)
  {
    if Retakes(es[1..], d) {
      var i :| 0 <= i < |es[1..]| && es[1..][i].Connect? && es[1..][i].initialDcid == d;
      assert es[i + 1].Connect? && es[i + 1].initialDcid == d;
    }
    if Retakes(es, d) && !(es[0].Connect? && es[0].initialDcid == d) {
      var i :| 0 <= i < |es| && es[i].Connect? && es[i].initialDcid == d;
      assert es[1..][i - 1].Connect? && es[1..][i - 1].initialDcid == d;
    }
  }

  predicate RoutesTo(routes: map<Cid, Handle>, c: Cid, h: Handle) { c in routes && routes[c] == h }

  lemma StepInitial(t: Tables, e: Event, d: Cid, h: Handle)
    requires h < t.nextHandle && (RoutesTo(t.initialRoutes, d, h) ==> h in t.live)
    ensures RoutesTo(Apply(t, e).initialRoutes, d, h) <==>
      RoutesTo(t.initialRoutes, d, h) && !Ends(e, h) && !(e.Connect? && e.initialDcid == d)
  {
    hide Without, WithTokens, Routed;
  }

  /** A new connection is reached under the ID of its first packet, for as long as it is managed and no other connection
      is registered under that ID. */
  lemma {:induction false} InitialRouteExactly(t: Tables, es: seq<Event>, d: Cid, h: Handle)
    requires Inv(t) && h < t.nextHandle && forall e :: e in es ==> Possible(e)
    ensures RoutesTo(Exec(t, es).initialRoutes, d, h) <==>
      RoutesTo(t.initialRoutes, d, h) && !SomeEnds(es, h) && !Retakes(es, d)
    decreases |es|
  {
    hide Inv, Apply, Ends, SomeEnds, Retakes, RoutesTo, Possible;
    if es == [] {
      NothingEnds(h);
      NothingRetaken(d);
    } else {
      assert es[0] in es;
      StepInv(t, es[0]);
      if RoutesTo(t.initialRoutes, d, h) {
        InitialLive(t, d, h);
      }
      StepInitial(t, es[0], d, h);
      StepLive(t, es[0], h);
      SomeEndsCons(es, h);
      RetakesCons(es, d);
      InitialRouteExactly(Apply(t, es[0]), es[1..], d, h);
    }
  }

  lemma NothingRetaken(d: Cid)
    ensures !Retakes([], d)
  {
  }

  lemma InitialLive(t: Tables, d: Cid, h: Handle)
    requires Inv(t) && RoutesTo(t.initialRoutes, d, h)
    ensures h in t.live
  {
  }

  /** Registration enters it. */
  lemma ConnectEnters(t: Tables, d: Cid, localCid: Cid, u: Update)
    ensures var r := Apply(t, Connect(d, localCid, u));
      && RoutesTo(r.initialRoutes, d, t.nextHandle) && t.nextHandle in r.live
      && (forall c :: c in [localCid] + u.localCids ==> RoutesTo(r.routes, c, t.nextHandle))
      && (u.established && t.nextHandle !in t.queued ==> r.queue == t.queue + [t.nextHandle])
      && (!u.established ==> r.queue == t.queue)
  {
    hide WithTokens;
    var r := Apply(t, Connect(d, localCid, u));
    forall c | c in [localCid] + u.localCids ensures RoutesTo(r.routes, c, t.nextHandle) {
      AddedRoute(t, d, localCid, u, c);
    }
  }

  // ---- Reset tokens ----

  datatype Slot = None | Some(token: Token)

  function TokenOf(t: Tables, c: Cid): Slot { if c in t.tokens then Some(t.tokens[c]) else None }

  /** The last token a report gives for an ID. */
  function Given(entries: seq<TokenEntry>, c: Cid): Slot {
    if entries == [] then None
    else
      var later := Given(entries[1..], c);
      if later.Some? then later else if entries[0].cid == c then Some(entries[0].token) else None
  }

  lemma {:induction false} GivenSnoc(entries: seq<TokenEntry>, x: TokenEntry, c: Cid)
    ensures Given(entries + [x], c) == if x.cid == c then Some(x.token) else Given(entries, c)
    decreases |entries|
  {
    if entries == [] {
      assert [x][1..] == [];
    } else {
      assert (entries + [x])[1..] == entries[1..] + [x];
      GivenSnoc(entries[1..], x, c);
    }
  }

  lemma {:induction false} WithTokensIs(tokens: map<Cid, Token>, entries: seq<TokenEntry>, c: Cid)
    ensures var r := WithTokens(tokens, entries);
      match Given(entries, c)
      case Some(token) => c in r && r[c] == token
      case None => (c in r <==> c in tokens) && (c in tokens ==> r[c] == tokens[c])
    decreases |entries|
  {
    hide Given;
    if entries == [] {
      NothingGiven(c);
    } else {
      var front, last := entries[..|entries| - 1], entries[|entries| - 1];
      WithTokensIs(tokens, front, c);
      GivenSnoc(front, last, c);
      assert entries == front + [last];
    }
  }

  lemma NothingGiven(c: Cid)
    ensures Given([], c) == None
  {
  }

  /** The event leaves `h` reporting `c`, says nothing else of its token, and gives `c` to no other connection. */
  predicate KeepsToken(e: Event, h: Handle, c: Cid, token: Token) {
    && !Ends(e, h)
    && match e
       case Connect(_, localCid, u) => c !in [localCid] + u.localCids && Given(u.resetTokens, c) == None
       case Report(g, u) =>
         if g == h then c in u.localCids && (Given(u.resetTokens, c) == None || Given(u.resetTokens, c) == Some(token))
         else u.closed || (c !in u.localCids && Given(u.resetTokens, c) == None)
       case _ => true
  }

  lemma TokenStep(t: Tables, e: Event, h: Handle, c: Cid)
    requires RoutesTo(t.routes, c, h) && c in t.tokens && KeepsToken(e, h, c, t.tokens[c])
    ensures RoutesTo(Apply(t, e).routes, c, h) && TokenOf(Apply(t, e), c) == TokenOf(t, c)
  {
    hide Without, WithTokens, Given;
    match e
    case Connect(d, localCid, u) =>
      AddedRoute(t, d, localCid, u, c);
      WithTokensIs(t.tokens, u.resetTokens, c);
    case Report(g, u) =>
      if !u.closed {
        ReroutedRoute(t, g, u, c);
        WithTokensIs(t.tokens - (CidsForHandle(t.routes, g) - CidSet(u.localCids)), u.resetTokens, c);
      }
    case _ =>
  }

  /** A token stays while its connection is managed and goes on reporting the ID, and nobody else takes it. */
  lemma {:induction false} TokenStays(t: Tables, es: seq<Event>, h: Handle, c: Cid)
    requires RoutesTo(t.routes, c, h) && c in t.tokens
    requires forall i :: 0 <= i < |es| ==> KeepsToken(es[i], h, c, t.tokens[c])
    ensures RoutesTo(Exec(t, es).routes, c, h) && TokenOf(Exec(t, es), c) == Some(t.tokens[c])
    decreases |es|
  {
    hide Apply, KeepsToken;
    if es != [] {
      TokenStep(t, es[0], h, c);
      TokenStays(Apply(t, es[0]), es[1..], h, c);
    }
  }

  /** A report or a registration enters the tokens it gives, the last one for each ID. */
  lemma TokensEntered(t: Tables, e: Event, c: Cid)
    requires e.Connect? || (e.Report? && e.handle in t.live && !e.update.closed)
    requires Given(e.update.resetTokens, c).Some?
    ensures TokenOf(Apply(t, e), c) == Given(e.update.resetTokens, c)
  {
    hide Without, WithTokens, Given, Routed;
    if e.Connect? {
      WithTokensIs(t.tokens, e.update.resetTokens, c);
    } else {
      var stale := CidsForHandle(t.routes, e.handle) - CidSet(e.update.localCids);
      WithTokensIs(t.tokens - stale, e.update.resetTokens, c);
    }
  }

  // ---- The queue ----

  /** A queue without the handle is left as it is. */
  lemma {:induction false} WithoutAbsent(queue: seq<Handle>, h: Handle)
    requires h !in queue
    ensures Without(queue, h) == queue
    decreases |queue|
  {
    if queue != [] {
      WithoutAbsent(queue[..|queue| - 1], h);
      assert queue[|queue| - 1] in queue;
    }
  }

  /** Taking a handle out of a queue without repeats leaves the others as they stood. */
  lemma {:induction false} WithoutKeepsOrder(queue: seq<Handle>, h: Handle, i: nat)
    requires NoRepeats(queue) && i < |queue| && queue[i] == h
    ensures Without(queue, h) == queue[..i] + queue[i + 1..]
    decreases |queue|
  {
    hide NoRepeats;
    var front, last := queue[..|queue| - 1], queue[|queue| - 1];
    FrontNoRepeats(queue);
    if i < |front| {
      assert front[i] == h && h in front;
      WithoutKeepsOrder(front, h, i);
      assert front[..i] + front[i + 1..] + [last] == queue[..i] + queue[i + 1..];
    } else {
      WithoutAbsent(front, h);
      assert queue[i + 1..] == [];
    }
  }

  lemma FrontNoRepeats(queue: seq<Handle>)
    requires NoRepeats(queue) && queue != []
    ensures var front, last := queue[..|queue| - 1], queue[|queue| - 1]; NoRepeats(front) && last !in front
  {
    var front := queue[..|queue| - 1];
    assert forall j :: 0 <= j < |front| ==> front[j] == queue[j];
  }

  lemma QueueStep(t: Tables, e: Event)
    requires QueueOk(t) && !e.Fail? && !e.Close? && !(e.Report? && e.update.closed)
    ensures t.queue <= (if e.Accept? && t.queue != [] then [t.queue[0]] else []) + Apply(t, e).queue
    ensures QueueOk(Apply(t, e)) || !Possible(e) || !HandlesOk(t)
  {
    hide WithTokens, Routed;
    if e.Accept? {
      DequeueOk(t);
      assert t.queue != [] ==> t.queue == [t.queue[0]] + t.queue[1..];
    } else if e.Connect? {
      EnqueueOk(Added(t, e.initialDcid, e.localCid, e.update), t.nextHandle);
    } else if e.handle in t.live {
      EnqueueOk(Rerouted(t, e.handle, e.update), e.handle);
    }
  }

  /** Handles are accepted in the order they wait: in a run that ends and closes no connection, those waiting at its
      start come first, in order. */
  lemma {:induction false} AcceptedInOrder(t: Tables, es: seq<Event>)
    requires Inv(t) && forall e :: e in es ==> Possible(e) && !e.Fail? && !e.Close? && !(e.Report? && e.update.closed)
    ensures t.queue <= Accepted(t, es) + Exec(t, es).queue
    decreases |es|
  {
    hide Inv, Apply, Possible, QueueOk;
    if es != [] {
      var t' := Apply(t, es[0]);
      assert es[0] in es;
      StepInv(t, es[0]);
      InvQueue(t);
      QueueStep(t, es[0]);
      AcceptedInOrder(t', es[1..]);
      var first := if es[0].Accept? && t.queue != [] then [t.queue[0]] else [];
      PrefixTrans(t.queue, first, t'.queue, Accepted(t', es[1..]) + Exec(t, es).queue);
      assert Accepted(t, es) + Exec(t, es).queue == first + (Accepted(t', es[1..]) + Exec(t, es).queue);
    }
  }

  lemma InvQueue(t: Tables)
    requires Inv(t)
    ensures QueueOk(t)
  {
  }

  lemma PrefixTrans(a: seq<Handle>, first: seq<Handle>, b: seq<Handle>, c: seq<Handle>)
    requires a <= first + b && b <= c
    ensures a <= first + c
  {
  }
}
