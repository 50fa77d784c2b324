/** The routing tables of a multi-connection endpoint and their agreement over every run. */
module EndpointTables {
  type Handle = nat
  type Cid = seq<nat>
  type Token = seq<nat>

  /** `live` holds the handles of managed connections; `reported` the connection IDs each of them last reported. */
  datatype Tables = Tables(
    live: set<Handle>, routes: map<Cid, Handle>, initialRoutes: map<Cid, Handle>, tokens: map<Cid, Token>,
    nextHandle: Handle, queue: seq<Handle>, queued: set<Handle>, reported: map<Handle, set<Cid>>)

  function Empty(): Tables { Tables({}, map[], map[], map[], 0, [], {}, map[]) }

  datatype TokenEntry = TokenEntry(cid: Cid, token: Token)

  /** What a connection says about itself after processing. */
  datatype Update = Update(localCids: seq<Cid>, resetTokens: seq<TokenEntry>, established: bool, closed: bool)

  /** A connection only has tokens for connection IDs it reports. */
  predicate WellFormed(u: Update) {
    forall i :: 0 <= i < |u.resetTokens| ==> u.resetTokens[i].cid in u.localCids
  }

  function CidSet(cids: seq<Cid>): set<Cid> { set c | c in cids }

  // ---- Queue ----

  function Enqueued(t: Tables, h: Handle): Tables {
    if h in t.queued then t else t.(queue := t.queue + [h], queued := t.queued + {h})
  }

  function Without(queue: seq<Handle>, h: Handle): seq<Handle> {
    if queue == [] then []
    else Without(queue[..|queue| - 1], h) + if queue[|queue| - 1] == h then [] else [queue[|queue| - 1]]
  }

  function Unqueued(t: Tables, h: Handle): Tables {
    t.(queue := Without(t.queue, h), queued := t.queued - {h})
  }

  function Dequeued(t: Tables): Tables {
    if t.queue == [] then t else t.(queue := t.queue[1..], queued := t.queued - {t.queue[0]})
  }

  // ---- Maps ----

  function CidsForHandle(routes: map<Cid, Handle>, h: Handle): set<Cid> {
    set c | c in routes && routes[c] == h
  }

  function Unrouted(routes: map<Cid, Handle>, h: Handle): map<Cid, Handle> {
    map c | c in routes && routes[c] != h :: routes[c]
  }

  /** Every ID of the list routed to `h`. */
  function Routed(routes: map<Cid, Handle>, cids: seq<Cid>, h: Handle): map<Cid, Handle> {
    routes + map c | c in cids :: h
  }

  function WithTokens(tokens: map<Cid, Token>, entries: seq<TokenEntry>): map<Cid, Token> {
    if entries == [] then tokens
    else
      var last := entries[|entries| - 1];
      WithTokens(tokens, entries[..|entries| - 1])[last.cid := last.token]
  }

  function Removed(t: Tables, h: Handle): Tables {
    Unqueued(
      t.(live := t.live - {h},
         routes := Unrouted(t.routes, h),
         initialRoutes := Unrouted(t.initialRoutes, h),
         tokens := t.tokens - CidsForHandle(t.routes, h),
         reported := t.reported - {h}),
      h)
  }

  /** The maps after a report of `h`: IDs it no longer reports lose their route and token. */
  function Rerouted(t: Tables, h: Handle, u: Update): Tables {
    var stale := CidsForHandle(t.routes, h) - CidSet(u.localCids);
    t.(routes := Routed(t.routes - stale, u.localCids, h),
       tokens := WithTokens(t.tokens - stale, u.resetTokens),
       reported := t.reported[h := CidSet(u.localCids)])
  }

  function Updated(t: Tables, h: Handle, u: Update): Tables {
    if u.closed then Removed(t, h)
    else if u.established then Enqueued(Rerouted(t, h, u), h) else Rerouted(t, h, u)
  }

  /** The maps after adding a connection under the next handle. */
  function Added(t: Tables, initialDcid: Cid, localCid: Cid, u: Update): Tables {
    var h := t.nextHandle;
    t.(live := t.live + {h}, nextHandle := h + 1,
       routes := Routed(t.routes[localCid := h], u.localCids, h),
       tokens := WithTokens(t.tokens, u.resetTokens),
       initialRoutes := t.initialRoutes[initialDcid := h],
       reported := t.reported[h := CidSet(u.localCids) + {localCid}])
  }

  function Registered(t: Tables, initialDcid: Cid, localCid: Cid, u: Update): Tables {
    var t' := Added(t, initialDcid, localCid, u);
    if u.established then Enqueued(t', t.nextHandle) else t'
  }

  // ---- Events ----

  datatype Event =
    | Connect(initialDcid: Cid, localCid: Cid, update: Update)
    | Report(handle: Handle, update: Update)
    | Fail(handle: Handle)
    | Close(handle: Handle, ok: bool)
    | Accept

  predicate Possible(e: Event) { e.Connect? || e.Report? ==> WellFormed(e.update) }

  function Apply(t: Tables, e: Event): Tables {
    match e
    case Connect(initialDcid, localCid, u) => Registered(t, initialDcid, localCid, u)
    case Report(h, u) => if h in t.live then Updated(t, h, u) else t
    case Fail(h) => if h in t.live then Removed(t, h) else t
    case Close(h, ok) => if h !in t.live then t else if ok then Unqueued(t, h) else Removed(t, h)
    case Accept => Dequeued(t)
  }

  // ---- Agreement ----

  ghost predicate NoRepeats(queue: seq<Handle>) { forall i, j :: 0 <= i < j < |queue| ==> queue[i] != queue[j] }

  ghost predicate QueueOk(t: Tables) {
    NoRepeats(t.queue) && (forall h :: h in t.queued <==> h in t.queue) && t.queued <= t.live
  }

  ghost predicate RoutesOk(t: Tables) {
    && (forall c :: c in t.routes ==> t.routes[c] in t.live)
    && (forall c :: c in t.initialRoutes ==> t.initialRoutes[c] in t.live)
  }

  ghost predicate TokensOk(t: Tables) { t.tokens.Keys <= t.routes.Keys }

  ghost predicate HandlesOk(t: Tables) {
    (forall h :: h in t.live ==> h < t.nextHandle) && t.reported.Keys == t.live
  }

  /** No route outlives the report it came from. */
  ghost predicate NoStaleRoutes(t: Tables) {
    forall c :: c in t.routes ==> t.routes[c] in t.reported && c in t.reported[t.routes[c]]
  }

  ghost predicate Inv(t: Tables) { QueueOk(t) && RoutesOk(t) && TokensOk(t) && HandlesOk(t) && NoStaleRoutes(t) }

  lemma {:induction false} WithoutIs(queue: seq<Handle>, h: Handle)
    requires NoRepeats(queue)
    ensures NoRepeats(Without(queue, h))
    ensures forall x :: x in Without(queue, h) <==> x in queue && x != h
  {
    if queue != [] {
      var front, last := queue[..|queue| - 1], queue[|queue| - 1];
      assert queue == front + [last];
      assert last !in front;
      WithoutIs(front, h);
    }
  }

  lemma EnqueueOk(t: Tables, h: Handle)
    requires QueueOk(t) && h in t.live
    ensures QueueOk(Enqueued(t, h))
  {
  }

  lemma UnqueueOk(t: Tables, h: Handle)
    requires NoRepeats(t.queue) && (forall x :: x in t.queued <==> x in t.queue) && t.queued <= t.live + {h}
    ensures QueueOk(Unqueued(t, h))
  {
    WithoutIs(t.queue, h);
  }

  lemma DequeueOk(t: Tables)
    requires QueueOk(t)
    ensures QueueOk(Dequeued(t))
  {
    if t.queue != [] {
      assert t.queue == [t.queue[0]] + t.queue[1..];
    }
  }

  lemma {:induction false} WithTokensKeys(tokens: map<Cid, Token>, entries: seq<TokenEntry>, u: Update)
    requires WellFormed(u) && entries <= u.resetTokens
    ensures WithTokens(tokens, entries).Keys <= tokens.Keys + CidSet(u.localCids)
  {
    if entries != [] {
      WithTokensKeys(tokens, entries[..|entries| - 1], u);
      assert entries[|entries| - 1] == u.resetTokens[|entries| - 1];
    }
  }

  lemma RemovedInv(t: Tables, h: Handle)
    requires Inv(t)
    ensures Inv(Removed(t, h))
  {
    UnqueueOk(t.(live := t.live - {h}), h);
    var r := Removed(t, h);
    assert r.queue == Without(t.queue, h) && r.queued == t.queued - {h};
    assert r.reported.Keys == t.reported.Keys - {h};
  }

  /** The route of each ID after a report, and after a registration. */
  lemma ReroutedRoute(t: Tables, h: Handle, u: Update, c: Cid)
    ensures var routes := Rerouted(t, h, u).routes;
      && (c in u.localCids ==> c in routes && routes[c] == h)
      && (c !in u.localCids ==> (c in routes <==> c in t.routes && t.routes[c] != h))
      && (c !in u.localCids && c in routes ==> routes[c] == t.routes[c])
  {
  }

  lemma AddedRoute(t: Tables, initialDcid: Cid, localCid: Cid, u: Update, c: Cid)
    ensures var routes := Added(t, initialDcid, localCid, u).routes;
      && (c in u.localCids || c == localCid ==> c in routes && routes[c] == t.nextHandle)
      && (c !in u.localCids && c != localCid ==> (c in routes <==> c in t.routes))
      && (c !in u.localCids && c != localCid && c in routes ==> routes[c] == t.routes[c])
  {
  }

  lemma UpdatedInv(t: Tables, h: Handle, u: Update)
    requires Inv(t) && h in t.live && WellFormed(u) && !u.closed
    ensures Inv(Updated(t, h, u))
  {
    hide WithTokens, NoRepeats, Routed;
    var stale := CidsForHandle(t.routes, h) - CidSet(u.localCids);
    WithTokensKeys(t.tokens - stale, u.resetTokens, u);
    var t' := Rerouted(t, h, u);
    forall c ensures c in t'.routes ==> t'.routes[c] in t'.live && c in t'.reported[t'.routes[c]] {
      ReroutedRoute(t, h, u, c);
    }
    forall c | c in t'.tokens ensures c in t'.routes {
      ReroutedRoute(t, h, u, c);
    }
    EnqueueOk(t', h);
  }

  lemma AddedAgrees(t: Tables, initialDcid: Cid, localCid: Cid, u: Update)
    requires Inv(t) && WellFormed(u)
    ensures var t' := Added(t, initialDcid, localCid, u); RoutesOk(t') && NoStaleRoutes(t') && TokensOk(t')
  {
    hide WithTokens, QueueOk, Routed;
    WithTokensKeys(t.tokens, u.resetTokens, u);
    var t' := Added(t, initialDcid, localCid, u);
    forall c | c in t'.routes
      ensures t'.routes[c] in t'.live && t'.routes[c] in t'.reported && c in t'.reported[t'.routes[c]]
    {
      AddedRoute(t, initialDcid, localCid, u, c);
    }
    forall c | c in t'.tokens ensures c in t'.routes {
      AddedRoute(t, initialDcid, localCid, u, c);
    }
  }

  lemma RegisteredInv(t: Tables, initialDcid: Cid, localCid: Cid, u: Update)
    requires Inv(t) && WellFormed(u)
    ensures Inv(Registered(t, initialDcid, localCid, u))
  {
    hide WithTokens, NoRepeats, Enqueued, RoutesOk, NoStaleRoutes, TokensOk, Routed;
    AddedAgrees(t, initialDcid, localCid, u);
    var t' := Added(t, initialDcid, localCid, u);
    EnqueueOk(t', t.nextHandle);
    EnqueueKeeps(t', t.nextHandle);
  }

  lemma EnqueueKeeps(t: Tables, h: Handle)
    requires RoutesOk(t) && NoStaleRoutes(t) && TokensOk(t) && HandlesOk(t)
    ensures var t' := Enqueued(t, h); RoutesOk(t') && NoStaleRoutes(t') && TokensOk(t') && HandlesOk(t')
  {
  }

  lemma StepInv(t: Tables, e: Event)
    requires Inv(t) && Possible(e)
    ensures Inv(Apply(t, e))
  {
    match e
    case Connect(initialDcid, localCid, u) => RegisteredInv(t, initialDcid, localCid, u);
    case Report(h, u) =>
      if h in t.live {
        if u.closed {
          RemovedInv(t, h);
        } else {
          UpdatedInv(t, h, u);
        }
      }
    case Fail(h) => RemovedInv(t, h);
    case Close(h, ok) =>
      RemovedInv(t, h);
      UnqueueOk(t, h);
    case Accept => DequeueOk(t);
  }

  function Exec(t: Tables, es: seq<Event>): Tables
    decreases |es|
  {
    if es == [] then t else Exec(Apply(t, es[0]), es[1..])
  }

  /** After any run of new connections, reports, failures, closes and accepts the tables agree, and no handle is ever
      given out twice. */
  lemma {:induction false} EveryRunAgrees(t: Tables, es: seq<Event>)
    requires Inv(t) && forall e :: e in es ==> Possible(e)
    ensures Inv(Exec(t, es))
    ensures t.nextHandle <= Exec(t, es).nextHandle
    ensures forall h :: h in Exec(t, es).live && h < t.nextHandle ==> h in t.live
    decreases |es|
  {
    hide Inv, Possible;
    if es != [] {
      assert es[0] in es;
      StepInv(t, es[0]);
      StepHandles(t, es[0]);
      EveryRunAgrees(Apply(t, es[0]), es[1..]);
    }
  }

  lemma StepHandles(t: Tables, e: Event)
    ensures t.nextHandle <= Apply(t, e).nextHandle
    ensures forall h :: h in Apply(t, e).live && h < t.nextHandle ==> h in t.live
  {
  }

  /** A handle once given out that is not live appears in no table, then or after any continuation. */
  lemma RemovedHandlesForgotten(t: Tables, h: Handle, es: seq<Event>)
    requires Inv(t) && h < t.nextHandle && h !in t.live && forall e :: e in es ==> Possible(e)
    ensures var r := Exec(t, es);
      h !in r.live && h !in r.queue && h !in r.queued && h !in r.routes.Values && h !in r.initialRoutes.Values
  {
    hide Exec;
    EveryRunAgrees(t, es);
  }

  /** A closed connection is no longer offered, a failed one is not offered in any continuation either; an established
      one is offered once, behind those already waiting. */
  lemma QueueFollowsEvents(t: Tables, h: Handle, u: Update, ok: bool, es: seq<Event>)
    requires Inv(t) && h in t.live && forall e :: e in es ==> Possible(e)
    ensures h !in Apply(t, Close(h, ok)).queue && h !in Exec(Apply(t, Fail(h)), es).queue
    ensures u.established && !u.closed && WellFormed(u) ==>
      var q := Apply(t, Report(h, u)).queue; h in q && NoRepeats(q) && t.queue <= q
  {
    hide Exec;
    WithoutIs(t.queue, h);
    StepInv(t, Fail(h));
    RemovedHandlesForgotten(Apply(t, Fail(h)), h, es);
    if WellFormed(u) {
      StepInv(t, Report(h, u));
    }
  }

  // ---- Offering a connection again ----

  /** The event makes `accept` offer `h`: a report of the live connection that finds it established and not closed. */
  predicate OffersAgain(t: Tables, e: Event, h: Handle) {
    e.Report? && e.handle == h && h in t.live && e.update.established && !e.update.closed
  }

  /** Some event of the run does so. */
  predicate ReportedEstablished(t: Tables, es: seq<Event>, h: Handle)
    decreases |es|
  {
    es != [] && (OffersAgain(t, es[0], h) || ReportedEstablished(Apply(t, es[0]), es[1..], h))
  }

  /** `h` waits in the queue at some point of the run. */
  predicate OfferedAlong(t: Tables, es: seq<Event>, h: Handle)
    decreases |es|
  {
    h in t.queue || (es != [] && OfferedAlong(Apply(t, es[0]), es[1..], h))
  }

  lemma StepOffers(t: Tables, e: Event, h: Handle)
    requires Inv(t) && h < t.nextHandle && h !in t.queue
    ensures h in Apply(t, e).queue <==> OffersAgain(t, e, h)
    ensures h < Apply(t, e).nextHandle
  {
    hide WithTokens, Routed, Unrouted;
    if (e.Report? || e.Fail? || e.Close?) && e.handle in t.live {
      WithoutIs(t.queue, e.handle);
    }
  }

  /** A handle given out and not waiting, such as one that `accept` has returned, is offered again in a run exactly when
      some report of the run finds its connection live, established and not closed. */
  lemma {:induction false} OfferedAgainExactly(t: Tables, es: seq<Event>, h: Handle)
    requires Inv(t) && h < t.nextHandle && h !in t.queue && forall e :: e in es ==> Possible(e)
    ensures OfferedAlong(t, es, h) <==> ReportedEstablished(t, es, h)
    decreases |es|
  {
    hide Inv, Apply, Possible;
    if es != [] {
      assert es[0] in es;
      StepInv(t, es[0]);
      StepOffers(t, es[0], h);
      if !OffersAgain(t, es[0], h) {
        OfferedAgainExactly(Apply(t, es[0]), es[1..], h);
      } else {
        assert OfferedAlong(Apply(t, es[0]), es[1..], h);
      }
    }
  }

  /** The handles `accept` returns along a run. */
  function Accepted(t: Tables, es: seq<Event>): seq<Handle>
    decreases |es|
  {
    if es == [] then []
    else (if es[0].Accept? && t.queue != [] then [t.queue[0]] else []) + Accepted(Apply(t, es[0]), es[1..])
  }

  lemma AcceptedCons(t: Tables, e: Event, es: seq<Event>)
    ensures Accepted(t, [e] + es) ==
      (if e.Accept? && t.queue != [] then [t.queue[0]] else []) + Accepted(Apply(t, e), es)
  {
    assert ([e] + es)[1..] == es;
  }

  /** From an empty endpoint: one established connection is accepted, reports once more, and is accepted again. */
  lemma AcceptedAgain(dcid: Cid, cid: Cid)
    ensures var u := Update([cid], [], true, false);
      var es := [Connect(dcid, cid, u), Accept, Report(0, u), Accept];
      (forall e :: e in es ==> Possible(e)) && Accepted(Empty(), es) == [0, 0]
  {
    hide Routed, WithTokens;
    var u := Update([cid], [], true, false);
    var e := Connect(dcid, cid, u);
    var t1 := Apply(Empty(), e);
    var t2 := Apply(t1, Accept);
    var t3 := Apply(t2, Report(0, u));
    assert t1.queue == [0] && t2.queue == [] && t3.queue == [0];
    assert Accepted(Apply(t3, Accept), []) == [];
    AcceptedCons(t3, Accept, []);
    AcceptedCons(t2, Report(0, u), [Accept] + []);
    AcceptedCons(t1, Accept, [Report(0, u)] + ([Accept] + []));
    AcceptedCons(Empty(), e, [Accept] + ([Report(0, u)] + ([Accept] + [])));
    assert [e, Accept, Report(0, u), Accept] == [e] + ([Accept] + ([Report(0, u)] + ([Accept] + [])));
  }

  // ---- Routing a datagram ----

  datatype Destination = To(handle: Handle) | StatelessReset(token: Token) | NewConnection

  /** The order of the lookups for a destination connection ID. */
  function Route(t: Tables, dcid: Cid): Destination {
    if dcid in t.routes then To(t.routes[dcid])
    else if dcid in t.initialRoutes then To(t.initialRoutes[dcid])
    else if dcid in t.tokens then StatelessReset(t.tokens[dcid])
    else NewConnection
  }

  /** In every reachable state a routed datagram reaches a live connection, and the stateless-reset lookup is never
      reached: a token's connection ID always has a route. */
  lemma RoutesReachLive(es: seq<Event>, dcid: Cid)
    requires forall e :: e in es ==> Possible(e)
    ensures var t := Exec(Empty(), es);
      !Route(t, dcid).StatelessReset? && (Route(t, dcid).To? ==> Route(t, dcid).handle in t.live)
  {
    EveryRunAgrees(Empty(), es);
  }

  // ---- Exact routes ----

  /** The connection IDs the event enters are reported by no other live connection. */
  ghost predicate NoClash(t: Tables, e: Event) {
    match e
    case Connect(_, localCid, u) =>
      forall h, c :: h in t.reported && c in t.reported[h] ==> c !in [localCid] + u.localCids
    case Report(h, u) =>
      h in t.live && !u.closed ==>
        forall g, c :: g in t.reported && g != h && c in t.reported[g] ==> c !in u.localCids
    case _ => true
  }

  /** Every reported ID routes to the connection that reports it. */
  ghost predicate Reachable(t: Tables) {
    forall h, c :: h in t.reported && c in t.reported[h] ==> c in t.routes && t.routes[c] == h
  }

  /** A connection ID routes to a connection exactly when that connection reports it. */
  ghost predicate Exact(t: Tables) {
    forall h, c :: h in t.reported ==> (c in t.reported[h] <==> c in t.routes && t.routes[c] == h)
  }

  lemma AgreedIsExact(t: Tables)
    requires NoStaleRoutes(t) && Reachable(t)
    ensures Exact(t)
  {
  }

  lemma ReportReachable(t: Tables, h: Handle, u: Update)
    requires Inv(t) && Reachable(t) && NoClash(t, Report(h, u)) && h in t.live && !u.closed
    ensures Reachable(Updated(t, h, u))
  {
    hide WithTokens, Routed, NoRepeats;
    var t' := Rerouted(t, h, u);
    forall g, c | g in t'.reported && c in t'.reported[g] ensures c in t'.routes && t'.routes[c] == g {
      ReroutedRoute(t, h, u, c);
    }
  }

  lemma ConnectReachable(t: Tables, initialDcid: Cid, localCid: Cid, u: Update)
    requires Inv(t) && Reachable(t) && NoClash(t, Connect(initialDcid, localCid, u))
    ensures Reachable(Registered(t, initialDcid, localCid, u))
  {
    hide WithTokens, Routed, NoRepeats;
    var t' := Added(t, initialDcid, localCid, u);
    forall g, c | g in t'.reported && c in t'.reported[g] ensures c in t'.routes && t'.routes[c] == g {
      AddedRoute(t, initialDcid, localCid, u, c);
      assert c in [localCid] + u.localCids <==> c == localCid || c in u.localCids;
    }
  }

  lemma RemoveReachable(t: Tables, h: Handle)
    requires Reachable(t)
    ensures Reachable(Removed(t, h)) && Reachable(Unqueued(t, h))
  {
  }

  lemma StepReachable(t: Tables, e: Event)
    requires Inv(t) && Reachable(t) && NoClash(t, e)
    ensures Reachable(Apply(t, e))
  {
    match e
    case Connect(initialDcid, localCid, u) => ConnectReachable(t, initialDcid, localCid, u);
    case Report(h, u) =>
      RemoveReachable(t, h);
      if h in t.live && !u.closed {
        ReportReachable(t, h, u);
      }
    case Fail(h) => RemoveReachable(t, h);
    case Close(h, _) => RemoveReachable(t, h);
    case Accept =>
  }

  ghost predicate NeverClash(t: Tables, es: seq<Event>)
    decreases |es|
  {
    es != [] ==> NoClash(t, es[0]) && NeverClash(Apply(t, es[0]), es[1..])
  }

  lemma ConnectClash(t: Tables, initialDcid: Cid, localCid: Cid, u: Update)
    requires Inv(t) && !NoClash(t, Connect(initialDcid, localCid, u))
    ensures !Exact(Registered(t, initialDcid, localCid, u))
  {
    hide WithTokens, Routed, NoRepeats;
    var g, c :| g in t.reported && c in t.reported[g] && c in [localCid] + u.localCids;
    AddedRoute(t, initialDcid, localCid, u, c);
    var t' := Registered(t, initialDcid, localCid, u);
    assert g in t'.reported && c in t'.reported[g] && t'.routes[c] == t.nextHandle;
  }

  lemma ReportClash(t: Tables, h: Handle, u: Update)
    requires Inv(t) && !NoClash(t, Report(h, u))
    ensures !Exact(Updated(t, h, u))
  {
    hide WithTokens, Routed, NoRepeats;
    var g, c :| g in t.reported && g != h && c in t.reported[g] && c in u.localCids;
    ReroutedRoute(t, h, u, c);
    var t' := Updated(t, h, u);
    assert g in t'.reported && c in t'.reported[g] && t'.routes[c] == h;
  }

  lemma ClashBreaks(t: Tables, e: Event)
    requires Inv(t) && !NoClash(t, e)
    ensures !Exact(Apply(t, e))
  {
    match e
    case Connect(initialDcid, localCid, u) => ConnectClash(t, initialDcid, localCid, u);
    case Report(h, u) => ReportClash(t, h, u);
  }

  /** The routes are exactly the reports at every point of the run. */
  ghost predicate ExactThroughout(t: Tables, es: seq<Event>)
    decreases |es|
  {
    Exact(t) && (es != [] ==> ExactThroughout(Apply(t, es[0]), es[1..]))
  }

  /** Over every run the routes stay exactly the reports, if and only if no event enters a connection ID that another
      live connection reports. */
  lemma {:induction false} EveryRunExact(t: Tables, es: seq<Event>)
    requires Inv(t) && Reachable(t) && forall e :: e in es ==> Possible(e)
    ensures ExactThroughout(t, es) <==> NeverClash(t, es)
    decreases |es|
  {
    AgreedIsExact(t);
    hide Inv, Reachable, Exact, Possible, NoClash, Apply;
    if es != [] {
      assert es[0] in es;
      StepInv(t, es[0]);
      if NoClash(t, es[0]) {
        StepReachable(t, es[0]);
        EveryRunExact(Apply(t, es[0]), es[1..]);
      } else {
        ClashBreaks(t, es[0]);
      }
    }
  }

  /** The failing run, with zero-length connection IDs: two connections register under the same one. */
  lemma EmptyIdsClash(first: Cid, second: Cid)
    ensures var u := Update([[]], [], false, false);
      var es := [Connect(first, [], u), Connect(second, [], u)];
      (forall e :: e in es ==> Possible(e)) && !ExactThroughout(Empty(), es)
  {
    hide Routed, WithTokens, Exact, ExactThroughout;
    var u := Update([[]], [], false, false);
    var es := [Connect(first, [], u), Connect(second, [], u)];
    var t := Apply(Empty(), es[0]);
    EmptyInv();
    StepInv(Empty(), es[0]);
    assert 0 in t.reported && [] in t.reported[0] && [] in [[]] + u.localCids;
    ClashBreaks(t, es[1]);
    ExactStep(Empty(), es);
    assert es[1..][0] == es[1];
    ExactStep(t, es[1..]);
    ExactStep(Apply(t, es[1]), es[1..][1..]);
  }

  lemma EmptyInv()
    ensures Inv(Empty())
  {
  }

  lemma ExactStep(t: Tables, es: seq<Event>)
    ensures ExactThroughout(t, es) <==> Exact(t) && (es != [] ==> ExactThroughout(Apply(t, es[0]), es[1..]))
  {
  }

  // ---- The endpoint ----

  /** What processing a connection yields: its report, or the error it is dropped for. */
  datatype Outcome = Reported(update: Update) | Error

  /** What its timers do to a connection: it is closed, it is draining, or it is flushed. */
  datatype TimerOutcome = TimerClosed | Draining | Flushed(outcome: Outcome)

  lemma ExecSnoc(t: Tables, es: seq<Event>, e: Event)
    ensures Exec(t, es + [e]) == Apply(Exec(t, es), e)
    decreases |es|
  {
    if es == [] {
      assert ([] + [e])[1..] == [];
    } else {
      assert (es + [e])[1..] == es[1..] + [e];
      ExecSnoc(Apply(t, es[0]), es[1..], e);
    }
  }

  lemma RoutedSnoc(routes: map<Cid, Handle>, cids: seq<Cid>, c: Cid, h: Handle)
    ensures Routed(routes, cids + [c], h) == Routed(routes, cids, h)[c := h]
  {
  }

  lemma RoutedNone(routes: map<Cid, Handle>, h: Handle)
    ensures Routed(routes, [], h) == routes
  {
  }

  lemma WithoutSnoc(queue: seq<Handle>, x: Handle, h: Handle)
    ensures Without(queue + [x], h) == Without(queue, h) + if x == h then [] else [x]
  {
    assert (queue + [x])[..|queue|] == queue;
  }

  class Endpoint {
    var connections: set<Handle>
    var cidToHandle: map<Cid, Handle>
    var initialDcidToHandle: map<Cid, Handle>
    var cidToResetToken: map<Cid, Token>
    var nextHandle: Handle
    var establishedQueue: seq<Handle>
    var establishedSet: set<Handle>
    ghost var reported: map<Handle, set<Cid>>

    ghost function View(): Tables
      reads this
    {
      Tables(connections, cidToHandle, initialDcidToHandle, cidToResetToken, nextHandle, establishedQueue,
             establishedSet, reported)
    }

    ghost predicate Valid()
      reads this
    {
      Inv(View())
    }

    constructor ()
      ensures Valid() && View() == Empty()
    {
      connections, cidToHandle, initialDcidToHandle, cidToResetToken, nextHandle := {}, map[], map[], map[], 0;
      establishedQueue, establishedSet, reported := [], {}, map[];
    }

    method QueueEstablishedHandle(h: Handle)
      modifies `establishedQueue, `establishedSet
      ensures View() == Enqueued(old(View()), h)
    {
      if h !in establishedSet {
        establishedSet := establishedSet + {h};
        establishedQueue := establishedQueue + [h];
      }
    }

    method UnqueueEstablishedHandle(h: Handle)
      modifies `establishedQueue, `establishedSet
      ensures View() == Unqueued(old(View()), h)
    {
      establishedSet := establishedSet - {h};
      var kept := [];
      for i := 0 to |establishedQueue|
        invariant establishedQueue == old(establishedQueue) && establishedSet == old(establishedSet) - {h}
        invariant kept == Without(establishedQueue[..i], h)
      {
        assert establishedQueue[..i + 1] == establishedQueue[..i] + [establishedQueue[i]];
        WithoutSnoc(establishedQueue[..i], establishedQueue[i], h);
        if establishedQueue[i] != h {
          kept := kept + [establishedQueue[i]];
        }
      }
      assert establishedQueue[..|establishedQueue|] == establishedQueue;
      establishedQueue := kept;
    }

    /** The ready half of `accept`. */
    method TryAccept() returns (found: bool, h: Handle)
      requires Valid()
      modifies `establishedQueue, `establishedSet
      ensures Valid() && View() == Apply(old(View()), Accept)
      ensures found <==> old(establishedQueue) != []
      ensures found ==> h == old(establishedQueue)[0] && h in connections && h !in establishedQueue
    {
      StepInv(View(), Accept);
      if establishedQueue == [] {
        return false, 0;
      }
      found, h := true, establishedQueue[0];
      establishedQueue := establishedQueue[1..];
      establishedSet := establishedSet - {h};
    }

    method RemoveConnection(h: Handle)
      requires Valid()
      modifies this
      ensures Valid() && View() == Removed(old(View()), h)
    {
      hide Inv, Without, CidsForHandle, Unrouted;
      RemovedInv(View(), h);
      var previous := CidsForHandle(cidToHandle, h);
      connections := connections - {h};
      cidToHandle := Unrouted(cidToHandle, h);
      initialDcidToHandle := Unrouted(initialDcidToHandle, h);
      cidToResetToken := cidToResetToken - previous;
      reported := reported - {h};
      UnqueueEstablishedHandle(h);
    }

    method InsertRoutes(cids: seq<Cid>, h: Handle)
      modifies `cidToHandle
      ensures cidToHandle == Routed(old(cidToHandle), cids, h)
    {
      hide Routed;
      RoutedNone(cidToHandle, h);
      for i := 0 to |cids|
        invariant cidToHandle == Routed(old(cidToHandle), cids[..i], h)
      {
        RoutedSnoc(old(cidToHandle), cids[..i], cids[i], h);
        assert cids[..i + 1] == cids[..i] + [cids[i]];
        cidToHandle := cidToHandle[cids[i] := h];
      }
      assert cids[..|cids|] == cids;
    }

    method InsertTokens(entries: seq<TokenEntry>)
      modifies `cidToResetToken
      ensures cidToResetToken == WithTokens(old(cidToResetToken), entries)
    {
      for i := 0 to |entries|
        invariant cidToResetToken == WithTokens(old(cidToResetToken), entries[..i])
      {
        assert entries[..i + 1][..i] == entries[..i];
        cidToResetToken := cidToResetToken[entries[i].cid := entries[i].token];
      }
      assert entries[..|entries|] == entries;
    }

    method ApplyConnectionUpdate(h: Handle, u: Update)
      requires Valid() && h in connections && WellFormed(u)
      modifies this
      ensures Valid() && View() == Apply(old(View()), Report(h, u))
    {
      hide Inv, WithTokens, Routed;
      StepInv(View(), Report(h, u));
      if u.closed {
        RemoveConnection(h);
        return;
      }
      var previous := CidsForHandle(cidToHandle, h);
      var current := CidSet(u.localCids);
      cidToHandle := cidToHandle - (previous - current);
      cidToResetToken := cidToResetToken - (previous - current);
      InsertRoutes(u.localCids, h);
      InsertTokens(u.resetTokens);
      reported := reported[h := current];
      if u.established {
        QueueEstablishedHandle(h);
      }
    }

    /** Applies what processing the connection yielded, if it is still managed. */
    method Settle(h: Handle, outcome: Outcome)
      requires Valid() && (outcome.Reported? ==> WellFormed(outcome.update))
      modifies this
      ensures Valid()
      ensures View() == Apply(old(View()), if outcome.Reported? then Report(h, outcome.update) else Fail(h))
    {
      hide Inv;
      if h !in connections {
        return;
      }
      if outcome.Reported? {
        ApplyConnectionUpdate(h, outcome.update);
      } else {
        RemoveConnection(h);
      }
    }

    /** Registers a connection that survived its first datagram. */
    method Register(initialDcid: Cid, localCid: Cid, u: Update) returns (h: Handle)
      requires Valid() && WellFormed(u)
      modifies this
      ensures Valid() && View() == Apply(old(View()), Connect(initialDcid, localCid, u))
      ensures h !in old(connections) && h in connections
    {
      hide Inv, WithTokens, Routed;
      StepInv(View(), Connect(initialDcid, localCid, u));
      FreshHandle(View());
      h := nextHandle;
      nextHandle := nextHandle + 1;
      cidToHandle := cidToHandle[localCid := h];
      InsertRoutes(u.localCids, h);
      InsertTokens(u.resetTokens);
      initialDcidToHandle := initialDcidToHandle[initialDcid := h];
      reported := reported[h := CidSet(u.localCids) + {localCid}];
      if u.established {
        QueueEstablishedHandle(h);
      }
      connections := connections + {h};
    }

    method CloseConnection(h: Handle, ok: bool)
      requires Valid()
      modifies this
      ensures Valid() && View() == Apply(old(View()), Close(h, ok))
    {
      hide Inv;
      StepInv(View(), Close(h, ok));
      if h !in connections {
        return;
      }
      if !ok {
        RemoveConnection(h);
        return;
      }
      UnqueueEstablishedHandle(h);
    }

    /** The lookups for a datagram's destination ID. In a valid endpoint the result names a live connection, one that
        reports the ID or was created under it; where every report is routed, a connection that reports the ID gets it;
        and exactly an ID without any route starts a new connection, never a stateless reset. */
    method RouteDatagram(dcid: Cid) returns (d: Destination)
      ensures d == Route(View(), dcid)
      ensures Valid() ==> !d.StatelessReset?
      ensures Valid() && d.To? ==>
        && d.handle in connections
        && (dcid in reported[d.handle] || (dcid in initialDcidToHandle && initialDcidToHandle[dcid] == d.handle))
      ensures Reachable(View()) ==> forall h :: h in reported && dcid in reported[h] ==> d == To(h)
      ensures Valid() ==> (d == NewConnection <==> dcid !in cidToHandle && dcid !in initialDcidToHandle)
    {
      if dcid in cidToHandle {
        return To(cidToHandle[dcid]);
      }
      if dcid in initialDcidToHandle {
        return To(initialDcidToHandle[dcid]);
      }
      if dcid in cidToResetToken {
        return StatelessReset(cidToResetToken[dcid]);
      }
      return NewConnection;
    }

    /** The timer pass over a snapshot of the handles: flush as each timer says, then remove the closed ones. What it
        does is a run of reports and failures. */
    method HandleConnectionTimeouts(handles: seq<Handle>, timers: Handle -> TimerOutcome)
      returns (ghost es: seq<Event>)
      requires Valid()
      requires forall h: Handle ::
        timers(h).Flushed? && timers(h).outcome.Reported? ==> WellFormed(timers(h).outcome.update)
      modifies this
      ensures Valid() && View() == Exec(old(View()), es)
      ensures forall h :: h in handles && timers(h).TimerClosed? ==> h !in connections
    {
      hide Inv, Apply, Removed, Updated;
      es := [];
      var closed := [];
      for i := 0 to |handles|
        invariant Valid() && View() == Exec(old(View()), es)
        invariant forall h :: h in handles[..i] && timers(h).TimerClosed? ==> h !in connections || h in closed
      {
        var h := handles[i];
        ghost var before := View();
        if h in connections {
          match timers(h)
          case TimerClosed => closed := closed + [h];
          case Draining =>
          case Flushed(outcome) =>
            Settle(h, outcome);
            ghost var e := if outcome.Reported? then Report(h, outcome.update) else Fail(h);
            ExecSnoc(old(View()), es, e);
            es := es + [e];
            StepLive(before, e);
        }
      }
      assert handles[..|handles|] == handles;
      for i := 0 to |closed|
        invariant Valid() && View() == Exec(old(View()), es)
        invariant forall h :: h in handles && timers(h).TimerClosed? ==> h !in connections || h in closed[i..]
      {
        ghost var before := View();
        Settle(closed[i], Error);
        ExecSnoc(old(View()), es, Fail(closed[i]));
        es := es + [Fail(closed[i])];
        StepLive(before, Fail(closed[i]));
      }
    }
  }

  lemma FreshHandle(t: Tables)
    requires Inv(t)
    ensures t.nextHandle !in t.live
  {
  }

  /** A report or failure adds no handle, and a failure removes its own. */
  lemma StepLive(t: Tables, e: Event)
    requires e.Report? || e.Fail?
    ensures Apply(t, e).live <= t.live && (e.Fail? ==> e.handle !in Apply(t, e).live)
  {
  }
}
