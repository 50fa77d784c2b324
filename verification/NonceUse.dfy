/** Every use of a packet key with a packet number, including encryptions whose packet is then thrown away because the
    header-protection cipher fails: the number stays, and the next packet is encrypted with it again. */
module NonceUse {
  import opened PacketNumbers

  /** The sender, every encryption so far, the keys already used with the next number of their space, whether the
      Initial space had been used when a Retry reset it, and whether an encryption has found its key among those. */
  datatype Use = Use(s: State, encrypted: seq<Packet>, tried: set<Key>, usedBefore: bool, repeated: bool)

  function Begin(client: bool, dcid: nat): Use { Use(Start(client, dcid), [], {}, false, false) }

  /** `MaskFails`: a packet is encrypted, then header protection fails and it is not returned. */
  datatype Step = Ordinary(action: Action) | MaskFails(space: Space)

  /** One encryption under the space's key and next number. */
  function Encrypted(u: Use, space: Space): Use {
    if SendKey(u.s, space) == Absent then u
    else
      var k := SendKey(u.s, space).key;
      u.(encrypted := u.encrypted + [Packet(k, Next(u.s.nextPn, space), u.s.retried)],
         tried := u.tried + {k}, repeated := u.repeated || k in u.tried)
  }

  function Forget(tried: set<Key>, space: Space): set<Key> { set k | k in tried && SpaceOf(k) != space }

  predicate InitialTouched(u: Use) { u.s.nextPn.initial > 0 || InitialKey(CurrentCid(u.s)) in u.tried }

  predicate Resets(s: State, a: Action) { a.Retry? && s.client && !s.retried }

  function Perform(u: Use, x: Step): Use {
    match x
    case MaskFails(space) => Encrypted(u, space)
    case Ordinary(a) =>
      var s := Apply(u.s, a);
      if a.Build? then
        if SendKey(u.s, a.space) == Absent then u
        else Encrypted(u, a.space).(s := s, tried := Forget(u.tried, a.space))
      else if Resets(u.s, a) then u.(s := s, tried := Forget(u.tried, Initial), usedBefore := InitialTouched(u))
      else u.(s := s)
  }

  function Play(u: Use, xs: seq<Step>): Use
    decreases |xs|
  {
    if xs == [] then u else Play(Perform(u, xs[0]), xs[1..])
  }

  // ---- What every step keeps ----

  /** In the numbering in use the number is below the next one, or is the next one with its key on record; Initial keys
      belong to their side of the Retry. */
  predicate UseOk(u: Use, p: Packet) {
    && (Current(u.s, p) ==>
         || p.pn < Next(u.s.nextPn, SpaceOf(p.key))
         || (p.pn == Next(u.s.nextPn, SpaceOf(p.key)) && p.key in u.tried))
    && (p.key.InitialKey? ==> p.key.cid == if p.afterRetry then u.s.retry else u.s.original)
    && (p.afterRetry ==> u.s.retried)
    && (p.key.InitialKey? && !p.afterRetry && u.s.retried ==> u.usedBefore)
  }

  ghost predicate UsesOk(u: Use) { forall i :: 0 <= i < |u.encrypted| ==> UseOk(u, u.encrypted[i]) }

  /** Within a numbering the numbers a key meets go up. */
  ghost predicate Climbs(encrypted: seq<Packet>) {
    forall i, j ::
      0 <= i < j < |encrypted| && SameNumbering(encrypted[i], encrypted[j]) && encrypted[i].key == encrypted[j].key
      ==> encrypted[i].pn < encrypted[j].pn
  }

  ghost predicate Met(encrypted: seq<Packet>, k: Key, pn: nat) {
    exists i :: 0 <= i < |encrypted| && encrypted[i].key == k && encrypted[i].pn == pn
  }

  predicate SameNonce(p: Packet, q: Packet) { p.key == q.key && p.pn == q.pn }

  ghost predicate NonceRepeats(encrypted: seq<Packet>) {
    exists i, j :: 0 <= i < j < |encrypted| && SameNonce(encrypted[i], encrypted[j])
  }

  /** Number 0 has been used with the Initial keys, on this side of the Retry and before it. */
  ghost predicate ZeroUsed(u: Use) {
    && (InitialTouched(u) ==> Packet(InitialKey(CurrentCid(u.s)), 0, u.s.retried) in u.encrypted)
    && (u.s.retried && u.usedBefore ==> Packet(InitialKey(u.s.original), 0, false) in u.encrypted)
  }

  ghost predicate TriedOk(u: Use) {
    forall k :: k in u.tried ==> Met(u.encrypted, k, Next(u.s.nextPn, SpaceOf(k)))
  }

  ghost predicate UseInv(u: Use) {
    && KeysOk(u.s)
    && UsesOk(u)
    && (if u.repeated then NonceRepeats(u.encrypted) else Climbs(u.encrypted))
    && ZeroUsed(u)
    && TriedOk(u)
  }

  lemma BeginKeeps(client: bool, dcid: nat)
    ensures UseInv(Begin(client, dcid))
  {
  }

  lemma MetGrows(encrypted: seq<Packet>, p: Packet, k: Key, pn: nat)
    requires Met(encrypted, k, pn) || (p.key == k && p.pn == pn)
    ensures Met(encrypted + [p], k, pn)
  {
    var more := encrypted + [p];
    if Met(encrypted, k, pn) {
      var i :| 0 <= i < |encrypted| && encrypted[i].key == k && encrypted[i].pn == pn;
      assert more[i].key == k && more[i].pn == pn;
    } else {
      assert more[|encrypted|].key == k && more[|encrypted|].pn == pn;
    }
  }

  lemma RepeatsGrow(encrypted: seq<Packet>, p: Packet)
    requires NonceRepeats(encrypted) || Met(encrypted, p.key, p.pn)
    ensures NonceRepeats(encrypted + [p])
  {
    var more := encrypted + [p];
    if NonceRepeats(encrypted) {
      var i, j :| 0 <= i < j < |encrypted| && SameNonce(encrypted[i], encrypted[j]);
      assert SameNonce(more[i], more[j]);
    } else {
      var i :| 0 <= i < |encrypted| && encrypted[i].key == p.key && encrypted[i].pn == p.pn;
      assert SameNonce(more[i], more[|encrypted|]);
    }
  }

  lemma ClimbStep(u: Use, p: Packet)
    requires UsesOk(u) && Climbs(u.encrypted)
    requires Current(u.s, p) && p.pn == Next(u.s.nextPn, SpaceOf(p.key)) && p.key !in u.tried
    ensures Climbs(u.encrypted + [p])
  {
    var more := u.encrypted + [p];
    forall i, j | 0 <= i < j < |more| && SameNumbering(more[i], more[j]) && more[i].key == more[j].key
      ensures more[i].pn < more[j].pn
    {
      assert UseOk(u, u.encrypted[i]);
    }
  }

  lemma KeySpace(s: State, space: Space)
    requires KeysOk(s) && SendKey(s, space).Installed?
    ensures SpaceOf(SendKey(s, space).key) == space
    ensures space == Initial ==> SendKey(s, space).key == InitialKey(CurrentCid(s))
  {
  }

  lemma EncryptedUses(u: Use, space: Space)
    requires KeysOk(u.s) && UsesOk(u) && SendKey(u.s, space).Installed?
    ensures UsesOk(Encrypted(u, space))
  {
    var v := Encrypted(u, space);
    KeySpace(u.s, space);
    forall i | 0 <= i < |v.encrypted| ensures UseOk(v, v.encrypted[i]) {
      assert i < |u.encrypted| ==> UseOk(u, u.encrypted[i]);
    }
  }

  lemma EncryptedTried(u: Use, space: Space)
    requires KeysOk(u.s) && TriedOk(u) && SendKey(u.s, space).Installed?
    ensures TriedOk(Encrypted(u, space))
  {
    hide Met, KeysOk;
    var v := Encrypted(u, space);
    KeySpace(u.s, space);
    var p := Packet(SendKey(u.s, space).key, Next(u.s.nextPn, space), u.s.retried);
    forall k | k in v.tried ensures Met(v.encrypted, k, Next(v.s.nextPn, SpaceOf(k))) {
      assert k in u.tried ==> Met(u.encrypted, k, Next(u.s.nextPn, SpaceOf(k)));
      MetGrows(u.encrypted, p, k, Next(u.s.nextPn, SpaceOf(k)));
    }
  }

  lemma EncryptedZero(u: Use, space: Space)
    requires KeysOk(u.s) && ZeroUsed(u) && SendKey(u.s, space).Installed?
    ensures ZeroUsed(Encrypted(u, space))
  {
    var v := Encrypted(u, space);
    KeySpace(u.s, space);
    assert v.encrypted[|u.encrypted|] in v.encrypted;
  }

  lemma EncryptedRepeats(u: Use, space: Space)
    requires UseInv(u) && SendKey(u.s, space).Installed?
    ensures var v := Encrypted(u, space); if v.repeated then NonceRepeats(v.encrypted) else Climbs(v.encrypted)
  {
    hide UsesOk, ZeroUsed, Climbs, NonceRepeats, Met;
    KeySpace(u.s, space);
    var p := Packet(SendKey(u.s, space).key, Next(u.s.nextPn, space), u.s.retried);
    if u.repeated || p.key in u.tried {
      RepeatsGrow(u.encrypted, p);
    } else {
      ClimbStep(u, p);
    }
  }

  lemma EncryptedKeeps(u: Use, space: Space)
    requires UseInv(u)
    ensures UseInv(Encrypted(u, space))
  {
    hide UsesOk, TriedOk, ZeroUsed, Climbs, NonceRepeats, KeysOk;
    if SendKey(u.s, space).Installed? {
      EncryptedUses(u, space);
      EncryptedTried(u, space);
      EncryptedZero(u, space);
      EncryptedRepeats(u, space);
    }
  }

  /** Moving on to the next number. */
  lemma AdvanceKeeps(u: Use, v: Use, space: Space)
    requires UseInv(u) && (space == Initial ==> InitialTouched(u))
    requires v == u.(s := v.s, tried := Forget(u.tried, space))
    requires KeysOk(v.s) && v.s.retried == u.s.retried && v.s.retry == u.s.retry && v.s.original == u.s.original
    requires v.s.nextPn == Bump(u.s.nextPn, space)
    ensures UseInv(v)
  {
    hide KeysOk, Climbs, NonceRepeats, Met;
    forall i | 0 <= i < |v.encrypted| ensures UseOk(v, v.encrypted[i]) {
      assert UseOk(u, u.encrypted[i]);
    }
  }

  lemma RetryKeeps(u: Use, scid: nat)
    requires UseInv(u) && Resets(u.s, Retry(scid))
    ensures UseInv(Perform(u, Ordinary(Retry(scid))))
  {
    hide Climbs, NonceRepeats, Met;
    var v := Perform(u, Ordinary(Retry(scid)));
    assert v.s.nextPn == u.s.nextPn.(initial := 0);
    forall i | 0 <= i < |v.encrypted| ensures UseOk(v, v.encrypted[i]) {
      assert UseOk(u, u.encrypted[i]);
    }
  }

  /** A step that neither encrypts nor resets. */
  lemma QuietKeeps(u: Use, s: State)
    requires UseInv(u) && KeysOk(s)
    requires s.nextPn == u.s.nextPn && s.retried == u.s.retried && s.retry == u.s.retry && s.original == u.s.original
    ensures UseInv(u.(s := s))
  {
    hide KeysOk, Climbs, NonceRepeats, Met;
    var v := u.(s := s);
    forall i | 0 <= i < |v.encrypted| ensures UseOk(v, v.encrypted[i]) {
      assert UseOk(u, u.encrypted[i]);
    }
  }

  lemma QuietStep(s: State, a: Action)
    requires KeysOk(s) && !a.Build? && !Resets(s, a)
    ensures var t := Apply(s, a);
      KeysOk(t) && t.nextPn == s.nextPn && t.retried == s.retried && t.retry == s.retry && t.original == s.original
  {
    match a
    case InstallHandshake =>
    case InstallZeroRtt =>
    case InstallOneRtt =>
    case UpdateKeys =>
    case _ =>
  }

  lemma BuildKeeps(u: Use, space: Space)
    requires UseInv(u)
    ensures UseInv(Perform(u, Ordinary(Build(space))))
  {
    hide UsesOk, TriedOk, ZeroUsed, Climbs, NonceRepeats;
    if SendKey(u.s, space).Installed? {
      KeySpace(u.s, space);
      var w := Encrypted(u, space);
      var v := Perform(u, Ordinary(Build(space)));
      EncryptedKeeps(u, space);
      assert Forget(w.tried, space) == Forget(u.tried, space);
      AdvanceKeeps(w, v, space);
    }
  }

  lemma StepKeeps(u: Use, x: Step)
    requires UseInv(u)
    ensures UseInv(Perform(u, x))
  {
    hide UsesOk, TriedOk, ZeroUsed, Climbs, NonceRepeats, Apply, Encrypted;
    match x
    case MaskFails(space) => EncryptedKeeps(u, space);
    case Ordinary(a) =>
      if a.Build? {
        BuildKeeps(u, a.space);
      } else if Resets(u.s, a) {
        RetryKeeps(u, a.scid);
      } else {
        QuietStep(u.s, a);
        QuietKeeps(u, Apply(u.s, a));
      }
  }

  lemma {:induction false} PlayKeeps(u: Use, xs: seq<Step>)
    requires UseInv(u)
    ensures UseInv(Play(u, xs))
    decreases |xs|
  {
    hide UseInv, Perform;
    if xs != [] {
      StepKeeps(u, xs[0]);
      PlayKeeps(Perform(u, xs[0]), xs[1..]);
    }
  }

  // ---- Uniqueness ----

  /** A Retry handed back the original connection ID, with Initial encryptions before and since. */
  predicate ReusedInitial(u: Use) { u.s.retried && u.s.retry == u.s.original && u.usedBefore && InitialTouched(u) }

  lemma UniqueWithout(u: Use)
    requires UseInv(u) && !u.repeated && !ReusedInitial(u)
    ensures !NonceRepeats(u.encrypted)
  {
    forall i, j | 0 <= i < j < |u.encrypted| ensures !SameNonce(u.encrypted[i], u.encrypted[j]) {
      var p, q := u.encrypted[i], u.encrypted[j];
      assert UseOk(u, p) && UseOk(u, q);
      assert SameNumbering(p, q) && p.key == q.key ==> p.pn < q.pn;
    }
  }

  lemma ReusedRepeats(u: Use)
    requires UseInv(u) && ReusedInitial(u)
    ensures NonceRepeats(u.encrypted)
  {
    var i :| 0 <= i < |u.encrypted| && u.encrypted[i] == Packet(InitialKey(u.s.original), 0, false);
    var j :| 0 <= j < |u.encrypted| && u.encrypted[j] == Packet(InitialKey(u.s.retry), 0, true);
    assert SameNonce(u.encrypted[i], u.encrypted[j]) && SameNonce(u.encrypted[j], u.encrypted[i]);
    assert i < j || j < i;
  }

  // ---- The exceptions as conditions on the run ----

  /** The packet a step tries to build, whether or not it is returned. */
  function Attempt(x: Step): Action { if x.MaskFails? then Build(x.space) else x.action }

  function Attempts(xs: seq<Step>): seq<Action> {
    if xs == [] then [] else [Attempt(xs[0])] + Attempts(xs[1..])
  }

  function After(s: State, x: Step): State { if x.MaskFails? then s else Apply(s, x.action) }

  /** The step takes the space to another number: a packet of it is returned, or a Retry resets it. */
  predicate MovesOn(s: State, x: Step, space: Space) {
    && x.Ordinary?
    && ((x.action == Build(space) && SendKey(s, space).Installed?) || (space == Initial && Resets(s, x.action)))
  }

  /** The step encrypts under `k`. */
  predicate EncryptsWith(s: State, x: Step, k: Key) {
    Attempt(x) == Build(SpaceOf(k)) && SendKey(s, SpaceOf(k)) == Installed(k)
  }

  /** `k` is encrypted with before its space moves on to another number. */
  predicate Again(s: State, xs: seq<Step>, k: Key)
    decreases |xs|
  {
    xs != [] && (EncryptsWith(s, xs[0], k) || (!MovesOn(s, xs[0], SpaceOf(k)) && Again(After(s, xs[0]), xs[1..], k)))
  }

  /** After some failure the key it used encrypts again, with no packet of its space returned and no reset between. */
  predicate RetriesAfterFailure(s: State, xs: seq<Step>)
    decreases |xs|
  {
    xs != [] &&
    (|| (xs[0].MaskFails? && SendKey(s, xs[0].space).Installed? && Again(s, xs[1..], SendKey(s, xs[0].space).key))
     || RetriesAfterFailure(After(s, xs[0]), xs[1..]))
  }

  ghost predicate AgainSome(u: Use, xs: seq<Step>) { exists k :: k in u.tried && Again(u.s, xs, k) }

  lemma StepTried(u: Use, x: Step, k: Key)
    requires KeysOk(u.s)
    ensures k in Perform(u, x).tried <==>
      || (k in u.tried && !MovesOn(u.s, x, SpaceOf(k)))
      || (x.MaskFails? && SendKey(u.s, x.space) == Installed(k))
  {
    hide Apply;
    if Attempt(x).Build? && SendKey(u.s, Attempt(x).space).Installed? {
      KeySpace(u.s, Attempt(x).space);
    }
  }

  lemma StepRepeats(u: Use, x: Step)
    requires KeysOk(u.s)
    ensures Perform(u, x).repeated <==> u.repeated || exists k :: k in u.tried && EncryptsWith(u.s, x, k)
  {
    hide Apply;
    if Attempt(x).Build? && SendKey(u.s, Attempt(x).space).Installed? {
      var k := SendKey(u.s, Attempt(x).space).key;
      KeySpace(u.s, Attempt(x).space);
      assert EncryptsWith(u.s, x, k);
    }
  }

  lemma StepKeys(u: Use, x: Step)
    requires KeysOk(u.s)
    ensures KeysOk(Perform(u, x).s) && Perform(u, x).s == After(u.s, x)
  {
    if x.Ordinary? && !x.action.Build? && !Resets(u.s, x.action) {
      QuietStep(u.s, x.action);
    }
  }

  /** What is left to see of the run after one step. */
  lemma AgainStep(u: Use, xs: seq<Step>)
    requires KeysOk(u.s) && xs != []
    ensures var v, fails := Perform(u, xs[0]), xs[0].MaskFails? && SendKey(u.s, xs[0].space).Installed?;
      v.repeated || AgainSome(v, xs[1..]) <==>
        || u.repeated || AgainSome(u, xs)
        || (fails && Again(u.s, xs[1..], SendKey(u.s, xs[0].space).key))
  {
    hide Perform, After, MovesOn, EncryptsWith;
    var x, rest, v := xs[0], xs[1..], Perform(u, xs[0]);
    StepRepeats(u, x);
    StepKeys(u, x);
    forall k ensures k in v.tried <==>
      (k in u.tried && !MovesOn(u.s, x, SpaceOf(k))) || (x.MaskFails? && SendKey(u.s, x.space) == Installed(k))
    {
      StepTried(u, x, k);
    }
    if x.MaskFails? {
      AfterFailure(u.s, x);
    }
    if AgainSome(v, rest) {
      var k :| k in v.tried && Again(v.s, rest, k);
      assert Again(u.s, xs, k) || !(k in u.tried && !MovesOn(u.s, x, SpaceOf(k)));
    }
    if AgainSome(u, xs) && !v.repeated {
      var k :| k in u.tried && Again(u.s, xs, k);
      assert k in v.tried && Again(v.s, rest, k);
    }
  }

  lemma AfterFailure(s: State, x: Step)
    requires x.MaskFails?
    ensures After(s, x) == s
  {
  }

  /** The recorded repeats are exactly the encryptions that follow a failure under its key and number. */
  lemma {:induction false} RepeatedIs(u: Use, xs: seq<Step>)
    requires KeysOk(u.s)
    ensures Play(u, xs).repeated <==> u.repeated || AgainSome(u, xs) || RetriesAfterFailure(u.s, xs)
    decreases |xs|
  {
    hide Perform, After, Again, KeysOk, AgainSome;
    if xs == [] {
      NoneAgain(u);
    } else {
      StepKeys(u, xs[0]);
      RepeatedIs(Perform(u, xs[0]), xs[1..]);
      AgainStep(u, xs);
    }
  }

  lemma NoneAgain(u: Use)
    ensures !AgainSome(u, [])
  {
  }

  /** The sender of a run and the one for which every attempt is returned agree on keys, and on which Initial numberings
      have been used. */
  predicate Related(u: Use, a: State) {
    && KeysOk(a)
    && u.s == a.(nextPn := u.s.nextPn, sent := u.s.sent, sentBefore := u.s.sentBefore)
    && (InitialTouched(u) <==> a.nextPn.initial > 0)
    && (a.retried ==> (u.usedBefore <==> a.sentBefore > 0))
  }

  lemma RelatedAttempt(u: Use, a: State, space: Space)
    requires Related(u, a)
    ensures Related(Perform(u, MaskFails(space)), Built(a, space))
    ensures Related(Perform(u, Ordinary(Build(space))), Built(a, space))
  {
    if SendKey(a, space).Installed? {
      KeySpace(a, space);
      assert SendKey(u.s, space) == SendKey(a, space);
    }
  }

  lemma RelatedOther(u: Use, a: State, x: Action)
    requires Related(u, a) && !x.Build?
    ensures Related(Perform(u, Ordinary(x)), Apply(a, x))
  {
    SameOther(u.s, a, x);
    if !Resets(a, x) {
      QuietStep(a, x);
    }
  }

  /** Steps other than building do to the keys of both what they do to one. */
  lemma SameOther(s: State, a: State, x: Action)
    requires s == a.(nextPn := s.nextPn, sent := s.sent, sentBefore := s.sentBefore) && !x.Build?
    ensures var t, b := Apply(s, x), Apply(a, x);
      && t == b.(nextPn := t.nextPn, sent := t.sent, sentBefore := t.sentBefore)
      && b.sentBefore == (if Resets(a, x) then a.nextPn.initial else a.sentBefore)
  {
    match x
    case UpdateKeys =>
    case InstallZeroRtt =>
    case Retry(_) =>
    case _ =>
  }

  lemma RelatedStep(u: Use, a: State, x: Step)
    requires Related(u, a)
    ensures Related(Perform(u, x), Apply(a, Attempt(x)))
  {
    hide Related, Perform;
    if Attempt(x).Build? {
      RelatedAttempt(u, a, Attempt(x).space);
    } else {
      RelatedOther(u, a, x.action);
    }
  }

  lemma {:induction false} RelatedRun(u: Use, a: State, xs: seq<Step>)
    requires Related(u, a)
    ensures Related(Play(u, xs), Exec(a, Attempts(xs)))
    decreases |xs|
  {
    hide Related, Perform, Apply;
    if xs != [] {
      RelatedStep(u, a, xs[0]);
      RelatedRun(Perform(u, xs[0]), Apply(a, Attempt(xs[0])), xs[1..]);
      assert Attempts(xs)[1..] == Attempts(xs[1..]);
    }
  }

  lemma BeginRelated(client: bool, dcid: nat)
    ensures Related(Begin(client, dcid), Start(client, dcid))
  {
  }

  /** Over every run, header-protection failures included, no key is used twice with a number, except exactly when a
      packet is encrypted after a failure under the key and number of that failure, or a client's first Retry hands back
      the original connection ID with Initial packets attempted on both sides of it. */
  lemma NonceUniqueExactly(client: bool, dcid: nat, xs: seq<Step>)
    ensures NonceRepeats(Play(Begin(client, dcid), xs).encrypted) <==>
      RetriesAfterFailure(Start(client, dcid), xs) || (client && HandsBack(Attempts(xs), dcid))
  {
    hide UseInv, Play, Exec, Perform, NonceRepeats, RetriesAfterFailure, HandsBack, Again, Attempts;
    var u := Play(Begin(client, dcid), xs);
    BeginKeeps(client, dcid);
    PlayKeeps(Begin(client, dcid), xs);
    RepeatedIs(Begin(client, dcid), xs);
    BeginRelated(client, dcid);
    RelatedRun(Begin(client, dcid), Start(client, dcid), xs);
    ReusedIs(client, dcid, Attempts(xs));
    RecordedExactly(u);
  }

  lemma RecordedExactly(u: Use)
    requires UseInv(u)
    ensures NonceRepeats(u.encrypted) <==> u.repeated || ReusedInitial(u)
  {
    hide UsesOk, ZeroUsed, TriedOk, Climbs, NonceRepeats, KeysOk, ReusedInitial;
    if !u.repeated {
      if ReusedInitial(u) {
        ReusedRepeats(u);
      } else {
        UniqueWithout(u);
      }
    }
  }

  /** Without such failures the first exception cannot arise, and every encryption is a packet returned. */
  lemma {:induction false} NoFailureNoRepeat(u: Use, xs: seq<Step>)
    requires u.encrypted == u.s.sent && u.tried == {}
    requires forall x :: x in xs ==> x.Ordinary?
    ensures Play(u, xs).encrypted == Play(u, xs).s.sent && !RetriesAfterFailure(u.s, xs)
    decreases |xs|
  {
    if xs != [] {
      assert xs[0] in xs;
      NoFailureNoRepeat(Perform(u, xs[0]), xs[1..]);
    }
  }

  /** The failing run: an Initial packet is encrypted, header protection fails, and the next Initial packet is encrypted
      with the same number. */
  lemma FailureRepeats(client: bool, dcid: nat)
    ensures NonceRepeats(Play(Begin(client, dcid), [MaskFails(Initial), Ordinary(Build(Initial))]).encrypted)
  {
    hide Play, NonceRepeats, HandsBack, Attempts;
    var xs := [MaskFails(Initial), Ordinary(Build(Initial))];
    assert Again(Start(client, dcid), xs[1..], InitialKey(dcid)) by {
      assert xs[1..][0] == Ordinary(Build(Initial));
    }
    NonceUniqueExactly(client, dcid, xs);
  }
}
