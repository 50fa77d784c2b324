/** Which keys a sender encrypts with over its life: fresh ones after every installation and update, none once they are
    discarded, and no 0-RTT key after the first 1-RTT one. */
module KeyFreshness {
  import opened PacketNumbers
  import opened NonceUse

  // ---- Labels ----

  /** A key from TLS carries a label below `n`. */
  predicate Labelled(k: Key, n: nat) { k.HandshakeKey? || k.OneRttKey? ==> k.install < n }

  predicate SlotLabelled(slot: KeySlot, n: nat) { slot.Installed? ==> Labelled(slot.key, n) }

  /** Every key installed, and every key ever used, was labelled by an installation so far. */
  ghost predicate LabelsOk(u: Use) {
    && KeysOk(u.s)
    && SlotLabelled(u.s.handshake, u.s.installs) && SlotLabelled(u.s.oneRtt, u.s.installs)
    && forall i :: 0 <= i < |u.encrypted| ==> Labelled(u.encrypted[i].key, u.s.installs)
  }

  lemma BeginLabels(client: bool, dcid: nat)
    ensures LabelsOk(Begin(client, dcid))
  {
  }

  lemma SendKeyLabelled(s: State, space: Space)
    requires KeysOk(s) && SlotLabelled(s.handshake, s.installs) && SlotLabelled(s.oneRtt, s.installs)
    ensures SlotLabelled(SendKey(s, space), s.installs)
  {
  }

  lemma KeyStep(s: State, a: Action)
    requires KeysOk(s) && SlotLabelled(s.handshake, s.installs) && SlotLabelled(s.oneRtt, s.installs)
    ensures var t := Apply(s, a);
      && KeysOk(t) && SlotLabelled(t.handshake, t.installs) && SlotLabelled(t.oneRtt, t.installs)
      && s.installs <= t.installs
  {
    match a
    case Build(_) =>
    case InstallHandshake =>
    case InstallOneRtt =>
    case UpdateKeys =>
    case _ =>
  }

  lemma StepEncrypts(u: Use, x: Step)
    ensures var v := Perform(u, x);
      v.encrypted == u.encrypted ||
      (Attempt(x).Build? && SendKey(u.s, Attempt(x).space).Installed? &&
       exists p :: v.encrypted == u.encrypted + [p] && p.key == SendKey(u.s, Attempt(x).space).key)
    ensures Perform(u, x).s == After(u.s, x)
  {
    hide Apply;
    if Attempt(x).Build? && SendKey(u.s, Attempt(x).space).Installed? {
      var space := Attempt(x).space;
      var p := Packet(SendKey(u.s, space).key, Next(u.s.nextPn, space), u.s.retried);
      assert Perform(u, x).encrypted == u.encrypted + [p];
    } else if Attempt(x).Build? {
      AbsentBuilds(u.s, Attempt(x).space);
    }
  }

  lemma AbsentBuilds(s: State, space: Space)
    requires SendKey(s, space) == Absent
    ensures Apply(s, Build(space)) == s
  {
  }

  lemma LabelsStep(u: Use, x: Step)
    requires LabelsOk(u)
    ensures LabelsOk(Perform(u, x))
  {
    hide Apply, Perform, KeysOk, SendKey;
    var v := Perform(u, x);
    StepEncrypts(u, x);
    if x.Ordinary? {
      KeyStep(u.s, x.action);
    }
    if Attempt(x).Build? {
      SendKeyLabelled(u.s, Attempt(x).space);
    }
    forall i | 0 <= i < |v.encrypted| ensures Labelled(v.encrypted[i].key, v.s.installs) {
      assert i < |u.encrypted| ==> Labelled(u.encrypted[i].key, u.s.installs);
    }
  }

  lemma {:induction false} LabelsRun(u: Use, xs: seq<Step>)
    requires LabelsOk(u)
    ensures LabelsOk(Play(u, xs))
    decreases |xs|
  {
    hide LabelsOk, Perform;
    if xs != [] {
      LabelsStep(u, xs[0]);
      LabelsRun(Perform(u, xs[0]), xs[1..]);
    }
  }

  // ---- Freshness ----

  /** The space sends under a key that no encryption so far has used. */
  ghost predicate Fresh(u: Use, space: Space) {
    && SendKey(u.s, space).Installed?
    && forall i :: 0 <= i < |u.encrypted| ==> u.encrypted[i].key != SendKey(u.s, space).key
  }

  /** The space whose keys the action replaces. */
  predicate Replaces(s: State, a: Action, space: Space) {
    match a
    case InstallHandshake => space == Handshake
    case InstallOneRtt => space == Application
    case UpdateKeys => space == Application && s.oneRtt.Installed?
    case _ => false
  }

  lemma ReplacedFresh(u: Use, a: Action, space: Space)
    requires LabelsOk(u) && Replaces(u.s, a, space)
    ensures var v := Perform(u, Ordinary(a)); Fresh(v, space) && v.encrypted == u.encrypted && v.s.nextPn == u.s.nextPn
  {
    var v := Perform(u, Ordinary(a));
    forall i | 0 <= i < |v.encrypted| ensures v.encrypted[i].key != SendKey(v.s, space).key {
      assert Labelled(u.encrypted[i].key, u.s.installs);
    }
  }

  /** In every run, an installation or an update of keys makes the space send under a key never used before, and leaves
      the numbers alone. */
  lemma EveryReplacementFresh(client: bool, dcid: nat, xs: seq<Step>, a: Action, space: Space)
    requires Replaces(Play(Begin(client, dcid), xs).s, a, space)
    ensures var u := Play(Begin(client, dcid), xs);
      var v := Perform(u, Ordinary(a)); Fresh(v, space) && v.encrypted == u.encrypted && v.s.nextPn == u.s.nextPn
  {
    hide LabelsOk, Perform, Play, Fresh, Replaces;
    BeginLabels(client, dcid);
    LabelsRun(Begin(client, dcid), xs);
    ReplacedFresh(Play(Begin(client, dcid), xs), a, space);
  }

  /** 0-RTT keys let a client send application packets until there are 1-RTT keys; later ones change nothing. */
  lemma ZeroRttInstalled(u: Use)
    ensures var v := Perform(u, Ordinary(InstallZeroRtt));
      && (u.s.oneRtt.Installed? ==> v == u)
      && (u.s.oneRtt == Absent ==>
           SendKey(v.s, Application) == if u.s.client then Installed(ZeroRttKey) else Absent)
  {
  }

  /** Labels are given out one by one: to every installation, every effective update and every failed trial. */
  function LabelsTaken(s: State, xs: seq<Action>): nat
    decreases |xs|
  {
    if xs == [] then 0
    else
      (match xs[0]
       case InstallHandshake => 1
       case InstallOneRtt => 1
       case FailedTrial => 1
       case UpdateKeys => if s.oneRtt.Installed? then 1 else 0
       case _ => 0) + LabelsTaken(Apply(s, xs[0]), xs[1..])
  }

  lemma {:induction false} LabelsCount(s: State, xs: seq<Action>)
    ensures Exec(s, xs).installs == s.installs + LabelsTaken(s, xs)
    decreases |xs|
  {
    if xs != [] {
      LabelsCount(Apply(s, xs[0]), xs[1..]);
    }
  }

  // ---- Discarded keys ----

  /** The action can put a key where the space has none. */
  predicate Supplies(a: Action, space: Space) {
    match space
    case Initial => a.Retry?
    case Handshake => a.InstallHandshake?
    case Application => a.InstallZeroRtt? || a.InstallOneRtt?
  }

  /** The action takes away the keys of a space. 0-RTT keys are all an application space has until 1-RTT ones come. */
  predicate Discards(s: State, a: Action, space: Space) {
    match a
    case DiscardInitial => space == Initial
    case DiscardHandshake => space == Handshake
    case DiscardZeroRtt => space == Application && s.oneRtt == Absent
    case _ => false
  }

  lemma StaysAbsent(s: State, a: Action, space: Space)
    requires SendKey(s, space) == Absent && !Supplies(a, space)
    ensures SendKey(Apply(s, a), space) == Absent
  {
    match a
    case Build(_) =>
    case UpdateKeys =>
    case Retry(_) =>
    case _ =>
  }

  /** Encryptions in the space from index `n` on. */
  ghost predicate NoneFrom(u: Use, n: nat, space: Space) {
    forall i :: n <= i < |u.encrypted| ==> SpaceOf(u.encrypted[i].key) != space
  }

  lemma {:induction false} NothingWithoutKeys(u: Use, xs: seq<Step>, n: nat, space: Space)
    requires KeysOk(u.s) && SendKey(u.s, space) == Absent && NoneFrom(u, n, space)
    requires forall x :: x in xs ==> !Supplies(Attempt(x), space)
    ensures NoneFrom(Play(u, xs), n, space)
    decreases |xs|
  {
    hide Perform, Apply, KeysOk, SendKey, Supplies;
    if xs != [] {
      var x := xs[0];
      assert x in xs;
      StepEncrypts(u, x);
      StepKeys(u, x);
      if x.Ordinary? {
        StaysAbsent(u.s, x.action, space);
      }
      if Attempt(x).Build? && SendKey(u.s, Attempt(x).space).Installed? {
        KeySpace(u.s, Attempt(x).space);
      }
      NothingWithoutKeys(Perform(u, x), xs[1..], n, space);
    }
  }

  /** Once its keys are discarded a space encrypts nothing more, in any run that does not supply it with keys again. */
  lemma DiscardedStaysSilent(u: Use, a: Action, xs: seq<Step>, space: Space)
    requires KeysOk(u.s) && Discards(u.s, a, space) && forall x :: x in xs ==> !Supplies(Attempt(x), space)
    ensures NoneFrom(Play(Perform(u, Ordinary(a)), xs), |u.encrypted|, space)
  {
    hide Play, Supplies;
    StepKeys(u, Ordinary(a));
    NothingWithoutKeys(Perform(u, Ordinary(a)), xs, |u.encrypted|, space);
  }

  // ---- 0-RTT before 1-RTT ----

  /** No 0-RTT encryption follows a 1-RTT one, a server makes none, and 1-RTT keys once used are still installed. */
  ghost predicate EarlyFirst(u: Use) {
    && (forall i, j :: 0 <= i < j < |u.encrypted| && u.encrypted[i].key.OneRttKey? ==> !u.encrypted[j].key.ZeroRttKey?)
    && (forall i :: 0 <= i < |u.encrypted| ==>
         (u.encrypted[i].key.ZeroRttKey? ==> u.s.client) && (u.encrypted[i].key.OneRttKey? ==> u.s.oneRtt.Installed?))
  }

  lemma EarlyStep(u: Use, x: Step)
    requires KeysOk(u.s) && EarlyFirst(u)
    ensures EarlyFirst(Perform(u, x))
  {
    hide Perform, Apply;
    var v := Perform(u, x);
    StepEncrypts(u, x);
    OneRttStays(u.s, x);
    if Attempt(x).Build? && SendKey(u.s, Attempt(x).space).Installed? {
      KeySpace(u.s, Attempt(x).space);
    }
  }

  lemma OneRttStays(s: State, x: Step)
    ensures s.oneRtt.Installed? ==> After(s, x).oneRtt.Installed?
    ensures After(s, x).client == s.client
  {
  }

  /** Over every run. */
  lemma {:induction false} EarlyRun(u: Use, xs: seq<Step>)
    requires KeysOk(u.s) && EarlyFirst(u)
    ensures EarlyFirst(Play(u, xs))
    decreases |xs|
  {
    hide EarlyFirst, Perform, KeysOk;
    if xs != [] {
      EarlyStep(u, xs[0]);
      StepKeys(u, xs[0]);
      EarlyRun(Perform(u, xs[0]), xs[1..]);
    }
  }
}
