/** The packet builder and the key operations beside it, as updates of one connection's state. */
module PacketBuilder {
  import opened PacketNumbers
  import opened NonceUse
  import opened KeyFreshness

  function SatSub(a: nat, b: nat): nat { if a < b then 0 else a - b }

  /** An encoded packet before encryption: where its number starts, how long the number is, and its length. */
  datatype Encoding = EncodeError | Encoded(pnOffset: nat, pnLen: nat, length: nat)

  /** What every packet encoder guarantees for a payload of each length: a header byte before the number, at least the
      payload after it, and a number whose length does not depend on the payload. */
  ghost predicate Encodes(encode: nat -> Encoding) {
    && (forall n: nat :: encode(n).Encoded? ==>
         && encode(n).pnOffset > 0
         && encode(n).pnOffset + encode(n).pnLen + n <= encode(n).length)
    && (forall m: nat, n: nat :: encode(m).Encoded? && encode(n).Encoded? ==> encode(m).pnLen == encode(n).pnLen)
  }

  function MinPlaintext(sampleLen: nat, pnLen: nat, tagLen: nat): nat {
    SatSub(SatSub(sampleLen + 4, pnLen), tagLen)
  }

  /** Header protection needs a whole sample four bytes past the start of the number. */
  predicate SampleFits(e: Encoding, sampleLen: nat, tagLen: nat) {
    e.Encoded? && e.pnOffset > 0 && e.length + tagLen >= e.pnOffset + 4 + sampleLen
  }

  lemma PaddedSampleFits(encode: nat -> Encoding, n: nat, first: nat, sampleLen: nat, tagLen: nat)
    requires Encodes(encode) && encode(n).Encoded? && encode(first).Encoded?
    requires n >= MinPlaintext(sampleLen, encode(first).pnLen, tagLen)
    ensures SampleFits(encode(n), sampleLen, tagLen)
  {
    assert encode(first).pnLen == encode(n).pnLen;
  }

  /** The padding is no more than needed: with nothing between number and payload, the sample fits exactly from that
      length on. */
  lemma PaddingIsLeast(pnOffset: nat, pnLen: nat, n: nat, sampleLen: nat, tagLen: nat)
    requires pnOffset > 0
    ensures SampleFits(Encoded(pnOffset, pnLen, pnOffset + pnLen + n), sampleLen, tagLen) <==>
      n >= MinPlaintext(sampleLen, pnLen, tagLen)
  {
  }

  /** The payload length the packet is encoded with: padded up so that a sample exists. */
  function Padded(encode: nat -> Encoding, payloadLen: nat, sampleLen: nat, tagLen: nat): nat
    requires encode(payloadLen).Encoded?
  {
    var needed := MinPlaintext(sampleLen, encode(payloadLen).pnLen, tagLen);
    if payloadLen < needed then needed else payloadLen
  }

  /** The packet can be encoded, at its own length and then padded. */
  predicate CanEncode(encode: nat -> Encoding, payloadLen: nat, sampleLen: nat, tagLen: nat) {
    encode(payloadLen).Encoded? && encode(Padded(encode, payloadLen, sampleLen, tagLen)).Encoded?
  }

  datatype BuildResult = Failed | Refused | BuiltPacket(packet: Packet)

  class PacketSender {
    const client: bool
    const original: nat
    var retryReceived: bool
    var retryCid: nat
    var initialKey: KeySlot
    var handshakeKey: KeySlot
    var zeroRttKey: KeySlot
    var oneRttKey: KeySlot
    var nextPn: Numbers
    var installs: nat
    var nextSecrets: bool
    var pendingRemoteKeyUpdate: bool
    ghost var use: Use

    /** The fields are the ones of the abstract sender. */
    ghost predicate Matches()
      reads this
    {
      && use.s.client == client && use.s.original == original
      && use.s.retried == retryReceived && use.s.retry == retryCid
      && use.s.initial == initialKey && use.s.handshake == handshakeKey
      && use.s.zeroRtt == zeroRttKey && use.s.oneRtt == oneRttKey
      && use.s.nextPn == nextPn && use.s.installs == installs
    }

    ghost predicate Valid()
      reads this
    {
      && Matches()
      && Inv(use.s)
      && UseInv(use)
      && LabelsOk(use)
      && (nextSecrets || pendingRemoteKeyUpdate ==> oneRttKey.Installed?)
    }

    constructor (client: bool, dcid: nat)
      ensures Valid() && use == Begin(client, dcid)
    {
      this.client, original, retryCid, retryReceived := client, dcid, dcid, false;
      initialKey, handshakeKey, zeroRttKey, oneRttKey := Installed(InitialKey(dcid)), Absent, Absent, Absent;
      nextPn, installs := Numbers(0, 0, 0), 0;
      nextSecrets, pendingRemoteKeyUpdate := false, false;
      use := Begin(client, dcid);
      new;
      StartInv(client, dcid);
      BeginKeeps(client, dcid);
      BeginLabels(client, dcid);
    }

    function LocalKey(space: Space): KeySlot
      reads this
    {
      match space
      case Initial => initialKey
      case Handshake => handshakeKey
      case Application => if oneRttKey.Installed? then oneRttKey else if client then zeroRttKey else Absent
    }

    /** Records a step of the abstract sender. */
    ghost method Record(x: Step)
      requires Inv(use.s) && UseInv(use) && LabelsOk(use)
      modifies `use
      ensures use == Perform(old(use), x) && Inv(use.s) && UseInv(use) && LabelsOk(use)
      ensures x.Ordinary? && Replaces(old(use).s, x.action, Application) ==> Fresh(use, Application)
    {
      hide Inv, UseInv, LabelsOk, Apply, Fresh, Replaces;
      StepKeeps(use, x);
      LabelsStep(use, x);
      if x.Ordinary? {
        StepInv(use.s, x.action);
        if Replaces(use.s, x.action, Application) {
          ReplacedFresh(use, x.action, Application);
        }
      }
      use := Perform(use, x);
    }

    /** `build_packet_to_addr`: the gates come before the encryption, and the number advances with every packet
        encrypted and returned, whatever is refused or fails before that. `congestionAllows` and `pathAllows` are the
        two gates; `aeadOk` and `maskOk` say whether the packet cipher and the header-protection cipher succeed. A
        failure of the latter comes after the encryption and leaves the number where it was. */
    method BuildPacketToAddr(space: Space, payloadLen: nat, encode: nat -> Encoding, tagLen: nat, sampleLen: nat,
                             congestionAllows: bool, pathAllows: bool, aeadOk: bool, maskOk: bool)
      returns (r: BuildResult)
      requires Valid() && Encodes(encode)
      modifies this
      ensures Valid() && nextSecrets == old(nextSecrets) && pendingRemoteKeyUpdate == old(pendingRemoteKeyUpdate)
      ensures var encrypts := old(LocalKey(space)).Installed? && congestionAllows && pathAllows && aeadOk &&
          CanEncode(encode, payloadLen, sampleLen, tagLen);
        && (r.BuiltPacket? <==> encrypts && maskOk)
        && (r.Refused? <==>
             || (space == Application && old(LocalKey(space)) == Absent)
             || !congestionAllows
             || (CanEncode(encode, payloadLen, sampleLen, tagLen) && (!pathAllows || old(LocalKey(space)) == Absent)))
        && (use ==
            if !encrypts then old(use)
            else Perform(old(use), if maskOk then Ordinary(Build(space)) else MaskFails(space)))
      ensures r.BuiltPacket? ==>
        && old(LocalKey(space)) == Installed(r.packet.key) && r.packet.pn == old(Next(nextPn, space))
        && use.s.sent == old(use.s.sent) + [r.packet] && use.encrypted == old(use.encrypted) + [r.packet]
    {
      hide Inv, UseInv, LabelsOk, Fresh;
      if space == Application && LocalKey(space) == Absent {
        return Refused;
      }
      if !congestionAllows {
        return Refused;
      }
      var pn := Next(nextPn, space);
      var n := payloadLen;
      var e := encode(n);
      if e == EncodeError {
        return Failed;
      }
      var needed := MinPlaintext(sampleLen, e.pnLen, tagLen);
      if n < needed {
        n := needed;
        e := encode(n);
        if e == EncodeError {
          return Failed;
        }
      }
      if !pathAllows {
        return Refused;
      }
      var slot := LocalKey(space);
      if slot == Absent || !aeadOk {
        return if slot == Absent then Refused else Failed;
      }
      Record(if maskOk then Ordinary(Build(space)) else MaskFails(space));
      var packet := Packet(slot.key, pn, retryReceived);
      PaddedSampleFits(encode, n, payloadLen, sampleLen, tagLen);
      assert SampleFits(e, sampleLen, tagLen);
      if !maskOk {
        return Failed;
      }
      nextPn := Bump(nextPn, space);
      return BuiltPacket(packet);
    }

    /** `process_retry`, once the integrity tag and the token are in order. */
    method ProcessRetry(scid: nat)
      requires Valid()
      modifies this
      ensures Valid() && use == Perform(old(use), Ordinary(Retry(scid))) && nextSecrets == old(nextSecrets)
    {
      hide Inv, UseInv, LabelsOk, Fresh;
      Record(Ordinary(Retry(scid)));
      if !client || retryReceived {
        return;
      }
      retryReceived, retryCid := true, scid;
      initialKey := Installed(InitialKey(scid));
      nextPn := nextPn.(initial := 0);
    }

    /** 1-RTT keys from TLS, with the secrets for later updates. */
    method InstallOneRttKeys()
      requires Valid()
      modifies this
      ensures Valid() && use == Perform(old(use), Ordinary(InstallOneRtt))
      ensures nextSecrets && !pendingRemoteKeyUpdate && Fresh(use, Application)
    {
      hide Inv, UseInv, LabelsOk, Fresh;
      Record(Ordinary(InstallOneRtt));
      oneRttKey := Installed(OneRttKey(installs));
      installs := installs + 1;
      nextSecrets, pendingRemoteKeyUpdate := true, false;
    }

    /** A local update: refused without 1-RTT keys, without secrets, or while an earlier one waits for the peer. */
    method InitiateKeyUpdate() returns (updated: bool)
      requires Valid()
      modifies this
      ensures Valid()
      ensures updated <==> old(oneRttKey).Installed? && old(nextSecrets) && !old(pendingRemoteKeyUpdate)
      ensures use == if updated then Perform(old(use), Ordinary(UpdateKeys)) else old(use)
      ensures updated ==> Fresh(use, Application) && use.encrypted == old(use.encrypted)
      ensures pendingRemoteKeyUpdate == (updated || old(pendingRemoteKeyUpdate)) && nextSecrets == old(nextSecrets)
    {
      hide Inv, UseInv, LabelsOk, Fresh;
      if oneRttKey == Absent || !nextSecrets {
        return false;
      }
      if pendingRemoteKeyUpdate {
        return false;
      }
      Record(Ordinary(UpdateKeys));
      oneRttKey := Installed(OneRttKey(installs));
      installs := installs + 1;
      pendingRemoteKeyUpdate := true;
      return true;
    }

    /** A packet in the other key phase. `stale` says it is older than the last update, `answers` that its phase is the
        pending update's, `decrypts` that the trial succeeds. An answer changes no local key; a peer's own update that
        decrypts installs fresh ones; a failed trial has still advanced the secrets. */
    method TryDecryptWithNextKeys(stale: bool, answers: bool, decrypts: bool) returns (ok: bool)
      requires Valid()
      modifies this
      ensures Valid() && nextSecrets == old(nextSecrets)
      ensures ok <==> !stale && decrypts && ((old(pendingRemoteKeyUpdate) && answers) || nextSecrets)
      ensures use ==
        if stale || (old(pendingRemoteKeyUpdate) && answers) || !nextSecrets then old(use)
        else Perform(old(use), Ordinary(if decrypts then UpdateKeys else FailedTrial))
      ensures ok && !(old(pendingRemoteKeyUpdate) && answers) ==> Fresh(use, Application)
      ensures pendingRemoteKeyUpdate == (old(pendingRemoteKeyUpdate) && !ok)
    {
      hide Inv, UseInv, LabelsOk, Fresh;
      if stale {
        return false;
      }
      if pendingRemoteKeyUpdate && answers {
        if decrypts {
          pendingRemoteKeyUpdate := false;
        }
        return decrypts;
      }
      if !nextSecrets {
        return false;
      }
      Record(Ordinary(if decrypts then UpdateKeys else FailedTrial));
      if decrypts {
        oneRttKey := Installed(OneRttKey(installs));
        pendingRemoteKeyUpdate := false;
      }
      installs := installs + 1;
      return decrypts;
    }
  }
}
