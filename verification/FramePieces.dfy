/** Every frame of a pass is one that was queued, or a piece of one. */
module FramePieces {
  import opened FrameSplitting
  import opened Packetiser

  /** `g` is `f` or a piece of it: the same frame but for where its data starts and ends. */
  predicate PieceOf(g: Frame, f: Frame) {
    match f
    case Crypto(_, _) => g.Crypto?
    case Stream(id, _, _, _) => g.Stream? && g.streamId == id
    case Control(_, _, _) => g == f
  }

  ghost predicate FromSome(g: Frame, fs: seq<Frame>) { exists j :: 0 <= j < |fs| && PieceOf(g, fs[j]) }

  ghost predicate AllPieces(gs: seq<Frame>, fs: seq<Frame>) { forall i :: 0 <= i < |gs| ==> FromSome(gs[i], fs) }

  lemma PieceSelf(f: Frame)
    ensures PieceOf(f, f)
  {
  }

  lemma PiecesTrans(a: seq<Frame>, b: seq<Frame>, c: seq<Frame>)
    requires AllPieces(a, b) && AllPieces(b, c)
    ensures AllPieces(a, c)
  {
    forall i | 0 <= i < |a| ensures FromSome(a[i], c) {
      assert FromSome(a[i], b);
      var k :| 0 <= k < |b| && PieceOf(a[i], b[k]);
      assert FromSome(b[k], c);
      var j :| 0 <= j < |c| && PieceOf(b[k], c[j]);
      assert PieceOf(a[i], c[j]);
    }
  }

  lemma PiecesConcat(a: seq<Frame>, b: seq<Frame>, fs: seq<Frame>)
    requires AllPieces(a, fs) && AllPieces(b, fs)
    ensures AllPieces(a + b, fs)
  {
    hide FromSome;
  }

  lemma PiecesOfTail(gs: seq<Frame>, fs: seq<Frame>)
    requires fs != [] && AllPieces(gs, fs[1..])
    ensures AllPieces(gs, fs)
  {
    hide PieceOf;
    forall i | 0 <= i < |gs| ensures FromSome(gs[i], fs) {
      assert FromSome(gs[i], fs[1..]);
      var j :| 0 <= j < |fs[1..]| && PieceOf(gs[i], fs[1..][j]);
      assert PieceOf(gs[i], fs[j + 1]);
    }
  }

  lemma PieceOfFirst(g: Frame, fs: seq<Frame>)
    requires fs != [] && PieceOf(g, fs[0])
    ensures AllPieces([g], fs)
  {
  }

  lemma AllAreSelf(fs: seq<Frame>)
    ensures AllPieces(fs, fs)
  {
    forall i | 0 <= i < |fs| ensures FromSome(fs[i], fs) {
      PieceSelf(fs[i]);
    }
  }

  lemma StopPieces(payload: nat, fs: seq<Frame>, maxPayload: nat)
    requires fs != []
    ensures var r := Stop(payload, fs[0], fs[1..], maxPayload);
      AllPieces(r.taken, fs) && AllPieces(r.rest, fs)
  {
    hide AllPieces;
    var f, later := fs[0], fs[1..];
    var budget := SatSub(maxPayload, payload);
    AllAreSelf(later);
    PiecesOfTail(later, fs);
    PieceSelf(f);
    PieceOfFirst(f, fs);
    NoPieces(fs);
    if budget > 0 && IsData(f) {
      if CanSplit(f, budget) {
        SplitIsOptimal(f, budget);
        var n := SplitLen(f, budget);
        PieceOfFirst(Head(f, n), fs);
        PieceOfFirst(Tail(f, n), fs);
        PiecesConcat([Tail(f, n)], later, fs);
      }
    } else {
      PiecesConcat([f], later, fs);
    }
  }

  lemma NoPieces(fs: seq<Frame>)
    ensures AllPieces([], fs)
  {
  }

  lemma {:induction false} FillPieces(payload: nat, fs: seq<Frame>, maxPayload: nat)
    ensures var r := Fill(payload, fs, maxPayload); AllPieces(r.taken, fs) && AllPieces(r.rest, fs)
    decreases |fs|
  {
    hide AllPieces, PieceOf, Stop;
    if fs == [] {
      NoPieces(fs);
    } else if GoesWhole(payload, fs[0], maxPayload) {
      var r := Fill(payload + EncodedLen(fs[0]), fs[1..], maxPayload);
      FillPieces(payload + EncodedLen(fs[0]), fs[1..], maxPayload);
      PiecesOfTail(r.taken, fs);
      PiecesOfTail(r.rest, fs);
      PieceSelf(fs[0]);
      PieceOfFirst(fs[0], fs);
      PiecesConcat([fs[0]], r.taken, fs);
    } else {
      StopPieces(payload, fs, maxPayload);
    }
  }

  /** Packets and queue hold only frames that were queued, or pieces of them. */
  lemma {:induction false} PassPieces(fs: seq<Frame>, maxPayload: nat -> nat, gate: nat -> bool, i: nat)
    ensures var p := Pass(fs, maxPayload, gate, i); AllPieces(Flat(p.packets), fs) && AllPieces(p.left, fs)
    decreases Weight(fs)
  {
    hide AllPieces, Fill;
    NoPieces(fs);
    if fs != [] {
      FillProgress(0, fs, maxPayload(i));
      FillPieces(0, fs, maxPayload(i));
      var r := Fill(0, fs, maxPayload(i));
      PiecesConcat(r.taken, r.rest, fs);
      if r.taken != [] && gate(i) {
        var p := Pass(r.rest, maxPayload, gate, i + 1);
        PassPieces(r.rest, maxPayload, gate, i + 1);
        PiecesTrans(Flat(p.packets), r.rest, fs);
        PiecesTrans(p.left, r.rest, fs);
        PiecesConcat(r.taken, Flat(p.packets), fs);
        FlatCons(r.taken, p.packets);
      } else {
        FlatNone();
      }
    }
  }
}
