/**
 Cyclic shifts on the vector unit's flat buffers.

 A buffer is a run of slots of Z elements. Lane b of item u sits in slot u * lanes + b, so one
 instruction stream serves both code blocks of a group and both rows of a fused pair.
 */
module ShiftKernel {
  import opened LayeredDecoder

  const Z: nat := 384

  /** Lane counts the kernel is compiled for. */
  predicate LaneCount(w: nat) {
    w == 1 || w == 2 || w == 4
  }

  /** u * w + b, by cases on the compiled lane count. */
  function Slot(u: nat, b: nat, w: nat): nat
    requires LaneCount(w)
  {
    if w == 1 then u + b else if w == 2 then 2 * u + b else 4 * u + b
  }

  /** Element i of a slot. */
  function At<T>(s: seq<T>, slot: nat, i: nat): T
    requires i < Z && slot * Z + Z <= |s|
  {
    s[slot * Z + i]
  }

  /** Is the slot one of the lanes of item w? */
  predicate LaneOf(slot: nat, w: nat, batch: nat)
    requires LaneCount(batch)
  {
    Slot(w, 0, batch) <= slot < Slot(w, 0, batch) + batch
  }

  /** All lanes of item w lie in a buffer of the given length. */
  predicate Fits(len: nat, w: nat, batch: nat)
    requires LaneCount(batch)
  {
    (Slot(w, 0, batch) + batch) * Z <= len
  }

  /** Item w has not been written. */
  ghost predicate OthersKept<T>(now: seq<T>, was: seq<T>, w: nat, batch: nat)
    requires LaneCount(batch)
  {
    && |now| == |was|
    && forall slot: nat, i: nat :: i < Z && slot * Z + Z <= |was| && !LaneOf(slot, w, batch) ==>
         At(now, slot, i) == At(was, slot, i)
  }

  /** The lanes of item w hold the lanes of item c rotated by sh; nothing else has changed. */
  ghost predicate Rotated<T>(now: seq<T>, was: seq<T>, src: seq<T>, w: nat, c: nat, sh: nat, batch: nat)
    requires LaneCount(batch) && sh < Z && Fits(|was|, w, batch) && Fits(|src|, c, batch)
  {
    && OthersKept(now, was, w, batch)
    && forall b: nat, i: nat :: b < batch && i < Z ==>
         At(now, Slot(w, b, batch), i) == At(src, Slot(c, b, batch), BitOf(i, sh, Z))
  }

  /** Copy len elements into one slot from another, at the given positions. */
  method CopyRun<T>(dst: array<T>, slot: nat, at: nat, src: array<T>, slot': nat, at': nat, len: nat)
    requires dst != src && at + len <= Z && at' + len <= Z
    requires slot * Z + Z <= dst.Length && slot' * Z + Z <= src.Length
    modifies dst
    ensures forall i: nat :: at <= i < at + len ==> At(dst[..], slot, i) == At(src[..], slot', at' + i - at)
    ensures forall u: nat, i: nat :: i < Z && u * Z + Z <= dst.Length && (u != slot || !(at <= i < at + len)) ==>
      At(dst[..], u, i) == At(old(dst[..]), u, i)
  {
    var d, s := slot * Z + at, slot' * Z + at';
    forall e | 0 <= e < len {
      dst[d + e] := src[s + e];
    }
  }

  /** One contiguous copy moves all lanes of an unrotated item. */
  method ShiftZero<T>(dst: array<T>, w: nat, src: array<T>, c: nat, batch: nat)
    requires dst != src && LaneCount(batch) && Fits(dst.Length, w, batch) && Fits(src.Length, c, batch)
    modifies dst
    ensures Rotated(dst[..], old(dst[..]), src[..], w, c, 0, batch)
  {
    var d, s := Slot(w, 0, batch) * Z, Slot(c, 0, batch) * Z;
    forall e | 0 <= e < batch * Z {
      dst[d + e] := src[s + e];
    }
  }

  /** The lanes below n of item w hold positions lo..hi of the rotated lanes of item c. */
  ghost predicate RunsCopied<T>(now: seq<T>, src: seq<T>, w: nat, c: nat, sh: nat, batch: nat, n: nat, lo: nat, hi: nat)
    requires LaneCount(batch) && sh < Z && Fits(|now|, w, batch) && Fits(|src|, c, batch) && n <= batch && hi <= Z
  {
    forall b: nat, i: nat :: b < n && lo <= i < hi ==>
      At(now, Slot(w, b, batch), i) == At(src, Slot(c, b, batch), BitOf(i, sh, Z))
  }

  /** Nothing outside positions lo..hi of item w has been written. */
  ghost predicate OutsideKept<T>(now: seq<T>, was: seq<T>, w: nat, batch: nat, lo: nat, hi: nat)
    requires LaneCount(batch)
  {
    && |now| == |was|
    && forall slot: nat, i: nat :: i < Z && slot * Z + Z <= |was| && !(LaneOf(slot, w, batch) && lo <= i < hi) ==>
         At(now, slot, i) == At(was, slot, i)
  }

  /** Block copy of one segment of every lane: equal runs, one every Z elements. */
  method CopySegment<T>(dst: array<T>, w: nat, lo: nat, src: array<T>, c: nat, from: nat, len: nat, batch: nat,
                        ghost sh: nat)
    requires dst != src && LaneCount(batch) && Fits(dst.Length, w, batch) && Fits(src.Length, c, batch)
    requires lo + len <= Z && from + len <= Z && sh < Z
    requires forall i: nat :: lo <= i < lo + len ==> BitOf(i, sh, Z) == from + i - lo
    modifies dst
    ensures RunsCopied(dst[..], src[..], w, c, sh, batch, batch, lo, lo + len)
    ensures OutsideKept(dst[..], old(dst[..]), w, batch, lo, lo + len)
  {
    ghost var was := dst[..];
    for b := 0 to batch
      invariant OutsideKept(dst[..], was, w, batch, lo, lo + len)
      invariant RunsCopied(dst[..], src[..], w, c, sh, batch, b, lo, lo + len)
    {
      ghost var mid := dst[..];
      CopyRun(dst, Slot(w, b, batch), lo, src, Slot(c, b, batch), from, len);
      RunCopied(mid, dst[..], was, src[..], w, lo, c, from, len, batch, b, sh);
    }
  }

  /** One more lane of the segment. */
  lemma RunCopied<T>(mid: seq<T>, now: seq<T>, was: seq<T>, src: seq<T>, w: nat, lo: nat, c: nat, from: nat, len: nat,
                     batch: nat, b: nat, sh: nat)
    requires LaneCount(batch) && Fits(|mid|, w, batch) && Fits(|src|, c, batch) && |now| == |mid| && b < batch
    requires lo + len <= Z && from + len <= Z && sh < Z
    requires forall i: nat :: lo <= i < lo + len ==> BitOf(i, sh, Z) == from + i - lo
    requires OutsideKept(mid, was, w, batch, lo, lo + len) && RunsCopied(mid, src, w, c, sh, batch, b, lo, lo + len)
    requires forall i: nat :: lo <= i < lo + len ==>
             At(now, Slot(w, b, batch), i) == At(src, Slot(c, b, batch), from + i - lo)
    requires forall u: nat, i: nat ::
      i < Z && u * Z + Z <= |mid| && (u != Slot(w, b, batch) || !(lo <= i < lo + len)) ==>
        At(now, u, i) == At(mid, u, i)
    ensures OutsideKept(now, was, w, batch, lo, lo + len)
    ensures RunsCopied(now, src, w, c, sh, batch, b + 1, lo, lo + len)
  {
  }

  /** Shifts by multiples of 16 elements: one block copy for the heads of all lanes, one for the tails. */
  method ShiftAligned<T>(dst: array<T>, w: nat, src: array<T>, c: nat, sh: nat, batch: nat)
    requires dst != src && LaneCount(batch) && Fits(dst.Length, w, batch) && Fits(src.Length, c, batch)
    requires sh < Z && sh % 16 == 0
    modifies dst
    ensures Rotated(dst[..], old(dst[..]), src[..], w, c, sh, batch)
  {
    var head := Z - sh;
    CopySegment(dst, w, 0, src, c, sh, head / 16 * 16, batch, sh);
    ghost var mid := dst[..];
    CopySegment(dst, w, head, src, c, 0, sh / 16 * 16, batch, sh);
    SegmentsJoin(mid, dst[..], src[..], w, c, sh, batch);
  }

  lemma SegmentsJoin<T>(mid: seq<T>, now: seq<T>, src: seq<T>, w: nat, c: nat, sh: nat, batch: nat)
    requires LaneCount(batch) && Fits(|now|, w, batch) && Fits(|mid|, w, batch) && Fits(|src|, c, batch) && sh < Z
    requires RunsCopied(mid, src, w, c, sh, batch, batch, 0, Z - sh)
    requires OutsideKept(now, mid, w, batch, Z - sh, Z)
    requires RunsCopied(now, src, w, c, sh, batch, batch, Z - sh, Z)
    ensures RunsCopied(now, src, w, c, sh, batch, batch, 0, Z)
  {
  }

  /** Rotate one lane with two vector copies. */
  method ShiftLane<T>(dst: array<T>, slot: nat, src: array<T>, slot': nat, sh: nat)
    requires dst != src && sh < Z && slot * Z + Z <= dst.Length && slot' * Z + Z <= src.Length
    modifies dst
    ensures forall i: nat :: i < Z ==> At(dst[..], slot, i) == At(src[..], slot', BitOf(i, sh, Z))
    ensures forall u: nat, i: nat :: i < Z && u * Z + Z <= dst.Length && u != slot ==>
      At(dst[..], u, i) == At(old(dst[..]), u, i)
  {
    var head := Z - sh;
    CopyRun(dst, slot, 0, src, slot', sh, head);
    CopyRun(dst, slot, head, src, slot', 0, sh);
  }

  /** Any shift, lane by lane. */
  method ShiftVector<T>(dst: array<T>, w: nat, src: array<T>, c: nat, sh: nat, batch: nat)
    requires dst != src && LaneCount(batch) && Fits(dst.Length, w, batch) && Fits(src.Length, c, batch)
    requires sh < Z
    modifies dst
    ensures Rotated(dst[..], old(dst[..]), src[..], w, c, sh, batch)
  {
    for b := 0 to batch
      invariant OthersKept(dst[..], old(dst[..]), w, batch)
      invariant RunsCopied(dst[..], src[..], w, c, sh, batch, b, 0, Z)
    {
      ShiftLane(dst, Slot(w, b, batch), src, Slot(c, b, batch), sh);
    }
  }

  /** Shift-class dispatch for the cold first iteration. */
  method ShiftDynamic<T>(dst: array<T>, w: nat, src: array<T>, c: nat, sh: nat, batch: nat)
    requires dst != src && LaneCount(batch) && Fits(dst.Length, w, batch) && Fits(src.Length, c, batch)
    requires sh < Z
    modifies dst
    ensures Rotated(dst[..], old(dst[..]), src[..], w, c, sh, batch)
  {
    if sh == 0 {
      ShiftZero(dst, w, src, c, batch);
    } else if sh % 16 == 0 {
      ShiftAligned(dst, w, src, c, sh, batch);
    } else {
      ShiftVector(dst, w, src, c, sh, batch);
    }
  }
}
