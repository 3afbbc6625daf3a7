/**
 The vector passes of one row group: extrinsic values, check-node reduction, posterior update and
 message cast, each over the whole [edge][row][lane][z] workspace.
 */
module CheckKernel {
  import opened Arith
  import opened CheckNode
  import opened LayeredDecoder
  import opened ShiftKernel

  /** Elements of one edge across all rows and lanes of the group. */
  function Stride(lanes: nat): nat
    requires LaneCount(lanes)
  {
    lanes * Z
  }

  /** Element e of edge k. */
  function Edge<T>(s: seq<T>, k: nat, e: nat, lanes: nat): T
    requires LaneCount(lanes) && Slot(k, 0, lanes) * Z + e < |s|
  {
    s[Slot(k, 0, lanes) * Z + e]
  }

  predicate Holds(len: nat, deg: nat, lanes: nat)
    requires LaneCount(lanes)
  {
    Slot(deg, 0, lanes) * Z <= len
  }

  /** The values one check equation of the group sees, edge by edge. */
  function ValuesAt(s: seq<real>, deg: nat, lanes: nat, e: nat): (vals: seq<real>)
    requires LaneCount(lanes) && Holds(|s|, deg, lanes) && e < Stride(lanes)
    ensures |vals| == deg
  {
    seq(deg, k requires 0 <= k < deg => Edge(s, k, e, lanes))
  }

  lemma ValueIsEdge(s: seq<real>, deg: nat, lanes: nat, e: nat, k: nat)
    requires LaneCount(lanes) && Holds(|s|, deg, lanes) && e < Stride(lanes) && k < deg
    ensures Slot(k, 0, lanes) * Z + e < Slot(deg, 0, lanes) * Z
    ensures ValuesAt(s, deg, lanes, e)[k] == s[Slot(k, 0, lanes) * Z + e]
  {
  }

  /** Subtract the old messages, then take signs and magnitudes. mag holds the old messages on entry. */
  method Extrinsic(ext: array<real>, mag: array<real>, sgn: array<real>, n: nat)
    requires ext != mag && ext != sgn && mag != sgn
    requires n <= ext.Length && n <= mag.Length && n <= sgn.Length
    modifies ext, mag, sgn
    ensures forall e :: 0 <= e < n ==> ext[e] == old(ext[e]) - old(mag[e])
    ensures forall e :: 0 <= e < n ==> mag[e] == Abs(ext[e]) && sgn[e] == Sgn(ext[e])
  {
    forall e | 0 <= e < n {
      ext[e] := ext[e] - mag[e];
    }
    forall e | 0 <= e < n {
      mag[e] := Abs(ext[e]);
    }
    forall e | 0 <= e < n {
      sgn[e] := if ext[e] >= 0.0 then 1.0 else -1.0;
    }
  }

  /** Registers of the scan over all elements of the group. */
  ghost predicate ScannedAt(sign: seq<real>, min1: seq<real>, min2: seq<real>, vals: seq<real>, e: nat, n: nat)
    requires 2 <= n <= |vals| && e < |sign| && e < |min1| && e < |min2|
  {
    Scan(sign[e], min1[e], min2[e]) == ScanEdges(vals, n)
  }

  /** The first two edges fill the registers. */
  method ScanTwo(sign: array<real>, min1: array<real>, min2: array<real>, sgn: array<real>, mag: array<real>,
                 off: nat, n: nat)
    requires sign != sgn && sign != mag && min1 != sgn && min1 != mag && min2 != sgn && min2 != mag
    requires sign != min1 && sign != min2 && min1 != min2
    requires n <= sign.Length && n <= min1.Length && n <= min2.Length && off + n <= sgn.Length && off + n <= mag.Length
    modifies sign, min1, min2
    ensures forall e :: 0 <= e < n ==> sign[e] == sgn[e] * sgn[off + e]
    ensures forall e :: 0 <= e < n ==>
            min1[e] == Lesser(mag[e], mag[off + e]) && min2[e] == Greater(mag[e], mag[off + e])
  {
    forall e | 0 <= e < n {
      sign[e] := sgn[e] * sgn[off + e];
    }
    forall e | 0 <= e < n {
      min1[e] := Lesser(mag[e], mag[off + e]);
    }
    forall e | 0 <= e < n {
      min2[e] := Greater(mag[e], mag[off + e]);
    }
  }

  /** One more edge: min2, then min2 against the old min1, then min1, then the sign product. */
  method ScanNext(sign: array<real>, min1: array<real>, min2: array<real>, sgn: array<real>, mag: array<real>,
                  off: nat, n: nat)
    requires sign != sgn && sign != mag && min1 != sgn && min1 != mag && min2 != sgn && min2 != mag
    requires sign != min1 && sign != min2 && min1 != min2
    requires n <= sign.Length && n <= min1.Length && n <= min2.Length && off + n <= sgn.Length && off + n <= mag.Length
    modifies sign, min1, min2
    ensures forall e :: 0 <= e < n ==> min2[e] == Greater(Lesser(old(min2[e]), mag[off + e]), old(min1[e]))
    ensures forall e :: 0 <= e < n ==> min1[e] == Lesser(old(min1[e]), mag[off + e])
    ensures forall e :: 0 <= e < n ==> sign[e] == old(sign[e]) * sgn[off + e]
  {
    forall e | 0 <= e < n {
      min2[e] := Lesser(min2[e], mag[off + e]);
    }
    forall e | 0 <= e < n {
      min2[e] := Greater(min2[e], min1[e]);
    }
    forall e | 0 <= e < n {
      min1[e] := Lesser(min1[e], mag[off + e]);
    }
    forall e | 0 <= e < n {
      sign[e] := sign[e] * sgn[off + e];
    }
  }

  /** Signs and magnitudes of the extrinsic values. */
  ghost predicate Split(ext: seq<real>, mag: seq<real>, sgn: seq<real>, n: nat) {
    && n <= |ext| && n <= |mag| && n <= |sgn|
    && forall e :: 0 <= e < n ==> mag[e] == Abs(ext[e]) && sgn[e] == Sgn(ext[e])
  }

  ghost predicate Scanned(sign: seq<real>, min1: seq<real>, min2: seq<real>, ext: seq<real>, deg: nat, lanes: nat,
                          n: nat)
    requires LaneCount(lanes) && Holds(|ext|, deg, lanes) && 2 <= n <= deg
  {
    && Stride(lanes) <= |sign| && Stride(lanes) <= |min1| && Stride(lanes) <= |min2|
    && forall e: nat :: e < Stride(lanes) ==> ScannedAt(sign, min1, min2, ValuesAt(ext, deg, lanes, e), e, n)
  }

  lemma ScannedTwo(sign: seq<real>, min1: seq<real>, min2: seq<real>, sgn: seq<real>, mag: seq<real>, ext: seq<real>,
                   deg: nat, lanes: nat, e: nat)
    requires LaneCount(lanes) && Holds(|ext|, deg, lanes) && 2 <= deg && e < Stride(lanes)
    requires Split(ext, mag, sgn, Slot(deg, 0, lanes) * Z)
    requires e < |sign| && e < |min1| && e < |min2|
    requires Stride(lanes) + e < |sgn| && Stride(lanes) + e < |mag|
    requires sign[e] == sgn[e] * sgn[Stride(lanes) + e]
    requires min1[e] == Lesser(mag[e], mag[Stride(lanes) + e]) && min2[e] == Greater(mag[e], mag[Stride(lanes) + e])
    ensures ScannedAt(sign, min1, min2, ValuesAt(ext, deg, lanes, e), e, 2)
  {
    var vals := ValuesAt(ext, deg, lanes, e);
    ValueIsEdge(ext, deg, lanes, e, 0);
    ValueIsEdge(ext, deg, lanes, e, 1);
    assert vals[0] == ext[e] && vals[1] == ext[Stride(lanes) + e];
  }

  lemma ScannedNext(sign0: seq<real>, min10: seq<real>, min20: seq<real>, sign: seq<real>, min1: seq<real>,
                    min2: seq<real>, sgn: seq<real>, mag: seq<real>, ext: seq<real>, deg: nat, lanes: nat, e: nat,
                    k: nat)
    requires LaneCount(lanes) && Holds(|ext|, deg, lanes) && 2 <= k < deg && e < Stride(lanes)
    requires Split(ext, mag, sgn, Slot(deg, 0, lanes) * Z)
    requires e < |sign0| && e < |min10| && e < |min20| && e < |sign| && e < |min1| && e < |min2|
    requires Slot(k, 0, lanes) * Z + e < |sgn| && Slot(k, 0, lanes) * Z + e < |mag|
    requires ScannedAt(sign0, min10, min20, ValuesAt(ext, deg, lanes, e), e, k)
    requires min2[e] == Greater(Lesser(min20[e], mag[Slot(k, 0, lanes) * Z + e]), min10[e])
    requires min1[e] == Lesser(min10[e], mag[Slot(k, 0, lanes) * Z + e])
    requires sign[e] == sign0[e] * sgn[Slot(k, 0, lanes) * Z + e]
    ensures ScannedAt(sign, min1, min2, ValuesAt(ext, deg, lanes, e), e, k + 1)
  {
    var vals := ValuesAt(ext, deg, lanes, e);
    ValueIsEdge(ext, deg, lanes, e, k);
    assert vals[k] == ext[Slot(k, 0, lanes) * Z + e];
  }

  /** All edges of every check equation of the group, one vector pass per register and edge. */
  method ScanAll(ghost ext: seq<real>, sign: array<real>, min1: array<real>, min2: array<real>,
                 sgn: array<real>, mag: array<real>, deg: nat, lanes: nat)
    requires LaneCount(lanes) && 2 <= deg && Holds(|ext|, deg, lanes)
    requires sign != sgn && sign != mag && min1 != sgn && min1 != mag && min2 != sgn && min2 != mag
    requires sign != min1 && sign != min2 && min1 != min2
    requires Stride(lanes) <= sign.Length && Stride(lanes) <= min1.Length && Stride(lanes) <= min2.Length
    requires Split(ext, mag[..], sgn[..], Slot(deg, 0, lanes) * Z)
    modifies sign, min1, min2
    ensures Scanned(sign[..], min1[..], min2[..], ext, deg, lanes, deg)
  {
    ScanTwo(sign, min1, min2, sgn, mag, Stride(lanes), Stride(lanes));
    forall e: nat | e < Stride(lanes)
      ensures ScannedAt(sign[..], min1[..], min2[..], ValuesAt(ext, deg, lanes, e), e, 2)
    {
      ScannedTwo(sign[..], min1[..], min2[..], sgn[..], mag[..], ext, deg, lanes, e);
    }
    for kk := 2 to deg
      invariant Scanned(sign[..], min1[..], min2[..], ext, deg, lanes, kk)
    {
      ScanEdge(ext, sign, min1, min2, sgn, mag, deg, lanes, kk);
    }
  }

  method ScanEdge(ghost ext: seq<real>, sign: array<real>, min1: array<real>, min2: array<real>,
                  sgn: array<real>, mag: array<real>, ghost deg: nat, lanes: nat, kk: nat)
    requires LaneCount(lanes) && 2 <= kk < deg && Holds(|ext|, deg, lanes)
    requires sign != sgn && sign != mag && min1 != sgn && min1 != mag && min2 != sgn && min2 != mag
    requires sign != min1 && sign != min2 && min1 != min2
    requires Split(ext, mag[..], sgn[..], Slot(deg, 0, lanes) * Z)
    requires Scanned(sign[..], min1[..], min2[..], ext, deg, lanes, kk)
    modifies sign, min1, min2
    ensures Scanned(sign[..], min1[..], min2[..], ext, deg, lanes, kk + 1)
  {
    ghost var sign0, min10, min20 := sign[..], min1[..], min2[..];
    ScanNext(sign, min1, min2, sgn, mag, Slot(kk, 0, lanes) * Z, Stride(lanes));
    forall e: nat | e < Stride(lanes)
      ensures ScannedAt(sign[..], min1[..], min2[..], ValuesAt(ext, deg, lanes, e), e, kk + 1)
    {
      assert ScannedAt(sign0, min10, min20, ValuesAt(ext, deg, lanes, e), e, kk);
      ScannedNext(sign0, min10, min20, sign[..], min1[..], min2[..], sgn[..], mag[..], ext, deg, lanes, e, kk);
    }
  }

  /** Scale the sign products by 0.75. */
  method ScaleSigns(sign: array<real>, n: nat)
    requires n <= sign.Length
    modifies sign
    ensures forall e :: 0 <= e < n ==> sign[e] == old(sign[e]) * 0.75
  {
    forall e | 0 <= e < n {
      sign[e] := sign[e] * 0.75;
    }
  }

  method SelectMagnitudes(min1: array<real>, min2: array<real>, mag: array<real>, off: nat, n: nat)
    requires min1 != mag && min2 != mag && n <= min1.Length && n <= min2.Length && off + n <= mag.Length
    modifies mag
    ensures forall j :: off <= j < off + n ==>
      mag[j] == if old(mag[j]) == min1[j - off] then min2[j - off] else min1[j - off]
    ensures forall j :: 0 <= j < mag.Length && !(off <= j < off + n) ==> mag[j] == old(mag[j])
  {
    forall e | 0 <= e < n {
      mag[off + e] := if mag[off + e] == min1[e] then min2[e] else min1[e];
    }
  }

  method MultiplySigns(sign: array<real>, sgn: array<real>, off: nat, n: nat)
    requires sign != sgn && n <= sign.Length && off + n <= sgn.Length
    modifies sgn
    ensures forall j :: off <= j < off + n ==> sgn[j] == sign[j - off] * old(sgn[j])
    ensures forall j :: 0 <= j < sgn.Length && !(off <= j < off + n) ==> sgn[j] == old(sgn[j])
  {
    forall e | 0 <= e < n {
      sgn[off + e] := sign[e] * sgn[off + e];
    }
  }

  /** Per edge: an edge whose magnitude equals the minimum takes the second one; signs are multiplied back. */
  method SelectEdge(sign: array<real>, min1: array<real>, min2: array<real>, sgn: array<real>, mag: array<real>,
                    off: nat, n: nat)
    requires sign != sgn && sign != mag && min1 != sgn && min1 != mag && min2 != sgn && min2 != mag && sgn != mag
    requires n <= sign.Length && n <= min1.Length && n <= min2.Length && off + n <= sgn.Length && off + n <= mag.Length
    modifies sgn, mag
    ensures Rewritten(old(mag[..]), old(sgn[..]), mag[..], sgn[..], sign[..], min1[..], min2[..], off, n)
  {
    SelectMagnitudes(min1, min2, mag, off, n);
    MultiplySigns(sign, sgn, off, n);
  }

  /** mag holds the selected minimum of edge k and sgn its scaled sign. */
  ghost predicate SelectedAt(mag: seq<real>, sgn: seq<real>, vals: seq<real>, k: nat, e: nat, lanes: nat)
    requires LaneCount(lanes) && 2 <= |vals| && k < |vals|
  {
    && Slot(k, 0, lanes) * Z + e < |mag| && Slot(k, 0, lanes) * Z + e < |sgn|
    && Edge(mag, k, e, lanes) == Selected(vals, k)
    && Edge(sgn, k, e, lanes) == ScaledSign(vals, k)
  }

  ghost predicate SelectedUpTo(mag: seq<real>, sgn: seq<real>, ext: seq<real>, deg: nat, lanes: nat, n: nat)
    requires LaneCount(lanes) && 2 <= deg && Holds(|ext|, deg, lanes) && n <= deg
  {
    forall k: nat, e: nat :: k < n && e < Stride(lanes) ==>
      SelectedAt(mag, sgn, ValuesAt(ext, deg, lanes, e), k, e, lanes)
  }

  /** Edges from k on still hold signs and magnitudes. */
  ghost predicate SplitFrom(ext: seq<real>, mag: seq<real>, sgn: seq<real>, lo: nat, n: nat) {
    && n <= |ext| && n <= |mag| && n <= |sgn|
    && forall e :: lo <= e < n ==> mag[e] == Abs(ext[e]) && sgn[e] == Sgn(ext[e])
  }

  /** The finished registers: scaled sign product and the two minima. */
  ghost predicate RegistersAt(scaled: seq<real>, min1: seq<real>, min2: seq<real>, vals: seq<real>, e: nat)
    requires 2 <= |vals|
  {
    var s := ScanEdges(vals, |vals|);
    && e < |scaled| && e < |min1| && e < |min2|
    && scaled[e] == s.sign * 0.75 && min1[e] == s.min1 && min2[e] == s.min2
  }

  ghost predicate Registers(scaled: seq<real>, min1: seq<real>, min2: seq<real>, ext: seq<real>, deg: nat, lanes: nat)
    requires LaneCount(lanes) && 2 <= deg && Holds(|ext|, deg, lanes)
  {
    forall e: nat :: e < Stride(lanes) ==> RegistersAt(scaled, min1, min2, ValuesAt(ext, deg, lanes, e), e)
  }

  lemma SelectedNext(mag0: seq<real>, sgn0: seq<real>, mag: seq<real>, sgn: seq<real>,
                     scaled: seq<real>, min1: seq<real>, min2: seq<real>, ext: seq<real>, deg: nat, lanes: nat, k: nat,
                     e: nat)
    requires LaneCount(lanes) && 2 <= deg && Holds(|ext|, deg, lanes) && k < deg && e < Stride(lanes)
    requires SplitFrom(ext, mag0, sgn0, Slot(k, 0, lanes) * Z, Slot(deg, 0, lanes) * Z)
    requires RegistersAt(scaled, min1, min2, ValuesAt(ext, deg, lanes, e), e)
    requires Slot(k, 0, lanes) * Z + e < |mag| && Slot(k, 0, lanes) * Z + e < |sgn|
    requires var j := Slot(k, 0, lanes) * Z + e;
             j < |mag0| && j < |sgn0|
             && mag[j] == (if mag0[j] == min1[e] then min2[e] else min1[e]) && sgn[j] == scaled[e] * sgn0[j]
    ensures SelectedAt(mag, sgn, ValuesAt(ext, deg, lanes, e), k, e, lanes)
  {
    ValueIsEdge(ext, deg, lanes, e, k);
  }

  lemma SelectedKept(mag0: seq<real>, sgn0: seq<real>, mag: seq<real>, sgn: seq<real>, ext: seq<real>,
                     deg: nat, lanes: nat, n: nat)
    requires LaneCount(lanes) && 2 <= deg && Holds(|ext|, deg, lanes) && n < deg
    requires |mag| == |mag0| && |sgn| == |sgn0|
    requires forall j :: 0 <= j < |mag| && j < Slot(n, 0, lanes) * Z ==> mag[j] == mag0[j]
    requires forall j :: 0 <= j < |sgn| && j < Slot(n, 0, lanes) * Z ==> sgn[j] == sgn0[j]
    requires SelectedUpTo(mag0, sgn0, ext, deg, lanes, n)
    ensures SelectedUpTo(mag, sgn, ext, deg, lanes, n)
  {
    forall k: nat, e: nat | k < n && e < Stride(lanes)
      ensures SelectedAt(mag, sgn, ValuesAt(ext, deg, lanes, e), k, e, lanes)
    {
      assert SelectedAt(mag0, sgn0, ValuesAt(ext, deg, lanes, e), k, e, lanes);
    }
  }

  method SelectOne(ghost ext: seq<real>, scaled: array<real>, min1: array<real>, min2: array<real>,
                   sgn: array<real>, mag: array<real>, ghost deg: nat, lanes: nat, kk: nat)
    requires LaneCount(lanes) && 2 <= deg && kk < deg && Holds(|ext|, deg, lanes)
    requires scaled != sgn && scaled != mag && min1 != sgn && min1 != mag && min2 != sgn && min2 != mag && sgn != mag
    requires Stride(lanes) <= scaled.Length && Stride(lanes) <= min1.Length && Stride(lanes) <= min2.Length
    requires Registers(scaled[..], min1[..], min2[..], ext, deg, lanes)
    requires SplitFrom(ext, mag[..], sgn[..], Slot(kk, 0, lanes) * Z, Slot(deg, 0, lanes) * Z)
    requires SelectedUpTo(mag[..], sgn[..], ext, deg, lanes, kk)
    modifies sgn, mag
    ensures SplitFrom(ext, mag[..], sgn[..], Slot(kk + 1, 0, lanes) * Z, Slot(deg, 0, lanes) * Z)
    ensures SelectedUpTo(mag[..], sgn[..], ext, deg, lanes, kk + 1)
  {
    ghost var mag0, sgn0 := mag[..], sgn[..];
    SelectEdge(scaled, min1, min2, sgn, mag, Slot(kk, 0, lanes) * Z, Stride(lanes));
    RestStaysSplit(mag0, sgn0, mag[..], sgn[..], scaled[..], min1[..], min2[..], ext, Slot(kk, 0, lanes) * Z,
                   Stride(lanes), Slot(deg, 0, lanes) * Z);
    SelectedStep(mag0, sgn0, mag[..], sgn[..], scaled[..], min1[..], min2[..], ext, deg, lanes, kk);
  }

  /** One edge has been rewritten from the registers, the rest is as before. */
  ghost predicate Rewritten(mag0: seq<real>, sgn0: seq<real>, mag: seq<real>, sgn: seq<real>,
                            scaled: seq<real>, min1: seq<real>, min2: seq<real>, off: nat, n: nat) {
    && |mag| == |mag0| && |sgn| == |sgn0| && off + n <= |mag| && off + n <= |sgn|
    && n <= |scaled| && n <= |min1| && n <= |min2|
    && (forall j :: off <= j < off + n ==>
          mag[j] == (if mag0[j] == min1[j - off] then min2[j - off] else min1[j - off])
          && sgn[j] == scaled[j - off] * sgn0[j])
    && (forall j :: 0 <= j < |mag| && !(off <= j < off + n) ==> mag[j] == mag0[j])
    && (forall j :: 0 <= j < |sgn| && !(off <= j < off + n) ==> sgn[j] == sgn0[j])
  }

  /** The edges after kk still hold their magnitudes and signs. */
  lemma RestStaysSplit(mag0: seq<real>, sgn0: seq<real>, mag: seq<real>, sgn: seq<real>,
                       scaled: seq<real>, min1: seq<real>, min2: seq<real>, ext: seq<real>, off: nat, n: nat, to: nat)
    requires Rewritten(mag0, sgn0, mag, sgn, scaled, min1, min2, off, n)
    requires SplitFrom(ext, mag0, sgn0, off, to)
    ensures SplitFrom(ext, mag, sgn, off + n, to)
  {
  }

  lemma SelectedStep(mag0: seq<real>, sgn0: seq<real>, mag: seq<real>, sgn: seq<real>,
                     scaled: seq<real>, min1: seq<real>, min2: seq<real>, ext: seq<real>, deg: nat, lanes: nat, kk: nat)
    requires LaneCount(lanes) && 2 <= deg && kk < deg && Holds(|ext|, deg, lanes)
    requires Rewritten(mag0, sgn0, mag, sgn, scaled, min1, min2, Slot(kk, 0, lanes) * Z, Stride(lanes))
    requires Registers(scaled, min1, min2, ext, deg, lanes)
    requires SplitFrom(ext, mag0, sgn0, Slot(kk, 0, lanes) * Z, Slot(deg, 0, lanes) * Z)
    requires SelectedUpTo(mag0, sgn0, ext, deg, lanes, kk)
    ensures SelectedUpTo(mag, sgn, ext, deg, lanes, kk + 1)
  {
    SelectedKept(mag0, sgn0, mag, sgn, ext, deg, lanes, kk);
    forall e: nat | e < Stride(lanes)
      ensures SelectedAt(mag, sgn, ValuesAt(ext, deg, lanes, e), kk, e, lanes)
    {
      assert RegistersAt(scaled, min1, min2, ValuesAt(ext, deg, lanes, e), e);
      SelectedNext(mag0, sgn0, mag, sgn, scaled, min1, min2, ext, deg, lanes, kk, e);
    }
  }

  /** Broadcast the registers back over all edges. */
  method SelectAll(ghost ext: seq<real>, scaled: array<real>, min1: array<real>, min2: array<real>,
                   sgn: array<real>, mag: array<real>, deg: nat, lanes: nat)
    requires LaneCount(lanes) && 2 <= deg && Holds(|ext|, deg, lanes)
    requires scaled != sgn && scaled != mag && min1 != sgn && min1 != mag && min2 != sgn && min2 != mag && sgn != mag
    requires Stride(lanes) <= scaled.Length && Stride(lanes) <= min1.Length && Stride(lanes) <= min2.Length
    requires Registers(scaled[..], min1[..], min2[..], ext, deg, lanes)
    requires Split(ext, mag[..], sgn[..], Slot(deg, 0, lanes) * Z)
    modifies sgn, mag
    ensures SelectedUpTo(mag[..], sgn[..], ext, deg, lanes, deg)
  {
    for kk := 0 to deg
      invariant SplitFrom(ext, mag[..], sgn[..], Slot(kk, 0, lanes) * Z, Slot(deg, 0, lanes) * Z)
      invariant SelectedUpTo(mag[..], sgn[..], ext, deg, lanes, kk)
    {
      SelectOne(ext, scaled, min1, min2, sgn, mag, deg, lanes, kk);
    }
  }

  lemma ScaledRegisters(sign: seq<real>, scaled: seq<real>, min1: seq<real>, min2: seq<real>, ext: seq<real>,
                        deg: nat, lanes: nat)
    requires LaneCount(lanes) && 2 <= deg && Holds(|ext|, deg, lanes)
    requires Scanned(sign, min1, min2, ext, deg, lanes, deg) && |scaled| == |sign|
    requires forall e :: 0 <= e < Stride(lanes) ==> scaled[e] == sign[e] * 0.75
    ensures Registers(scaled, min1, min2, ext, deg, lanes)
  {
    forall e: nat | e < Stride(lanes)
      ensures RegistersAt(scaled, min1, min2, ValuesAt(ext, deg, lanes, e), e)
    {
      assert ScannedAt(sign, min1, min2, ValuesAt(ext, deg, lanes, e), e, deg);
    }
  }

  /** The check-node reduction of the whole group: mag and sgn end as the factors of every message. */
  method CheckNodes(ghost ext: seq<real>, sign: array<real>, min1: array<real>, min2: array<real>,
                    sgn: array<real>, mag: array<real>, deg: nat, lanes: nat)
    requires LaneCount(lanes) && 2 <= deg && Holds(|ext|, deg, lanes)
    requires sign != sgn && sign != mag && min1 != sgn && min1 != mag && min2 != sgn && min2 != mag
    requires sign != min1 && sign != min2 && min1 != min2 && sgn != mag
    requires Stride(lanes) <= sign.Length && Stride(lanes) <= min1.Length && Stride(lanes) <= min2.Length
    requires Split(ext, mag[..], sgn[..], Slot(deg, 0, lanes) * Z)
    modifies sign, min1, min2, sgn, mag
    ensures SelectedUpTo(mag[..], sgn[..], ext, deg, lanes, deg)
  {
    ScanAll(ext, sign, min1, min2, sgn, mag, deg, lanes);
    ghost var product := sign[..];
    ScaleSigns(sign, Stride(lanes));
    ScaledRegisters(product, sign[..], min1[..], min2[..], ext, deg, lanes);
    SelectAll(ext, sign, min1, min2, sgn, mag, deg, lanes);
  }

  // ---------- one whole row group ----------

  /** Element e of edge k holds its extrinsic value plus its new message. */
  ghost predicate PosteriorAt(post: seq<real>, vals: seq<real>, k: nat, e: nat, lanes: nat)
    requires LaneCount(lanes) && 2 <= |vals| && k < |vals|
  {
    && Slot(k, 0, lanes) * Z + e < |post|
    && Edge(post, k, e, lanes) == vals[k] + KernelMessage(vals, k)
  }

  ghost predicate Posteriors(post: seq<real>, ext: seq<real>, deg: nat, lanes: nat)
    requires LaneCount(lanes) && 2 <= deg && Holds(|ext|, deg, lanes)
  {
    forall k: nat, e: nat :: k < deg && e < Stride(lanes) ==>
      PosteriorAt(post, ValuesAt(ext, deg, lanes, e), k, e, lanes)
  }

  ghost predicate MessageStoredAt(out: seq<int>, q: Quantizer, vals: seq<real>, k: nat, e: nat, lanes: nat)
    requires LaneCount(lanes) && 2 <= |vals| && k < |vals|
  {
    && Slot(k, 0, lanes) * Z + e < |out|
    && Edge(out, k, e, lanes) == Quantize(q, KernelMessage(vals, k))
  }

  ghost predicate MessagesStored(out: seq<int>, q: Quantizer, ext: seq<real>, deg: nat, lanes: nat)
    requires LaneCount(lanes) && 2 <= deg && Holds(|ext|, deg, lanes)
  {
    forall k: nat, e: nat :: k < deg && e < Stride(lanes) ==>
      MessageStoredAt(out, q, ValuesAt(ext, deg, lanes, e), k, e, lanes)
  }

  method AddProducts(ext: array<real>, sgn: array<real>, mag: array<real>, n: nat)
    requires ext != sgn && ext != mag && n <= ext.Length && n <= sgn.Length && n <= mag.Length
    modifies ext
    ensures forall e :: 0 <= e < n ==> ext[e] == old(ext[e]) + Product(sgn[e], mag[e])
  {
    forall e | 0 <= e < n {
      ext[e] := ext[e] + Product(sgn[e], mag[e]);
    }
  }

  /** Multiply and cast into the message slot. */
  method CastProducts(out: array<int>, q: Quantizer, sgn: array<real>, mag: array<real>, n: nat)
    requires out as object != sgn && out as object != mag
    requires n <= out.Length && n <= sgn.Length && n <= mag.Length
    modifies out
    ensures forall e :: 0 <= e < n ==> out[e] == Quantize(q, Product(sgn[e], mag[e]))
  {
    forall e | 0 <= e < n {
      out[e] := Quantize(q, Product(sgn[e], mag[e]));
    }
  }

  lemma ProductIsMessage(mag: seq<real>, sgn: seq<real>, ext: seq<real>, deg: nat, lanes: nat, k: nat, e: nat)
    requires LaneCount(lanes) && 2 <= deg && Holds(|ext|, deg, lanes) && k < deg && e < Stride(lanes)
    requires SelectedUpTo(mag, sgn, ext, deg, lanes, deg)
    ensures var j := Slot(k, 0, lanes) * Z + e;
            && j < Slot(deg, 0, lanes) * Z && j < |mag| && j < |sgn|
            && ext[j] == ValuesAt(ext, deg, lanes, e)[k]
            && Product(sgn[j], mag[j]) == KernelMessage(ValuesAt(ext, deg, lanes, e), k)
  {
    ValueIsEdge(ext, deg, lanes, e, k);
    assert SelectedAt(mag, sgn, ValuesAt(ext, deg, lanes, e), k, e, lanes);
  }

  lemma ProductsArePosteriors(post: seq<real>, mag: seq<real>, sgn: seq<real>, ext: seq<real>, deg: nat, lanes: nat)
    requires LaneCount(lanes) && 2 <= deg && Holds(|ext|, deg, lanes) && |post| == |ext|
    requires SelectedUpTo(mag, sgn, ext, deg, lanes, deg)
    requires Slot(deg, 0, lanes) * Z <= |mag| && Slot(deg, 0, lanes) * Z <= |sgn|
    requires forall j :: 0 <= j < Slot(deg, 0, lanes) * Z ==> post[j] == ext[j] + Product(sgn[j], mag[j])
    ensures Posteriors(post, ext, deg, lanes)
  {
    forall k: nat, e: nat | k < deg && e < Stride(lanes)
      ensures PosteriorAt(post, ValuesAt(ext, deg, lanes, e), k, e, lanes)
    {
      ProductIsMessage(mag, sgn, ext, deg, lanes, k, e);
    }
  }

  lemma ProductsAreMessages(out: seq<int>, q: Quantizer, mag: seq<real>, sgn: seq<real>, ext: seq<real>, deg: nat,
                            lanes: nat)
    requires LaneCount(lanes) && 2 <= deg && Holds(|ext|, deg, lanes)
    requires SelectedUpTo(mag, sgn, ext, deg, lanes, deg)
    requires Slot(deg, 0, lanes) * Z <= |mag| && Slot(deg, 0, lanes) * Z <= |sgn| && Slot(deg, 0, lanes) * Z <= |out|
    requires forall j :: 0 <= j < Slot(deg, 0, lanes) * Z ==> out[j] == Quantize(q, Product(sgn[j], mag[j]))
    ensures MessagesStored(out, q, ext, deg, lanes)
  {
    forall k: nat, e: nat | k < deg && e < Stride(lanes)
      ensures MessageStoredAt(out, q, ValuesAt(ext, deg, lanes, e), k, e, lanes)
    {
      ProductIsMessage(mag, sgn, ext, deg, lanes, k, e);
    }
  }

  /** Scratch buffers of the vector passes. */
  datatype Scratch = Scratch(sgn: array<real>, sign: array<real>, min1: array<real>, min2: array<real>)

  ghost predicate Apart(s: Scratch, ext: array<real>, mag: array<real>, n: nat, lanes: nat)
    requires LaneCount(lanes)
  {
    && ext != mag && ext != s.sgn && ext != s.sign && ext != s.min1 && ext != s.min2
    && mag != s.sgn && mag != s.sign && mag != s.min1 && mag != s.min2
    && s.sgn != s.sign && s.sgn != s.min1 && s.sgn != s.min2
    && s.sign != s.min1 && s.sign != s.min2 && s.min1 != s.min2
    && n <= ext.Length && n <= mag.Length && n <= s.sgn.Length
    && Stride(lanes) <= s.sign.Length && Stride(lanes) <= s.min1.Length && Stride(lanes) <= s.min2.Length
  }

  /** From gathered values and old messages to posteriors: ext0 is the extrinsic value in between. */
  method UpdatePosteriors(ext: array<real>, mag: array<real>, s: Scratch, deg: nat, lanes: nat)
    returns (ghost ext0: seq<real>)
    requires LaneCount(lanes) && 2 <= deg && Apart(s, ext, mag, Slot(deg, 0, lanes) * Z, lanes)
    modifies ext, mag, s.sgn, s.sign, s.min1, s.min2
    ensures |ext0| == ext.Length
    ensures forall e :: 0 <= e < Slot(deg, 0, lanes) * Z ==> ext0[e] == old(ext[e]) - old(mag[e])
    ensures Posteriors(ext[..], ext0, deg, lanes)
    ensures SelectedUpTo(mag[..], s.sgn[..], ext0, deg, lanes, deg)
  {
    var n := Slot(deg, 0, lanes) * Z;
    Extrinsic(ext, mag, s.sgn, n);
    ext0 := ext[..];
    CheckNodes(ext0, s.sign, s.min1, s.min2, s.sgn, mag, deg, lanes);
    AddProducts(ext, s.sgn, mag, n);
    ProductsArePosteriors(ext[..], mag[..], s.sgn[..], ext0, deg, lanes);
  }

  method StoreMessages(out: array<int>, q: Quantizer, mag: array<real>, sgn: array<real>, ghost ext0: seq<real>,
                       deg: nat, lanes: nat)
    requires LaneCount(lanes) && 2 <= deg && Holds(|ext0|, deg, lanes)
    requires SelectedUpTo(mag[..], sgn[..], ext0, deg, lanes, deg)
    requires out as object != sgn && out as object != mag
    requires Slot(deg, 0, lanes) * Z <= out.Length && Slot(deg, 0, lanes) * Z <= mag.Length
    requires Slot(deg, 0, lanes) * Z <= sgn.Length
    modifies out
    ensures MessagesStored(out[..], q, ext0, deg, lanes)
  {
    CastProducts(out, q, sgn, mag, Slot(deg, 0, lanes) * Z);
    ProductsAreMessages(out[..], q, mag[..], sgn[..], ext0, deg, lanes);
  }
}
