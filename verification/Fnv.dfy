/** The FNV-1a fingerprint of pilot positions. */
module Fnv {
  import opened Arith
  import opened Bits

  const FNV_START: nat := 1469598103934665603
  const FNV_PRIME: nat := 1099511628211

  /** h ^ byte: only the low eight bits change. */
  function XorByte(h: nat, byte: nat): nat {
    h - h % 0x100 + XorBits(h % 0x100, byte, 8)
  }

  function HashByte(h: nat, byte: nat): (next: nat)
    ensures next < TWO_64
  {
    XorByte(h, byte) * FNV_PRIME % TWO_64
  }

  /** The hash of a byte string. */
  function Fnv1a(bytes: seq<nat>): (h: nat)
    ensures h < TWO_64
  {
    if bytes == [] then FNV_START else HashByte(Fnv1a(bytes[..|bytes| - 1]), bytes[|bytes| - 1])
  }

  /** 16-bit words as bytes in memory order. */
  function LittleEndian(words: seq<nat>): (bytes: seq<nat>)
    ensures |bytes| == 2 * |words|
  {
    if words == [] then []
    else
      var last := words[|words| - 1];
      LittleEndian(words[..|words| - 1]) + [last % 0x100, last / 0x100]
  }

  predicate Words(s: seq<nat>) {
    forall i :: 0 <= i < |s| ==> s[i] < 0x1_0000
  }

  lemma AppendByte(bytes: seq<nat>, b: nat)
    ensures Fnv1a(bytes + [b]) == HashByte(Fnv1a(bytes), b)
  {
    assert (bytes + [b])[..|bytes|] == bytes;
  }

  /** One more word is two more bytes. */
  lemma AppendWord(words: seq<nat>, w: nat)
    ensures Fnv1a(LittleEndian(words + [w])) == HashByte(HashByte(Fnv1a(LittleEndian(words)), w % 0x100), w / 0x100)
  {
    assert (words + [w])[..|words|] == words;
    var front := LittleEndian(words);
    assert LittleEndian(words + [w]) == (front + [w % 0x100]) + [w / 0x100];
    AppendByte(front + [w % 0x100], w / 0x100);
    AppendByte(front, w % 0x100);
  }

  lemma NoWord()
    ensures Fnv1a(LittleEndian([])) == FNV_START
  {
    var none: seq<nat> := [];
    assert LittleEndian(none) == [];
  }

  lemma OneWord(w: nat)
    ensures Fnv1a(LittleEndian([w])) == HashByte(HashByte(FNV_START, w % 0x100), w / 0x100)
  {
    var none: seq<nat> := [];
    NoWord();
    AppendWord(none, w);
    assert none + [w] == [w];
  }

  lemma {:induction false} XorZero(a: nat, n: nat)
    requires a < Pow2(n)
    ensures XorBits(a, 0, n) == a
  {
    if n > 0 {
      XorZero(a / 2, n - 1);
    }
  }

  lemma ZeroByte(h: nat)
    ensures XorByte(h, 0) == h
  {
    assert Pow2(8) == 0x100;
    XorZero(h % 0x100, 8);
  }

  lemma HashZero(h: nat, q: nat, g: nat)
    requires h * 1099511628211 == q * TWO_64 + g && g < TWO_64
    ensures HashByte(h, 0) == g
  {
    ZeroByte(h);
    DivModUnique(h * FNV_PRIME, TWO_64, q, g);
  }

  /** The hash starts from the repository's own value, not from the standard offset basis, and multiplies by the
      64-bit prime: the hashes of no word and of one zero word. */
  lemma FirstHashes()
    ensures Fnv1a(LittleEndian([])) == 1469598103934665603
    ensures Fnv1a(LittleEndian([0])) == 11126445248426326267
  {
    var h, g := 1469598103934665603, 4953163356653287321;
    NoWord();
    OneWord(0);
    HashZero(h, 87594872982, g);
    HashZero(g, 295231542504, 11126445248426326267);
  }

  lemma NextWord(sc: seq<nat>, base: nat, i: nat, word: nat)
    requires base + i < |sc| && word == sc[base + i]
    ensures Fnv1a(LittleEndian(sc[base..base + i + 1]))
         == HashByte(HashByte(Fnv1a(LittleEndian(sc[base..base + i])), word % 0x100), word / 0x100)
  {
    AppendWord(sc[base..base + i], word);
    assert sc[base..base + i] + [word] == sc[base..base + i + 1];
  }

  /** Hash n words from `base` on: the FNV-1a hash of their bytes in memory order. */
  method PilotScHash(sc: seq<nat>, base: nat, n: nat) returns (hash: nat)
    requires base + n <= |sc|
    ensures hash == Fnv1a(LittleEndian(sc[base..base + n]))
  {
    hash := FNV_START;
    for i := 0 to n
      invariant hash == Fnv1a(LittleEndian(sc[base..base + i]))
    {
      var value := sc[base + i];
      NextWord(sc, base, i, value);
      hash := HashByte(hash, value % 0x100);
      hash := HashByte(hash, value / 0x100);
    }
  }

  // ---------- what the fingerprint detects ----------

  /** The multiplier's inverse modulo 2^64, and the multiple of 2^64 it leaves. */
  const INVERSE: nat := 14886173955864302971
  const QUOTIENT: nat := 887285111055

  /** Undo a multiplication by the prime. */
  lemma MultiplierUndone(x: nat)
    requires x < TWO_64
    ensures (x * FNV_PRIME % TWO_64) * INVERSE % TWO_64 == x
  {
    var p, k := x * FNV_PRIME, x * FNV_PRIME / TWO_64;
    assert FNV_PRIME * INVERSE == 1 + QUOTIENT * TWO_64;
    assert p % TWO_64 == p - k * TWO_64;
    assert (p % TWO_64) * INVERSE == (x * QUOTIENT - k * INVERSE) * TWO_64 + x;
    DivModUnique((p % TWO_64) * INVERSE, TWO_64, x * QUOTIENT - k * INVERSE, x);
  }

  lemma XorByteBelow(h: nat, byte: nat)
    requires h < TWO_64
    ensures XorByte(h, byte) < TWO_64 && XorByte(h, byte) / 0x100 == h / 0x100
  {
    assert Pow2(8) == 0x100;
    DivModUnique(XorByte(h, byte), 0x100, h / 0x100, XorBits(h % 0x100, byte, 8));
  }

  /** Different hashes stay different under the same byte. */
  lemma StepKeepsDifference(h: nat, h': nat, byte: nat)
    requires h < TWO_64 && h' < TWO_64 && h != h'
    ensures HashByte(h, byte) != HashByte(h', byte)
  {
    XorByteBelow(h, byte);
    XorByteBelow(h', byte);
    MultiplierUndone(XorByte(h, byte));
    MultiplierUndone(XorByte(h', byte));
    if XorByte(h, byte) == XorByte(h', byte) {
      assert Pow2(8) == 0x100;
      assert h / 0x100 == h' / 0x100;
      assert XorBits(h % 0x100, byte, 8) == XorBits(h' % 0x100, byte, 8);
      XorInjective(h % 0x100, h' % 0x100, byte, 8);
    }
  }

  /** Different bytes drive the same hash apart, and by more than another byte can undo. */
  lemma BytesDriveApart(h: nat, b: nat, b': nat)
    requires h < TWO_64 && b < 0x100 && b' < 0x100 && b != b'
    ensures HashByte(h, b) / 0x100 != HashByte(h, b') / 0x100
  {
    assert Pow2(8) == 0x100;
    XorCommutes(h % 0x100, b, 8);
    XorCommutes(h % 0x100, b', 8);
    if XorBits(h % 0x100, b, 8) == XorBits(h % 0x100, b', 8) {
      XorInjective(b, b', h % 0x100, 8);
    }
    var x, x' := XorByte(h, b), XorByte(h, b');
    var d: int := x as int - x' as int;
    assert d != 0 && -0x100 < d < 0x100;
    FarApart(x, x', d);
  }

  /** Inputs that differ by less than a byte have products that differ in more than the last byte. */
  lemma FarApart(x: int, x': int, d: int)
    requires d == x - x' && d != 0 && -0x100 < d < 0x100
    ensures (x * FNV_PRIME % TWO_64) / 0x100 != (x' * FNV_PRIME % TWO_64) / 0x100
  {
    var u, u' := x * FNV_PRIME % TWO_64, x' * FNV_PRIME % TWO_64;
    var k, k' := x * FNV_PRIME / TWO_64, x' * FNV_PRIME / TWO_64;
    assert u - u' == d * FNV_PRIME - (k - k') * TWO_64;
  }

  /** Two words that differ leave different hashes behind. */
  lemma WordsDriveApart(h: nat, w: nat, w': nat)
    requires h < TWO_64 && w < 0x1_0000 && w' < 0x1_0000 && w != w'
    ensures HashByte(HashByte(h, w % 0x100), w / 0x100) != HashByte(HashByte(h, w' % 0x100), w' / 0x100)
  {
    var g, g' := HashByte(h, w % 0x100), HashByte(h, w' % 0x100);
    XorByteBelow(g, w / 0x100);
    XorByteBelow(g', w' / 0x100);
    MultiplierUndone(XorByte(g, w / 0x100));
    MultiplierUndone(XorByte(g', w' / 0x100));
    if w % 0x100 != w' % 0x100 {
      BytesDriveApart(h, w % 0x100, w' % 0x100);
    } else {
      BytesDriveApart(g, w / 0x100, w' / 0x100);
    }
  }

  /** Changing one word of a table, and no other, always changes its fingerprint. */
  lemma {:induction false} DetectsOneChange(a: seq<nat>, b: seq<nat>, k: nat)
    requires |a| == |b| && k < |a| && Words(a) && Words(b) && a[k] != b[k]
    requires forall i :: 0 <= i < |a| && i != k ==> a[i] == b[i]
    ensures Fnv1a(LittleEndian(a)) != Fnv1a(LittleEndian(b))
    decreases |a|
  {
    var n := |a| - 1;
    var front, front' := a[..n], b[..n];
    assert a == front + [a[n]] && b == front' + [b[n]];
    AppendWord(front, a[n]);
    AppendWord(front', b[n]);
    if k == n {
      assert front == front';
      WordsDriveApart(Fnv1a(LittleEndian(front)), a[n], b[n]);
    } else {
      DetectsOneChange(front, front', k);
      var h, h' := Fnv1a(LittleEndian(front)), Fnv1a(LittleEndian(front'));
      StepKeepsDifference(h, h', a[n] % 0x100);
      StepKeepsDifference(HashByte(h, a[n] % 0x100), HashByte(h', a[n] % 0x100), a[n] / 0x100);
    }
  }
}
