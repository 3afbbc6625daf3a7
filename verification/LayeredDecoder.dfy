/**
 The plain layered min-sum decoder over a quasi-cyclic table, and what every step of it keeps.

 One step gathers each incident column by its shift, subtracts the row's stored messages, applies
 the check-node rule and scatters by the inverse shift. Steps run the rows in order, again and again.
 */
module LayeredDecoder {
  import opened Arith
  import opened CheckNode

  type Column = seq<real>

  /** table[r][c] is -1 for a zero block, otherwise s: check i of row r meets bit (i + s) mod z of column c. */
  datatype Code = Code(table: seq<seq<int>>, n: nat, z: nat)

  /** The stored form of a message; the decoder writes an int8 obtained by a cast. */
  type Quantizer = real -> int

  function Quantize(q: Quantizer, m: real): (stored: int)
    ensures stored == q(m)
  {
    q(m)
  }

  ghost predicate AtLeastTwoEdges(row: seq<int>) {
    exists c, d :: 0 <= c < d < |row| && row[c] >= 0 && row[d] >= 0
  }

  ghost predicate ValidCode(code: Code) {
    && code.z > 0 && |code.table| > 0
    && forall r :: 0 <= r < |code.table| ==>
         && |code.table[r]| == code.n
         && AtLeastTwoEdges(code.table[r])
         && forall c :: 0 <= c < code.n ==> -1 <= code.table[r][c] < code.z
  }

  /** Posteriors lam[c][j] and stored messages msg[r][c][i]. */
  datatype State = State(lam: seq<Column>, msg: seq<seq<seq<int>>>)

  ghost predicate Shaped(code: Code, st: State) {
    && |st.lam| == code.n && |st.msg| == |code.table|
    && (forall c :: 0 <= c < code.n ==> |st.lam[c]| == code.z)
    && (forall r :: 0 <= r < |st.msg| ==> |st.msg[r]| == code.n)
    && (forall r, c :: 0 <= r < |st.msg| && 0 <= c < code.n ==> |st.msg[r][c]| == code.z)
  }

  /** The bit of a column that check i of a shift-s block meets: i + s modulo z. */
  function BitOf(i: nat, s: nat, z: nat): (j: nat)
    requires i < z && s < z
    ensures j < z
  {
    if i + s < z then i + s else i + s - z
  }

  /** The check of a shift-s block that meets bit j. */
  function CheckOf(j: nat, s: nat, z: nat): (i: nat)
    requires j < z && s < z
    ensures i < z && BitOf(i, s, z) == j
  {
    if s <= j then j - s else j + z - s
  }

  /** BitOf and CheckOf are the two inverse cyclic shifts of the table's definition. */
  lemma ShiftsAreRemainders(i: nat, s: nat, z: nat)
    requires i < z && s < z
    ensures BitOf(i, s, z) == (i + s) % z && CheckOf(i, s, z) == (i + (z - s)) % z
    ensures CheckOf(BitOf(i, s, z), s, z) == i
  {
    AddMod(i, s, z);
    AddMod(i, z - s, z);
  }

  /** The row that step k + 1 works on. */
  function RowAt(code: Code, k: nat): (r: nat)
    requires |code.table| > 0
    ensures r < |code.table|
  {
    k % |code.table|
  }

  /** What the columns offer to check i of row r: posterior minus the row's own stored message. */
  ghost function OffersAt(code: Code, st: State, r: nat, i: nat): Offers
    requires ValidCode(code) && Shaped(code, st) && r < |code.table| && i < code.z
  {
    map c: nat | c < code.n && code.table[r][c] >= 0 ::
      st.lam[c][BitOf(i, code.table[r][c], code.z)] - st.msg[r][c][i] as real
  }

  lemma OffersHaveOthers(code: Code, st: State, r: nat, i: nat, c: nat)
    requires ValidCode(code) && Shaped(code, st) && r < |code.table| && i < code.z
    ensures exists d :: d in OffersAt(code, st, r, i) && d != c
  {
    var a, b :| 0 <= a < b < |code.table[r]| && code.table[r][a] >= 0 && code.table[r][b] >= 0;
    assert a in OffersAt(code, st, r, i) && b in OffersAt(code, st, r, i);
  }

  ghost function MessageAt(code: Code, st: State, r: nat, c: nat, i: nat): real
    requires ValidCode(code) && Shaped(code, st) && r < |code.table| && i < code.z
  {
    OffersHaveOthers(code, st, r, i, c);
    Message(OffersAt(code, st, r, i), c)
  }

  ghost function NewColumn(code: Code, st: State, r: nat, c: nat): (col: Column)
    requires ValidCode(code) && Shaped(code, st) && r < |code.table| && c < code.n
    requires code.table[r][c] >= 0
    ensures |col| == code.z
  {
    seq(code.z, j requires 0 <= j < code.z =>
      var i := CheckOf(j, code.table[r][c], code.z);
      OffersAt(code, st, r, i)[c] + MessageAt(code, st, r, c, i))
  }

  ghost function NewMessages(code: Code, q: Quantizer, st: State, r: nat, c: nat): (m: seq<int>)
    requires ValidCode(code) && Shaped(code, st) && r < |code.table| && c < code.n
    ensures |m| == code.z
  {
    seq(code.z, i requires 0 <= i < code.z => Quantize(q, MessageAt(code, st, r, c, i)))
  }

  ghost function RowStep(code: Code, q: Quantizer, st: State, r: nat): (next: State)
    requires ValidCode(code) && Shaped(code, st) && r < |code.table|
    ensures Shaped(code, next)
  {
    var lam := seq(code.n, c requires 0 <= c < code.n =>
      if code.table[r][c] >= 0 then NewColumn(code, st, r, c) else st.lam[c]);
    var row := seq(code.n, c requires 0 <= c < code.n =>
      if code.table[r][c] >= 0 then NewMessages(code, q, st, r, c) else st.msg[r][c]);
    State(lam, st.msg[r := row])
  }

  lemma StepMessage(code: Code, q: Quantizer, st: State, r: nat, r': nat, c: nat, i: nat)
    requires ValidCode(code) && Shaped(code, st) && r < |code.table| && r' < |code.table|
    requires c < code.n && i < code.z
    ensures RowStep(code, q, st, r).msg[r'][c][i]
         == if r' == r && code.table[r][c] >= 0 then Quantize(q, MessageAt(code, st, r, c, i)) else st.msg[r'][c][i]
  {
  }

  /** The state after k row steps from channel values lam0; step k works on row k mod |table|. */
  ghost function Run(code: Code, q: Quantizer, lam0: seq<Column>, k: nat): (st: State)
    requires ValidCode(code) && ChannelShaped(code, lam0)
    ensures Shaped(code, st)
  {
    if k == 0 then
      State(lam0, seq(|code.table|, r => seq(code.n, c => seq(code.z, i => 0))))
    else
      RowStep(code, q, Run(code, q, lam0, k - 1), RowAt(code, k - 1))
  }

  ghost predicate ChannelShaped(code: Code, lam0: seq<Column>) {
    |lam0| == code.n && forall c :: 0 <= c < code.n ==> |lam0[c]| == code.z
  }

  // ---------- conservation ----------

  /** Sum of the stored messages of the first m rows at bit j of column c. */
  ghost function Incident(code: Code, st: State, c: nat, j: nat, m: nat): real
    requires ValidCode(code) && Shaped(code, st) && c < code.n && j < code.z && m <= |code.table|
  {
    if m == 0 then 0.0
    else
      var s := code.table[m - 1][c];
      Incident(code, st, c, j, m - 1)
      + if s >= 0 then st.msg[m - 1][c][CheckOf(j, s, code.z)] as real else 0.0
  }

  /** What quantizing the stored messages of the first k steps has left behind at bit j of column c. */
  ghost function Residue(code: Code, q: Quantizer, lam0: seq<Column>, k: nat, c: nat, j: nat): real
    requires ValidCode(code) && ChannelShaped(code, lam0) && c < code.n && j < code.z
  {
    if k == 0 then 0.0
    else
      var st, r := Run(code, q, lam0, k - 1), RowAt(code, k - 1);
      var s := code.table[r][c];
      Residue(code, q, lam0, k - 1, c, j) +
      if s >= 0 then
        var m := MessageAt(code, st, r, c, CheckOf(j, s, code.z));
        m - Quantize(q, m) as real
      else 0.0
  }

  lemma {:induction false} IncidentChange(code: Code, st: State, st': State, r: nat, c: nat, j: nat, m: nat)
    requires ValidCode(code) && Shaped(code, st) && Shaped(code, st')
    requires c < code.n && j < code.z && m <= |code.table| && r < |code.table|
    requires forall r' :: 0 <= r' < |code.table| && r' != r ==> st'.msg[r'] == st.msg[r']
    ensures var s := code.table[r][c];
            Incident(code, st', c, j, m) == Incident(code, st, c, j, m) +
            if s >= 0 && r < m then
              var i := CheckOf(j, s, code.z);
              st'.msg[r][c][i] as real - st.msg[r][c][i] as real
            else 0.0
  {
    if m > 0 {
      IncidentChange(code, st, st', r, c, j, m - 1);
    }
  }

  /** Conservation: channel value, plus the latest stored message of every incident edge, plus the
      quantization residues, and nothing else. */
  lemma {:induction false} Conservation(code: Code, q: Quantizer, lam0: seq<Column>, k: nat, c: nat, j: nat)
    requires ValidCode(code) && ChannelShaped(code, lam0) && c < code.n && j < code.z
    ensures var st := Run(code, q, lam0, k);
            st.lam[c][j] == lam0[c][j] + Incident(code, st, c, j, |code.table|) + Residue(code, q, lam0, k, c, j)
  {
    if k == 0 {
      NoMessagesAtStart(code, q, lam0, c, j, |code.table|);
    } else {
      var st, r := Run(code, q, lam0, k - 1), RowAt(code, k - 1);
      Conservation(code, q, lam0, k - 1, c, j);
      StepConserves(code, q, st, r, c, j);
    }
  }

  /** One row step moves a posterior by exactly what it moves the incident messages, plus one residue. */
  lemma StepConserves(code: Code, q: Quantizer, st: State, r: nat, c: nat, j: nat)
    requires ValidCode(code) && Shaped(code, st) && r < |code.table| && c < code.n && j < code.z
    ensures var next, s := RowStep(code, q, st, r), code.table[r][c];
            next.lam[c][j] - Incident(code, next, c, j, |code.table|)
            == st.lam[c][j] - Incident(code, st, c, j, |code.table|) +
               if s >= 0 then
                 var m := MessageAt(code, st, r, c, CheckOf(j, s, code.z));
                 m - Quantize(q, m) as real
               else 0.0
  {
    IncidentChange(code, st, RowStep(code, q, st, r), r, c, j, |code.table|);
    if code.table[r][c] >= 0 {
      StepMessage(code, q, st, r, r, c, CheckOf(j, code.table[r][c], code.z));
    }
  }

  lemma {:induction false} NoMessagesAtStart(code: Code, q: Quantizer, lam0: seq<Column>, c: nat, j: nat, m: nat)
    requires ValidCode(code) && ChannelShaped(code, lam0) && c < code.n && j < code.z && m <= |code.table|
    ensures Incident(code, Run(code, q, lam0, 0), c, j, m) == 0.0
  {
    if m > 0 {
      NoMessagesAtStart(code, q, lam0, c, j, m - 1);
    }
  }

  // ---------- safety: a correct bit never flips ----------

  /** x seen from the side of the transmitted bit: negative exactly when x points to the other bit. */
  function Towards(bit: int, x: real): real {
    if bit == 1 then -x else x
  }

  /** Bits, column by column. */
  type Word = seq<seq<int>>

  ghost predicate WordShaped(code: Code, w: Word) {
    && |w| == code.n
    && (forall c :: 0 <= c < code.n ==> |w[c]| == code.z)
    && forall c, j :: 0 <= c < code.n && 0 <= j < code.z ==> w[c][j] == 0 || w[c][j] == 1
  }

  ghost function OnesOn(code: Code, w: Word, r: nat, i: nat): set<nat>
    requires ValidCode(code) && WordShaped(code, w) && r < |code.table| && i < code.z
  {
    set c: nat | c < code.n && code.table[r][c] >= 0 && w[c][BitOf(i, code.table[r][c], code.z)] == 1
  }

  ghost predicate IsCodeword(code: Code, w: Word)
    requires ValidCode(code)
  {
    && WordShaped(code, w)
    && forall r, i :: 0 <= r < |code.table| && 0 <= i < code.z ==> |OnesOn(code, w, r, i)| % 2 == 0
  }

  /** The cast never moves a message away from zero or across it. */
  ghost predicate TowardZero(q: Quantizer) {
    forall m: real ::
      && Abs(Quantize(q, m) as real) <= Abs(m)
      && (Quantize(q, m) as real == 0.0 || (Quantize(q, m) > 0 <==> m > 0.0))
  }

  ghost predicate ChannelAgrees(code: Code, w: Word, lam0: seq<Column>)
    requires ValidCode(code) && WordShaped(code, w) && ChannelShaped(code, lam0)
  {
    forall c, j :: 0 <= c < code.n && 0 <= j < code.z ==> Towards(w[c][j], lam0[c][j]) >= 0.0
  }

  ghost predicate MessagesAgree(code: Code, w: Word, st: State)
    requires ValidCode(code) && WordShaped(code, w) && Shaped(code, st)
  {
    forall r, c, i :: 0 <= r < |code.table| && 0 <= c < code.n && 0 <= i < code.z && code.table[r][c] >= 0 ==>
      Towards(w[c][BitOf(i, code.table[r][c], code.z)], st.msg[r][c][i] as real) >= 0.0
  }

  /** If every offer agrees with a word that satisfies the check, so does the message sent back. */
  lemma MessageAgrees(v: Offers, ones: set<nat>, c: nat)
    requires c in v && ones <= v.Keys && |ones| % 2 == 0
    requires exists d :: d in v && d != c
    requires forall d :: d in v ==> Towards(if d in ones then 1 else 0, v[d]) >= 0.0
    ensures Towards(if c in ones then 1 else 0, Message(v, c)) >= 0.0
  {
    var m := LeastOther(v, c);
    if m != 0.0 {
      forall d | d in v && d != c
        ensures d in Negatives(v) <==> d in ones
      {
        assert m <= Abs(v[d]);
      }
      assert Negatives(v) - {c} == ones - {c};
      if c in ones {
        assert |ones - {c}| == |ones| - 1;
      } else {
        assert ones - {c} == ones;
      }
      assert m > 0.0 by { var d :| d in v && d != c && Abs(v[d]) == m; }
    }
  }

  /** A partial sum of agreeing messages agrees and is at least any one of its terms. */
  lemma {:induction false} IncidentAgrees(code: Code, w: Word, st: State, c: nat, j: nat, m: nat, r: nat)
    requires ValidCode(code) && WordShaped(code, w) && Shaped(code, st) && MessagesAgree(code, w, st)
    requires c < code.n && j < code.z && m <= |code.table|
    ensures Towards(w[c][j], Incident(code, st, c, j, m)) >= 0.0
    ensures r < m && code.table[r][c] >= 0 ==>
      Towards(w[c][j], Incident(code, st, c, j, m))
      >= Towards(w[c][j], st.msg[r][c][CheckOf(j, code.table[r][c], code.z)] as real)
  {
    if m > 0 {
      IncidentAgrees(code, w, st, c, j, m - 1, r);
      var s := code.table[m - 1][c];
      if s >= 0 {
        var i := CheckOf(j, s, code.z);
        assert Towards(w[c][BitOf(i, s, code.z)], st.msg[m - 1][c][i] as real) >= 0.0;
      }
    }
  }

  ghost predicate ResiduesAgree(code: Code, q: Quantizer, w: Word, lam0: seq<Column>, k: nat)
    requires ValidCode(code) && WordShaped(code, w) && ChannelShaped(code, lam0)
  {
    forall c, j :: 0 <= c < code.n && 0 <= j < code.z ==>
      Towards(w[c][j], Residue(code, q, lam0, k, c, j)) >= 0.0
  }

  lemma OfferAgrees(code: Code, q: Quantizer, w: Word, lam0: seq<Column>, k: nat, r: nat, c: nat, i: nat)
    requires ValidCode(code) && WordShaped(code, w) && ChannelShaped(code, lam0) && ChannelAgrees(code, w, lam0)
    requires MessagesAgree(code, w, Run(code, q, lam0, k)) && ResiduesAgree(code, q, w, lam0, k)
    requires r < |code.table| && c < code.n && i < code.z && code.table[r][c] >= 0
    ensures var j := BitOf(i, code.table[r][c], code.z);
            Towards(w[c][j], OffersAt(code, Run(code, q, lam0, k), r, i)[c]) >= 0.0
  {
    var st := Run(code, q, lam0, k);
    var s := code.table[r][c];
    var j := BitOf(i, s, code.z);
    assert CheckOf(j, s, code.z) == i;
    Conservation(code, q, lam0, k, c, j);
    IncidentAgrees(code, w, st, c, j, |code.table|, r);
  }

  lemma MessageAtAgrees(code: Code, q: Quantizer, w: Word, lam0: seq<Column>, k: nat, r: nat, c: nat, i: nat)
    requires ValidCode(code) && IsCodeword(code, w) && ChannelShaped(code, lam0) && ChannelAgrees(code, w, lam0)
    requires MessagesAgree(code, w, Run(code, q, lam0, k)) && ResiduesAgree(code, q, w, lam0, k)
    requires r < |code.table| && c < code.n && i < code.z && code.table[r][c] >= 0
    ensures Towards(w[c][BitOf(i, code.table[r][c], code.z)], MessageAt(code, Run(code, q, lam0, k), r, c, i)) >= 0.0
  {
    var st := Run(code, q, lam0, k);
    var v, ones := OffersAt(code, st, r, i), OnesOn(code, w, r, i);
    forall d | d in v
      ensures Towards(if d in ones then 1 else 0, v[d]) >= 0.0
    {
      OfferAgrees(code, q, w, lam0, k, r, d, i);
    }
    OffersHaveOthers(code, st, r, i, c);
    MessageAgrees(v, ones, c);
  }

  lemma {:induction false} RunAgrees(code: Code, q: Quantizer, w: Word, lam0: seq<Column>, k: nat)
    requires ValidCode(code) && IsCodeword(code, w) && ChannelShaped(code, lam0) && ChannelAgrees(code, w, lam0)
    requires TowardZero(q)
    ensures MessagesAgree(code, w, Run(code, q, lam0, k)) && ResiduesAgree(code, q, w, lam0, k)
  {
    if k > 0 {
      RunAgrees(code, q, w, lam0, k - 1);
      RunSendsAgree(code, q, w, lam0, k - 1, RowAt(code, k - 1));
      StepKeepsAgreement(code, q, w, Run(code, q, lam0, k - 1), RowAt(code, k - 1));
      StepKeepsResidues(code, q, w, lam0, k);
    }
  }

  lemma CastAgrees(q: Quantizer, bit: int, m: real)
    requires TowardZero(q) && Towards(bit, m) >= 0.0
    ensures Towards(bit, Quantize(q, m) as real) >= 0.0 && Towards(bit, m - Quantize(q, m) as real) >= 0.0
  {
    assert Abs(Quantize(q, m) as real) <= Abs(m);
  }

  /** Everything the message sent by row r at check i contributes agrees with the word. */
  ghost predicate SendsAgree(code: Code, q: Quantizer, w: Word, st: State, r: nat, c: nat, i: nat)
    requires ValidCode(code) && WordShaped(code, w) && Shaped(code, st)
    requires r < |code.table| && c < code.n && i < code.z && code.table[r][c] >= 0
  {
    var bit, m := w[c][BitOf(i, code.table[r][c], code.z)], MessageAt(code, st, r, c, i);
    Towards(bit, Quantize(q, m) as real) >= 0.0 && Towards(bit, m - Quantize(q, m) as real) >= 0.0
  }

  ghost predicate RowSendsAgree(code: Code, q: Quantizer, w: Word, st: State, r: nat)
    requires ValidCode(code) && WordShaped(code, w) && Shaped(code, st) && r < |code.table|
  {
    forall c, i :: 0 <= c < code.n && 0 <= i < code.z && code.table[r][c] >= 0 ==> SendsAgree(code, q, w, st, r, c, i)
  }

  lemma RunSendsAgree(code: Code, q: Quantizer, w: Word, lam0: seq<Column>, k: nat, r: nat)
    requires ValidCode(code) && IsCodeword(code, w) && ChannelShaped(code, lam0) && ChannelAgrees(code, w, lam0)
    requires MessagesAgree(code, w, Run(code, q, lam0, k)) && ResiduesAgree(code, q, w, lam0, k)
    requires TowardZero(q) && r < |code.table|
    ensures RowSendsAgree(code, q, w, Run(code, q, lam0, k), r)
  {
    forall c, i | 0 <= c < code.n && 0 <= i < code.z && code.table[r][c] >= 0
      ensures SendsAgree(code, q, w, Run(code, q, lam0, k), r, c, i)
    {
      MessageAtAgrees(code, q, w, lam0, k, r, c, i);
      CastAgrees(q, w[c][BitOf(i, code.table[r][c], code.z)], MessageAt(code, Run(code, q, lam0, k), r, c, i));
    }
  }

  lemma StepKeepsAgreement(code: Code, q: Quantizer, w: Word, st: State, r: nat)
    requires ValidCode(code) && WordShaped(code, w) && Shaped(code, st) && r < |code.table|
    requires MessagesAgree(code, w, st) && RowSendsAgree(code, q, w, st, r)
    ensures MessagesAgree(code, w, RowStep(code, q, st, r))
  {
    forall r', c, i | 0 <= r' < |code.table| && 0 <= c < code.n && 0 <= i < code.z && code.table[r'][c] >= 0
      ensures Towards(w[c][BitOf(i, code.table[r'][c], code.z)], RowStep(code, q, st, r).msg[r'][c][i] as real) >= 0.0
    {
      StepMessage(code, q, st, r, r', c, i);
      if r' == r {
        assert SendsAgree(code, q, w, st, r, c, i);
      }
    }
  }

  lemma StepKeepsResidues(code: Code, q: Quantizer, w: Word, lam0: seq<Column>, k: nat)
    requires ValidCode(code) && WordShaped(code, w) && ChannelShaped(code, lam0) && k > 0
    requires ResiduesAgree(code, q, w, lam0, k - 1)
    requires RowSendsAgree(code, q, w, Run(code, q, lam0, k - 1), RowAt(code, k - 1))
    ensures ResiduesAgree(code, q, w, lam0, k)
  {
    var r := RowAt(code, k - 1);
    forall c, j | 0 <= c < code.n && 0 <= j < code.z
      ensures Towards(w[c][j], Residue(code, q, lam0, k, c, j)) >= 0.0
    {
      assert Towards(w[c][j], Residue(code, q, lam0, k - 1, c, j)) >= 0.0;
      if code.table[r][c] >= 0 {
        assert SendsAgree(code, q, w, Run(code, q, lam0, k - 1), r, c, CheckOf(j, code.table[r][c], code.z));
      }
    }
  }

  /**
   No correct bit ever flips: if every channel value is zero or agrees with one codeword, then after
   any number of row steps every posterior still agrees and is no smaller in magnitude than its
   channel value.
   */
  lemma NoBitFlips(code: Code, q: Quantizer, w: Word, lam0: seq<Column>, k: nat, c: nat, j: nat)
    requires ValidCode(code) && IsCodeword(code, w) && ChannelShaped(code, lam0) && ChannelAgrees(code, w, lam0)
    requires TowardZero(q) && c < code.n && j < code.z
    ensures Towards(w[c][j], Run(code, q, lam0, k).lam[c][j]) >= Towards(w[c][j], lam0[c][j]) >= 0.0
  {
    RunAgrees(code, q, w, lam0, k);
    Conservation(code, q, lam0, k, c, j);
    IncidentAgrees(code, w, Run(code, q, lam0, k), c, j, |code.table|, 0);
  }
}
