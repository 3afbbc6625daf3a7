/**
 The decoder with asynchronous message stores. The row groups run in program order on the posteriors,
 but what a group subtracts is whatever its slot of the message buffer holds at that moment. Every
 interleaving of the stores decodes to the plain result.
 */
module PipedDecoder {
  import opened LayeredDecoder
  import opened DecodeKernel
  import opened MessagePipe

  /** The pipe together with the posteriors. */
  datatype Piped = Piped(pipe: Pipe, lam: seq<Column>)

  /** Group g is rows starts[g] up to starts[g + 1]. */
  ghost predicate GroupOk(code: Code, starts: seq<nat>, g: nat) {
    g + 1 < |starts| && starts[g] < starts[g + 1] <= |code.table|
  }

  ghost predicate Tiling(code: Code, starts: seq<nat>) {
    && |starts| >= 2 && starts[0] == 0 && starts[|starts| - 1] == |code.table|
    && forall g: nat :: g < |starts| - 1 ==> GroupOk(code, starts, g)
  }

  // ---------- a group reads no other group's messages ----------

  /** Element i + 1 of the trace is the plain step of row a + i from element i. */
  ghost predicate Linked(code: Code, q: Quantizer, t: seq<State>, a: nat, i: nat)
    requires ValidCode(code)
  {
    && i + 1 < |t| && a + i < |code.table| && LayeredDecoder.Shaped(code, t[i])
    && t[i + 1] == RowStep(code, q, t[i], a + i)
  }

  /** Plain steps of the rows a, a + 1 and so on. */
  ghost predicate Steps(code: Code, q: Quantizer, t: seq<State>, a: nat)
    requires ValidCode(code)
  {
    forall i: nat :: i < |t| - 1 ==> Linked(code, q, t, a, i)
  }

  /** The two states look alike to row r. */
  ghost predicate Alike(code: Code, st: State, st': State, r: nat) {
    && ValidCode(code) && LayeredDecoder.Shaped(code, st) && LayeredDecoder.Shaped(code, st') && r < |code.table|
    && st.lam == st'.lam && st.msg[r] == st'.msg[r]
  }

  lemma SameMessage(code: Code, st: State, st': State, r: nat, c: nat, i: nat)
    requires Alike(code, st, st', r) && i < code.z
    ensures OffersAt(code, st, r, i) == OffersAt(code, st', r, i)
    ensures MessageAt(code, st, r, c, i) == MessageAt(code, st', r, c, i)
  {
  }

  lemma SameColumn(code: Code, q: Quantizer, st: State, st': State, r: nat, c: nat)
    requires Alike(code, st, st', r) && c < code.n && code.table[r][c] >= 0
    ensures NewColumn(code, st, r, c) == NewColumn(code, st', r, c)
    ensures NewMessages(code, q, st, r, c) == NewMessages(code, q, st', r, c)
  {
    var col, col' := NewColumn(code, st, r, c), NewColumn(code, st', r, c);
    forall j: nat | j < code.z
      ensures col[j] == col'[j]
    {
      SameMessage(code, st, st', r, c, CheckOf(j, code.table[r][c], code.z));
    }
    assert col == col';
    var m, m' := NewMessages(code, q, st, r, c), NewMessages(code, q, st', r, c);
    forall i: nat | i < code.z
      ensures m[i] == m'[i]
    {
      SameMessage(code, st, st', r, c, i);
    }
    assert m == m';
  }

  /** A row step reads the posteriors and its own row's messages, nothing else. */
  lemma RowStepIsLocal(code: Code, q: Quantizer, st: State, st': State, r: nat)
    requires Alike(code, st, st', r)
    ensures RowStep(code, q, st, r).lam == RowStep(code, q, st', r).lam
    ensures RowStep(code, q, st, r).msg[r] == RowStep(code, q, st', r).msg[r]
  {
    var lam, lam' := RowStep(code, q, st, r).lam, RowStep(code, q, st', r).lam;
    var m, m' := RowStep(code, q, st, r).msg[r], RowStep(code, q, st', r).msg[r];
    forall c: nat | c < code.n
      ensures lam[c] == lam'[c] && m[c] == m'[c]
    {
      if code.table[r][c] >= 0 {
        SameColumn(code, q, st, st', r, c);
      }
    }
    assert lam == lam' && m == m';
  }

  /** The two states have the same posteriors, and the same messages in the rows from a up to b. */
  ghost predicate Agree(code: Code, st: State, st': State, a: nat, b: nat) {
    && LayeredDecoder.Shaped(code, st) && LayeredDecoder.Shaped(code, st') && b <= |code.table|
    && st.lam == st'.lam && forall r: nat :: a <= r < b ==> st.msg[r] == st'.msg[r]
  }

  lemma NextRowAgrees(code: Code, q: Quantizer, st: State, st': State, a: nat, r: nat, b: nat)
    requires ValidCode(code) && a <= r < b && Agree(code, st, st', a, b)
    ensures Agree(code, RowStep(code, q, st, r), RowStep(code, q, st', r), a, b)
  {
    RowStepIsLocal(code, q, st, st', r);
  }

  lemma NextAgrees(code: Code, q: Quantizer, t: seq<State>, t': seq<State>, a: nat, i: nat, b: nat)
    requires ValidCode(code) && a + i < b && i + 1 < |t| && i + 1 < |t'| && Steps(code, q, t, a)
    requires Steps(code, q, t', a)
    requires Agree(code, t[i], t'[i], a, b)
    ensures Agree(code, t[i + 1], t'[i + 1], a, b)
  {
    NextRowAgrees(code, q, t[i], t'[i], a, a + i, b);
    assert Linked(code, q, t, a, i) && Linked(code, q, t', a, i);
  }

  /** Neither do the steps of a group read any other row's messages. */
  lemma {:induction false} StepsAgree(code: Code, q: Quantizer, t: seq<State>, t': seq<State>, a: nat, i: nat, b: nat)
    requires ValidCode(code) && a + i <= b && i < |t| && i < |t'| && Steps(code, q, t, a) && Steps(code, q, t', a)
    requires Agree(code, t[0], t'[0], a, b)
    ensures Agree(code, t[i], t'[i], a, b)
  {
    if i > 0 {
      StepsAgree(code, q, t, t', a, i - 1, b);
      NextAgrees(code, q, t, t', a, i - 1, b);
    }
  }

  // ---------- the plain run, group by group ----------

  /** Step j of pass n works on row j. */
  lemma RowInPass(code: Code, n: nat, j: nat)
    requires |code.table| > 0 && j < |code.table|
    ensures RowAt(code, StepsIn(code, n) + j) == j
  {
    StepsInIsProduct(code, n);
    RowAtStep(code, StepsIn(code, n), j);
  }

  /** The state when pass n has finished its first j rows. */
  ghost function Plain(code: Code, q: Quantizer, lam0: seq<Column>, n: nat, j: nat): (st: State)
    requires ValidCode(code) && ChannelShaped(code, lam0)
    ensures LayeredDecoder.Shaped(code, st)
  {
    LayeredDecoder.Run(code, q, lam0, StepsIn(code, n) + j)
  }

  lemma PlainStep(code: Code, q: Quantizer, lam0: seq<Column>, n: nat, j: nat)
    requires ValidCode(code) && ChannelShaped(code, lam0) && j < |code.table|
    ensures Plain(code, q, lam0, n, j + 1) == RowStep(code, q, Plain(code, q, lam0, n, j), j)
  {
    RowInPass(code, n, j);
  }

  lemma StepKeepsRow(code: Code, q: Quantizer, lam0: seq<Column>, n: nat, j: nat, r: nat)
    requires ValidCode(code) && ChannelShaped(code, lam0) && j < |code.table| && r < |code.table| && r != j
    ensures Plain(code, q, lam0, n, j + 1).msg[r] == Plain(code, q, lam0, n, j).msg[r]
  {
    PlainStep(code, q, lam0, n, j);
  }

  /** Within a pass, a row's messages change only at its own step. */
  lemma {:induction false} RowKept(code: Code, q: Quantizer, lam0: seq<Column>, n: nat, i: nat, j: nat, r: nat)
    requires ValidCode(code) && ChannelShaped(code, lam0) && i <= j <= |code.table| && r < |code.table| && !(i <= r < j)
    ensures Plain(code, q, lam0, n, j).msg[r] == Plain(code, q, lam0, n, i).msg[r]
  {
    if i < j {
      RowKept(code, q, lam0, n, i, j - 1, r);
      StepKeepsRow(code, q, lam0, n, j - 1, r);
    }
  }

  /** Between its own steps in two passes, a row's messages stay. */
  lemma RowKeptAcross(code: Code, q: Quantizer, lam0: seq<Column>, n: nat, i: nat, j: nat, r: nat)
    requires ValidCode(code) && ChannelShaped(code, lam0) && j <= r < i <= |code.table|
    ensures Plain(code, q, lam0, n + 1, j).msg[r] == Plain(code, q, lam0, n, i).msg[r]
  {
    RowKept(code, q, lam0, n, i, |code.table|, r);
    RowKept(code, q, lam0, n + 1, 0, j, r);
  }

  lemma RowUntouched(code: Code, q: Quantizer, lam0: seq<Column>, j: nat, r: nat)
    requires ValidCode(code) && ChannelShaped(code, lam0) && j <= r < |code.table|
    ensures Plain(code, q, lam0, 0, j).msg[r] == seq(code.n, c => seq(code.z, i => 0))
  {
    RowKept(code, q, lam0, 0, 0, j, r);
  }

  /** The plain run's states from row a to row b of pass n. */
  lemma PlainTrace(code: Code, q: Quantizer, lam0: seq<Column>, n: nat, a: nat, b: nat) returns (t: seq<State>)
    requires ValidCode(code) && ChannelShaped(code, lam0) && a <= b <= |code.table|
    ensures |t| == b - a + 1 && t[0] == Plain(code, q, lam0, n, a) && t[b - a] == Plain(code, q, lam0, n, b)
    ensures Steps(code, q, t, a)
  {
    t := seq(b - a + 1, i requires 0 <= i < b - a + 1 => Plain(code, q, lam0, n, a + i));
    forall i: nat | i < b - a
      ensures Linked(code, q, t, a, i)
    {
      PlainLinked(code, q, lam0, n, t, a, i);
    }
  }

  lemma PlainLinked(code: Code, q: Quantizer, lam0: seq<Column>, n: nat, t: seq<State>, a: nat, i: nat)
    requires ValidCode(code) && ChannelShaped(code, lam0) && a + i < |code.table| && i + 1 < |t|
    requires t[i] == Plain(code, q, lam0, n, a + i) && t[i + 1] == Plain(code, q, lam0, n, a + i + 1)
    ensures Linked(code, q, t, a, i)
  {
    PlainStep(code, q, lam0, n, a + i);
  }

  /** The messages group g holds after its step of pass n. */
  ghost function PlainMessages(code: Code, q: Quantizer, lam0: seq<Column>, starts: seq<nat>, n: nat, g: nat): Messages
    requires ValidCode(code) && ChannelShaped(code, lam0) && GroupOk(code, starts, g)
  {
    Plain(code, q, lam0, n, starts[g + 1]).msg[starts[g]..starts[g + 1]]
  }

  // ---------- one step of the group in its slot ----------

  /** No messages yet. */
  function Zeros(code: Code, n: nat): (m: Messages)
    ensures |m| == n
  {
    seq(n, r => seq(code.n, c => seq(code.z, i => 0)))
  }

  /** What the group subtracts: nothing in the first pass, afterwards whatever its slot holds. */
  function Offered(code: Code, starts: seq<nat>, p: Pipe): Messages
    requires p.group + 1 < |starts| && starts[p.group] < starts[p.group + 1] && |p.ub| == 2
  {
    if p.iter == 0 then Zeros(code, starts[p.group + 1] - starts[p.group]) else p.ub[SlotOf(p.group)]
  }

  /** The state has these posteriors, and these messages in the rows from a up to b. */
  ghost predicate Shows(code: Code, st: State, lam: seq<Column>, a: nat, b: nat, m: Messages) {
    LayeredDecoder.Shaped(code, st) && a <= b <= |code.table| && st.lam == lam && st.msg[a..b] == m
  }

  /** The trace leads by the group's plain steps from posteriors lam and messages old' to lam' and m. */
  ghost predicate Leads(code: Code, q: Quantizer, t: seq<State>, lam: seq<Column>, a: nat, b: nat, old': Messages,
                        lam': seq<Column>, m: Messages)
    requires ValidCode(code)
  {
    && a <= b <= |code.table| && |t| == b - a + 1 && Steps(code, q, t, a)
    && Shows(code, t[0], lam, a, b, old') && Shows(code, t[b - a], lam', a, b, m)
  }

  /** The group's plain steps lead from posteriors lam and messages old' to lam' and m, whatever the others hold. */
  ghost predicate Computes(code: Code, q: Quantizer, lam: seq<Column>, a: nat, b: nat, old': Messages,
                           lam': seq<Column>, m: Messages)
    requires ValidCode(code)
  {
    exists t :: Leads(code, q, t, lam, a, b, old', lam', m)
  }

  /** The cast is what moves the posteriors. */
  ghost predicate Moves(code: Code, q: Quantizer, starts: seq<nat>, p: Pipe, lam: seq<Column>, lam': seq<Column>,
                        step: Step)
    requires ValidCode(code) && GroupOk(code, starts, p.group) && |p.ub| == 2
  {
    match step
    case CastStep(m) =>
      Computes(code, q, lam, starts[p.group], starts[p.group + 1], Offered(code, starts, p), lam', m)
    case _ => lam' == lam
  }

  /** A step of the pipe, with the posteriors. */
  ghost predicate PipedBy(code: Code, q: Quantizer, starts: seq<nat>, u: Setup, s: Piped, s': Piped, step: Step)
    requires ValidCode(code)
  {
    && MessagePipe.Shaped(u, s.pipe) && GroupOk(code, starts, s.pipe.group)
    && NextBy(u, s.pipe, s'.pipe, step) && Moves(code, q, starts, s.pipe, s.lam, s'.lam, step)
  }

  lemma ShowsAgree(code: Code, st: State, st': State, lam: seq<Column>, a: nat, b: nat, m: Messages)
    requires Shows(code, st, lam, a, b, m) && Shows(code, st', lam, a, b, m)
    ensures Agree(code, st, st', a, b)
  {
    forall r: nat | a <= r < b
      ensures st.msg[r] == st'.msg[r]
    {
      assert st.msg[a..b][r - a] == st'.msg[a..b][r - a];
    }
  }

  lemma AgreeShows(code: Code, st: State, st': State, lam: seq<Column>, a: nat, b: nat, m: Messages)
    requires Agree(code, st, st', a, b) && Shows(code, st, lam, a, b, m)
    ensures Shows(code, st', lam, a, b, m)
  {
  }

  /** On the plain state's posteriors and messages a group computes exactly the plain state after it. */
  lemma ComputesPlain(code: Code, q: Quantizer, lam0: seq<Column>, n: nat, a: nat, b: nat, lam: seq<Column>,
                      old': Messages, lam': seq<Column>, m: Messages)
    requires ValidCode(code) && ChannelShaped(code, lam0) && a <= b <= |code.table|
    requires Shows(code, Plain(code, q, lam0, n, a), lam, a, b, old')
    ensures Computes(code, q, lam, a, b, old', lam', m) <==> Shows(code, Plain(code, q, lam0, n, b), lam', a, b, m)
  {
    var t' := PlainTrace(code, q, lam0, n, a, b);
    if Computes(code, q, lam, a, b, old', lam', m) {
      var t :| Leads(code, q, t, lam, a, b, old', lam', m);
      ShowsAgree(code, t[0], t'[0], lam, a, b, old');
      StepsAgree(code, q, t, t', a, b - a, b);
      AgreeShows(code, t[b - a], t'[b - a], lam', a, b, m);
    }
    if Shows(code, t'[b - a], lam', a, b, m) {
      assert Leads(code, q, t', lam, a, b, old', lam', m);
    }
  }

  // ---------- the invariant of every interleaving ----------

  ghost predicate Fits(code: Code, lam0: seq<Column>, starts: seq<nat>, u: Setup) {
    ValidCode(code) && ChannelShaped(code, lam0) && Tiling(code, starts) && |starts| == u.groups + 1
  }

  /** Row steps that the posteriors already include. */
  function StepsDone(code: Code, starts: seq<nat>, p: Pipe): nat
    requires p.group + 1 < |starts|
  {
    StepsIn(code, p.iter) + if p.phase == Issuing || p.phase == Done then starts[p.group + 1] else starts[p.group]
  }

  /** The reference holds the plain decoder's messages of group g after pass n. */
  ghost predicate PlainAt(code: Code, q: Quantizer, lam0: seq<Column>, starts: seq<nat>, r: Reference, n: nat, g: nat)
    requires ValidCode(code) && ChannelShaped(code, lam0)
  {
    n < |r| && g < |r[n]| && GroupOk(code, starts, g) && r[n][g] == PlainMessages(code, q, lam0, starts, n, g)
  }

  ghost predicate PlainTable(code: Code, q: Quantizer, lam0: seq<Column>, starts: seq<nat>, u: Setup, r: Reference)
    requires ValidCode(code) && ChannelShaped(code, lam0)
  {
    && |r| == u.iters && (forall n :: 0 <= n < |r| ==> |r[n]| == u.groups)
    && forall n: nat, g: nat :: n < u.iters && g < u.groups ==> PlainAt(code, q, lam0, starts, r, n, g)
  }

  /** Posteriors, slot and everything issued so far are the plain decoder's. */
  ghost predicate OnTrack(code: Code, q: Quantizer, lam0: seq<Column>, starts: seq<nat>, u: Setup, s: Piped,
                          r: Reference)
    requires Fits(code, lam0, starts, u)
  {
    && Inv(u, s.pipe) && FollowsRef(u, s.pipe, r)
    && s.lam == LayeredDecoder.Run(code, q, lam0, StepsDone(code, starts, s.pipe)).lam
  }

  lemma GroupRange(code: Code, lam0: seq<Column>, starts: seq<nat>, u: Setup, g: nat)
    requires Fits(code, lam0, starts, u) && g < u.groups
    ensures GroupOk(code, starts, g)
  {
  }

  lemma FirstPassIsPlain(code: Code, q: Quantizer, lam0: seq<Column>, a: nat, b: nat)
    requires ValidCode(code) && ChannelShaped(code, lam0) && a <= b <= |code.table|
    ensures Zeros(code, b - a) == Plain(code, q, lam0, 0, a).msg[a..b]
  {
    var z, m := Zeros(code, b - a), Plain(code, q, lam0, 0, a).msg[a..b];
    forall i: nat | i < b - a
      ensures z[i] == m[i]
    {
      RowUntouched(code, q, lam0, a, a + i);
    }
  }

  lemma LaterPassIsPlain(code: Code, q: Quantizer, lam0: seq<Column>, n: nat, a: nat, b: nat)
    requires ValidCode(code) && ChannelShaped(code, lam0) && a <= b <= |code.table|
    ensures Plain(code, q, lam0, n, b).msg[a..b] == Plain(code, q, lam0, n + 1, a).msg[a..b]
  {
    var was, now := Plain(code, q, lam0, n, b).msg[a..b], Plain(code, q, lam0, n + 1, a).msg[a..b];
    forall i: nat | i < b - a
      ensures was[i] == now[i]
    {
      RowKeptAcross(code, q, lam0, n, b, a, a + i);
    }
  }

  /** What a group subtracts is what the plain decoder has stored for its rows. */
  lemma OfferedIsPlain(code: Code, q: Quantizer, lam0: seq<Column>, starts: seq<nat>, p: Pipe, r: Reference)
    requires ValidCode(code) && ChannelShaped(code, lam0) && GroupOk(code, starts, p.group) && |p.ub| == 2
    requires p.phase == Casting && SlotIsRef(p, r)
    requires p.iter > 0 ==> PlainAt(code, q, lam0, starts, r, p.iter - 1, p.group)
    ensures var a, b := starts[p.group], starts[p.group + 1];
            Offered(code, starts, p) == Plain(code, q, lam0, p.iter, a).msg[a..b]
  {
    var a, b := starts[p.group], starts[p.group + 1];
    if p.iter == 0 {
      FirstPassIsPlain(code, q, lam0, a, b);
    } else {
      var before := p.iter - 1;
      LaterPassIsPlain(code, q, lam0, before, a, b);
      assert p.ub[SlotOf(p.group)] == Plain(code, q, lam0, before, b).msg[a..b];
    }
  }

  /** The cast leaves the plain posteriors, and sends the plain messages. */
  lemma CastIsPlain(code: Code, q: Quantizer, lam0: seq<Column>, starts: seq<nat>, p: Pipe, lam: seq<Column>,
                    lam': seq<Column>, m: Messages, r: Reference)
    requires ValidCode(code) && ChannelShaped(code, lam0) && GroupOk(code, starts, p.group) && |p.ub| == 2
    requires p.phase == Casting && SlotIsRef(p, r)
    requires p.iter > 0 ==> PlainAt(code, q, lam0, starts, r, p.iter - 1, p.group)
    requires PlainAt(code, q, lam0, starts, r, p.iter, p.group)
    requires lam == Plain(code, q, lam0, p.iter, starts[p.group]).lam
    requires Computes(code, q, lam, starts[p.group], starts[p.group + 1], Offered(code, starts, p), lam', m)
    ensures lam' == Plain(code, q, lam0, p.iter, starts[p.group + 1]).lam
    ensures IsRef(r, Key(p.iter, p.group), m)
  {
    var a, b := starts[p.group], starts[p.group + 1];
    OfferedIsPlain(code, q, lam0, starts, p, r);
    ComputesPlain(code, q, lam0, p.iter, a, b, lam, Offered(code, starts, p), lam', m);
  }

  lemma PlainIsRun(code: Code, q: Quantizer, lam0: seq<Column>, n: nat, j: nat, k: nat)
    requires ValidCode(code) && ChannelShaped(code, lam0) && k == StepsIn(code, n) + j
    ensures Plain(code, q, lam0, n, j).lam == LayeredDecoder.Run(code, q, lam0, k).lam
  {
  }

  // ---------- every step stays on track ----------

  /** Going on to the next group or pass takes no row step: the end of one pass is the start of the next. */
  lemma AdvanceTakesNoStep(code: Code, lam0: seq<Column>, starts: seq<nat>, u: Setup, p: Pipe)
    requires Fits(code, lam0, starts, u) && MessagePipe.Shaped(u, p)
    ensures Advance(u, p).group < u.groups
    ensures StepsDone(code, starts, Advance(u, p)) == StepsIn(code, p.iter) + starts[p.group + 1]
  {
  }

  /** The cast takes the group's row steps, every other step none. */
  lemma StepsTaken(code: Code, lam0: seq<Column>, starts: seq<nat>, u: Setup, p: Pipe, p': Pipe, step: Step)
    requires Fits(code, lam0, starts, u) && MessagePipe.Shaped(u, p) && NextBy(u, p, p', step)
    ensures p'.group < u.groups
    ensures StepsDone(code, starts, p')
         == if step.CastStep? then StepsIn(code, p.iter) + starts[p.group + 1] else StepsDone(code, starts, p)
    ensures step.CastStep? ==> StepsDone(code, starts, p) == StepsIn(code, p.iter) + starts[p.group]
  {
    AdvanceTakesNoStep(code, lam0, starts, u, p);
  }

  lemma TableRows(code: Code, q: Quantizer, lam0: seq<Column>, starts: seq<nat>, u: Setup, r: Reference, n: nat, g: nat)
    requires ValidCode(code) && ChannelShaped(code, lam0) && PlainTable(code, q, lam0, starts, u, r)
    requires n < u.iters && g < u.groups
    ensures PlainAt(code, q, lam0, starts, r, n, g)
    ensures n > 0 ==> PlainAt(code, q, lam0, starts, r, n - 1, g)
  {
    if n > 0 {
      var before := n - 1;
      assert PlainAt(code, q, lam0, starts, r, before, g);
    }
  }

  lemma CastOnTrack(code: Code, q: Quantizer, lam0: seq<Column>, starts: seq<nat>, p: Pipe, k: nat, k': nat,
                    lam: seq<Column>, lam': seq<Column>, m: Messages, r: Reference)
    requires ValidCode(code) && ChannelShaped(code, lam0) && GroupOk(code, starts, p.group) && |p.ub| == 2
    requires p.phase == Casting && SlotIsRef(p, r)
    requires p.iter > 0 ==> PlainAt(code, q, lam0, starts, r, p.iter - 1, p.group)
    requires PlainAt(code, q, lam0, starts, r, p.iter, p.group)
    requires k == StepsIn(code, p.iter) + starts[p.group] && k' == StepsIn(code, p.iter) + starts[p.group + 1]
    requires lam == LayeredDecoder.Run(code, q, lam0, k).lam
    requires Computes(code, q, lam, starts[p.group], starts[p.group + 1], Offered(code, starts, p), lam', m)
    ensures lam' == LayeredDecoder.Run(code, q, lam0, k').lam
    ensures IsRef(r, Key(p.iter, p.group), m)
  {
    PlainIsRun(code, q, lam0, p.iter, starts[p.group], k);
    CastIsPlain(code, q, lam0, starts, p, lam, lam', m, r);
    PlainIsRun(code, q, lam0, p.iter, starts[p.group + 1], k');
  }

  /** Every step leaves the plain posteriors for the row steps done so far. */
  lemma PosteriorsStayOnTrack(code: Code, q: Quantizer, lam0: seq<Column>, starts: seq<nat>, p: Pipe, lam: seq<Column>,
                              lam': seq<Column>, step: Step, r: Reference, k: nat, k': nat)
    requires ValidCode(code) && ChannelShaped(code, lam0) && GroupOk(code, starts, p.group) && |p.ub| == 2
    requires SlotIsRef(p, r) && (step.CastStep? ==> p.phase == Casting)
    requires p.iter > 0 ==> PlainAt(code, q, lam0, starts, r, p.iter - 1, p.group)
    requires PlainAt(code, q, lam0, starts, r, p.iter, p.group)
    requires if step.CastStep? then k == StepsIn(code, p.iter) + starts[p.group]
                                 && k' == StepsIn(code, p.iter) + starts[p.group + 1] else k == k'
    requires lam == LayeredDecoder.Run(code, q, lam0, k).lam && Moves(code, q, starts, p, lam, lam', step)
    ensures lam' == LayeredDecoder.Run(code, q, lam0, k').lam
    ensures step.CastStep? ==> IsRef(r, Key(p.iter, p.group), step.messages)
  {
    if step.CastStep? {
      CastOnTrack(code, q, lam0, starts, p, k, k', lam, lam', step.messages, r);
    }
  }

  lemma StepLeavesPosteriors(code: Code, q: Quantizer, lam0: seq<Column>, starts: seq<nat>, u: Setup, s: Piped,
                             s': Piped, step: Step, r: Reference)
    requires Fits(code, lam0, starts, u) && PlainTable(code, q, lam0, starts, u, r)
    requires PipedBy(code, q, starts, u, s, s', step) && SlotIsRef(s.pipe, r)
    requires s.lam == LayeredDecoder.Run(code, q, lam0, StepsDone(code, starts, s.pipe)).lam
    ensures s'.pipe.group < u.groups
    ensures s'.lam == LayeredDecoder.Run(code, q, lam0, StepsDone(code, starts, s'.pipe)).lam
    ensures step.CastStep? ==> IsRef(r, Key(s.pipe.iter, s.pipe.group), step.messages)
  {
    StepsTaken(code, lam0, starts, u, s.pipe, s'.pipe, step);
    TableRows(code, q, lam0, starts, u, r, s.pipe.iter, s.pipe.group);
    var k, k' := StepsDone(code, starts, s.pipe), StepsDone(code, starts, s'.pipe);
    PosteriorsStayOnTrack(code, q, lam0, starts, s.pipe, s.lam, s'.lam, step, r, k, k');
  }

  /** Every step of every interleaving stays with the plain decoder. */
  lemma StepStaysOnTrack(code: Code, q: Quantizer, lam0: seq<Column>, starts: seq<nat>, u: Setup, s: Piped, s': Piped,
                         step: Step, r: Reference)
    requires Fits(code, lam0, starts, u) && PlainTable(code, q, lam0, starts, u, r)
    requires OnTrack(code, q, lam0, starts, u, s, r) && PipedBy(code, q, starts, u, s, s', step)
    ensures OnTrack(code, q, lam0, starts, u, s', r)
  {
    StepLeavesPosteriors(code, q, lam0, starts, u, s, s', step, r);
    StepFollows(u, s.pipe, s'.pipe, step, r);
  }

  // ---------- whole runs ----------

  ghost predicate PipedNext(code: Code, q: Quantizer, starts: seq<nat>, u: Setup, s: Piped, s': Piped)
    requires ValidCode(code)
  {
    exists step :: PipedBy(code, q, starts, u, s, s', step)
  }

  ghost predicate PipedStepping(code: Code, q: Quantizer, starts: seq<nat>, u: Setup, run: seq<Piped>, i: nat)
    requires ValidCode(code) && i + 1 < |run|
  {
    PipedNext(code, q, starts, u, run[i], run[i + 1])
  }

  /** A run of the decoder from channel values lam0, in any interleaving of its stores. */
  ghost predicate PipedRun(code: Code, q: Quantizer, lam0: seq<Column>, starts: seq<nat>, u: Setup, run: seq<Piped>)
    requires ValidCode(code)
  {
    && |run| > 0 && Init(u, run[0].pipe) && run[0].lam == lam0
    && forall i: nat :: i + 1 < |run| ==> PipedStepping(code, q, starts, u, run, i)
  }

  lemma PlainTableExists(code: Code, q: Quantizer, lam0: seq<Column>, starts: seq<nat>, u: Setup) returns (r: Reference)
    requires Fits(code, lam0, starts, u)
    ensures PlainTable(code, q, lam0, starts, u, r)
  {
    r := seq(u.iters, n requires 0 <= n < u.iters => seq(u.groups, g requires 0 <= g < u.groups =>
           PlainMessages(code, q, lam0, starts, n, g)));
    forall n: nat, g: nat | n < u.iters && g < u.groups
      ensures PlainAt(code, q, lam0, starts, r, n, g)
    {
      GroupRange(code, lam0, starts, u, g);
    }
  }

  lemma StartsOnTrack(code: Code, q: Quantizer, lam0: seq<Column>, starts: seq<nat>, u: Setup, s: Piped, r: Reference)
    requires Fits(code, lam0, starts, u) && Init(u, s.pipe) && s.lam == lam0
    ensures OnTrack(code, q, lam0, starts, u, s, r)
  {
    InitInv(u, s.pipe);
    assert StepsDone(code, starts, s.pipe) == 0;
  }

  lemma {:induction false} RunStaysOnTrack(code: Code, q: Quantizer, lam0: seq<Column>, starts: seq<nat>, u: Setup,
                                           run: seq<Piped>, i: nat, r: Reference)
    requires Fits(code, lam0, starts, u) && PlainTable(code, q, lam0, starts, u, r)
    requires PipedRun(code, q, lam0, starts, u, run) && i < |run|
    ensures OnTrack(code, q, lam0, starts, u, run[i], r)
  {
    if i == 0 {
      StartsOnTrack(code, q, lam0, starts, u, run[0], r);
    } else {
      RunStaysOnTrack(code, q, lam0, starts, u, run, i - 1, r);
      assert PipedStepping(code, q, starts, u, run, i - 1);
      var step :| PipedBy(code, q, starts, u, run[i - 1], run[i], step);
      StepStaysOnTrack(code, q, lam0, starts, u, run[i - 1], run[i], step, r);
    }
  }

  /** However the stores interleave with the groups, at the export the posteriors are the plain decoder's. */
  lemma EveryInterleavingDecodes(code: Code, q: Quantizer, lam0: seq<Column>, starts: seq<nat>, u: Setup,
                                 run: seq<Piped>, i: nat)
    requires Fits(code, lam0, starts, u) && PipedRun(code, q, lam0, starts, u, run) && i < |run|
    requires run[i].pipe.phase == Done
    ensures run[i].lam == LayeredDecoder.Run(code, q, lam0, StepsIn(code, u.iters)).lam
  {
    var r := PlainTableExists(code, q, lam0, starts, u);
    RunStaysOnTrack(code, q, lam0, starts, u, run, i, r);
  }

  /** Whatever is issued for a group is what the plain decoder holds after that pass's step of the group, and
      whatever is reloaded is what it held after the pass before. */
  lemma EveryInterleavingSends(code: Code, q: Quantizer, lam0: seq<Column>, starts: seq<nat>, u: Setup, run: seq<Piped>,
                               i: nat, k: Key)
    requires Fits(code, lam0, starts, u) && PipedRun(code, q, lam0, starts, u, run) && i < |run|
    ensures k in run[i].pipe.sent ==>
      GroupOk(code, starts, k.group) && run[i].pipe.sent[k] == PlainMessages(code, q, lam0, starts, k.iter, k.group)
    ensures k in run[i].pipe.loaded ==>
      k.iter > 0 && GroupOk(code, starts, k.group) &&
      run[i].pipe.loaded[k] == PlainMessages(code, q, lam0, starts, k.iter - 1, k.group)
  {
    var r := PlainTableExists(code, q, lam0, starts, u);
    RunStaysOnTrack(code, q, lam0, starts, u, run, i, r);
    SentIsPlain(code, q, lam0, starts, u, run[i].pipe, r, k);
    if k in run[i].pipe.loaded {
      assert Reloaded(run[i].pipe, k);
      SentIsPlain(code, q, lam0, starts, u, run[i].pipe, r, Key(k.iter - 1, k.group));
    }
  }

  lemma SentIsPlain(code: Code, q: Quantizer, lam0: seq<Column>, starts: seq<nat>, u: Setup, p: Pipe, r: Reference,
                    k: Key)
    requires ValidCode(code) && ChannelShaped(code, lam0) && PlainTable(code, q, lam0, starts, u, r) && SentIsRef(p, r)
    ensures k in p.sent ==>
      GroupOk(code, starts, k.group) && p.sent[k] == PlainMessages(code, q, lam0, starts, k.iter, k.group)
  {
    if k in p.sent {
      assert IsRef(r, k, p.sent[k]);
      assert PlainAt(code, q, lam0, starts, r, k.iter, k.group);
    }
  }

  /** Before the export the decoder can always go on. */
  lemma NeverStuck(code: Code, q: Quantizer, lam0: seq<Column>, starts: seq<nat>, u: Setup, run: seq<Piped>, i: nat)
    returns (s': Piped)
    requires Fits(code, lam0, starts, u) && PipedRun(code, q, lam0, starts, u, run) && i < |run|
    requires run[i].pipe.phase != Done
    ensures PipedNext(code, q, starts, u, run[i], s')
  {
    var r := PlainTableExists(code, q, lam0, starts, u);
    RunStaysOnTrack(code, q, lam0, starts, u, run, i, r);
    s' := CanGoOn(code, q, lam0, starts, u, run[i], r);
  }

  lemma CanGoOn(code: Code, q: Quantizer, lam0: seq<Column>, starts: seq<nat>, u: Setup, s: Piped, r: Reference)
    returns (s': Piped)
    requires Fits(code, lam0, starts, u) && PlainTable(code, q, lam0, starts, u, r)
    requires OnTrack(code, q, lam0, starts, u, s, r) && s.pipe.phase != Done
    ensures PipedNext(code, q, starts, u, s, s')
  {
    var p := s.pipe;
    GroupRange(code, lam0, starts, u, p.group);
    var m := PlainMessages(code, q, lam0, starts, p.iter, p.group);
    var p', step := NoDeadlock(u, p, m);
    var lam' := s.lam;
    if step.CastStep? {
      PlainIsRun(code, q, lam0, p.iter, starts[p.group], StepsDone(code, starts, p));
      lam' := CastExists(code, q, lam0, starts, u, p, s.lam, m, r);
    }
    s' := Piped(p', lam');
    assert PipedBy(code, q, starts, u, s, s', step);
  }

  lemma CastExists(code: Code, q: Quantizer, lam0: seq<Column>, starts: seq<nat>, u: Setup, p: Pipe, lam: seq<Column>,
                   m: Messages, r: Reference) returns (lam': seq<Column>)
    requires ValidCode(code) && ChannelShaped(code, lam0) && PlainTable(code, q, lam0, starts, u, r)
    requires MessagePipe.Shaped(u, p) && SlotIsRef(p, r) && p.phase == Casting && GroupOk(code, starts, p.group)
    requires lam == Plain(code, q, lam0, p.iter, starts[p.group]).lam
    requires m == PlainMessages(code, q, lam0, starts, p.iter, p.group)
    ensures Computes(code, q, lam, starts[p.group], starts[p.group + 1], Offered(code, starts, p), lam', m)
  {
    TableRows(code, q, lam0, starts, u, r, p.iter, p.group);
    OfferedIsPlain(code, q, lam0, starts, p, r);
    lam' := ComputesSomething(code, q, lam0, p.iter, starts[p.group], starts[p.group + 1], lam,
                              Offered(code, starts, p), m);
  }

  lemma ComputesSomething(code: Code, q: Quantizer, lam0: seq<Column>, n: nat, a: nat, b: nat, lam: seq<Column>,
                          old': Messages, m: Messages) returns (lam': seq<Column>)
    requires ValidCode(code) && ChannelShaped(code, lam0) && a <= b <= |code.table|
    requires lam == Plain(code, q, lam0, n, a).lam && old' == Plain(code, q, lam0, n, a).msg[a..b]
    requires m == Plain(code, q, lam0, n, b).msg[a..b]
    ensures Computes(code, q, lam, a, b, old', lam', m)
  {
    lam' := Plain(code, q, lam0, n, b).lam;
    ComputesPlain(code, q, lam0, n, a, b, lam, old', lam', m);
  }

  // ---------- the whole of it ----------

  function Pipes(run: seq<Piped>): (pipes: seq<Pipe>)
    ensures |pipes| == |run|
  {
    seq(|run|, i requires 0 <= i < |run| => run[i].pipe)
  }

  lemma PipesRun(code: Code, q: Quantizer, lam0: seq<Column>, starts: seq<nat>, u: Setup, run: seq<Piped>)
    requires ValidCode(code) && PipedRun(code, q, lam0, starts, u, run)
    ensures MessagePipe.Run(u, Pipes(run))
  {
    forall i: nat | i + 1 < |run|
      ensures Stepping(u, Pipes(run), i)
    {
      assert PipedStepping(code, q, starts, u, run, i);
      var step :| PipedBy(code, q, starts, u, run[i], run[i + 1], step);
      assert NextBy(u, run[i].pipe, run[i + 1].pipe, step);
    }
  }

  /** Every run is finite, and one that cannot go on has reached the export with the plain decoder's posteriors. */
  lemma EveryRunDecodes(code: Code, q: Quantizer, lam0: seq<Column>, starts: seq<nat>, u: Setup, run: seq<Piped>)
    requires Fits(code, lam0, starts, u) && PipedRun(code, q, lam0, starts, u, run)
    ensures |run| <= 5 * (u.iters * u.groups) + 1
    ensures var last := run[|run| - 1];
            (forall s' :: !PipedNext(code, q, starts, u, last, s')) ==>
              last.pipe.phase == Done && last.lam == LayeredDecoder.Run(code, q, lam0, StepsIn(code, u.iters)).lam
  {
    PipesRun(code, q, lam0, starts, u, run);
    EveryRunExports(u, Pipes(run));
    var end := |run| - 1;
    if run[end].pipe.phase == Done {
      EveryInterleavingDecodes(code, q, lam0, starts, u, run, end);
    } else {
      var s' := NeverStuck(code, q, lam0, starts, u, run, end);
    }
  }

  /** The kernel's row groups from row br on: one row, or two where it fuses. */
  function KernelStarts(rows: nat, br: nat): (starts: seq<nat>)
    ensures |starts| >= 1 && starts[0] == br
    decreases rows - br
  {
    if br >= rows then [br] else [br] + KernelStarts(rows, br + if FuseNextRow(br) then 2 else 1)
  }

  lemma {:induction false} KernelGroups(code: Code, br: nat)
    requires ValidCode(code) && FusedRowsOk(code) && br <= |code.table|
    ensures var starts := KernelStarts(|code.table|, br);
            && starts[|starts| - 1] == |code.table|
            && forall g: nat :: g < |starts| - 1 ==> GroupOk(code, starts, g)
    decreases |code.table| - br
  {
    if br < |code.table| {
      var starts := KernelStarts(|code.table|, br);
      var next := br + if FuseNextRow(br) then 2 else 1;
      assert FuseNextRow(br) ==> FusedPairOk(code, br);
      KernelGroups(code, next);
      var rest := KernelStarts(|code.table|, next);
      assert starts == [br] + rest;
      forall g: nat | g < |starts| - 1
        ensures GroupOk(code, starts, g)
      {
        if g > 0 {
          var before := g - 1;
          assert GroupOk(code, rest, before);
        }
      }
    }
  }

  /** The kernel's grouping is one such tiling, so all of the above holds of it. */
  lemma KernelTiles(code: Code)
    requires ValidCode(code) && FusedRowsOk(code)
    ensures Tiling(code, KernelStarts(|code.table|, 0))
  {
    KernelGroups(code, 0);
  }
}
