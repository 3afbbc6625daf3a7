/**
 The two-slot message buffer as a state machine.

 The vector unit works through the row groups in program order. Its message stores are asynchronous:
 a store that has been issued copies the slot's contents to global memory at some later moment, in any
 order with respect to the other slot, and only then raises the slot's flag. Every interleaving is a run.
 */
module MessagePipe {

  /** The stored messages of one row group: row by row, column by column, check by check. */
  type Messages = seq<seq<seq<int>>>

  datatype Option<T> = None | Some(value: T)

  /** Where the current row group stands. */
  datatype Phase = Waiting | Loading | Casting | Issuing | Done

  datatype Key = Key(iter: nat, group: nat)

  /** iters passes over groups row groups. */
  datatype Setup = Setup(iters: nat, groups: nat)

  /**
   ub[s]: slot contents; gm[h]: stored messages of group h; inflight[s]: group whose store from slot s
   has been issued but not completed; flag[s]: raised by a completed store; pending[s]: the program's
   own note that it must still wait for that flag. sent and loaded record what was issued and reloaded.
   */
  datatype Pipe = Pipe(iter: nat, group: nat, phase: Phase, ub: seq<Messages>, gm: seq<Messages>,
                       inflight: seq<Option<nat>>, flag: seq<bool>, pending: seq<bool>, sent: map<Key, Messages>,
                       loaded: map<Key, Messages>)

  ghost predicate Shaped(u: Setup, p: Pipe) {
    && |p.ub| == |p.inflight| == |p.flag| == |p.pending| == 2 && |p.gm| == u.groups
    && p.iter < u.iters && p.group < u.groups
  }

  /** The sequence number restarts with every pass, so a group always uses the same slot. */
  function SlotOf(group: nat): (s: nat)
    ensures s < 2
  {
    group % 2
  }

  ghost predicate Init(u: Setup, p: Pipe) {
    && Shaped(u, p) && u.iters > 0 && u.groups > 0
    && p.iter == 0 && p.group == 0 && p.phase == Waiting
    && p.inflight == [None, None] && p.flag == [false, false] && p.pending == [false, false]
    && p.sent == map[] && p.loaded == map[]
  }

  // ---------- steps ----------

  /** An issued store finishes: it copies what the slot holds now. */
  ghost predicate Complete(u: Setup, p: Pipe, p': Pipe, s: nat)
    requires Shaped(u, p)
  {
    && s < 2 && p.inflight[s].Some? && p.inflight[s].value < u.groups
    && p' == p.(gm := p.gm[p.inflight[s].value := p.ub[s]], flag := p.flag[s := true],
                inflight := p.inflight[s := None])
  }

  /** Block until the slot's earlier store, if any, has raised its flag; then consume the flag. */
  ghost predicate Wait(u: Setup, p: Pipe, p': Pipe)
    requires Shaped(u, p)
  {
    var s := SlotOf(p.group);
    && p.phase == Waiting && (p.pending[s] ==> p.flag[s])
    && p' == if p.pending[s] then p.(phase := Loading, flag := p.flag[s := false], pending := p.pending[s := false])
             else p.(phase := Loading)
  }

  /** Reload the group's messages into its slot; the first pass has none. */
  ghost predicate Load(u: Setup, p: Pipe, p': Pipe)
    requires Shaped(u, p)
  {
    && p.phase == Loading
    && p' == if p.iter == 0 then p.(phase := Casting)
             else p.(phase := Casting, ub := p.ub[SlotOf(p.group) := p.gm[p.group]],
                     loaded := p.loaded[Key(p.iter, p.group) := p.gm[p.group]])
  }

  /** On to the next group, the next pass, or the export. */
  ghost function Advance(u: Setup, p: Pipe): Pipe
    requires Shaped(u, p)
  {
    if p.group + 1 < u.groups then p.(group := p.group + 1, phase := Waiting)
    else if p.iter + 1 < u.iters then p.(iter := p.iter + 1, group := 0, phase := Waiting)
    else p.(phase := Done)
  }

  /** Write the new messages into the slot; the last pass keeps none. */
  ghost predicate Cast(u: Setup, p: Pipe, p': Pipe, v: Messages)
    requires Shaped(u, p)
  {
    && p.phase == Casting
    && p' == if p.iter + 1 < u.iters then p.(phase := Issuing, ub := p.ub[SlotOf(p.group) := v]) else Advance(u, p)
  }

  /** Start the store and note that its flag must be awaited. */
  ghost predicate Issue(u: Setup, p: Pipe, p': Pipe)
    requires Shaped(u, p)
  {
    var s := SlotOf(p.group);
    && p.phase == Issuing
    && p' == Advance(u, p.(inflight := p.inflight[s := Some(p.group)], pending := p.pending[s := true],
                           sent := p.sent[Key(p.iter, p.group) := p.ub[s]]))
  }

  datatype Step = CompleteStep(slot: nat) | WaitStep | LoadStep | CastStep(messages: Messages) | IssueStep

  ghost predicate NextBy(u: Setup, p: Pipe, p': Pipe, step: Step)
    requires Shaped(u, p)
  {
    match step
    case CompleteStep(s) => Complete(u, p, p', s)
    case WaitStep => Wait(u, p, p')
    case LoadStep => Load(u, p, p')
    case CastStep(v) => Cast(u, p, p', v)
    case IssueStep => Issue(u, p, p')
  }

  ghost predicate Next(u: Setup, p: Pipe, p': Pipe)
    requires Shaped(u, p)
  {
    exists step :: NextBy(u, p, p', step)
  }

  // ---------- the invariant ----------

  /** A slot that must be awaited has either a running store or a raised flag; one that need not has neither. */
  ghost predicate SlotTracked(u: Setup, p: Pipe, s: nat)
    requires Shaped(u, p) && s < 2
  {
    && p.pending[s] == (p.flag[s] || p.inflight[s].Some?)
    && !(p.flag[s] && p.inflight[s].Some?)
    && (p.pending[s] ==> s < u.groups)
    && (p.inflight[s].Some? ==> p.inflight[s].value < u.groups && SlotOf(p.inflight[s].value) == s)
  }

  /** The pass whose messages of group h were issued last; -1 when none were. */
  function LastSent(u: Setup, p: Pipe, h: nat): int {
    if h < p.group && p.iter + 1 < u.iters then p.iter else p.iter - 1
  }

  /** Global memory holds the group's latest messages, or a running store is about to put them there. */
  ghost predicate GroupTracked(u: Setup, p: Pipe, h: nat)
    requires Shaped(u, p) && h < u.groups
  {
    var i, s := LastSent(u, p, h), SlotOf(h);
    && (i < 0 ==> p.inflight[s] != Some(h))
    && (i >= 0 ==>
      && Key(i, h) in p.sent
      && (if p.inflight[s] == Some(h) then p.ub[s] == p.sent[Key(i, h)] else p.gm[h] == p.sent[Key(i, h)]))
  }

  ghost predicate Reloaded(p: Pipe, k: Key)
    requires k in p.loaded
  {
    k.iter > 0 && Key(k.iter - 1, k.group) in p.sent && p.loaded[k] == p.sent[Key(k.iter - 1, k.group)]
  }

  /** Past its wait, the current group's slot is free. */
  ghost predicate CurrentFree(u: Setup, p: Pipe)
    requires Shaped(u, p)
  {
    p.phase == Loading || p.phase == Casting || p.phase == Issuing ==> !p.pending[SlotOf(p.group)]
  }

  /** In the last pass, a slot still to be awaited belongs to a group still to come. */
  ghost predicate Draining(u: Setup, p: Pipe, s: nat)
    requires Shaped(u, p) && s < 2
  {
    p.iter + 1 >= u.iters && p.pending[s] ==> p.phase != Done && p.group <= s && (p.group == s ==> p.phase == Waiting)
  }

  /** Only finished passes and the current one have issued anything. */
  ghost predicate SentBy(u: Setup, p: Pipe, k: Key) {
    k.iter < p.iter || (k.iter == p.iter && k.group < p.group) || p.phase == Done
  }

  ghost predicate Inv(u: Setup, p: Pipe) {
    && Shaped(u, p) && u.iters > 0 && u.groups > 0
    && (p.phase == Issuing ==> p.iter + 1 < u.iters)
    && (p.phase == Done ==> p.iter + 1 == u.iters && p.group + 1 == u.groups)
    && (forall s: nat :: s < 2 ==> SlotTracked(u, p, s))
    && (forall h: nat :: h < u.groups ==> GroupTracked(u, p, h))
    && (forall k: Key :: k in p.loaded ==> Reloaded(p, k))
    && (forall k: Key :: k in p.sent ==> SentBy(u, p, k))
    && (forall s: nat :: s < 2 ==> Draining(u, p, s))
    && CurrentFree(u, p)
  }

  lemma InitInv(u: Setup, p: Pipe)
    requires Init(u, p)
    ensures Inv(u, p)
  {
  }

  lemma CompleteKeeps(u: Setup, p: Pipe, p': Pipe, s: nat)
    requires Inv(u, p) && Complete(u, p, p', s)
    ensures Inv(u, p')
  {
    assert SlotTracked(u, p, s);
    forall h: nat | h < u.groups
      ensures GroupTracked(u, p', h)
    {
      assert GroupTracked(u, p, h);
    }
    forall t: nat | t < 2
      ensures SlotTracked(u, p', t) && Draining(u, p', t)
    {
      assert SlotTracked(u, p, t) && Draining(u, p, t);
    }
  }

  lemma WaitKeeps(u: Setup, p: Pipe, p': Pipe)
    requires Inv(u, p) && Wait(u, p, p')
    ensures Inv(u, p')
  {
    forall h: nat | h < u.groups
      ensures GroupTracked(u, p', h)
    {
      assert GroupTracked(u, p, h);
    }
    forall t: nat | t < 2
      ensures SlotTracked(u, p', t) && Draining(u, p', t)
    {
      assert SlotTracked(u, p, t) && Draining(u, p, t);
    }
  }

  lemma LoadKeeps(u: Setup, p: Pipe, p': Pipe)
    requires Inv(u, p) && Load(u, p, p')
    ensures Inv(u, p')
  {
    var s := SlotOf(p.group);
    assert SlotTracked(u, p, s) && GroupTracked(u, p, p.group);
    forall h: nat | h < u.groups
      ensures GroupTracked(u, p', h)
    {
      assert GroupTracked(u, p, h);
    }
    forall t: nat | t < 2
      ensures SlotTracked(u, p', t) && Draining(u, p', t)
    {
      assert SlotTracked(u, p, t) && Draining(u, p, t);
    }
    forall k: Key | k in p'.loaded
      ensures Reloaded(p', k)
    {
      if k in p.loaded {
        assert Reloaded(p, k);
      }
    }
  }

  lemma CastKeeps(u: Setup, p: Pipe, p': Pipe, v: Messages)
    requires Inv(u, p) && Cast(u, p, p', v)
    ensures Inv(u, p')
  {
    assert SlotTracked(u, p, SlotOf(p.group));
    forall h: nat | h < u.groups
      ensures GroupTracked(u, p', h)
    {
      assert GroupTracked(u, p, h);
    }
    forall t: nat | t < 2
      ensures SlotTracked(u, p', t) && Draining(u, p', t)
    {
      assert SlotTracked(u, p, t) && Draining(u, p, t);
    }
    forall k: Key | k in p'.loaded
      ensures Reloaded(p', k)
    {
      assert Reloaded(p, k);
    }
    forall k: Key | k in p'.sent
      ensures SentBy(u, p', k)
    {
      assert SentBy(u, p, k);
    }
  }

  lemma IssueKeeps(u: Setup, p: Pipe, p': Pipe)
    requires Inv(u, p) && Issue(u, p, p')
    ensures Inv(u, p')
  {
    assert SlotTracked(u, p, SlotOf(p.group));
    forall h: nat | h < u.groups
      ensures GroupTracked(u, p', h)
    {
      assert GroupTracked(u, p, h);
    }
    forall t: nat | t < 2
      ensures SlotTracked(u, p', t) && Draining(u, p', t)
    {
      assert SlotTracked(u, p, t) && Draining(u, p, t);
    }
    forall k: Key | k in p'.loaded
      ensures Reloaded(p', k)
    {
      assert Reloaded(p, k);
      assert Key(k.iter - 1, k.group) in p.sent;
      assert !SentBy(u, p, Key(p.iter, p.group));
    }
    forall k: Key | k in p'.sent
      ensures SentBy(u, p', k)
    {
      assert k in p.sent ==> SentBy(u, p, k);
    }
  }

  /** Every step of every interleaving keeps the invariant. */
  lemma StepKeeps(u: Setup, p: Pipe, p': Pipe)
    requires Inv(u, p) && Next(u, p, p')
    ensures Inv(u, p')
  {
    var step :| NextBy(u, p, p', step);
    match step
    case CompleteStep(s) => CompleteKeeps(u, p, p', s);
    case WaitStep => WaitKeeps(u, p, p');
    case LoadStep => LoadKeeps(u, p, p');
    case CastStep(v) => CastKeeps(u, p, p', v);
    case IssueStep => IssueKeeps(u, p, p');
  }

  // ---------- whole runs ----------

  ghost predicate Stepping(u: Setup, run: seq<Pipe>, i: nat)
    requires i + 1 < |run|
  {
    Shaped(u, run[i]) && Next(u, run[i], run[i + 1])
  }

  /** A run from a start state, one step of the program or of a store at a time. */
  ghost predicate Run(u: Setup, run: seq<Pipe>) {
    && |run| > 0 && Init(u, run[0])
    && forall i: nat :: i + 1 < |run| ==> Stepping(u, run, i)
  }

  lemma {:induction false} RunInv(u: Setup, run: seq<Pipe>, i: nat)
    requires Run(u, run) && i < |run|
    ensures Inv(u, run[i])
  {
    if i == 0 {
      InitInv(u, run[0]);
    } else {
      RunInv(u, run, i - 1);
      assert Stepping(u, run, i - 1);
      StepKeeps(u, run[i - 1], run[i]);
    }
  }

  /** A slot is written (by a reload or by new messages) only when no store from it is running or unacknowledged. */
  lemma SlotNeverOverwritten(u: Setup, run: seq<Pipe>, i: nat, s: nat)
    requires Run(u, run) && i + 1 < |run| && s < 2 && Shaped(u, run[i]) && Shaped(u, run[i + 1])
    requires run[i + 1].ub[s] != run[i].ub[s]
    ensures run[i].inflight[s].None? && !run[i].flag[s] && !run[i].pending[s]
  {
    RunInv(u, run, i);
    assert Stepping(u, run, i) && SlotTracked(u, run[i], s);
  }

  /** Whatever a pass reloads for a group is exactly what the pass before it issued for that group. */
  lemma ReloadSeesPreviousPass(u: Setup, run: seq<Pipe>, i: nat, k: Key)
    requires Run(u, run) && i < |run| && k in run[i].loaded
    ensures k.iter > 0 && Key(k.iter - 1, k.group) in run[i].sent
    ensures run[i].loaded[k] == run[i].sent[Key(k.iter - 1, k.group)]
  {
    RunInv(u, run, i);
    assert Reloaded(run[i], k);
  }

  /** The messages the pass before the last issued for group h have arrived. */
  ghost predicate Landed(p: Pipe, iter: int, h: nat) {
    iter >= 0 ==> Key(iter, h) in p.sent && h < |p.gm| && p.gm[h] == p.sent[Key(iter, h)]
  }

  /** When the export starts, no store is running, no flag is left for the export to trip over, and
      global memory holds the last messages issued. */
  lemma FlagsConsumedBeforeExport(u: Setup, run: seq<Pipe>, i: nat, last: int)
    requires Run(u, run) && i < |run| && run[i].phase == Done && last == u.iters - 2
    ensures run[i].inflight == [None, None] && run[i].flag == [false, false] && run[i].pending == [false, false]
    ensures forall h: nat :: h < u.groups ==> Landed(run[i], last, h)
  {
    RunInv(u, run, i);
    var p := run[i];
    assert SlotTracked(u, p, 0) && SlotTracked(u, p, 1) && Draining(u, p, 0) && Draining(u, p, 1);
    forall h: nat | h < u.groups
      ensures Landed(p, last, h)
    {
      assert GroupTracked(u, p, h);
      assert p.inflight[SlotOf(h)].None?;
    }
  }

  /** No run blocks for ever: before the export some step can always be taken, whatever messages v come next. */
  lemma NoDeadlock(u: Setup, p: Pipe, v: Messages) returns (p': Pipe, step: Step)
    requires Inv(u, p) && p.phase != Done
    ensures NextBy(u, p, p', step) && (step.CastStep? ==> step.messages == v)
  {
    var s := SlotOf(p.group);
    match p.phase
    case Waiting =>
      assert SlotTracked(u, p, s);
      if p.pending[s] && !p.flag[s] {
        p' := p.(gm := p.gm[p.inflight[s].value := p.ub[s]], flag := p.flag[s := true],
                 inflight := p.inflight[s := None]);
        step := CompleteStep(s);
      } else {
        p' := if p.pending[s] then p.(phase := Loading, flag := p.flag[s := false], pending := p.pending[s := false])
              else p.(phase := Loading);
        step := WaitStep;
      }
    case Loading =>
      p' := if p.iter == 0 then p.(phase := Casting)
            else p.(phase := Casting, ub := p.ub[s := p.gm[p.group]],
                    loaded := p.loaded[Key(p.iter, p.group) := p.gm[p.group]]);
      step := LoadStep;
    case Casting =>
      p' := if p.iter + 1 < u.iters then p.(phase := Issuing, ub := p.ub[s := v]) else Advance(u, p);
      step := CastStep(v);
    case Issuing =>
      p' := Advance(u, p.(inflight := p.inflight[s := Some(p.group)], pending := p.pending[s := true],
                          sent := p.sent[Key(p.iter, p.group) := p.ub[s]]));
      step := IssueStep;
  }

  // ---------- how long a run can be ----------

  /** Group visits in n passes. */
  function Visits(groups: nat, n: nat): nat {
    if n == 0 then 0 else Visits(groups, n - 1) + groups
  }

  lemma {:induction false} VisitsIsProduct(groups: nat, n: nat)
    ensures Visits(groups, n) == n * groups
  {
    if n > 0 {
      VisitsIsProduct(groups, n - 1);
    }
  }

  lemma {:induction false} VisitsGrow(groups: nat, m: nat, n: nat)
    requires m <= n
    ensures Visits(groups, m) <= Visits(groups, n)
  {
    if m < n {
      VisitsGrow(groups, m, n - 1);
    }
  }

  function PhaseRank(ph: Phase): nat {
    match ph case Waiting => 5 case Loading => 4 case Casting => 3 case Issuing => 2 case Done => 0
  }

  function Running(o: Option<nat>): nat {
    if o.Some? then 1 else 0
  }

  /** At most this many steps are left: five for every later visit, the rest of this one, the running stores. */
  function StepsLeft(u: Setup, p: Pipe): int
    requires |p.inflight| == 2
  {
    5 * (Visits(u.groups, u.iters) - Visits(u.groups, p.iter) - p.group - 1) + PhaseRank(p.phase)
    + Running(p.inflight[0]) + Running(p.inflight[1])
  }

  /** On to the next visit, or out: five steps fewer, of which a new visit's first phase takes five. */
  lemma AdvanceProgresses(u: Setup, p: Pipe)
    requires Shaped(u, p) && |p.inflight| == 2
    ensures StepsLeft(u, Advance(u, p)) <= StepsLeft(u, p) - PhaseRank(p.phase)
    ensures Advance(u, p).phase == Done || Advance(u, p).phase == Waiting
  {
  }

  lemma StepsLeftNat(u: Setup, p: Pipe)
    requires Shaped(u, p)
    ensures StepsLeft(u, p) >= 0
  {
    VisitsGrow(u.groups, p.iter + 1, u.iters);
  }

  /** Every step leaves less to do. */
  lemma EveryStepProgresses(u: Setup, p: Pipe, p': Pipe)
    requires Inv(u, p) && Next(u, p, p')
    ensures Shaped(u, p') && 0 <= StepsLeft(u, p') < StepsLeft(u, p)
  {
    StepKeeps(u, p, p');
    StepsLeftNat(u, p');
    var step :| NextBy(u, p, p', step);
    var s := SlotOf(p.group);
    match step
    case CastStep(_) => AdvanceProgresses(u, p);
    case IssueStep =>
      assert SlotTracked(u, p, s);
      AdvanceProgresses(u, p.(inflight := p.inflight[s := Some(p.group)], pending := p.pending[s := true],
                              sent := p.sent[Key(p.iter, p.group) := p.ub[s]]));
    case _ =>
  }

  lemma {:induction false} StepsLeftAfter(u: Setup, run: seq<Pipe>, i: nat)
    requires Run(u, run) && i < |run|
    ensures Inv(u, run[i]) && 0 <= StepsLeft(u, run[i]) <= 5 * Visits(u.groups, u.iters) - i
  {
    RunInv(u, run, i);
    if i == 0 {
      VisitsGrow(u.groups, 1, u.iters);
    } else {
      StepsLeftAfter(u, run, i - 1);
      assert Stepping(u, run, i - 1);
      EveryStepProgresses(u, run[i - 1], run[i]);
    }
  }

  /** Every run is finite, with at most five steps per visit of a group, and one that cannot go on is at the export. */
  lemma EveryRunExports(u: Setup, run: seq<Pipe>)
    requires Run(u, run)
    ensures |run| <= 5 * (u.iters * u.groups) + 1
    ensures var last := run[|run| - 1]; Shaped(u, last) && ((forall p' :: !Next(u, last, p')) ==> last.phase == Done)
  {
    var last := run[|run| - 1];
    StepsLeftAfter(u, run, |run| - 1);
    VisitsIsProduct(u.groups, u.iters);
    if last.phase != Done {
      var p', step := NoDeadlock(u, last, []);
      assert Next(u, last, p');
    }
  }

  // ---------- a reference for what is cast ----------

  /** ref[n][g] is what group g is to send in pass n. */
  type Reference = seq<seq<Messages>>

  ghost predicate IsRef(r: Reference, k: Key, m: Messages) {
    k.iter < |r| && k.group < |r[k.iter]| && m == r[k.iter][k.group]
  }

  ghost predicate SentIsRef(p: Pipe, r: Reference) {
    forall k: Key :: k in p.sent ==> IsRef(r, k, p.sent[k])
  }

  /** After the reload the slot holds what the pass before sent, after the cast what this one sends. */
  ghost predicate SlotIsRef(p: Pipe, r: Reference)
    requires |p.ub| == 2
  {
    var m := p.ub[SlotOf(p.group)];
    && (p.phase == Casting && p.iter > 0 ==> IsRef(r, Key(p.iter - 1, p.group), m))
    && (p.phase == Issuing ==> IsRef(r, Key(p.iter, p.group), m))
  }

  /** If every cast follows the reference, so does everything sent and everything a cast finds in its slot. */
  ghost predicate FollowsRef(u: Setup, p: Pipe, r: Reference) {
    Shaped(u, p) && SentIsRef(p, r) && SlotIsRef(p, r)
  }

  lemma LoadFollows(u: Setup, p: Pipe, p': Pipe, r: Reference)
    requires FollowsRef(u, p, r) && Load(u, p, p')
    requires p.iter > 0 ==> Reloaded(p', Key(p.iter, p.group))
    ensures FollowsRef(u, p', r)
  {
    if p.iter > 0 {
      var k := Key(p.iter - 1, p.group);
      assert IsRef(r, k, p.sent[k]);
    }
  }

  lemma CastFollows(u: Setup, p: Pipe, p': Pipe, v: Messages, r: Reference)
    requires FollowsRef(u, p, r) && Cast(u, p, p', v) && IsRef(r, Key(p.iter, p.group), v)
    ensures FollowsRef(u, p', r)
  {
  }

  lemma IssueFollows(u: Setup, p: Pipe, p': Pipe, r: Reference)
    requires FollowsRef(u, p, r) && Issue(u, p, p')
    ensures FollowsRef(u, p', r)
  {
  }

  /** One step of any kind, when a cast follows the reference. */
  lemma StepFollows(u: Setup, p: Pipe, p': Pipe, step: Step, r: Reference)
    requires Inv(u, p) && FollowsRef(u, p, r) && NextBy(u, p, p', step)
    requires step.CastStep? ==> IsRef(r, Key(p.iter, p.group), step.messages)
    ensures Inv(u, p') && FollowsRef(u, p', r)
  {
    assert Next(u, p, p');
    StepKeeps(u, p, p');
    match step
    case LoadStep => LoadFollows(u, p, p', r);
    case CastStep(v) => CastFollows(u, p, p', v, r);
    case IssueStep => IssueFollows(u, p, p', r);
    case _ =>
  }
}
