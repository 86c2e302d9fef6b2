/** The pass driver (`partition`): the initial partition, a full recount,
    then FM passes until one gains nothing, 150 passes have run, or the
    gains of the last five passes after pass 100 add up to less than 20. */
module Driver {
  import opened Hypergraph
  import opened Recount
  import opened Gain
  import opened Update
  import opened Affinity
  import opened FMPass
  import Parser

  const MaxPasses: nat := 150
  const EarlyBreakTime: nat := 100
  /** The best partial sum the loop starts from, so that the first pass always runs. */
  const StartMPS: int := 777
  /** The early break needs the last five best partial sums to add up to less than this. */
  const WindowFloor: int := 20

  /** Why the pass loop stopped. */
  datatype Stop =
    | NoGain          // the last pass returned a best partial sum <= 0
    | PassLimit       // 150 passes ran, each with a positive best partial sum
    | EarlyBreak      // past pass 100 the five-pass window fell below 20
    | NoFeasibleCell  // a pass reached a step with no cell allowed to move

  /** The cut reduction of a run of passes: each pass lowers the cut by its
      best partial sum when that is positive. */
  function Drop(history: seq<int>): int {
    if |history| == 0 then 0
    else Drop(history[..|history| - 1]) + (if history[|history| - 1] > 0 then history[|history| - 1] else 0)
  }

  function Sum5(w: seq<int>): int
    requires |w| == 5
  {
    w[0] + w[1] + w[2] + w[3] + w[4]
  }

  /** The sum of the best partial sums of the last five passes. */
  function Window(history: seq<int>): int
    requires |history| >= 5
  {
    var n := |history|;
    history[n - 5] + history[n - 4] + history[n - 3] + history[n - 2] + history[n - 1]
  }

  /** Slot `(k + 1) % 5` of the five-slot window holds the result of pass
      k + 1, for each of the last five passes. */
  predicate WindowHolds(count5: seq<int>, history: seq<int>) {
    |count5| == 5 && forall k :: 0 <= k < |history| && |history| - 5 <= k ==> count5[(k + 1) % 5] == history[k]
  }

  lemma WindowStep(count5: seq<int>, history: seq<int>, mps: int)
    requires WindowHolds(count5, history)
    ensures WindowHolds(count5[(|history| + 1) % 5 := mps], history + [mps])
  {
    var h := history + [mps];
    var w := count5[(|history| + 1) % 5 := mps];
    forall k | 0 <= k < |h| && |h| - 5 <= k
      ensures w[(k + 1) % 5] == h[k]
    {
      if k < |history| {
        assert (k + 1) % 5 != (|history| + 1) % 5;
      }
    }
  }

  /** Once five passes have run, the five slots add up to the window. */
  lemma WindowSum(count5: seq<int>, history: seq<int>)
    requires WindowHolds(count5, history) && |history| >= 5
    ensures Sum5(count5) == Window(history)
  {
    var n := |history|;
    assert count5[(n - 4) % 5] == history[n - 5];
    assert count5[(n - 3) % 5] == history[n - 4];
    assert count5[(n - 2) % 5] == history[n - 3];
    assert count5[(n - 1) % 5] == history[n - 2];
    assert count5[n % 5] == history[n - 1];
  }

  lemma {:induction false} DropNonNegative(history: seq<int>)
    ensures Drop(history) >= 0
  {
    if |history| > 0 {
      DropNonNegative(history[..|history| - 1]);
    }
  }

  /** The arenas after the initial partition and the recount `partition`
      does before its first pass: `affine` is what `logicAffinity` left
      (with its stage-1 claims `claimed` and `taken`), and the recount keeps
      its sides while making the engine ready for FM; only sides, locks,
      gains and per-net counts differ from `p0`. */
  method Initial(p0: Partitioner) returns (p: Partitioner, affine: Partitioner, claimed: seq<Cell>, taken: seq<nat>)
    requires Structure(p0.cells, p0.nets) && p0.cellNum == |p0.cells|
    ensures Affined(p0, affine, claimed, taken) && Parts(p.cells) == Parts(affine.cells)
    ensures Ready(p) && SameShape(p0.cells, p0.nets, p.cells, p.nets)
    ensures p == p0.(cells := p.cells, nets := p.nets, partSize0 := p.partSize0, partSize1 := p.partSize1,
                     cutSize := p.cutSize, maxPinNum := p.maxPinNum)
    ensures p.maxPinNum == 0 || exists c :: 0 <= c < |p.cells| && p.cells[c].pinNum == p.maxPinNum
  {
    affine, claimed, taken := Affine(p0);
    var counted := Recompute(affine, affine.cells, affine.nets);
    var maxPinNum := CountMaxPinNum(counted.cells);
    p := counted.(maxPinNum := maxPinNum);
    assert Counted(p);
  }

  /** `logicAffinity`, as the driver sees it: its outcome, and the
      circuit's shape left alone. */
  method Affine(p0: Partitioner) returns (q: Partitioner, claimed: seq<Cell>, taken: seq<nat>)
    requires Structure(p0.cells, p0.nets)
    ensures Affined(p0, q, claimed, taken)
    ensures Structure(q.cells, q.nets) && SameShape(p0.cells, p0.nets, q.cells, q.nets)
    ensures q == p0.(cells := q.cells, partSize0 := q.partSize0, partSize1 := q.partSize1)
  {
    q, claimed, taken := LogicAffinity(p0);
    assert SameShape(p0.cells, p0.nets, q.cells, q.nets);
    SameShapeKeepsStructure(p0.cells, p0.nets, q.cells, q.nets);
  }

  /** The trace of the pass loop from `start`: `states[k]` is the engine
      before pass k + 1 and `runs[k]` that pass's outcome; every completed
      pass led from one state to the next with the result recorded in
      `history`, and a pass that found no cell allowed to move, if any,
      is the last one and left `p` as it was. */
  ghost predicate Ran(start: Partitioner, p: Partitioner, history: seq<int>, states: seq<Partitioner>, runs: seq<PassResult>) {
    && |states| == |history| + 1 && states[0] == start && states[|history|] == p
    && |history| <= |runs| <= |history| + 1
    && Outcomes(states, runs)
    && (forall k :: 0 <= k < |history| ==>
          runs[k].Passed? && runs[k].p == states[k + 1] && runs[k].maxPartialSum == history[k])
    && (|runs| > |history| ==> runs[|history|].NoFeasibleMove?)
  }

  /** Pass k + 1 of the trace has the outcome FM promises from the state
      it started in, for every k. */
  ghost predicate Outcomes(states: seq<Partitioner>, runs: seq<PassResult>)
    requires |runs| <= |states|
    decreases |runs|
  {
    |runs| == 0 || (Outcomes(states, runs[..|runs| - 1]) && PassOutcome(states[|runs| - 1], runs[|runs| - 1]))
  }

  /** Every pass of a trace has FM's outcome from its own start state. */
  lemma {:induction false} OutcomeAt(states: seq<Partitioner>, runs: seq<PassResult>, k: nat)
    requires |runs| <= |states| && Outcomes(states, runs) && k < |runs|
    ensures PassOutcome(states[k], runs[k])
  {
    if k < |runs| - 1 {
      OutcomeAt(states, runs[..|runs| - 1], k);
    }
  }

  /** States past the last pass do not affect the outcomes. */
  lemma {:induction false} OutcomesExtend(states: seq<Partitioner>, runs: seq<PassResult>, x: Partitioner)
    requires |runs| <= |states| && Outcomes(states, runs)
    ensures Outcomes(states + [x], runs)
  {
    if |runs| > 0 {
      OutcomesExtend(states, runs[..|runs| - 1], x);
      assert (states + [x])[|runs| - 1] == states[|runs| - 1];
    }
  }

  /** One more pass from the last state extends the outcomes. */
  lemma OutcomesStep(states: seq<Partitioner>, runs: seq<PassResult>, p: Partitioner, r: PassResult, x: Partitioner)
    requires |runs| + 1 == |states| && Outcomes(states, runs) && states[|runs|] == p && PassOutcome(p, r)
    ensures Outcomes(states + [x], runs + [r])
  {
    OutcomesExtend(states, runs, x);
    assert (states + [x])[|runs|] == p;
    OutcomeLast(states + [x], runs, p, r);
  }

  /** A completed pass extends the trace by one state. */
  lemma RanStep(start: Partitioner, p: Partitioner, history: seq<int>, states: seq<Partitioner>, runs: seq<PassResult>, r: PassResult)
    requires Ran(start, p, history, states, runs) && |runs| == |history|
    requires r.Passed? && Outcomes(states + [r.p], runs + [r])
    ensures Ran(start, r.p, history + [r.maxPartialSum], states + [r.p], runs + [r])
  {
    var history', states', runs' := history + [r.maxPartialSum], states + [r.p], runs + [r];
    forall k | 0 <= k < |history'|
      ensures runs'[k].Passed? && runs'[k].p == states'[k + 1] && runs'[k].maxPartialSum == history'[k]
    {
      if k < |history| {
        assert states'[k + 1] == states[k + 1] && runs'[k] == runs[k];
      }
    }
  }

  /** A pass that found no cell allowed to move closes the trace. */
  lemma RanStuck(start: Partitioner, p: Partitioner, history: seq<int>, states: seq<Partitioner>, runs: seq<PassResult>, r: PassResult)
    requires Ran(start, p, history, states, runs) && |runs| == |history|
    requires r.NoFeasibleMove? && Outcomes(states, runs + [r])
    ensures Ran(start, p, history, states, runs + [r])
  {
  }

  /** A pass from the state after the recorded ones extends the outcomes. */
  lemma OutcomeLast(states: seq<Partitioner>, runs: seq<PassResult>, p: Partitioner, r: PassResult)
    requires |runs| < |states| && Outcomes(states, runs) && states[|runs|] == p && PassOutcome(p, r)
    ensures Outcomes(states, runs + [r])
  {
    assert (runs + [r])[..|runs|] == runs;
  }

  /** One completed pass from `q` to `q'` with best partial sum `h`: only
      sides, locks, gains and counts change, and, when no net lists a cell
      twice, the cut drops by `h` when it is positive. */
  ghost predicate Stepped(q: Partitioner, q': Partitioner, h: int) {
    && SameShape(q.cells, q.nets, q'.cells, q'.nets)
    && q' == q.(cells := q'.cells, nets := q'.nets, partSize0 := q'.partSize0, partSize1 := q'.partSize1, cutSize := q'.cutSize)
    && (RepeatFree(q.nets) ==> RepeatFree(q'.nets) && q'.cutSize == q.cutSize - (if h > 0 then h else 0))
  }

  /** Along a chain of completed passes, every state differs from the
      first only in sides, locks, gains and counts; when no net lists a
      cell twice, the cut before pass k + 1 is the starting cut less the
      positive results of the first k passes. */
  lemma {:induction false} Reach(states: seq<Partitioner>, history: seq<int>, k: nat)
    requires |states| == |history| + 1 && k <= |history|
    requires forall j :: 0 < j <= |history| ==> Stepped(states[j - 1], states[j], history[j - 1])
    ensures var start := states[0];
      && SameShape(start.cells, start.nets, states[k].cells, states[k].nets)
      && states[k] == start.(cells := states[k].cells, nets := states[k].nets, partSize0 := states[k].partSize0,
                             partSize1 := states[k].partSize1, cutSize := states[k].cutSize)
      && (RepeatFree(start.nets) ==>
            RepeatFree(states[k].nets) && states[k].cutSize == start.cutSize - Drop(history[..k]) <= start.cutSize)
  {
    if k > 0 {
      Reach(states, history, k - 1);
      assert Stepped(states[k - 1], states[k], history[k - 1]);
      Chain(states[0], states[k - 1], states[k], Drop(history[..k - 1]), history[k - 1]);
      DropPrefix(history, k);
      DropNonNegative(history[..k]);
    }
  }

  /** Two steps that each change only sides, locks, gains and counts make
      one such step, and their cut reductions add up. */
  lemma Chain(start: Partitioner, q: Partitioner, q': Partitioner, d: int, h: int)
    requires SameShape(start.cells, start.nets, q.cells, q.nets)
    requires q == start.(cells := q.cells, nets := q.nets, partSize0 := q.partSize0, partSize1 := q.partSize1, cutSize := q.cutSize)
    requires RepeatFree(start.nets) ==> RepeatFree(q.nets) && q.cutSize == start.cutSize - d
    requires Stepped(q, q', h)
    ensures SameShape(start.cells, start.nets, q'.cells, q'.nets)
    ensures q' == start.(cells := q'.cells, nets := q'.nets, partSize0 := q'.partSize0, partSize1 := q'.partSize1, cutSize := q'.cutSize)
    ensures RepeatFree(start.nets) ==> RepeatFree(q'.nets) && q'.cutSize == start.cutSize - (d + if h > 0 then h else 0)
  {
    SameShapeTrans(start.cells, start.nets, q.cells, q.nets, q'.cells, q'.nets);
  }

  /** The reduction of the first k passes adds pass k's to that of the
      first k - 1. */
  lemma DropPrefix(history: seq<int>, k: nat)
    requires 0 < k <= |history|
    ensures Drop(history[..k]) == Drop(history[..k - 1]) + (if history[k - 1] > 0 then history[k - 1] else 0)
  {
    assert history[..k][..k - 1] == history[..k - 1];
  }

  /** Pass k of the trace leads from `states[k - 1]` to a state ready for
      FM, as FM promises. */
  lemma StepAt(start: Partitioner, p: Partitioner, history: seq<int>, states: seq<Partitioner>, runs: seq<PassResult>, k: nat)
    requires Ran(start, p, history, states, runs) && 0 < k <= |history|
    ensures Ready(states[k]) && Stepped(states[k - 1], states[k], history[k - 1])
  {
    OutcomeAt(states, runs, k - 1);
    PassedStep(states[k - 1], runs[k - 1], states[k]);
  }

  /** What a completed pass promises about the state it leaves. */
  lemma PassedStep(q: Partitioner, r: PassResult, q': Partitioner)
    requires PassOutcome(q, r) && r.Passed? && r.p == q'
    ensures Ready(q') && Stepped(q, q', r.maxPartialSum)
  {
    SameShapeKeepsStructure(q.cells, q.nets, q'.cells, q'.nets);
  }

  /** The last state of the trace is ready for FM and relates to `start`
      as `Reach` states. */
  lemma Reached(start: Partitioner, p: Partitioner, history: seq<int>, states: seq<Partitioner>, runs: seq<PassResult>)
    requires Ready(start) && Ran(start, p, history, states, runs)
    ensures Ready(p) && SameShape(start.cells, start.nets, p.cells, p.nets)
    ensures p == start.(cells := p.cells, nets := p.nets, partSize0 := p.partSize0, partSize1 := p.partSize1, cutSize := p.cutSize)
    ensures RepeatFree(start.nets) ==> p.cutSize == start.cutSize - Drop(history) <= start.cutSize
  {
    forall j | 0 < j <= |history|
      ensures Stepped(states[j - 1], states[j], history[j - 1])
    {
      StepAt(start, p, history, states, runs, j);
    }
    Reach(states, history, |history|);
    assert history[..|history|] == history;
    if |history| > 0 {
      StepAt(start, p, history, states, runs, |history|);
    }
  }

  /** One iteration of the pass loop: an FM pass from `p`, its outcome
      appended to the trace, and, when it completed, its state appended
      too and its result recorded in slot `(|history| + 1) % 5`. */
  method NextPass(start: Partitioner, p: Partitioner, history: seq<int>, count5: seq<int>,
                  states: seq<Partitioner>, runs: seq<PassResult>)
    returns (r: PassResult, count5': seq<int>, states': seq<Partitioner>, runs': seq<PassResult>)
    requires Ready(start) && WindowHolds(count5, history)
    requires Ran(start, p, history, states, runs) && |runs| == |history|
    ensures runs' == runs + [r]
    ensures r.NoFeasibleMove? ==> states' == states && Ran(start, p, history, states', runs')
    ensures r.Passed? ==> states' == states + [r.p] && Ran(start, r.p, history + [r.maxPartialSum], states', runs')
    ensures r.Passed? ==> count5' == count5[(|history| + 1) % 5 := r.maxPartialSum]
    ensures r.Passed? ==> WindowHolds(count5', history + [r.maxPartialSum])
  {
    Reached(start, p, history, states, runs);
    r := FM(p);
    runs' := runs + [r];
    if r.NoFeasibleMove? {
      OutcomeLast(states, runs, p, r);
      RanStuck(start, p, history, states, runs, r);
      return r, count5, states, runs';
    }
    states' := states + [r.p];
    OutcomesStep(states, runs, p, r, r.p);
    RanStep(start, p, history, states, runs, r);
    WindowStep(count5, history, r.maxPartialSum);
    count5' := count5[(|history| + 1) % 5 := r.maxPartialSum];
  }

  /** `partition`: the initial partition, then FM passes while the last
      one gained something and fewer than 150 have run, with the early
      break past pass 100.  `start` is the state before the first pass and
      `history` the best partial sum of every completed pass. */
  method Partition(p0: Partitioner)
    returns (p: Partitioner, start: Partitioner, history: seq<int>, stop: Stop,
             affine: Partitioner, claimed: seq<Cell>, taken: seq<nat>, states: seq<Partitioner>, runs: seq<PassResult>)
    requires Structure(p0.cells, p0.nets) && p0.cellNum == |p0.cells|
    ensures Affined(p0, affine, claimed, taken) && Parts(start.cells) == Parts(affine.cells)
    ensures Ran(start, p, history, states, runs) && (|runs| > |history| <==> stop == NoFeasibleCell)
    ensures Ready(start) && SameShape(p0.cells, p0.nets, start.cells, start.nets)
    ensures start == p0.(cells := start.cells, nets := start.nets, partSize0 := start.partSize0,
                         partSize1 := start.partSize1, cutSize := start.cutSize, maxPinNum := start.maxPinNum)
    ensures Ready(p) && SameShape(start.cells, start.nets, p.cells, p.nets)
    ensures p == start.(cells := p.cells, nets := p.nets, partSize0 := p.partSize0, partSize1 := p.partSize1, cutSize := p.cutSize)
    ensures Outcome(history, stop)
    ensures RepeatFree(p0.nets) ==> p.cutSize == start.cutSize - Drop(history) <= start.cutSize
  {
    start, affine, claimed, taken := Initial(p0);
    SameShapeKeepsStructure(p0.cells, p0.nets, start.cells, start.nets);
    p, history, stop, states, runs := Passes(start);
    Reached(start, p, history, states, runs);
  }

  /** What the history of best partial sums says about why the loop
      stopped: every result but the last was positive, and past pass 100
      no window before the last one fell below 20. */
  predicate Outcome(history: seq<int>, stop: Stop) {
    && |history| <= MaxPasses
    && (stop != NoFeasibleCell ==> |history| >= 1)
    && (forall k :: 0 <= k < |history| - 1 ==> history[k] > 0)
    && (stop == NoGain ==> |history| >= 1 && history[|history| - 1] <= 0)
    && (stop == PassLimit ==> |history| == MaxPasses && history[MaxPasses - 1] > 0)
    && (stop == EarlyBreak ==> |history| > EarlyBreakTime && Window(history) < WindowFloor)
    && (stop != EarlyBreak && |history| > EarlyBreakTime ==> Window(history) >= WindowFloor)
    && (forall k :: EarlyBreakTime < k < |history| ==> Window(history[..k]) >= WindowFloor)
  }

  /** A loop may not run past an early break: 101 passes of 1 make the
      window 5 at pass 101, so no history that goes on from there is an
      outcome of the loop. */
  lemma MissedBreakRejected()
    ensures !Outcome(seq(101, _ => 1) + [100, 0], NoGain)
  {
    var h := seq(101, _ => 1) + [100, 0];
    assert h[..101][96] == 1 && h[..101][97] == 1 && h[..101][98] == 1 && h[..101][99] == 1 && h[..101][100] == 1;
    assert Window(h[..101]) == 5;
  }

  /** The history while the loop runs: `mps` is the last result (777
      before the first pass), every earlier result was positive, and past
      pass 100 no window has fallen below 20. */
  predicate Running(history: seq<int>, mps: int) {
    && (if |history| == 0 then mps == StartMPS else mps == history[|history| - 1])
    && (forall k :: 0 <= k < |history| - 1 ==> history[k] > 0)
    && (forall k :: EarlyBreakTime < k <= |history| ==> Window(history[..k]) >= WindowFloor)
  }

  /** A positive result lets the loop go on; the new result is recorded. */
  lemma RunningStep(history: seq<int>, mps: int, mps': int)
    requires Running(history, mps) && mps > 0
    requires |history| + 1 > EarlyBreakTime ==> Window(history + [mps']) >= WindowFloor
    ensures Running(history + [mps'], mps')
  {
    var h := history + [mps'];
    forall k | 0 <= k < |h| - 1
      ensures h[k] > 0
    {
      if k < |history| - 1 {
        assert h[k] == history[k];
      } else {
        assert h[k] == mps;
      }
    }
    WindowsKept(history, mps');
    assert h[..|h|] == h;
  }

  /** Appending a result keeps the windows of every earlier history. */
  lemma WindowsKept(history: seq<int>, mps: int)
    requires forall k :: EarlyBreakTime < k <= |history| ==> Window(history[..k]) >= WindowFloor
    ensures forall k :: EarlyBreakTime < k <= |history| ==> Window((history + [mps])[..k]) >= WindowFloor
  {
    forall k | EarlyBreakTime < k <= |history|
      ensures Window((history + [mps])[..k]) >= WindowFloor
    {
      assert (history + [mps])[..k] == history[..k];
    }
  }

  /** How a loop that stopped by its own condition leaves the history. */
  lemma RunningDone(history: seq<int>, mps: int, stop: Stop)
    requires Running(history, mps) && |history| <= MaxPasses
    requires |history| + 1 <= MaxPasses ==> mps <= 0
    requires stop == if mps <= 0 then NoGain else PassLimit
    ensures Outcome(history, stop)
  {
    assert history[..|history|] == history;
  }

  /** A pass with no cell allowed to move ends the loop where it is. */
  lemma RunningStuck(history: seq<int>, mps: int)
    requires Running(history, mps) && |history| <= MaxPasses
    ensures Outcome(history, NoFeasibleCell)
  {
    assert history[..|history|] == history;
  }

  /** The early break records the pass that made the window fall short. */
  lemma RunningBreak(history: seq<int>, mps: int, mps': int)
    requires Running(history, mps) && mps > 0 && EarlyBreakTime < |history| + 1 <= MaxPasses
    requires Window(history + [mps']) < WindowFloor
    ensures Outcome(history + [mps'], EarlyBreak)
  {
    WindowsKept(history, mps');
    var h := history + [mps'];
    forall k | 0 <= k < |h| - 1
      ensures h[k] > 0
    {
      if k < |history| - 1 {
        assert h[k] == history[k];
      } else {
        assert h[k] == mps;
      }
    }
  }

  /** The pass loop of `partition`, from the recounted state `start`. */
  method Passes(start: Partitioner)
    returns (p: Partitioner, history: seq<int>, stop: Stop, states: seq<Partitioner>, runs: seq<PassResult>)
    requires Ready(start)
    ensures Ran(start, p, history, states, runs) && (|runs| > |history| <==> stop == NoFeasibleCell)
    ensures Outcome(history, stop)
  {
    p := start;
    history, states, runs := [], [start], [];
    var mps := StartMPS;
    var count5 := [0, 0, 0, 0, 0];
    var i := 1;
    while i <= MaxPasses && mps > 0
      invariant 1 <= i <= MaxPasses + 1 && |history| == i - 1
      invariant WindowHolds(count5, history) && Running(history, mps)
      invariant Ran(start, p, history, states, runs) && |runs| == |history|
      decreases MaxPasses + 1 - i
    {
      var r, count5', states', runs' := NextPass(start, p, history, count5, states, runs);
      runs := runs';
      if r.NoFeasibleMove? {
        stop := NoFeasibleCell;
        RunningStuck(history, mps);
        return;
      }
      var p', mps' := r.p, r.maxPartialSum;
      var h := history + [mps'];
      if i > EarlyBreakTime {
        WindowSum(count5', h);
        if Sum5(count5') < WindowFloor {
          RunningBreak(history, mps, mps');
          p, history, stop, states := p', h, EarlyBreak, states';
          return;
        }
      }
      RunningStep(history, mps, mps');
      p, mps, count5, history, states := p', mps', count5', h, states';
      i := i + 1;
    }
    stop := if mps <= 0 then NoGain else PassLimit;
    RunningDone(history, mps, stop);
  }

  /** The engine end to end on a token stream: construct, then partition.
      The circuit keeps the shape the reader built; `logicAffinity` runs on
      the constructed engine, the first pass starts from its sides, and the
      trace records every pass from there. */
  method Run(b: real, toks: seq<string>)
    returns (p: Partitioner, start: Partitioner, history: seq<int>, stop: Stop,
             affine: Partitioner, claimed: seq<Cell>, taken: seq<nat>, states: seq<Partitioner>, runs: seq<PassResult>)
    ensures var p0 := Parser.Construct(b, toks);
      && SameShape(p0.cells, p0.nets, p.cells, p.nets)
      && Affined(p0, affine, claimed, taken) && Parts(start.cells) == Parts(affine.cells)
      && (RepeatFree(p0.nets) ==> p.cutSize == start.cutSize - Drop(history) <= start.cutSize)
    ensures Ready(start) && start.bFactor == b
    ensures Ran(start, p, history, states, runs) && (|runs| > |history| <==> stop == NoFeasibleCell)
    ensures Ready(p) && p.bFactor == b && p.cellNum == |p.cells| && p.netNum == |p.nets|
    ensures p.partSize0 + p.partSize1 == |p.cells| && 0 <= p.cutSize <= |p.nets|
    ensures Outcome(history, stop)
  {
    var p0 := Parser.Construct(b, toks);
    p, start, history, stop, affine, claimed, taken, states, runs := Partition(p0);
    SameShapeTrans(p0.cells, p0.nets, start.cells, start.nets, p.cells, p.nets);
    NumOnSideSum(Parts(p.cells));
    CutAtMostNets(Parts(p.cells), p.nets, |p.nets|);
  }
}
