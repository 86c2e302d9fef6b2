/** One Fiduccia–Mattheyses pass: every cell is moved once, greedily by
    highest feasible gain, the running partial sums of the gains are
    recorded, the moves after the best prefix are undone, and all derived
    quantities are recomputed from scratch. */
module FMPass {
  import opened Hypergraph
  import opened Gain
  import opened Balance
  import opened Buckets
  import opened Update
  import opened Recount

  /** The starting value of the best partial sum, INT32_MIN in the source. */
  const Int32Min: int := -2147483648

  /** The values a sequence holds. */
  function Elems(s: seq<nat>): set<nat> {
    set x | x in s
  }

  /** The cell ids of a circuit with `n` cells. */
  function Ids(n: nat): (r: set<nat>)
    ensures forall x: int :: x in r <==> 0 <= x < n
    ensures |r| == n
  {
    if n == 0 then {}
    else
      var below := Ids(n - 1);
      assert n - 1 !in below;
      below + {n - 1}
  }

  predicate Distinct(s: seq<nat>) {
    forall i, j :: 0 <= i < j < |s| ==> s[i] != s[j]
  }

  /** The state every pass starts from and leaves behind: the stored
      counts agree with the sides, and the bucket offset covers every pin
      count. */
  ghost predicate Ready(p: Partitioner) {
    Counted(p) && p.maxPinNum >= 0 && PinsWithin(p.cells, p.maxPinNum)
  }

  /** The per-net counts, gains, side sizes and cut size all agree with
      the sides. */
  ghost predicate Counted(p: Partitioner) {
    && Structure(p.cells, p.nets) && p.cellNum == |p.cells|
    && CountsExact(Parts(p.cells), p.nets)
    && (forall c :: 0 <= c < |p.cells| ==> p.cells[c].gain == GainOf(p.nets, c, p.cells[c].part))
    && p.partSize0 == NumOnSide(Parts(p.cells), false) && p.partSize1 == NumOnSide(Parts(p.cells), true)
    && p.cutSize == Cut(Parts(p.cells), p.nets)
  }

  /** `best` is the first index of the largest partial sum `maxPS`, found
      by a strict scan that starts from INT32_MIN. */
  predicate BestPrefix(sums: seq<int>, maxPS: int, best: nat) {
    && maxPS >= Int32Min
    && (forall k :: 0 <= k < |sums| ==> sums[k] <= maxPS)
    && (maxPS > Int32Min ==> best < |sums| && sums[best] == maxPS && forall k :: 0 <= k < best ==> sums[k] < maxPS)
    && (maxPS == Int32Min ==> best == 0)
  }

  /** The sum of a sequence of gains. */
  function Total(s: seq<int>): int {
    if |s| == 0 then 0 else Total(s[..|s| - 1]) + s[|s| - 1]
  }

  /** Each partial sum is the total of the gains up to and including its
      own move. */
  predicate PartialSums(gains: seq<int>, sums: seq<int>) {
    |sums| == |gains| && forall k :: 0 <= k < |sums| ==> sums[k] == Total(gains[..k + 1])
  }

  /** The gain each moved cell was chosen with, in move order: a moved
      cell is locked, and the update after a move leaves locked cells
      alone, so the gain stays recorded on it. */
  function MovedGains(cells: seq<Cell>, moves: seq<nat>): (r: seq<int>)
    requires forall k :: 0 <= k < |moves| ==> moves[k] < |cells|
    ensures |r| == |moves| && forall k :: 0 <= k < |moves| ==> r[k] == cells[moves[k]].gain
  {
    seq(|moves|, k requires 0 <= k < |moves| => cells[moves[k]].gain)
  }

  /** The partial sum so far: 0 before the first move. */
  function LastSum(sums: seq<int>): int {
    if |sums| == 0 then 0 else sums[|sums| - 1]
  }

  /** One more move adds its gain to the last partial sum. */
  lemma {:induction false} PartialSumsStep(gains: seq<int>, sums: seq<int>, g: int)
    requires PartialSums(gains, sums)
    ensures PartialSums(gains + [g], sums + [LastSum(sums) + g])
  {
    var gs := gains + [g];
    var sum := LastSum(sums) + g;
    forall k | 0 <= k < |sums| + 1
      ensures (sums + [sum])[k] == Total(gs[..k + 1])
    {
      if k < |sums| {
        assert gs[..k + 1] == gains[..k + 1];
      } else {
        assert gs[..k + 1] == gs;
        assert gs[..|gs| - 1] == gains;
        if |sums| > 0 {
          assert gains[..|sums|] == gains;
        }
      }
    }
  }

  /** Moving cell `m` keeps the gains recorded on the cells moved before
      and records its own. */
  lemma MovedGainsStep(cells: seq<Cell>, cells': seq<Cell>, moves: seq<nat>, m: nat)
    requires |cells'| == |cells| && m < |cells| && cells'[m].gain == cells[m].gain
    requires forall k :: 0 <= k < |moves| ==> moves[k] < |cells| && cells[moves[k]].lock
    requires forall c :: 0 <= c < |cells| && cells[c].lock ==> cells'[c] == cells[c]
    ensures MovedGains(cells', moves + [m]) == MovedGains(cells, moves) + [cells[m].gain]
  {
  }

  /** The partial sums stay the totals of the recorded gains across a
      move of a free cell. */
  lemma RecordedStep(cells0: seq<Cell>, cells: seq<Cell>, cells': seq<Cell>, moves: seq<nat>, m: nat, sums: seq<int>,
                      moves': seq<nat>, sums': seq<int>)
    requires Tracked(cells0, cells, moves) && |cells'| == |cells| && m < |cells| && cells'[m].gain == cells[m].gain
    requires forall c :: 0 <= c < |cells| && cells[c].lock ==> cells'[c] == cells[c]
    requires PartialSums(MovedGains(cells, moves), sums)
    requires moves' == moves + [m] && sums' == sums + [LastSum(sums) + cells[m].gain]
    ensures forall k :: 0 <= k < |moves'| ==> moves'[k] < |cells'|
    ensures MovedGains(cells', moves') == MovedGains(cells, moves) + [cells[m].gain]
    ensures PartialSums(MovedGains(cells', moves'), sums')
  {
    forall k | 0 <= k < |moves|
      ensures moves[k] < |cells| && cells[moves[k]].lock
    {
      assert moves[k] in moves;
    }
    PartialSumsStep(MovedGains(cells, moves), sums, cells[m].gain);
    MovedGainsStep(cells, cells', moves, m);
  }

  // ---------------------------------------------------------------------
  // Sets of moved cells

  lemma FlipSetNone(parts: seq<bool>)
    ensures FlipSet(parts, {}) == parts
  {
  }

  /** Moving one more cell flips it on top of the earlier moves. */
  lemma FlipSetAdd(parts: seq<bool>, moved: set<nat>, m: nat)
    requires m < |parts| && m !in moved
    ensures FlipSet(parts, moved + {m}) == FlipSet(parts, moved)[m := !FlipSet(parts, moved)[m]]
  {
  }

  lemma FlipSetAll(parts: seq<bool>)
    ensures FlipSet(parts, Ids(|parts|)) == Complement(parts)
  {
  }

  /** Pigeonhole: `n` distinct ids below `n` are all of them. */
  lemma AllMoved(moves: seq<nat>, n: nat)
    requires Distinct(moves) && |moves| == n && forall k :: 0 <= k < |moves| ==> moves[k] < n
    ensures Elems(moves) == Ids(n)
  {
    DistinctCard(moves);
    var e := Elems(moves);
    var all := Ids(n);
    assert e <= all;
    assert all == e + (all - e);
    assert e * (all - e) == {};
    assert |all - e| == 0;
  }

  lemma {:induction false} DistinctCard(s: seq<nat>)
    requires Distinct(s)
    ensures |Elems(s)| == |s|
  {
    if |s| > 0 {
      var front := s[..|s| - 1];
      DistinctCard(front);
      assert Elems(s) == Elems(front) + {s[|s| - 1]};
    }
  }

  // ---------------------------------------------------------------------
  // The selection rule, stated on sides alone

  /** The nets with their side counts taken from the sides `parts`. */
  function CountedNets(nets: seq<Net>, parts: seq<bool>): (r: seq<Net>)
    ensures |r| == |nets| && CountsExact(parts, r)
    ensures forall n :: 0 <= n < |nets| ==> r[n].cellList == nets[n].cellList && r[n].name == nets[n].name
  {
    seq(|nets|, n requires 0 <= n < |nets| =>
      nets[n].(count0 := SideCount(nets[n].cellList, parts, false), count1 := SideCount(nets[n].cellList, parts, true)))
  }

  /** The gain of cell `c` on the sides `parts`. */
  function GainAt(nets: seq<Net>, parts: seq<bool>, c: nat): int
    requires c < |parts|
  {
    GainOf(CountedNets(nets, parts), c, parts[c])
  }

  /** Nets whose stored counts agree with `parts` are the counted nets. */
  lemma CountedNetsAre(nets0: seq<Net>, nets: seq<Net>, parts: seq<bool>)
    requires |nets| == |nets0| && CountsExact(parts, nets)
    requires forall n :: 0 <= n < |nets0| ==> nets[n].cellList == nets0[n].cellList && nets[n].name == nets0[n].name
    ensures nets == CountedNets(nets0, parts)
  {
  }

  /** Cell `m` is the pass's choice after the moves `before`, from the
      sides `parts0` the pass started with: it has not moved yet, the gate
      of its side passes on the current side sizes, `g` is its gain on the
      current sides, and no other unmoved cell whose gate passes has a
      higher gain. */
  ghost predicate Chosen(parts0: seq<bool>, nets: seq<Net>, before: seq<nat>, m: nat, g: int, n: int, b: real) {
    var parts := FlipSet(parts0, Elems(before));
    var size0, size1 := NumOnSide(parts, false), NumOnSide(parts, true);
    && m < |parts0| && m !in before
    && MayLeave(parts[m], size0, size1, n, b)
    && g == GainAt(nets, parts, m)
    && forall c: nat :: c < |parts0| && c !in before && MayLeave(parts[c], size0, size1, n, b) ==>
         GainAt(nets, parts, c) <= g
  }

  /** Every move of `moves` was the pass's choice at its turn, chosen with
      the gain `gains` records for it (`GreedyAt` reads it per move). */
  ghost predicate Greedy(parts0: seq<bool>, nets: seq<Net>, moves: seq<nat>, gains: seq<int>, n: int, b: real)
    decreases |moves|
  {
    && |gains| == |moves|
    && (|moves| == 0 ||
        var k := |moves| - 1;
        Greedy(parts0, nets, moves[..k], gains[..k], n, b) && Chosen(parts0, nets, moves[..k], moves[k], gains[k], n, b))
  }

  /** Move `k` of a greedy pass was the pass's choice at its turn. */
  lemma {:induction false} GreedyAt(parts0: seq<bool>, nets: seq<Net>, moves: seq<nat>, gains: seq<int>, n: int, b: real, k: nat)
    requires Greedy(parts0, nets, moves, gains, n, b) && k < |moves|
    ensures Chosen(parts0, nets, moves[..k], moves[k], gains[k], n, b)
    decreases |moves|
  {
    var last := |moves| - 1;
    if k < last {
      GreedyAt(parts0, nets, moves[..last], gains[..last], n, b, k);
      assert moves[..last][..k] == moves[..k];
      assert moves[..last][k] == moves[k] && gains[..last][k] == gains[k];
    }
  }

  lemma GreedyNone(parts0: seq<bool>, nets: seq<Net>, n: int, b: real)
    ensures Greedy(parts0, nets, [], [], n, b)
  {
  }

  /** One more chosen move extends a greedy pass. */
  lemma GreedyStep(parts0: seq<bool>, nets: seq<Net>, moves: seq<nat>, gains: seq<int>, m: nat, g: int, n: int, b: real)
    requires Greedy(parts0, nets, moves, gains, n, b) && Chosen(parts0, nets, moves, m, g, n, b)
    ensures Greedy(parts0, nets, moves + [m], gains + [g], n, b)
  {
    assert (moves + [m])[..|moves|] == moves;
    assert (gains + [g])[..|gains|] == gains;
  }

  /** Every move of a greedy pass passed the gate of its side, so after
      each move both sides lie in the balance window. */
  lemma GreedyWithinWindow(parts0: seq<bool>, nets: seq<Net>, moves: seq<nat>, gains: seq<int>, n: int, b: real, k: nat)
    requires Greedy(parts0, nets, moves, gains, n, b) && k < |moves|
    ensures var after := FlipSet(parts0, Elems(moves[..k + 1]));
      InWindow(NumOnSide(after, false), n, b) && InWindow(NumOnSide(after, true), n, b)
  {
    PrefixStep(moves, k);
    GreedyAt(parts0, nets, moves, gains, n, b, k);
    ChosenWithinWindow(parts0, nets, moves[..k], moves[k], gains[k], n, b);
  }

  lemma PrefixStep(moves: seq<nat>, k: nat)
    requires k < |moves|
    ensures moves[..k + 1] == moves[..k] + [moves[k]]
  {
  }

  /** A chosen move leaves both sides in the window. */
  lemma ChosenWithinWindow(parts0: seq<bool>, nets: seq<Net>, before: seq<nat>, m: nat, g: int, n: int, b: real)
    requires Chosen(parts0, nets, before, m, g, n, b)
    ensures var after := FlipSet(parts0, Elems(before + [m]));
      InWindow(NumOnSide(after, false), n, b) && InWindow(NumOnSide(after, true), n, b)
  {
    var parts := FlipSet(parts0, Elems(before));
    assert Elems(before + [m]) == Elems(before) + {m};
    FlipSetAdd(parts0, Elems(before), m);
    FlipWithinWindow(parts, m, n, b);
  }

  /** Flipping a cell whose gate passes leaves both sides in the window. */
  lemma FlipWithinWindow(parts: seq<bool>, m: nat, n: int, b: real)
    requires m < |parts| && MayLeave(parts[m], NumOnSide(parts, false), NumOnSide(parts, true), n, b)
    ensures InWindow(NumOnSide(parts[m := !parts[m]], false), n, b) && InWindow(NumOnSide(parts[m := !parts[m]], true), n, b)
  {
    NumOnSideFlip(parts, m);
  }

  /** The engine's choice, read on its state, is the pass's choice on the
      sides: with exact counts the stored gain of a free cell is its gain
      on the current sides. */
  lemma ChosenHere(cells0: seq<Cell>, nets0: seq<Net>, cells: seq<Cell>, nets: seq<Net>, moves: seq<nat>,
                   size0: int, size1: int, m: nat, b: real)
    requires Tracked(cells0, cells, moves) && SameShape(cells0, nets0, cells, nets)
    requires CountsExact(Parts(cells), nets) && GainsFollow(cells, nets)
    requires size0 == NumOnSide(Parts(cells), false) && size1 == NumOnSide(Parts(cells), true)
    requires Feasible(cells, m, size0, size1, |cells|, b)
    requires forall c :: 0 <= c < |cells| && Feasible(cells, c, size0, size1, |cells|, b) ==> cells[c].gain <= cells[m].gain
    ensures Chosen(Parts(cells0), nets0, moves, m, cells[m].gain, |cells0|, b)
  {
    var parts := Parts(cells);
    CountedNetsAre(nets0, nets, parts);
    forall c: nat | c < |cells0| && c !in moves && MayLeave(parts[c], size0, size1, |cells0|, b)
      ensures GainAt(nets0, parts, c) <= cells[m].gain
    {
      assert Feasible(cells, c, size0, size1, |cells|, b);
    }
  }

  // ---------------------------------------------------------------------
  // The move loop

  /** With exact counts and repeat-free nets, the gain of the next moved
      cell is the drop of the cut, so each partial sum is the drop of the
      cut since the start of the pass. */
  lemma PartialSumStep(parts0: seq<bool>, nets: seq<Net>, cur: seq<Net>, moves: seq<nat>, m: nat)
    requires RepeatFree(nets) && |cur| == |nets|
    requires forall n :: 0 <= n < |nets| ==> cur[n].cellList == nets[n].cellList
    requires m < |parts0| && m !in moves
    requires CountsExact(FlipSet(parts0, Elems(moves)), cur)
    ensures var before := FlipSet(parts0, Elems(moves));
      Cut(parts0, nets) - Cut(FlipSet(parts0, Elems(moves + [m])), nets)
        == (Cut(parts0, nets) - Cut(before, nets)) + GainOf(cur, m, before[m])
  {
    var before := FlipSet(parts0, Elems(moves));
    assert Elems(moves + [m]) == Elems(moves) + {m};
    FlipSetAdd(parts0, Elems(moves), m);
    assert RepeatFree(cur);
    GainIsCutDrop(before, cur, m);
    CutSameLists(before, nets, cur, |nets|);
    CutSameLists(before[m := !before[m]], nets, cur, |nets|);
  }

  /** One more partial sum keeps the running maximum and its first index. */
  lemma BestPrefixStep(sums: seq<int>, maxPS: int, best: nat, sum: int)
    requires BestPrefix(sums, maxPS, best)
    ensures sum > maxPS ==> BestPrefix(sums + [sum], sum, |sums|)
    ensures sum <= maxPS ==> BestPrefix(sums + [sum], maxPS, best)
  {
  }

  /** The state part-way through the move loop, after the cells in
      `moves` have been moved in that order. */
  ghost predicate Moving(cells0: seq<Cell>, nets0: seq<Net>, cells: seq<Cell>, nets: seq<Net>,
                         buckets: seq<set<nat>>, maxPinNum: int, size0: int, size1: int, moves: seq<nat>) {
    && Tracked(cells0, cells, moves)
    && SameShape(cells0, nets0, cells, nets) && Structure(cells, nets)
    && CountsExact(Parts(cells), nets) && GainsFollow(cells, nets)
    && BucketsOK(cells, buckets, maxPinNum) && PinsWithin(cells, maxPinNum)
    && size0 == NumOnSide(Parts(cells), false) && size1 == NumOnSide(Parts(cells), true)
  }

  /** The moves so far are distinct cell ids, exactly the locked cells,
      and exactly the cells whose side differs from the pass's start. */
  predicate Tracked(cells0: seq<Cell>, cells: seq<Cell>, moves: seq<nat>) {
    && Distinct(moves) && (forall k :: 0 <= k < |moves| ==> moves[k] < |cells0|)
    && |cells| == |cells0| && (forall c :: 0 <= c < |cells| ==> (cells[c].lock <==> c in moves))
    && Parts(cells) == FlipSet(Parts(cells0), Elems(moves))
  }

  /** Moving one more free cell extends the tracked moves by it. */
  lemma TrackedStep(cells0: seq<Cell>, cells: seq<Cell>, moves: seq<nat>, m: nat, cells': seq<Cell>)
    requires Tracked(cells0, cells, moves) && m < |cells| && !cells[m].lock && |cells'| == |cells|
    requires Parts(cells') == Parts(cells)[m := !cells[m].part]
    requires forall c :: 0 <= c < |cells| ==> cells'[c].lock == (cells[c].lock || c == m)
    ensures Tracked(cells0, cells', moves + [m])
  {
    assert Elems(moves + [m]) == Elems(moves) + {m};
    FlipSetAdd(Parts(cells0), Elems(moves), m);
  }

  /** One step of the loop: select a feasible cell of highest gain and
      move it.  `g` is its gain at the moment of selection. */
  method MoveStep(cells0: seq<Cell>, nets0: seq<Net>, cells: seq<Cell>, nets: seq<Net>, buckets: seq<set<nat>>,
                  maxPinNum: int, size0: int, size1: int, moves: seq<nat>, b: real)
    returns (found: bool, m: nat, g: int, cells': seq<Cell>, nets': seq<Net>, buckets': seq<set<nat>>, size0': int, size1': int)
    requires Moving(cells0, nets0, cells, nets, buckets, maxPinNum, size0, size1, moves)
    ensures !found ==> forall c :: 0 <= c < |cells| ==> !Feasible(cells, c, size0, size1, |cells|, b)
    ensures found ==> Feasible(cells, m, size0, size1, |cells|, b) && m !in moves
    ensures found ==> forall c :: 0 <= c < |cells| && Feasible(cells, c, size0, size1, |cells|, b) ==> cells[c].gain <= g
    ensures found ==> g == GainOf(nets, m, Parts(cells)[m]) && g == cells[m].gain
    ensures found ==> Chosen(Parts(cells0), nets0, moves, m, g, |cells0|, b)
    ensures found ==> Moving(cells0, nets0, cells', nets', buckets', maxPinNum, size0', size1', moves + [m])
    ensures found ==> cells'[m].gain == g && forall c :: 0 <= c < |cells| && cells[c].lock ==> cells'[c] == cells[c]
    ensures found && RepeatFree(nets0) ==>
      var parts0 := Parts(cells0);
      Cut(parts0, nets0) - Cut(FlipSet(parts0, Elems(moves + [m])), nets0)
        == (Cut(parts0, nets0) - Cut(FlipSet(parts0, Elems(moves)), nets0)) + g
  {
    var choice := Select(cells, buckets, maxPinNum, size0, size1, |cells|, b);
    if choice.None? {
      return false, 0, 0, cells, nets, buckets, size0, size1;
    }
    found := true;
    m := choice.value;
    g := cells[m].gain;
    ChosenHere(cells0, nets0, cells, nets, moves, size0, size1, m, b);
    if RepeatFree(nets0) {
      PartialSumStep(Parts(cells0), nets0, nets, moves, m);
    }
    cells', nets', buckets', size0', size1' := MoveCell(cells, nets, buckets, maxPinNum, size0, size1, m);
    MovingStep(cells0, nets0, cells, nets, maxPinNum, moves, m, cells', nets', buckets', size0', size1');
  }

  /** A move extends the loop state by one moved cell. */
  lemma MovingStep(cells0: seq<Cell>, nets0: seq<Net>, cells: seq<Cell>, nets: seq<Net>, maxPinNum: int, moves: seq<nat>, m: nat,
                   cells': seq<Cell>, nets': seq<Net>, buckets': seq<set<nat>>, size0': int, size1': int)
    requires Tracked(cells0, cells, moves) && SameShape(cells0, nets0, cells, nets)
    requires m < |cells| && !cells[m].lock
    requires Parts(cells') == Parts(cells)[m := !cells[m].part]
    requires forall c :: 0 <= c < |cells| ==> cells'[c].lock == (cells[c].lock || c == m)
    requires SameShape(cells, nets, cells', nets') && Structure(cells', nets')
    requires CountsExact(Parts(cells'), nets') && GainsFollow(cells', nets')
    requires BucketsOK(cells', buckets', maxPinNum) && PinsWithin(cells', maxPinNum)
    requires size0' == NumOnSide(Parts(cells'), false) && size1' == NumOnSide(Parts(cells'), true)
    ensures Moving(cells0, nets0, cells', nets', buckets', maxPinNum, size0', size1', moves + [m])
  {
    TrackedStep(cells0, cells, moves, m, cells');
    SameShapeTrans(cells0, nets0, cells, nets, cells', nets');
  }

  /** One step of the loop together with its partial sum and the running
      maximum; on `!found` nothing changes. */
  method Advance(cells0: seq<Cell>, nets0: seq<Net>, cells: seq<Cell>, nets: seq<Net>, buckets: seq<set<nat>>,
                 maxPinNum: int, size0: int, size1: int, moves: seq<nat>, sums: seq<int>, maxPS: int, best: nat, b: real)
    returns (found: bool, m: nat, cells': seq<Cell>, nets': seq<Net>, buckets': seq<set<nat>>, size0': int, size1': int,
             moves': seq<nat>, sums': seq<int>, maxPS': int, best': nat)
    requires Moving(cells0, nets0, cells, nets, buckets, maxPinNum, size0, size1, moves)
    requires PartialSums(MovedGains(cells, moves), sums) && BestPrefix(sums, maxPS, best)
    requires RepeatFree(nets0) ==> SumsAreDrops(Parts(cells0), nets0, moves, sums)
    requires Greedy(Parts(cells0), nets0, moves, MovedGains(cells, moves), |cells0|, b)
    ensures !found ==> cells' == cells && nets' == nets && buckets' == buckets && size0' == size0 && size1' == size1
    ensures !found ==> moves' == moves && sums' == sums && maxPS' == maxPS && best' == best
    ensures !found ==> forall c :: 0 <= c < |cells| ==> !Feasible(cells, c, size0, size1, |cells|, b)
    ensures found ==> m < |cells| && moves' == moves + [m] && sums' == sums + [LastSum(sums) + cells[m].gain]
    ensures found ==> Feasible(cells, m, size0, size1, |cells|, b)
    ensures found ==> forall c :: 0 <= c < |cells| && Feasible(cells, c, size0, size1, |cells|, b) ==> cells[c].gain <= cells[m].gain
    ensures found ==> Chosen(Parts(cells0), nets0, moves, m, cells[m].gain, |cells0|, b)
    ensures Moving(cells0, nets0, cells', nets', buckets', maxPinNum, size0', size1', moves')
    ensures PartialSums(MovedGains(cells', moves'), sums') && BestPrefix(sums', maxPS', best')
    ensures RepeatFree(nets0) ==> SumsAreDrops(Parts(cells0), nets0, moves', sums')
    ensures Greedy(Parts(cells0), nets0, moves', MovedGains(cells', moves'), |cells0|, b)
  {
    var g;
    found, m, g, cells', nets', buckets', size0', size1' := MoveStep(cells0, nets0, cells, nets, buckets, maxPinNum, size0, size1, moves, b);
    if found {
      moves' := moves + [m];
      sums', maxPS', best' := Record(cells0, nets0, cells, cells', moves, m, g, sums, maxPS, best, moves');
      GreedyStep(Parts(cells0), nets0, moves, MovedGains(cells, moves), m, g, |cells0|, b);
    } else {
      cells', nets', buckets', size0', size1' := cells, nets, buckets, size0, size1;
      moves', sums', maxPS', best' := moves, sums, maxPS, best;
    }
  }

  /** Records the move of cell `m`, chosen with gain `g`, as the last move
      of `moves'`: the next partial sum is the last one plus `g`, and the
      running maximum and its first index follow it. */
  method Record(cells0: seq<Cell>, nets0: seq<Net>, cells: seq<Cell>, cells': seq<Cell>, moves: seq<nat>, m: nat, g: int,
                sums: seq<int>, maxPS: int, best: nat, moves': seq<nat>)
    returns (sums': seq<int>, maxPS': int, best': nat)
    requires Tracked(cells0, cells, moves) && |cells'| == |cells| && m < |cells| && g == cells[m].gain && cells'[m].gain == g
    requires forall c :: 0 <= c < |cells| && cells[c].lock ==> cells'[c] == cells[c]
    requires moves' == moves + [m] && PartialSums(MovedGains(cells, moves), sums) && BestPrefix(sums, maxPS, best)
    requires RepeatFree(nets0) ==> SumsAreDrops(Parts(cells0), nets0, moves, sums)
    requires RepeatFree(nets0) ==>
      var parts0 := Parts(cells0);
      Cut(parts0, nets0) - Cut(FlipSet(parts0, Elems(moves + [m])), nets0)
        == (Cut(parts0, nets0) - Cut(FlipSet(parts0, Elems(moves)), nets0)) + g
    ensures forall k :: 0 <= k < |moves'| ==> moves'[k] < |cells'|
    ensures sums' == sums + [LastSum(sums) + cells[m].gain]
    ensures MovedGains(cells', moves') == MovedGains(cells, moves) + [g]
    ensures PartialSums(MovedGains(cells', moves'), sums') && BestPrefix(sums', maxPS', best')
    ensures RepeatFree(nets0) ==> SumsAreDrops(Parts(cells0), nets0, moves', sums')
  {
    var sum := LastSum(sums) + g;
    sums' := sums + [sum];
    NextSum(Parts(cells0), nets0, moves, m, sums, g, moves', sums');
    BestPrefixStep(sums, maxPS, best, sum);
    RecordedStep(cells0, cells, cells', moves, m, sums, moves', sums');
    if sum > maxPS {
      maxPS', best' := sum, |sums|;
    } else {
      maxPS', best' := maxPS, best;
    }
  }

  /** Moves every cell once: each step takes a feasible cell of highest
      gain, moves it, and records the partial sum of the gains, so the
      moves are `Greedy` from the starting sides; `done` is false when
      some step finds no feasible cell. */
  method MoveAll(cells: seq<Cell>, nets: seq<Net>, buckets: seq<set<nat>>, maxPinNum: int, size0: int, size1: int, b: real)
    returns (done: bool, cells': seq<Cell>, nets': seq<Net>, moves: seq<nat>, sums: seq<int>, maxPS: int, best: nat)
    requires Structure(cells, nets) && CountsExact(Parts(cells), nets) && GainsFollow(cells, nets)
    requires PinsWithin(cells, maxPinNum) && BucketsOK(cells, buckets, maxPinNum)
    requires forall c :: 0 <= c < |cells| ==> !cells[c].lock
    requires size0 == NumOnSide(Parts(cells), false) && size1 == NumOnSide(Parts(cells), true)
    ensures SameShape(cells, nets, cells', nets') && Structure(cells', nets') && Tracked(cells, cells', moves)
    ensures PartialSums(MovedGains(cells', moves), sums) && BestPrefix(sums, maxPS, best)
    ensures Greedy(Parts(cells), nets, moves, MovedGains(cells', moves), |cells|, b)
    ensures RepeatFree(nets) ==> SumsAreDrops(Parts(cells), nets, moves, sums)
    ensures !done ==> |moves| < |cells|
    ensures !done ==> forall c :: 0 <= c < |cells| ==>
      !Feasible(cells', c, NumOnSide(Parts(cells'), false), NumOnSide(Parts(cells'), true), |cells|, b)
    ensures done ==> |moves| == |cells| && Distinct(moves) && Elems(moves) == Ids(|cells|)
    ensures done ==> Parts(cells') == Complement(Parts(cells))
  {
    var n := |cells|;
    var parts0 := Parts(cells);
    var s0, s1, bk := size0, size1, buckets;
    cells', nets' := cells, nets;
    moves, sums, maxPS, best := [], [], Int32Min, 0;
    MovingStart(cells, nets, buckets, maxPinNum, size0, size1, b);
    for itt := 0 to n
      invariant |moves| == itt && Moving(cells, nets, cells', nets', bk, maxPinNum, s0, s1, moves)
      invariant PartialSums(MovedGains(cells', moves), sums) && BestPrefix(sums, maxPS, best)
      invariant Greedy(parts0, nets, moves, MovedGains(cells', moves), n, b)
      invariant RepeatFree(nets) ==> SumsAreDrops(parts0, nets, moves, sums)
    {
      var found, m;
      found, m, cells', nets', bk, s0, s1, moves, sums, maxPS, best :=
        Advance(cells, nets, cells', nets', bk, maxPinNum, s0, s1, moves, sums, maxPS, best, b);
      if !found {
        MovingShape(cells, nets, cells', nets', bk, maxPinNum, s0, s1, moves);
        return false, cells', nets', moves, sums, maxPS, best;
      }
    }
    MovingDone(cells, nets, cells', nets', bk, maxPinNum, s0, s1, moves);
    done := true;
  }

  /** Before the first move nothing has moved, no sum is recorded, and
      the pass so far is trivially greedy. */
  lemma MovingStart(cells: seq<Cell>, nets: seq<Net>, buckets: seq<set<nat>>, maxPinNum: int, size0: int, size1: int, b: real)
    requires Structure(cells, nets) && CountsExact(Parts(cells), nets) && GainsFollow(cells, nets)
    requires PinsWithin(cells, maxPinNum) && BucketsOK(cells, buckets, maxPinNum)
    requires forall c :: 0 <= c < |cells| ==> !cells[c].lock
    requires size0 == NumOnSide(Parts(cells), false) && size1 == NumOnSide(Parts(cells), true)
    ensures Moving(cells, nets, cells, nets, buckets, maxPinNum, size0, size1, [])
    ensures PartialSums(MovedGains(cells, []), []) && BestPrefix([], Int32Min, 0)
    ensures Greedy(Parts(cells), nets, [], MovedGains(cells, []), |cells|, b)
    ensures RepeatFree(nets) ==> SumsAreDrops(Parts(cells), nets, [], [])
  {
    FlipSetNone(Parts(cells));
    GreedyNone(Parts(cells), nets, |cells|, b);
    assert MovedGains(cells, []) == [];
  }

  lemma MovingShape(cells0: seq<Cell>, nets0: seq<Net>, cells: seq<Cell>, nets: seq<Net>,
                    buckets: seq<set<nat>>, maxPinNum: int, size0: int, size1: int, moves: seq<nat>)
    requires Moving(cells0, nets0, cells, nets, buckets, maxPinNum, size0, size1, moves)
    ensures SameShape(cells0, nets0, cells, nets) && Structure(cells, nets) && Tracked(cells0, cells, moves)
    ensures size0 == NumOnSide(Parts(cells), false) && size1 == NumOnSide(Parts(cells), true)
  {
  }

  /** After as many moves as cells, every cell has moved once. */
  lemma MovingDone(cells0: seq<Cell>, nets0: seq<Net>, cells: seq<Cell>, nets: seq<Net>,
                   buckets: seq<set<nat>>, maxPinNum: int, size0: int, size1: int, moves: seq<nat>)
    requires Moving(cells0, nets0, cells, nets, buckets, maxPinNum, size0, size1, moves) && |moves| == |cells0|
    ensures SameShape(cells0, nets0, cells, nets) && Structure(cells, nets) && Tracked(cells0, cells, moves)
    ensures Distinct(moves) && Elems(moves) == Ids(|cells0|)
    ensures Parts(cells) == Complement(Parts(cells0))
  {
    AllMoved(moves, |cells0|);
    FlipSetAll(Parts(cells0));
  }

  /** The next partial sum is the drop of the cut after one more move. */
  lemma NextSum(parts0: seq<bool>, nets: seq<Net>, moves: seq<nat>, m: nat, sums: seq<int>, g: int,
                moves': seq<nat>, sums': seq<int>)
    requires |sums| == |moves| && moves' == moves + [m] && sums' == sums + [LastSum(sums) + g]
    requires RepeatFree(nets) ==> SumsAreDrops(parts0, nets, moves, sums)
    requires RepeatFree(nets) ==>
      Cut(parts0, nets) - Cut(FlipSet(parts0, Elems(moves + [m])), nets)
        == (Cut(parts0, nets) - Cut(FlipSet(parts0, Elems(moves)), nets)) + g
    ensures RepeatFree(nets) ==> SumsAreDrops(parts0, nets, moves', sums')
  {
    if RepeatFree(nets) {
      if |sums| == 0 {
        assert Elems(moves) == {};
        FlipSetNone(parts0);
      } else {
        assert moves[..|sums|] == moves;
      }
    }
    SumsStep(parts0, nets, moves, m, sums, LastSum(sums) + g);
  }

  /** Each partial sum is the drop of the cut after that many moves. */
  ghost predicate SumsAreDrops(parts0: seq<bool>, nets: seq<Net>, moves: seq<nat>, sums: seq<int>) {
    |sums| <= |moves| &&
    forall k :: 0 <= k < |sums| ==>
      sums[k] == Cut(parts0, nets) - Cut(FlipSet(parts0, Elems(moves[..k + 1])), nets)
  }

  /** The partial-sum invariant carries over to one more move. */
  lemma SumsStep(parts0: seq<bool>, nets: seq<Net>, moves: seq<nat>, m: nat, sums: seq<int>, sum: int)
    requires |sums| == |moves|
    requires RepeatFree(nets) ==> forall k :: 0 <= k < |sums| ==>
      sums[k] == Cut(parts0, nets) - Cut(FlipSet(parts0, Elems(moves[..k + 1])), nets)
    requires RepeatFree(nets) ==>
      sum == Cut(parts0, nets) - Cut(FlipSet(parts0, Elems(moves + [m])), nets)
    ensures RepeatFree(nets) ==> forall k :: 0 <= k < |sums| + 1 ==>
      (sums + [sum])[k] == Cut(parts0, nets) - Cut(FlipSet(parts0, Elems((moves + [m])[..k + 1])), nets)
  {
    if RepeatFree(nets) {
      forall k | 0 <= k < |sums| + 1
        ensures (sums + [sum])[k] == Cut(parts0, nets) - Cut(FlipSet(parts0, Elems((moves + [m])[..k + 1])), nets)
      {
        if k < |sums| {
          assert (moves + [m])[..k + 1] == moves[..k + 1];
        } else {
          assert (moves + [m])[..k + 1] == moves + [m];
        }
      }
    }
  }

  // ---------------------------------------------------------------------
  // Move back, recount, and the whole pass

  /** Flips back every cell of `tail`, the moves after the best prefix. */
  method Rollback(cells: seq<Cell>, tail: seq<nat>) returns (cells': seq<Cell>)
    requires Distinct(tail) && forall k :: 0 <= k < |tail| ==> tail[k] < |cells|
    ensures |cells'| == |cells|
    ensures Parts(cells') == FlipSet(Parts(cells), Elems(tail))
    ensures forall c :: 0 <= c < |cells| ==> cells'[c] == cells[c].(part := cells'[c].part)
  {
    cells' := cells;
    FlipSetNone(Parts(cells));
    for i := 0 to |tail|
      invariant |cells'| == |cells|
      invariant Parts(cells') == FlipSet(Parts(cells), Elems(tail[..i]))
      invariant forall c :: 0 <= c < |cells| ==> cells'[c] == cells[c].(part := cells'[c].part)
    {
      var x := tail[i];
      assert tail[..i + 1] == tail[..i] + [x];
      assert Elems(tail[..i + 1]) == Elems(tail[..i]) + {x};
      FlipSetAdd(Parts(cells), Elems(tail[..i]), x);
      cells' := cells'[x := cells'[x].(part := !cells'[x].part)];
    }
    assert tail[..|tail|] == tail;
  }

  /** After all cells moved, flipping back the moves from index `j` on
      leaves exactly the first `j` moves applied. */
  lemma RollbackLeavesPrefix(parts0: seq<bool>, moves: seq<nat>, j: nat)
    requires Distinct(moves) && Elems(moves) == Ids(|parts0|) && j <= |moves|
    ensures FlipSet(Complement(parts0), Elems(moves[j..])) == FlipSet(parts0, Elems(moves[..j]))
  {
    forall c | 0 <= c < |parts0|
      ensures (c in Elems(moves[j..])) == !(c in Elems(moves[..j]))
    {
      assert c in Elems(moves);
      var k :| 0 <= k < |moves| && moves[k] == c;
      if k < j {
        assert moves[..j][k] == c;
        assert forall i :: 0 <= i < |moves[j..]| ==> moves[j..][i] == moves[j + i];
      } else {
        assert moves[j..][k - j] == c;
        assert forall i :: 0 <= i < |moves[..j]| ==> moves[..j][i] == moves[i];
      }
    }
  }

  /** countNetPartCount, countPartsize, countCutsize and countGain, in the
      source's order, after the move back. */
  method Recompute(p: Partitioner, cells: seq<Cell>, nets: seq<Net>) returns (q: Partitioner)
    requires Structure(cells, nets) && p.cellNum == |cells|
    ensures Counted(q)
    ensures q == p.(cells := q.cells, nets := q.nets, partSize0 := q.partSize0, partSize1 := q.partSize1, cutSize := q.cutSize)
    ensures Parts(q.cells) == Parts(cells) && SameShape(cells, nets, q.cells, q.nets)
  {
    var nets' := CountNetPartCount(cells, nets);
    SameShapeKeepsStructure(cells, nets, cells, nets');
    var sizeA, sizeB := CountPartsize(cells);
    var cut := CountCutsize(nets');
    StoredCutIsCut(Parts(cells), nets', |nets'|);
    var cells' := CountGain(cells, nets');
    SameShapeKeepsStructure(cells, nets', cells', nets');
    assert Parts(cells') == Parts(cells);
    q := p.(cells := cells', nets := nets', partSize0 := sizeA, partSize1 := sizeB, cutSize := cut);
  }

  /** The outcome of one pass: the engine after it, the best partial sum
      it returns, the move order, the partial sums, the index of the best
      prefix and the gain each move was chosen with; or the cells and the
      moves so far at a step where no cell may move. */
  datatype PassResult =
    | Passed(p: Partitioner, maxPartialSum: int, moves: seq<nat>, sums: seq<int>, best: nat, gains: seq<int>)
    | NoFeasibleMove(cells: seq<Cell>, moves: seq<nat>)

  /** What one pass promises, from the engine `p` it starts with.  A
      completed pass moved every cell once, in the order `moves`; each
      partial sum is the total of the gains the moves were chosen with;
      `best` is the first index of the largest partial sum; only the best
      prefix stays applied when that sum is positive and every cell stays
      moved otherwise; everything is recounted; and, when no net lists a
      cell twice, each partial sum is the drop of the cut so far and the
      pass lowers the cut by its positive best partial sum.  A stuck pass
      made fewer moves than there are cells, each from its own side, and
      reached sides from which no free cell may move. */
  ghost predicate PassOutcome(p: Partitioner, r: PassResult) {
    match r
    case Passed(q, maxPS, moves, sums, best, gains) =>
      && Ready(q) && SameShape(p.cells, p.nets, q.cells, q.nets)
      && q == p.(cells := q.cells, nets := q.nets, partSize0 := q.partSize0, partSize1 := q.partSize1, cutSize := q.cutSize)
      && |moves| == |p.cells| && Distinct(moves) && Elems(moves) == Ids(|p.cells|)
      && |sums| == |p.cells| && PartialSums(gains, sums) && BestPrefix(sums, maxPS, best)
      && Settled(Parts(p.cells), Parts(q.cells), moves, maxPS, best)
      && (RepeatFree(p.nets) ==> SumsAreDrops(Parts(p.cells), p.nets, moves, sums))
      && (RepeatFree(p.nets) ==> q.cutSize == p.cutSize - (if maxPS > 0 then maxPS else 0))
      && (|p.cells| == 0 ==> maxPS == Int32Min)
    case NoFeasibleMove(cells, moves) =>
      && |moves| < |p.cells| && Tracked(p.cells, cells, moves)
      && forall c :: 0 <= c < |cells| ==>
        !Feasible(cells, c, NumOnSide(Parts(cells), false), NumOnSide(Parts(cells), true), p.cellNum, p.bFactor)
  }

  /** How a pass chose its moves, from the engine `p` it starts with: each
      move, completed or up to the step where the pass got stuck, was a
      free cell allowed to leave its side with the highest gain there, and
      the gain recorded for it is its gain at that point. */
  ghost predicate PassChoices(p: Partitioner, r: PassResult) {
    match r
    case Passed(_, _, moves, _, _, gains) =>
      Greedy(Parts(p.cells), p.nets, moves, gains, p.cellNum, p.bFactor)
    case NoFeasibleMove(cells, moves) =>
      && (forall k :: 0 <= k < |moves| ==> moves[k] < |cells|)
      && Greedy(Parts(p.cells), p.nets, moves, MovedGains(cells, moves), p.cellNum, p.bFactor)
  }

  lemma SuffixIds(moves: seq<nat>, n: nat, j: nat)
    requires Distinct(moves) && Elems(moves) == Ids(n) && j <= |moves|
    ensures Distinct(moves[j..]) && forall k :: 0 <= k < |moves[j..]| ==> moves[j..][k] < n
  {
    forall k | 0 <= k < |moves[j..]| ensures moves[j..][k] < n {
      assert moves[j..][k] == moves[j + k];
      assert moves[j + k] in Elems(moves);
    }
  }

  /** The sides a pass leaves, from the sides `parts0` it started with:
      only the best prefix of the moves applied when the best partial sum
      is positive, every cell moved otherwise. */
  predicate Settled(parts0: seq<bool>, parts: seq<bool>, moves: seq<nat>, maxPS: int, best: nat) {
    if maxPS > 0 then best < |moves| && parts == FlipSet(parts0, Elems(moves[..best + 1]))
    else parts == Complement(parts0)
  }

  /** The end of a pass that moved every cell: the move back of the moves
      after the best prefix when the best partial sum is positive, then the
      recount. */
  method Settle(p: Partitioner, cells: seq<Cell>, nets: seq<Net>, moves: seq<nat>, maxPS: int, best: nat)
    returns (q: Partitioner)
    requires p.cellNum == |p.cells| && p.maxPinNum >= 0 && PinsWithin(p.cells, p.maxPinNum)
    requires SameShape(p.cells, p.nets, cells, nets) && Structure(cells, nets)
    requires |moves| == |p.cells| && Distinct(moves) && Elems(moves) == Ids(|p.cells|)
    requires Parts(cells) == Complement(Parts(p.cells))
    requires maxPS > 0 ==> best < |moves|
    ensures Ready(q) && SameShape(p.cells, p.nets, q.cells, q.nets)
    ensures q == p.(cells := q.cells, nets := q.nets, partSize0 := q.partSize0, partSize1 := q.partSize1, cutSize := q.cutSize)
    ensures Settled(Parts(p.cells), Parts(q.cells), moves, maxPS, best)
  {
    var final := MoveBack(p.cells, cells, moves, maxPS, best);
    SameShapeTrans(p.cells, p.nets, cells, nets, final, nets);
    SameShapeKeepsStructure(cells, nets, final, nets);
    q := Recompute(p, final, nets);
    SameShapeTrans(p.cells, p.nets, final, nets, q.cells, q.nets);
    PinsCarry(p.cells, p.nets, q.cells, q.nets, q.maxPinNum);
  }

  /** The move back: when the best partial sum is positive, the cells
      moved after the best prefix return, leaving the prefix applied;
      otherwise every cell stays moved. */
  method MoveBack(cells0: seq<Cell>, cells: seq<Cell>, moves: seq<nat>, maxPS: int, best: nat) returns (final: seq<Cell>)
    requires |cells| == |cells0| && |moves| == |cells0| && Distinct(moves) && Elems(moves) == Ids(|cells0|)
    requires Parts(cells) == Complement(Parts(cells0))
    requires maxPS > 0 ==> best < |moves|
    ensures |final| == |cells| && forall c :: 0 <= c < |cells| ==> final[c] == cells[c].(part := final[c].part)
    ensures Settled(Parts(cells0), Parts(final), moves, maxPS, best)
  {
    final := cells;
    if maxPS > 0 {
      SuffixIds(moves, |cells0|, best + 1);
      final := Rollback(cells, moves[best + 1..]);
      RollbackLeavesPrefix(Parts(cells0), moves, best + 1);
    }
  }

  /** Pin counts do not change with sides, so neither does the bucket
      offset's cover. */
  lemma PinsCarry(cells: seq<Cell>, nets: seq<Net>, cells': seq<Cell>, nets': seq<Net>, maxPinNum: int)
    requires SameShape(cells, nets, cells', nets') && PinsWithin(cells, maxPinNum)
    ensures PinsWithin(cells', maxPinNum)
  {
  }

  /** The pass lowers the cut by its best partial sum when that sum is
      positive and leaves it as it was otherwise. */
  lemma PassCut(p: Partitioner, q: Partitioner, moves: seq<nat>, sums: seq<int>, maxPS: int, best: nat)
    requires p.cutSize == Cut(Parts(p.cells), p.nets) && q.cutSize == Cut(Parts(q.cells), q.nets)
    requires SameShape(p.cells, p.nets, q.cells, q.nets) && RepeatFree(p.nets)
    requires BestPrefix(sums, maxPS, best) && SumsAreDrops(Parts(p.cells), p.nets, moves, sums)
    requires Settled(Parts(p.cells), Parts(q.cells), moves, maxPS, best)
    ensures q.cutSize == p.cutSize - (if maxPS > 0 then maxPS else 0)
  {
    CutSameLists(Parts(q.cells), p.nets, q.nets, |p.nets|);
    if maxPS <= 0 {
      CutComplement(Parts(p.cells), p.nets, |p.nets|);
    }
  }

  /** The start of a pass: every cell unlocked and filed in the bucket of
      its gain. */
  method Start(p: Partitioner) returns (cells: seq<Cell>, buckets: seq<set<nat>>)
    requires Ready(p)
    ensures Parts(cells) == Parts(p.cells) && SameShape(p.cells, p.nets, cells, p.nets)
    ensures Structure(cells, p.nets) && CountsExact(Parts(cells), p.nets) && GainsFollow(cells, p.nets)
    ensures PinsWithin(cells, p.maxPinNum) && BucketsOK(cells, buckets, p.maxPinNum)
    ensures forall c :: 0 <= c < |cells| ==> !cells[c].lock
    ensures p.partSize0 == NumOnSide(Parts(cells), false) && p.partSize1 == NumOnSide(Parts(cells), true)
    ensures Cut(Parts(cells), p.nets) == p.cutSize
  {
    GainBoundAll(p.cells, p.nets);
    cells, buckets := Build(p.cells, p.maxPinNum);
    assert Parts(cells) == Parts(p.cells);
    assert SameShape(p.cells, p.nets, cells, p.nets);
    SameShapeKeepsStructure(p.cells, p.nets, cells, p.nets);
  }

  /** One FM pass (`FM` in the source): unlock every cell and fill the
      buckets, move every cell once by highest feasible gain (`PassChoices`),
      keep the first best prefix of moves when its partial sum is positive
      and move the rest back, then recount everything (`PassOutcome`). */
  method FM(p: Partitioner) returns (r: PassResult)
    requires Ready(p)
    ensures PassOutcome(p, r) && PassChoices(p, r)
  {
    var done, cells', nets', moves, sums, maxPS, best := Sweep(p);
    if !done {
      r := NoFeasibleMove(cells', moves);
      StuckOutcome(p, cells', moves);
    } else {
      r := Complete(p, cells', nets', moves, sums, maxPS, best);
    }
  }

  /** The move phase of a pass from the engine `p`: the buckets filled,
      then the move loop, with its results stated against `p`. */
  method Sweep(p: Partitioner) returns (done: bool, cells': seq<Cell>, nets': seq<Net>, moves: seq<nat>, sums: seq<int>, maxPS: int, best: nat)
    requires Ready(p)
    ensures SameShape(p.cells, p.nets, cells', nets') && Structure(cells', nets') && Tracked(p.cells, cells', moves)
    ensures PartialSums(MovedGains(cells', moves), sums) && BestPrefix(sums, maxPS, best)
    ensures Greedy(Parts(p.cells), p.nets, moves, MovedGains(cells', moves), p.cellNum, p.bFactor)
    ensures RepeatFree(p.nets) ==> SumsAreDrops(Parts(p.cells), p.nets, moves, sums)
    ensures !done ==> |moves| < |p.cells|
    ensures !done ==> forall c :: 0 <= c < |cells'| ==>
      !Feasible(cells', c, NumOnSide(Parts(cells'), false), NumOnSide(Parts(cells'), true), p.cellNum, p.bFactor)
    ensures done ==> |moves| == |p.cells| && Distinct(moves) && Elems(moves) == Ids(|p.cells|)
    ensures done ==> Parts(cells') == Complement(Parts(p.cells))
  {
    var cells, buckets := Start(p);
    done, cells', nets', moves, sums, maxPS, best :=
      MoveAll(cells, p.nets, buckets, p.maxPinNum, p.partSize0, p.partSize1, p.bFactor);
    SameShapeTrans(p.cells, p.nets, cells, p.nets, cells', nets');
  }

  /** The end of a pass that moved every cell: settle, recount, and report
      the pass with the gains its moves were chosen with. */
  method Complete(p: Partitioner, cells: seq<Cell>, nets: seq<Net>, moves: seq<nat>, sums: seq<int>, maxPS: int, best: nat)
    returns (r: PassResult)
    requires Ready(p)
    requires SameShape(p.cells, p.nets, cells, nets) && Structure(cells, nets) && Tracked(p.cells, cells, moves)
    requires PartialSums(MovedGains(cells, moves), sums) && BestPrefix(sums, maxPS, best)
    requires Greedy(Parts(p.cells), p.nets, moves, MovedGains(cells, moves), p.cellNum, p.bFactor)
    requires RepeatFree(p.nets) ==> SumsAreDrops(Parts(p.cells), p.nets, moves, sums)
    requires |moves| == |p.cells| && Distinct(moves) && Elems(moves) == Ids(|p.cells|)
    requires Parts(cells) == Complement(Parts(p.cells))
    ensures PassOutcome(p, r) && PassChoices(p, r)
  {
    var q := Settle(p, cells, nets, moves, maxPS, best);
    r := Passed(q, maxPS, moves, sums, best, MovedGains(cells, moves));
    if RepeatFree(p.nets) {
      PassCut(p, q, moves, sums, maxPS, best);
    }
    PassedOutcome(p, q, maxPS, moves, sums, best, MovedGains(cells, moves));
  }

  /** A completed pass's facts make up its outcome. */
  lemma PassedOutcome(p: Partitioner, q: Partitioner, maxPS: int, moves: seq<nat>, sums: seq<int>, best: nat, gains: seq<int>)
    requires Ready(q) && SameShape(p.cells, p.nets, q.cells, q.nets)
    requires q == p.(cells := q.cells, nets := q.nets, partSize0 := q.partSize0, partSize1 := q.partSize1, cutSize := q.cutSize)
    requires |moves| == |p.cells| && Distinct(moves) && Elems(moves) == Ids(|p.cells|)
    requires |sums| == |p.cells| && PartialSums(gains, sums) && BestPrefix(sums, maxPS, best)
    requires Greedy(Parts(p.cells), p.nets, moves, gains, p.cellNum, p.bFactor)
    requires Settled(Parts(p.cells), Parts(q.cells), moves, maxPS, best)
    requires RepeatFree(p.nets) ==> SumsAreDrops(Parts(p.cells), p.nets, moves, sums)
    requires RepeatFree(p.nets) ==> q.cutSize == p.cutSize - (if maxPS > 0 then maxPS else 0)
    requires |p.cells| == 0 ==> maxPS == Int32Min
    ensures PassOutcome(p, Passed(q, maxPS, moves, sums, best, gains))
    ensures PassChoices(p, Passed(q, maxPS, moves, sums, best, gains))
  {
  }

  /** A stuck pass's facts make up its outcome. */
  lemma StuckOutcome(p: Partitioner, cells: seq<Cell>, moves: seq<nat>)
    requires |moves| < |p.cells| && Tracked(p.cells, cells, moves)
    requires Greedy(Parts(p.cells), p.nets, moves, MovedGains(cells, moves), p.cellNum, p.bFactor)
    requires forall c :: 0 <= c < |cells| ==>
      !Feasible(cells, c, NumOnSide(Parts(cells), false), NumOnSide(Parts(cells), true), p.cellNum, p.bFactor)
    ensures PassOutcome(p, NoFeasibleMove(cells, moves))
    ensures PassChoices(p, NoFeasibleMove(cells, moves))
  {
  }
}
