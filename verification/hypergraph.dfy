/** The circuit hypergraph of the Fiduccia–Mattheyses partitioner: cells,
    nets, and the engine record that owns both as dense integer-indexed
    arrays.  Cross references between cells and nets are ids, never
    pointers. */
module Hypergraph {

  /** A side of the bipartition: false is partition A (0), true is B (1). */
  type Side = bool

  /** A movable unit.  `netList` holds one entry per accepted pin, so a net
      id appears in it once for every occurrence of the cell in that net. */
  datatype Cell = Cell(name: string, part: Side, lock: bool, gain: int, pinNum: int, netList: seq<nat>)

  /** A hyperedge with its per-side member counts `partCount[0]`, `partCount[1]`. */
  datatype Net = Net(name: string, cellList: seq<nat>, count0: int, count1: int)
  {
    function PartCount(p: Side): int {
      if p then count1 else count0
    }

    function WithPartCount(p: Side, v: int): Net {
      if p then this.(count1 := v) else this.(count0 := v)
    }
  }

  /** The engine state: counters, balance factor and the two arenas plus
      the name-to-id maps built while reading the netlist. */
  datatype Partitioner = Partitioner(
    cutSize: int,
    partSize0: int,
    partSize1: int,
    netNum: int,
    cellNum: int,
    maxPinNum: int,
    bFactor: real,
    cells: seq<Cell>,
    nets: seq<Net>,
    netName2Id: map<string, nat>,
    cellName2Id: map<string, nat>)
  {
    function PartSize(p: Side): int {
      if p then partSize1 else partSize0
    }
  }

  datatype Option<T> = None | Some(value: T)

  /** The side of every cell, in id order. */
  function Parts(cells: seq<Cell>): (r: seq<bool>)
    ensures |r| == |cells|
    ensures forall c :: 0 <= c < |cells| ==> r[c] == cells[c].part
  {
    seq(|cells|, c requires 0 <= c < |cells| => cells[c].part)
  }

  /** Every cell moved to the other side. */
  function Complement(parts: seq<bool>): (r: seq<bool>)
    ensures |r| == |parts|
    ensures forall c :: 0 <= c < |parts| ==> r[c] == !parts[c]
  {
    seq(|parts|, c requires 0 <= c < |parts| => !parts[c])
  }

  /** Every cell whose id is in `moved` on the other side. */
  function FlipSet(parts: seq<bool>, moved: set<nat>): (r: seq<bool>)
    ensures |r| == |parts|
    ensures forall c :: 0 <= c < |parts| ==> r[c] == (if c in moved then !parts[c] else parts[c])
  {
    seq(|parts|, c requires 0 <= c < |parts| => if c in moved then !parts[c] else parts[c])
  }

  ghost predicate NoRepeats(s: seq<nat>) {
    forall x :: multiset(s)[x] <= 1
  }

  // ---------------------------------------------------------------------
  // Well-formedness of the arenas

  /** Every cross reference points into the other arena. */
  ghost predicate ValidIds(cells: seq<Cell>, nets: seq<Net>) {
    && (forall c, j :: 0 <= c < |cells| && 0 <= j < |cells[c].netList| ==> cells[c].netList[j] < |nets|)
    && (forall n, j :: 0 <= n < |nets| && 0 <= j < |nets[n].cellList| ==> nets[n].cellList[j] < |cells|)
  }

  /** A net id occurs in a cell's net list exactly as often as the cell
      occurs in that net's cell list. */
  ghost predicate Incident(cells: seq<Cell>, nets: seq<Net>) {
    forall c, n :: 0 <= c < |cells| && 0 <= n < |nets| ==>
      multiset(cells[c].netList)[n] == multiset(nets[n].cellList)[c]
  }

  ghost predicate PinsCounted(cells: seq<Cell>) {
    forall c :: 0 <= c < |cells| ==> cells[c].pinNum == |cells[c].netList|
  }

  /** The shape the parser builds and every later phase keeps. */
  ghost predicate Structure(cells: seq<Cell>, nets: seq<Net>) {
    ValidIds(cells, nets) && Incident(cells, nets) && PinsCounted(cells)
  }

  /** No net lists a cell twice. */
  ghost predicate RepeatFree(nets: seq<Net>) {
    forall n :: 0 <= n < |nets| ==> NoRepeats(nets[n].cellList)
  }

  /** Every cell is a member of at least one net. */
  ghost predicate Covered(cells: seq<Cell>) {
    forall c :: 0 <= c < |cells| ==> |cells[c].netList| > 0
  }

  /** The two arenas differ at most in the mutable fields (side, lock,
      gain, per-side counts). */
  ghost predicate SameShape(cells: seq<Cell>, nets: seq<Net>, cells': seq<Cell>, nets': seq<Net>) {
    && |cells'| == |cells| && |nets'| == |nets|
    && (forall c :: 0 <= c < |cells| ==>
          cells'[c].netList == cells[c].netList && cells'[c].pinNum == cells[c].pinNum && cells'[c].name == cells[c].name)
    && (forall n :: 0 <= n < |nets| ==> nets'[n].cellList == nets[n].cellList && nets'[n].name == nets[n].name)
  }

  lemma SameShapeTrans(cells: seq<Cell>, nets: seq<Net>, cells': seq<Cell>, nets': seq<Net>, cells'': seq<Cell>, nets'': seq<Net>)
    requires SameShape(cells, nets, cells', nets') && SameShape(cells', nets', cells'', nets'')
    ensures SameShape(cells, nets, cells'', nets'')
  {
  }

  lemma SameShapeKeepsStructure(cells: seq<Cell>, nets: seq<Net>, cells': seq<Cell>, nets': seq<Net>)
    requires Structure(cells, nets) && SameShape(cells, nets, cells', nets')
    ensures Structure(cells', nets')
    ensures RepeatFree(nets) ==> RepeatFree(nets')
    ensures Covered(cells) ==> Covered(cells')
  {
  }

  // ---------------------------------------------------------------------
  // Per-side counts and the cut

  /** Number of entries of `cl` that name a cell on side `p`. */
  function SideCount(cl: seq<nat>, parts: seq<bool>, p: Side): nat
  {
    if |cl| == 0 then 0
    else (if cl[0] < |parts| && parts[cl[0]] == p then 1 else 0) + SideCount(cl[1..], parts, p)
  }

  /** Number of cells on side `p`. */
  function NumOnSide(parts: seq<bool>, p: Side): nat
  {
    if |parts| == 0 then 0
    else NumOnSide(parts[..|parts| - 1], p) + (if parts[|parts| - 1] == p then 1 else 0)
  }

  /** A net is cut when it has members on both sides. */
  predicate IsCut(cl: seq<nat>, parts: seq<bool>) {
    SideCount(cl, parts, false) > 0 && SideCount(cl, parts, true) > 0
  }

  /** Number of cut nets among the first `k`. */
  function CutUpTo(parts: seq<bool>, nets: seq<Net>, k: nat): nat
    requires k <= |nets|
  {
    if k == 0 then 0
    else CutUpTo(parts, nets, k - 1) + (if IsCut(nets[k - 1].cellList, parts) then 1 else 0)
  }

  /** The cut size of a side assignment. */
  function Cut(parts: seq<bool>, nets: seq<Net>): nat {
    CutUpTo(parts, nets, |nets|)
  }

  /** The stored per-side counts of every net agree with the sides. */
  ghost predicate CountsExact(parts: seq<bool>, nets: seq<Net>) {
    forall n :: 0 <= n < |nets| ==>
      nets[n].count0 == SideCount(nets[n].cellList, parts, false) &&
      nets[n].count1 == SideCount(nets[n].cellList, parts, true)
  }

  // ---------------------------------------------------------------------
  // Lemmas about SideCount

  lemma {:induction false} SideCountSum(cl: seq<nat>, parts: seq<bool>)
    requires forall j :: 0 <= j < |cl| ==> cl[j] < |parts|
    ensures SideCount(cl, parts, false) + SideCount(cl, parts, true) == |cl|
  {
    if |cl| > 0 {
      SideCountSum(cl[1..], parts);
    }
  }

  lemma {:induction false} SideCountAbsent(cl: seq<nat>, parts: seq<bool>, x: nat, v: bool, p: Side)
    requires x < |parts| && x !in cl
    ensures SideCount(cl, parts[x := v], p) == SideCount(cl, parts, p)
  {
    if |cl| > 0 {
      SideCountAbsent(cl[1..], parts, x, v, p);
    }
  }

  /** Flipping a cell moves as many units of a net's count from the old
      side to the new one as the net lists the cell. */
  lemma {:induction false} SideCountFlip(cl: seq<nat>, parts: seq<bool>, x: nat)
    requires x < |parts|
    ensures SideCount(cl, parts[x := !parts[x]], parts[x]) == SideCount(cl, parts, parts[x]) - multiset(cl)[x]
    ensures SideCount(cl, parts[x := !parts[x]], !parts[x]) == SideCount(cl, parts, !parts[x]) + multiset(cl)[x]
  {
    if |cl| > 0 {
      assert cl == [cl[0]] + cl[1..];
      assert multiset(cl) == multiset{cl[0]} + multiset(cl[1..]);
      SideCountFlip(cl[1..], parts, x);
    }
  }

  lemma {:induction false} SideCountComplement(cl: seq<nat>, parts: seq<bool>, p: Side)
    ensures SideCount(cl, Complement(parts), p) == SideCount(cl, parts, !p)
  {
    if |cl| > 0 {
      SideCountComplement(cl[1..], parts, p);
    }
  }

  /** A net counts every listing of a cell on that cell's side. */
  lemma {:induction false} SideCountAtLeast(cl: seq<nat>, parts: seq<bool>, x: nat)
    requires x < |parts|
    ensures SideCount(cl, parts, parts[x]) >= multiset(cl)[x]
  {
    if |cl| > 0 {
      assert cl == [cl[0]] + cl[1..];
      assert multiset(cl) == multiset{cl[0]} + multiset(cl[1..]);
      SideCountAtLeast(cl[1..], parts, x);
    }
  }

  /** Two different cells on one side are both counted there. */
  lemma {:induction false} SideCountAtLeastTwo(cl: seq<nat>, parts: seq<bool>, x: nat, y: nat)
    requires x != y && x < |parts| && y < |parts| && parts[x] == parts[y]
    ensures SideCount(cl, parts, parts[x]) >= multiset(cl)[x] + multiset(cl)[y]
  {
    if |cl| > 0 {
      assert cl == [cl[0]] + cl[1..];
      assert multiset(cl) == multiset{cl[0]} + multiset(cl[1..]);
      SideCountAtLeastTwo(cl[1..], parts, x, y);
    }
  }

  /** Only the sides of listed cells matter. */
  lemma {:induction false} SideCountAgree(cl: seq<nat>, parts: seq<bool>, parts': seq<bool>, p: Side)
    requires |parts'| == |parts|
    requires forall j :: 0 <= j < |cl| && cl[j] < |parts| ==> parts'[cl[j]] == parts[cl[j]]
    ensures SideCount(cl, parts', p) == SideCount(cl, parts, p)
  {
    if |cl| > 0 {
      SideCountAgree(cl[1..], parts, parts', p);
    }
  }

  lemma {:induction false} NumOnSideSum(parts: seq<bool>)
    ensures NumOnSide(parts, false) + NumOnSide(parts, true) == |parts|
  {
    if |parts| > 0 {
      NumOnSideSum(parts[..|parts| - 1]);
    }
  }

  /** Flipping one cell moves it from one side's count to the other's. */
  lemma {:induction false} NumOnSideFlip(parts: seq<bool>, x: nat)
    requires x < |parts|
    ensures NumOnSide(parts[x := !parts[x]], parts[x]) == NumOnSide(parts, parts[x]) - 1
    ensures NumOnSide(parts[x := !parts[x]], !parts[x]) == NumOnSide(parts, !parts[x]) + 1
  {
    var k := |parts| - 1;
    if x == k {
      assert parts[x := !parts[x]][..k] == parts[..k];
    } else {
      assert parts[x := !parts[x]][..k] == parts[..k][x := !parts[x]];
      NumOnSideFlip(parts[..k], x);
    }
  }

  // ---------------------------------------------------------------------
  // Lemmas about the cut

  lemma {:induction false} CutAtMostNets(parts: seq<bool>, nets: seq<Net>, k: nat)
    requires k <= |nets|
    ensures CutUpTo(parts, nets, k) <= k
  {
    if k > 0 {
      CutAtMostNets(parts, nets, k - 1);
    }
  }

  /** The cut does not depend on which side is called A. */
  lemma {:induction false} CutComplement(parts: seq<bool>, nets: seq<Net>, k: nat)
    requires k <= |nets|
    ensures CutUpTo(Complement(parts), nets, k) == CutUpTo(parts, nets, k)
  {
    if k > 0 {
      CutComplement(parts, nets, k - 1);
      SideCountComplement(nets[k - 1].cellList, parts, false);
      SideCountComplement(nets[k - 1].cellList, parts, true);
    }
  }

  /** The cut depends on the member lists only, not on the stored counts. */
  lemma {:induction false} CutSameLists(parts: seq<bool>, nets: seq<Net>, nets': seq<Net>, k: nat)
    requires k <= |nets| == |nets'|
    requires forall n :: 0 <= n < |nets| ==> nets'[n].cellList == nets[n].cellList
    ensures CutUpTo(parts, nets', k) == CutUpTo(parts, nets, k)
  {
    if k > 0 {
      CutSameLists(parts, nets, nets', k - 1);
    }
  }

  // ---------------------------------------------------------------------
  // Pins, occurrences and repeat-freedom

  /** Total number of occurrences of cell `c` in the first `k` nets. */
  function OccSum(nets: seq<Net>, c: nat, k: nat): nat
    requires k <= |nets|
  {
    if k == 0 then 0 else OccSum(nets, c, k - 1) + multiset(nets[k - 1].cellList)[c]
  }

  /** Number of entries of `nl` below `k`, counted per value. */
  function ListCountBelow(nl: seq<nat>, k: nat): nat {
    if k == 0 then 0 else ListCountBelow(nl, k - 1) + multiset(nl)[k - 1]
  }

  lemma {:induction false} ListCountBelowSnoc(nl: seq<nat>, x: nat, k: nat)
    ensures ListCountBelow(nl + [x], k) == ListCountBelow(nl, k) + (if x < k then 1 else 0)
  {
    if k > 0 {
      ListCountBelowSnoc(nl, x, k - 1);
      assert multiset(nl + [x]) == multiset(nl) + multiset{x};
    }
  }

  lemma {:induction false} ListCountBelowAll(nl: seq<nat>, k: nat)
    requires forall j :: 0 <= j < |nl| ==> nl[j] < k
    ensures ListCountBelow(nl, k) == |nl|
  {
    if |nl| == 0 {
      ListCountBelowEmpty(k);
    } else {
      var front := nl[..|nl| - 1];
      assert nl == front + [nl[|nl| - 1]];
      ListCountBelowAll(front, k);
      ListCountBelowSnoc(front, nl[|nl| - 1], k);
    }
  }

  lemma {:induction false} ListCountBelowEmpty(k: nat)
    ensures ListCountBelow([], k) == 0
  {
    if k > 0 {
      ListCountBelowEmpty(k - 1);
    }
  }

  /** A cell occurs in the nets exactly `pinNum` times. */
  lemma {:induction false} OccSumIsPinNum(cells: seq<Cell>, nets: seq<Net>, c: nat)
    requires Structure(cells, nets) && c < |cells|
    ensures OccSum(nets, c, |nets|) == cells[c].pinNum
  {
    OccSumMatchesNetList(cells, nets, c, |nets|);
    ListCountBelowAll(cells[c].netList, |nets|);
  }

  lemma {:induction false} OccSumMatchesNetList(cells: seq<Cell>, nets: seq<Net>, c: nat, k: nat)
    requires Incident(cells, nets) && c < |cells| && k <= |nets|
    ensures OccSum(nets, c, k) == ListCountBelow(cells[c].netList, k)
  {
    if k > 0 {
      OccSumMatchesNetList(cells, nets, c, k - 1);
    }
  }

  lemma {:induction false} NoRepeatsCount(s: seq<nat>, x: nat)
    requires NoRepeats(s) && x in s
    ensures multiset(s)[x] == 1
  {
  }
}
