/** The from-scratch recomputations the partitioner runs after the initial
    partition and after every pass: per-net side counts, cut size,
    partition sizes and the largest pin count. */
module Recount {
  import opened Hypergraph

  /** countNetPartCount: reset both counts of every net and add one per
      listed member on each side. */
  function CountNetPartCount(cells: seq<Cell>, nets: seq<Net>): (r: seq<Net>)
    requires ValidIds(cells, nets)
    ensures SameShape(cells, nets, cells, r)
    ensures CountsExact(Parts(cells), r)
    ensures forall n :: 0 <= n < |r| ==> r[n].count0 + r[n].count1 == |r[n].cellList|
  {
    CountsCoverNets(cells, nets);
    seq(|nets|, n requires 0 <= n < |nets| =>
      nets[n].(count0 := SideCount(nets[n].cellList, Parts(cells), false),
               count1 := SideCount(nets[n].cellList, Parts(cells), true)))
  }

  lemma CountsCoverNets(cells: seq<Cell>, nets: seq<Net>)
    requires ValidIds(cells, nets)
    ensures forall n :: 0 <= n < |nets| ==>
      SideCount(nets[n].cellList, Parts(cells), false) + SideCount(nets[n].cellList, Parts(cells), true)
        == |nets[n].cellList|
  {
    forall n | 0 <= n < |nets|
      ensures SideCount(nets[n].cellList, Parts(cells), false) + SideCount(nets[n].cellList, Parts(cells), true)
        == |nets[n].cellList|
    {
      SideCountSum(nets[n].cellList, Parts(cells));
    }
  }

  /** Number of nets among the first `k` whose stored counts are both positive. */
  function StoredCut(nets: seq<Net>, k: nat): nat
    requires k <= |nets|
  {
    if k == 0 then 0
    else StoredCut(nets, k - 1) + (if nets[k - 1].count0 > 0 && nets[k - 1].count1 > 0 then 1 else 0)
  }

  /** countCutsize: count the nets with members on both sides according to
      their stored counts. */
  method CountCutsize(nets: seq<Net>) returns (cut: int)
    ensures cut == StoredCut(nets, |nets|)
    ensures 0 <= cut <= |nets|
  {
    var counter := 0;
    for i := 0 to |nets|
      invariant counter == StoredCut(nets, i) <= i
    {
      if nets[i].count0 > 0 && nets[i].count1 > 0 {
        counter := counter + 1;
      }
    }
    cut := counter;
  }

  /** When the stored counts are exact, the counted cut is the number of
      nets with members on both sides. */
  lemma {:induction false} StoredCutIsCut(parts: seq<bool>, nets: seq<Net>, k: nat)
    requires CountsExact(parts, nets) && k <= |nets|
    ensures StoredCut(nets, k) == CutUpTo(parts, nets, k)
  {
    if k > 0 {
      StoredCutIsCut(parts, nets, k - 1);
    }
  }

  /** countPartsize: number of cells on each side. */
  method CountPartsize(cells: seq<Cell>) returns (sizeA: int, sizeB: int)
    ensures sizeA == NumOnSide(Parts(cells), false) && sizeB == NumOnSide(Parts(cells), true)
    ensures sizeA + sizeB == |cells|
  {
    var parts := Parts(cells);
    sizeA, sizeB := 0, 0;
    for i := 0 to |cells|
      invariant sizeA == NumOnSide(parts[..i], false) && sizeB == NumOnSide(parts[..i], true)
      invariant sizeA + sizeB == i
    {
      assert parts[..i + 1][..i] == parts[..i];
      if !cells[i].part {
        sizeA := sizeA + 1;
      } else {
        sizeB := sizeB + 1;
      }
    }
    assert parts[..|cells|] == parts;
  }

  /** countMaxPinNum: the largest pin count, 0 for an empty circuit. */
  method CountMaxPinNum(cells: seq<Cell>) returns (maxPinNum: int)
    ensures maxPinNum >= 0
    ensures forall c :: 0 <= c < |cells| ==> cells[c].pinNum <= maxPinNum
    ensures maxPinNum == 0 || exists c :: 0 <= c < |cells| && cells[c].pinNum == maxPinNum
  {
    maxPinNum := 0;
    for i := 0 to |cells|
      invariant maxPinNum >= 0
      invariant forall c :: 0 <= c < i ==> cells[c].pinNum <= maxPinNum
      invariant maxPinNum == 0 || exists c :: 0 <= c < i && cells[c].pinNum == maxPinNum
    {
      if cells[i].pinNum > maxPinNum {
        maxPinNum := cells[i].pinNum;
      }
    }
  }
}
