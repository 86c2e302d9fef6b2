/** The gain model: what moving one cell to the other side does to the
    cut, computed per net from the stored side counts. */
module Gain {
  import opened Hypergraph

  /** What one listing of a cell in a net adds to its gain, given the
      net's count on the cell's side (`own`) and on the other side: -1
      when the net lies wholly on one side, +1 when the cell is alone on
      its side (both apply to a one-member net). */
  function Contrib(own: int, other: int): int {
    (if own == 0 || other == 0 then -1 else 0) + (if own == 1 then 1 else 0)
  }

  /** The contribution of one net to cell `c` sitting on side `s`, once per listing. */
  function NetTerm(net: Net, c: nat, s: Side): int {
    var k: int := multiset(net.cellList)[c];
    var t := Contrib(net.PartCount(s), net.PartCount(!s));
    if t == 1 then k else if t == -1 then -k else 0
  }

  /** Gain of cell `c` on side `s` summed over the first `k` nets. */
  function GainUpTo(nets: seq<Net>, c: nat, s: Side, k: nat): int
    requires k <= |nets|
  {
    if k == 0 then 0 else GainUpTo(nets, c, s, k - 1) + NetTerm(nets[k - 1], c, s)
  }

  function GainOf(nets: seq<Net>, c: nat, s: Side): int {
    GainUpTo(nets, c, s, |nets|)
  }

  /** countGain: every gain reset to 0, then adjusted net by net from the
      stored counts.  The result never exceeds the pin count in size. */
  function CountGain(cells: seq<Cell>, nets: seq<Net>): (r: seq<Cell>)
    requires Structure(cells, nets)
    ensures SameShape(cells, nets, r, nets)
    ensures forall c :: 0 <= c < |r| ==> r[c].part == cells[c].part && r[c].lock == cells[c].lock
    ensures forall c :: 0 <= c < |r| ==> r[c].gain == GainOf(nets, c, cells[c].part)
    ensures forall c :: 0 <= c < |r| ==> -r[c].pinNum <= r[c].gain <= r[c].pinNum
  {
    GainBoundAll(cells, nets);
    seq(|cells|, c requires 0 <= c < |cells| => cells[c].(gain := GainOf(nets, c, cells[c].part)))
  }

  lemma GainBoundAll(cells: seq<Cell>, nets: seq<Net>)
    requires Structure(cells, nets)
    ensures forall c, s :: 0 <= c < |cells| ==> -cells[c].pinNum <= GainOf(nets, c, s) <= cells[c].pinNum
  {
    forall c, s | 0 <= c < |cells|
      ensures -cells[c].pinNum <= GainOf(nets, c, s) <= cells[c].pinNum
    {
      GainBound(cells, nets, c, s);
    }
  }

  /** A cell's gain lies in [-pinNum, pinNum]. */
  lemma GainBound(cells: seq<Cell>, nets: seq<Net>, c: nat, s: Side)
    requires Structure(cells, nets) && c < |cells|
    ensures -cells[c].pinNum <= GainOf(nets, c, s) <= cells[c].pinNum
  {
    GainUpToBound(nets, c, s, |nets|);
    OccSumIsPinNum(cells, nets, c);
  }

  lemma {:induction false} GainUpToBound(nets: seq<Net>, c: nat, s: Side, k: nat)
    requires k <= |nets|
    ensures -(OccSum(nets, c, k) as int) <= GainUpTo(nets, c, s, k) <= OccSum(nets, c, k)
  {
    if k > 0 {
      GainUpToBound(nets, c, s, k - 1);
    }
  }

  /** Leaving out one net, the rest of the gain is bounded by the rest of
      the occurrences. */
  lemma {:induction false} GainExceptBound(nets: seq<Net>, c: nat, s: Side, n: nat, k: nat)
    requires n < |nets| && k <= |nets|
    ensures var t := if n < k then NetTerm(nets[n], c, s) else 0;
      var o := if n < k then multiset(nets[n].cellList)[c] else 0;
      -(OccSum(nets, c, k) - o) <= GainUpTo(nets, c, s, k) - t <= OccSum(nets, c, k) - o
  {
    if k > 0 {
      GainExceptBound(nets, c, s, n, k - 1);
      if n != k - 1 {
        assert -multiset(nets[k - 1].cellList)[c] <= NetTerm(nets[k - 1], c, s) <= multiset(nets[k - 1].cellList)[c];
      }
    }
  }

  /** Replacing one net by a copy with other counts changes every gain by
      the difference of that net's two terms. */
  lemma {:induction false} GainReplaceNet(nets: seq<Net>, n: nat, net': Net, c: nat, s: Side, k: nat)
    requires n < |nets| && k <= |nets|
    ensures GainUpTo(nets[n := net'], c, s, k) ==
      GainUpTo(nets, c, s, k) + (if n < k then NetTerm(net', c, s) - NetTerm(nets[n], c, s) else 0)
  {
    if k > 0 {
      GainReplaceNet(nets, n, net', c, s, k - 1);
    }
  }

  /** The FM gain is the drop in cut size: with exact counts and
      repeat-free nets, flipping cell `c` lowers the cut by exactly its
      gain. */
  lemma GainIsCutDrop(parts: seq<bool>, nets: seq<Net>, c: nat)
    requires CountsExact(parts, nets) && RepeatFree(nets) && c < |parts|
    ensures GainOf(nets, c, parts[c]) == Cut(parts, nets) - Cut(parts[c := !parts[c]], nets)
  {
    GainUpToIsCutDrop(parts, nets, c, |nets|);
  }

  lemma {:induction false} GainUpToIsCutDrop(parts: seq<bool>, nets: seq<Net>, c: nat, k: nat)
    requires CountsExact(parts, nets) && RepeatFree(nets) && c < |parts| && k <= |nets|
    ensures GainUpTo(nets, c, parts[c], k) == CutUpTo(parts, nets, k) - CutUpTo(parts[c := !parts[c]], nets, k)
  {
    if k > 0 {
      GainUpToIsCutDrop(parts, nets, c, k - 1);
      NetTermIsCutDrop(parts, nets[k - 1], c);
    }
  }

  lemma NetTermIsCutDrop(parts: seq<bool>, net: Net, c: nat)
    requires c < |parts| && NoRepeats(net.cellList)
    requires net.count0 == SideCount(net.cellList, parts, false)
    requires net.count1 == SideCount(net.cellList, parts, true)
    ensures NetTerm(net, c, parts[c]) ==
      (if IsCut(net.cellList, parts) then 1 else 0) - (if IsCut(net.cellList, parts[c := !parts[c]]) then 1 else 0)
  {
    var cl := net.cellList;
    if c in cl {
      NoRepeatsCount(cl, c);
      SideCountFlip(cl, parts, c);
      SideCountAtLeast(cl, parts, c);
    } else {
      SideCountAbsent(cl, parts, c, !parts[c], false);
      SideCountAbsent(cl, parts, c, !parts[c], true);
    }
  }
}
