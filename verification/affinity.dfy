/** The initial partition (`logicAffinity`): stage 1 hands whole nets to
    alternating sides; stage 2, when neither side may give up a cell,
    moves cells from the larger side to the smaller one. */
module Affinity {
  import opened Hypergraph
  import opened Balance
  import opened Recount

  // ---------------------------------------------------------------------
  // Stage 1: claim nets whose members are all still free

  /** Some net of `taken` before net `n` lists cell `x`. */
  ghost predicate Claimed(nets: seq<Net>, taken: seq<nat>, x: nat, n: nat)
    requires forall k :: 0 <= k < |taken| ==> taken[k] < |nets|
  {
    exists k :: 0 <= k < |taken| && taken[k] < n && x in nets[taken[k]].cellList
  }

  /** When stage 1 reaches net `n`, none of its members is locked: none was
      locked to begin with and no earlier claimed net lists it. */
  ghost predicate FreeAt(cells: seq<Cell>, nets: seq<Net>, taken: seq<nat>, n: nat)
    requires ValidIds(cells, nets) && n < |nets|
    requires forall k :: 0 <= k < |taken| ==> taken[k] < |nets|
  {
    forall x :: x in nets[n].cellList ==> !cells[x].lock && !Claimed(nets, taken, x, n)
  }

  /** The state once stage 1 has visited the first `i` nets, from `cells`
      to `cells'`: `taken` lists, in increasing order, exactly the nets
      whose members were all free when reached; the k-th of them has put
      every member on side k mod 2 and locked it; every other cell keeps
      its side and lock. */
  ghost predicate ClaimsUpTo(cells: seq<Cell>, nets: seq<Net>, cells': seq<Cell>, taken: seq<nat>, i: nat)
    requires ValidIds(cells, nets) && i <= |nets|
  {
    && |cells'| == |cells|
    && TakenUpTo(cells, nets, taken, i)
    && LocksUpTo(cells, nets, cells', taken, i)
    && SidesOfTaken(cells, nets, cells', taken)
  }

  /** `taken` lists, in increasing order, exactly the nets before `i` whose
      members were all free when reached. */
  ghost predicate TakenUpTo(cells: seq<Cell>, nets: seq<Net>, taken: seq<nat>, i: nat)
    requires ValidIds(cells, nets) && i <= |nets|
  {
    && (forall k :: 0 <= k < |taken| ==> taken[k] < i)
    && (forall k, k' :: 0 <= k < k' < |taken| ==> taken[k] < taken[k'])
    && (forall n :: 0 <= n < i ==> (n in taken <==> FreeAt(cells, nets, taken, n)))
  }

  /** Only side and lock change; a cell is locked exactly when it was or
      a claimed net lists it, and an unlocked cell keeps its side. */
  ghost predicate LocksUpTo(cells: seq<Cell>, nets: seq<Net>, cells': seq<Cell>, taken: seq<nat>, i: nat)
    requires |cells'| == |cells| && forall k :: 0 <= k < |taken| ==> taken[k] < |nets|
  {
    && (forall c :: 0 <= c < |cells| ==> cells'[c] == cells[c].(part := cells'[c].part, lock := cells'[c].lock))
    && (forall c :: 0 <= c < |cells| ==> (cells'[c].lock <==> cells[c].lock || Claimed(nets, taken, c, i)))
    && (forall c :: 0 <= c < |cells| && !cells'[c].lock ==> cells'[c].part == cells[c].part)
  }

  /** The members of the k-th claimed net sit on side k mod 2. */
  ghost predicate SidesOfTaken(cells: seq<Cell>, nets: seq<Net>, cells': seq<Cell>, taken: seq<nat>)
    requires ValidIds(cells, nets) && |cells'| == |cells| && forall k :: 0 <= k < |taken| ==> taken[k] < |nets|
  {
    forall k, x :: 0 <= k < |taken| && x in nets[taken[k]].cellList ==> cells'[x].part == (k % 2 == 1)
  }

  /** What stage 1 does: the state after all nets. */
  ghost predicate AffinityClaims(cells: seq<Cell>, nets: seq<Net>, cells': seq<Cell>, taken: seq<nat>)
    requires ValidIds(cells, nets)
  {
    ClaimsUpTo(cells, nets, cells', taken, |nets|)
  }

  /** No listed cell is locked. */
  predicate AllFree(cells: seq<Cell>, cl: seq<nat>)
    requires forall j :: 0 <= j < |cl| ==> cl[j] < |cells|
  {
    forall j :: 0 <= j < |cl| ==> !cells[cl[j]].lock
  }

  /** Every listed cell put on `side` and locked. */
  function Claim(cells: seq<Cell>, cl: seq<nat>, side: Side): (r: seq<Cell>)
    ensures |r| == |cells|
    ensures forall c :: 0 <= c < |cells| ==> r[c] == if c in cl then cells[c].(part := side, lock := true) else cells[c]
  {
    seq(|cells|, c requires 0 <= c < |cells| => if c in cl then cells[c].(part := side, lock := true) else cells[c])
  }

  /** Adding net `i`, later than every claimed net, to the claimed list
      changes nothing for nets up to `i` and adds its members after it. */
  lemma ClaimedExtend(nets: seq<Net>, taken: seq<nat>, i: nat)
    requires i < |nets| && forall k :: 0 <= k < |taken| ==> taken[k] < i
    ensures forall x: nat, n: nat :: n <= i ==> (Claimed(nets, taken + [i], x, n) <==> Claimed(nets, taken, x, n))
    ensures forall x :: Claimed(nets, taken + [i], x, i + 1) <==> Claimed(nets, taken, x, i) || x in nets[i].cellList
    ensures forall x :: Claimed(nets, taken, x, i + 1) <==> Claimed(nets, taken, x, i)
  {
    var t := taken + [i];
    forall x: nat, n: nat | n <= i
      ensures Claimed(nets, t, x, n) ==> Claimed(nets, taken, x, n)
    {
      if Claimed(nets, t, x, n) {
        var k :| 0 <= k < |t| && t[k] < n && x in nets[t[k]].cellList;
        assert k < |taken| && taken[k] == t[k];
      }
    }
    forall x: nat, n: nat | Claimed(nets, taken, x, n)
      ensures Claimed(nets, t, x, n)
    {
      var k :| 0 <= k < |taken| && taken[k] < n && x in nets[taken[k]].cellList;
      assert t[k] == taken[k];
    }
    forall x | x in nets[i].cellList
      ensures Claimed(nets, t, x, i + 1)
    {
      assert t[|taken|] == i;
    }
    forall x | Claimed(nets, t, x, i + 1)
      ensures Claimed(nets, taken, x, i) || x in nets[i].cellList
    {
      var k :| 0 <= k < |t| && t[k] < i + 1 && x in nets[t[k]].cellList;
      if k < |taken| {
        assert taken[k] == t[k] && taken[k] < i;
      }
    }
    forall x | Claimed(nets, taken, x, i + 1)
      ensures Claimed(nets, taken, x, i)
    {
      var k :| 0 <= k < |taken| && taken[k] < i + 1 && x in nets[taken[k]].cellList;
      assert taken[k] < i;
    }
  }

  /** The lock test of stage 1 on the current cells is the test on the
      original locks and the nets claimed so far. */
  lemma FreeNow(cells: seq<Cell>, nets: seq<Net>, cells': seq<Cell>, taken: seq<nat>, i: nat)
    requires ValidIds(cells, nets) && i < |nets| && ClaimsUpTo(cells, nets, cells', taken, i)
    ensures forall j :: 0 <= j < |nets[i].cellList| ==> nets[i].cellList[j] < |cells'|
    ensures AllFree(cells', nets[i].cellList) <==> FreeAt(cells, nets, taken, i)
  {
  }

  /** A net with a locked member is passed over. */
  lemma SkipNet(cells: seq<Cell>, nets: seq<Net>, cells': seq<Cell>, taken: seq<nat>, i: nat)
    requires ValidIds(cells, nets) && i < |nets| && ClaimsUpTo(cells, nets, cells', taken, i)
    requires !FreeAt(cells, nets, taken, i)
    ensures ClaimsUpTo(cells, nets, cells', taken, i + 1)
  {
    ClaimedExtend(nets, taken, i);
  }

  /** A net whose members are all free is claimed for `side`. */
  lemma ClaimNet(cells: seq<Cell>, nets: seq<Net>, cells': seq<Cell>, taken: seq<nat>, i: nat, side: Side)
    requires ValidIds(cells, nets) && i < |nets| && ClaimsUpTo(cells, nets, cells', taken, i)
    requires FreeAt(cells, nets, taken, i) && side == (|taken| % 2 == 1)
    ensures ClaimsUpTo(cells, nets, Claim(cells', nets[i].cellList, side), taken + [i], i + 1)
  {
    ClaimedExtend(nets, taken, i);
    ClaimNetTaken(cells, nets, taken, i);
    ClaimNetLocks(cells, nets, cells', taken, i, side);
    ClaimNetSides(cells, nets, cells', taken, i, side);
  }

  lemma ClaimNetTaken(cells: seq<Cell>, nets: seq<Net>, taken: seq<nat>, i: nat)
    requires ValidIds(cells, nets) && i < |nets| && TakenUpTo(cells, nets, taken, i)
    requires FreeAt(cells, nets, taken, i)
    ensures TakenUpTo(cells, nets, taken + [i], i + 1)
  {
    var t := taken + [i];
    ClaimedExtend(nets, taken, i);
    forall n | 0 <= n < i + 1
      ensures n in t <==> FreeAt(cells, nets, t, n)
    {
      assert FreeAt(cells, nets, t, n) == FreeAt(cells, nets, taken, n);
    }
  }

  lemma ClaimNetLocks(cells: seq<Cell>, nets: seq<Net>, cells': seq<Cell>, taken: seq<nat>, i: nat, side: Side)
    requires ValidIds(cells, nets) && i < |nets| && |cells'| == |cells|
    requires forall k :: 0 <= k < |taken| ==> taken[k] < i
    requires LocksUpTo(cells, nets, cells', taken, i)
    ensures LocksUpTo(cells, nets, Claim(cells', nets[i].cellList, side), taken + [i], i + 1)
  {
    ClaimedExtend(nets, taken, i);
  }

  lemma ClaimNetSides(cells: seq<Cell>, nets: seq<Net>, cells': seq<Cell>, taken: seq<nat>, i: nat, side: Side)
    requires ValidIds(cells, nets) && i < |nets| && ClaimsUpTo(cells, nets, cells', taken, i)
    requires FreeAt(cells, nets, taken, i) && side == (|taken| % 2 == 1)
    ensures SidesOfTaken(cells, nets, Claim(cells', nets[i].cellList, side), taken + [i])
  {
    var cells'' := Claim(cells', nets[i].cellList, side);
    var t := taken + [i];
    forall k, x | 0 <= k < |t| && x in nets[t[k]].cellList
      ensures cells''[x].part == (k % 2 == 1)
    {
      if k < |taken| {
        assert t[k] == taken[k];
        assert Claimed(nets, taken, x, i);
      }
    }
  }

  /** Stage 1 of `logicAffinity`: nets in order; a net none of whose
      members is locked gets all of them on the current side and locked,
      and the side toggles. */
  method Stage1(cells: seq<Cell>, nets: seq<Net>) returns (cells': seq<Cell>, taken: seq<nat>)
    requires ValidIds(cells, nets)
    ensures AffinityClaims(cells, nets, cells', taken)
  {
    cells', taken := cells, [];
    var toggle := false;
    for i := 0 to |nets|
      invariant ClaimsUpTo(cells, nets, cells', taken, i)
      invariant toggle == (|taken| % 2 == 1)
    {
      var cl := nets[i].cellList;
      FreeNow(cells, nets, cells', taken, i);
      if AllFree(cells', cl) {
        ClaimNet(cells, nets, cells', taken, i, toggle);
        cells' := Claim(cells', cl, toggle);
        taken := taken + [i];
        toggle := !toggle;
      } else {
        SkipNet(cells, nets, cells', taken, i);
      }
    }
  }

  // ---------------------------------------------------------------------
  // Stage 2: move cells from the larger side to the smaller one

  /** The order stage 2 visits listings in: nets from the last to the
      first, each net's cell list front to back. */
  function ScanOrder(nets: seq<Net>): seq<nat> {
    if |nets| == 0 then [] else nets[|nets| - 1].cellList + ScanOrder(nets[..|nets| - 1])
  }

  lemma {:induction false} ScanOrderLists(nets: seq<Net>, n: nat, x: nat)
    requires n < |nets| && x in nets[n].cellList
    ensures x in ScanOrder(nets)
  {
    if n < |nets| - 1 {
      ScanOrderLists(nets[..|nets| - 1], n, x);
    }
  }

  lemma {:induction false} ScanOrderIds(nets: seq<Net>, bound: nat)
    requires forall n, j :: 0 <= n < |nets| && 0 <= j < |nets[n].cellList| ==> nets[n].cellList[j] < bound
    ensures forall i :: 0 <= i < |ScanOrder(nets)| ==> ScanOrder(nets)[i] < bound
  {
    if |nets| > 0 {
      var front := nets[..|nets| - 1];
      ScanOrderIds(front, bound);
      var cl := nets[|nets| - 1].cellList;
      assert forall i :: 0 <= i < |cl| ==> cl[i] < bound;
      assert ScanOrder(nets) == cl + ScanOrder(front);
    }
  }

  /** Every cell of a covered circuit appears in the scan order. */
  lemma ScanOrderCovers(cells: seq<Cell>, nets: seq<Net>)
    requires Structure(cells, nets) && Covered(cells)
    ensures forall c :: 0 <= c < |cells| ==> c in ScanOrder(nets)
  {
    forall c | 0 <= c < |cells|
      ensures c in ScanOrder(nets)
    {
      var n := cells[c].netList[0];
      assert multiset(cells[c].netList)[n] > 0;
      assert multiset(nets[n].cellList)[c] > 0;
      ScanOrderLists(nets, n, c);
    }
  }

  /** Every index of `order` is a cell id of `parts`. */
  predicate InRange(order: seq<nat>, parts: seq<bool>) {
    forall i :: 0 <= i < |order| ==> order[i] < |parts|
  }

  /** Stage 2 with the gap checked before each listing: visit the listings
      while `gap` is positive, moving each one found on side `more` to the
      other side and counting it off.  Only cells of `order` that were on
      `more` change, and they change to the other side. */
  function Rebalance(parts: seq<bool>, order: seq<nat>, more: Side, gap: int): (r: seq<bool>)
    requires InRange(order, parts)
    ensures |r| == |parts|
    ensures forall c :: 0 <= c < |parts| && parts[c] != more ==> r[c] == parts[c]
    ensures forall c :: 0 <= c < |parts| && r[c] != parts[c] ==> c in order
    decreases |order|
  {
    if gap <= 0 || |order| == 0 then parts
    else
      var x := order[0];
      if parts[x] == more then Rebalance(parts[x := !more], order[1..], more, gap - 1)
      else Rebalance(parts, order[1..], more, gap)
  }

  /** Stage 2 as the source writes it: each listing on `more` is moved and
      counted off first, and the gap is checked only afterwards, so a gap of
      0 still moves the first listing found on `more`. */
  function RebalanceAsWritten(parts: seq<bool>, order: seq<nat>, more: Side, gap: int): (r: seq<bool>)
    requires InRange(order, parts)
    ensures |r| == |parts|
    ensures forall c :: 0 <= c < |parts| && parts[c] != more ==> r[c] == parts[c]
    ensures forall c :: 0 <= c < |parts| && r[c] != parts[c] ==> c in order
    decreases |order|
  {
    if |order| == 0 then parts
    else
      var x := order[0];
      var parts' := if parts[x] == more then parts[x := !more] else parts;
      var gap' := if parts[x] == more then gap - 1 else gap;
      if gap' <= 0 then parts' else RebalanceAsWritten(parts', order[1..], more, gap')
  }

  /** With a positive gap the two readings agree. */
  lemma {:induction false} RebalanceAgrees(parts: seq<bool>, order: seq<nat>, more: Side, gap: int)
    requires InRange(order, parts) && gap >= 1
    ensures RebalanceAsWritten(parts, order, more, gap) == Rebalance(parts, order, more, gap)
    decreases |order|
  {
    if |order| > 0 {
      var x := order[0];
      if parts[x] == more {
        if gap > 1 {
          RebalanceAgrees(parts[x := !more], order[1..], more, gap - 1);
        }
      } else {
        RebalanceAgrees(parts, order[1..], more, gap);
      }
    }
  }

  /** With no gap to close, the source's scan changes at most the first
      listing. */
  lemma RebalanceAsWrittenIdle(parts: seq<bool>, order: seq<nat>, more: Side, gap: int)
    requires InRange(order, parts) && gap <= 0
    ensures forall c :: 0 <= c < |parts| && RebalanceAsWritten(parts, order, more, gap)[c] != parts[c] ==>
      |order| > 0 && c == order[0]
  {
  }

  /** With a gap of 0, the source still moves the first listing when it is
      on `more`, where nothing should move. */
  lemma RebalanceAsWrittenOvershoots(parts: seq<bool>, order: seq<nat>, more: Side)
    requires InRange(order, parts) && |order| > 0 && parts[order[0]] == more
    ensures Rebalance(parts, order, more, 0) == parts
    ensures RebalanceAsWritten(parts, order, more, 0) == parts[order[0] := !more]
    ensures NumOnSide(RebalanceAsWritten(parts, order, more, 0), more) == NumOnSide(parts, more) - 1
  {
    NumOnSideFlip(parts, order[0]);
  }

  /** The even split on two cells that stage 2 as written undoes: with
      bFactor 0.5 neither side of a 1/1 split may give up a cell, the gap
      is 0, and the first listing scanned still moves. */
  lemma EvenSplitUndone()
    ensures !Abalance(1, 1, 2, 0.5) && !Bbalance(1, 1, 2, 0.5)
    ensures RebalanceAsWritten([false, true], [1, 0], true, 0) == [false, false]
    ensures Rebalance([false, true], [1, 0], true, 0) == [false, true]
  {
    RebalanceAsWrittenOvershoots([false, true], [1, 0], true);
    assert [false, true][1 := false] == [false, false];
  }

  /** No cell on side `p` means a count of 0. */
  lemma {:induction false} NoneOnSide(parts: seq<bool>, p: Side)
    requires forall c :: 0 <= c < |parts| ==> parts[c] != p
    ensures NumOnSide(parts, p) == 0
  {
    if |parts| > 0 {
      NoneOnSide(parts[..|parts| - 1], p);
    }
  }

  /** Dropping a head listing that is not on `more` keeps every cell on
      `more` listed. */
  lemma CoverTail(parts: seq<bool>, order: seq<nat>, more: Side)
    requires InRange(order, parts) && |order| > 0 && parts[order[0]] != more
    requires forall c :: 0 <= c < |parts| && parts[c] == more ==> c in order
    ensures forall c :: 0 <= c < |parts| && parts[c] == more ==> c in order[1..]
  {
    forall c | 0 <= c < |parts| && parts[c] == more
      ensures c in order[1..]
    {
      var i :| 0 <= i < |order| && order[i] == c;
      assert order[1..][i - 1] == c;
    }
  }

  /** When every cell on `more` appears in `order` and `more` holds at
      least `gap` cells, exactly `gap` cells move from `more` to the other
      side. */
  lemma {:induction false} RebalanceMovesGap(parts: seq<bool>, order: seq<nat>, more: Side, gap: int)
    requires InRange(order, parts)
    requires forall c :: 0 <= c < |parts| && parts[c] == more ==> c in order
    requires 0 <= gap <= NumOnSide(parts, more)
    ensures NumOnSide(Rebalance(parts, order, more, gap), more) == NumOnSide(parts, more) - gap
    ensures NumOnSide(Rebalance(parts, order, more, gap), !more) == NumOnSide(parts, !more) + gap
    decreases |order|
  {
    if gap == 0 {
    } else if |order| == 0 {
      NoneOnSide(parts, more);
    } else {
      var x := order[0];
      if parts[x] == more {
        var parts' := parts[x := !more];
        NumOnSideFlip(parts, x);
        CoverTail(parts', order, more);
        RebalanceMovesGap(parts', order[1..], more, gap - 1);
      } else {
        CoverTail(parts, order, more);
        RebalanceMovesGap(parts, order[1..], more, gap);
      }
    }
  }

  /** Every cell with the side `parts` gives it, the rest unchanged. */
  function WithParts(cells: seq<Cell>, parts: seq<bool>): (r: seq<Cell>)
    requires |parts| == |cells|
    ensures |r| == |cells| && Parts(r) == parts
    ensures forall c :: 0 <= c < |cells| ==> r[c] == cells[c].(part := parts[c])
  {
    seq(|cells|, c requires 0 <= c < |cells| => cells[c].(part := parts[c]))
  }

  /** The side stage 2 takes cells from and how many: the larger side
      (side 1 on a tie) and half the difference, rounded down.  Both
      sizes are counts, so the source's truncating division agrees with
      Dafny's. */
  function Surplus(sizeA: int, sizeB: int): (r: (Side, int))
    requires sizeA >= 0 && sizeB >= 0
    ensures r.0 == (sizeA <= sizeB) && r.1 >= 0
    ensures 2 * r.1 <= (if r.0 then sizeB - sizeA else sizeA - sizeB) <= 2 * r.1 + 1
  {
    if sizeA > sizeB then (false, (sizeA - sizeB) / 2) else (true, (sizeB - sizeA) / 2)
  }

  /** Every cell of the circuit appears in the stage-2 scan. */
  predicate Scanned(cells: seq<Cell>, nets: seq<Net>) {
    forall c :: 0 <= c < |cells| ==> c in ScanOrder(nets)
  }

  /** The side-size difference A - B. */
  function Imbalance(cells: seq<Cell>): int {
    NumOnSide(Parts(cells), false) - NumOnSide(Parts(cells), true)
  }

  /** Stage 2 as the source runs it, on the stage-1 result whose side
      sizes are `sizeA` and `sizeB`: the listings are scanned from the last
      net to the first, each one on the larger side (side 1 on a tie) moves,
      and the gap is checked after each listing.  When the sides differ by
      two or more and every cell is scanned, exactly half the difference
      moves and the sides end at most one apart; when they differ by at
      most one the gap is 0, yet the first listing scanned still moves if
      it is on the larger side. */
  method Stage2(claimed: seq<Cell>, nets: seq<Net>, sizeA: int, sizeB: int) returns (cells: seq<Cell>)
    requires forall n, j :: 0 <= n < |nets| && 0 <= j < |nets[n].cellList| ==> nets[n].cellList[j] < |claimed|
    requires sizeA == NumOnSide(Parts(claimed), false) && sizeB == NumOnSide(Parts(claimed), true)
    ensures |cells| == |claimed|
    ensures forall c :: 0 <= c < |claimed| ==> cells[c] == claimed[c].(part := cells[c].part)
    ensures forall c :: 0 <= c < |claimed| && cells[c].part != claimed[c].part ==> claimed[c].part == (sizeA <= sizeB)
    ensures (sizeA - sizeB >= 2 || sizeB - sizeA >= 2) && Scanned(claimed, nets) ==> -1 <= Imbalance(cells) <= 1
    ensures (sizeA - sizeB >= 2 || sizeB - sizeA >= 2) && Scanned(claimed, nets) ==>
      NumOnSide(Parts(cells), sizeA <= sizeB) == NumOnSide(Parts(claimed), sizeA <= sizeB) - Surplus(sizeA, sizeB).1
    ensures -1 <= sizeA - sizeB <= 1 ==> forall c :: 0 <= c < |claimed| && cells[c].part != claimed[c].part ==>
      |ScanOrder(nets)| > 0 && c == ScanOrder(nets)[0]
  {
    var (more, gap) := Surplus(sizeA, sizeB);
    ScanOrderIds(nets, |claimed|);
    var parts := RebalanceAsWritten(Parts(claimed), ScanOrder(nets), more, gap);
    cells := WithParts(claimed, parts);
    if gap >= 1 {
      RebalanceAgrees(Parts(claimed), ScanOrder(nets), more, gap);
      if Scanned(claimed, nets) {
        NumOnSideSum(Parts(claimed));
        RebalanceMovesGap(Parts(claimed), ScanOrder(nets), more, gap);
      }
    } else {
      RebalanceAsWrittenIdle(Parts(claimed), ScanOrder(nets), more, gap);
    }
  }

  /** Stage 2 with the gap checked before each listing, as the comment on
      stage 2 intends: half the difference moves from the larger side, and
      when every cell is scanned the sides end at most one apart. */
  method Stage2Corrected(claimed: seq<Cell>, nets: seq<Net>, sizeA: int, sizeB: int) returns (cells: seq<Cell>)
    requires forall n, j :: 0 <= n < |nets| && 0 <= j < |nets[n].cellList| ==> nets[n].cellList[j] < |claimed|
    requires sizeA == NumOnSide(Parts(claimed), false) && sizeB == NumOnSide(Parts(claimed), true)
    ensures |cells| == |claimed|
    ensures forall c :: 0 <= c < |claimed| ==> cells[c] == claimed[c].(part := cells[c].part)
    ensures forall c :: 0 <= c < |claimed| && cells[c].part != claimed[c].part ==> claimed[c].part == (sizeA <= sizeB)
    ensures Scanned(claimed, nets) ==> -1 <= Imbalance(cells) <= 1
    ensures Scanned(claimed, nets) ==>
      NumOnSide(Parts(cells), sizeA <= sizeB) == NumOnSide(Parts(claimed), sizeA <= sizeB) - Surplus(sizeA, sizeB).1
  {
    NumOnSideSum(Parts(claimed));
    var (more, gap) := Surplus(sizeA, sizeB);
    ScanOrderIds(nets, |claimed|);
    var parts := Rebalance(Parts(claimed), ScanOrder(nets), more, gap);
    cells := WithParts(claimed, parts);
    if Scanned(claimed, nets) {
      RebalanceMovesGap(Parts(claimed), ScanOrder(nets), more, gap);
    }
  }

  /** What `logicAffinity` leaves behind, from the engine `p` it starts
      with: stage 1's claims in `claimed` and `taken`; the stored side
      sizes are those after stage 1; when either gate passes on them the
      sides are stage 1's; otherwise stage 2 as written moves cells only
      from the larger side, moving exactly half the difference (rounded
      down) and ending the sides at most one apart when they differed by
      two or more, and moving at most the first listing scanned when they
      differed by at most one. */
  ghost predicate Affined(p: Partitioner, q: Partitioner, claimed: seq<Cell>, taken: seq<nat>)
    requires ValidIds(p.cells, p.nets)
  {
    var (sizeA, sizeB) := (q.partSize0, q.partSize1);
    var stage2 := !Abalance(sizeA, sizeB, p.cellNum, p.bFactor) && !Bbalance(sizeA, sizeB, p.cellNum, p.bFactor);
    && AffinityClaims(p.cells, p.nets, claimed, taken)
    && q == p.(cells := q.cells, partSize0 := sizeA, partSize1 := sizeB)
    && sizeA == NumOnSide(Parts(claimed), false) && sizeB == NumOnSide(Parts(claimed), true)
    && |q.cells| == |claimed|
    && (forall c :: 0 <= c < |claimed| ==> q.cells[c] == claimed[c].(part := q.cells[c].part))
    && (!stage2 ==> q.cells == claimed)
    && (forall c :: 0 <= c < |claimed| && q.cells[c].part != claimed[c].part ==> claimed[c].part == (sizeA <= sizeB))
    && (stage2 && (sizeA - sizeB >= 2 || sizeB - sizeA >= 2) && Structure(p.cells, p.nets) && Covered(p.cells) ==>
          -1 <= Imbalance(q.cells) <= 1)
    && (stage2 && (sizeA - sizeB >= 2 || sizeB - sizeA >= 2) && Structure(p.cells, p.nets) && Covered(p.cells) ==>
          NumOnSide(Parts(q.cells), sizeA <= sizeB) == NumOnSide(Parts(claimed), sizeA <= sizeB) - Surplus(sizeA, sizeB).1)
    && (stage2 && -1 <= sizeA - sizeB <= 1 ==>
          forall c :: 0 <= c < |claimed| && q.cells[c].part != claimed[c].part ==>
            |ScanOrder(p.nets)| > 0 && c == ScanOrder(p.nets)[0])
  }

  /** `logicAffinity`: stage 1, the side sizes recounted, and, when
      neither side may give up a cell, stage 2 as the source runs it. */
  method LogicAffinity(p: Partitioner) returns (q: Partitioner, claimed: seq<Cell>, taken: seq<nat>)
    requires ValidIds(p.cells, p.nets)
    ensures Affined(p, q, claimed, taken)
  {
    claimed, taken := Stage1(p.cells, p.nets);
    var sizeA, sizeB := CountPartsize(claimed);
    q := p.(cells := claimed, partSize0 := sizeA, partSize1 := sizeB);
    if !Abalance(sizeA, sizeB, p.cellNum, p.bFactor) && !Bbalance(sizeA, sizeB, p.cellNum, p.bFactor) {
      var cells := Stage2(claimed, p.nets, sizeA, sizeB);
      q := q.(cells := cells);
      if Structure(p.cells, p.nets) && Covered(p.cells) {
        ScanOrderCovers(p.cells, p.nets);
      }
    }
  }
}
