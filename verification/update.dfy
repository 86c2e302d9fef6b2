/** The incremental gain update that follows one move of an FM pass.  The
    moved cell's nets are visited in net-list order; for each, the four
    cases of Fiduccia–Mattheyses adjust the free members' gains around the
    shift of one unit of the net's count from the from-side to the
    to-side. */
module Update {
  import opened Hypergraph
  import opened Gain
  import opened Buckets

  /** Per-listing change before the counts move, from the to-side count
      `b`: +1 for every free member when `b` is 0, -1 for the free
      to-side members when `b` is 1.  For any member other than the moved
      cell it cancels the net's contribution on the old counts. */
  function BeforeDelta(b: int, onTo: bool): (r: int)
    ensures onTo && b >= 1 ==> forall a :: a >= 1 ==> r + Contrib(b, a) == 0
    ensures !onTo && b >= 0 ==> forall a :: a >= 2 ==> r + Contrib(a, b) == 0
  {
    if b == 0 then 1 else if b == 1 && onTo then -1 else 0
  }

  /** Per-listing change after the counts move, from the new from-side
      count `a`: -1 for every free member when `a` is 0, +1 for the free
      from-side members when `a` is 1.  For any member other than the
      moved cell it is the net's contribution on the new counts. */
  function AfterDelta(a: int, onFrom: bool): (r: int)
    ensures onFrom && a >= 1 ==> forall b :: b >= 1 ==> r == Contrib(a, b)
    ensures !onFrom && a >= 0 ==> forall b :: b >= 2 ==> r == Contrib(b, a)
  {
    if a == 0 then -1 else if a == 1 && onFrom then 1 else 0
  }

  /** The per-listing contribution of a net with counts `a` on the
      from-side and `b` on the to-side to a member on the from-side
      (`onFrom`) or the to-side. */
  function ContribAt(a: int, b: int, onFrom: bool): int {
    if onFrom then Contrib(a, b) else Contrib(b, a)
  }

  /** The four cases are exact: the first pair cancels the net's old
      contribution and the second pair adds its new one, for any member
      other than the moved cell. */
  lemma PerListing(a: int, b: int, onFrom: bool)
    requires a >= 1 && b >= 0
    requires if onFrom then a >= 2 else b >= 1
    ensures ContribAt(a, b, onFrom) + BeforeDelta(b, !onFrom) == 0
    ensures ContribAt(a - 1, b + 1, onFrom) == AfterDelta(a - 1, onFrom)
  {
  }

  /** A net's term is its per-listing contribution times the listings. */
  lemma NetTermScaled(net: Net, c: nat, s: Side)
    ensures NetTerm(net, c, s) == multiset(net.cellList)[c] * Contrib(net.PartCount(s), net.PartCount(!s))
  {
  }

  /** The state while the nets of the moved cell `m` are being visited:
      `m` is locked on its new side, and each net's counts still show one
      unit on the from-side for every visit of that net still in `rest`. */
  ghost predicate Pending(cells: seq<Cell>, nets: seq<Net>, m: nat, from: Side, rest: seq<nat>) {
    && Structure(cells, nets) && m < |cells| && cells[m].lock && cells[m].part == !from
    && PendingCounts(Parts(cells), nets, m, from, rest)
  }

  /** The count half of `Pending`, which depends on the cells' sides only. */
  ghost predicate PendingCounts(parts: seq<Side>, nets: seq<Net>, m: nat, from: Side, rest: seq<nat>) {
    && (forall j :: 0 <= j < |rest| ==> rest[j] < |nets|)
    && (forall n :: 0 <= n < |nets| ==> PendingNet(nets[n], parts, m, from, multiset(rest)[n]))
  }

  /** One net with `r` visits pending: `r` units of its count are still
      on the from-side, and the moved cell is listed at least `r` times. */
  predicate PendingNet(net: Net, parts: seq<Side>, m: nat, from: Side, r: int) {
    && net.PartCount(from) == SideCount(net.cellList, parts, from) + r
    && net.PartCount(!from) == SideCount(net.cellList, parts, !from) - r
    && r <= multiset(net.cellList)[m]
  }

  /** Every free cell's gain is the FM gain under the stored counts. */
  ghost predicate GainsFollow(cells: seq<Cell>, nets: seq<Net>) {
    forall c :: 0 <= c < |cells| && !cells[c].lock ==> cells[c].gain == GainOf(nets, c, cells[c].part)
  }

  /** Only the gains of free cells changed: sides and locks are kept and
      locked cells are untouched. */
  predicate GainsOnly(cells: seq<Cell>, cells': seq<Cell>) {
    && |cells'| == |cells| && Parts(cells') == Parts(cells)
    && (forall c :: 0 <= c < |cells| && cells[c].lock ==> cells'[c] == cells[c])
    && (forall c :: 0 <= c < |cells| ==> cells'[c].lock == cells[c].lock)
  }

  /** No cell has more pins than the bucket offset. */
  predicate PinsWithin(cells: seq<Cell>, maxPinNum: int) {
    forall c :: 0 <= c < |cells| ==> cells[c].pinNum <= maxPinNum
  }

  /** The net's counts after one unit moves from `from` to the other side. */
  function Shifted(net: Net, from: Side): (r: Net)
    ensures r.cellList == net.cellList && r.name == net.name
    ensures r.PartCount(from) == net.PartCount(from) - 1 && r.PartCount(!from) == net.PartCount(!from) + 1
  {
    net.WithPartCount(from, net.PartCount(from) - 1).WithPartCount(!from, net.PartCount(!from) + 1)
  }

  /** The first pair of cases, on the to-side count `b` before the shift. */
  method BeforeShift(cells: seq<Cell>, buckets: seq<set<nat>>, maxPinNum: int, cl: seq<nat>, b: int, to: Side)
    returns (cells': seq<Cell>, buckets': seq<set<nat>>)
    requires BucketsOK(cells, buckets, maxPinNum)
    requires forall j :: 0 <= j < |cl| ==> cl[j] < |cells|
    requires forall c :: 0 <= c < |cells| && !cells[c].lock ==>
      0 <= maxPinNum + cells[c].gain + multiset(cl)[c] * BeforeDelta(b, cells[c].part == to) <= 2 * maxPinNum
    ensures |cells'| == |cells| && BucketsOK(cells', buckets', maxPinNum)
    ensures forall c :: 0 <= c < |cells| ==>
      cells'[c] == if cells[c].lock then cells[c]
        else cells[c].(gain := cells[c].gain + multiset(cl)[c] * BeforeDelta(b, cells[c].part == to))
  {
    if b == 0 {
      cells', buckets' := Bump(cells, buckets, maxPinNum, cl, AllFree, 1);
    } else if b == 1 {
      cells', buckets' := Bump(cells, buckets, maxPinNum, cl, FreeOn(to), -1);
    } else {
      cells', buckets' := cells, buckets;
    }
  }

  /** The second pair of cases, on the from-side count `a` after the shift. */
  method AfterShift(cells: seq<Cell>, buckets: seq<set<nat>>, maxPinNum: int, cl: seq<nat>, a: int, from: Side)
    returns (cells': seq<Cell>, buckets': seq<set<nat>>)
    requires BucketsOK(cells, buckets, maxPinNum)
    requires forall j :: 0 <= j < |cl| ==> cl[j] < |cells|
    requires forall c :: 0 <= c < |cells| && !cells[c].lock ==>
      0 <= maxPinNum + cells[c].gain + multiset(cl)[c] * AfterDelta(a, cells[c].part == from) <= 2 * maxPinNum
    ensures |cells'| == |cells| && BucketsOK(cells', buckets', maxPinNum)
    ensures forall c :: 0 <= c < |cells| ==>
      cells'[c] == if cells[c].lock then cells[c]
        else cells[c].(gain := cells[c].gain + multiset(cl)[c] * AfterDelta(a, cells[c].part == from))
  {
    if a == 0 {
      cells', buckets' := Bump(cells, buckets, maxPinNum, cl, AllFree, -1);
    } else if a == 1 {
      cells', buckets' := Bump(cells, buckets, maxPinNum, cl, FreeOn(from), 1);
    } else {
      cells', buckets' := cells, buckets;
    }
  }

  /** For a free cell, visiting the next pending net: the gain after the
      first pair of cases is the gain from the other nets, and after the
      second pair it is the gain under the shifted counts; both stay within
      the bucket range. */
  lemma CellStep(cells: seq<Cell>, nets: seq<Net>, maxPinNum: int, m: nat, from: Side, n: nat, r: int, c: nat)
    requires Structure(cells, nets) && n < |nets| && m < |cells| && cells[m].part == !from
    requires 1 <= r && PendingNet(nets[n], Parts(cells), m, from, r)
    requires c < |cells| && c != m && cells[c].gain == GainOf(nets, c, cells[c].part) && cells[c].pinNum <= maxPinNum
    ensures var k := multiset(nets[n].cellList)[c];
      var mid := cells[c].gain + k * BeforeDelta(nets[n].PartCount(!from), cells[c].part == !from);
      && -maxPinNum <= mid <= maxPinNum
      && mid + k * AfterDelta(nets[n].PartCount(from) - 1, cells[c].part == from)
         == GainOf(nets[n := Shifted(nets[n], from)], c, cells[c].part)
      && -maxPinNum <= GainOf(nets[n := Shifted(nets[n], from)], c, cells[c].part) <= maxPinNum
  {
    var s := cells[c].part;
    var net' := Shifted(nets[n], from);
    var nets' := nets[n := net'];
    ListingStep(nets[n], Parts(cells), m, c, from, r);
    GainExceptBound(nets, c, s, n, |nets|);
    OccSumIsPinNum(cells, nets, c);
    GainReplaceNet(nets, n, net', c, s, |nets|);
    SameShapeKeepsStructure(cells, nets, cells, nets');
    GainBound(cells, nets', c, s);
  }

  /** The per-net half of `CellStep`: while `r` >= 1 visits of the net are
      pending, the first pair of cases cancels the net's term for a free
      cell `c` and the second pair is its term under the shifted counts. */
  lemma ListingStep(net: Net, parts: seq<Side>, m: nat, c: nat, from: Side, r: int)
    requires m < |parts| && c < |parts| && c != m && parts[m] == !from
    requires 1 <= r && PendingNet(net, parts, m, from, r)
    ensures var k := multiset(net.cellList)[c];
      && NetTerm(net, c, parts[c]) + k * BeforeDelta(net.PartCount(!from), parts[c] == !from) == 0
      && NetTerm(Shifted(net, from), c, parts[c]) == k * AfterDelta(net.PartCount(from) - 1, parts[c] == from)
  {
    var cl: seq<nat> := net.cellList;
    var s := parts[c];
    var k := multiset(cl)[c];
    var a := net.PartCount(from);
    var b := net.PartCount(!from);
    var net' := Shifted(net, from);
    SideCountAtLeast(cl, parts, m);
    if k > 0 {
      if s == from {
        SideCountAtLeast(cl, parts, c);
      } else {
        SideCountAtLeastTwo(cl, parts, c, m);
      }
      PerListing(a, b, s == from);
    }
    NetTermScaled(net, c, s);
    NetTermScaled(net', c, s);
    var was := Contrib(net.PartCount(s), net.PartCount(!s));
    var now := Contrib(net'.PartCount(s), net'.PartCount(!s));
    assert k * was + k * BeforeDelta(b, s == !from) == 0 by {
      assert k > 0 ==> was + BeforeDelta(b, s == !from) == 0;
    }
    assert k * now == k * AfterDelta(a - 1, s == from) by {
      assert k > 0 ==> now == AfterDelta(a - 1, s == from);
    }
  }

  /** Visiting one pending net keeps the bookkeeping: the net's counts
      shift by one unit and it has one visit fewer to go. */
  lemma PendingStep(cells: seq<Cell>, nets: seq<Net>, cells': seq<Cell>, m: nat, from: Side, rest: seq<nat>)
    requires |rest| > 0 && Pending(cells, nets, m, from, rest)
    requires |cells'| == |cells| && Parts(cells') == Parts(cells)
    requires forall c :: 0 <= c < |cells| ==>
      && cells'[c].netList == cells[c].netList && cells'[c].pinNum == cells[c].pinNum
      && cells'[c].name == cells[c].name && cells'[c].lock == cells[c].lock
    ensures Pending(cells', nets[rest[0] := Shifted(nets[rest[0]], from)], m, from, rest[1..])
  {
    var nets' := nets[rest[0] := Shifted(nets[rest[0]], from)];
    assert SameShape(cells, nets, cells', nets');
    SameShapeKeepsStructure(cells, nets, cells', nets');
    PendingCountsStep(Parts(cells), nets, m, from, rest);
  }

  /** The count half of `PendingStep`. */
  lemma PendingCountsStep(parts: seq<Side>, nets: seq<Net>, m: nat, from: Side, rest: seq<nat>)
    requires |rest| > 0 && PendingCounts(parts, nets, m, from, rest)
    ensures PendingCounts(parts, nets[rest[0] := Shifted(nets[rest[0]], from)], m, from, rest[1..])
  {
    var n := rest[0];
    var tail := rest[1..];
    var nets' := nets[n := Shifted(nets[n], from)];
    assert rest == [n] + tail;
    assert multiset(rest) == multiset{n} + multiset(tail);
    forall j | 0 <= j < |tail|
      ensures tail[j] < |nets'|
    {
      assert tail[j] == rest[j + 1];
    }
    forall q | 0 <= q < |nets'|
      ensures nets'[q].PartCount(from) == SideCount(nets'[q].cellList, parts, from) + multiset(tail)[q]
      ensures nets'[q].PartCount(!from) == SideCount(nets'[q].cellList, parts, !from) - multiset(tail)[q]
      ensures multiset(tail)[q] <= multiset(nets'[q].cellList)[m]
    {
      if q == n {
        assert multiset(tail)[q] == multiset(rest)[q] - 1;
      } else {
        assert multiset(tail)[q] == multiset(rest)[q];
      }
    }
  }

  /** Visits the next pending net of the moved cell: the two pairs of
      cases around the shift of the net's counts. */
  method UpdateNet(cells: seq<Cell>, nets: seq<Net>, buckets: seq<set<nat>>, maxPinNum: int, m: nat, from: Side, rest: seq<nat>)
    returns (cells': seq<Cell>, nets': seq<Net>, buckets': seq<set<nat>>)
    requires |rest| > 0 && Pending(cells, nets, m, from, rest) && GainsFollow(cells, nets)
    requires PinsWithin(cells, maxPinNum) && BucketsOK(cells, buckets, maxPinNum)
    ensures Pending(cells', nets', m, from, rest[1..]) && GainsFollow(cells', nets')
    ensures BucketsOK(cells', buckets', maxPinNum) && PinsWithin(cells', maxPinNum)
    ensures SameShape(cells, nets, cells', nets') && GainsOnly(cells, cells')
  {
    var n := rest[0];
    var to := !from;
    var cl: seq<nat> := nets[n].cellList;
    var a := nets[n].PartCount(from);
    var b := nets[n].PartCount(to);
    CellSteps(cells, nets, maxPinNum, m, from, rest);
    cells', buckets' := ShiftGains(cells, buckets, maxPinNum, cl, a, b, from);
    nets' := nets[n := Shifted(nets[n], from)];
    ShiftedGainsFollow(cells, cells', nets, n, from, maxPinNum);
    PendingStep(cells, nets, cells', m, from, rest);
  }

  /** A free cell's gain after the first pair of cases, for `k` listings
      of it in a net whose to-side count is `b`. */
  function Mid(cell: Cell, k: int, b: int, from: Side): int {
    cell.gain + k * BeforeDelta(b, cell.part == !from)
  }

  /** A free cell's gain after both pairs of cases, the from-side count
      being `a` before the shift. */
  function Stepped(cell: Cell, k: int, a: int, b: int, from: Side): int {
    Mid(cell, k, b, from) + k * AfterDelta(a - 1, cell.part == from)
  }

  /** Both intermediate gains of every free cell stay in the bucket range. */
  predicate StepsWithin(cells: seq<Cell>, cl: seq<nat>, a: int, b: int, from: Side, maxPinNum: int) {
    forall c :: 0 <= c < |cells| && !cells[c].lock ==>
      && -maxPinNum <= Mid(cells[c], multiset(cl)[c], b, from) <= maxPinNum
      && -maxPinNum <= Stepped(cells[c], multiset(cl)[c], a, b, from) <= maxPinNum
  }

  /** `cells'` is `cells` with both pairs of cases applied to the free cells. */
  predicate SteppedFrom(cells: seq<Cell>, cells': seq<Cell>, cl: seq<nat>, a: int, b: int, from: Side) {
    && |cells'| == |cells|
    && forall c :: 0 <= c < |cells| ==>
         cells'[c] == if cells[c].lock then cells[c] else cells[c].(gain := Stepped(cells[c], multiset(cl)[c], a, b, from))
  }

  /** Both pairs of cases give every free cell its gain under the shifted counts. */
  ghost predicate StepsExact(cells: seq<Cell>, nets: seq<Net>, n: nat, from: Side)
    requires n < |nets|
  {
    forall c :: 0 <= c < |cells| && !cells[c].lock ==>
      Stepped(cells[c], multiset(nets[n].cellList)[c], nets[n].PartCount(from), nets[n].PartCount(!from), from)
        == GainOf(nets[n := Shifted(nets[n], from)], c, cells[c].part)
  }

  lemma CellSteps(cells: seq<Cell>, nets: seq<Net>, maxPinNum: int, m: nat, from: Side, rest: seq<nat>)
    requires |rest| > 0 && Pending(cells, nets, m, from, rest) && GainsFollow(cells, nets)
    requires PinsWithin(cells, maxPinNum)
    ensures StepsWithin(cells, nets[rest[0]].cellList, nets[rest[0]].PartCount(from), nets[rest[0]].PartCount(!from), from, maxPinNum)
    ensures StepsExact(cells, nets, rest[0], from)
  {
    assert rest[0] in multiset(rest);
    forall c | 0 <= c < |cells| && !cells[c].lock
      ensures var n := rest[0];
        var k: int := multiset(nets[n].cellList)[c];
        var mid := cells[c].gain + k * BeforeDelta(nets[n].PartCount(!from), cells[c].part == !from);
        && -maxPinNum <= mid <= maxPinNum
        && mid + k * AfterDelta(nets[n].PartCount(from) - 1, cells[c].part == from)
           == GainOf(nets[n := Shifted(nets[n], from)], c, cells[c].part)
        && -maxPinNum <= GainOf(nets[n := Shifted(nets[n], from)], c, cells[c].part) <= maxPinNum
    {
      CellStep(cells, nets, maxPinNum, m, from, rest[0], multiset(rest)[rest[0]], c);
    }
  }

  /** Both pairs of cases for one net whose counts were `a` on the
      from-side and `b` on the to-side before the shift. */
  method ShiftGains(cells: seq<Cell>, buckets: seq<set<nat>>, maxPinNum: int, cl: seq<nat>, a: int, b: int, from: Side)
    returns (cells': seq<Cell>, buckets': seq<set<nat>>)
    requires BucketsOK(cells, buckets, maxPinNum)
    requires forall j :: 0 <= j < |cl| ==> cl[j] < |cells|
    requires StepsWithin(cells, cl, a, b, from, maxPinNum)
    ensures BucketsOK(cells', buckets', maxPinNum) && SteppedFrom(cells, cells', cl, a, b, from)
  {
    var cells1, buckets1 := BeforeShift(cells, buckets, maxPinNum, cl, b, !from);
    cells', buckets' := AfterShift(cells1, buckets1, maxPinNum, cl, a - 1, from);
  }

  /** The two pairs of cases together leave every free cell with its gain
      under the shifted counts, and change nothing else. */
  lemma ShiftedGainsFollow(cells: seq<Cell>, cells': seq<Cell>, nets: seq<Net>, n: nat, from: Side, maxPinNum: int)
    requires n < |nets| && StepsExact(cells, nets, n, from)
    requires SteppedFrom(cells, cells', nets[n].cellList, nets[n].PartCount(from), nets[n].PartCount(!from), from)
    ensures GainsFollow(cells', nets[n := Shifted(nets[n], from)])
    ensures GainsOnly(cells, cells') && PinsWithin(cells', maxPinNum) == PinsWithin(cells, maxPinNum)
    ensures forall c :: 0 <= c < |cells| ==>
      && cells'[c].netList == cells[c].netList && cells'[c].pinNum == cells[c].pinNum
      && cells'[c].name == cells[c].name && cells'[c].lock == cells[c].lock
  {
    assert Parts(cells') == Parts(cells);
  }

  /** Visits every net of the moved cell `m` in net-list order.  Once all
      are visited the stored counts are exact for the new sides and every
      free gain is the FM gain again. */
  method UpdateGains(cells: seq<Cell>, nets: seq<Net>, buckets: seq<set<nat>>, maxPinNum: int, m: nat, from: Side)
    returns (cells': seq<Cell>, nets': seq<Net>, buckets': seq<set<nat>>)
    requires m < |cells| && Pending(cells, nets, m, from, cells[m].netList) && GainsFollow(cells, nets)
    requires PinsWithin(cells, maxPinNum) && BucketsOK(cells, buckets, maxPinNum)
    ensures CountsExact(Parts(cells'), nets') && GainsFollow(cells', nets')
    ensures BucketsOK(cells', buckets', maxPinNum) && PinsWithin(cells', maxPinNum)
    ensures SameShape(cells, nets, cells', nets') && Structure(cells', nets') && GainsOnly(cells, cells')
  {
    var nl := cells[m].netList;
    cells', nets', buckets' := cells, nets, buckets;
    for i := 0 to |nl|
      invariant Pending(cells', nets', m, from, nl[i..]) && GainsFollow(cells', nets')
      invariant BucketsOK(cells', buckets', maxPinNum) && PinsWithin(cells', maxPinNum)
      invariant SameShape(cells, nets, cells', nets') && GainsOnly(cells, cells')
    {
      assert nl[i..][1..] == nl[i + 1..];
      cells', nets', buckets' := UpdateNet(cells', nets', buckets', maxPinNum, m, from, nl[i..]);
    }
    PendingDone(cells', nets', m, from);
  }

  /** With no visits pending the counts are exact. */
  lemma PendingDone(cells: seq<Cell>, nets: seq<Net>, m: nat, from: Side)
    requires Pending(cells, nets, m, from, [])
    ensures CountsExact(Parts(cells), nets) && Structure(cells, nets)
  {
    forall n | 0 <= n < |nets|
      ensures nets[n].count0 == SideCount(nets[n].cellList, Parts(cells), false)
      ensures nets[n].count1 == SideCount(nets[n].cellList, Parts(cells), true)
    {
      var none: seq<nat> := [];
      assert multiset(none)[n] == 0;
    }
  }

  /** Moving cell `m`: its side flips and it is locked, its gain left as it
      was; it leaves the buckets; one unit moves between the side sizes;
      and the incremental update brings the counts and every free gain up
      to date with the new sides. */
  method MoveCell(cells: seq<Cell>, nets: seq<Net>, buckets: seq<set<nat>>, maxPinNum: int, size0: int, size1: int, m: nat)
    returns (cells': seq<Cell>, nets': seq<Net>, buckets': seq<set<nat>>, size0': int, size1': int)
    requires Structure(cells, nets) && CountsExact(Parts(cells), nets) && GainsFollow(cells, nets)
    requires PinsWithin(cells, maxPinNum) && BucketsOK(cells, buckets, maxPinNum)
    requires m < |cells| && !cells[m].lock
    requires size0 == NumOnSide(Parts(cells), false) && size1 == NumOnSide(Parts(cells), true)
    ensures Parts(cells') == Parts(cells)[m := !cells[m].part]
    ensures forall c :: 0 <= c < |cells| ==> cells'[c].lock == (cells[c].lock || c == m)
    ensures forall c :: 0 <= c < |cells| && cells[c].lock ==> cells'[c] == cells[c]
    ensures cells'[m].gain == cells[m].gain
    ensures size0' == NumOnSide(Parts(cells'), false) && size1' == NumOnSide(Parts(cells'), true)
    ensures CountsExact(Parts(cells'), nets') && GainsFollow(cells', nets')
    ensures BucketsOK(cells', buckets', maxPinNum) && PinsWithin(cells', maxPinNum)
    ensures SameShape(cells, nets, cells', nets') && Structure(cells', nets')
    ensures forall c :: 0 <= c < |cells| && c != m && Apart(nets, c, m) ==> cells'[c] == cells[c]
  {
    var from := cells[m].part;
    var locked, erased;
    locked, erased, size0', size1' := LockCell(cells, nets, buckets, maxPinNum, size0, size1, m);
    cells', nets', buckets' := UpdateGains(locked, nets, erased, maxPinNum, m, from);
    SameShapeTrans(cells, nets, locked, nets, cells', nets');
    MoveLeavesApart(cells, nets, cells', nets', m);
  }

  /** The first half of a move: flip, lock, erase, and the side sizes. */
  method LockCell(cells: seq<Cell>, nets: seq<Net>, buckets: seq<set<nat>>, maxPinNum: int, size0: int, size1: int, m: nat)
    returns (locked: seq<Cell>, erased: seq<set<nat>>, size0': int, size1': int)
    requires Structure(cells, nets) && CountsExact(Parts(cells), nets) && GainsFollow(cells, nets)
    requires PinsWithin(cells, maxPinNum) && BucketsOK(cells, buckets, maxPinNum)
    requires m < |cells| && !cells[m].lock
    requires size0 == NumOnSide(Parts(cells), false) && size1 == NumOnSide(Parts(cells), true)
    ensures locked == cells[m := cells[m].(part := !cells[m].part, lock := true)]
    ensures Parts(locked) == Parts(cells)[m := !cells[m].part] && SameShape(cells, nets, locked, nets)
    ensures forall c :: 0 <= c < |cells| ==> locked[c].lock == (cells[c].lock || c == m)
    ensures forall c :: 0 <= c < |cells| && cells[c].lock ==> locked[c] == cells[c]
    ensures size0' == NumOnSide(Parts(locked), false) && size1' == NumOnSide(Parts(locked), true)
    ensures Pending(locked, nets, m, cells[m].part, locked[m].netList) && GainsFollow(locked, nets)
    ensures BucketsOK(locked, erased, maxPinNum) && PinsWithin(locked, maxPinNum)
  {
    var from := cells[m].part;
    var to := !from;
    locked := cells[m := cells[m].(part := to, lock := true)];
    erased := EraseEverywhere(buckets, m);
    LockKeepsOK(cells, buckets, maxPinNum, m, to);
    if from {
      size0', size1' := size0 + 1, size1 - 1;
    } else {
      size0', size1' := size0 - 1, size1 + 1;
    }
    Locked(cells, nets, m, to);
    NumOnSideFlip(Parts(cells), m);
    StartPending(cells, nets, m);
  }

  /** Flipping and locking one cell changes nothing else about the cells. */
  lemma Locked(cells: seq<Cell>, nets: seq<Net>, m: nat, to: Side)
    requires m < |cells| && !cells[m].lock
    ensures var locked := cells[m := cells[m].(part := to, lock := true)];
      && Parts(locked) == Parts(cells)[m := to] && SameShape(cells, nets, locked, nets)
      && (forall c :: 0 <= c < |cells| ==> locked[c].lock == (cells[c].lock || c == m))
      && (forall c :: 0 <= c < |cells| && cells[c].lock ==> locked[c] == cells[c])
  {
    var locked := cells[m := cells[m].(part := to, lock := true)];
    assert Parts(locked) == Parts(cells)[m := to];
  }

  /** Locking a cell and erasing it from every slot keeps the buckets
      consistent, whatever side it is given. */
  lemma LockKeepsOK(cells: seq<Cell>, buckets: seq<set<nat>>, maxPinNum: int, m: nat, to: Side)
    requires BucketsOK(cells, buckets, maxPinNum) && m < |cells|
    ensures BucketsOK(cells[m := cells[m].(part := to, lock := true)], EraseEverywhere(buckets, m), maxPinNum)
  {
  }

  /** Right after the flip, every net of the moved cell still counts it on
      the from-side once per listing, and the free gains are unchanged. */
  lemma StartPending(cells: seq<Cell>, nets: seq<Net>, m: nat)
    requires Structure(cells, nets) && CountsExact(Parts(cells), nets) && GainsFollow(cells, nets)
    requires m < |cells| && !cells[m].lock
    ensures var locked := cells[m := cells[m].(part := !cells[m].part, lock := true)];
      Pending(locked, nets, m, cells[m].part, locked[m].netList) && GainsFollow(locked, nets)
  {
    var from := cells[m].part;
    var locked := cells[m := cells[m].(part := !from, lock := true)];
    Locked(cells, nets, m, !from);
    SameShapeKeepsStructure(cells, nets, locked, nets);
    StartCounts(Parts(cells), nets, m, cells[m].netList);
  }

  /** Flipping `m` while counting each of its listings as still pending
      matches the counts taken before the flip. */
  lemma StartCounts(parts: seq<Side>, nets: seq<Net>, m: nat, nl: seq<nat>)
    requires CountsExact(parts, nets) && m < |parts|
    requires forall j :: 0 <= j < |nl| ==> nl[j] < |nets|
    requires forall n :: 0 <= n < |nets| ==> multiset(nl)[n] == multiset(nets[n].cellList)[m]
    ensures PendingCounts(parts[m := !parts[m]], nets, m, parts[m], nl)
  {
    forall n | 0 <= n < |nets|
      ensures PendingNet(nets[n], parts[m := !parts[m]], m, parts[m], multiset(nl)[n])
    {
      SideCountFlip(nets[n].cellList, parts, m);
    }
  }

  // ---------------------------------------------------------------------
  // Cells away from the move

  /** `c` shares no net with `m`. */
  predicate Apart(nets: seq<Net>, c: nat, m: nat) {
    forall n :: 0 <= n < |nets| && c in nets[n].cellList ==> m !in nets[n].cellList
  }

  /** The FM gain of a cell that shares no net with `m` is the same
      before and after `m` changes side. */
  lemma {:induction false} ApartGainKept(parts: seq<bool>, nets: seq<Net>, nets': seq<Net>, m: nat, c: nat, s: Side, k: nat)
    requires m < |parts| && k <= |nets| == |nets'|
    requires CountsExact(parts, nets) && CountsExact(parts[m := !parts[m]], nets')
    requires forall n :: 0 <= n < |nets| ==> nets'[n].cellList == nets[n].cellList
    requires Apart(nets, c, m)
    ensures GainUpTo(nets', c, s, k) == GainUpTo(nets, c, s, k)
  {
    if k > 0 {
      ApartGainKept(parts, nets, nets', m, c, s, k - 1);
      var cl: seq<nat> := nets[k - 1].cellList;
      if c in cl {
        SideCountAbsent(cl, parts, m, !parts[m], false);
        SideCountAbsent(cl, parts, m, !parts[m], true);
      } else {
        assert c !in multiset(cl);
      }
    }
  }

  /** A move changes only the moved cell and cells that share a net with
      it: every other cell, free or locked, is left exactly as it was. */
  lemma MoveLeavesApart(cells: seq<Cell>, nets: seq<Net>, cells': seq<Cell>, nets': seq<Net>, m: nat)
    requires m < |cells| && CountsExact(Parts(cells), nets) && GainsFollow(cells, nets)
    requires SameShape(cells, nets, cells', nets') && Parts(cells') == Parts(cells)[m := !cells[m].part]
    requires forall c :: 0 <= c < |cells| ==> cells'[c].lock == (cells[c].lock || c == m)
    requires forall c :: 0 <= c < |cells| && cells[c].lock ==> cells'[c] == cells[c]
    requires CountsExact(Parts(cells'), nets') && GainsFollow(cells', nets')
    ensures forall c :: 0 <= c < |cells| && c != m && Apart(nets, c, m) ==> cells'[c] == cells[c]
  {
    forall c | 0 <= c < |cells| && c != m && Apart(nets, c, m)
      ensures cells'[c] == cells[c]
    {
      if !cells[c].lock {
        assert Parts(cells')[c] == Parts(cells)[c];
        ApartGainKept(Parts(cells), nets, nets', m, c, cells[c].part, |nets|);
      }
    }
  }
}
