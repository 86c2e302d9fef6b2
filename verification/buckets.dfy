/** The gain buckets of one FM pass: an array of `2 * maxPinNum + 1` sets
    of cell ids, slot `maxPinNum + g` holding the unlocked cells of gain
    `g`.  Cells are ids here, not pointers. */
module Buckets {
  import opened Hypergraph
  import opened Balance

  /** Every unlocked cell sits in exactly the slot of its gain and locked
      cells are in no slot. */
  ghost predicate BucketsOK(cells: seq<Cell>, buckets: seq<set<nat>>, maxPinNum: int) {
    && maxPinNum >= 0 && |buckets| == 2 * maxPinNum + 1
    && (forall k :: 0 <= k < |buckets| ==> forall c :: c in buckets[k] ==>
          c < |cells| && !cells[c].lock && k == maxPinNum + cells[c].gain)
    && (forall c :: 0 <= c < |cells| && !cells[c].lock ==>
          0 <= maxPinNum + cells[c].gain < |buckets| && c in buckets[maxPinNum + cells[c].gain])
  }

  /** Unlocks every cell and inserts it into the slot of its gain. */
  method Build(cells: seq<Cell>, maxPinNum: int) returns (cells': seq<Cell>, buckets: seq<set<nat>>)
    requires maxPinNum >= 0
    requires forall c :: 0 <= c < |cells| ==> -maxPinNum <= cells[c].gain <= maxPinNum
    ensures |cells'| == |cells|
    ensures forall c :: 0 <= c < |cells| ==> cells'[c] == cells[c].(lock := false)
    ensures BucketsOK(cells', buckets, maxPinNum)
  {
    buckets := seq(2 * maxPinNum + 1, k => {});
    cells' := cells;
    for i := 0 to |cells|
      invariant |cells'| == |cells| && |buckets| == 2 * maxPinNum + 1
      invariant forall c :: 0 <= c < |cells| ==> cells'[c] == if c < i then cells[c].(lock := false) else cells[c]
      invariant forall k :: 0 <= k < |buckets| ==> forall c :: c in buckets[k] ==> c < i && k == maxPinNum + cells[c].gain
      invariant forall c :: 0 <= c < i ==> c in buckets[maxPinNum + cells[c].gain]
    {
      cells' := cells'[i := cells[i].(lock := false)];
      var k := maxPinNum + cells[i].gain;
      ghost var before := buckets;
      assert forall k2 :: 0 <= k2 < |before| ==> i !in before[k2];
      buckets := buckets[k := buckets[k] + {i}];
      forall k': int, c: nat | 0 <= k' < |buckets| && c in buckets[k']
        ensures c < i + 1 && k' == maxPinNum + cells[c].gain
      {
        if c != i {
          assert c in before[k'];
          assert c < i && k' == maxPinNum + cells[c].gain;
        } else {
          assert i !in before[k'];
          assert k' == k;
        }
      }
    }
    forall k: int, c: nat | 0 <= k < |buckets| && c in buckets[k]
      ensures c < |cells'| && !cells'[c].lock && k == maxPinNum + cells'[c].gain
    {
      assert cells'[c] == cells[c].(lock := false);
    }
  }

  /** Which members a gain-update phase touches: every free member, or the
      free members on one side. */
  datatype Filter = AllFree | FreeOn(side: Side)

  predicate Picks(f: Filter, cell: Cell) {
    !cell.lock && (f.AllFree? || cell.part == f.side)
  }

  /** One phase of the incremental update: for each listing in `cl` of a
      cell the filter picks, take the cell out of its slot, change its gain
      by `delta`, and put it into the slot of the new gain.  A cell listed
      `k` times moves by `k * delta` in all. */
  method Bump(cells: seq<Cell>, buckets: seq<set<nat>>, maxPinNum: int, cl: seq<nat>, f: Filter, delta: int)
    returns (cells': seq<Cell>, buckets': seq<set<nat>>)
    requires BucketsOK(cells, buckets, maxPinNum) && (delta == 1 || delta == -1)
    requires forall j :: 0 <= j < |cl| ==> cl[j] < |cells|
    requires forall c :: 0 <= c < |cells| && c in cl && Picks(f, cells[c]) ==>
      0 <= maxPinNum + cells[c].gain + delta * multiset(cl)[c] <= 2 * maxPinNum
    ensures |cells'| == |cells|
    ensures forall c :: 0 <= c < |cells| ==>
      cells'[c] == if Picks(f, cells[c]) then cells[c].(gain := cells[c].gain + delta * multiset(cl)[c]) else cells[c]
    ensures BucketsOK(cells', buckets', maxPinNum)
  {
    cells', buckets' := cells, buckets;
    assert cells == Bumped(cells, cl[..0], f, delta);
    for j := 0 to |cl|
      invariant cells' == Bumped(cells, cl[..j], f, delta)
      invariant BucketsOK(cells', buckets', maxPinNum)
    {
      cells', buckets' := BumpListing(cells, cells', buckets', maxPinNum, cl, j, f, delta);
    }
    assert cl[..|cl|] == cl;
  }

  /** The `j`-th listing of `cl`: bumped when the filter picks its cell. */
  method BumpListing(cells: seq<Cell>, cur: seq<Cell>, buckets: seq<set<nat>>, maxPinNum: int, cl: seq<nat>, j: nat, f: Filter, delta: int)
    returns (cells': seq<Cell>, buckets': seq<set<nat>>)
    requires (delta == 1 || delta == -1) && j < |cl| && maxPinNum >= 0
    requires forall c :: 0 <= c < |cells| && !cells[c].lock ==> 0 <= maxPinNum + cells[c].gain <= 2 * maxPinNum
    requires forall j :: 0 <= j < |cl| ==> cl[j] < |cells|
    requires forall c :: 0 <= c < |cells| && c in cl && Picks(f, cells[c]) ==>
      0 <= maxPinNum + cells[c].gain + delta * multiset(cl)[c] <= 2 * maxPinNum
    requires cur == Bumped(cells, cl[..j], f, delta) && BucketsOK(cur, buckets, maxPinNum)
    ensures cells' == Bumped(cells, cl[..j + 1], f, delta) && BucketsOK(cells', buckets', maxPinNum)
  {
    var c := cl[j];
    BumpedNext(cells, cl, j, f, delta);
    if Picks(f, cells[c]) {
      BumpStepRange(cells, maxPinNum, cl, j, f, delta);
      cells', buckets' := BumpOne(cur, buckets, maxPinNum, c, delta);
    } else {
      cells', buckets' := cur, buckets;
    }
  }

  /** Before the `j`-th listing is bumped, the cell's next gain is still in range. */
  lemma BumpStepRange(cells: seq<Cell>, maxPinNum: int, cl: seq<nat>, j: nat, f: Filter, delta: int)
    requires (delta == 1 || delta == -1) && maxPinNum >= 0
    requires j < |cl| && cl[j] < |cells| && Picks(f, cells[cl[j]])
    requires 0 <= maxPinNum + cells[cl[j]].gain <= 2 * maxPinNum
    requires 0 <= maxPinNum + cells[cl[j]].gain + delta * multiset(cl)[cl[j]] <= 2 * maxPinNum
    ensures var b := Bumped(cells, cl[..j], f, delta);
      !b[cl[j]].lock && 0 <= maxPinNum + b[cl[j]].gain + delta <= 2 * maxPinNum
  {
    var c := cl[j];
    MultisetPrefixBound(cl, j, c);
    StepBetween(maxPinNum + cells[c].gain, delta, multiset(cl[..j])[c] + 1, multiset(cl)[c], 2 * maxPinNum);
  }

  /** The cells after the listings `cl` have been bumped. */
  function Bumped(cells: seq<Cell>, cl: seq<nat>, f: Filter, delta: int): (r: seq<Cell>)
    ensures |r| == |cells|
  {
    seq(|cells|, c requires 0 <= c < |cells| =>
      if Picks(f, cells[c]) then cells[c].(gain := cells[c].gain + delta * multiset(cl)[c]) else cells[c])
  }

  /** Bumping one more listing of `cl`. */
  lemma BumpedNext(cells: seq<Cell>, cl: seq<nat>, j: nat, f: Filter, delta: int)
    requires j < |cl| && cl[j] < |cells|
    ensures Bumped(cells, cl[..j + 1], f, delta) ==
      var b := Bumped(cells, cl[..j], f, delta);
      if Picks(f, cells[cl[j]]) then b[cl[j] := b[cl[j]].(gain := b[cl[j]].gain + delta)] else b
  {
    var c := cl[j];
    var b := Bumped(cells, cl[..j], f, delta);
    var b' := Bumped(cells, cl[..j + 1], f, delta);
    var e := if Picks(f, cells[c]) then b[c := b[c].(gain := b[c].gain + delta)] else b;
    assert cl[..j + 1] == cl[..j] + [c];
    assert multiset(cl[..j + 1]) == multiset(cl[..j]) + multiset{c};
    forall x | 0 <= x < |cells|
      ensures b'[x] == e[x]
    {
      assert multiset(cl[..j + 1])[x] == multiset(cl[..j])[x] + (if x == c then 1 else 0);
    }
  }

  /** Changes the gain of one unlocked cell by `delta` and moves it to the
      matching slot. */
  method BumpOne(cells: seq<Cell>, buckets: seq<set<nat>>, maxPinNum: int, c: nat, delta: int)
    returns (cells': seq<Cell>, buckets': seq<set<nat>>)
    requires BucketsOK(cells, buckets, maxPinNum) && c < |cells| && !cells[c].lock
    requires 0 <= maxPinNum + cells[c].gain + delta <= 2 * maxPinNum
    ensures cells' == cells[c := cells[c].(gain := cells[c].gain + delta)]
    ensures BucketsOK(cells', buckets', maxPinNum)
  {
    var g := cells[c].gain + delta;
    ReslotKeepsOK(cells, buckets, maxPinNum, c, g);
    buckets' := Reslot(buckets, c, maxPinNum + cells[c].gain, maxPinNum + g);
    cells' := cells[c := cells[c].(gain := g)];
  }

  /** Walking by unit steps from one point of [0, hi] to another never
      leaves it. */
  lemma StepBetween(x: int, delta: int, t: nat, k: nat, hi: int)
    requires delta == 1 || delta == -1
    requires t <= k && 0 <= x <= hi && 0 <= x + delta * k <= hi
    ensures 0 <= x + delta * t <= hi
  {
  }

  /** A prefix ending just before an occurrence of `c` holds fewer copies
      of `c` than the whole list. */
  lemma MultisetPrefixBound(cl: seq<nat>, j: nat, c: nat)
    requires j < |cl| && cl[j] == c
    ensures multiset(cl[..j])[c] + 1 <= multiset(cl)[c]
  {
    assert cl == cl[..j] + [c] + cl[j + 1..];
    assert multiset(cl) == multiset(cl[..j]) + multiset{c} + multiset(cl[j + 1..]);
  }

  /** Moves cell `c` from slot `k` to slot `k'`. */
  function Reslot(buckets: seq<set<nat>>, c: nat, k: nat, k': nat): (r: seq<set<nat>>)
    requires k < |buckets| && k' < |buckets|
    ensures |r| == |buckets|
    ensures forall j :: 0 <= j < |r| ==>
      r[j] == if j == k' then buckets[j] + {c} else if j == k then buckets[j] - {c} else buckets[j]
  {
    var b1 := buckets[k := buckets[k] - {c}];
    b1[k' := b1[k'] + {c}]
  }

  /** Giving one unlocked cell a new in-range gain and moving it to the
      matching slot keeps the buckets consistent. */
  lemma ReslotKeepsOK(cells: seq<Cell>, buckets: seq<set<nat>>, maxPinNum: int, c: nat, g: int)
    requires BucketsOK(cells, buckets, maxPinNum) && c < |cells| && !cells[c].lock
    requires 0 <= maxPinNum + g <= 2 * maxPinNum
    ensures BucketsOK(cells[c := cells[c].(gain := g)],
      Reslot(buckets, c, maxPinNum + cells[c].gain, maxPinNum + g), maxPinNum)
  {
    var cells' := cells[c := cells[c].(gain := g)];
    var r := Reslot(buckets, c, maxPinNum + cells[c].gain, maxPinNum + g);
    assert forall j :: 0 <= j < |buckets| && j != maxPinNum + cells[c].gain ==> c !in buckets[j];
    forall k: int, d: nat | 0 <= k < |r| && d in r[k]
      ensures d < |cells'| && !cells'[d].lock && k == maxPinNum + cells'[d].gain
    {
      if d != c {
        assert d in buckets[k];
      }
    }
  }

  /** Takes a cell out of every slot, as the source does after locking it. */
  function EraseEverywhere(buckets: seq<set<nat>>, m: nat): (r: seq<set<nat>>)
    ensures |r| == |buckets|
    ensures forall k :: 0 <= k < |r| ==> m !in r[k] && r[k] == buckets[k] - {m}
  {
    seq(|buckets|, k requires 0 <= k < |buckets| => buckets[k] - {m})
  }

  /** A cell may be moved when it is unlocked and its own side's gate passes. */
  predicate Feasible(cells: seq<Cell>, c: nat, size0: int, size1: int, n: int, b: real) {
    c < |cells| && !cells[c].lock && MayLeave(cells[c].part, size0, size1, n, b)
  }

  /** Scans the slots from the top down and returns a feasible cell of the
      first slot that has one: no feasible cell has a strictly higher gain.
      Among equal gains any feasible cell may be returned. */
  method Select(cells: seq<Cell>, buckets: seq<set<nat>>, maxPinNum: int, size0: int, size1: int, n: int, b: real)
    returns (r: Option<nat>)
    requires BucketsOK(cells, buckets, maxPinNum)
    ensures r.Some? ==> Feasible(cells, r.value, size0, size1, n, b)
    ensures r.Some? ==> forall c :: 0 <= c < |cells| && Feasible(cells, c, size0, size1, n, b) ==>
      cells[c].gain <= cells[r.value].gain
    ensures r.None? <==> forall c :: 0 <= c < |cells| ==> !Feasible(cells, c, size0, size1, n, b)
  {
    var i := |buckets|;
    while i > 0
      invariant 0 <= i <= |buckets|
      invariant forall k: int, c: nat :: i <= k < |buckets| && c in buckets[k] ==> !Feasible(cells, c, size0, size1, n, b)
    {
      i := i - 1;
      if exists c :: c in buckets[i] && Feasible(cells, c, size0, size1, n, b) {
        var c :| c in buckets[i] && Feasible(cells, c, size0, size1, n, b);
        return Some(c);
      }
    }
    return None;
  }
}
