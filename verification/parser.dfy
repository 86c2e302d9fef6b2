/** Reading the netlist into the engine.  The text stream is modelled as
    the sequence of its whitespace-separated tokens after the balance
    factor; the balance factor itself arrives already converted. */
module Parser {
  import opened Hypergraph

  /** Where the reader stands in the token stream. */
  datatype Mode =
    | Outside               // between records: only `NET` starts one
    | AwaitName             // just read `NET`: the next token names the net
    | Inside(prev: string)  // inside a record; `prev` is the last accepted cell name

  /** The counters the constructor zeroes before reading. */
  function Fresh(b: real): Partitioner {
    Partitioner(0, 0, 0, 0, 0, 0, b, [], [], map[], map[])
  }

  /** The reader's invariant: dense arenas whose lengths are the counters,
      consistent cross references, one id per distinct cell name and net
      name, and every cell and net as freshly read. */
  ghost predicate Consistent(p: Partitioner, mode: Mode) {
    && |p.cells| == p.cellNum && |p.nets| == p.netNum
    && Structure(p.cells, p.nets) && Covered(p.cells)
    && CellsNamed(p.cells, p.cellName2Id) && CellsFresh(p.cells)
    && NetsNamed(p.nets, p.netName2Id) && NetsFresh(p.nets)
    && (mode.Inside? ==> |p.nets| > 0)
  }

  /** The cell-name map and the cell arena agree both ways. */
  ghost predicate CellsNamed(cells: seq<Cell>, ids: map<string, nat>) {
    && (forall name :: name in ids ==> ids[name] < |cells| && cells[ids[name]].name == name)
    && (forall c :: 0 <= c < |cells| ==> cells[c].name in ids && ids[cells[c].name] == c)
  }

  /** Every cell is on side 0, unlocked, with gain 0. */
  predicate CellsFresh(cells: seq<Cell>) {
    forall c :: 0 <= c < |cells| ==> !cells[c].part && !cells[c].lock && cells[c].gain == 0
  }

  /** Every name in the net-name map names the net it maps to. */
  ghost predicate NetsNamed(nets: seq<Net>, ids: map<string, nat>) {
    forall name :: name in ids ==> ids[name] < |nets| && nets[ids[name]].name == name
  }

  /** Every net has both side counts zero. */
  predicate NetsFresh(nets: seq<Net>) {
    forall n :: 0 <= n < |nets| ==> nets[n].count0 == 0 && nets[n].count1 == 0
  }

  /** Opens a new net record under `name`: the net gets the next id with
      an empty cell list and zero counts, the name maps to that id, the
      cells are untouched, and the reader's invariant holds inside the new
      record. */
  function AddNet(p: Partitioner, mode: Mode, name: string): (r: Partitioner)
    requires Consistent(p, mode)
    ensures Consistent(r, Inside(""))
    ensures r.nets == p.nets + [Net(name, [], 0, 0)] && r.netName2Id == p.netName2Id[name := |p.nets|]
    ensures r.cells == p.cells && r.cellName2Id == p.cellName2Id
  {
    OpenNetStructure(p.cells, p.nets, name);
    p.(nets := p.nets + [Net(name, [], 0, 0)],
       netName2Id := p.netName2Id[name := p.netNum],
       netNum := p.netNum + 1)
  }

  /** Accepts one pin of the open record: the cell (created on first
      sight, on side 0 and unlocked, with the next id) gets the net id
      appended to its net list and its pin count bumped, and the open net
      gets the cell id appended; the reader's invariant carries over. */
  function AddPin(p: Partitioner, mode: Mode, cellName: string): (r: Partitioner)
    requires Consistent(p, mode) && |p.nets| > 0
    ensures Consistent(r, Inside(cellName)) && r.netName2Id == p.netName2Id
    ensures cellName in r.cellName2Id && r.nets == AppendPin(p.nets, |p.nets| - 1, r.cellName2Id[cellName])
    ensures cellName in p.cellName2Id ==> r.cellName2Id == p.cellName2Id && |r.cells| == |p.cells|
    ensures cellName !in p.cellName2Id ==>
      r.cellName2Id == p.cellName2Id[cellName := |p.cells|] && |r.cells| == |p.cells| + 1
    ensures var c := r.cellName2Id[cellName];
      && r.cells[c].netList == (if c < |p.cells| then p.cells[c].netList else []) + [|p.nets| - 1]
      && r.cells[c].pinNum == (if c < |p.cells| then p.cells[c].pinNum else 0) + 1
      && forall d :: 0 <= d < |p.cells| && d != c ==> r.cells[d] == p.cells[d]
  {
    var netId := |p.nets| - 1;
    if cellName !in p.cellName2Id then
      var cellId := |p.cells|;
      var cells' := p.cells + [Cell(cellName, false, false, 0, 1, [netId])];
      var nets' := AppendPin(p.nets, netId, cellId);
      var ids' := p.cellName2Id[cellName := cellId];
      NewPinConsistent(p, mode, cellName, cells', nets', ids');
      p.(cells := cells', cellName2Id := ids', nets := nets', cellNum := p.cellNum + 1)
    else
      var cellId := p.cellName2Id[cellName];
      var cell := p.cells[cellId];
      var cells' := p.cells[cellId := cell.(netList := cell.netList + [netId], pinNum := cell.pinNum + 1)];
      var nets' := AppendPin(p.nets, netId, cellId);
      ExistingPinConsistent(p, mode, cellName, cells', nets');
      p.(cells := cells', nets := nets')
  }

  lemma NewPinConsistent(p: Partitioner, mode: Mode, name: string, cells': seq<Cell>, nets': seq<Net>, ids': map<string, nat>)
    requires Consistent(p, mode) && |p.nets| > 0 && name !in p.cellName2Id
    requires cells' == p.cells + [Cell(name, false, false, 0, 1, [|p.nets| - 1])]
    requires nets' == AppendPin(p.nets, |p.nets| - 1, |p.cells|)
    requires ids' == p.cellName2Id[name := |p.cells|]
    ensures Consistent(p.(cells := cells', cellName2Id := ids', nets := nets', cellNum := p.cellNum + 1), Inside(name))
  {
    NewPinStructure(p.cells, p.nets, name);
    assert CellsNamed(cells', ids') by {
      forall c | 0 <= c < |cells'| ensures cells'[c].name in ids' && ids'[cells'[c].name] == c {
        if c < |p.cells| {
          assert cells'[c] == p.cells[c];
        }
      }
    }
    assert CellsFresh(cells') by {
      forall c | 0 <= c < |cells'| ensures !cells'[c].part && !cells'[c].lock && cells'[c].gain == 0 {
        if c < |p.cells| {
          assert cells'[c] == p.cells[c];
        }
      }
    }
    NetsAppendPin(p.nets, |p.cells|, p.netName2Id);
  }

  lemma ExistingPinConsistent(p: Partitioner, mode: Mode, name: string, cells': seq<Cell>, nets': seq<Net>)
    requires Consistent(p, mode) && |p.nets| > 0 && name in p.cellName2Id
    requires var cell := p.cells[p.cellName2Id[name]];
      cells' == p.cells[p.cellName2Id[name] := cell.(netList := cell.netList + [|p.nets| - 1], pinNum := cell.pinNum + 1)]
    requires nets' == AppendPin(p.nets, |p.nets| - 1, p.cellName2Id[name])
    ensures Consistent(p.(cells := cells', nets := nets'), Inside(name))
  {
    var cellId := p.cellName2Id[name];
    ExistingPinStructure(p.cells, p.nets, cellId);
    assert CellsNamed(cells', p.cellName2Id) by {
      forall c | 0 <= c < |cells'| ensures cells'[c].name == p.cells[c].name {
      }
      SameNamesNamed(p.cells, cells', p.cellName2Id);
    }
    assert CellsFresh(cells') by {
      forall c | 0 <= c < |cells'| ensures !cells'[c].part && !cells'[c].lock && cells'[c].gain == 0 {
      }
    }
    NetsAppendPin(p.nets, cellId, p.netName2Id);
  }

  /** Renaming nothing keeps the cell-name map in step with the arena. */
  lemma SameNamesNamed(cells: seq<Cell>, cells': seq<Cell>, ids: map<string, nat>)
    requires CellsNamed(cells, ids) && |cells'| == |cells|
    requires forall c :: 0 <= c < |cells| ==> cells'[c].name == cells[c].name
    ensures CellsNamed(cells', ids)
  {
  }

  /** Appending a pin to the open net keeps every net's name and counts. */
  lemma NetsAppendPin(nets: seq<Net>, cellId: nat, ids: map<string, nat>)
    requires |nets| > 0 && NetsNamed(nets, ids) && NetsFresh(nets)
    ensures NetsNamed(AppendPin(nets, |nets| - 1, cellId), ids) && NetsFresh(AppendPin(nets, |nets| - 1, cellId))
  {
    var nets' := AppendPin(nets, |nets| - 1, cellId);
    forall n | 0 <= n < |nets'|
      ensures nets'[n].name == nets[n].name && nets'[n].count0 == 0 && nets'[n].count1 == 0
    {
    }
  }

  /** One token of the stream; the reader's invariant carries over in
      every mode. */
  function Step(p: Partitioner, mode: Mode, tok: string): (r: (Partitioner, Mode))
    requires Consistent(p, mode)
    ensures Consistent(r.0, r.1)
    ensures mode.Outside? ==> r == (p, if tok == "NET" then AwaitName else Outside)
    ensures mode.AwaitName? ==> r == (AddNet(p, mode, tok), Inside(""))
    ensures mode.Inside? && tok == ";" ==> r == (p, Outside)
    ensures mode.Inside? && tok != ";" ==>
      (r.0 == p <==> tok in p.cellName2Id && tok == mode.prev) &&
      (r.0 != p ==> r == (AddPin(p, mode, tok), Inside(tok))) &&
      (r.0 == p ==> r.1 == mode)
  {
    match mode
    case Outside => (p, if tok == "NET" then AwaitName else Outside)
    case AwaitName => (AddNet(p, mode, tok), Inside(""))
    case Inside(prev) =>
      if tok == ";" then (p, Outside)
      else if tok !in p.cellName2Id || tok != prev then (AddPin(p, mode, tok), Inside(tok))
      else (p, mode)
  }

  /** End of stream: a `NET` with no name token still creates a net whose
      name is empty; an unterminated record simply ends.  Either way the
      reader's invariant holds outside any record. */
  function Finish(p: Partitioner, mode: Mode): (r: Partitioner)
    requires Consistent(p, mode)
    ensures Consistent(r, Outside)
    ensures mode.AwaitName? ==> r.nets == p.nets + [Net("", [], 0, 0)] && r.cells == p.cells
    ensures !mode.AwaitName? ==> r == p
  {
    if mode.AwaitName? then AddNet(p, mode, "") else p
  }

  /** A net with no cells added at the end keeps the cross references. */
  lemma OpenNetStructure(cells: seq<Cell>, nets: seq<Net>, name: string)
    requires Structure(cells, nets)
    ensures Structure(cells, nets + [Net(name, [], 0, 0)])
  {
    var nets' := nets + [Net(name, [], 0, 0)];
    forall c, n | 0 <= c < |cells| && 0 <= n < |nets'|
      ensures multiset(cells[c].netList)[n] == multiset(nets'[n].cellList)[c]
    {
      if n == |nets| {
        assert n !in cells[c].netList;
      } else {
        assert nets'[n] == nets[n];
      }
    }
  }

  /** The net list with `cellId` appended to net `netId`. */
  function AppendPin(nets: seq<Net>, netId: nat, cellId: nat): seq<Net>
    requires netId < |nets|
  {
    nets[netId := nets[netId].(cellList := nets[netId].cellList + [cellId])]
  }

  lemma NewPinStructure(cells: seq<Cell>, nets: seq<Net>, name: string)
    requires Structure(cells, nets) && Covered(cells) && |nets| > 0
    ensures var cells' := cells + [Cell(name, false, false, 0, 1, [|nets| - 1])];
      Structure(cells', AppendPin(nets, |nets| - 1, |cells|)) && Covered(cells')
  {
    var cells' := cells + [Cell(name, false, false, 0, 1, [|nets| - 1])];
    var nets' := AppendPin(nets, |nets| - 1, |cells|);
    assert ValidIds(cells', nets');
    NewPinIncident(cells, nets, name);
    assert PinsCounted(cells');
  }

  lemma NewPinIncident(cells: seq<Cell>, nets: seq<Net>, name: string)
    requires ValidIds(cells, nets) && Incident(cells, nets) && |nets| > 0
    ensures Incident(cells + [Cell(name, false, false, 0, 1, [|nets| - 1])], AppendPin(nets, |nets| - 1, |cells|))
  {
    var netId := |nets| - 1;
    var cellId := |cells|;
    var cells' := cells + [Cell(name, false, false, 0, 1, [netId])];
    var nets' := AppendPin(nets, netId, cellId);
    forall c, n | 0 <= c < |cells'| && 0 <= n < |nets'|
      ensures multiset(cells'[c].netList)[n] == multiset(nets'[n].cellList)[c]
    {
      if c == cellId {
        assert c !in nets[n].cellList;
        if n == netId {
          assert multiset(nets'[n].cellList) == multiset(nets[n].cellList) + multiset{cellId};
        }
      } else {
        assert cells'[c] == cells[c];
        if n == netId {
          assert multiset(nets'[n].cellList) == multiset(nets[n].cellList) + multiset{cellId};
        }
      }
    }
  }

  lemma ExistingPinStructure(cells: seq<Cell>, nets: seq<Net>, cellId: nat)
    requires Structure(cells, nets) && Covered(cells) && |nets| > 0 && cellId < |cells|
    ensures var cell := cells[cellId];
      var cells' := cells[cellId := cell.(netList := cell.netList + [|nets| - 1], pinNum := cell.pinNum + 1)];
      Structure(cells', AppendPin(nets, |nets| - 1, cellId)) && Covered(cells')
  {
    var cell := cells[cellId];
    var cells' := cells[cellId := cell.(netList := cell.netList + [|nets| - 1], pinNum := cell.pinNum + 1)];
    var nets' := AppendPin(nets, |nets| - 1, cellId);
    assert ValidIds(cells', nets');
    ExistingPinIncident(cells, nets, cellId);
    assert PinsCounted(cells');
  }

  lemma ExistingPinIncident(cells: seq<Cell>, nets: seq<Net>, cellId: nat)
    requires Incident(cells, nets) && |nets| > 0 && cellId < |cells|
    ensures var cell := cells[cellId];
      var cells' := cells[cellId := cell.(netList := cell.netList + [|nets| - 1], pinNum := cell.pinNum + 1)];
      Incident(cells', AppendPin(nets, |nets| - 1, cellId))
  {
    var netId := |nets| - 1;
    var cell := cells[cellId];
    var cells' := cells[cellId := cell.(netList := cell.netList + [netId], pinNum := cell.pinNum + 1)];
    var nets' := AppendPin(nets, netId, cellId);
    forall c, n | 0 <= c < |cells'| && 0 <= n < |nets'|
      ensures multiset(cells'[c].netList)[n] == multiset(nets'[n].cellList)[c]
    {
      assert multiset(cells[c].netList)[n] == multiset(nets[n].cellList)[c];
      if n == netId {
        AppendCount(nets[n].cellList, cellId, c);
      }
      if c == cellId {
        AppendCount(cell.netList, netId, n);
      }
    }
  }

  /** Appending `x` adds one occurrence of `x` and nothing else. */
  lemma AppendCount(s: seq<nat>, x: nat, y: nat)
    ensures multiset(s + [x])[y] == multiset(s)[y] + (if x == y then 1 else 0)
  {
    assert multiset(s + [x]) == multiset(s) + multiset{x};
  }

  /** Cell ids are handed out densely in order of first appearance: ids
      already given keep their cell and name, a name seen before keeps its
      id, and a name seen for the first time gets the next id. */
  lemma {:induction false} StepFirstSeenOrder(p: Partitioner, mode: Mode, tok: string)
    requires Consistent(p, mode)
    ensures var p' := Step(p, mode, tok).0;
      && |p.cells| <= |p'.cells| <= |p.cells| + 1
      && (forall c :: 0 <= c < |p.cells| ==> p'.cells[c].name == p.cells[c].name)
      && (forall name :: name in p.cellName2Id ==> name in p'.cellName2Id && p'.cellName2Id[name] == p.cellName2Id[name])
      && (forall name :: name in p'.cellName2Id && name !in p.cellName2Id ==>
            p'.cellName2Id[name] == |p.cells| && name == tok && mode.Inside?)
  {
  }

  /** Reads the rest of the stream. */
  function ParseFrom(p: Partitioner, mode: Mode, toks: seq<string>): (r: Partitioner)
    requires Consistent(p, mode)
    ensures Consistent(r, Outside)
    ensures r.cutSize == p.cutSize && r.maxPinNum == p.maxPinNum && r.bFactor == p.bFactor
    decreases |toks|
  {
    if |toks| == 0 then Finish(p, mode)
    else
      var (p', mode') := Step(p, mode, toks[0]);
      ParseFrom(p', mode', toks[1..])
  }

  /** The constructor: zero the counters, read the whole stream, then set
      both partition sizes to 0. */
  function Construct(b: real, toks: seq<string>): (r: Partitioner)
    ensures r.netNum == |r.nets| && r.cellNum == |r.cells|
    ensures r.partSize0 == 0 && r.partSize1 == 0 && r.cutSize == 0 && r.maxPinNum == 0 && r.bFactor == b
    ensures Structure(r.cells, r.nets) && Covered(r.cells)
    ensures forall c :: 0 <= c < |r.cells| ==> !r.cells[c].part && !r.cells[c].lock
    ensures forall c :: 0 <= c < |r.cells| ==>
      r.cells[c].name in r.cellName2Id && r.cellName2Id[r.cells[c].name] == c
    ensures forall name :: name in r.cellName2Id ==> r.cellName2Id[name] < |r.cells| && r.cells[r.cellName2Id[name]].name == name
    ensures Holds(r, Records(toks)) && r.cellName2Id.Keys == CellNames(toks)
  {
    var p := ParseFrom(Fresh(b), Outside, toks);
    assert Fresh(b).cellName2Id.Keys == {};
    ParseHolds(Fresh(b), Outside, toks, []);
    p.(partSize0 := 0, partSize1 := 0)
  }

  /** No net of the constructed circuit lists the same cell twice in a
      row: the reader drops a name equal to the one it accepted last. */
  lemma ConstructDropsRepeats(b: real, toks: seq<string>, n: nat, j: nat)
    requires n < |Construct(b, toks).nets| && 0 < j < |Construct(b, toks).nets[n].cellList|
    ensures Construct(b, toks).nets[n].cellList[j] != Construct(b, toks).nets[n].cellList[j - 1]
  {
    var r := Construct(b, toks);
    RecordsTidy(toks);
    var recs := Records(toks);
    assert Lists(r.cells, r.nets[n].cellList, recs[n].pins);
    assert recs[n].pins[j] != recs[n].pins[j - 1];
  }

  /** Every cell occurs in the nets exactly once per pin, and its net list
      has one entry per pin. */
  lemma ParsedPins(b: real, toks: seq<string>, c: nat)
    requires c < |Construct(b, toks).cells|
    ensures var r := Construct(b, toks);
      r.cells[c].pinNum == |r.cells[c].netList| == OccSum(r.nets, c, |r.nets|) >= 1
  {
    var r := Construct(b, toks);
    OccSumIsPinNum(r.cells, r.nets, c);
  }

  // ---------------------------------------------------------------------
  // The netlist as written

  /** One record of the netlist: the net's name and the cell names it
      lists, in order, as the reader accepts them. */
  datatype Record = Record(name: string, pins: seq<string>)

  /** A reading of the token stream by names alone, without ids or
      arenas: the records so far, the cell names accepted so far, and
      where the reader stands. */
  datatype Reading = Reading(recs: seq<Record>, seen: set<string>, mode: Mode)

  /** Appends `name` to the open record. */
  function AddName(recs: seq<Record>, name: string): (r: seq<Record>)
    ensures |r| == |recs|
  {
    if |recs| == 0 then recs
    else recs[|recs| - 1 := recs[|recs| - 1].(pins := recs[|recs| - 1].pins + [name])]
  }

  /** One token of the reading: `NET` opens a record and the next token
      names it; inside a record `;` closes it and any other token is a
      cell name, dropped when it is already known and equal to the name
      the record accepted last. */
  function Scan(s: Reading, tok: string): Reading {
    match s.mode
    case Outside => s.(mode := if tok == "NET" then AwaitName else Outside)
    case AwaitName => Reading(s.recs + [Record(tok, [])], s.seen, Inside(""))
    case Inside(prev) =>
      if tok == ";" then s.(mode := Outside)
      else if tok in s.seen && tok == prev then s
      else Reading(AddName(s.recs, tok), s.seen + {tok}, Inside(tok))
  }

  /** Reads the rest of the stream; a `NET` at its very end opens a
      record with the empty name. */
  function ReadAll(s: Reading, toks: seq<string>): Reading
    decreases |toks|
  {
    if |toks| == 0 then
      if s.mode.AwaitName? then Reading(s.recs + [Record("", [])], s.seen, Outside) else s.(mode := Outside)
    else ReadAll(Scan(s, toks[0]), toks[1..])
  }

  /** The records of a whole token stream. */
  function Records(toks: seq<string>): seq<Record> {
    ReadAll(Reading([], {}, Outside), toks).recs
  }

  /** The cell names a whole token stream introduces. */
  function CellNames(toks: seq<string>): set<string> {
    ReadAll(Reading([], {}, Outside), toks).seen
  }

  /** The listings `cl` name, in order, the cells `pins`. */
  predicate Lists(cells: seq<Cell>, cl: seq<nat>, pins: seq<string>) {
    |cl| == |pins| && forall j :: 0 <= j < |cl| ==> cl[j] < |cells| && cells[cl[j]].name == pins[j]
  }

  /** The engine holds the records `recs`: net `i` has record `i`'s name
      and lists the cells its names name. */
  predicate Holds(p: Partitioner, recs: seq<Record>) {
    HoldsIn(p.cells, p.nets, recs)
  }

  predicate HoldsIn(cells: seq<Cell>, nets: seq<Net>, recs: seq<Record>) {
    |nets| == |recs| && forall i :: 0 <= i < |recs| ==> nets[i].name == recs[i].name && Lists(cells, nets[i].cellList, recs[i].pins)
  }

  /** Cells keeping their names, and possibly more cells, keep every
      listing's names. */
  lemma ListsGrow(cells: seq<Cell>, cells': seq<Cell>, cl: seq<nat>, pins: seq<string>)
    requires Lists(cells, cl, pins) && |cells| <= |cells'|
    requires forall c :: 0 <= c < |cells| ==> cells'[c].name == cells[c].name
    ensures Lists(cells', cl, pins)
  {
  }

  /** Accepting a pin keeps the records held, with the name appended to
      the open record. */
  lemma AddPinHolds(p: Partitioner, tok: string, recs: seq<Record>, r: Partitioner)
    requires CellsNamed(p.cells, p.cellName2Id) && CellsNamed(r.cells, r.cellName2Id)
    requires HoldsIn(p.cells, p.nets, recs) && |p.nets| > 0
    requires tok in r.cellName2Id && r.nets == AppendPin(p.nets, |p.nets| - 1, r.cellName2Id[tok])
    requires tok in p.cellName2Id ==> r.cellName2Id == p.cellName2Id && |r.cells| == |p.cells|
    requires tok !in p.cellName2Id ==> r.cellName2Id == p.cellName2Id[tok := |p.cells|] && |r.cells| == |p.cells| + 1
    requires forall d :: 0 <= d < |p.cells| && d != r.cellName2Id[tok] ==> r.cells[d] == p.cells[d]
    ensures Holds(r, AddName(recs, tok)) && r.cellName2Id.Keys == p.cellName2Id.Keys + {tok}
  {
    var c := r.cellName2Id[tok];
    forall d | 0 <= d < |p.cells| ensures r.cells[d].name == p.cells[d].name {
      if d == c {
        assert p.cellName2Id[tok] == d;
      }
    }
    AppendHolds(p.cells, p.nets, recs, r.cells, c, tok);
  }

  /** Appending cell `c`, named `tok`, to the open net appends `tok` to
      the open record. */
  lemma AppendHolds(cells: seq<Cell>, nets: seq<Net>, recs: seq<Record>, cells': seq<Cell>, c: nat, tok: string)
    requires HoldsIn(cells, nets, recs) && |nets| > 0
    requires |cells| <= |cells'| && c < |cells'| && cells'[c].name == tok
    requires forall d :: 0 <= d < |cells| ==> cells'[d].name == cells[d].name
    ensures HoldsIn(cells', AppendPin(nets, |nets| - 1, c), AddName(recs, tok))
  {
    var last := |nets| - 1;
    var nets' := AppendPin(nets, last, c);
    var recs' := AddName(recs, tok);
    forall i | 0 <= i < |recs'|
      ensures nets'[i].name == recs'[i].name && Lists(cells', nets'[i].cellList, recs'[i].pins)
    {
      ListsGrow(cells, cells', nets[i].cellList, recs[i].pins);
      if i == last {
        assert nets'[i].cellList == nets[i].cellList + [c];
        assert recs'[i].pins == recs[i].pins + [tok];
      }
    }
  }

  /** One token moves the engine and the reading in step. */
  lemma StepHolds(p: Partitioner, mode: Mode, tok: string, recs: seq<Record>)
    requires Consistent(p, mode) && Holds(p, recs)
    ensures var s := Scan(Reading(recs, p.cellName2Id.Keys, mode), tok);
      var r := Step(p, mode, tok);
      r.1 == s.mode && Holds(r.0, s.recs) && r.0.cellName2Id.Keys == s.seen
  {
    match mode
    case Outside =>
    case AwaitName =>
      NetHolds(p, mode, tok, recs);
    case Inside(prev) =>
      if tok != ";" && !(tok in p.cellName2Id && tok == prev) {
        PinHolds(p, mode, tok, recs);
      }
  }

  /** Opening a record keeps the records held, with a new empty one. */
  lemma NetHolds(p: Partitioner, mode: Mode, tok: string, recs: seq<Record>)
    requires Consistent(p, mode) && Holds(p, recs)
    ensures Holds(AddNet(p, mode, tok), recs + [Record(tok, [])])
  {
    var r := AddNet(p, mode, tok);
    assert forall i :: 0 <= i < |recs| ==> r.nets[i] == p.nets[i];
  }

  /** Accepting a pin keeps the records held, with the name appended to
      the open record, and makes the name known. */
  lemma PinHolds(p: Partitioner, mode: Mode, tok: string, recs: seq<Record>)
    requires Consistent(p, mode) && Holds(p, recs) && |p.nets| > 0
    ensures Holds(AddPin(p, mode, tok), AddName(recs, tok))
    ensures AddPin(p, mode, tok).cellName2Id.Keys == p.cellName2Id.Keys + {tok}
  {
    var r := AddPin(p, mode, tok);
    assert CellsNamed(p.cells, p.cellName2Id);
    assert CellsNamed(r.cells, r.cellName2Id);
    AddPinHolds(p, tok, recs, r);
  }

  /** Reading the rest of the stream moves the engine and the reading in
      step. */
  lemma {:induction false} ParseHolds(p: Partitioner, mode: Mode, toks: seq<string>, recs: seq<Record>)
    requires Consistent(p, mode) && Holds(p, recs)
    ensures var s := ReadAll(Reading(recs, p.cellName2Id.Keys, mode), toks);
      var r := ParseFrom(p, mode, toks);
      Holds(r, s.recs) && r.cellName2Id.Keys == s.seen
    decreases |toks|
  {
    if |toks| == 0 {
      if mode.AwaitName? {
        NetHolds(p, mode, "", recs);
      }
    } else {
      StepHolds(p, mode, toks[0], recs);
      var s := Scan(Reading(recs, p.cellName2Id.Keys, mode), toks[0]);
      var (p', mode') := Step(p, mode, toks[0]);
      ParseHolds(p', mode', toks[1..], s.recs);
    }
  }

  /** The reading's own invariant: no record names the same cell twice
      in a row, every listed name is known, and inside a record the last
      listed name is the one the reader remembers. */
  predicate Tidy(s: Reading) {
    && NoAdjacentRepeat(s.recs)
    && (forall i, j :: 0 <= i < |s.recs| && 0 <= j < |s.recs[i].pins| ==> s.recs[i].pins[j] in s.seen)
    && (s.mode.Inside? ==> |s.recs| > 0 && LastIs(s.recs[|s.recs| - 1].pins, s.mode.prev))
  }

  /** An empty list, or one whose last name is `name`. */
  predicate LastIs(pins: seq<string>, name: string) {
    |pins| > 0 ==> pins[|pins| - 1] == name
  }

  /** No record lists the same name twice in a row. */
  predicate NoAdjacentRepeat(recs: seq<Record>) {
    forall i, j :: 0 <= i < |recs| && 0 < j < |recs[i].pins| ==> recs[i].pins[j] != recs[i].pins[j - 1]
  }

  lemma {:induction false} ReadTidy(s: Reading, toks: seq<string>)
    requires Tidy(s)
    ensures Tidy(ReadAll(s, toks))
    decreases |toks|
  {
    if |toks| > 0 {
      var s' := Scan(s, toks[0]);
      assert Tidy(s') by {
        if s.mode.Inside? && toks[0] != ";" && !(toks[0] in s.seen && toks[0] == s.mode.prev) {
          var last := |s.recs| - 1;
          assert s'.recs[last].pins == s.recs[last].pins + [toks[0]];
          assert forall i :: 0 <= i < last ==> s'.recs[i] == s.recs[i];
        }
      }
      ReadTidy(s', toks[1..]);
    }
  }

  /** The records of any stream list no name twice in a row, and every
      name they list is one of the stream's cell names. */
  lemma RecordsTidy(toks: seq<string>)
    ensures NoAdjacentRepeat(Records(toks))
    ensures forall i, j :: 0 <= i < |Records(toks)| && 0 <= j < |Records(toks)[i].pins| ==> Records(toks)[i].pins[j] in CellNames(toks)
  {
    ReadTidy(Reading([], {}, Outside), toks);
  }
}
