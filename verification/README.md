# FM min-cut bipartitioning, modelled in Dafny

The engine reads a netlist and splits its cells into two sides, A (side 0,
`false` here) and B (side 1, `true`). A netlist is a balance factor followed by
records of the form `NET <name> <cell> ... ;`. The goal is to cut as few nets as
possible, where a net is cut when it has members on both sides. Each side's size
must stay in the window `[(1 - b)/2 * n, (1 + b)/2 * n]`.

The work happens in three phases:

* **Initial partition.** `logicAffinity` runs in two stages. Stage 1 hands whole
  nets to alternating sides. Stage 2 runs when neither side may give up a cell:
  it scans the nets from last to first and moves listed cells of the larger side
  to the smaller one, aiming at half the size difference. It tests the remaining
  gap only after each listing, so with a gap of 0 the first listing still moves
  (see Findings). The model follows the code as written and also proves the
  corrected scan.
* **Recount.** The per-net side counts, the side sizes, the cut size, the gains
  and the largest pin count are all recomputed from scratch.
* **FM passes.** Fiduccia–Mattheyses passes repeat until a pass gains nothing,
  150 passes have run, or an early break fires. The early break needs more than
  100 passes, and the last five best partial sums must add up to less than 20.

One FM pass works like this:

1. Unlock every cell and file it into a bucket array indexed by gain.
2. Move every cell once. Each step takes a feasible cell of highest gain, meaning
   an unlocked cell whose own side's balance gate passes.
3. Record the running partial sums of the gains.
4. Apply the four-case incremental update to the gains of the free cells in the
   moved cell's nets.
5. Move back the cells moved after the first best prefix, if its partial sum is
   positive.
6. Recount everything.

## Layout

Each file holds one module. Cells and nets are identified by integer ids, not
pointers.

| file | module | contents |
|---|---|---|
| `hypergraph.dfy` | `Hypergraph` | the `Cell`, `Net` and `Partitioner` records |
| | | well-formedness (`Structure`) |
| | | side counts, side sizes and the cut as functions of the sides |
| `parser.dfy` | `Parser` | the token-level reader and the constructor |
| `balance.dfy` | `Balance` | the two balance gates |
| `recount.dfy` | `Recount` | the from-scratch recounts |
| `gain.dfy` | `Gain` | the FM gain of a cell, and its relation to the cut |
| `buckets.dfy` | `Buckets` | the gain buckets, their re-filing and the selection scan |
| `update.dfy` | `Update` | moving one cell and the four-case gain update |
| `fm.dfy` | `FMPass` | one pass: the move loop, partial sums, move back and recount |
| `affinity.dfy` | `Affinity` | the two stages of the initial partition |
| `driver.dfy` | `Driver` | the pass loop of `partition`, and the constructor followed by `partition` |

## Model

| member | source | states |
|---|---|---|
| Parser.Construct | src/partitioner.h:15-21 | The constructed engine holds exactly the netlist the stream writes, as read by names alone in `Parser.Records`. Net i has record i's name and lists, in order, the cells record i names, and the cell-name map's keys are exactly the stream's cell names. The net and cell counters equal the lengths of their arenas. The cross references are consistent and every cell is in some net. Every cell starts unlocked on side A. Both part sizes, the cut and the largest pin count are 0. The name map is a bijection between cell names and ids. |
| Parser.ParseFrom | src/partitioner.cpp:27-74 | Reading the rest of the stream keeps the reader's invariant from any consistent state. The invariant covers dense arenas, consistent net and cell cross references, and one id per distinct cell name. The balance factor and the counters the reader never touches stay as they were. |
| Parser.ParseHolds | src/partitioner.cpp:27-74 | Reading the rest of the stream moves the engine and the name-level reading in step. The engine ends up holding the reading's records, and its cell names are the names the reading has seen. |
| Parser.StepHolds | src/partitioner.cpp:27-73 | One token moves the engine and the name-level reading in step: both reach the same mode, the engine holds the reading's records, and the engine's cell names are the reading's known names. |
| Parser.RecordsTidy | src/partitioner.cpp:46-68 | The records of any stream never list the same name twice in a row, and every name they list is one of the stream's cell names. |
| Parser.ConstructDropsRepeats | src/partitioner.cpp:46-68 | In the constructed circuit no net lists the same cell at two adjacent positions. |
| Parser.AddNet | src/partitioner.cpp:29-35 | `NET <name>` opens a net record. The new net takes the next id, with no cells and both counts 0, and the name maps to that id. The cells and the cell-name map are untouched, and the reader's invariant holds inside the new record. |
| Parser.AddPin | src/partitioner.cpp:44-69 | An accepted cell name joins the open net. A first-seen name gets the next id; a known name keeps its id and map. Either way the open net's list gains the cell id at its end, and the cell's net list gains the net id. The pin count goes up by one, every other cell is untouched, the net-name map is kept, and the reader's invariant carries over. |
| Parser.Step | src/partitioner.cpp:27-73 | Outside a record only `NET` starts one, and the next token names a new net. Inside a record `;` closes it. Any other token is dropped, with nothing changed, exactly when it is a known cell name equal to the name the record accepted last. Otherwise it joins the open net as `Parser.AddPin` states and becomes the name remembered. In every mode the reader's invariant carries over: dense arenas, consistent cross references, one id per distinct cell name, names that map to their net, and fresh sides, locks, gains and counts. |
| Parser.Finish | src/partitioner.cpp:29-35 | At the end of the stream the reader's invariant holds outside any record. A trailing `NET` with no name still appends a net whose name is empty, leaving the cells alone; in any other mode nothing changes. |
| Parser.StepFirstSeenOrder | src/partitioner.cpp:46-56 | Ids are handed out in order of first appearance. Known names keep their id and cell. A new name gets exactly the next id, and only inside a record. |
| Parser.ParsedPins | src/partitioner.cpp:46-69 | In the constructed circuit, a cell's pin count equals the length of its net list. It also equals the number of times the nets list the cell, and is at least 1. |
| Balance.Abalance | src/partitioner.cpp:242-249 | Moving a cell from A to B passes exactly when both resulting side sizes lie in the balance window. |
| Balance.Bbalance | src/partitioner.cpp:251-258 | Moving a cell from B to A passes exactly when both resulting side sizes lie in the balance window. |
| Balance.BbalanceMirrorsAbalance | src/partitioner.cpp:242-258 | The B gate is the A gate with the two sizes swapped. |
| Balance.GateNeedsSourceCell | src/partitioner.cpp:242-258 | For a factor in [0, 1], a passing gate means the side being left holds at least one cell. |
| Balance.GateBoundsImbalance | src/partitioner.cpp:242-258 | After a move that passed its gate, the two sides differ by at most b·n. |
| Recount.CountNetPartCount | src/partitioner.cpp:150-162 | Every net's two counts equal the number of its listings on each side, and together they add up to its listing count. Member lists and all cells are unchanged. |
| Recount.CountCutsize | src/partitioner.cpp:164-173 | The result is the number of nets whose stored counts are both positive, between 0 and the number of nets. |
| Recount.StoredCutIsCut | src/partitioner.cpp:164-173 | With exact counts, the cut read off the stored counts is the number of nets with members on both sides. |
| Recount.CountPartsize | src/partitioner.cpp:175-188 | The two sizes are the number of cells on each side, and they add up to the cell count. |
| Recount.CountMaxPinNum | src/partitioner.cpp:190-198 | The result is at least every cell's pin count. It is either 0 or attained by some cell. |
| Gain.CountGain | src/partitioner.cpp:200-240 | Every cell's gain becomes its FM gain over all its nets, bounded in absolute value by its pin count. Sides, locks and the circuit's shape are unchanged. |
| Gain.GainBound | src/partitioner.cpp:200-240 | A cell's FM gain lies in [-pinNum, pinNum], so it always indexes a bucket. |
| Gain.GainIsCutDrop | src/partitioner.cpp:200-240 | With exact counts and no net listing a cell twice, a cell's gain equals how much the cut drops when that cell alone changes side. |
| Affinity.Stage1 | src/partitioner.cpp:84-105 | Nets are visited in order. A net is claimed exactly when none of its members is locked, either initially or by an earlier claimed net. The k-th claimed net's members are on side k mod 2 and locked. Every other cell keeps its side, and nothing else changes. |
| Affinity.Rebalance | src/partitioner.cpp:128-146 | Corrected stage 2 scan. Only cells that appear in the scan order and were on the larger side change, and they change to the other side. |
| Affinity.RebalanceMovesGap | src/partitioner.cpp:110-146 | When every cell on the larger side is scanned and that side holds at least `gap` cells, exactly `gap` cells move from it to the other side. |
| Affinity.RebalanceAgrees | src/partitioner.cpp:128-146 | For a positive gap, the scan as written and the corrected scan give the same sides. |
| Affinity.RebalanceAsWrittenOvershoots | src/partitioner.cpp:133-138 | With a gap of 0, the scan as written still moves the first listing when it is on the larger side, while the corrected scan moves nothing. |
| Affinity.EvenSplitUndone | src/partitioner.cpp:110-146 | A concrete instance: a 1/1 split with factor 0.5 fails both gates and has gap 0. The scan as written still moves one cell, leaving 2/0. |
| Affinity.RebalanceAsWritten | src/partitioner.cpp:128-146 | The stage 2 scan as the source runs it. It keeps one side per cell; a cell that changes is listed in the scan and was on the larger side. |
| Affinity.Surplus | src/partitioner.cpp:115-126 | The larger side is A exactly when A is strictly bigger (B on a tie). The gap is half the difference, rounded down: twice the gap is the difference or one less. |
| Affinity.Stage2 | src/partitioner.cpp:110-146 | Stage 2 as the source runs it. Only sides change, and a changed cell came from the larger side (B on a tie). When the sides differ by d >= 2 and every cell is scanned, exactly floor(d/2) cells leave the larger side and the sides end at most one apart. When they differ by at most one, at most the first listing scanned changes side. |
| Affinity.Stage2Corrected | src/partitioner.cpp:110-146 | Stage 2 with the gap tested before each listing. Only sides change, changed cells came from the larger side, and when every cell is scanned exactly half the difference (rounded down) leaves the larger side and the sides end at most one apart. |
| Affinity.LogicAffinity | src/partitioner.cpp:78-147 | Stage 1's claims hold, and the stored part sizes are those after stage 1. If either gate passes on those sizes, the sides are stage 1's. Otherwise stage 2 as written changes only sides of cells on the larger side. For a well-formed circuit where every cell is in a net, sides that differed by d >= 2 lose exactly floor(d/2) cells from the larger side and end at most one apart. Sides that differed by at most one see at most the first listing scanned move. |
| Buckets.Build | src/partitioner.cpp:274-279 | Every cell is unlocked, with nothing else changed, and sits exactly in the bucket of its gain. |
| Buckets.Bump | src/partitioner.cpp:353-374 | Each cell the filter picks has its gain changed by delta once per listing in the net, and every other cell is unchanged. Afterwards every free cell is in exactly the bucket of its new gain. |
| Buckets.Select | src/partitioner.cpp:285-316 | A returned cell is unlocked, its side's gate passes, and no such cell has a higher gain. Nothing is returned exactly when no cell is feasible. |
| Update.PerListing | src/partitioner.cpp:349-410 | For a member other than the moved cell, the first pair of cases cancels the net's old contribution to its gain. The second pair adds the net's contribution after one unit of count moves from the from-side to the to-side. |
| Update.BeforeDelta | src/partitioner.cpp:351-376 | The change before the counts move cancels the net's old contribution to any member other than the moved cell. For a to-side member the change is -1 exactly when the to-side count is 1; for a from-side member it is +1 exactly when the to-side count is 0. |
| Update.AfterDelta | src/partitioner.cpp:384-409 | The change after the counts move is the net's new contribution to any member other than the moved cell. For a from-side member the change is +1 exactly when the new from-side count is 1; for a to-side member it is -1 exactly when the new from-side count is 0. |
| Update.UpdateNet | src/partitioner.cpp:349-410 | Visiting one net of the moved cell shifts one unit of that net's count to the to-side. Every free gain stays the FM gain for the counts still pending, and the buckets stay consistent. |
| Update.UpdateGains | src/partitioner.cpp:345-411 | After all nets of the moved cell are visited, the stored counts are exact for the new sides. Every free cell's gain is its FM gain again and sits in its bucket. Locked cells and all sides are untouched. |
| Update.LockCell | src/partitioner.cpp:322-331 | The moved cell changes side, is locked and leaves every bucket. The side sizes follow the new sides. |
| Update.MoveCell | src/partitioner.cpp:322-411 | Only the moved cell changes side and becomes locked, and it keeps its gain. The side sizes, stored counts, free gains and buckets all agree with the new sides afterwards. Every cell that shares no net with the moved cell is left exactly as it was. |
| Update.ApartGainKept | src/partitioner.cpp:345-411 | The FM gain of a cell that shares no net with the moved cell is the same before and after the move. |
| Update.MoveLeavesApart | src/partitioner.cpp:345-411 | Given exact counts and gains before and after a move, every cell other than the moved one that shares no net with it is left exactly as it was. |
| FMPass.MoveStep | src/partitioner.cpp:285-343 | A step either finds no feasible cell, or moves a feasible cell of highest gain that was not moved before. The move is the pass's choice on the sides alone (`FMPass.Chosen`). In the second case, the chosen cell's gain is the exact drop in the cut its move causes (given repeat-free nets). |
| FMPass.ChosenHere | src/partitioner.cpp:285-316 | The engine's pick, made on stored gains and stored sizes, is the pass's choice on the sides alone. The cell has not moved, and its side's gate passes on the current side sizes. Its stored gain is its gain recomputed from the current sides, and no other unmoved cell whose gate passes has a higher gain. |
| FMPass.GreedyStep | src/partitioner.cpp:285-343 | A pass whose every move so far was its choice at that turn stays so when the next chosen move is appended with its gain. |
| FMPass.GreedyAt | src/partitioner.cpp:285-343 | In a greedy pass, move k was the choice after the first k moves, with the gain recorded for it. |
| FMPass.GreedyWithinWindow | src/partitioner.cpp:285-316 | In a greedy pass, every move passed the gate of its side, so after each prefix of the moves both side sizes lie in the balance window. |
| FMPass.PartialSumsStep | src/partitioner.cpp:334-337 | Appending the last partial sum plus g to the partial sums of a gain sequence gives the partial sums of that sequence extended by g. |
| FMPass.RecordedStep | src/partitioner.cpp:333-337 | After a move, the recorded sums are still the partial sums of the gains the moved cells had when they moved, now including the new cell. |
| FMPass.Record | src/partitioner.cpp:333-343 | The new partial sum is the previous one plus the moved cell's gain (the gain alone on the first move). The sums stay the partial sums of the moved cells' gains. The running maximum and its first index follow the strict scan from INT32_MIN. With repeat-free nets each sum is the cut drop so far. |
| FMPass.Advance | src/partitioner.cpp:285-343 | A step either finds no feasible cell, in which case nothing changes and no cell is feasible, or it moves some cell m. That m is feasible, no feasible cell has a higher gain, and m is the pass's choice on the sides alone. The moves grow by m and the sums by the last sum plus m's gain. The sums stay the partial sums of the moved cells' gains, every move so far stays the choice at its turn with that gain, and the maximum and its first index follow the strict scan. |
| FMPass.MoveAll | src/partitioner.cpp:282-426 | Every move was, at its turn, a cell not moved before whose side's gate passed, with the highest gain among such cells on the sides reached so far (`FMPass.Greedy`). The recorded gain of each move is its gain on those sides. The loop ends early only when it reaches a step with no feasible cell, and then it has fewer moves than cells. Otherwise the moves are a permutation of the cell ids and every side is flipped. Either way the sums are the partial sums of the recorded gains, with the maximum and index from the strict scan. With repeat-free nets, the k-th partial sum is the cut drop after the first k+1 moves. |
| FMPass.Rollback | src/partitioner.cpp:428-435 | Exactly the listed cells flip back, and nothing else changes. |
| FMPass.RollbackLeavesPrefix | src/partitioner.cpp:428-435 | After every cell has moved, flipping back the moves from index j on leaves exactly the first j moves applied. |
| FMPass.MoveBack | src/partitioner.cpp:428-435 | With a positive best partial sum, only the best prefix of moves stays applied. Otherwise every cell stays moved. |
| FMPass.Recompute | src/partitioner.cpp:437-440 | After the recount, the counts, sizes, cut and gains agree with the sides. Sides and shape are kept. |
| FMPass.Settle | src/partitioner.cpp:428-440 | After moving back and recounting, the engine is ready for FM with its shape kept. Its sides are the starting sides with exactly the best prefix of moves applied, or every move when the best partial sum is not positive. |
| FMPass.PassCut | src/partitioner.cpp:428-450 | A pass lowers the cut by its best partial sum when that sum is positive. Otherwise the cut is unchanged, because the sides are exactly swapped. |
| FMPass.FM | src/partitioner.cpp:260-451 | Every move of the pass, completed or stuck, was the highest-gain free cell whose gate passed, on the sides reached at its turn, and the gains reported are those gains (`FMPass.PassChoices`). A completed pass keeps the engine ready. The moves are a permutation of the cell ids, and the sums are the partial sums of the reported gains. The best partial sum and its index come from the strict scan. The final sides apply exactly the best prefix (or every move when the sum is not positive). The cut drops by the positive part of the returned sum, and an empty circuit returns INT32_MIN. A pass that reaches a step with no feasible cell returns the sides and moves reached, with no cell feasible there. |
| FMPass.Sweep | src/partitioner.cpp:274-426 | The move phase from a ready engine: buckets filled, then the move loop. Its moves are greedy from the engine's sides, its sums are the partial sums of their gains, and it ends either stuck with no feasible cell or with every cell moved once and every side flipped. |
| FMPass.Start | src/partitioner.cpp:274-279 | Every cell is unlocked and filed exactly in the bucket of its gain, with sides, shape, exact counts and gains kept. The stored side sizes and the cut agree with the sides. |
| FMPass.Complete | src/partitioner.cpp:428-451 | After every cell has moved, the move back and the recount give the outcome and the choices a completed pass promises. |
| Driver.WindowStep | src/partitioner.cpp:475-484 | Writing pass i's result into slot i mod 5 keeps the five slots equal to the last five results. |
| Driver.WindowSum | src/partitioner.cpp:484-485 | Once five passes have run, the slots add up to the last five results. |
| Driver.Affine | src/partitioner.cpp:456 | `logicAffinity` as the driver runs it: its outcome, as stated for Affinity.LogicAffinity, with the circuit's shape kept. |
| Driver.Initial | src/partitioner.cpp:455-461 | The sides after the recount are exactly those `logicAffinity` left, with its outcome as stated for Affinity.LogicAffinity. The engine is ready for FM. Only sides, locks, gains, counts, sizes, cut and largest pin count change, and the largest pin count is attained or 0. |
| Driver.NextPass | src/partitioner.cpp:476-486 | One FM pass, recorded in the trace: its outcome is appended. A completed pass also appends the state it left and writes its result into slot i mod 5, keeping the slots equal to the last five results. |
| Driver.Reach | src/partitioner.cpp:476-481 | Along a chain of completed passes, each state has the first state's shape. With repeat-free nets, the cut before pass k + 1 is the starting cut less the positive results of the first k passes. |
| Driver.Passes | src/partitioner.cpp:472-490 | The trace starts at the recounted state, and each completed pass leads from one state to the next with the outcome FM promises (`FMPass.PassOutcome`) and its result recorded. A pass that found no feasible cell is recorded last exactly when the loop stopped for that reason. At most 150 passes run, and every pass before the last gained something. Stopping with no gain means the last pass returned at most 0. Stopping at the cap means all 150 gained. The early break happens exactly when, past pass 100, the last five results add up to less than 20, and no earlier window past pass 100 did. |
| Driver.MissedBreakRejected | src/partitioner.cpp:484-488 | A history that goes on after a window past pass 100 fell below 20 is not an outcome of the loop: 101 results of 1 followed by 100 and 0 is rejected. |
| Driver.Partition | src/partitioner.cpp:453-491 | The initial partition followed by the pass loop. The first pass starts from the sides `logicAffinity` left, and the state before it is ready. The trace and the loop's outcome are those stated for the pass loop. The final state is ready, and with repeat-free nets the cut has dropped by the sum of the positive results. |
| Driver.Run | src/main.cpp:35-36 | Construct, then partition. The final circuit has the shape the reader built, `logicAffinity` ran on the constructed engine, and the first pass starts from its sides with the engine ready for FM. The trace is as stated for the pass loop, and with repeat-free nets the cut has dropped by the sum of the positive results. The loop's outcome is as stated for the pass loop: at most 150 passes, every pass before the last gained, and the stop reason agrees with the results and with every window past pass 100. For any token stream the final engine is consistent: the sizes add up to the cell count, and the cut is at most the net count. |

## Left out

- The file I/O and the command line of `main`, `printSummary`, `writeResult`, the `report*` functions and the progress messages are not modelled. They only produce output. The model reads a sequence of tokens instead of a stream.
- The reading of the balance factor (`stod`) is not modelled. The factor arrives as an exact `real`, so the gates compare exact rationals instead of `double` values.
- The classes in `cell.h` and `net.h` are not part of this model. Their accessors appear as record fields and updates.
- `clear`, `new` and `delete` are not modelled. Pointer identity becomes integer ids.
- The fields `_maxGainCell`, `_bList`, `_accGain`, `_maxAccGain`, `_moveNum`, `_iterNum`, `_bestMoveNum`, `_unlockNum` and `_moveStack` of `partitioner.h` are not modelled. The engine never reads them.
- Bucket iteration order is not modelled. The buckets are `unordered_set`s whose order is unspecified. `Buckets.Select` may return any feasible cell whose gain is the highest among feasible cells, and every property is proved for all such choices.
- FMPass.FM: when no cell is feasible at some step, the source prints a warning and moves the previously chosen cell again, or dereferences a null pointer on the first step. The model instead ends the pass with `NoFeasibleMove`, which carries the sides and moves reached and states that no cell is feasible there. The driver then stops with `NoFeasibleCell`.
- Partial sums, gains and counters are unbounded integers. The source's `int` arithmetic does not wrap for any circuit with fewer than 2^31 pins, and the scan still starts from INT32_MIN.
- FMPass.MoveAll: the partial-sums-are-cut-drops property holds only when no net lists a cell twice. The reader drops only adjacent repeats, and a cell listed twice in one net has its gain counted per listing, which is not the cut change.
- FMPass.FM: the cut-drop clause is stated only for nets without repeated cells, for the same reason.
- Driver.Passes: the trace keeps each pass's `PassOutcome` but not its `PassChoices`. The selection rule is a property of one pass and `FMPass.FM` states it for every pass; the trace keeps only what the passes hand on to each other.
- Driver.Reach: the cut-drop clause is stated only for nets without repeated cells, for the same reason.
- Driver.Partition: the cut-drop clause is stated only for nets without repeated cells, for the same reason.
- Gain.GainIsCutDrop: requires nets without repeated cells, for the same reason.
- Affinity.LogicAffinity: the bound of one between the final sides assumes every cell is in some net. The reader guarantees this, but stage 2 on its own cannot reach cells that are in no net. When the sides differed by at most one, the source's stage 2 can leave them two apart (see Findings), so only the weaker "at most the first listing moves" is stated there.
- Affinity.Stage2: the same two limits apply, for the same reasons.

## Findings

| source | as written | input that shows it | evidently intended | confidence | as-written member | corrected member |
|---|---|---|---|---|---|---|
| src/partitioner.cpp:133-138 | Stage 2 moves a listing on the larger side first and tests `gap <= 0` only afterwards. With a gap of 0 (sides equal or one apart), the first listing scanned still moves when it is on the larger side, so an even split can become uneven. | Balance factor `0.5` with `NET n0 a ; NET n1 b ;`. Stage 1 gives a/b a 1/1 split, both gates fail, the gap is 0, and the scan as written moves `b` to A, leaving 2/0. | Test the gap before moving, so exactly `gap` cells move and the sides end at most one apart. | not executed | Affinity.RebalanceAsWritten, Affinity.EvenSplitUndone, Affinity.Stage2 | Affinity.Rebalance, Affinity.RebalanceMovesGap, Affinity.Stage2Corrected |
