# FLoRaSat core algorithms in Dafny

This project models three sequential algorithms of the FLoRaSat tool set and proves properties of them.

- **The failure-scenario generator** (`__create_failures`, module `Scenario`, text in `ScenarioText`). A constellation of `satcount` satellites has four inter-satellite links per satellite: LEFT, UP, RIGHT and DOWN. The satellites themselves are the nodes. Everything starts working. In each phase the generator runs four passes: a failure pass over the working links, a repair pass over the failed links, and the same two for the nodes. It then writes one `<at t="…s">` block with the repairs and failures of that phase. The random `decision(p)` is an oracle `(draw number, p) -> bool`. Each pass visits a snapshot of its set once, in an arbitrary order.
- **The satellite queue-state transform** (`transform_satstats`, module `SatStats`). It turns a stream of `(sat_id, timestamp, queue_size)` records into one entry list per satellite. Each list starts with `(0, 0)`. Before each record's own state, the list repeats the previous queue size every 5 time units, starting 5 after the rounded previous timestamp.
- **Route grouping** (the loop of `process_routes`, module `RouteLoader`). It splits the records of a route file into maximal runs of equal `pid`. Each run becomes a route of hops.

The files are:
- `wrappers.dfy` holds `Option` and `Result`.
- `scenario.dfy` holds the generator.
- `scenario_text.dfy` holds the document text.
- `satstats.dfy` holds the transform.
- `routes.dfy` holds the grouping.

Notes on what the code does, which the model follows:
- The generator writes no closing block that repairs what is still failed. The document is `<scenario>`, one block per phase, then `</scenario>`.
- The generator does not validate its arguments.
  - `phases == 0` raises a division by zero at `command.py:64`. This is modelled as `Err(ZeroDivision)`.
  - A negative `phases` yields an empty document.
  - A negative `satcount` with `phases > 0` makes the assertion at `command.py:103` fail. This is modelled as `Err(AssertionFailed)`.
  - A warm-up longer than the simulation gives phase times that decrease. This is accepted and modelled as written.

## Model

| member | source | states |
|---|---|---|
| Scenario.CreateFailures | florasat_cli/src/florasat/scenario/command.py:49-139 | Fails with a division by zero exactly when `phases == 0`. The assertion fails exactly when `phases > 0` and `satcount < 0`. Otherwise it returns `max(phases, 0)` blocks. Block `i` is at `round(start_i)`. Each block's directives are consistent with the state the earlier blocks reach, and its comment carries the failed-link and failed-node counts after its phase. Every block is drawn from the state the earlier blocks reach, and that state partitions both universes. Its failed links are distinct working links and its repaired links distinct failed links, so nothing fails and is repaired in one phase; the same holds for nodes. Each list has as many entries as the true answers of its window among phase `i`'s draws `5 * max(satcount, 0) * i` onwards. The final state still partitions both universes. An oracle that never fails anything gives blocks without directives and counts of 0. |
| Scenario.RunPhase | florasat_cli/src/florasat/scenario/command.py:84-137 | One phase takes its failures from the working sets and its repairs from the failed sets. It consumes one draw per link and per node. Its four directive lists are distinct, lie in the set their pass visits, and have as many entries as the true answers of that pass's window of draws. Its block is at `round(start)`, carries the post-update failed counts, and replays to the evolved state. Under an oracle that never fails anything, a phase that starts with nothing failed changes nothing and writes no directive. |
| Scenario.DrawPhase | florasat_cli/src/florasat/scenario/command.py:84-123 | The failures come from the working sets and the repairs from the failed sets. Each count equals the number of true answers in its window of draws. The windows run in the order working links, failed links, working nodes, failed nodes. Quiet windows give empty transitions that leave the population as it is. |
| Scenario.WriteBlock | florasat_cli/src/florasat/scenario/command.py:127-137 | Each directive list enumerates its set exactly once. The `<at>` time is `round(start)` and the comment counts are the post-update failed sizes. Replaying the block gives the evolved state. Empty transitions give a block without directives that changes nothing. |
| Scenario.PhaseStep | florasat_cli/src/florasat/scenario/command.py:79-137 | One turn of the phase loop keeps the partition of both universes, the agreement of the blocks with the states they reach, the timing of the blocks, and the link of every block to its own phase's draws, `5 * max(satcount, 0)` per phase. It decides the two size assertions exactly by `satcount >= 0`. It also keeps the unchanged initial state and the empty blocks under an oracle that never fails anything. |
| Scenario.PhaseLoopStart | florasat_cli/src/florasat/scenario/command.py:66-79 | Before the first phase, the empty document and the initial state meet every invariant of the phase loop. |
| Scenario.DrawnBlock | florasat_cli/src/florasat/scenario/command.py:84-137 | The block written for a phase's drawn transitions lists distinct working members as failed and distinct failed members as repaired, as many as the true answers of each window. |
| Scenario.DrawnSnoc | florasat_cli/src/florasat/scenario/command.py:79-137 | Appending a block drawn from the reached, partitioned state with the next window of draws keeps every block drawn. |
| Scenario.DrawnAt | florasat_cli/src/florasat/scenario/command.py:79-137 | In a drawn document, block `i` was drawn from the state blocks `0..i-1` reach, which partitions both universes, with draws `i * perPhase` onwards. |
| Scenario.DrawnStep | florasat_cli/src/florasat/scenario/command.py:79-137 | One turn of the loop keeps every block drawn, and the next phase starts at draw `(i + 1) * 5 * max(satcount, 0)`. |
| Scenario.PhaseDraws | florasat_cli/src/florasat/scenario/command.py:85-123 | From a partitioned state, one phase draws once per link and per node: `5 * max(satcount, 0)` draws. |
| Scenario.AllTrueCount | florasat_cli/src/florasat/scenario/command.py:86-91 | A window whose draws all answer true counts every draw; the draws outside the window do not matter. |
| Scenario.AllFailuresDrawn | florasat_cli/src/florasat/scenario/command.py:85-111 | When every failure draw answers true, a drawn phase fails every working link and every working node. |
| Scenario.AllFailFirstPhase | florasat_cli/src/florasat/scenario/command.py:66-111 | When every failure draw answers true, the first block fails every link and every node of the constellation. |
| Scenario.NeverFailsQuiet | florasat_cli/src/florasat/scenario/command.py:85-121 | With nothing failed and an oracle that never fails anything, all four passes of a phase draw no true answer. |
| Scenario.QuietSnoc | florasat_cli/src/florasat/scenario/command.py:127-137 | An empty block with zero counts, appended to empty blocks with zero counts, keeps them all empty with zero counts. |
| Scenario.EmptyTransition | florasat_cli/src/florasat/scenario/command.py:100-101 | A phase with no failure and no repair leaves both sets unchanged. |
| Scenario.StepPopulation | florasat_cli/src/florasat/scenario/command.py:85-101 | The failure pass over the working set is followed by the repair pass over the failed set. The result is admissible. Both counts equal the true answers of their draws, and the draws are consumed in order. With no true answer nothing changes. |
| Scenario.Trial | florasat_cli/src/florasat/scenario/command.py:86-91 | Each member of the snapshot is visited once and draws once. The chosen members form a subset whose size is the number of true answers. |
| Scenario.Enumerate | florasat_cli/src/florasat/scenario/command.py:129-136 | A `for` loop over a set lists every member exactly once. |
| Scenario.EnumerateStep | florasat_cli/src/florasat/scenario/command.py:129-136 | Listing one more unlisted member keeps the list an enumeration of the members taken so far. |
| Scenario.EnumeratesSize | florasat_cli/src/florasat/scenario/command.py:129-136 | A list that enumerates a set has one entry per member. |
| Scenario.LinkUniverse | florasat_cli/src/florasat/scenario/command.py:66-68 | A link is in the initial working set iff its satellite index is below `satcount`. |
| Scenario.LinkUniverseSize | florasat_cli/src/florasat/scenario/command.py:66-68 | The initial link set has `4 * max(satcount, 0)` members. |
| Scenario.NodeUniverse | florasat_cli/src/florasat/scenario/command.py:70 | A node is in the initial working set iff it is below `satcount`. |
| Scenario.NodeUniverseSize | florasat_cli/src/florasat/scenario/command.py:70 | The initial node set has `max(satcount, 0)` members. |
| Scenario.SizeAssertions | florasat_cli/src/florasat/scenario/command.py:103 | For partitioned populations, each of the two size assertions holds iff `satcount >= 0`. |
| Scenario.EvolveKeepsPartition | florasat_cli/src/florasat/scenario/command.py:100-101 | An admissible update `working' = (working - newFailed) + repaired`, `failed' = (failed - repaired) + newFailed` keeps the partition and its size. No entity both fails and is repaired in one phase. |
| Scenario.PartitionSize | florasat_cli/src/florasat/scenario/command.py:123 | A partition of the universe has as many members as the universe. |
| Scenario.TransitionFromStates | florasat_cli/src/florasat/scenario/command.py:120-121 | The failures and repairs of a phase can be read off the states before and after it. |
| Scenario.QuietIffNoTrue | florasat_cli/src/florasat/scenario/command.py:150-151 | A window of draws answers false everywhere iff it has no true answer. |
| Scenario.MarkAllSet | florasat_cli/src/florasat/scenario/command.py:129-136 | One directive per member of a set, in any order, is consistent and moves exactly that set across. |
| Scenario.MarkAllMoves | florasat_cli/src/florasat/scenario/command.py:129-136 | Replaying directives that set a value moves the listed members to that value's set. |
| Scenario.MarkAllConsistent | florasat_cli/src/florasat/scenario/command.py:129-136 | Distinct directives for members all in the source set are each consistent with the state they apply to. |
| Scenario.MarkMoves | florasat_cli/src/florasat/scenario/command.py:129-136 | One more directive moves one more member. |
| Scenario.BlockReplays | florasat_cli/src/florasat/scenario/command.py:127-137 | A block that enumerates an admissible phase's repairs and failures replays consistently to the evolved state. |
| Scenario.QuietBlock | florasat_cli/src/florasat/scenario/command.py:127-137 | A block that enumerates empty sets has no directives and changes nothing. |
| Scenario.ReplayTransition | florasat_cli/src/florasat/scenario/command.py:129-132 | Replaying the repairs and then the failures of a phase is consistent and gives the evolved population. |
| Scenario.ConsistentSnoc | florasat_cli/src/florasat/scenario/command.py:127-137 | Appending a block that agrees with the reached state keeps the document consistent. |
| Scenario.PhasesTile | florasat_cli/src/florasat/scenario/command.py:64-81 | Phase 0 starts at `warmup`. `end_i = start_{i+1}`. The last phase ends at `simtime`. |
| Scenario.PhaseStartsIncrease | florasat_cli/src/florasat/scenario/command.py:64-80 | When `warmup < simtime`, later phases start strictly later. |
| Scenario.TimedSnoc | florasat_cli/src/florasat/scenario/command.py:128 | A block at `round(start_n)` extends a document whose block `i` is at `round(start_i)`. |
| Scenario.RoundHalfEven | florasat_cli/src/florasat/scenario/command.py:128 | Python's `round` gives an integer within one half of its argument, and a tie goes to the even integer. |
| Scenario.RoundHalfEvenUnique | florasat_cli/src/florasat/scenario/command.py:128 | Only one integer meets both properties of `round`. |
| ScenarioText.WriteScenario | florasat_cli/src/florasat/scenario/command.py:77-139 | The accumulated text is the rendering of the blocks: `<scenario>`, each block's lines, then `</scenario>`. |
| ScenarioText.WriteBlocks | florasat_cli/src/florasat/scenario/command.py:79-137 | Appending block after block gives the joined lines of all blocks. |
| ScenarioText.NatToDecimalRoundTrip | florasat_cli/src/florasat/scenario/command.py:127-136 | A count or id written in decimal reads back as the same number. |
| ScenarioText.IntToDecimalRoundTrip | florasat_cli/src/florasat/scenario/command.py:128 | An integer time written with its sign reads back as the same integer. A minus sign appears iff the time is negative. |
| ScenarioText.NatToDecimal | florasat_cli/src/florasat/scenario/command.py:127-136 | A number is written as at least one decimal digit, with no leading zero unless the number is 0. |
| ScenarioText.LinkLines | florasat_cli/src/florasat/scenario/command.py:129-132 | One `set-isl-state` line per link, in the given order. |
| ScenarioText.NodeLines | florasat_cli/src/florasat/scenario/command.py:133-136 | One `set-isl-state` line per node, in the given order. |
| ScenarioText.BlockLayout | florasat_cli/src/florasat/scenario/command.py:127-137 | A block has the comment line first, the `<at>` line second and `</at>` last, with one line per directive in between. |
| ScenarioText.DocumentLayout | florasat_cli/src/florasat/scenario/command.py:77-139 | The document is `<scenario>`, three lines per block plus one per directive, then `</scenario>`. |
| ScenarioText.AllBlockLinesCount | florasat_cli/src/florasat/scenario/command.py:79-137 | The blocks have three lines each plus one per directive. |
| ScenarioText.JoinAppend | florasat_cli/src/florasat/scenario/command.py:127-137 | Concatenating line by line, each line followed by a newline, distributes over the lines. |
| ScenarioText.DocumentTextFrame | florasat_cli/src/florasat/scenario/command.py:77-139 | The text is `<scenario>\n`, the blocks' lines, then `</scenario>\n`. |
| SatStats.TransformSatStats | florasat_statistics/src/satstats.rs:67-105 | There is one satellite per id in the input, keyed by that id and with that id as its field. Its entries are the seed followed by each of its records' padding and state, in input order. |
| SatStats.AppendStep | florasat_statistics/src/satstats.rs:85-99 | The padding loop appends, to the entries so far, the padding from the rounded previous time plus 5 with the previous queue size, then the record's own state. |
| SatStats.TracksEmpty | florasat_statistics/src/satstats.rs:68-69 | Before any record, both maps are empty and agree with the empty input. |
| SatStats.TracksAll | florasat_statistics/src/satstats.rs:70-104 | Once every record is read, the satellite map has one satellite per id, with that id's entries. |
| SatStats.OpenTracksSnoc | florasat_statistics/src/satstats.rs:101-102 | After one more record, the map of previous states holds each satellite's last record. |
| SatStats.SatsTracksSnoc | florasat_statistics/src/satstats.rs:80-99 | After one more record, the satellite map holds each satellite's entries for the records read so far. |
| SatStats.RoundHalfAway | florasat_statistics/src/satstats.rs:85 | `f32::round` gives an integer within one half of its argument, and a tie goes away from zero. |
| SatStats.RoundHalfAwayUnique | florasat_statistics/src/satstats.rs:85 | Only one integer meets both properties of `f32::round`. |
| SatStats.PaddingShape | florasat_statistics/src/satstats.rs:85-94 | Padding entry `k` is at `from + 5k` with the previous queue size. All entries are before the new timestamp, and the next point would not be. |
| SatStats.RecordsOf | florasat_statistics/src/satstats.rs:72-80 | A satellite's records all carry its id. |
| SatStats.EntriesStartWithSeed | florasat_statistics/src/satstats.rs:80-83 | Every entry list starts with `State(0.0, 0)`. |
| SatStats.LastEntryIsLastRecord | florasat_statistics/src/satstats.rs:95-102 | The last entry is the state of the satellite's last record. |
| SatStats.NoRecordsOnlySeed | florasat_statistics/src/satstats.rs:80-83 | An id without records has only the seed. |
| SatStats.RecordsOfAbsent | florasat_statistics/src/satstats.rs:72-80 | An id absent from the input has no records. |
| SatStats.OtherSatelliteUnaffected | florasat_statistics/src/satstats.rs:75-80 | A record of another satellite leaves this satellite's list unchanged. |
| SatStats.OwnRecordAppends | florasat_statistics/src/satstats.rs:85-102 | A record of this satellite appends its padding and its own state. |
| SatStats.FirstRecordPadding | florasat_statistics/src/satstats.rs:75-99 | A satellite's list starts with the seed, then padding at 5, 10, … with queue size 0 before its first record's time, then that record's state. |
| SatStats.HistoryStartsWithFirstStep | florasat_statistics/src/satstats.rs:75-99 | A satellite's history starts with the step of its first record from `(0, 0)`. |
| SatStats.ConsecutiveRecords | florasat_statistics/src/satstats.rs:85-99 | Between consecutive records come padding from the rounded earlier time plus 5, with the earlier queue size, and then the later record's state. |
| SatStats.TracksSnoc | florasat_statistics/src/satstats.rs:70-103 | Handling one record keeps both maps in line with the records read so far. |
| SatStats.TracksLookup | florasat_statistics/src/satstats.rs:75-83 | The `or_default` and `or_insert` defaults agree with an empty history. |
| SatStats.RecordsOfSnoc | florasat_statistics/src/satstats.rs:72-80 | One more record joins its own satellite's records and no other's. |
| SatStats.IdsSnoc | florasat_statistics/src/satstats.rs:72 | One more record adds its id to the known ids. |
| RouteLoader.GroupRoutes | route_loader/src/lib.rs:55-94 | It fails exactly on empty input. Otherwise flattening the routes gives the records back. Every route has a hop, and adjacent routes have different pids. The routes number 1 plus the number of pid changes. |
| RouteLoader.ExtendRouteStep | route_loader/src/lib.rs:77-84 | A record with the current pid keeps the grouping of the records read so far and does not change the count of pid changes. |
| RouteLoader.StartRouteStep | route_loader/src/lib.rs:71-76 | A record with a new pid keeps the grouping of the records read so far and adds one pid change. |
| RouteLoader.ChangesSnoc | route_loader/src/lib.rs:71-76 | One more record adds a pid change exactly when its pid differs from the previous record's. |
| RouteLoader.GroupingUnique | route_loader/src/lib.rs:70-94 | Only one route sequence groups the records this way, so the result is the maximal-run grouping. |
| RouteLoader.GroupedHops | route_loader/src/lib.rs:57-84 | The hops of all routes, in order, are the records with the pid dropped. |
| RouteLoader.TagAll | route_loader/src/lib.rs:77-84 | Tagging a route's hops with its pid gives one record per hop with that pid. |
| RouteLoader.FlattenAppend | route_loader/src/lib.rs:72-93 | Flattening distributes over concatenation of route lists. |
| RouteLoader.GroupingExtendRoute | route_loader/src/lib.rs:77-84 | A record with the current pid extends the current route and keeps the grouping. |
| RouteLoader.GroupingStartRoute | route_loader/src/lib.rs:71-76 | A record with a new pid closes the current route and starts a new one, keeping the grouping. |
| RouteLoader.HopsAppend | route_loader/src/lib.rs:77-84 | Dropping pids distributes over concatenation. |
| RouteLoader.HopsOfTagAll | route_loader/src/lib.rs:77-84 | Dropping pids after tagging with one gives the hops back. |

## Left out

- `decision(p)` is `random.random() < p`. The model keeps only an oracle indexed by draw number: no distribution, no seed and no floating-point comparison.
- CPython's set-pop order is left out. Each pass visits its snapshot in an order the model leaves open. The same holds for the order of `for x in set` in the text.
- Scenario.DrawPhase draws the node trials before the link size assertion is checked. In the source the assertion comes between the link and node passes. A failing assertion discards everything, so the outcome is the same.
- Scenario.CreateFailures returns the blocks. The text, which the source builds inside the same loop, is `ScenarioText.WriteScenario` of those blocks.
- Scenario.CreateFailures leaves out the outputs that are not part of the document: reading the configuration (`utils.load_config`), the default file name from the wall clock, the progress messages, the results directory and the file write.
- ScenarioText.BlockLayout states where the comment, `<at>` and `</at>` lines sit and how many directive lines there are. The content of each directive line is stated by `LinkLines` and `NodeLines`, not by this lemma.
- Floating point is left out. Phase times are exact rationals, and the rounding is stated on them (Python `round` as half-to-even, Rust `f32::round` as half-away-from-zero). Satellite timestamps are reals, not `f32`, so padding positions with `f32` rounding error are not modelled. In particular, the `f32` padding counter `i += 5.0` (`florasat_statistics/src/satstats.rs:92`) stops advancing once `i` reaches 2^27, and the loop then never ends. That non-termination is not modelled: the model's counter always advances by 5.
- SatStats.TransformSatStats returns a map keyed by satellite id. The source returns the values in hash-map order, which is unspecified.
- The integer widths (`u32` ids and queue sizes, `u16` altitudes) are unbounded naturals. No input in the model overflows.
- The CSV and MessagePack reading and writing, `fs::write`, `create_dir_all`, and the pyo3 bindings (`load_sat_stats`, `process_sat_stats`, the `#[pymodule]`) are left out. A malformed CSV row makes the source's `unwrap` panic; records here are already parsed.
- RouteLoader.GroupRoutes models the panic on empty input as `Err(EmptyInput)`.
