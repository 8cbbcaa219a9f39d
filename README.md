# Brute-force travelling salesman, three ways

This Dafny project models the core of a brute-force travelling-salesman
solver that exists in three variants. All three score tours over a table of
pairwise city distances. With no city, Distribuido and Paralelo end on no
tour and Sequencial raises. For at least one city:

- Sequencial keeps the first cheapest tour in enumeration order.
- Distribuido, served by one worker that does not disconnect, keeps the same
  tour. With several workers the replies reach the master in any order. The
  kept tour is still of least cycle cost, but which of two equally cheap
  tours is kept depends on which reply arrives first. A worker that
  disconnects loses its chunk (Distribuido/server.py:104-107), and then
  nothing is promised.
- Paralelo keeps a cheapest tour that depends on the order in which its
  threads take the lock.

- **Distribuido**: a master (`TSPMaster`) and TCP workers (`TSPWorker`).
  - The master fixes city 0 and enumerates city 0 followed by every ordering
    of the other cities.
  - It hands the tours out in consecutive chunks of 1000 through a cursor
    that only moves forward.
  - It keeps the best reported tour, replacing it only by a strictly shorter
    one.
  - Each worker scores its chunk with a strict `<` and answers with the
    chunk's first cheapest tour.
- **Paralelo**: the same fixed-first-city routes, cut into at most
  `num_threads` slices of `ceil(L / num_threads)` routes.
  - Each non-empty slice gets a thread that finds its slice's cheapest route.
  - Holding a lock, the thread adopts that route if it is strictly cheaper
    than the shared best.
- **Sequencial**: one loop over every ordering of all `n` cities.

## How the model is organised

- `tours.dfy` (module `Tours`) holds the shared vocabulary:
  - tours, distance tables, the cycle cost, rotations;
  - `Cost`, which is `float('inf')` or a real, with the strict `<`;
  - the first-cheapest selection `FirstCheapest` and its declarative twin
    `SelectsFirstMin`;
  - the lock-guarded update `Merge` and its fold `MergeAll`.
- `permutations.dfy` models `itertools.permutations` as `Perms`, in its
  enumeration order. It proves that the enumeration:
  - lists orderings only and lists every ordering;
  - never repeats one and has `|s|!` entries;
  - yields the fixed-first-city space.
- `optimality.dfy` defines an optimal tour and proves that fixing the first
  city loses no optimum. The proof rotates any tour to start at city 0.
- Two scorers and their two notions of "can be scored" stand for different
  Python functions:
  - `EdgeSum`/`CycleCost` with `Scorable` (`tours.dfy`) are `route_cost` on a
    square table covering every city of the route;
  - `PathLength`/`TotalDistance` with `HasEdges`/`Measurable`
    (`calculations.dfy`) are `calculate_total_distance` on any table holding
    the entries it reads, which is what the worker receives;
  - `Costable` (`paralelo.dfy`) adds the non-empty route that `route_cost`
    needs for `route[-1]`;
  - `PathLengthIsEdgeSum` and `TableScoresTour` bridge the two on square
    tables.
- `calculations.dfy` and `mordor_data.dfy` are Distribuido's helpers.
  `client.dfy` is Distribuido's worker and `server.dfy` its master.
- `problem.dfy` is the `TSPProblem` class that Paralelo and Sequencial share
  line for line: `_compute_distances` and `route_cost`.
  `paralelo.dfy` and `sequencial.dfy` hold the two solvers.
- `agreement.dfy` runs the three programs on the same cities, in exact
  arithmetic and with one distance function `dist` standing for both
  `math.sqrt(dx**2 + dy**2)` and `math.hypot(dx, dy)`. Under that reading the
  distributed and sequential programs end on the same tour. The
  thread-parallel one, whatever order its threads take the lock in, ends on
  a tour of the same cost. All three tours are optimal.

Each state-changing Python method is modelled as follows:

- it becomes a method of a Dafny class with the source's fields;
- each loop becomes a Dafny loop;
- each method is proved against a specification function, `FirstCheapest`,
  `Chunks`/`Answers` or `StartedSlices`/`InLockOrder`;
- the properties are proved as lemmas about those functions.

Threads and network sessions are modelled as sequences of atomic steps:

- In Distribuido, one worker is served to the end, its answers computed by
  the worker's own scoring method.
- In Paralelo, the order in which threads take the lock is a parameter
  `schedule`, which is any permutation of the thread indices.

Distances are Dafny `real`. The Euclidean distance is a parameter `dist`.

## Model

| member | source | states |
|---|---|---|
| Tours.CeilDiv | Paralelo/tsp_paralelo.py:72 | `math.ceil(a / b)` for a positive `b`: the least `r` with `a <= r * b`, i.e. `a <= r * b < a + b` |
| Tours.PySlice | Paralelo/tsp_paralelo.py:75-77 | Python's slice `s[lo:hi]`: exactly `min(hi, len) - lo` elements when `lo < hi` and `lo < len`, none otherwise; element `i` is `s[lo + i]` |
| Tours.RotationPreservesCost | Distribuido/server.py:39-46 | starting a tour at any position `k` leaves its cycle cost unchanged, which is why fixing city 0 is sound |
| Tours.ArgMin | Distribuido/client.py:81-85 | the position a strict-`<` scan ends on: a minimum of the values, every earlier value strictly larger |
| Tours.FirstCheapestSelects | Distribuido/client.py:78-86 | the scan result is no tour and infinity for no input, otherwise the first tour of least value with that value |
| Tours.FirstCheapestSnoc | Distribuido/client.py:81-85 | scanning one more tour is the strict-improvement update of the previous result with that tour and its cost |
| Tours.SelectsFirstMinUnique | Distribuido/client.py:83 | with a strict `<` the scan has exactly one possible outcome, ties included |
| Tours.MergeAllBounds | Distribuido/server.py:73-75 | a run of strict-improvement updates ends on the starting best or one of the candidates, never costs more than the start or than any candidate |
| Tours.MergeSelects | Paralelo/tsp_paralelo.py:57-60 | scanning two consecutive pieces and adopting the second piece's best only on strict improvement gives the scan of the whole, ties included |
| Tours.FirstCheapestLeads | Sequencial/tsp_sequencial.py:41-45 | tours appended after a block, each matched in cost by some tour of the block, do not change the scan's result |
| Tours.MergeAllSnoc | Paralelo/tsp_paralelo.py:57-60 | one more lock turn extends the merge of the earlier turns by one strict-improvement update |
| Permutations.Range | Distribuido/server.py:42 | `range(lo, hi)`: `hi - lo` consecutive values from `lo`, exactly the values in `[lo, hi)`, no repeats |
| Permutations.PermsSound | Sequencial/tsp_sequencial.py:41 | every tuple `itertools.permutations(s)` lists is an ordering of `s` |
| Permutations.PermsComplete | Sequencial/tsp_sequencial.py:41 | every ordering of `s` is listed |
| Permutations.PermsDistinct | Distribuido/server.py:45-46 | for `s` without repeats no ordering is listed twice |
| Permutations.PermsCount | Sequencial/tsp_sequencial.py:41 | exactly `|s|!` orderings are listed |
| Permutations.FixedFirstToursShape | Paralelo/tsp_paralelo.py:64-68 | each route is city 0 followed by an ordering of `1..n-1`, and, for at least one city, has length `n` and names only cities below `n`; with no city the single route `[0]` has length 1 |
| Permutations.FixedFirstToursFacts | Paralelo/tsp_paralelo.py:64-68 | there are `(n-1)!` routes, pairwise distinct, and every tour of length `n` that starts at 0 with the other cities after it is one of them |
| Permutations.SearchSpace | Distribuido/server.py:42-46 | every generated tour has length `n`, starts at city 0 and has an ordering of `1..n-1` as its tail |
| Permutations.SearchSpaceIsComplete | Distribuido/server.py:36-46 | no tour for zero cities; otherwise `(n-1)!` pairwise distinct tours, including every city-0-first ordering |
| Optimality.RotateToCityZero | Distribuido/server.py:39-46 | every ordering of the cities has a rotation starting at city 0 that is a fixed-first-city tour of the same cycle cost |
| Optimality.FixedFirstOptimal | Distribuido/server.py:39-46 | a fixed-first-city tour no dearer than any other fixed-first-city tour is no dearer than any ordering of the cities: an optimal tour |
| Optimality.FixedFirstToursLeadPerms | Sequencial/tsp_sequencial.py:41 | `permutations(range(n))` lists first the orderings starting at city 0, which are the fixed-first-city tours in the same order |
| Calculations.PrecomputeDistances | Distribuido/utils/calculations.py:8-19 | the table has one row of `n` entries per city, zeros on the diagonal and `dist(coords[i], coords[j])` off it |
| Calculations.DistanceTableSymmetric | Distribuido/utils/calculations.py:15-18 | that table has a zero diagonal and is symmetric whenever `dist` is |
| Calculations.CalculateTotalDistance | Distribuido/utils/calculations.py:21-31 | on any table holding the entries it reads, square or ragged: 0 for fewer than two cities, whatever the table; otherwise the consecutive edges summed left to right plus the closing edge; on a square table covering the tour this is its cycle cost |
| Calculations.TableScoresTour | Distribuido/utils/calculations.py:21-31 | a square table covering the tour's cities holds every entry the scoring reads, and the total distance is the tour's `TourCost` (0 below two cities, else the cycle cost) |
| Calculations.TableScoresChunk | Distribuido/utils/calculations.py:21-31 | the same for every tour of a chunk: it can be scored and its distances are the `TourCost`s (0 below two cities, else the cycle cost), in order |
| Calculations.TourCostRotationInvariant | Distribuido/utils/calculations.py:28-30 | the total distance does not depend on which city the tour starts at |
| Calculations.ThreeCityExample | Distribuido/utils/calculations.py:28-30 | with edges 3, 4 and 5 the tour `(0, 1, 2)` has total distance 12 |
| MordorData.CitiesDataOf | Distribuido/utils/mordor_data.py:16-25 | coordinates in table order; `name_to_index` has exactly the names as keys and maps each to its position; `index_to_name` has exactly the positions as keys and maps each back to its name |
| MordorData.NameToIndex | Distribuido/utils/mordor_data.py:23 | the keys are exactly the names; each name maps to its position |
| MordorData.IndexToName | Distribuido/utils/mordor_data.py:24 | the keys are exactly `0..len-1`; each position maps to its name |
| MordorData.IndexMapsAreInverse | Distribuido/utils/mordor_data.py:23-24 | the two maps are inverse to each other in both directions, and the maps and the coordinate list have the same size |
| MordorData.MordorNamesDistinct | Distribuido/utils/mordor_data.py:3-14 | the active table lists three distinct names, in dictionary order |
| MordorData.GetMordorCitiesData | Distribuido/utils/mordor_data.py:3-25 | on `MORDOR_LOCATIONS` (the constant `MordorLocations`: three active cities in dictionary order) the coordinates are `(50, 50)`, `(60, 40)`, `(30, 70)`, the names map to 0, 1, 2 and back |
| MordorData.MordorSearchSpace | Distribuido/utils/mordor_data.py:3-14 | with the active table there are 3 cities and the master searches 2! = 2 tours |
| Client.ChunkBestOnTable | Distribuido/client.py:74-86 | on a square table covering the chunk the answer is the chunk's first tour of least `TourCost` (0 below two cities, else the cycle cost) |
| Client.ChunkBestIsFirstCheapest | Distribuido/client.py:74-86 | no tour and infinity for an empty chunk; otherwise a tour of the chunk with its total distance, no tour of the chunk shorter, every earlier tour strictly longer |
| Client.TSPWorker.constructor | Distribuido/client.py:13-15 | a fresh worker has no local best tour and an infinite local minimum |
| Client.TSPWorker.FindBestTourForChunk | Distribuido/client.py:74-86 | the loop's result is the chunk's first cheapest tour and its distance |
| Client.TSPWorker.ConnectAndWork | Distribuido/client.py:26-64 | the replies are, in order, the first cheapest tour of each non-empty package until the sentinel, a lost connection or a package reading a missing table entry; the local minimum is reset after each reply and the local tour is left at the last reply |
| Client.ResponsesCompose | Distribuido/client.py:61-64 | the worker keeps nothing from one chunk to the next: the replies to two runs of messages are the replies to each |
| Client.SentinelEndsWork | Distribuido/client.py:35-37 | nothing received after the sentinel is answered |
| Client.OneCityAnyTable | Distribuido/client.py:42-58 | a package holding one one-city tour is answered with that tour and distance 0, whatever the table, and the worker goes on listening |
| Client.MissingEntryEnds | Distribuido/client.py:26-64 | a package holding any tour that reads a missing table entry ends the loop: nothing is answered from it on |
| Client.OneAnswerPerChunk | Distribuido/client.py:42-58 | a non-empty package gets exactly one reply, its chunk's best; an empty one gets none |
| Server.TSPMaster.constructor | Distribuido/server.py:15-25 | the three views of the city table, the distance table of the coordinates, the fixed-first-city space and its size, the cursor at 0, no best tour and an infinite best distance |
| Server.TSPMaster.GenerateAllPermutations | Distribuido/server.py:31-47 | the loop builds exactly the fixed-first-city space; nothing for zero cities |
| Server.TSPMaster.GetWorkChunk | Distribuido/server.py:49-65 | `None` exactly when the cursor has reached the total, and then no change; otherwise the tours from the cursor to `min(cursor + k, total)`, with the cursor moved there, never empty when `k >= 1`; the best is untouched |
| Server.TSPMaster.ProcessClientResult | Distribuido/server.py:67-76 | the report replaces the best only on a strictly smaller distance, so the best distance never rises, and the first finite report is always taken |
| Server.TSPMaster.ServeNextChunk | Distribuido/server.py:90-110 | with work left it sends the next chunk and merges the worker's answer into the best; with none it sends the sentinel and changes nothing |
| Server.TSPMaster.HandleClient | Distribuido/server.py:82-117 | a session sends every chunk from the cursor on, in order, then the sentinel; it ends with the cursor at the total and every answer merged into the best |
| Server.ChunksPartition | Distribuido/server.py:49-65 | claiming from a cursor until `None` gives chunks whose concatenation is the rest of the space: no gap and no overlap |
| Server.ChunksSizes | Distribuido/server.py:58-61 | every chunk holds between one and `k` tours |
| Server.ChunksCount | Distribuido/server.py:49-65 | there are `ceil((total - cursor) / k)` chunks |
| Server.ChunkedScanSelects | Distribuido/server.py:90-110 | merging the chunk answers into the best so far gives the first cheapest tour of the whole space, as one scan would, ties included |
| Server.AnyArrivalOrderIsCheapest | Distribuido/server.py:67-76 | merging the chunk answers with the strict `<` in any arrival order, a permutation of the chunks, ends on no tour exactly for an empty space; otherwise on a tour of the space at its total distance, with no tour of the space shorter |
| Server.SelectedIsOptimal | Distribuido/server.py:90-110 | that tour is absent exactly for an empty space; otherwise it is a tour of the space, its distance is its total distance and is at most every tour's |
| Server.WorkerAnswersSession | Distribuido/server.py:90-110 | a worker fed a session's messages replies to each chunk in order, then stops |
| Server.ServeOneWorker | Distribuido/server.py:15-110 | a fresh master serving one worker to the end holds the first cheapest tour of the whole space, and the worker's replies are the chunk answers the master merged |
| Problem.NewProblem | Paralelo/tsp_paralelo.py:9-13 | names and coordinates split from the pairs, in order, as many as cities, with their distance table (Sequencial/tsp_sequencial.py:8-12 is the same constructor) |
| Problem.ComputeDistances | Paralelo/tsp_paralelo.py:15-24 | the all-zero table has every off-diagonal entry overwritten with the two cities' distance; the diagonal stays 0 (Sequencial/tsp_sequencial.py:14-22 is the same loop) |
| Problem.RouteCost | Paralelo/tsp_paralelo.py:26-32 | a non-empty route costs the consecutive edges summed left to right plus the edge from the last city back to the first (Sequencial/tsp_sequencial.py:25-30 is the same loop) |
| Problem.RouteCostAgreesWithTotalDistance | Distribuido/utils/calculations.py:21-31 | on a zero-diagonal table `route_cost` and `calculate_total_distance` agree, the one-city route included |
| Paralelo.SliceBestFacts | Paralelo/tsp_paralelo.py:47-54 | a slice's best route is absent exactly for an empty slice; otherwise it is one of its routes, with that route's cost, and no route of the slice is cheaper |
| Paralelo.StartedSlicesCover | Paralelo/tsp_paralelo.py:74-85 | the first `count` slices laid end to end are the first `count * cs` routes, or all of them |
| Paralelo.StartedSlicesShape | Paralelo/tsp_paralelo.py:77-80 | no started slice is empty or longer than `chunk_size` |
| Paralelo.StartedSlicesCount | Paralelo/tsp_paralelo.py:74 | at most `num_threads` threads are started |
| Paralelo.SlicesPartition | Paralelo/tsp_paralelo.py:72-80 | with `chunk_size = ceil(L / T)` the slices cover all `L` routes exactly, in order |
| Paralelo.TSPParallelBruteForceSolver.constructor | Paralelo/tsp_paralelo.py:36-43 | `num_threads` defaults to the processor count; no best route and infinite cost |
| Paralelo.TSPParallelBruteForceSolver.ScanSlice | Paralelo/tsp_paralelo.py:47-54 | it raises exactly when some route is empty or names a city outside the table; otherwise the empty route and infinity for an empty slice, and the slice's first cheapest route and its cost for a non-empty one |
| Paralelo.TSPParallelBruteForceSolver.Worker | Paralelo/tsp_paralelo.py:45-60 | the slice's best replaces the shared best only if strictly cheaper; a thread whose scan raised leaves the shared best unchanged |
| Paralelo.TSPParallelBruteForceSolver.StartThreads | Paralelo/tsp_paralelo.py:74-85 | one thread per non-empty slice `all_routes[i*cs : i*cs+cs]`, in index order |
| Paralelo.TSPParallelBruteForceSolver.RunWorkers | Paralelo/tsp_paralelo.py:83-89 | the shared best is every started worker's answer merged in the order the workers take the lock |
| Paralelo.TSPParallelBruteForceSolver.Solve | Paralelo/tsp_paralelo.py:62-91 | the returned pair is the shared best once every thread's answer has been merged in lock order; with no city a fresh solver returns `(None, inf)` |
| Paralelo.NoCityThreadsFindNothing | Paralelo/tsp_paralelo.py:83-91 | on an empty table every thread raises before the lock, so the merged best stays no route and infinite cost |
| Paralelo.NoCityRoutes | Paralelo/tsp_paralelo.py:64-68 | with no city the one route is `[0]` |
| Paralelo.MergedBeatsEveryRoute | Paralelo/tsp_paralelo.py:57-60 | after every thread's turn the shared cost is at most every route's cost |
| Paralelo.ParallelIsOptimal | Paralelo/tsp_paralelo.py:62-91 | whatever the lock order, the solver ends on a route with a finite cost that is its cycle cost and at most that of every ordering of the cities |
| Sequencial.TSPBruteForceSolver.constructor | Sequencial/tsp_sequencial.py:34-35 | the solver keeps the problem it is given |
| Sequencial.TSPBruteForceSolver.Solve | Sequencial/tsp_sequencial.py:37-46 | the loop ends on the first ordering of least cycle cost in enumeration order, with its cost |
| Sequencial.SequentialIsOptimal | Sequencial/tsp_sequencial.py:41-46 | that ordering visits every city once; its cost is its cycle cost and at most that of every ordering |
| Sequencial.SequentialFindsFixedFirst | Sequencial/tsp_sequencial.py:41-45 | the minimum over all `n!` orderings is reached first among the orderings starting at city 0: the result is the fixed-first-city search's first cheapest tour |
| Agreement.DistanceTableUnique | Paralelo/tsp_paralelo.py:15-24 | Distribuido's and Paralelo's table builders give the same table from the same positions |
| Agreement.MasterFindsSequentialTour | Distribuido/server.py:39-46 | the master's first cheapest fixed-first-city tour is exactly the sequential solver's answer, and optimal |
| Agreement.RunDistributed | Distribuido/server.py:15-110 | a fresh master serving one worker ends on the sequential solver's answer for the same cities |
| Agreement.MasterAnyArrivalIsOptimal | Distribuido/server.py:67-110 | for at least one city and a zero-diagonal table, the master's best after its chunks' answers arrive in any order is an optimal tour |
| Agreement.RunThreaded | Paralelo/tsp_paralelo.py:62-91 | a fresh thread-parallel solver ends on an optimal tour, whatever the lock order |
| Agreement.RunSequential | Sequencial/tsp_sequencial.py:37-46 | a fresh sequential solver ends on its first cheapest ordering, an optimal tour |
| Agreement.RunAllVariants | Sequencial/tsp_sequencial.py:41-45 | on the same cities the distributed and sequential programs return the same tour and distance; the thread-parallel one returns a tour of the same cost |

## Left out

- Sockets, `pickle`, `sendall`/`recv(4096)` and message framing are left out. A message is an already-decoded value. The worker's receive loop takes the sequence of messages it is delivered as a parameter.
- Threads and locks are left out: `threading.Thread`, `threading.Lock`, `join`, the `start` accept loop and the daemon `_print_progress` thread.
  - Each lock-guarded method is one atomic step.
  - In Paralelo the order in which threads reach the lock is a parameter. Which of two equally cheap routes from different slices wins depends on that order. The model states only the merged result for a given order and that it is optimal.
- Server.TSPMaster.HandleClient: the session is one worker served to the end with no disconnect and no exception. The worker's reply is computed by `TSPWorker.FindBestTourForChunk` on the package just sent. The chunk lost on a disconnect (Distribuido/server.py:104-107) is not modelled. Several workers interleaving are modelled only by their effect on the best: `Server.AnyArrivalOrderIsCheapest` merges every chunk's answer in any order. Which worker claims which chunk, and the cursor under contention, are not modelled.
- Client.TSPWorker.ConnectAndWork: `ConnectionRefusedError` and `sys.exit` are left out. A package whose scoring would raise ends the loop without a reply, as the `except` clause does. Scoring raises only when a tour of two or more cities reads a missing entry `D[t[i]][t[i+1]]` or `D[t[-1]][t[0]]`. Tours of fewer than two cities score 0, and ragged tables holding the entries read are scored. A package whose fields are of the wrong type is not modelled, because a message is an already-decoded value.
- Floating point is left out. Distances are exact `real`s, `float('inf')` is `Cost.Infinite`, and `math.sqrt`/`math.hypot` are the parameter `dist`. Nothing is claimed about rounding. In particular the agreement of the three programs' tables and tours (`Agreement.DistanceTableUnique`, `Agreement.RunAllVariants`) holds in exact arithmetic under one `dist`, not for the programs' float results, where `math.sqrt` and `math.hypot` may round differently.
- `math.ceil(len / num_threads)` is modelled as the exact integer ceiling.
- Paralelo.TSPParallelBruteForceSolver.Solve: requires `num_threads >= 1`, because zero threads divide by zero in the main thread. With no city the one route `[0]` indexes an empty table inside its worker thread. That thread dies before it takes the lock, `join` returns, and `solve` returns `(None, inf)`, which the model states. The thread's traceback is not modelled.
- Sequencial.TSPBruteForceSolver.Solve: requires at least one city. With none, `route_cost` indexes the empty route.
- Paralelo.TSPParallelBruteForceSolver.constructor: the processor count is a `nat` parameter. `os.cpu_count()` may return `None`, which makes `math.ceil(len / None)` raise `TypeError` at Paralelo/tsp_paralelo.py:72; that case is not modelled.
- Server.TSPMaster.constructor: the city table and the distance function are parameters. `GetMordorCitiesData` applies the same construction to the active table.
- `precompute_distances` builds a dictionary of dictionaries keyed `0..n-1`. It is modelled as a sequence of rows with the same entries.
- Logging, `format_tour`, `clients_connected`, the `time.time()` measurements and the `main()` drivers are left out. They only report or time.
- Sequencial/utils/mordor_data.py is not part of this model. It is a constant list of name and position pairs that the sequential driver passes in.
