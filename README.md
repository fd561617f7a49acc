# MW-Omega orchestrator core, modelled in Dafny

This project models the numeric core of the MW-Omega orchestrator and its demo and revenue scripts, and proves properties of it:

- **Monte Carlo survival simulation** (`run_monte_carlo`, modules `Survival` and `SurvivalReport`). Each scenario runs up to 12 months over the revenue streams. Every stream is drawn active or dormant, and an active stream earns a noisy revenue. Monthly expenses are subtracted from a cash reserve that starts at 0. The liquidity-floor and concentration-cap counters are updated each month. The scenario stops at the first month whose reserve is at or below -20000. The report step then derives its figures from the scenario results: the 12-month survival count and rate, the cash percentiles, the scenario clusters, the mean stop-rule counts with their grades, and the stream contributions.
- **Vendor dependency graph** (`run_dependency_graph`, modules `DependencyGraph` and `CriticalPaths`). The graph is built with `networkx.DiGraph` semantics. It has weighted degrees, and every vendor gets a composite SPOF (single point of failure) score. The model also covers the list of true SPOFs, and the critical paths: every simple path of three or more nodes, found in `all_simple_paths` order and sorted heaviest first.
- **Demo** (`demo/run_demo.py`):
  - the 39-document dependency graph (module `DocumentGraph`);
  - the task prioritiser `decision_compress` (module `DecisionCompress`).
- **Revenue parser** (`scripts/parse_revenue.py`):
  - the three row mappings `parse_kdp`, `parse_substack` and `parse_generic` (module `RevenueParse`);
  - `build_summary` (module `RevenueSummary`).

Shared modules:

- `Sums`: left-to-right sums.
- `Rounding`: Python's `round`, computed exactly over reals with ties going to the even neighbour.
- `StableSort`: Python's stable `sorted` and `sort`. A `reverse=True` sort is the ascending sort by the negated key, because Python also keeps equal keys in input order.
- `Wrappers`: `Option` and `Result`.

The pseudo-random generator is an input, `draws: nat -> real`: draw `k` is what the k-th call to `random.random()` or `random.gauss(0, 1)` returns. Every simulation step threads the index of the next unused draw, so each run is a deterministic function of its inputs and the draw order is explicit.

Loops in the source are methods, each proved against a specification function. `DiGraph` is a class whose `AddNode` and `AddEdge` update its node and edge lists in place. Python dictionaries that are iterated in insertion order are sequences of pairs, and dictionaries that are only looked up are maps.

Uncaught Python errors are modelled as `Result` or `Outcome` values:
- a task field that is missing (`KeyError`) or not a number (`TypeError`);
- a graph node without a node-table entry (`KeyError`);
- `float(None)` (`TypeError`) and `None.lower()` (`AttributeError`) on a CSV row shorter than its header.

## Model

| member | source | states |
|---|---|---|
| Survival.StreamRevenue | mw_orchestrator.py:287-294 | An active stream's revenue is never negative. It is at least the base when the upside is not below the base, and exactly the base when there is no upside. |
| Survival.ActivationBoostBounds | mw_orchestrator.py:284 | The activation boost of a dormant stream lies in [0, 0.15] and never decreases with the month. |
| Survival.ActivationThresholdRamp | mw_orchestrator.py:280-285 | A stream with a base always uses its own activation probability. A dormant stream's threshold grows with the month, up to the probability plus 0.15, which it reaches from month 8 on. |
| Survival.DrawStreamsShape | mw_orchestrator.py:278-294 | One month of streams uses one or two draws per stream and gives one revenue per stream. |
| Survival.DrawStreamsSums | mw_orchestrator.py:278-298 | The month's revenue is the sum of the unrounded stream revenues. Each of those is non-negative. Each per-stream figure is that revenue rounded to 2 places. |
| Survival.DrawStream | mw_orchestrator.py:280-294 | The per-stream step draws activity and, when active, the noise, and returns the revenue and next draw that the stream specification gives. |
| Survival.DrawMonth | mw_orchestrator.py:275-298 | The stream loop's month revenue, rounded per-stream figures, draw cursor and updated stream totals equal those of the month specification. |
| Survival.MonthsDrawCount | mw_orchestrator.py:274-301 | After m months the generator has advanced by between m*(s+1) and m*(2s+1) draws for s streams. |
| Survival.MonthsPrefix | mw_orchestrator.py:274-301 | The first j months of a longer horizon are exactly the months of a j-month horizon. |
| Survival.MonthsNonNegative | mw_orchestrator.py:292-298 | Every month has a non-negative revenue and one non-negative rounded figure per stream. |
| Survival.LedgerShape | mw_orchestrator.py:274-320 | Every month is survived until the trajectory stops, and a stopped trajectory survived all months but its last. The breach and violation counters never exceed the simulated months. Each monthly total is that month's revenue rounded to 2 places. The cursor is the one the last simulated month left. |
| Survival.LedgerCash | mw_orchestrator.py:269-304 | The cash reserve is the net cash flow (revenue minus expense) of the simulated months, starting from zero. |
| Survival.LedgerCounters | mw_orchestrator.py:304-320 | `liquidity_breaches` counts the simulated months whose reserve ended below the liquidity floor. `concentration_violations` counts those in which one stream earned more than the cap's share of a positive month revenue. The counters are updated before the survival check, so the month that stops the trajectory is included. |
| Survival.StoppingMonthIsBreach | mw_orchestrator.py:304-320 | When the liquidity floor is above the insolvency floor (50000 against -20000 in the shipped rules), a stopped trajectory has at least one breach. |
| Survival.LedgerStopsAtFirstInsolvency | mw_orchestrator.py:316-320 | Every month before the last simulated one ended above -20000. The trajectory stopped exactly when its last simulated month did not. |
| Survival.StoppedStaysStopped | mw_orchestrator.py:319-320 | Once a trajectory has stopped, later months change nothing: the `break`. |
| Survival.LedgerStreamTotals | mw_orchestrator.py:296-298 | Each stream's total is the sum of its rounded monthly revenues over the simulated months. |
| Survival.LedgerNonNegative | mw_orchestrator.py:296-305 | With non-negative months, every monthly total and stream total is non-negative. |
| Survival.SimulateStopped | mw_orchestrator.py:317-320 | A trajectory that has stopped within m months is the same over any longer horizon. |
| Survival.SimulateShape | mw_orchestrator.py:266-320 | One scenario simulates between 1 and m months. Its counters are within m. It has one total per stream, no negative totals, and a draw cursor within the per-month draw bounds. |
| Survival.PlayMonth | mw_orchestrator.py:274-320 | One iteration of the month loop updates the reserve, counters, monthly totals, stream totals and cursor as the one-month step specifies. |
| Survival.RunScenario | mw_orchestrator.py:267-333 | One scenario's result record and the cursor it leaves are those of the trajectory specification summarised: rounded cash, total, mean and stream totals, and the counters. |
| Survival.ScenarioWellFormed | mw_orchestrator.py:322-333 | Every scenario result carries its own id and at most `months` months survived. Its counters are within `months`. Its total revenue and average are non-negative, and it has one non-negative total per stream. |
| Survival.ScenariosShape | mw_orchestrator.py:266-333 | `count` scenarios give `count` well-formed results in scenario order. |
| Survival.RunMonteCarlo | mw_orchestrator.py:263-333 | The scenario loop gives the results of the scenario specification, each scenario starting where the previous one left the generator. |
| Survival.RunShippedMonteCarlo | mw_orchestrator.py:221-333 | The shipped run of 1000 scenarios of 12 months gives 1000 well-formed results. |
| SurvivalReport.Survivors | mw_orchestrator.py:340 | The survivor count never exceeds the number of scenarios. |
| SurvivalReport.SurvivorsAllOrNone | mw_orchestrator.py:340 | The count equals the number of scenarios exactly when every scenario survived 12 months. It is zero exactly when none did. |
| SurvivalReport.SurvivalRate | mw_orchestrator.py:341 | The survival rate lies in [0, 100]. |
| SurvivalReport.Ascending | mw_orchestrator.py:348 | `sorted(values)` is an ascending permutation of the values. |
| SurvivalReport.PercentileIndexInRange | mw_orchestrator.py:348-352 | `int(n * q)` is a valid index for every quantile below 1, and it is monotone in the quantile. |
| SurvivalReport.Percentile | mw_orchestrator.py:348-352 | A percentile is one of the values. It is at least every value sorted before its index and at most every value sorted after it. |
| SurvivalReport.PercentileMonotone | mw_orchestrator.py:348-352 | A higher quantile never gives a lower percentile. |
| SurvivalReport.CashPercentilesAscend | mw_orchestrator.py:348-352 | P5 <= P25 <= P50 <= P75 <= P95, and each is some scenario's final cash. |
| SurvivalReport.Median | mw_orchestrator.py:380 | The median lies between the least and the greatest value. |
| SurvivalReport.ClustersPartition | mw_orchestrator.py:425-428 | The four clusters split the scenarios: their counts add up to the number of scenarios. |
| SurvivalReport.ClusterSharesSum | mw_orchestrator.py:432-435 | The four cluster percentages add up to 100. |
| SurvivalReport.MeanWithin | mw_orchestrator.py:360-361 | The mean of values in [lo, hi] lies in [lo, hi]. |
| SurvivalReport.AveragesWithinHorizon | mw_orchestrator.py:360-379 | For well-formed results, the mean months survived, the mean liquidity breaches and the mean concentration violations lie in [0, months]. |
| SurvivalReport.AssessMonotone | mw_orchestrator.py:401-402 | More months in violation never get a milder grade (MANAGEABLE, WARNING, CRITICAL). |
| SurvivalReport.AggregateStreamTotals | mw_orchestrator.py:355-358 | The aggregation loop gives, for each stream, the column of that stream's totals across the scenarios, in scenario order. |
| SurvivalReport.SharesBounded | mw_orchestrator.py:411-415 | With non-negative stream means, every contribution share lies in [0, 100]. |
| SurvivalReport.SharesSum | mw_orchestrator.py:411-415 | When the summed means are positive, the contribution shares add up to 100. |
| SurvivalReport.Contributions | mw_orchestrator.py:412 | The contribution rows are a permutation of the per-stream rows, by non-increasing mean. Rows with equal means stay in stream order. |
| SurvivalReport.ContributionSharesBounded | mw_orchestrator.py:411-416 | For well-formed results, every row of the contribution table has a share in [0, 100]. |
| DependencyGraph.LookupFinds | mw_orchestrator.py:482 | A node-table lookup succeeds exactly when the key is in the table, and returns that key's entry. |
| DependencyGraph.AddNodeToKeepsDistinct | mw_orchestrator.py:466-467 | Adding a node keeps the node list free of duplicates, and adds exactly that node. |
| DependencyGraph.WithNodeValid | mw_orchestrator.py:467 | `add_node` preserves graph validity: distinct nodes, edges between nodes, at most one edge per ordered pair. |
| DependencyGraph.SetEdgeWeights | mw_orchestrator.py:471 | `add_edge` sets the weight of its own pair and changes the weight of no other pair. |
| DependencyGraph.WithEdgeValid | mw_orchestrator.py:471 | `add_edge` preserves graph validity, adding missing endpoints and overwriting an existing edge in place. |
| DependencyGraph.AddNodesValid | mw_orchestrator.py:466-467 | The node loop keeps the graph valid, adds no edge, and leaves exactly the old nodes plus the table's keys. |
| DependencyGraph.AddEdgesNodes | mw_orchestrator.py:470-471 | After the edge loop a node is either an earlier node or an endpoint of some edge row. |
| DependencyGraph.BuiltWeights | mw_orchestrator.py:470-471 | The built graph has an edge between u and v exactly when some row joins them, and it carries the weight of the last such row. |
| DependencyGraph.BuiltValid | mw_orchestrator.py:463-471 | The built graph is valid, and its nodes are exactly the table's keys and the endpoints of the edge rows. |
| DependencyGraph.DiGraph.constructor | mw_orchestrator.py:463 | A new graph has no nodes and no edges. |
| DependencyGraph.DiGraph.AddNode | mw_orchestrator.py:467 | In place, the graph becomes `WithNode` of its old value. |
| DependencyGraph.DiGraph.AddEdge | mw_orchestrator.py:471 | In place, the graph becomes `WithEdge` of its old value. Its search for the existing edge finds the first edge with that pair. |
| DependencyGraph.BuildGraph | mw_orchestrator.py:463-471 | The two construction loops build the graph that the specification `Built` gives. |
| DependencyGraph.AddTableNodes | mw_orchestrator.py:466-467 | Adding the table's nodes one by one leaves the graph that `AddNodes` gives for the whole list. |
| DependencyGraph.AddEdgeRows | mw_orchestrator.py:470-471 | Adding the edges row by row leaves the graph that `AddEdges` gives for the whole list. |
| DependencyGraph.DegreeSums | mw_orchestrator.py:475-476 | Over the nodes of a valid graph, the weighted out-degrees and the in-degrees both add up to the total edge weight. |
| DependencyGraph.MaxOut | mw_orchestrator.py:481 | `max(out_degree.values(), default=1) or 1` is never zero, is at least every degree, and is either 1 or one of the degrees. |
| DependencyGraph.OutTermInUnitRange | mw_orchestrator.py:481-491 | With non-negative weights, each node's out-degree term lies in [0, 1]. |
| DependencyGraph.CriticalityWeight | mw_orchestrator.py:484-485 | The criticality weight lies in [0.2, 1], and an unknown criticality gives 0.5. |
| DependencyGraph.Penalty | mw_orchestrator.py:486 | The alternatives penalty lies in (0, 1], and it is 1 exactly when there are no alternatives. |
| DependencyGraph.PenaltyDecreasing | mw_orchestrator.py:486 | More alternatives give a strictly smaller penalty. |
| DependencyGraph.NoAlternativesScoresHigher | mw_orchestrator.py:486-495 | With a positive bracket, a vendor without alternatives has a strictly higher unrounded score than one with alternatives, and a rounded score that is not lower. |
| DependencyGraph.ScoreWithinScale | mw_orchestrator.py:488-495 | With betweenness, closeness, out-degree term and criticality weight all in [0, 1], the SPOF score lies in [0, 100]. |
| DependencyGraph.SpofScores | mw_orchestrator.py:480-495 | The scoring loop succeeds exactly when every graph node has a table entry. Otherwise it fails with the first graph node, in graph order, that has none. On success it gives every graph node, and only those, the node's rounded composite score. |
| DependencyGraph.ScoreEach | mw_orchestrator.py:480-495 | For any per-node score, the loop succeeds exactly when every node has a table entry and then maps each node, and only those, to the score of its entry. Otherwise it fails with the first node that has no entry. |
| DependencyGraph.TrueSpofsExactly | mw_orchestrator.py:498-501 | A node is a true SPOF exactly when it has a table entry without alternatives and a score above 10. |
| DependencyGraph.TrueSpofsInTableOrder | mw_orchestrator.py:497-501 | `true_spofs` is in node-table order. Its `k`th node is the key of the `k`th entry that has no alternatives and scores above 10. Those entry positions increase and are exactly the passing entries. |
| DependencyGraph.TableKeysScored | mw_orchestrator.py:498-501 | After a successful scoring loop every table key has a score, so `spof_scores[node]` cannot fail. |
| CriticalPaths.SuccessorsExactly | mw_orchestrator.py:509 | The successors of u are exactly the nodes u has an edge to. |
| CriticalPaths.ExploreSound | mw_orchestrator.py:509 | Everything the depth-first search yields is a simple walk that extends the current path and ends at the target. |
| CriticalPaths.ExploreComplete | mw_orchestrator.py:509 | Every simple walk that extends the current path through a remaining child and meets the target only at its end is yielded. |
| CriticalPaths.AllSimplePathsExactly | mw_orchestrator.py:509 | For distinct src and dst, `all_simple_paths` yields exactly the simple paths from src to dst. |
| CriticalPaths.PathWeightNonNegative | mw_orchestrator.py:512-514 | With non-negative weights, a path weighs at least zero. |
| CriticalPaths.AppendEntries | mw_orchestrator.py:510-515 | The innermost loop appends, in order, each found path of at least 3 nodes with its weight. |
| CriticalPaths.AppendPair | mw_orchestrator.py:507-517 | For a pair of nodes the loop appends that pair's entries, and nothing when src equals dst. |
| CriticalPaths.AppendRow | mw_orchestrator.py:505-517 | The middle loop appends the entries of src against every node, in node order. |
| CriticalPaths.CriticalPathsOf | mw_orchestrator.py:504-519 | The collecting loops and the sort give the enumerated entries sorted by descending weight. |
| CriticalPaths.CriticalPathsSound | mw_orchestrator.py:504-517 | Every critical-path entry is a simple path of at least 3 nodes that starts at a graph node, paired with the sum of its edge weights. |
| CriticalPaths.CriticalPathsComplete | mw_orchestrator.py:504-517 | Every simple path of at least 3 nodes between two graph nodes is listed with its weight. |
| CriticalPaths.CriticalPathsStable | mw_orchestrator.py:519 | The sorted list is a permutation of the entries found, heaviest first, and paths of equal weight keep the order in which they were found. |
| DocumentGraph.DocNumberOfId | demo/run_demo.py:14 | Reading the number back from `DOC-nnn` gives n. |
| DocumentGraph.DocIdInjective | demo/run_demo.py:14 | Different document numbers give different ids. |
| DocumentGraph.BuildDependencyGraph | demo/run_demo.py:14-18 | The graph has 39 entries. |
| DocumentGraph.GraphKeys | demo/run_demo.py:14-18 | The keys are `DOC-001` … `DOC-039` in order, each once. Every document is `CANONICAL` and in a layer from 0 to 3. |
| DocumentGraph.DependenciesBelow | demo/run_demo.py:16 | Document i depends on min(i-1, 3) documents, each with a smaller number at most 3 below i. |
| DocumentGraph.DependencyIsEarlier | demo/run_demo.py:16 | Every dependency names an earlier entry of the graph. |
| DocumentGraph.Acyclic | demo/run_demo.py:16 | Every walk along dependencies ends at a strictly earlier entry than where it started, so there is no cycle. |
| DocumentGraph.CountLayerPrefix | demo/run_demo.py:15 | The number of documents 1..n in each layer follows the layer boundaries 6, 9 and 23. |
| DocumentGraph.LayerCounts | demo/run_demo.py:15 | The four layers hold 6, 3, 14 and 16 documents. |
| DecisionCompress.DecisionCompress | demo/run_demo.py:42-48 | The loop and sort give the scored tasks sorted by descending score, or the first task's error. |
| DecisionCompress.ScoreAll | demo/run_demo.py:44-47 | A successful scoring gives one scored task per task. |
| DecisionCompress.ScoreAllFailurePropagates | demo/run_demo.py:45-47 | Once a prefix of the tasks fails to score, the whole list fails with the same error. |
| DecisionCompress.ScoreAllExactly | demo/run_demo.py:44-47 | Scoring succeeds exactly when every task can be scored, and then entry i is task i with its own score. Otherwise the error is that of the first task that cannot be scored. |
| DecisionCompress.FieldsKept | demo/run_demo.py:47 | A scored task keeps every other field unchanged and carries its score under `priority_score`. |
| DecisionCompress.ExactScore | demo/run_demo.py:46-47 | With whole-number inputs the score is exactly (4*impact + 3*urgency + 3*(10-effort))/10. |
| DecisionCompress.CompressOrdered | demo/run_demo.py:48 | The result is a permutation of the scored tasks, by non-increasing score, and tasks with equal scores keep their input order. |
| DecisionCompress.LowerEffortFirst | demo/run_demo.py:46-48 | Of two tasks with equal whole-number impact and urgency, the one with less effort scores strictly higher and comes first. |
| RevenueParse.Normalize | scripts/parse_revenue.py:75 | Normalising a source name keeps its length. |
| RevenueParse.NormalizeIdempotent | scripts/parse_revenue.py:75 | A normalised name has no space and no upper-case ASCII letter, and normalising it again changes nothing. |
| RevenueParse.ParseRows | scripts/parse_revenue.py:64-81 | The row loop of each parser gives the records that the specification `ParseAll` gives, or its first uncaught error. |
| RevenueParse.ParseAllFailurePropagates | scripts/parse_revenue.py:31-41 | Once a prefix of the rows raises an uncaught error, the whole parse fails with it. |
| RevenueParse.ParseAllFails | scripts/parse_revenue.py:40-41 | A parser fails exactly when some row raises an error that `except (ValueError, KeyError)` does not catch. |
| RevenueParse.KeptRows | scripts/parse_revenue.py:31-41 | The kept positions are positions of rows. |
| RevenueParse.KeptRowsExactly | scripts/parse_revenue.py:31-41 | The kept positions are increasing, and they are exactly the rows that give a record. |
| RevenueParse.ParseAllInRowOrder | scripts/parse_revenue.py:50-60 | A successful parse has one record per kept row, and the k-th record is the one the k-th kept row gives. |
| RevenueParse.SourceTags | scripts/parse_revenue.py:36-75 | KDP records carry `kdp_books`, Substack records `substack_newsletter`, and generic records a normalised source name. |
| RevenueParse.DetailColumn | scripts/parse_revenue.py:37-76 | The KDP detail is the title cell as read, so `None` stays `None`, and it is empty text without a title column. The Substack detail is text beginning `Subscribers: `, with `N/A` for a missing column and `None` for a `None` cell. Generic records have an empty detail. |
| RevenueParse.GenericSourceFromStem | scripts/parse_revenue.py:72 | A generic row without a source column is named after its file. |
| RevenueParse.AmountColumns | scripts/parse_revenue.py:33 | With no amount column the amount is 0. The capitalised column wins over the lower-case one. A non-numeric amount skips the row. |
| RevenueParse.MissingOrBadAmount | scripts/parse_revenue.py:52 | KDP and Substack rows without an amount column are kept with amount 0, and a non-numeric amount skips the row in every parser. |
| RevenueSummary.Grouped | scripts/parse_revenue.py:121-124 | The grouping has one entry per stream. |
| RevenueSummary.BuildSummary | scripts/parse_revenue.py:116-140 | The grouping and concentration loops give the summary that the specification `Summarize` gives. |
| RevenueSummary.StreamsExactly | scripts/parse_revenue.py:121-124 | The streams are distinct, and they are exactly the sources of the records. |
| RevenueSummary.StreamsSumToTotal | scripts/parse_revenue.py:118-124 | The per-stream revenues add up to the total revenue: grouping loses and duplicates nothing. |
| RevenueSummary.ByStreamExactly | scripts/parse_revenue.py:133-139 | `by_stream` lists each source once with its revenue rounded to 2 places, by non-increasing value. Streams with equal unrounded revenue keep their order of first appearance. The liquidity estimate equals the total, rounded to 2 places. |
| RevenueSummary.ConcentrationExactly | scripts/parse_revenue.py:127-138 | `concentration` is empty exactly when the total is not positive. Otherwise it lists each source exactly once with its share rounded to 4 places, by non-increasing share. Equal rounded shares keep the order in which their streams first appear. |
| RevenueSummary.SharesInUnitRange | scripts/parse_revenue.py:128-130 | With non-negative amounts and a positive total, every share lies in [0, 1]. |
| Rounding.RoundMonotone | mw_orchestrator.py:495 | Rounding never reverses the order of two values. |
| Rounding.RoundError | mw_orchestrator.py:296 | A rounded value is within half a unit of the last kept digit. |
| StableSort.Sort | mw_orchestrator.py:519 | The sort gives an ascending permutation of its input. |
| StableSort.SortIsStable | demo/run_demo.py:48 | Elements with equal keys come out in the order they went in. |
| StableSort.SortKeepsTieOrder | mw_orchestrator.py:412 | By position: of two output elements with equal keys, the one ranked earlier in the input comes first. |

## Left out

- Random generation: the Mersenne Twister and the Box-Muller transform of `random.gauss` are not modelled. Draws are an input, so no distributional property is stated.
- Floating point: all arithmetic is over exact reals. `round` is exact round-half-even on the real value, and sums are exact.
- `int(len * q)`: the percentile index is modelled as the exact floor of n*pct/100. The float product can round differently for some n.
- Report text: the markdown of `_format_monte_carlo_report` and `_format_depgraph_report`, its number formats, and the prose insights are not modelled. Only the figures are.
- `statistics.mean` and `statistics.median` of an empty list and `survived_12 / len(results)` raise errors in Python. The model requires at least one scenario and one simulated month, which every run of the program has.
- Centralities: `betweenness_centrality` and `closeness_centrality` are inputs (maps), not computed. In-degrees are modelled but unused, as in the source. `nx.density` is only printed and is left out.
- `all_simple_paths` is modelled as the depth-first enumeration, in networkx's successor order. The `NetworkXError` handler is unreachable for nodes of the graph and is not modelled.
- Node attributes: the `type` attribute that `add_node` stores is not modelled, since nothing reads it.
- Node table: the node table is a sequence of entries whose keys are distinct, as a dictionary literal's are. `Lookup` returns the first entry with a key.
- The shipped data: the concrete vendor table, streams and documents of this configuration are not evaluated. The one exception is the demo document graph, whose layer counts are proved. A concrete list of critical paths for the shipped table is not proved, because evaluating the search over all 132 node pairs is too costly for the verifier.
- `Pad3` requires a number below 1000. The demo only uses 1 to 39.
- `monte_carlo_simulation` of the demo, the CLI, file I/O, `scan_and_parse`, `main`, and the dashboard and sync commands are outside this model.
- RevenueParse.Lower: `str.lower` is modelled for ASCII letters only, and other characters are kept.
- RevenueParse.Amount: `float` on a string is a parameter (`None` when it raises `ValueError`). Its parsing rules, `nan` and `inf` are not modelled.
- `csv.DictReader`: the extra fields of a row longer than its header (stored under the key `None`) are not modelled. Rows are maps from header to cell.
- Survival.AddEach: adds stream totals position by position; in every trajectory both lists have one entry per stream.
- `build_summary` of an empty list returns the integer `0` for the totals. The model gives the real `0.0`, the same number.
