# Everyday-Utilities in Dafny

A verified model of the deterministic core of the `meb.utils` package, a collection of
scientific helpers around networkx graphs, numpy and R plotting. One Dafny module per
source file:

| module | file | what it models |
|---|---|---|
| `Triads`, `TriadCensus` | `meb/utils/network/subgraphs.py` | the Batagelj–Mrvar triad census: tricodes, the 64-entry lookup table, the identifier tables, and the counting loops with and without a rank map |
| `Rewiring` | `meb/utils/network/randomisation.py` | degree-preserving edge switches: grouping into unidirectional and bidirectional links, the `check_standard` legality test, single and double switches on the graph and on the row arrays, and the attempt budget of `randomise` |
| `Spectral` | `meb/utils/network/algorithms.py` | spectral bisection: the sign vector, the zero-row-sum diagonal adjustment, Kernighan–Lin refinement, and the work queue that splits the nodes into communities |
| `MathFuncs` | `meb/utils/mathfuncs.py` | the three binomial-coefficient helpers |
| `Statistics` | `meb/utils/statistics.py` | the z-score sentinels and `probability_bincounts` |
| `Projections` | `meb/utils/network/classes.py` | the one-mode projections of bipartite graphs |
| `Generators` | `meb/utils/network/generators.py` | the random bipartite generator `rbp_network` |
| `Singletons` | `meb/utils/singletonmixin.py` | the singleton registry: creation, lookup and forgetting of instances |
| `Clamv` | `meb/utils/classes.py` | the host-list extractor `CLAMVParser.get_hosts` |
| `Dataframes` | `meb/utils/dataframes.py` | the step of the seven data-frame helpers that collects the observables into columns |
| `Graphs`, `Sorting`, `Seqs`, `Wrappers` | — | the part of networkx the core uses (a `Graph` class with nodes, a `pop` attribute and an edge multiset), `sorted` over node labels, distinct sequences, and `Option`/`Result` |

Code that mutates state is modelled as such. Graphs, the registry, the rewiring state
and the data-frame table are classes whose methods carry `modifies` clauses. The
rewiring rows and the refinement's sign vector are arrays overwritten in place. Loops
are `while`/`for` loops with invariants. Each method is proved against a function that
specifies it, and the properties are lemmas about those functions.

Randomness is an input. In the rewiring, `draws(i)` gives the category choice and the
two row indices of the i-th attempt; the draw `randint(0, last, 2)` is `d.u % (last + 1)`
and `d.v % (last + 1)`. The rewiring returns a ghost trace of its attempts (category,
drawn rows, verdict of `check_standard`), and its contracts tie the final edges and the
returned ratio to that trace. In the generator, `uniform(k)` is the k-th call of
`random_sample`. The networkx edge listing order is a parameter, and so is the
eigenvector solver (a function from a matrix to a vector with one entry per row).
Floating-point values are exact reals.

## Model

| member | source | states |
|---|---|---|
| MathFuncs.Absorption | meb/utils/mathfuncs.py:29 | the absorption identity (k + 1) C(n, k + 1) = (n − k) C(n, k) of the reference, on which every exact division rests |
| MathFuncs.ChooseAbove | meb/utils/mathfuncs.py:29 | there is no k-subset of an n-set for k > n |
| MathFuncs.Symmetry | meb/utils/mathfuncs.py:29 | C(n, k) = C(n, n − k) for the reference |
| MathFuncs.FoldIsChoose | meb/utils/mathfuncs.py:32 | after b steps of the fold `a * (n - b) / (b + 1)` from 1 over n ≥ 0 the accumulator is C(n, b), so every integer division is exact |
| MathFuncs.BinomialCoefficient | meb/utils/mathfuncs.py:27-34 | 0 unless 0 ≤ k ≤ n, and C(n, k) otherwise |
| MathFuncs.BinomialCoefficient2 | meb/utils/mathfuncs.py:36-50 | the loop of min(k, n − k) steps gives 0 unless 0 ≤ k ≤ n and C(n, k) otherwise, the same result as `binomial_coefficient` |
| MathFuncs.BinomialSymmetry | meb/utils/mathfuncs.py:31-34 | `binomial_coefficient(n, k) == binomial_coefficient(n, n - k)` for all integers, and C(n, 0) = C(n, n) = 1 for n ≥ 0 |
| MathFuncs.FoldIsGeneralChoose | meb/utils/mathfuncs.py:60 | for any integer n the fold's divisions stay exact and give the extended coefficient (−1)^k C(k − n − 1, k) below zero |
| MathFuncs.BinomialCoefficient3 | meb/utils/mathfuncs.py:52-60 | 1 for k ≤ 0 (empty `xrange`), otherwise the extended coefficient for every integer n |
| MathFuncs.ThirdAgreesWithFirst | meb/utils/mathfuncs.py:31-60 | for n ≥ 0 and k ≥ 0 the unchecked helper equals `binomial_coefficient`, including 0 for k > n |
| MathFuncs.ThirdBelowZero | meb/utils/mathfuncs.py:31-60 | for n = −1, k = 1 the unchecked helper gives −1 where `binomial_coefficient` gives 0 |
| Statistics.ComputeZScore | meb/utils/statistics.py:113-135 | NaN exactly for an empty ensemble; 0 when the observation equals the mean; +inf or −inf by the sign of the deviation when the variance is 0; otherwise a finite z with the sign of the deviation and z²·variance = deviation² |
| Statistics.ZScoreExamples | meb/utils/statistics.py:122-135 | the four branches on concrete ensembles: equal to the mean gives 0, spread gives a positive finite score, no spread gives +inf, an empty ensemble gives NaN |
| Statistics.SquaredDeviationsNonNegative | meb/utils/statistics.py:125 | the variance whose root `numpy.std` takes is never negative |
| Statistics.BinsCoverObservations | meb/utils/statistics.py:106 | the bins 0..max of `numpy.bincount` over non-negative integers hold every observation and count all of them |
| Statistics.BinsSkip | meb/utils/statistics.py:108-109 | an empty bin adds nothing to the output |
| Statistics.BinsAppend | meb/utils/statistics.py:108-110 | a non-empty bin i is appended as (i, count_i / len) and the output stays strictly increasing in i |
| Statistics.HistogramComplete | meb/utils/statistics.py:105-111 | once all bins up to the largest observation are processed, the output lists exactly the occurring values with their frequencies, in increasing order, and the probabilities sum to 1 |
| Statistics.CollectBins | meb/utils/statistics.py:108-111 | the loop over the first `bins` bins leaves exactly their non-empty entries in `points` |
| Statistics.ProbabilityBincounts | meb/utils/statistics.py:90-111 | [] for empty input; an error exactly when an observation is negative (`numpy.bincount` refuses it); otherwise the histogram of the observations, summing to 1 |
| Triads.Tricode | meb/utils/network/subgraphs.py:120-129 | the tricode of a triple is below 64 |
| Triads.TricodeBits | meb/utils/network/subgraphs.py:127-129 | bit 1, 2, 4, 8, 16 or 32 of the tricode is set exactly when the link v→u, u→v, v→w, w→v, u→w or w→u is present |
| Triads.TableRange | meb/utils/network/subgraphs.py:77-80 | `tricodes` has 64 entries, each a class number in 1..16 |
| Triads.TricodeToName | meb/utils/network/subgraphs.py:81-82 | `tricode_to_name` is total on 0..63 and gives one of the sixteen class names |
| Triads.TableExamples | meb/utils/network/subgraphs.py:75-129 | code 0 is "003", code 63 is "300", and the 3-cycle 0→1→2→0 read as (0, 1, 2) has code 25, class "030C" |
| Triads.ClassIsSymmetric | meb/utils/network/subgraphs.py:77-129 | the class of a triple does not depend on the order in which its three nodes are read |
| Triads.DisconnectedClasses | meb/utils/network/subgraphs.py:75-82 | "003" is exactly the triad without links; "003", "012", "102" are exactly the triads that are not weakly connected; one single link gives "012" and one mutual link "102" |
| Triads.NamesAreDistinct | meb/utils/network/subgraphs.py:75-76 | the sixteen class names are pairwise different |
| Triads.ConnectedNamesListed | meb/utils/network/subgraphs.py:75-76 | the thirteen connected class names are `triad_names` without its first three |
| Triads.NumberKeys | meb/utils/network/subgraphs.py:30-40 | `num2tricode` and `mtf_sz3_num2id` are defined on exactly 1..13 |
| Triads.NumToNameToNum | meb/utils/network/subgraphs.py:35-40 | `tricode2num[num2tricode[k]] == k` for every k |
| Triads.NameToNumToName | meb/utils/network/subgraphs.py:35-40 | `num2tricode[tricode2num[name]] == name` for every name |
| Triads.NameTablesCoverConnected | meb/utils/network/subgraphs.py:32-76 | `tricode2num` and `tricode2id` are defined on exactly the thirteen connected classes |
| Triads.NumToIdToNum | meb/utils/network/subgraphs.py:28-31 | `mtf_sz3_id2num[mtf_sz3_num2id[k]] == k` for every k |
| Triads.IdToNumToId | meb/utils/network/subgraphs.py:28-31 | `mtf_sz3_num2id[mtf_sz3_id2num[id]] == id` for every id |
| Triads.IdTablesAgree | meb/utils/network/subgraphs.py:30-37 | `tricode2id[name] == mtf_sz3_num2id[tricode2num[name]]` for every name |
| TriadCensus.Neighbours | meb/utils/network/subgraphs.py:133-134 | `nbrs` holds exactly the nodes linked to x in either direction |
| TriadCensus.IdentityRank | meb/utils/network/subgraphs.py:136-147 | the plain counters order nodes by their own integer labels: an injective rank on all nodes |
| TriadCensus.RankOf | meb/utils/network/subgraphs.py:238-246 | a given non-empty `m` is the rank the mapped counters use; otherwise the identity rank |
| TriadCensus.CountedIsConnected | meb/utils/network/subgraphs.py:135-151 | a counted triple is three distinct nodes that are weakly connected |
| TriadCensus.CountedOrderExists | meb/utils/network/subgraphs.py:136-169 | under an injective rank, every weakly connected set of three distinct nodes is counted in some order |
| TriadCensus.CountedOrderUnique | meb/utils/network/subgraphs.py:136-169 | two counted orderings of the same three nodes are one ordering: no set is counted twice |
| TriadCensus.CountedMatchesConnectedTriads | meb/utils/network/subgraphs.py:131-173 | for an injective rank that covers the linked nodes, the triples counted under a class are as many as the weakly connected three-node sets of that class |
| TriadCensus.RankIndependence | meb/utils/network/subgraphs.py:131-173 | every class count is the same for any two injective covering ranks, the identity among them |
| TriadCensus.ConnectedClassName | meb/utils/network/subgraphs.py:148-149 | a counted, weakly connected triple falls under one of the thirteen connected names, which the census holds in both modes |
| TriadCensus.DyadClass | meb/utils/network/subgraphs.py:186-190 | every triple the dyad arithmetic stands for is of class "102" when the pair is mutual and "012" otherwise |
| TriadCensus.DyadsMatchDyadTriads | meb/utils/network/subgraphs.py:175-227 | the dyads added over all visited pairs are exactly as many as the three-node sets with one (mutual or single) linked pair and a third node linked to neither |
| TriadCensus.NewDyadsCardinality | meb/utils/network/subgraphs.py:182-190 | a visited pair adds n − 2 minus the size of N(v) ∪ N(u) ∖ {u, v} dyads |
| TriadCensus.TallyCount | meb/utils/network/subgraphs.py:148-151 | counting a triple increments its class by one and appends it to that class's record |
| TriadCensus.CountThirds | meb/utils/network/subgraphs.py:143-151 | the inner loop over w counts exactly the triples the ordering rule selects for the pair (v, u) |
| TriadCensus.CountPairDyads | meb/utils/network/subgraphs.py:186-190 | the pair's dyads go into the mutual total when both links exist and into the single total otherwise |
| TriadCensus.VisitPair | meb/utils/network/subgraphs.py:138-200 | one visited pair: its dyads and its counted triples are added and nothing else changes |
| TriadCensus.VisitNode | meb/utils/network/subgraphs.py:132-151 | the loop over v's neighbours skips every u that does not outrank v and visits the rest |
| TriadCensus.VisitNodes | meb/utils/network/subgraphs.py:131-227 | the loop over all nodes counts every selected triple once and, in disconnected mode, both dyad totals |
| TriadCensus.CountTriads | meb/utils/network/subgraphs.py:232-255 | the census and the record have the sixteen keys, or only the thirteen connected ones; each connected class holds its count and its triples; "012" and "102" hold the dyad totals |
| TriadCensus.TripleCount | meb/utils/network/subgraphs.py:259 | `(n * (n - 1) * (n - 2)) / 6` is the number of three-node sets of n nodes |
| TriadCensus.SumValues | meb/utils/network/subgraphs.py:259 | the loop gives `sum(census.itervalues())` |
| TriadCensus.FillNullTriads | meb/utils/network/subgraphs.py:257-259 | "003" becomes the number of three-node sets minus all found triads, so all sixteen classes sum to C(n, 3), and no other class changes |
| TriadCensus.FilledCounts | meb/utils/network/subgraphs.py:255-259 | the counted census with the null triads filled in is a complete census for the rank |
| TriadCensus.TriadicCensus | meb/utils/network/subgraphs.py:84-263 | an undirected graph raises before counting; a map that lacks a linked node raises a `KeyError`; otherwise the census (and the record when asked for) is complete for the rank |
| TriadCensus.TalliedCountsTriads | meb/utils/network/subgraphs.py:131-259 | each connected class counts the weakly connected three-node sets of that class, and "012"/"102" count the sets with one single or one mutual link |
| TriadCensus.NullTriadsDetermined | meb/utils/network/subgraphs.py:259 | two full censuses that agree outside "003" and have the same sum are equal |
| TriadCensus.CensusRankIndependence | meb/utils/network/subgraphs.py:131-259 | the plain and the mapped counters give the same census for every injective map that covers the linked nodes |
| Rewiring.GroupsPartition | meb/utils/network/randomisation.py:35-80 | each listed edge lands in exactly one group, in listing order, and in the bidirectional group exactly when it is reciprocated |
| Rewiring.SplitByReciprocity | meb/utils/network/randomisation.py:35-80 | the grouping loop returns exactly the unidirectional and bidirectional groups of the listing |
| Rewiring.StandardDirectedGroups | meb/utils/network/randomisation.py:25-42 | fails with the self-link error exactly when the graph has a self-loop; otherwise returns the two groups with weights 1 and 2 |
| Rewiring.SelflinksDirectedGroups | meb/utils/network/randomisation.py:67-81 | never fails; self-loops go into the unidirectional group, and the groups carry weights 1 and 2 |
| Rewiring.CheckStandard | meb/utils/network/randomisation.py:83-107 | a switch is allowed exactly when the edges differ and it creates no self-link, no parallel edge and no new or covered reverse link |
| Rewiring.AcceptedEnds | meb/utils/network/randomisation.py:89-107 | an allowed switch of two present edges has four distinct end points in the needed places, and its two new edges differ |
| Rewiring.ReplaceSameSource | meb/utils/network/randomisation.py:122-133 | trading a present edge for an absent one with the same source keeps the edge count and every out-degree |
| Rewiring.ReplaceSameTarget | meb/utils/network/randomisation.py:122-133 | trading a present edge for an absent one with the same target keeps the edge count and every in-degree |
| Rewiring.SingleSwitchDegrees | meb/utils/network/randomisation.py:163-174 | an allowed single switch keeps the edge count, every in- and out-degree and the absence of self-loops |
| Rewiring.DoubleSwitchDegrees | meb/utils/network/randomisation.py:135-161 | an allowed double switch of two reciprocal pairs keeps the edge count, every degree and the absence of self-loops |
| Rewiring.DoubleSwitchOut | meb/utils/network/randomisation.py:149-158 | the out-degree half of a double switch: the count and every out-degree are kept |
| Rewiring.DoubleSwitchIn | meb/utils/network/randomisation.py:149-158 | the in-degree half of a double switch: every in-degree is kept |
| Rewiring.SimpleRowsDistinct | meb/utils/network/randomisation.py:214 | rows listing each edge at most once hold no edge twice |
| Rewiring.GroupsSynced | meb/utils/network/randomisation.py:203-214 | the builders' rows over a simple graph list its edges once each, and every bidirectional row has its reverse among the rows |
| Rewiring.SingleSwitchSynced | meb/utils/network/randomisation.py:163-174 | after an allowed single switch of two unidirectional rows, the graph stays simple and the rows still list it |
| Rewiring.BiRow | meb/utils/network/randomisation.py:135-140 | a bidirectional row is an edge, its reverse is an edge, and it is no self-loop |
| Rewiring.UniRow | meb/utils/network/randomisation.py:163-166 | a unidirectional row is an edge of the graph |
| Rewiring.SyncedDistinct | meb/utils/network/randomisation.py:140-145 | the bidirectional rows of a simple graph hold no edge twice, so each reverse edge has exactly one row |
| Rewiring.DoubleSwitchSupport | meb/utils/network/randomisation.py:149-158 | an allowed double switch keeps the graph simple, and its edge set is the four-edge trade |
| Rewiring.DoubleRowsUpdate | meb/utils/network/randomisation.py:140-153 | the rows u, v and those of both reverse edges are four distinct rows, so the writes are four single updates |
| Rewiring.DoubleRowsCount | meb/utils/network/randomisation.py:149-153 | the four row writes trade the two removed reciprocal pairs for the two added ones |
| Rewiring.DoubleRowsClosed | meb/utils/network/randomisation.py:149-153 | after an allowed double switch every bidirectional row still has its reverse among the rows |
| Rewiring.DoubleSwitchSynced | meb/utils/network/randomisation.py:135-161 | after an allowed double switch of two bidirectional rows, the graph stays simple and the rows still list it |
| Rewiring.GroupsUnreciprocated | meb/utils/network/randomisation.py:35-41 | the standard grouping puts no reciprocated edge among the unidirectional rows |
| Rewiring.ReciprocalRows | meb/utils/network/randomisation.py:37-41 | the bidirectional links of the graph are exactly the bidirectional rows, and as many |
| Rewiring.SingleSwitchUnreciprocated | meb/utils/network/randomisation.py:101-174 | without self-loops, an allowed single switch creates no bidirectional link |
| Rewiring.DoubleSwitchUnreciprocated | meb/utils/network/randomisation.py:101-161 | an allowed double switch creates no reverse of a unidirectional row |
| Rewiring.SameDegreesTrans | meb/utils/network/randomisation.py:229-250 | keeping every degree composes across switches |
| Rewiring.OutcomeChanges | meb/utils/network/randomisation.py:135-174 | an attempt on two present edges, judged by `check_standard`, changes the graph exactly when it was allowed |
| Rewiring.AcceptedBound | meb/utils/network/randomisation.py:229-251 | no more switches succeed than attempts are made |
| Rewiring.NoneAccepted | meb/utils/network/randomisation.py:229-251 | a trace in which no attempt succeeded leaves the graph as it was |
| Rewiring.BookCount | meb/utils/network/randomisation.py:236-244 | booking an attempt adds one success to its own category exactly when it was allowed, and leaves the other category's successes as they were |
| Rewiring.BookAttempt | meb/utils/network/randomisation.py:236-244 | booking one attempt judged by `check_standard` on the current graph keeps the graph the replay of a faithful trace and the successes its allowed attempts |
| Rewiring.ReplaySnoc | meb/utils/network/randomisation.py:229-244 | replaying one more attempt applies its outcome, and the longer trace is faithful exactly when the shorter one is and the new verdict is `check_standard`'s |
| Rewiring.AcceptedSnoc | meb/utils/network/randomisation.py:236-244 | one more attempt adds one success to its category exactly when it was allowed |
| Rewiring.Share | meb/utils/network/randomisation.py:251 | the share of successful switches out of the expected ones lies between 0 and 1 |
| Rewiring.Budget | meb/utils/network/randomisation.py:211-219 | a group with more rows than its weight expects flip·weight·size switches, with as many attempts and last row size − 1; a smaller group gets none |
| Rewiring.Pick | meb/utils/network/randomisation.py:229-234 | the chosen category has attempts left, and the only one left is taken when the other is exhausted |
| Rewiring.FindRows | meb/utils/network/randomisation.py:140-145 | returns, ascending, exactly the indices of the rows holding the edge |
| Rewiring.Overwrite | meb/utils/network/randomisation.py:127-128 | every listed row holds the new edge, and the others are kept |
| Rewiring.OverwriteOne | meb/utils/network/randomisation.py:127-128 | writing one row is a sequence update |
| Rewiring.SingleSwitchSteps | meb/utils/network/randomisation.py:168-171 | in an allowed single switch both adds insert a new edge and both removes find their edge |
| Rewiring.DoubleRows | meb/utils/network/randomisation.py:149-153 | the rows after a double switch: rows u and v hold the new edges, the reverse rows hold their reverses |
| Rewiring.DoubleRowsSteps | meb/utils/network/randomisation.py:149-153 | the four row writes of a double switch compose to those rows |
| Rewiring.DoubleAddSteps | meb/utils/network/randomisation.py:149-153 | the four adds of an allowed double switch each insert a new edge |
| Rewiring.DoubleRemoveSteps | meb/utils/network/randomisation.py:155-158 | the four removes of a double switch each find their edge |
| Rewiring.NetworkRewiring.constructor | meb/utils/network/randomisation.py:114-120 | a new rewirer uses the standard legality test and grouping, and has no graph yet |
| Rewiring.NetworkRewiring.AddEdge | meb/utils/network/randomisation.py:122-128 | adds the edge (a present edge is kept once) and overwrites the given rows with it |
| Rewiring.NetworkRewiring.RemoveEdge | meb/utils/network/randomisation.py:130-133 | removes one present edge and leaves the rows alone |
| Rewiring.NetworkRewiring.SwitchSingle | meb/utils/network/randomisation.py:163-174 | returns 1 exactly when the switch is allowed; then the graph trades the two edges and both rows are overwritten, otherwise nothing changes |
| Rewiring.NetworkRewiring.SwitchDouble | meb/utils/network/randomisation.py:135-161 | returns 1 exactly when the switch is allowed; then both reciprocal pairs are traded and the four rows rewritten, otherwise nothing changes |
| Rewiring.NetworkRewiring.AddSwitchedPairs | meb/utils/network/randomisation.py:149-153 | the four adds of a double switch insert both new reciprocal pairs and write their rows |
| Rewiring.NetworkRewiring.RemoveSwitchedPairs | meb/utils/network/randomisation.py:155-158 | the four removes of a double switch delete both old reciprocal pairs |
| Rewiring.NetworkRewiring.Attempt | meb/utils/network/randomisation.py:234-240 | one attempt on rows u and v of category j records those two rows and `check_standard`'s verdict on the current graph; the result is 1 exactly when it allowed the switch, the graph is the attempt's outcome (the trade when allowed, unchanged otherwise), and the rows stay in step, every degree and the absence of self-loops and of new reciprocal links are kept |
| Rewiring.NetworkRewiring.AttemptSingle | meb/utils/network/randomisation.py:235-237 | an attempt in the unidirectional group returns 1 exactly when `check_standard` allows the two rows, and then the graph is the single trade, otherwise unchanged; the invariants are kept |
| Rewiring.NetworkRewiring.AttemptDouble | meb/utils/network/randomisation.py:238-240 | an attempt in the bidirectional group returns 1 exactly when `check_standard` allows the two rows, and then the graph is the trade of both reciprocal pairs, otherwise unchanged; the invariants are kept |
| Rewiring.NetworkRewiring.MakeGroups | meb/utils/network/randomisation.py:203 | applies the chosen grouping: the standard one's self-link error, or the two groups |
| Rewiring.NetworkRewiring.Run | meb/utils/network/randomisation.py:229-250 | the loop spends every attempt; the graph is the replay of the trace of attempts made, each verdict in the trace is `check_standard`'s on the graph of its time, each category's successes are its allowed attempts, and every degree, the rows in step and no self-loops are kept |
| Rewiring.NetworkRewiring.Step | meb/utils/network/randomisation.py:230-250 | one loop pass attempts the picked category on the two rows the draw picks, books one attempt and exactly `check_standard`'s verdict as a success, and keeps the loop state `Kept` (degrees, rows in step, no new self-loop or reciprocal link, graph the replay of the trace extended by the attempt, successes its allowed attempts) |
| Rewiring.NetworkRewiring.Randomise | meb/utils/network/randomisation.py:176-251 | refuses multigraphs; works on a copy or in place; keeps the node set, every degree, the number of bidirectional links and no self-loops; the graph is the replay of a faithful trace, and the share is its allowed switches over the expected ones (0 when nothing is expected), in [0, 1] |
| Rewiring.NetworkRewiring.RandomiseGraph | meb/utils/network/randomisation.py:201-251 | once the graph is set: the grouping error leaves it unchanged; otherwise degrees are kept, the graph is the replay of a faithful trace and the share is its allowed switches over the expected ones |
| Rewiring.NetworkRewiring.RewireGroups | meb/utils/network/randomisation.py:203-251 | from the chosen grouping's two groups: the graph is the replay of a faithful trace of as many attempts as expected, the share is its allowed switches over the expected ones, and the standard grouping keeps the number of bidirectional links and no self-loops |
| Rewiring.NetworkRewiring.Rows | meb/utils/network/randomisation.py:214 | the rows of a group as a new array |
| Rewiring.NetworkRewiring.RewireRows | meb/utils/network/randomisation.py:210-251 | on the row arrays: every degree kept, the graph the replay of a faithful trace of as many attempts as expected, the share its allowed switches over the expected ones, in [0, 1], and 0.0 with the graph unchanged when no switch is expected |
| Rewiring.NetworkRewiring.RunRatio | meb/utils/network/randomisation.py:229-251 | a positive budget is spent in full: the graph is the replay of a faithful trace of exactly that many attempts, every degree is kept, and the ratio is its allowed switches over the attempts, in [0, 1] |
| Rewiring.NetworkRewiring.RewireLists | meb/utils/network/randomisation.py:212-214 | copies the groups into row arrays and rewires them there, with the same replay, share and invariants |
| Spectral.SumUpdate | meb/utils/network/algorithms.py:54-57 | changing one entry changes a sum by the difference |
| Spectral.DotConstant | meb/utils/network/algorithms.py:119 | against a constant vector, a row contributes the constant times its sum |
| Spectral.FormConstant | meb/utils/network/algorithms.py:94-119 | with zero row sums, the form against a constant vector vanishes |
| Spectral.ConstantQuad | meb/utils/network/algorithms.py:101-195 | a sign vector putting every node on one side scores sᵀBs = 0 once the rows of B sum to zero |
| Spectral.SignVectors | meb/utils/network/algorithms.py:63-72 | the finite space of ±1 vectors of a given length |
| Spectral.SignVectorsComplete | meb/utils/network/algorithms.py:63-72 | every ±1 vector lies in that space |
| Spectral.BetterShrinks | meb/utils/network/algorithms.py:67-70 | moving to a strictly better sign vector strictly shrinks the set of better ones, so the refinement ends |
| Spectral.ArgMax | meb/utils/network/algorithms.py:66-68 | `trials.max()` and `trials.argmax()`: a largest entry, at its first position |
| Spectral.Trial | meb/utils/network/algorithms.py:54-58 | `flip` leaves the vector as it was and returns the score of the vector with that entry negated |
| Spectral.Pass | meb/utils/network/algorithms.py:64-72 | one pass flips only the best entry, and only when that scores strictly more; otherwise no single flip scores higher |
| Spectral.KernighanLin | meb/utils/network/algorithms.py:42-72 | `kernighan_lin_refinement` keeps a ±1 vector, never lowers sᵀBs, and ends where no single flip scores higher |
| Spectral.Sub | meb/utils/network/algorithms.py:92-186 | `b[ix(nbunch, nbunch)]` is square over the listed indices |
| Spectral.SubSymmetric | meb/utils/network/algorithms.py:186-238 | a sub-matrix of a symmetric matrix is symmetric |
| Spectral.Symmetrised | meb/utils/network/algorithms.py:238 | `b + b.T` is square and symmetric |
| Spectral.AdjustedRows | meb/utils/network/algorithms.py:94-95 | after the diagonal adjustment every row sums to zero, and only the diagonal changes |
| Spectral.DirectedAdjustedSymmetric | meb/utils/network/algorithms.py:188-238 | on the symmetrised matrix, subtracting half the row and column sums is the undirected adjustment |
| Spectral.AdjustDiagonal | meb/utils/network/algorithms.py:94-95 | the loop leaves the adjusted matrix |
| Spectral.AdjustDiagonalDirected | meb/utils/network/algorithms.py:188-189 | the directed loop leaves the directed adjustment, reading only unadjusted entries |
| Spectral.Signs | meb/utils/network/algorithms.py:101-195 | a ±1 vector, +1 exactly where the eigenvector entry is strictly positive, so zero entries give −1 |
| Spectral.GroupsPartition | meb/utils/network/algorithms.py:126-133 | the two groups together hold exactly the listed indices |
| Spectral.PositivesEmpty | meb/utils/network/algorithms.py:128-130 | the first group is empty exactly when no sign is positive |
| Spectral.NegativesEmpty | meb/utils/network/algorithms.py:131-132 | the second group is empty exactly when every sign is positive |
| Spectral.Group | meb/utils/network/algorithms.py:126-211 | the loop builds the positive and the remaining indices, in order |
| Spectral.GroupsNonEmpty | meb/utils/network/algorithms.py:126-133 | a sign vector with both signs gives two non-empty groups |
| Spectral.GroupMatrix | meb/utils/network/algorithms.py:92-189 | the adjusted matrix of a group is square with zero row sums |
| Spectral.PositiveMixed | meb/utils/network/algorithms.py:119-121 | a sign vector scoring above zero on a zero-row-sum matrix has both signs, so a split above a non-negative margin has two non-empty halves |
| Spectral.Range | meb/utils/network/algorithms.py:144 | `range(n)` lists 0..n − 1 |
| Spectral.RangeOnce | meb/utils/network/algorithms.py:144-159 | every index is in the first queued group once |
| Spectral.Put | meb/utils/network/algorithms.py:159-169 | `partitions.put` adds the group's members, its weight and its count |
| Spectral.MemberOf | meb/utils/network/algorithms.py:160-169 | an index listed in one group is a member of the whole |
| Spectral.MemberTwice | meb/utils/network/algorithms.py:160-169 | an index listed in two groups is a member twice |
| Spectral.ListedIn | meb/utils/network/algorithms.py:160-169 | a member of the whole is listed in some group |
| Spectral.LabelSet | meb/utils/network/algorithms.py:166 | `set([mapping[i] for i in indices])` holds exactly the labels of the listed indices |
| Spectral.CommunitiesOfGroups | meb/utils/network/algorithms.py:143-166 | groups listing every index once give non-empty, pairwise disjoint communities that cover the nodes |
| Spectral.Start | meb/utils/network/algorithms.py:158-159 | the loop starts with every index in one queued group, no community and zero modularity |
| Spectral.FinishCover | meb/utils/network/algorithms.py:160-170 | with the queue empty, the kept groups are the communities |
| Spectral.FinishTally | meb/utils/network/algorithms.py:125-170 | with the queue empty, there is one community more than accepted splits, and the modularity is non-negative and zero only without splits |
| Spectral.SumPositive | meb/utils/network/algorithms.py:125 | a sum of positive gains is zero exactly when there are none |
| Spectral.SumAppend | meb/utils/network/algorithms.py:125 | adding a gain adds it to the sum |
| Spectral.SkipEmpty | meb/utils/network/algorithms.py:162-163 | an empty group is dropped, and the queue's weight goes down |
| Spectral.Keep | meb/utils/network/algorithms.py:165-166 | a group that is not split becomes a community, and the queue's weight goes down |
| Spectral.HalveCover | meb/utils/network/algorithms.py:167-169 | a split group is replaced by its two halves at the back of the queue, every index still queued or kept once, and the queue's weight goes down |
| Spectral.HalveTally | meb/utils/network/algorithms.py:125-169 | the split's gain joins the modularity, and its halves replace one pending group |
| Spectral.SplitWeighs | meb/utils/network/algorithms.py:167-169 | two non-empty halves weigh less than the group they split |
| Spectral.SplitInRange | meb/utils/network/algorithms.py:126-133 | the halves hold only indices of the split group |
| Spectral.GroupMatrixOf | meb/utils/network/algorithms.py:92-189 | either variant builds the group's adjusted sub-matrix |
| Spectral.Refined | meb/utils/network/algorithms.py:122-202 | the optional refinement never lowers the score, leaves the vector alone when off, and when on ends at a single-flip optimum |
| Spectral.RecordKeep | meb/utils/network/algorithms.py:164-166 | keeping a group whose eigenvector's dQ is at most the margin extends the record of kept groups |
| Spectral.RecordHalve | meb/utils/network/algorithms.py:117-169 | a split scored sᵀBs/m4 on its group's adjusted matrix extends the record of gains |
| Spectral.FourM | meb/utils/network/algorithms.py:140-218 | the normaliser 4m is positive exactly when there is a link |
| Spectral.Detector.constructor | meb/utils/network/algorithms.py:157 | the modularity starts at zero |
| Spectral.Detector.Split | meb/utils/network/algorithms.py:89-211 | `_split`: no split exactly when dQ of the eigenvector's sign vector is at most the margin; otherwise two non-empty halves partitioning the indices, with the gain after refinement, at least the unrefined dQ, added to the modularity |
| Spectral.Detector.Divide | meb/utils/network/algorithms.py:164-169 | `_split` as the queue uses it: either the eigenvector's dQ is at most the margin and nothing changes, or two non-empty halves partitioning the group, with the gain sᵀBs/m4 of the final state vector s on the group's adjusted matrix, above the margin, added to the modularity |
| Spectral.Detector.Visit | meb/utils/network/algorithms.py:160-169 | one round skips, keeps or halves the first group, keeps the loop's invariant and its record (kept groups unsplittable, each gain its split's sᵀBs/m4), and lowers the queue's weight |
| Spectral.Detector.Bisect | meb/utils/network/algorithms.py:156-254 | the queue loop returns communities that cover the nodes disjointly, each the labels of a group whose eigenvector's dQ is at most the margin; the modularity is the sum of the gains, one fewer than the communities, each gain sᵀBs/m4 of its split's final state vector on that group's adjusted matrix |
| Spectral.Detector.SpectralCommunityDetection | meb/utils/network/algorithms.py:74-170 | rejects directed graphs and graphs without nodes or links; otherwise returns the modularity (≥ 0, and 0 exactly with one community) as the sum of the splits' sᵀBs/4m on their groups' adjusted matrices, and a disjoint cover of the nodes by unsplittable groups |
| Spectral.Detector.DirectedSpectralCommunityDetection | meb/utils/network/algorithms.py:172-254 | rejects undirected graphs and graphs without nodes or links; otherwise the same guarantees on the symmetrised matrix B + Bᵀ with m4 = 4m: the modularity is the sum of the splits' sᵀ(B + Bᵀ)s/4m |
| Spectral.Adjusted | meb/utils/network/algorithms.py:94-95 | the diagonal adjustment keeps the matrix square |
| Spectral.DirectedAdjusted | meb/utils/network/algorithms.py:188-189 | the directed adjustment keeps the matrix square |
| Graphs.Canonical | meb/utils/network/classes.py:38 | an undirected edge is stored once as one orientation of its ends, smaller end first |
| Graphs.Graph.constructor | meb/utils/network/generators.py:60-63 | a new graph of the given name and kind has no nodes, attributes or edges |
| Graphs.Graph.AddNodeWithPop | meb/utils/network/generators.py:64-65 | adds the node if missing and sets its `pop`, edges untouched |
| Graphs.Graph.AddNodesWithPop | meb/utils/network/generators.py:64-65 | `add_nodes_from(ns, pop=p)` adds the missing nodes and sets `pop` to p on every listed node, edges untouched |
| Graphs.Graph.AddNodesFrom | meb/utils/network/classes.py:36 | `add_nodes_from(nbunch)` adds the missing nodes and changes nothing else |
| Graphs.Graph.AddEdge | meb/utils/network/generators.py:70 | `add_edge(u, v)` adds both ends; a multigraph gains one more copy, a simple graph gains the edge only when it is absent |
| Graphs.Graph.AddEdgesFrom | meb/utils/network/classes.py:38 | `add_edges_from` adds the ends of every pair, and every pair or only the absent ones when duplicates collapse |
| Graphs.Graph.AddPair | meb/utils/network/classes.py:38 | one round of `add_edges_from` adds one pair to those already added |
| Graphs.Graph.RemoveEdge | meb/utils/network/randomisation.py:133 | `remove_edge` of a present edge removes one copy and changes nothing else |
| Graphs.Graph.Copy | meb/utils/network/randomisation.py:198 | `copy()` is a fresh graph with the same name, kind, nodes, attributes and edges |
| Sorting.Ascending | meb/utils/network/algorithms.py:143 | `sorted(graph.nodes())` lists the labels of the set, each once, in increasing order |
| Sorting.IncreasingUnique | meb/utils/network/algorithms.py:143 | two increasing listings of the same labels are equal, so the sorted order is the only one |
| Sorting.IncreasingDistinct | meb/utils/network/algorithms.py:143-145 | an increasing listing repeats no label, so `mapping` is one-to-one |
| Projections.PairsThrough | meb/utils/network/classes.py:38-70 | the pairs one node links are never self-loops, and an undirected pair is stored once, smaller end first |
| Projections.LinkedConnected | meb/utils/network/classes.py:37-70 | a pair is in the projection exactly when some node of `nbunch` links it |
| Projections.UndirectedLinked | meb/utils/network/classes.py:37-38 | the undirected projection has {a, b} exactly when a ≠ b and some node of `nbunch` neighbours both |
| Projections.DirectedLinked | meb/utils/network/classes.py:68-70 | the directed projection has (u, v) exactly when u ≠ v and some node of `nbunch` has u as a predecessor and v as a successor |
| Projections.MultiStep | meb/utils/network/classes.py:38-70 | into a multigraph, each further node adds one parallel copy of every pair it links |
| Projections.SimpleStep | meb/utils/network/classes.py:38-70 | into a simple graph, a further node adds only the linked pairs that are still absent |
| Projections.Project | meb/utils/network/classes.py:35-70 | `_project` adds every node of `nbunch` and the ends of every linked pair; a multigraph gets one copy of each pair per connecting node, a simple graph each absent pair once; attributes and name untouched |
| Projections.ProjectNode | meb/utils/network/classes.py:37-70 | one round of the loop over `nbunch` extends the projection by the pairs of that node |
| Projections.Projection | meb/utils/network/classes.py:40-86 | a node without `pop` raises a `KeyError`; otherwise a fresh graph of the same directedness, multi exactly when asked, named the original name + " projection", projected through the nodes of the given `pop` |
| Projections.Project2Top | meb/utils/network/classes.py:40-78 | `project2top` projects through the nodes with pop −1 |
| Projections.Project2Bottom | meb/utils/network/classes.py:48-86 | `project2bottom` projects through the nodes with pop 1 |
| Generators.RangeMembers | meb/utils/network/generators.py:55-59 | `range(lo, hi)` holds exactly the labels lo ≤ n < hi |
| Generators.TopCount | meb/utils/network/generators.py:52-55 | an int `top` gives the nodes 0..top − 1: k labels for positive k, none otherwise |
| Generators.CountsDisjoint | meb/utils/network/generators.py:56-59 | with a count for `bottom`, numbered above every top label, the two populations share no label |
| Generators.BottomAgrees | meb/utils/network/generators.py:52-59 | when `top` is a count, numbering the bottom from `len(top)` as written is the same as numbering it above the top labels |
| Generators.WrittenBottomShares | meb/utils/network/generators.py:52-59 | as written, top {t} and a bottom count k ≥ t ≥ 1 share label t |
| Generators.WrittenBottomCollides | meb/utils/network/generators.py:52-70 | as written, the shared label ends with pop −1 and gets a self-loop when every draw is below p |
| Generators.Next | meb/utils/network/generators.py:59 | the first label of the corrected bottom count lies above every top label |
| Generators.RowHas | meb/utils/network/generators.py:68-70 | a source whose draw is below p is linked to the target |
| Generators.RowFrom | meb/utils/network/generators.py:68-70 | every link of a row comes from a source whose draw is below p |
| Generators.DrawnHas | meb/utils/network/generators.py:67-70 | a pass links every pair whose draw is below p |
| Generators.DrawnFrom | meb/utils/network/generators.py:67-70 | every link of a pass comes from a pair whose draw is below p |
| Generators.FirstPassIff | meb/utils/network/generators.py:66-70 | with disjoint populations, bottom node j is linked to top node i exactly when that pair's draw in the first pass is below p |
| Generators.SecondPassIff | meb/utils/network/generators.py:71-75 | when directed, top node j is linked to bottom node i exactly when that pair's draw in the second pass, numbered after the first len(top)·len(bottom) draws, is below p |
| Generators.Bipartite | meb/utils/network/generators.py:64-75 | every link joins a top label and a bottom label, and with disjoint populations their `pop` values differ: no link inside one population |
| Generators.LinksUseDraws | meb/utils/network/generators.py:66-75 | the links depend only on the first len(top)·len(bottom) draws, or twice that many when directed |
| Generators.Link | meb/utils/network/generators.py:70-75 | `add_edge(src, tar)` makes the pair present and changes nothing else |
| Generators.Row | meb/utils/network/generators.py:68-70 | the inner loop adds exactly the row's drawn links |
| Generators.Pass | meb/utils/network/generators.py:67-75 | the nested loops add exactly the pass's drawn links |
| Generators.Populations | meb/utils/network/generators.py:60-65 | a fresh graph of the requested kind and name with both populations, pop 1 on top and then −1 at the bottom, and no edge |
| Generators.Passes | meb/utils/network/generators.py:66-75 | the passes leave exactly the drawn links and use one draw per pair, twice over when directed |
| Generators.RbpNetwork | meb/utils/network/generators.py:26-76 | `rbp_network` as written returns a fresh simple graph, directed exactly when asked, with the top and the bottom numbered from `len(top)`, their pops (the bottom's last), exactly the drawn links and the number of draws used |
| Generators.WrittenOverlap | meb/utils/network/generators.py:52-59 | as written, a counted bottom shares a label with the top exactly when some top label lies in range(len(top), len(top) + bottom); a counted top never does |
| Generators.SharedSelfLoop | meb/utils/network/generators.py:66-70 | a label in both populations, with every draw below p, gets the self-loop |
| Generators.FirstPassLinked | meb/utils/network/generators.py:66-70 | a pair whose first-pass draw is below p is linked |
| Generators.NotSecondPass | meb/utils/network/generators.py:71-75 | with disjoint populations the second pass never adds an edge out of a bottom node |
| Generators.DrawnEnds | meb/utils/network/generators.py:66-75 | every drawn link joins a source and a target, in that order when directed |
| Generators.DrawnUses | meb/utils/network/generators.py:66-75 | a pass depends only on its own len(top)·len(bottom) draws |
| Generators.RowStep | meb/utils/network/generators.py:68-70 | one inner iteration adds the pair exactly when its draw is below p |
| Singletons.Find | meb/utils/singletonmixin.py:116 | `str.find` returns −1 exactly when the pattern occurs nowhere, else its first position |
| Singletons.AtShift | meb/utils/singletonmixin.py:116 | occurrences after the first character are those of the rest, one position earlier |
| Singletons.InitFailure | meb/utils/singletonmixin.py:115-121 | a `TypeError` whose message contains "__init__() takes" becomes the supply-args-on-first-call error; any other exception propagates unchanged |
| Singletons.Define | meb/utils/singletonmixin.py:165-168 | defining a class refuses a body with `__new__`, and only that |
| Singletons.ForgetShrinks | meb/utils/singletonmixin.py:201-221 | forgetting never gives a class an instance |
| Singletons.BasesShrink | meb/utils/singletonmixin.py:219-221 | telling the bases to forget never gives a class an instance |
| Singletons.ForgetOwn | meb/utils/singletonmixin.py:210-215 | a class with an instance of its own loses exactly that one |
| Singletons.ForgetInherited | meb/utils/singletonmixin.py:216-221 | a class without an instance of its own, with one Singleton base that has one, makes that base lose it |
| Singletons.Restrict | meb/utils/singletonmixin.py:214 | a map cut down to some keys keeps exactly those entries |
| Singletons.RestrictTwice | meb/utils/singletonmixin.py:219-221 | cutting down twice is cutting down to the smaller key set |
| Singletons.Registry.constructor | meb/utils/singletonmixin.py:92-95 | the registry starts empty, with no instances and no `__init__` run |
| Singletons.Registry.Call | meb/utils/singletonmixin.py:170-172 | calling a class directly always raises |
| Singletons.Registry.Add | meb/utils/singletonmixin.py:127-133 | `_add_singleton` registers a class that is not yet registered, nothing else changes |
| Singletons.Registry.Remove | meb/utils/singletonmixin.py:135-141 | `_remove_singleton` drops the class if registered, nothing else changes |
| Singletons.Registry.CreateInstance | meb/utils/singletonmixin.py:106-125 | an instantiated class is left alone; otherwise a new object's `__init__` runs once, and on success the class holds that object and is registered, on failure the error is translated and nothing is registered |
| Singletons.Registry.GetInstance | meb/utils/singletonmixin.py:177-189 | an instantiated class returns its object without running `__init__`, or raises when called with arguments and no `ignore_subsequent`; otherwise the class is created once and gets a new object of its own |
| Singletons.Registry.Forget | meb/utils/singletonmixin.py:201-221 | the class loses its own instance and registry entry, or else its bases forget theirs, in order |
| Singletons.Registry.ForgetBase | meb/utils/singletonmixin.py:219-221 | one base told to forget, from the state the earlier bases left |
| Singletons.Registry.ForgetAll | meb/utils/singletonmixin.py:143-162 | `forget_all_singletons` leaves no instance and an empty registry |
| Clamv.Show | meb/utils/classes.py:138 | `"%d" % n` writes a non-empty string of digits |
| Clamv.ShowValue | meb/utils/classes.py:129-138 | reading back a number written in decimal gives the number |
| Clamv.Lit | meb/utils/classes.py:119-124 | a literal of the pattern matches, case-insensitively, at the start of the text, and the rest follows |
| Clamv.DigitRun | meb/utils/classes.py:120-123 | the run of digits the text starts with lies within the text |
| Clamv.Number | meb/utils/classes.py:121 | `\d+` takes a non-empty run of digits, and that run and the rest make up the text |
| Clamv.SearchLeftmost | meb/utils/classes.py:127 | `search` finds nothing exactly when no position matches, and otherwise the match at the first position that does |
| Clamv.LitRead | meb/utils/classes.py:119-124 | a literal written in any mix of cases is read |
| Clamv.DigitRunRead | meb/utils/classes.py:120-123 | a run of digits followed by a non-digit is read whole |
| Clamv.NumberRead | meb/utils/classes.py:121 | `\d+` reads exactly the digits before a non-digit |
| Clamv.DecimalRead | meb/utils/classes.py:122-123 | `\d+\.\d+` reads a decimal up to the next tag |
| Clamv.NameRead | meb/utils/classes.py:120 | `tlab\d+` or `munch\d+`, in any case, reads as the host of the group |
| Clamv.LoadsRead | meb/utils/classes.py:122-123 | two decimal cells end the pattern |
| Clamv.LastLoadRead | meb/utils/classes.py:123 | the last decimal cell closes the pattern |
| Clamv.CellsRead | meb/utils/classes.py:121-123 | the three cells after the host cell give the CPU digits |
| Clamv.RowMatch | meb/utils/classes.py:119-124 | four adjacent cells (host, integer, decimal, decimal) match the pattern, with the host and CPU digits as its groups |
| Clamv.RowSearch | meb/utils/classes.py:119-127 | such a row is what the search finds on a line whose text before it holds no '<', whatever follows it |
| Clamv.SearchSkip | meb/utils/classes.py:127 | `search` passes over positions where the pattern does not match |
| Clamv.NoOpen | meb/utils/classes.py:119 | no match starts at a character other than '<', in any case |
| Clamv.NameShape | meb/utils/classes.py:120 | whatever the text, a matched name is `tlab` or `munch` in some case, then digits |
| Clamv.DigitRunDigits | meb/utils/classes.py:120-123 | the run the text starts with is all digits |
| Clamv.NumberDigits | meb/utils/classes.py:121 | a matched number is all digits |
| Clamv.MatchShape | meb/utils/classes.py:119-124 | whatever a line holds, a match names a host cell, and the text there is, once case-folded, a row of four adjacent cells: the host (`tlab` or `munch` and digits, its text as the group), the CPU integer as the other group, and two decimals |
| Clamv.MatchRow | meb/utils/classes.py:119-124 | the only-if half of RowMatch: a match is such a four-cell row, with the witnesses returned |
| Clamv.LitFolded | meb/utils/classes.py:119-124 | a literal matched under `re.I` is the literal once folded, and the rest follows |
| Clamv.NumberFolded | meb/utils/classes.py:121 | a matched `\d+` is a cell of digits that folds to itself |
| Clamv.DecimalFolded | meb/utils/classes.py:122-123 | a matched `\d+\.\d+` is two cells of digits around the point |
| Clamv.NameFolded | meb/utils/classes.py:120 | a matched host is, folded, `tlab` or `munch` then digits, and is the text the line starts with |
| Clamv.LastLoadFolded | meb/utils/classes.py:123 | a matched last cell is a decimal and the closing tag |
| Clamv.LoadsFolded | meb/utils/classes.py:122-123 | the matched load cells are two decimals |
| Clamv.CellsFolded | meb/utils/classes.py:121-123 | the matched cells after the host are an integer and two decimals |
| Clamv.ListedConcat | meb/utils/classes.py:126-132 | the hosts of two runs of lines are those of the first, then those of the second: line order is kept |
| Clamv.ListedFrom | meb/utils/classes.py:126-132 | every listed host comes from a line that matches, has a positive CPU count, and names it with the domain appended |
| Clamv.ListedHas | meb/utils/classes.py:126-132 | every such line has its host listed |
| Clamv.ListedNames | meb/utils/classes.py:131-132 | with a pattern that only matches host cells, every listed host is a host cell followed by ".clamv.jacobs-university.de" |
| Clamv.RowPatternNames | meb/utils/classes.py:119-132 | the row pattern lists only host cells with the domain appended, and each listed host comes from a line holding a four-cell row with that host and a positive CPU count |
| Clamv.GivesRow | meb/utils/classes.py:126-132 | a line gives a host only through its leftmost match, a four-cell row with that host and a positive CPU count |
| Clamv.ListedRow | meb/utils/classes.py:126-132 | a listed host comes from a line holding such a row |
| Clamv.ListedRows | meb/utils/classes.py:126-132 | every listed host comes from a line holding such a row |
| Clamv.Remove | meb/utils/classes.py:140-141 | `list.remove(x)` fails exactly when x is absent, and otherwise removes one element |
| Clamv.RemoveFirst | meb/utils/classes.py:140 | removal takes out the first occurrence and keeps the order of the rest |
| Clamv.RemoveMultiset | meb/utils/classes.py:139-142 | removal takes one x out of the bag of hosts; a missing x changes nothing |
| Clamv.PrunedMultiset | meb/utils/classes.py:137-142 | the loop takes one copy of each of tlab032 to tlab035 out of the bag of hosts, the missing ones skipped |
| Clamv.PrunedSubsequence | meb/utils/classes.py:137-142 | the loop only deletes: the remaining hosts keep their order |
| Clamv.SubsequenceTrans | meb/utils/classes.py:137-142 | deleting in several steps is deleting |
| Clamv.DeleteSubsequence | meb/utils/classes.py:140 | deleting one position leaves a subsequence |
| Clamv.GetHosts | meb/utils/classes.py:109-143 | `get_hosts` returns the listed hosts of the lines, in order, with the excluded four taken out |
| Dataframes.Comprehension | meb/utils/dataframes.py:100-108 | a list comprehension over the points, when it succeeds, has one entry per point |
| Dataframes.ComprehensionPointwise | meb/utils/dataframes.py:100-108 | a comprehension succeeds exactly when every point's extraction does, and its k-th entry is the k-th point's extraction |
| Dataframes.ComprehensionConcat | meb/utils/dataframes.py:100-108 | a comprehension over two runs of points is the two comprehensions one after the other |
| Dataframes.Extended | meb/utils/dataframes.py:54-59 | `data[c].extend(items)` on a `defaultdict(list)` makes c present and appends the items to what it held |
| Dataframes.ExtendedOther | meb/utils/dataframes.py:54-59 | extending one column leaves every other column as it was |
| Dataframes.Repeat | meb/utils/dataframes.py:54 | `[label] * n` holds n copies of the label |
| Dataframes.FillOk | meb/utils/dataframes.py:100-101 | filling a block's value columns succeeds exactly when every column's comprehension does |
| Dataframes.FillKeys | meb/utils/dataframes.py:100-101 | a filled block adds its value columns and no other |
| Dataframes.FillColumn | meb/utils/dataframes.py:100-101 | each value column of a filled block grows by its comprehension over the block's points |
| Dataframes.FillOther | meb/utils/dataframes.py:100-101 | a column the block does not fill is left as it was |
| Dataframes.FillPrefix | meb/utils/dataframes.py:100-101 | once a comprehension raises, the rest of the block does not change the outcome |
| Dataframes.InnerPrefix | meb/utils/dataframes.py:97-101 | once an inner entry raises, the rest of the inner dict does not change the outcome |
| Dataframes.ItemsPrefix | meb/utils/dataframes.py:95-105 | once an outer entry raises, the rest of the dict does not change the outcome |
| Dataframes.InnerRuns | meb/utils/dataframes.py:97-99 | every run of an inner dict carries its second label |
| Dataframes.LabelColumn | meb/utils/dataframes.py:98-103 | the label column the runs give has one entry per point |
| Dataframes.BlocksConcat | meb/utils/dataframes.py:95-105 | folding two runs of blocks is folding the first and then the second |
| Dataframes.InnerBlocks | meb/utils/dataframes.py:97-101 | walking an inner dict is folding the blocks of its runs |
| Dataframes.ItemsBlocks | meb/utils/dataframes.py:95-105 | walking the dict is folding the blocks of its runs, inner dicts spelled out |
| Dataframes.BlocksOk | meb/utils/dataframes.py:95-105 | the blocks succeed exactly when every value column's comprehension over all the points does |
| Dataframes.BlocksLast | meb/utils/dataframes.py:95-105 | the fold is the fold of all but the last run followed by the last block |
| Dataframes.ColumnStep | meb/utils/dataframes.py:100-105 | two appended comprehensions are the one comprehension over both runs |
| Dataframes.AppendStep | meb/utils/dataframes.py:98-103 | two appends are one append of both |
| Dataframes.BlockColumn | meb/utils/dataframes.py:100-105 | one block grows each value column by its comprehension over the block's points |
| Dataframes.BlockLabels | meb/utils/dataframes.py:98-103 | one block grows `label` by its label once per point, and `label_2` by its second label when it has one |
| Dataframes.BlocksColumn | meb/utils/dataframes.py:95-105 | after the blocks, each value column holds what it held and then its comprehension over all the points |
| Dataframes.BlocksLabels | meb/utils/dataframes.py:95-105 | after the blocks, `label` holds each run's label once per point and `label_2` each inner run's second label |
| Dataframes.BlockKeys | meb/utils/dataframes.py:98-105 | one block adds its value columns and `label`, and `label_2` when it has a second label |
| Dataframes.HasSecondSnoc | meb/utils/dataframes.py:96-99 | runs have an inner one exactly when the leading runs do or the last one is inner |
| Dataframes.BlocksKeys | meb/utils/dataframes.py:95-105 | afterwards the value columns are present, `label` once there is a run, `label_2` once there is an inner run |
| Dataframes.ConvertedGet | meb/utils/dataframes.py:116-122 | the conversion keeps every column's entries |
| Dataframes.ConvertedKeys | meb/utils/dataframes.py:116-122 | the conversion makes every value column present, as reading a `defaultdict` does |
| Dataframes.ConvertedFull | meb/utils/dataframes.py:116-122 | converting a table that holds every value column changes nothing |
| Dataframes.StandardKinds | meb/utils/dataframes.py:32-372 | the five helpers that accept dicts fill distinct, unlabelled columns that read within their array rows |
| Dataframes.LabelledKinds | meb/utils/dataframes.py:125-150 | the two labelled helpers fill distinct columns, `label` among them, and accept only lists |
| Dataframes.DictOk | meb/utils/dataframes.py:94-105 | a dict is collected exactly when every value column's comprehension over all its points succeeds |
| Dataframes.DictColumn | meb/utils/dataframes.py:94-105 | each value column of a collected dict is its comprehension over all the points, in iteration order |
| Dataframes.DictLabels | meb/utils/dataframes.py:94-105 | `label` holds each point's outer key, `label_2` the inner key of each point of an inner dict |
| Dataframes.DictKeys | meb/utils/dataframes.py:94-123 | a collected dict has every value column, `label` once it has a point run, `label_2` once it has an inner entry |
| Dataframes.SecondLength | meb/utils/dataframes.py:94-105 | `label_2` is never longer than the value columns, and as long when every entry is an inner dict |
| Dataframes.ListOk | meb/utils/dataframes.py:106-108 | a list is collected exactly when every value column's comprehension over it succeeds |
| Dataframes.ListColumn | meb/utils/dataframes.py:106-108 | each column of a collected list is its comprehension over the list, and there are no other columns |
| Dataframes.ListPoint | meb/utils/dataframes.py:106-108 | the entry of a column of a collected list at a point is that point's extraction, and the column has one entry per point |
| Dataframes.WholeComprehension | meb/utils/dataframes.py:60-61 | taking each point whole gives the points back |
| Dataframes.OneDimensionalList | meb/utils/dataframes.py:60-73 | `one_dimensional` stores a list as its `xpos` column and nothing else |
| Dataframes.UncertaintyPoint | meb/utils/dataframes.py:190-196 | for a point (x, y, e, ...), `ymin` holds y − e and `ymax` holds y + e, with one entry per point |
| Dataframes.LabelledRejects | meb/utils/dataframes.py:139-144 | the labelled helpers reject every container but a list with a `ValueError` |
| Dataframes.PickNumberRow | meb/utils/dataframes.py:109-112 | every extraction of a numeric array row of the expected width succeeds |
| Dataframes.ArrayAsList | meb/utils/dataframes.py:109-112 | corrected: an array of the expected shape is collected, column by column, as the list of its rows |
| Dataframes.ArrayBranchUnreachable | meb/utils/dataframes.py:109-115 | as written: an array, or any other container that is neither a dict nor a list, raises `TypeError` at the `isinstance` test instead of being collected or rejected with `ValueError` |
| Dataframes.Columns.constructor | meb/utils/dataframes.py:93 | `defaultdict(list)` starts with no column |
| Dataframes.Columns.Extend | meb/utils/dataframes.py:98-105 | `data[c].extend(items)` |
| Dataframes.Columns.Reassign | meb/utils/dataframes.py:121-122 | `data[c] = numpy.array(data[c])` makes the column present and keeps its entries |
| Dataframes.FillColumns | meb/utils/dataframes.py:100-101 | the loop over the value columns of a block leaves the table `Fill` gives, or returns its failure |
| Dataframes.AddBlock | meb/utils/dataframes.py:98-105 | one run of points adds its labels and then its value columns, as `Block` gives |
| Dataframes.AddInner | meb/utils/dataframes.py:97-101 | the loop over an inner dict leaves the table `InnerItems` gives, or returns its failure |
| Dataframes.AddItems | meb/utils/dataframes.py:95-105 | the loop over the outer dict leaves the table `Items` gives, or returns its failure |
| Dataframes.Convert | meb/utils/dataframes.py:116-122 | the conversion of every value column, in the helper's order, leaves `Converted` |
| Dataframes.Collect | meb/utils/dataframes.py:92-123 | the collection step of a helper as written returns the table it hands on, or what it raises: the dict and list branches as `Collected` gives, and the TypeError of the `isinstance(observables, numpy.array)` test for any other container |

## Left out

- Floating point: every `float` is an exact `real`. NaN and the infinities of `compute_zscore` are the constructors of a result datatype. `numpy.std` is the parameter `std`, tied to the variance by std ≥ 0 and std² = variance, because Dafny has no square root.
- Statistics.ComputeZScore: the spread is given as that standard deviation rather than computed from the ensemble.
- `float_almost_equal`, `power_method` and `norm_uncertain_vector` (meb/utils/mathfuncs.py) and `frequency_distribution`/`probability_distribution` (meb/utils/statistics.py): floating-point numerics and `numpy.histogram`.
- `compute_triad_zscores`, `generate_random_ensemble` and the timing harness of meb/utils/network/subgraphs.py: glue around the census, with printing and timing.
- numpy's random number generator and its `seed`: the draws are parameters `draws` and `uniform`.
- In `randomise`, the choice of a category by a floating-point scan over the cumulative probabilities: the model takes the category draw modulo 2 when both categories have attempts left, and the remaining one otherwise. An iteration in which the scan selects nothing, possible through rounding, is not modelled. The row indices are the draws modulo the group size, standing in for `random_integers`.
- `metabolic_directed_groups`: it reads reaction objects of a metabolic network class that is not part of this model.
- `NetworkRewiring.conditions` is always `check_standard`, and the groups always have arities 1 and 2. The branch for another arity, where an error object is built but not raised, cannot be reached.
- Rewiring.NetworkRewiring.Randomise: requires a directed graph. On an undirected graph every edge would be its own reverse, and the grouping is only meaningful for digraphs. A negative budget returns 0.0, where the source divides 0 by a negative number and returns −0.0.
- `graph_symmetries`: an O(N!) enumeration that refers to an undefined name at meb/utils/network/algorithms.py:35.
- The eigen-decomposition, the adjacency matrix export and the sparse/dense choice of meb/utils/network/algorithms.py. The modularity matrix is an input, and the eigenvector is the result of the solver parameter. The unused parameters `weighted`, `threshold` (undirected variant) and `max_iter` have no counterpart.
- Spectral.Detector.SpectralCommunityDetection: requires a non-negative error margin. With a negative margin, a sign vector that puts every node on one side scores 0, which exceeds the margin, so the same group is queued again forever.
- Spectral.Detector.DirectedSpectralCommunityDetection: requires a non-negative threshold, for the same reason.
- The directed spectral variant divides by m4 = 4m, as the code does, and accumulates into the modularity of the undirected function. The model shares one `Detector.modularity` field between both entry points.
- The locks of meb/utils/singletonmixin.py (`RLock`, threaded creation).
- The instance hook `_prepare_to_forget_singleton`.
- The second sweep and the assertions of `forget_all_singletons`: after the first sweep nothing is left to forget.
- Whether `get_instance` was given arguments, whether the class has `ignore_subsequent`, and how `__init__` ends are parameters of `GetInstance`.
- `CLAMVParser.__init__` fetches the page with `urlopen`: the page's lines are the parameter of `GetHosts`.
- Case-insensitive matching folds ASCII letters only.
- The regular expression is modelled by a hand-written matcher for this one verbose pattern, not by a general regex engine.
- The R side of meb/utils/dataframes.py (`FactorVector`, `DataFrame`) is left out. The model stops at the table of columns handed to it, and the `numpy.array` conversion of a column keeps its entries.
- Dict iteration order is the order of the given sequence of items.
- The array branch is modelled for arrays of numbers of the documented shape. Its `assert` on the shape is a `ShapeMismatch` failure.
- Indexing a text gives a one-character text. Indexing a number raises, as indexing a Python number does.
- Dataframes.SecondLength: not every collected column has the same length. When a dict mixes inner dicts and plain lists, `label_2` is shorter than the other columns, and the lemma bounds its length by the number of points.
- networkx itself: `Graph` holds only what the core reads and writes (kind, name, nodes, the `pop` attribute, edges with multiplicity). Node and edge attributes other than `pop`, and the `top`/`bottom` graph attributes the docstring of `rbp_network` mentions, are not modelled.
- `int(top)` and `int(bottom)` of a non-integer count: counts are integers.
- Python does not specify the iteration order of a set. The model walks both populations of `rbp_network` in ascending label order, which decides which draw each pair receives.
- Everything outside the core: threads and processes (meb/utils/threaded.py, meb/utils/parallel.py), plotting (meb/utils/plots.py), error message formatting (meb/utils/errors.py), the property decorators (meb/utils/decorators.py), the logging options manager of meb/utils/classes.py, `degree_correlation_coefficient`, and setup.py.

## Findings

| source | as written | input that shows it | evidently intended | confidence | as-written member | corrected member |
|---|---|---|---|---|---|---|
| meb/utils/network/generators.py:56-59 | an integer `bottom` is numbered from `len(top)`, even when `top` is a set of labels | `top = [1]`, `bottom = 2`: the top is {1}, the bottom {1, 2}; node 1 ends with `pop` −1, and with every draw below p it gets a self-loop | bottom labels after every top label, so the populations are disjoint (they agree with the code when `top` is a count) | not executed | Generators.WrittenBottomCollides | Generators.CountsDisjoint |
| meb/utils/dataframes.py:62 | `isinstance(observables, numpy.array)` passes a function where a type is expected; the same test recurs in the four other helpers with an array branch | any container that is neither a dict nor a list, e.g. a numpy array of the documented shape or a tuple: `TypeError` is raised | an array of the documented shape is collected column by column like the list of its rows, and any other container is rejected with `ValueError("Wrong data container type!")` | not executed | Dataframes.ArrayBranchUnreachable | Dataframes.ArrayAsList |
