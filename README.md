# NASA space-biology knowledge engine: a Dafny model of its deterministic core

The system serves NASA space-biology publications and Taskbook research
projects to scientists, managers and mission planners. A Python back end
loads the papers and projects. It compares them by text similarity to report
near-duplicate projects, clusters of similar papers and research synergies
across domains. It produces manager analytics (investment recommendations,
red-flag alerts, a budget simulation, emerging areas), research hypotheses and
mission-planning analyses. A Next.js front end pages, filters and sorts the
paper lists and keeps the user's role and selected papers in a store. It also
draws a knowledge graph, builds investment reports from the synergy list and
offers a mission planner and a budget-allocation panel. A JavaScript service
scores mission readiness per research category, and a script answers queries
over a sample dataset.

This project models the logic that sits around the machine-learning and I/O
calls. The similarity matrices, rankings and file contents those calls produce
are inputs. One Dafny module per source file:

| module | file | what it covers |
|---|---|---|
| `SimGraph`, `PairRanking`, `PaperSimilarity` | `paper_similarity_service.py` | the thresholded similarity graph and its components (BFS against reachability), the pair report, chunk grouping, clustering and the analysis summary |
| `Duplication` | `duplication_detector_service.py` | text features, funding parsing, the duplicate pairs, their severity and the summary |
| `CrossDomainText`, `CrossDomainSynergy` | `cross_domain_synergy_agent.py` | `clean_text`, the per-row documents, domain keywords, cross-domain pairs, top synergies, the domain network, the heatmap and the domain statistics |
| `DataProcessor`, `DomainSynergy` | `data_processor.py` | domain assignment, investment recommendations, red-flag alerts, budget simulation, emerging areas and the cross-domain synergy report |
| `MainApi` | `main.py` | paging, chunk combination, relevance search, the duration rule, mission request validation, feasibility, risks and recommendations |
| `HypothesisGenerator` | `hypothesis_generator.py` | PMC ids, title domains, the stored-then-generated hypothesis choice, confidence formulas, method combinations, trends, gaps and custom hypotheses |
| `MissionReadiness` | `missionReadinessService.js` | category mapping, category scores, design implications, top findings and the readiness index |
| `LoadSample` | `load_sample.js` | the loading fallback, the lookups and the dataset statistics |
| `Pagination`, `AppStore`, `DashboardBreadcrumb` | `pagination.tsx`, `appStore.ts`, `dashboard-breadcrumb.tsx` | the page counters and button strip, the selection store and the breadcrumb trail |
| `KnowledgeGraph`, `SynergyPage`, `MissionPlanner`, `ManagerDashboard`, `PaperLists` | the front-end pages and components | the intra-paper relation graph and view filters, the synergy investment report, the mock mission analysis, the budget-allocation helpers, and the paper filters and sorts |
| `InvestmentReport` | `investment_report_generator.py` | value and percentage formatting, synergy summaries and the lines of each report section |
| `Text`, `Numeric`, `JsNumber`, `JsObject`, `Sorting`, `Wrappers` | (shared) | strings, Python and JavaScript rounding and number parsing, JavaScript objects used as dictionaries (inherited names, key order), the stable sort with its filter and count helpers, and `Option`/`Result` |

The source's loops and state follow its own form. The services and the store
are classes whose methods update their fields. The loops are `while` loops
proved against specification functions. The pure helpers are functions, and
lemmas state their properties. `togglePaperSelection` of the knowledge graph
is `AppStore.Toggle`, whose lemmas cover it.

## Model

| member | source | states |
|---|---|---|
| PaperSimilarity.AppendTo | nasa_project/cursor-back/paper_similarity_service.py:73 | the chosen field gains the text at its end and every other field is unchanged |
| PaperSimilarity.Updated | nasa_project/cursor-back/paper_similarity_service.py:72-75 | a collected non-title section gains ' ' + text; a title chunk overwrites the title; other fields are unchanged |
| PaperSimilarity.GroupChunks | nasa_project/cursor-back/paper_similarity_service.py:51-79 | the reading loop gives the grouping of the lines |
| PaperSimilarity.GroupSpec | nasa_project/cursor-back/paper_similarity_service.py:51-79 | loading fails exactly when some line raises (a decoded value that is not an object, a non-string section, an unhashable paper id, or a non-string text for a collected section); otherwise every paper mentioned appears once, in first-mention order, each non-title field is the concatenation of ' ' + text over its chunks in file order, and the title is that of the last title chunk |
| PaperSimilarity.GroupKeys | nasa_project/cursor-back/paper_similarity_service.py:62-70 | every paper in the insertion order has an entry |
| PaperSimilarity.MergedTextEmptyIff | nasa_project/cursor-back/paper_similarity_service.py:85 | the merged text is empty exactly when all five fields are empty |
| PaperSimilarity.LoadedPapersSpec | nasa_project/cursor-back/paper_similarity_service.py:84-103 | the kept papers are the merged ones whose stripped text is longer than 50 characters, and none carries a funding amount |
| PaperSimilarity.LoadResult | nasa_project/cursor-back/paper_similarity_service.py:42-109 | no papers exactly when some line raises |
| PaperSimilarity.JsonValueLines | nasa_project/cursor-back/paper_similarity_service.py:56-79 | the numeric paper ids 5 and 6 stay two papers, while a line holding a JSON array, or an object whose paper id is an array, makes the load fail |
| PaperSimilarity.RawSumNone | nasa_project/cursor-back/paper_similarity_service.py:246 | the savings sum raises exactly when one of the summed values is a string |
| PaperSimilarity.ClusterAverageBounds | nasa_project/cursor-back/paper_similarity_service.py:218-225 | the average over a cluster lies, up to the rounding to three places, between the smallest and the largest member-pair similarity |
| PaperSimilarity.MembersComponent | nasa_project/cursor-back/paper_similarity_service.py:214-217 | every label class is a component whose first member is its representative |
| PaperSimilarity.ClusterStep | nasa_project/cursor-back/paper_similarity_service.py:214-248 | one iteration appends the cluster of a class of two or more nodes, numbered by its position, and skips smaller classes |
| PaperSimilarity.BuildClusters | nasa_project/cursor-back/paper_similarity_service.py:214-250 | the loop over the components gives, in class order, one numbered cluster per class of two or more nodes; nothing when a savings sum raises |
| PaperSimilarity.ClusterAt | nasa_project/cursor-back/paper_similarity_service.py:214-248 | each cluster is a component, with id, size, average and savings built as the source builds them |
| PaperSimilarity.BigClass | nasa_project/cursor-back/paper_similarity_service.py:215 | a class of two or more members holds an edge, and every node with an edge lies in such a class |
| PaperSimilarity.BigEmptyIff | nasa_project/cursor-back/paper_similarity_service.py:215 | there is no class of two or more members exactly when there is no edge |
| PaperSimilarity.BadIffRaises | nasa_project/cursor-back/paper_similarity_service.py:246 | some class raises in its savings sum exactly when the matrix's savings sums raise |
| PaperSimilarity.FoldMeetsSpec | nasa_project/cursor-back/paper_similarity_service.py:194-250 | the clusters built over a labelling of the components are exactly the components of two or more nodes, numbered 1, 2, 3 in order of smallest member, covering exactly the nodes with an edge |
| PaperSimilarity.SharedComponent | nasa_project/cursor-back/paper_similarity_service.py:214 | two components sharing a node have the same smallest member |
| PaperSimilarity.ClustersDisjoint | nasa_project/cursor-back/paper_similarity_service.py:214-248 | clusters at two different positions share no member |
| PaperSimilarity.ComponentRefines | nasa_project/cursor-back/paper_similarity_service.py:204-214 | a component at a higher threshold lies inside the lower threshold's component of any of its members |
| PaperSimilarity.ClusterIffEndpoint | nasa_project/cursor-back/paper_similarity_service.py:329-345 | with one threshold and no raising savings sum, a node is in some cluster exactly when it is an endpoint of some reported pair |
| PaperSimilarity.UnfundedPairsLow | nasa_project/cursor-back/paper_similarity_service.py:273-284 | where every funding is 0, every reported pair has savings 0 and severity Low |
| PaperSimilarity.RawFundingsUnfunded | nasa_project/cursor-back/paper_similarity_service.py:86-94 | papers without a funding_amount read as funding 0 |
| PaperSimilarity.LoadedPairsLow | nasa_project/cursor-back/paper_similarity_service.py:84-103 | the loaded JSONL papers carry no funding, so all their pairs are Low |
| PaperSimilarity.ChainComponent | nasa_project/cursor-back/paper_similarity_service.py:204-215 | on a three-paper chain at threshold 0.8, the three papers form one component |
| PaperSimilarity.ChainAverage | nasa_project/cursor-back/paper_similarity_service.py:218-225 | that cluster's average similarity is 0.6, below the threshold, because the average counts every member pair and not only the edges |
| PaperSimilarity.PaperSimilarityService.constructor | nasa_project/cursor-back/paper_similarity_service.py:19-24 | the service starts with no papers and no matrix, which is trivially current |
| PaperSimilarity.PaperSimilarityService.LoadProjectsJsonl | nasa_project/cursor-back/paper_similarity_service.py:42-109 | on an exception nothing changes and the load fails; otherwise the papers are the kept merged ones and the load succeeds exactly when there is one; the matrix is kept, possibly stale, and stays square over loaded papers |
| PaperSimilarity.PaperSimilarityService.PrepareSimilarityAnalysis | nasa_project/cursor-back/paper_similarity_service.py:157-192 | succeeds exactly when papers are loaded and a matrix was produced (the vectoriser raising on an empty vocabulary is caught as failure), and then stores the matrix, current for the papers; on failure the matrix is unchanged |
| PaperSimilarity.PaperSimilarityService.FindSimilarPapers | nasa_project/cursor-back/paper_similarity_service.py:256-312 | no pairs without a matrix; otherwise the pairs at the threshold over the current papers, which with a current matrix are exactly the reported pairs, and an error when a stale matrix smaller than two or more papers is indexed past its end |
| PaperSimilarity.PaperSimilarityService.ClusterPapers | nasa_project/cursor-back/paper_similarity_service.py:194-254 | no clusters without a matrix or when a stale matrix is indexed past its end (the error is caught); otherwise the clusters the cluster specification describes over the current papers, and with a current matrix over the whole matrix |
| PaperSimilarity.PaperSimilarityService.GetPaperSimilarityAnalysis | nasa_project/cursor-back/paper_similarity_service.py:325-369 | failure exactly when finding the pairs raised, which never happens with a current matrix; otherwise pair totals, breakdown, savings, average and the first ten pairs; clusters only when clustering is asked for; total_clusters the number of clusters; the threshold used |
| PaperSimilarity.AnalysisBreakdownTotal | nasa_project/cursor-back/paper_similarity_service.py:341-350 | the severity counts of an analysis add up to its number of pairs |
| PaperSimilarity.StaleMatrixFails | nasa_project/cursor-back/paper_similarity_service.py:256-267 | a matrix left over from fewer papers makes finding the pairs raise once two or more papers are loaded |
| SimGraph.CandidatePairsExact | nasa_project/cursor-back/paper_similarity_service.py:204-208 | the graph's edges are exactly the (i, j), i < j, with sim[i][j] at or above the threshold |
| SimGraph.CandidatePairsMonotone | nasa_project/cursor-back/paper_similarity_service.py:204-208 | raising the threshold can only remove edges |
| SimGraph.ReachSym | nasa_project/cursor-back/paper_similarity_service.py:204-214 | reachability in the undirected graph is symmetric |
| SimGraph.ReachTrans | nasa_project/cursor-back/paper_similarity_service.py:204-214 | reachability is transitive |
| SimGraph.ReachMonotone | nasa_project/cursor-back/paper_similarity_service.py:204-214 | raising the threshold never merges components |
| SimGraph.ReachOtherIffEdge | nasa_project/cursor-back/paper_similarity_service.py:214-215 | a node reaches another node exactly when it has an edge |
| SimGraph.ClosedReach | nasa_project/cursor-back/paper_similarity_service.py:214 | a class closed under edges contains everything reachable from its members |
| SimGraph.ScanNeighbours | nasa_project/cursor-back/paper_similarity_service.py:214 | visiting u's neighbours keeps the search invariant: every labelled node is reached from s, every neighbour of a finished node is labelled, and nodes labelled before stay labelled |
| SimGraph.VisitNeighbour | nasa_project/cursor-back/paper_similarity_service.py:214 | one neighbour step keeps the scanning invariant, labelling and queueing an unvisited neighbour |
| SimGraph.Explore | nasa_project/cursor-back/paper_similarity_service.py:214 | breadth-first search from s labels with c exactly the unlabelled nodes that s reaches, leaving earlier labels alone |
| SimGraph.VisitNode | nasa_project/cursor-back/paper_similarity_service.py:214 | one pass of the component loop keeps the labelling invariant one node further |
| SimGraph.Components | nasa_project/cursor-back/paper_similarity_service.py:214 | every node gets a component number; two nodes share one exactly when one reaches the other; component k's representative is its smallest node, and components come in the order of their smallest nodes |
| SimGraph.MembersExact | nasa_project/cursor-back/paper_similarity_service.py:216-217 | the listed members of a class are exactly the nodes labelled with it |
| PairRanking.CalculateSeverity | nasa_project/cursor-back/paper_similarity_service.py:314-323 | the severity is at least Critical, High or Medium exactly when both of that level's inclusive thresholds (0.9/100000, 0.8/50000, 0.7/10000) are met; the same table as duplication_detector_service.py:158-167 |
| PairRanking.SeverityMonotone | nasa_project/cursor-back/paper_similarity_service.py:314-323 | a more similar pair with at least the same savings is never less severe |
| PairRanking.ParseFloatDigits | nasa_project/cursor-back/paper_similarity_service.py:278 | a plain run of digits parses to its decimal value |
| PairRanking.ParseFloatDecimal | nasa_project/cursor-back/paper_similarity_service.py:278 | parsing the decimal digits of an integer amount gives the amount back |
| PairRanking.FundingPair | nasa_project/cursor-back/paper_similarity_service.py:274-284 | both fundings parsed when both parse; both 0 when either conversion raises |
| PairRanking.ParseFundingDollars | nasa_project/cursor-back/paper_similarity_service.py:277-280 | a '$'-prefixed amount parses, once the '$' and ',' are removed, to its value |
| PairRanking.MakeRecord | nasa_project/cursor-back/paper_similarity_service.py:268-309 | the record of (i, j) carries the two indices, the score rounded to three places and savings min(funding_1, funding_2) |
| PairRanking.ReportedPairsSorted | nasa_project/cursor-back/paper_similarity_service.py:311 | the report is ordered by rounded score, highest first |
| PairRanking.ReportedPairsStable | nasa_project/cursor-back/paper_similarity_service.py:311 | pairs with the same rounded score keep the loop order, since the sort is stable |
| PairRanking.ReportedPairsExact | nasa_project/cursor-back/paper_similarity_service.py:264-311 | (i, j) is reported, with its record, exactly when i < j and sim[i][j] reaches the threshold |
| PairRanking.ReportedRecordShape | nasa_project/cursor-back/paper_similarity_service.py:264-309 | every reported record is the loop body's record of a thresholded pair |
| PairRanking.ReportedPairsMonotone | nasa_project/cursor-back/paper_similarity_service.py:264-311 | a higher threshold reports a subset of the pairs |
| PairRanking.ScanRow | nasa_project/cursor-back/paper_similarity_service.py:265-309 | the inner loop over j > i appends the records of row i's thresholded pairs |
| PairRanking.RowRecordsStep | nasa_project/cursor-back/paper_similarity_service.py:265-309 | column j adds the record of (i, j) exactly when sim[i][j] reaches the threshold |
| PairRanking.FindPairs | nasa_project/cursor-back/paper_similarity_service.py:264-312 | the nested loops and the sort give the reported pairs; shared with duplication_detector_service.py:104-154 |
| PairRanking.CountOf | nasa_project/cursor-back/paper_similarity_service.py:342-343 | a severity is counted at most once per pair |
| PairRanking.CountSeveritiesTotal | nasa_project/cursor-back/paper_similarity_service.py:341-343 | every pair is counted under exactly one severity, so the counts add up to the number of pairs |
| PairRanking.Tally | nasa_project/cursor-back/paper_similarity_service.py:342-343 | the counting loop gives the severity breakdown |
| PairRanking.AverageScoreAtLeast | nasa_project/cursor-back/paper_similarity_service.py:345 | with any pair reported at threshold t, the average score is at least t rounded to three places |
| Duplication.CombinedBlankIff | nasa_project/cursor-back/duplication_detector_service.py:67-76 | a row's combined text strips to empty exactly when all five text fields are blank |
| Duplication.KeptRowsSpec | nasa_project/cursor-back/duplication_detector_service.py:67-79 | a row is kept exactly when its combined text is not blank, in order |
| PairRanking.FundingsOrZero | nasa_project/cursor-back/duplication_detector_service.py:113-114 | one funding per row, 0 where the row has no funding_amount |
| PairRanking.Block | nasa_project/cursor-back/duplication_detector_service.py:100-106 | the matrix entries the loops read for the first n rows |
| Duplication.Summarize | nasa_project/cursor-back/duplication_detector_service.py:169-197 | without duplicates every total is 0 and there is no top list; otherwise the top list is the first five, the breakdown counts add up to the total and the total savings sum the pairs' savings |
| Duplication.SummarizeAverage | nasa_project/cursor-back/duplication_detector_service.py:184-193 | the average is the rounded mean score and the breakdown counts each severity |
| Duplication.DuplicationDetector.constructor | nasa_project/cursor-back/duplication_detector_service.py:16-19 | the detector starts with no frame and no matrix |
| Duplication.DuplicationDetector.LoadTaskbookData | nasa_project/cursor-back/duplication_detector_service.py:21-58 | succeeds exactly when a CSV was read, and then holds its frame; the matrix is untouched |
| Duplication.DuplicationDetector.PrepareTextFeatures | nasa_project/cursor-back/duplication_detector_service.py:60-94 | without a frame or its text columns it fails and changes nothing; otherwise the frame keeps its non-blank rows, and the step succeeds and stores the matrix exactly when some row is left and the vectoriser does not raise (an empty vocabulary is caught and reported as failure) |
| Duplication.DuplicationDetector.DetectDuplicates | nasa_project/cursor-back/duplication_detector_service.py:96-156 | no duplicates without a matrix; otherwise the reported pairs at the threshold, or nothing when the frame outgrows the matrix and indexing raises |
| Duplication.DuplicationDetector.GetDuplicationSummary | nasa_project/cursor-back/duplication_detector_service.py:169-197 | the empty summary without a matrix; otherwise the summary of the duplicates, or nothing when detection raises |
| Duplication.DuplicationDetector.GetDuplicationAnalysis | nasa_project/cursor-back/duplication_detector_service.py:210-224 | success exactly when there is data, then with the threshold used; failure carries neither |
| Duplication.PreparedSummary | nasa_project/cursor-back/duplication_detector_service.py:96-197 | with the matrix of the current rows the summary exists and reports (u, v) exactly when u < v and sim[u][v] reaches the threshold |
| Duplication.StaleMatrixFails | nasa_project/cursor-back/duplication_detector_service.py:104-115 | a matrix smaller than a frame of two rows or more makes the summary raise |
| Duplication.InitializeDuplicationDetector | nasa_project/cursor-back/duplication_detector_service.py:200-208 | succeeds exactly when a CSV with its text columns and a non-blank row was read and the vectoriser did not raise, and then holds the matrix; a read CSV is stored as read when it lacks the text columns and as its kept rows otherwise, no CSV leaves the frame as it was, and every failure leaves the matrix as it was |
| PairRanking.SimilarPairsSpec | nasa_project/cursor-back/duplication_detector_service.py:96-110 | with a matrix of the current rows the scan reports exactly the ranked pairs; it raises exactly when two or more rows outgrow the matrix |
| CrossDomainText.BlankPunctuation | nasa_project/cross_domain_synergy_agent.py:165 | same length; every character that is neither a word character nor whitespace becomes a space, every other is kept |
| CrossDomainText.CollapsePlainSpaces | nasa_project/cross_domain_synergy_agent.py:166 | after collapsing, the only whitespace left is the plain space |
| CrossDomainText.CollapseFromInput | nasa_project/cross_domain_synergy_agent.py:166 | every non-space character left by collapsing comes from the input |
| CrossDomainText.CollapseSingle | nasa_project/cross_domain_synergy_agent.py:166 | no two whitespace characters are adjacent after collapsing |
| CrossDomainText.StripSlice | nasa_project/cross_domain_synergy_agent.py:168 | the stripped text is a contiguous piece of the input |
| CrossDomainText.CleanTextTidy | nasa_project/cross_domain_synergy_agent.py:156-168 | a cleaned text has no upper-case letter, no punctuation, only single plain spaces and none at either end; a missing value gives "" |
| CrossDomainText.CleanTextIdempotent | nasa_project/cross_domain_synergy_agent.py:156-168 | cleaning a cleaned text changes nothing |
| CrossDomainText.DocumentTidy | nasa_project/cross_domain_synergy_agent.py:173-179 | a document whose five fields are all non-empty after cleaning is itself a clean text |
| CrossDomainText.DocumentEmptyTitle | nasa_project/cross_domain_synergy_agent.py:173-179 | an empty title leaves the document starting with a space |
| CrossDomainText.PreprocessTexts | nasa_project/cross_domain_synergy_agent.py:170-184 | one document per row, each the cleaned title, abstract, methods, results and conclusion joined by spaces |
| CrossDomainText.KeywordScore | nasa_project/cross_domain_synergy_agent.py:127 | the score is at most the number of keywords, and positive exactly when some keyword occurs in the text |
| CrossDomainText.DomainScores | nasa_project/cross_domain_synergy_agent.py:125-128 | one score per domain of the keyword table, in table order |
| CrossDomainText.FirstMax | nasa_project/cross_domain_synergy_agent.py:132 | the position of the largest score, the earliest among equal scores |
| CrossDomainText.PickSpec | nasa_project/cross_domain_synergy_agent.py:131-135 | the fallback name exactly when every score is zero; otherwise the name of the entry with the largest score, the earliest on a tie |
| CrossDomainText.DomainNamesNotOther | nasa_project/cross_domain_synergy_agent.py:87-117 | no domain of the table is called "Other" |
| CrossDomainText.AssignDomainSpec | nasa_project/cross_domain_synergy_agent.py:122-135 | "Other" exactly when no keyword of any domain occurs in the lower-cased title and abstract; otherwise the domain with the most matching keywords, the earliest on a tie |
| CrossDomainText.ScoreDomains | nasa_project/cross_domain_synergy_agent.py:125-128 | the inner loop computes the domain scores |
| CrossDomainText.ClassifyRow | nasa_project/cross_domain_synergy_agent.py:122-135 | one row's domain is the one the scores pick |
| CrossDomainText.ExtractDomains | nasa_project/cross_domain_synergy_agent.py:74-145 | the loop over the rows gives every row its domain, in row order |
| CrossDomainSynergy.SynergiesSorted | nasa_project/cross_domain_synergy_agent.py:249-252 | the synergy rows are sorted by similarity score, highest first |
| CrossDomainSynergy.SynergyShape | nasa_project/cross_domain_synergy_agent.py:226-247 | every synergy row is a pair i < j whose similarity reaches the threshold and whose projects lie in two different valid domains |
| CrossDomainSynergy.SynergiesExact | nasa_project/cross_domain_synergy_agent.py:219-252 | the pair (i, j) is reported exactly when i < j, the similarity reaches the threshold and the two domains differ and are both valid |
| CrossDomainSynergy.NoCandidatesNoSynergies | nasa_project/cross_domain_synergy_agent.py:226-249 | without a pair reaching the threshold there is no synergy |
| CrossDomainSynergy.RowSynergiesRecords | nasa_project/cross_domain_synergy_agent.py:227-247 | the inner loop's pairs for row i are the records of its qualifying columns |
| CrossDomainSynergy.ScanRow | nasa_project/cross_domain_synergy_agent.py:227-247 | the inner loop over j > i appends exactly the row's qualifying pairs |
| CrossDomainSynergy.ScanCell | nasa_project/cross_domain_synergy_agent.py:228-247 | one inner iteration appends the pair (i, j) exactly when it qualifies |
| CrossDomainSynergy.CollectSynergies | nasa_project/cross_domain_synergy_agent.py:217-252 | the nested loops followed by the sort give the synergy table |
| CrossDomainSynergy.NetworkSpec | nasa_project/cross_domain_synergy_agent.py:316-330 | the network has an edge for exactly the domain pairs among the top rows; its count is the number of rows joining them and its weight lies between the smallest and the largest of their scores |
| CrossDomainSynergy.NetworkWithinNodes | nasa_project/cross_domain_synergy_agent.py:310-330 | edges only join valid domains, so adding an edge adds no node |
| CrossDomainSynergy.BuildNetwork | nasa_project/cross_domain_synergy_agent.py:319-330 | the edge loop over the top rows builds the network |
| CrossDomainSynergy.HeatSymmetric | nasa_project/cross_domain_synergy_agent.py:391-392 | the heatmap is symmetric |
| CrossDomainSynergy.HeatCellIsMinimum | nasa_project/cross_domain_synergy_agent.py:386-395 | off the diagonal, a cell of two joined domains holds the smallest score among the rows joining them, since the rows come highest first and the last write wins |
| CrossDomainSynergy.HeatStep | nasa_project/cross_domain_synergy_agent.py:386-392 | one iteration writes the row's score at both of its cells |
| CrossDomainSynergy.BuildHeatmap | nasa_project/cross_domain_synergy_agent.py:383-395 | the heatmap has a cell for every pair of assigned domains, holding 0 on the diagonal and otherwise the score of the last row joining its two domains (0 if none) |
| CrossDomainSynergy.DomainStatisticsRows | nasa_project/cross_domain_synergy_agent.py:417-438 | every statistics row belongs to a valid domain and every valid domain has a row |
| CrossDomainSynergy.DomainStatisticsDistinct | nasa_project/cross_domain_synergy_agent.py:419-436 | no domain has two rows |
| CrossDomainSynergy.DomainStatisticsSpec | nasa_project/cross_domain_synergy_agent.py:406-438 | each valid domain has exactly one row, the rows are sorted by synergy count, and each holds its domain's project count, synergy count, average and maximum score |
| CrossDomainSynergy.EmptyStatistics | nasa_project/cross_domain_synergy_agent.py:427-428 | without synergy pairs there is one row per valid domain, each with no synergies and zero scores |
| CrossDomainSynergy.DomainStatisticsCrash | nasa_project/cross_domain_synergy_agent.py:413-438 | two projects in two different domains and no qualifying pair: the code as written raises `KeyError: 'Domain_A'`, while the intended table has a zero row for each domain |
| CrossDomainSynergy.TwoValidDomains | nasa_project/cross_domain_synergy_agent.py:220-221 | with a minimum size of one, two projects in two different domains make both domains valid |
| CrossDomainSynergy.SynergyAgent.constructor | nasa_project/cross_domain_synergy_agent.py:32-56 | the agent starts with its threshold, minimum domain size, rows, similarity input and whether fitting the vectoriser raises, and nothing computed |
| CrossDomainSynergy.SynergyAgent.ExtractDomains | nasa_project/cross_domain_synergy_agent.py:74-145 | sets the domain mapping of the rows; nothing else changes |
| CrossDomainSynergy.SynergyAgent.PreprocessText | nasa_project/cross_domain_synergy_agent.py:147-184 | sets one processed document per row; nothing else changes |
| CrossDomainSynergy.SynergyAgent.ComputeSimilarities | nasa_project/cross_domain_synergy_agent.py:186-203 | succeeds exactly when texts were preprocessed and the vectoriser can be fitted, and then stores the similarity matrix; a fit that raises (an empty vocabulary) leaves the matrix unset |
| CrossDomainSynergy.SynergyAgent.FindCrossDomainSynergies | nasa_project/cross_domain_synergy_agent.py:205-257 | computes the matrix first when missing; fails when that fails (no preprocessed texts, or a vectoriser that cannot be fitted), or when domains were not extracted and some pair reaches the threshold; otherwise stores the synergy table |
| CrossDomainSynergy.SynergyAgent.GetTopSynergies | nasa_project/cross_domain_synergy_agent.py:259-272 | finds the synergies first if there are none; returns the first n rows |
| CrossDomainSynergy.SynergyAgent.PairsUseValidDomains | nasa_project/cross_domain_synergy_agent.py:235-238 | every stored synergy row names valid domains of the current mapping |
| CrossDomainSynergy.SynergyAgent.CreateDomainNetwork | nasa_project/cross_domain_synergy_agent.py:293-332 | the nodes are the valid domains, the edges the network of the top n rows, and every edge joins two nodes |
| CrossDomainSynergy.SynergyAgent.CreateSynergyHeatmap | nasa_project/cross_domain_synergy_agent.py:372-395 | the matrix covers the assigned domains; fails when no domain mapping exists |
| CrossDomainSynergy.SynergyAgent.GetDomainStatistics | nasa_project/cross_domain_synergy_agent.py:406-438 | the corrected domain statistics of the stored synergy table |
| DataProcessor.FirstMatching | nasa_project/cursor-back/data_processor.py:73-77 | the position of the first domain with a keyword in the text, the table length when there is none |
| DataProcessor.AssignDomainSpec | nasa_project/cursor-back/data_processor.py:64-77 | "Other" exactly when no keyword of any domain occurs in the lower-cased title, abstract, methods and results; otherwise the first domain in table order with a keyword there |
| DataProcessor.AssignDomainIgnoresConclusion | nasa_project/cursor-back/data_processor.py:66-71 | changing the Conclusion column never changes the domain |
| DataProcessor.Studies | nasa_project/cursor-back/data_processor.py:21-48 | one study per CSV row, carrying its domain and its given fiscal year, funding and ROI |
| DataProcessor.RecentFiveWithinSeven | nasa_project/cursor-back/data_processor.py:42-43 | a project of the last five years is also one of the last seven |
| DataProcessor.CountWhereAtMost | nasa_project/cursor-back/data_processor.py:178-182 | a domain has no more rows satisfying a condition than rows in all |
| DataProcessor.RoisOf | nasa_project/cursor-back/data_processor.py:122 | one ROI per row of the domain |
| DataProcessor.IndexOfMin | nasa_project/cursor-back/data_processor.py:125 | the first position holding the smallest count |
| DataProcessor.IndexOfMax | nasa_project/cursor-back/data_processor.py:126 | the first position holding the largest count |
| DataProcessor.RecommendationTargets | nasa_project/cursor-back/data_processor.py:120-130 | without recent projects the increase goes to "Other" and the decrease to "Plants", both with count 0; otherwise the increase goes to a least studied recent domain and the decrease to a most studied one, each with its recent count |
| DataProcessor.RecommendationAmounts | nasa_project/cursor-back/data_processor.py:132-157 | expected outcomes floor(1.5u) and floor(0.75o), investment 50000u, savings 12500o, net 50000u - 12500o, the fixed +50 and -25 and the domains' mean ROIs |
| DataProcessor.DomainAlertSpec | nasa_project/cursor-back/data_processor.py:177-198 | an alert exactly when the seven-year count is below the threshold; CRITICAL exactly below half of it, urgency following the level; suggested increase max(threshold - recent, 5), at 50000 per study |
| DataProcessor.AppendAlert | nasa_project/cursor-back/data_processor.py:177-198 | one iteration appends the domain's alert when there is one |
| DataProcessor.DomainAlertDomain | nasa_project/cursor-back/data_processor.py:188-189 | the alert of a domain names that domain |
| DataProcessor.AlertsBeforeDomains | nasa_project/cursor-back/data_processor.py:177-198 | the first k critical domains raise an alert exactly when they are below their thresholds |
| DataProcessor.AlertsBeforeHas | nasa_project/cursor-back/data_processor.py:177-198 | the alert of each of the first k domains is among their alerts |
| DataProcessor.AlertsBeforeOwn | nasa_project/cursor-back/data_processor.py:177-198 | every alert of the first k domains is the alert of its own domain |
| DataProcessor.AlertsBeforeOrdered | nasa_project/cursor-back/data_processor.py:170-198 | the alerts come in table order |
| DataProcessor.RedFlagAlertsSpec | nasa_project/cursor-back/data_processor.py:161-200 | over a non-empty frame a domain has an alert exactly when it is a critical domain below its threshold; every alert is its domain's; the order is Radiation, Psychology, Plants, Human Physiology; no alerts for an empty frame |
| DataProcessor.BudgetSimulationCases | nasa_project/cursor-back/data_processor.py:202-241 | no data exactly for an empty frame; the not-found error exactly for a domain without projects; otherwise the simulation of that domain's count, funding and ROI |
| DataProcessor.SimulationSpec | nasa_project/cursor-back/data_processor.py:211-239 | projected count truncates count * (1 + adj/100), the ROI stays, a positive difference is charged and a negative one credited at 50000 per study, never both |
| DataProcessor.SimulationUnchanged | nasa_project/cursor-back/data_processor.py:216-237 | an adjustment of 0 changes no count and no funding and costs and saves nothing |
| DataProcessor.SimulationMonotone | nasa_project/cursor-back/data_processor.py:216 | a cut of at most 100% never projects a negative count, and a larger adjustment never projects fewer studies |
| DataProcessor.StatusPotential | nasa_project/cursor-back/data_processor.py:257-265 | a HIGH potential implies GROWING, and DECLINING implies LOW |
| DataProcessor.EmergingRows | nasa_project/cursor-back/data_processor.py:252-266 | one entry per recent domain, in value_counts order |
| DataProcessor.EmergingAreasShape | nasa_project/cursor-back/data_processor.py:243-270 | five areas, or one per distinct recent domain when there are fewer, largest growth first, none exactly when the frame or its recent projects are empty |
| DataProcessor.EmergingAreasDistinct | nasa_project/cursor-back/data_processor.py:249-266 | no domain is listed as two areas |
| DataProcessor.EmergingAreasMaximal | nasa_project/cursor-back/data_processor.py:268-270 | a recent domain left out of the areas has a rounded growth no higher than that of any area listed |
| DataProcessor.EmergingAreasEntries | nasa_project/cursor-back/data_processor.py:252-266 | every area is a recent domain with its recent and total counts, its growth (recent share minus total share, rounded to 2 places) and the status and potential of that growth |
| DataProcessor.SynergyDomains | nasa_project/cursor-back/data_processor.py:350 | at most eight domains |
| DataProcessor.SynergyDomainsSpec | nasa_project/cursor-back/data_processor.py:350 | a non-empty frame has one to eight synergy domains, distinct values of its domain column |
| DataProcessor.CrossDomainSynergyMaximal | nasa_project/cursor-back/data_processor.py:342-387 | over a non-empty frame a pair of synergy domains left out of the five listed scores no higher than any listed pair |
| DataProcessor.CrossDomainSynergySpec | nasa_project/cursor-back/data_processor.py:342-387 | the default payload for an empty frame; otherwise k(k-1)/2 pairs of k distinct domains, high-potential pairs at most the collaboration opportunities, exactly five listed or all pairs when there are fewer, highest first, each priced 50000 + 3000 times its score |
| DataProcessor.DynamicDataProcessor.constructor | nasa_project/cursor-back/data_processor.py:11-15 | the processor loads at once; a failed read leaves an empty frame |
| DataProcessor.DynamicDataProcessor.LoadData | nasa_project/cursor-back/data_processor.py:17-62 | the frame is the studies of the CSV rows, or empty when reading fails |
| DataProcessor.DynamicDataProcessor.GetRedFlagAlerts | nasa_project/cursor-back/data_processor.py:161-200 | the loop returns the red-flag alerts of the frame |
| DataProcessor.DynamicDataProcessor.GetCrossDomainSynergy | nasa_project/cursor-back/data_processor.py:342-387 | returns the cross-domain synergy report of the frame |
| DomainSynergy.Lookup | nasa_project/cursor-back/data_processor.py:405-412 | a score is found exactly when the ordered pair is listed, and it is the listed score |
| DomainSynergy.TableHasNoReversedPairs | nasa_project/cursor-back/data_processor.py:392-403 | no pair is listed in both orders |
| DomainSynergy.DomainSynergySymmetric | nasa_project/cursor-back/data_processor.py:389-420 | the score does not depend on the order of the two domains |
| DomainSynergy.DomainSynergyCases | nasa_project/cursor-back/data_processor.py:405-420 | a listed pair gets its table score in either order; an unlisted pair gets 70 when both names contain "Human", else 65 when both contain "Plant", else 55 |
| DomainSynergy.TableKeysDistinct | nasa_project/cursor-back/data_processor.py:392-403 | each ordered pair is listed at most once |
| DomainSynergy.DomainSynergyRange | nasa_project/cursor-back/data_processor.py:389-420 | every score lies between 50 and 90 |
| DomainSynergy.SharedResourceList | nasa_project/cursor-back/data_processor.py:422-435 | the three base resources come first; a fourth exactly when either name contains Human, Plant, Microbe or Radiation |
| DomainSynergy.SharedResources | nasa_project/cursor-back/data_processor.py:422-435 | the extending appends followed by the cut at four give the shared resource list |
| DomainSynergy.SynergyBenefits | nasa_project/cursor-back/data_processor.py:437-451 | every pair gets the same three base benefits, because the conditional appends land after the cut at three |
| DomainSynergy.PairsBeforeCount | nasa_project/cursor-back/data_processor.py:357-358 | the rows before i hold i(2n - i - 1)/2 pairs of n domains |
| DomainSynergy.AllDomainPairsCount | nasa_project/cursor-back/data_processor.py:357-360 | k domains give k(k-1)/2 pairs |
| DomainSynergy.CountAbovePermutation | nasa_project/cursor-back/data_processor.py:375-383 | counting scores above a bound does not depend on the order of the records |
| DomainSynergy.SynergyInvestments | nasa_project/cursor-back/data_processor.py:453-467 | one recommendation when there is a top pair, none otherwise, whose amount sums the first two pairs' investments |
| DomainSynergy.SynergyTopMaximal | nasa_project/cursor-back/data_processor.py:375-385 | a domain pair left out of the five listed scores no higher than any listed pair |
| DomainSynergy.SynergyReportSpec | nasa_project/cursor-back/data_processor.py:352-387 | over k domains: k(k-1)/2 pairs, high-potential at most collaboration opportunities at most the total, exactly five top pairs or all pairs when there are fewer, highest first, each priced 50000 + 3000 times its score, and a recommendation exactly when there is a pair |
| DomainSynergy.ReportOfSpec | nasa_project/cursor-back/data_processor.py:375-387 | the report of the records and a sorted permutation of them has those counts and bounds |
| DomainSynergy.PairRecord | nasa_project/cursor-back/data_processor.py:359-372 | the inner loop body builds the record of one pair |
| DomainSynergy.CollectDomainPairs | nasa_project/cursor-back/data_processor.py:352-372 | the nested loops give one record per pair i < j, total the number of records and the high-potential counter the records above 70 |
| DomainSynergy.CollectRow | nasa_project/cursor-back/data_processor.py:358-372 | the inner loop for row i appends the records of (ds[i], ds[j]) for j > i and keeps both counters |
| DomainSynergy.AppendPair | nasa_project/cursor-back/data_processor.py:359-372 | one inner pass appends the pair's record and keeps both counters in step |
| DomainSynergy.CrossDomainSynergyFor | nasa_project/cursor-back/data_processor.py:349-387 | the whole report once the domains are chosen |
| MainApi.PyFloorDiv | nasa_project/cursor-back/main.py:576-577 | Python floor division: `q * b <= a < (q + 1) * b` for a positive divisor, the mirrored bounds for a negative one |
| MainApi.PySlice | nasa_project/cursor-back/main.py:582 | a Python slice `s[a:b]`: for in-range bounds the records between them, and empty when the (resolved) end is not after the start |
| MainApi.PapersData | nasa_project/cursor-back/main.py:566-596 | no loaded papers gives the "No papers data available" error payload; a zero limit gives the division-by-zero error payload; otherwise the page reports the total, limit, offset and role, and has a previous page exactly when the offset is positive |
| MainApi.PapersDataPaging | nasa_project/cursor-back/main.py:575-594 | for a positive limit and non-negative offset: the page count is the ceiling of total/limit, the page number's range holds the offset, the page is the records from the offset up to offset+limit, and there is a next page exactly when records remain after it |
| MainApi.PapersDataPageNumbers | nasa_project/cursor-back/main.py:576-592 | walking by offset `(p - 1) * limit` reports page p, with a next page exactly while p is below the page count |
| MainApi.AccumulateBounds | nasa_project/cursor-back/main.py:361-373 | accumulating cleaned chunks only appends to the text, and never takes it past the maximum length |
| MainApi.CombinedBound | nasa_project/cursor-back/main.py:356-374 | the combined text is never longer than the maximum length (or empty when the maximum is not positive) |
| MainApi.AccumulateStops | nasa_project/cursor-back/main.py:370-373 | once a chunk of 50 or more cleaned characters does not fit, the loop breaks: nothing after it is added |
| MainApi.AccumulateSkipsShort | nasa_project/cursor-back/main.py:366-368 | a chunk under 50 cleaned characters is skipped: removing it from any position leaves the result unchanged |
| MainApi.CombineChunks | nasa_project/cursor-back/main.py:356-374 | the loop with its `continue` and `break` returns the stripped accumulated text, the value the three lemmas above describe |
| MainApi.RelevanceSpec | nasa_project/cursor-back/main.py:1342-1348 | a paper's score is positive exactly when some query word occurs in its lower-cased title or abstract, and it is at most 4 per query word |
| MainApi.Scored | nasa_project/cursor-back/main.py:1338-1351 | the collected `(paper, score)` list is no longer than the paper list |
| MainApi.ScoredSpec | nasa_project/cursor-back/main.py:1338-1351 | a pair is collected exactly when its paper is in the list and its score is the paper's positive relevance |
| MainApi.SortedScoredSpec | nasa_project/cursor-back/main.py:1354 | the list sorted by score descending is in score order and holds only listed papers paired with their positive relevance |
| MainApi.RelevantPapersSpec | nasa_project/cursor-back/main.py:1329-1355 | every returned paper is in the list and has a positive score, the scores never rise along the result, and for a non-negative `max_papers` exactly that many are returned, or every scoring paper when there are fewer |
| MainApi.ScoredInOrder | nasa_project/cursor-back/main.py:1329-1350 | the scored pairs are exactly the papers with a positive score, in list order |
| MainApi.RelevantPapersMaximal | nasa_project/cursor-back/main.py:1329-1355 | a scoring paper left out of the result scores no higher than any returned paper |
| MainApi.RelevantPapersStable | nasa_project/cursor-back/main.py:1352-1353 | the sort keeps papers of equal score in the order of the scored list, which is list order |
| MainApi.RelevantPapersMembers | nasa_project/cursor-back/main.py:1350-1355 | every returned paper is in the list and scores |
| MainApi.RelevantPapersOrdered | nasa_project/cursor-back/main.py:1354-1355 | the returned papers come in non-increasing score order |
| MainApi.RelevantPapersComplete | nasa_project/cursor-back/main.py:1350-1355 | when `max_papers` covers the whole list, every paper that scores is returned |
| MainApi.ScorePaper | nasa_project/cursor-back/main.py:1343-1348 | the keyword loop adds 3 per word found in the title and 1 per word found in the abstract, giving the relevance the lemmas describe |
| MainApi.FindRelevantPapers | nasa_project/cursor-back/main.py:1329-1355 | the nested loops, the stable descending sort and the cut to `max_papers` compute the ranked list the lemmas above describe |
| MainApi.DigitEnd | nasa_project/cursor-back/main.py:1218-1221 | the end of a maximal run of digits (`\d+`) from a position |
| MainApi.SpaceEnd | nasa_project/cursor-back/main.py:1218-1221 | the end of a maximal run of whitespace (`\s*`) from a position |
| MainApi.SearchFrom | nasa_project/cursor-back/main.py:1225 | `re.search`: no match at or after the start position, or the leftmost position where the pattern matches |
| MainApi.NumberBeforeSpec | nasa_project/cursor-back/main.py:1225-1227 | the leftmost match starts a maximal run of digits, so `group(1)` is the whole number before the unit |
| MainApi.MatchExtendsBack | nasa_project/cursor-back/main.py:1225 | a match starting just after a digit also matches one position earlier, so the leftmost match is never preceded by a digit |
| MainApi.FirstNumberNone | nasa_project/cursor-back/main.py:1223-1230 | no number is found exactly when none of the four unit patterns matches |
| MainApi.FirstNumberSome | nasa_project/cursor-back/main.py:1223-1228 | otherwise the number is the one of the first pattern in list order that matches |
| MainApi.DaysNotVariable | nasa_project/cursor-back/main.py:1227-1230 | a "<n> days" duration is never the "Variable duration" text |
| MainApi.DurationFromSpec | nasa_project/cursor-back/main.py:1217-1230 | either no unit matches and the duration is "Variable duration", or the first matching unit gives "<its number> days" (weeks, months and years included) |
| MainApi.MethodologyDuration | nasa_project/cursor-back/main.py:1217-1230 | the `for` loop with its `break` and `else` over the lower-cased text gives the duration the lemmas above describe |
| MainApi.ValidateMission | nasa_project/cursor-back/main.py:1918-1925 | a request that passes comes back unchanged |
| MainApi.ValidateMissionSpec | nasa_project/cursor-back/main.py:1918-1925 | a request passes exactly when crew size is 1..12, duration is 1..2000 days and the lower-cased destination is Mars, Moon, asteroid or space station; otherwise the first failing check, in that order, names the field |
| MainApi.ValidateMissionIgnoresCase | nasa_project/cursor-back/main.py:1924 | destinations differing only in letter case are validated alike |
| MainApi.FeasibilityBounds | nasa_project/cursor-back/main.py:1644-1689 | the score is between 0 and 113; without real-time data it is 100 less the duration, destination and crew penalties, so between 40 and 100 |
| MainApi.FeasibilityAboveHundred | nasa_project/cursor-back/main.py:1644-1689 | the real-time bonuses can take the score past 100: a 100-day asteroid mission of crew 3 with a good ISS crew, low radiation and a 1.2% bone-loss study scores 113 |
| MainApi.AsteroidPenalty | nasa_project/cursor-back/main.py:1661-1664 | an asteroid destination carries no destination penalty |
| MainApi.CalculateFeasibilityScore | nasa_project/cursor-back/main.py:1644-1689 | the sequential updates of the score give the value whose bounds the lemmas above state |
| MainApi.AddRealtimeBonuses | nasa_project/cursor-back/main.py:1667-1687 | the real-time block adds only when the data is truthy, and then adds the crew-health, radiation and study bonuses to the score |
| MainApi.BoneLossRisk | nasa_project/cursor-back/main.py:1699-1715 | the bone-loss risk is "High" past 180 days and "Medium" otherwise; without research data the expected loss is 1.5% per month past 180 days and 1.0% otherwise |
| MainApi.RadiationRisk | nasa_project/cursor-back/main.py:1717-1734 | the radiation risk is "High" for Mars and "Medium" elsewhere; without radiation data the dose is 500 mSv/year for Mars and 200 elsewhere |
| MainApi.StressRisk | nasa_project/cursor-back/main.py:1736-1756 | without research data the stress risk is "High" past 300 days and "Medium" otherwise |
| MainApi.MuscleRisk | nasa_project/cursor-back/main.py:1758-1772 | the muscle-atrophy risk is "High" past 180 days; without research data the expected loss is 2.0% per month |
| MainApi.RiskList | nasa_project/cursor-back/main.py:1695-1774 | always exactly four risks, in the order bone loss, radiation exposure, psychological stress, muscle atrophy |
| MainApi.FormatFixed0 | nasa_project/cursor-back/main.py:1721-1723 | `:.0f` renders the half-to-even rounded value in decimal digits, with a minus sign exactly when the value is negative, so a value in (-0.5, 0) prints as "-0" |
| MainApi.RadiationDoseDigits | nasa_project/cursor-back/main.py:1717-1734 | with radiation data the radiation risk's `dose` field is the half-to-even rounded yearly dose in decimal digits followed by " mSv/year (based on current levels)" |
| MainApi.GenerateRiskAssessment | nasa_project/cursor-back/main.py:1695-1774 | the four appends give the risk list described by RiskList |
| MainApi.DurationRecommendations | nasa_project/cursor-back/main.py:1855-1858 | three items past 500 days and none otherwise, in block order |
| MainApi.DestinationRecommendations | nasa_project/cursor-back/main.py:1861-1867 | three items for Mars, two for the Moon, none for other destinations, in block order |
| MainApi.CrewRecommendations | nasa_project/cursor-back/main.py:1870-1872 | two items for a crew larger than 4 and none otherwise |
| MainApi.HealthRecommendation | nasa_project/cursor-back/main.py:1877-1882 | one item exactly when ISS crew data is present and its health status is "Poor" or "Good" |
| MainApi.RadiationRecommendation | nasa_project/cursor-back/main.py:1885-1890 | one item exactly when radiation data is present and its level is above 1.5 or below 0.5 |
| MainApi.ResearchRecommendation | nasa_project/cursor-back/main.py:1893-1898 | one item exactly when research data is present and the bone-loss study mentions 1.2% or 2.0% |
| MainApi.RealtimeRecommendations | nasa_project/cursor-back/main.py:1875-1898 | the real-time recommendations are at most three, at most one each for crew health, radiation and bone-loss research, and none when the data is not truthy |
| MainApi.RecommendationsShape | nasa_project/cursor-back/main.py:1850-1905 | the list always ends with the three general items, and its length is that of the duration, destination and crew blocks plus at most three real-time items |
| MainApi.RecommendationsOrdered | nasa_project/cursor-back/main.py:1850-1905 | the items come in the order the blocks are written, so no recommendation appears twice |
| MainApi.RecommendationTexts | nasa_project/cursor-back/main.py:1850-1905 | the returned strings are the texts of the items, one per item, in order |
| MainApi.AppendRealtimeRecommendations | nasa_project/cursor-back/main.py:1875-1898 | the real-time block appends its items only when the real-time data is truthy |
| MainApi.GenerateRecommendations | nasa_project/cursor-back/main.py:1850-1905 | the appends, block by block, give the recommendation list whose shape and order the lemmas above state |
| HypothesisGenerator.FindPmcLeftmost | nasa_project/cursor-back/hypothesis_generator.py:80-91 | the identifier is "PMC" followed by the whole digit run of the leftmost "PMC<digit>" in the link |
| HypothesisGenerator.FindPmcAbsent | nasa_project/cursor-back/hypothesis_generator.py:80-91 | a missing or empty link, or one without "PMC<digit>", has no identifier |
| HypothesisGenerator.FindPmcShape | nasa_project/cursor-back/hypothesis_generator.py:80-91 | a found identifier is "PMC" and a non-empty run of digits |
| HypothesisGenerator.FirstDomainSpec | nasa_project/cursor-back/hypothesis_generator.py:104-114 | the domain is the first table entry with a keyword in the lower-cased title, else "General Biology" |
| HypothesisGenerator.FirstDomainUpTo | nasa_project/cursor-back/hypothesis_generator.py:111-114 | when entry k matches, the domain is one of the first k + 1 entries |
| HypothesisGenerator.ProteinNeverMolecular | nasa_project/cursor-back/hypothesis_generator.py:104-114 | "protein" is listed under Cell Biology before Molecular Biology, so a title with "protein" is never Molecular Biology |
| HypothesisGenerator.FirstDomainListed | nasa_project/cursor-back/hypothesis_generator.py:111-114 | the domain chosen from the table is a listed domain or "General Biology" |
| HypothesisGenerator.AssignDomainSpec | nasa_project/cursor-back/hypothesis_generator.py:93-114 | "Unknown" exactly for a missing title; otherwise a listed domain or "General Biology" |
| HypothesisGenerator.ConfidenceRanges | nasa_project/cursor-back/hypothesis_generator.py:308 | gap confidence min(85, 60 + 2n) is 66..80 for 3..10 papers; methodology min(80, 50 + 10m) is 70..80 from two methods (line 361); custom min(70, 40 + 10c + 2p) is 66..70 (line 494); trend min(75, 60 + 2a) is at most 75 and exactly 75 from an average of 12 (line 435) |
| HypothesisGenerator.RelatedPapers | nasa_project/cursor-back/hypothesis_generator.py:262-293 | at most top_k related papers, drawn from the top_k most similar and kept above similarity 0.1 |
| HypothesisGenerator.FindRelatedPapers | nasa_project/cursor-back/hypothesis_generator.py:272-293 | the loop over the top_k most similar papers returns the related papers |
| HypothesisGenerator.StoredSorted | nasa_project/cursor-back/hypothesis_generator.py:127-140 | stored hypotheses carry confidence 95, 90, 85, ... and are already highest first |
| HypothesisGenerator.FirstStoredSpec | nasa_project/cursor-back/hypothesis_generator.py:127-140 | the stored hypotheses found belong to the first related paper whose PMC identifier has any; none are found exactly when no related paper has them |
| HypothesisGenerator.FindStored | nasa_project/cursor-back/hypothesis_generator.py:127-140 | the loop with its break finds exactly the first related paper's stored hypotheses |
| HypothesisGenerator.StoredList | nasa_project/cursor-back/hypothesis_generator.py:130-138 | hypothesis i of a paper's stored list has confidence 95 - 5i, type "Pre-generated" and cites that paper |
| HypothesisGenerator.GapDomainsSpec | nasa_project/cursor-back/hypothesis_generator.py:174-192 | the gap domains are exactly the related domains below 20% of the related papers that are neither empty nor "Unknown", each once |
| HypothesisGenerator.GapStep | nasa_project/cursor-back/hypothesis_generator.py:185-190 | one round of the gap loop adds the hypothesis of a gap domain and skips any other domain |
| HypothesisGenerator.GenerateGapHypotheses | nasa_project/cursor-back/hypothesis_generator.py:164-192 | the gap hypotheses of the ten most similar papers above the threshold |
| HypothesisGenerator.GapHypothesesSpec | nasa_project/cursor-back/hypothesis_generator.py:164-192 | no gap hypothesis with fewer than three related papers; otherwise one per gap domain, in order |
| HypothesisGenerator.GapHypothesisSpec | nasa_project/cursor-back/hypothesis_generator.py:295-323 | a gap hypothesis has confidence min(85, 60 + 2n) for n related papers and cites the first three related papers of its domain |
| HypothesisGenerator.AnalyzeMethodCombinations | nasa_project/cursor-back/hypothesis_generator.py:325-350 | the loop returns the unique method combinations of the related papers |
| HypothesisGenerator.UnseenSound | nasa_project/cursor-back/hypothesis_generator.py:340-350 | every kept combination comes from the input, its key was not seen before and it is the first with that key |
| HypothesisGenerator.UnseenComplete | nasa_project/cursor-back/hypothesis_generator.py:340-350 | every key of the input that was not seen before is kept |
| HypothesisGenerator.UnseenDistinct | nasa_project/cursor-back/hypothesis_generator.py:340-350 | no two kept combinations share a key |
| HypothesisGenerator.UniqueCombinationsSpec | nasa_project/cursor-back/hypothesis_generator.py:325-350 | no key twice, each kept combination the first paper with its key, and every key of the input represented |
| HypothesisGenerator.CombinationsSpec | nasa_project/cursor-back/hypothesis_generator.py:332-338 | a paper yields a combination only when its title names at least two methods |
| HypothesisGenerator.MethodologyHypothesisSpec | nasa_project/cursor-back/hypothesis_generator.py:352-374 | a methodology hypothesis has confidence 70..80 and cites its paper with the placeholder link "#" |
| HypothesisGenerator.MethodologyHypothesesSpec | nasa_project/cursor-back/hypothesis_generator.py:194-219 | at most two methodology hypotheses, none with fewer than five related papers, each for one of the unique combinations, in order |
| HypothesisGenerator.GenerateMethodologyHypotheses | nasa_project/cursor-back/hypothesis_generator.py:194-219 | the methodology hypotheses of the fifteen most similar papers above the threshold |
| HypothesisGenerator.AnalyzePublicationTrends | nasa_project/cursor-back/hypothesis_generator.py:376-402 | the loop over the domain counts returns the trend table |
| HypothesisGenerator.TrendsOverSpec | nasa_project/cursor-back/hypothesis_generator.py:384-400 | a domain has a trend exactly when it is counted ten times or more, and the trend is the one its count gives |
| HypothesisGenerator.PublicationTrendsSpec | nasa_project/cursor-back/hypothesis_generator.py:376-402 | a domain has a trend exactly when it has ten papers or more; it is increasing exactly from twenty; the recent and older averages add up to the count |
| HypothesisGenerator.MappedDomainsSpec | nasa_project/cursor-back/hypothesis_generator.py:404-428 | a domain is found exactly when the text contains one of its keywords |
| HypothesisGenerator.MappedDomainsWithin | nasa_project/cursor-back/hypothesis_generator.py:407-426 | only domains of the mapping can be found |
| HypothesisGenerator.QueryDomainsSpec | nasa_project/cursor-back/hypothesis_generator.py:404-428 | a domain is extracted exactly when the lower-cased query names one of its keywords; only Radiation, Human Physiology, Psychology and Plants can be |
| HypothesisGenerator.ExtractDomainsFromQuery | nasa_project/cursor-back/hypothesis_generator.py:404-428 | the loop returns the query's domains |
| HypothesisGenerator.TenthsValue | nasa_project/cursor-back/hypothesis_generator.py:437 | the one-decimal rendering of a count given in tenths reads back as that count |
| HypothesisGenerator.TrendHypothesisSpec | nasa_project/cursor-back/hypothesis_generator.py:430-448 | a trend hypothesis cites no paper; for a domain of twenty papers or more its confidence is 75 |
| HypothesisGenerator.TrendHypothesesSpec | nasa_project/cursor-back/hypothesis_generator.py:221-239 | a query domain gets a trend hypothesis exactly when the table holds twenty papers or more of it |
| HypothesisGenerator.TrendBounds | nasa_project/cursor-back/hypothesis_generator.py:221-239 | whatever the visiting order, every trend hypothesis has confidence 75 and cites no paper |
| HypothesisGenerator.GenerateTrendHypotheses | nasa_project/cursor-back/hypothesis_generator.py:221-239 | the loop over the query domains, in the given set order, returns the trend hypotheses |
| HypothesisGenerator.TrendStep | nasa_project/cursor-back/hypothesis_generator.py:229-237 | one round adds the hypothesis of a domain with an increasing trend and skips any other |
| HypothesisGenerator.ExtractKeyConcepts | nasa_project/cursor-back/hypothesis_generator.py:450-466 | the concepts are the listed keywords the lower-cased query contains, in list order |
| HypothesisGenerator.FindPapersByConcept | nasa_project/cursor-back/hypothesis_generator.py:468-483 | the first five rows whose lower-cased title contains the lower-cased concept |
| HypothesisGenerator.ConceptPapersSpec | nasa_project/cursor-back/hypothesis_generator.py:247-253 | every gathered paper names one of the concepts; at most five per concept |
| HypothesisGenerator.GatherConceptPapers | nasa_project/cursor-back/hypothesis_generator.py:247-253 | the loop over the concepts gathers each concept's papers in turn |
| HypothesisGenerator.CustomOfSpec | nasa_project/cursor-back/hypothesis_generator.py:485-507 | there is a custom hypothesis exactly when there are two concepts or more and three papers or more; its confidence is 66..70 |
| HypothesisGenerator.CustomHypothesisSpec | nasa_project/cursor-back/hypothesis_generator.py:485-507 | the custom hypothesis has confidence 66..70 and cites the first three concept papers |
| HypothesisGenerator.CustomHypothesesSpec | nasa_project/cursor-back/hypothesis_generator.py:241-260 | a custom hypothesis exactly when the query names two concepts or more with three papers or more between them |
| HypothesisGenerator.GenerateCustomHypotheses | nasa_project/cursor-back/hypothesis_generator.py:241-260 | the custom query hypotheses of the query |
| HypothesisGenerator.GenerateHypotheses | nasa_project/cursor-back/hypothesis_generator.py:116-162 | the result of generate_hypotheses for the given ranking, stored hypotheses and domain order |
| HypothesisGenerator.HypothesesSpec | nasa_project/cursor-back/hypothesis_generator.py:159-162 | at most five hypotheses, highest confidence first, a sub-multiset of the candidates, and five unless there are fewer candidates |
| HypothesisGenerator.HypothesesMaximal | nasa_project/cursor-back/hypothesis_generator.py:159-162 | a candidate left out of the result has a confidence no higher than that of any hypothesis returned |
| HypothesisGenerator.StoredResult | nasa_project/cursor-back/hypothesis_generator.py:123-140 | when a related paper has stored hypotheses, the result is the first five of them in stored order |
| HypothesisGenerator.GeneratedResult | nasa_project/cursor-back/hypothesis_generator.py:142-162 | without stored hypotheses every result is gap-based, methodology-driven, trend-based or custom, with confidence 66..80 |
| HypothesisGenerator.NoStoredCandidates | nasa_project/cursor-back/hypothesis_generator.py:142-157 | without stored hypotheses the candidates are the four generated lists in order |
| HypothesisGenerator.GapBounds | nasa_project/cursor-back/hypothesis_generator.py:164-192 | gap hypotheses have confidence 66..80 |
| HypothesisGenerator.MethodologyBounds | nasa_project/cursor-back/hypothesis_generator.py:194-219 | methodology hypotheses have confidence 70..80 |
| HypothesisGenerator.CustomBounds | nasa_project/cursor-back/hypothesis_generator.py:241-260 | custom hypotheses have confidence 66..70 |
| HypothesisGenerator.GeneratedSpec | nasa_project/cursor-back/hypothesis_generator.py:142-157 | every generated hypothesis has one of the four kinds and confidence 66..80 |
| MissionReadiness.MatchedSpec | nasa_project/services/missionReadinessService.js:33-38 | a rule matches exactly when one of its keywords, lower-cased, occurs in the lower-cased search text |
| MissionReadiness.CategoriesSpec | nasa_project/services/missionReadinessService.js:20-44 | a category id is returned exactly when some rule with that id matches |
| MissionReadiness.CategoriesSound | nasa_project/services/missionReadinessService.js:32-41 | every returned id belongs to a matching rule |
| MissionReadiness.CategoriesComplete | nasa_project/services/missionReadinessService.js:32-41 | every matching rule's id is returned |
| MissionReadiness.CategoriesEmpty | nasa_project/services/missionReadinessService.js:20-44 | nothing is returned exactly when no rule matches |
| MissionReadiness.CategoriesOrder | nasa_project/services/missionReadinessService.js:32-41 | matched categories come in rule order |
| MissionReadiness.FieldMatches | nasa_project/services/missionReadinessService.js:22-34 | a keyword found, ignoring case, in any one searched field matches its category |
| MissionReadiness.CategoriesDistinct | nasa_project/services/missionReadinessService.js:32-41 | with distinct rule ids, each category is returned at most once |
| MissionReadiness.CategoriesWithin | nasa_project/services/missionReadinessService.js:32-41 | every returned category is the id of a rule |
| MissionReadiness.ScoreCategory | nasa_project/services/missionReadinessService.js:52-113 | the score computed step by step is the closed-form score: min(100, 10n), +15 with a countermeasure, -20 below three publications, clamped to 0..100, then level and gap confidence |
| MissionReadiness.ScoreSpec | nasa_project/services/missionReadinessService.js:53-112 | the score lies in 0..100, Green from 70, Yellow from 40, Red below; gap confidence low from five publications, medium from three, high below; no publications give 0, Red, high |
| MissionReadiness.ScoreMonotone | nasa_project/services/missionReadinessService.js:61-86 | one more publication never lowers a category's score |
| MissionReadiness.ScoreExamples | nasa_project/cursor-front/__tests__/missionReadinessService.test.js:88-133 | one countermeasure publication scores 5 (Red, high); three score 45 and five 65 (Yellow) with a countermeasure; ten or more score 100 (Green) |
| MissionReadiness.FindRuleSpec | nasa_project/services/missionReadinessService.js:122 | the own-key search: the rule found is the first with the id, and none is found exactly when no rule has it |
| MissionReadiness.LookupRuleSpec | nasa_project/services/missionReadinessService.js:122 | the lookup as JavaScript evaluates it: an own rule exactly when some rule has the id, an inherited Object.prototype value exactly for an inherited name no rule has, nothing otherwise |
| MissionReadiness.FindOwnRule | nasa_project/services/missionReadinessService.js:122 | with distinct ids, looking up a rule's own id finds that rule |
| MissionReadiness.DesignImplicationsSpec | nasa_project/services/missionReadinessService.js:121-153 | the intended behaviour over own keys: a category no rule has, inherited names included, gets only "Category rules not found"; a known one gets its base implications first, then the text-triggered additions, at most four in all |
| MissionReadiness.DesignImplicationsAsWrittenSpec | nasa_project/services/missionReadinessService.js:121-128 | the code as written agrees with the intended result on every own id and every name not inherited, and throws exactly for an inherited name no rule has |
| MissionReadiness.ConstructorCategoryThrows | nasa_project/services/missionReadinessService.js:121-128 | "constructor", named by no rule, throws a TypeError as written, where the intended answer is the not-found message |
| MissionReadiness.ExerciseAdded | nasa_project/services/missionReadinessService.js:139-141 | with fewer than four base implications, a text naming effective exercise gets the exercise implication |
| MissionReadiness.TopFindingsSpec | nasa_project/services/missionReadinessService.js:161-168 | the findings are those of the first limit publications, in order, each with its id and short text |
| MissionReadiness.ShortSpec | nasa_project/services/missionReadinessService.js:166 | the short text is the results, else the conclusion, else the first 150 characters of the abstract followed by "..." |
| MissionReadiness.FileUnder | nasa_project/services/missionReadinessService.js:196-199 | filing one more publication keeps every group equal to the publications so far that fall in its category |
| MissionReadiness.AppendUnder | nasa_project/services/missionReadinessService.js:197-199 | the publication is appended to the list of each of its categories, and no other list changes |
| MissionReadiness.GroupStep | nasa_project/services/missionReadinessService.js:195-200 | a publication joins the groups of exactly its categories |
| MissionReadiness.EmptyGroups | nasa_project/services/missionReadinessService.js:190-193 | every category id starts with an empty group |
| MissionReadiness.GroupPublications | nasa_project/services/missionReadinessService.js:195-200 | after the loop each group holds exactly the filtered publications of its category, in order |
| MissionReadiness.ComputeMissionReadinessIndex | nasa_project/services/missionReadinessService.js:177-280 | the index computed with the JavaScript year filter (a null year read as 0) and the grouping loops equals the closed-form analysis |
| MissionReadiness.YearFilterCases | nasa_project/services/missionReadinessService.js:179 | the year comparison as JavaScript does it: with the default minYear of 0 a null year is kept and only a missing one dropped; a positive minYear keeps numeric years from minYear on only; a missing year never passes |
| MissionReadiness.ReadinessEmpty | nasa_project/services/missionReadinessService.js:179-187 | with no publication passing the year comparison (null read as 0, missing never passing), the result is no categories, 0 and Red, with the warning |
| MissionReadiness.ReadinessSpec | nasa_project/services/missionReadinessService.js:203-279 | otherwise there is no warning, one report per rule in rule order over the category's publications passing the year comparison, the overall index of those reports, and metadata counting the filtered publications |
| MissionReadiness.GroupSpec | nasa_project/services/missionReadinessService.js:179-200 | a category's publications are exactly those that map to it and whose year is a number from minYear on, or null when minYear is at most 0 |
| MissionReadiness.ReportCounts | nasa_project/services/missionReadinessService.js:203-251 | the evidence counts never exceed the publication count; a countermeasure count above zero implies the score's countermeasure bonus; score and level come from scoreCategory |
| MissionReadiness.OverallSpec | nasa_project/services/missionReadinessService.js:255-265 | the overall index is the JavaScript-rounded mean of the category scores, lies in 0..100 and uses the 70/40 thresholds; without categories it is NaN, which reads Red |
| MissionReadiness.ReportsBounded | nasa_project/services/missionReadinessService.js:203-252 | every category report scores within 0..100 |
| LoadSample.LoadPublications | nasa_project/scripts/load_sample.js:17-26 | a file that cannot be read or parsed yields no publications; otherwise the parsed list |
| LoadSample.ByYearSpec | nasa_project/scripts/load_sample.js:33-36 | a publication is kept exactly when its year is at least minYear |
| LoadSample.ByYearOrder | nasa_project/scripts/load_sample.js:35 | the kept publications keep their relative order |
| LoadSample.ByYearDefault | nasa_project/scripts/load_sample.js:33 | with the default minYear of 0 no publication dated from year 0 on is dropped |
| LoadSample.ByKeywordSpec | nasa_project/scripts/load_sample.js:43-52 | a publication is found exactly when the lower-cased keyword occurs in its lower-cased title, abstract or one of its keywords |
| LoadSample.ByKeywordOrder | nasa_project/scripts/load_sample.js:47-51 | the found publications keep their relative order |
| LoadSample.ByKeywordCaseInsensitive | nasa_project/scripts/load_sample.js:45 | searching for a keyword and for its lower-cased form finds the same publications |
| LoadSample.ByEmptyKeyword | nasa_project/scripts/load_sample.js:47-51 | the empty keyword finds every publication |
| LoadSample.ByIdSpec | nasa_project/scripts/load_sample.js:59-62 | the result is the first publication with the id, and null exactly when no publication has it |
| LoadSample.YearRangeEmpty | nasa_project/scripts/load_sample.js:71-75 | without publications the range stays Infinity to -Infinity |
| LoadSample.YearRangeSpec | nasa_project/scripts/load_sample.js:71-75 | for a non-empty list the range has finite ends that bound every year and are both attained |
| LoadSample.TotalCountDistinct | nasa_project/scripts/load_sample.js:77-82 | the counts of the distinct keywords add up to the number of keyword occurrences |
| LoadSample.CountKeyword | nasa_project/scripts/load_sample.js:80 | one more occurrence raises that keyword's count by one, adding the key at the end the first time it is seen |
| LoadSample.KeywordCounts | nasa_project/scripts/load_sample.js:77-82 | the intended counting over own keys: after the nested loops, the keys are the distinct keywords in first-seen order, each with its number of occurrences |
| LoadSample.CountsSum | nasa_project/scripts/load_sample.js:77-82 | the counted totals add up to the number of keyword occurrences |
| LoadSample.PublicationsStats | nasa_project/scripts/load_sample.js:68-92 | the statistics are the publication count, the year range and the first ten keyword counts, taken in JavaScript's key order (index-like keywords ascending, then the rest as first seen) and stably sorted by count, highest first |
| LoadSample.RankedKeywordsSpec | nasa_project/scripts/load_sample.js:87-88 | the ranked entries are sorted by count, highest first, hold every keyword exactly once and carry its exact number of occurrences |
| LoadSample.RankedKeywordsTies | nasa_project/scripts/load_sample.js:87-88 | the stable sort keeps keywords of equal count in the order `Object.entries` lists them |
| LoadSample.NamedKeywordsTies | nasa_project/scripts/load_sample.js:77-88 | when no keyword looks like an array index, keywords of equal count stay in first-seen order |
| LoadSample.TwoKeywordCounts | nasa_project/scripts/load_sample.js:77-82 | two different keywords are counted once each, in order of appearance |
| LoadSample.YearKeywordEntries | nasa_project/scripts/load_sample.js:77-87 | keywords [w, "2020"] are listed by `Object.entries` as "2020" then w, each counted once |
| LoadSample.YearKeywordFirst | nasa_project/scripts/load_sample.js:77-88 | with keywords [w, "2020"] of equal count, "2020" is listed before w because `Object.entries` lists index-like keys first |
| LoadSample.TallyAsWrittenSpec | nasa_project/scripts/load_sample.js:77-82 | the counting as written on a plain object: a keyword that is no inherited name gets its number of occurrences, another inherited name holds text, and `__proto__` gets no own key |
| LoadSample.TallyAsWrittenAgrees | nasa_project/scripts/load_sample.js:77-82 | without inherited names among the keywords the counting as written has the same keys and counts as the intended counting |
| LoadSample.InheritedKeywordTally | nasa_project/scripts/load_sample.js:80 | the keyword "constructor" occurs once but is tallied as text, and "__proto__" is not tallied at all |
| JsObject.EntriesOrderSpec | nasa_project/scripts/load_sample.js:87 | `Object.entries` lists the same entries, the index-like keys first in ascending numeric order, then the other keys in insertion order |
| JsObject.EntriesOrderNamed | nasa_project/scripts/load_sample.js:87 | without index-like keys `Object.entries` keeps insertion order |
| JsObject.IndexKeyFirst | nasa_project/scripts/load_sample.js:87 | an index-like key inserted after a word is still listed before it |
| LoadSample.TopKeywordsSpec | nasa_project/scripts/load_sample.js:87-90 | at most ten keywords are listed, most frequent first, each once and with its exact number of occurrences |
| LoadSample.TopKeywordsMaximal | nasa_project/scripts/load_sample.js:87-90 | a keyword left out of the top list occurs no more often than any listed keyword, and is only left out when ten are listed |
| Pagination.GetVisiblePages | nasa_project/cursor-front/src/components/ui/pagination.tsx:28-52 | the loop collects the window max(2, p - 2) .. min(last - 1, p + 2) and the result is the page strip (page 1, markers, window, last page) |
| Pagination.WindowBounds | nasa_project/cursor-front/src/components/ui/pagination.tsx:29-35 | the window holds at most five pages, all strictly between 1 and the last page |
| Pagination.VisiblePagesEnds | nasa_project/cursor-front/src/components/ui/pagination.tsx:37-49 | the strip starts with page 1 and ends with the last page, never with a marker, and has at most nine entries |
| Pagination.VisiblePagesIncreasing | nasa_project/cursor-front/src/components/ui/pagination.tsx:33-49 | the page numbers on the strip are strictly increasing |
| Pagination.VisiblePagesHasCurrent | nasa_project/cursor-front/src/components/ui/pagination.tsx:33-49 | the current page is always on the strip |
| Pagination.InteriorHasWindow | nasa_project/cursor-front/src/components/ui/pagination.tsx:33-43 | every page of the window is shown between the two ends |
| Pagination.InteriorInWindow | nasa_project/cursor-front/src/components/ui/pagination.tsx:33-43 | every page shown between the two ends lies in the window |
| Pagination.VisiblePagesInterior | nasa_project/cursor-front/src/components/ui/pagination.tsx:33-49 | between the ends the strip shows exactly the pages max(2, p - 2) .. min(last - 1, p + 2) |
| Pagination.VisiblePagesDots | nasa_project/cursor-front/src/components/ui/pagination.tsx:37-49 | a marker follows page 1 exactly when p - 2 > 2, precedes the last page exactly when p + 2 < last - 1, and appears nowhere else |
| Pagination.ItemCounters | nasa_project/cursor-front/src/components/ui/pagination.tsx:25-26 | on a page that holds items the "Showing x to y" counters lie within 1..totalItems and count exactly that page's items |
| Pagination.Render | nasa_project/cursor-front/src/components/ui/pagination.tsx:54-61 | nothing is rendered when there is at most one page; otherwise the counters and the page strip |
| AppStore.WithoutSpec | nasa_project/cursor-front/src/store/appStore.ts:26-28 | removing an id drops every occurrence of it, keeps every other id as often as before, and shortens the list by the number of occurrences |
| AppStore.WithoutAppend | nasa_project/cursor-front/src/store/appStore.ts:26-28 | the filter keeps the remaining ids in their order: removing from a + b is removing from each part |
| AppStore.WithoutAbsent | nasa_project/cursor-front/src/store/appStore.ts:26-28 | removing an id that is not selected leaves the list unchanged |
| AppStore.ToggleSpec | nasa_project/cursor-front/src/app/papers/page.tsx:79-85 | after a toggle the id is selected exactly when it was not before; every other id keeps its count |
| AppStore.ToggleTwice | nasa_project/cursor-front/src/app/search/page.tsx:53-59 | toggling keeps a duplicate-free selection duplicate-free; toggling twice gives back the same set of ids, and the same list when the id was not selected |
| AppStore.Store.constructor | nasa_project/cursor-front/src/store/appStore.ts:19-20 | a fresh store holds the Scientist role and no selected ids |
| AppStore.Store.Restore | nasa_project/cursor-front/src/store/appStore.ts:31-34 | a store rebuilt from local storage has the saved role and no selected ids |
| AppStore.Store.Persist | nasa_project/cursor-front/src/store/appStore.ts:33 | only the role is persisted |
| AppStore.Store.SetRole | nasa_project/cursor-front/src/store/appStore.ts:21 | sets the role and leaves the selection alone |
| AppStore.Store.SetSelectedPaperIds | nasa_project/cursor-front/src/store/appStore.ts:22 | replaces the selection and leaves the role alone |
| AppStore.Store.AddSelectedPaperId | nasa_project/cursor-front/src/store/appStore.ts:23-25 | appends the id at the end, even when it is already selected |
| AppStore.Store.RemoveSelectedPaperId | nasa_project/cursor-front/src/store/appStore.ts:26-28 | the new selection is the old one without the id, order kept; nothing changes when it was absent |
| AppStore.Store.ClearSelectedPaperIds | nasa_project/cursor-front/src/store/appStore.ts:29 | empties the selection and keeps the role |
| AppStore.Store.SelectPaper | nasa_project/cursor-front/src/app/papers/page.tsx:79-85 | removes the id when it is selected and appends it otherwise (the toggle), role unchanged |
| AppStore.ReloadStore | nasa_project/cursor-front/src/store/appStore.ts:31-34 | saving and reloading a store restores the role and nothing else |
| DashboardBreadcrumb.SegmentsSpec | nasa_project/cursor-front/src/components/dashboard-breadcrumb.tsx:17 | the path segments are non-empty, hold no '/', and concatenated give the path with its slashes removed |
| DashboardBreadcrumb.Lookup | nasa_project/cursor-front/src/components/dashboard-breadcrumb.tsx:54-63 | a label found for a key is the label the table lists for that key |
| DashboardBreadcrumb.LookupMissing | nasa_project/cursor-front/src/components/dashboard-breadcrumb.tsx:54-63 | a key the table does not list finds nothing |
| DashboardBreadcrumb.PageInfo | nasa_project/cursor-front/src/components/dashboard-breadcrumb.tsx:16-85 | the trail always starts with Home and Dashboard and has two or three crumbs |
| DashboardBreadcrumb.PageInfoManager | nasa_project/cursor-front/src/components/dashboard-breadcrumb.tsx:53-69 | under the manager section there is a third crumb exactly when the last segment names one of the five manager pages, labelled from the table and linking to /manager/<page> |
| DashboardBreadcrumb.PageInfoOther | nasa_project/cursor-front/src/components/dashboard-breadcrumb.tsx:70-82 | outside the manager section the mission planner crumb wins over the papers crumb, and a path in neither gets only the two fixed crumbs |
| DashboardBreadcrumb.PageInfoDistinctLinks | nasa_project/cursor-front/src/components/dashboard-breadcrumb.tsx:35-84 | no two crumbs link to the same place |
| DashboardBreadcrumb.PageInfoAsWritten | nasa_project/cursor-front/src/components/dashboard-breadcrumb.tsx:62-69 | the trail as the code computes it; away from the manager section it is the intended trail |
| DashboardBreadcrumb.InheritedNameCrumb | nasa_project/cursor-front/src/components/dashboard-breadcrumb.tsx:62-69 | a manager path ending in an inherited Object.prototype name that names no manager page gets a third, unlabelled crumb, where the intended trail has two |
| DashboardBreadcrumb.ConstructorLabel | nasa_project/cursor-front/src/components/dashboard-breadcrumb.tsx:63 | "constructor" names no manager page, yet the lookup as written finds an unlabelled entry for it |
| KnowledgeGraph.NodeCaption | nasa_project/cursor-front/src/components/knowledge-graph.tsx:79 | a title of at most 30 characters is kept as it is; a longer one becomes its first 30 characters followed by `...` |
| KnowledgeGraph.NodesFrom | nasa_project/cursor-front/src/components/knowledge-graph.tsx:77-84 | one node per selected paper, in order, the k-th built from the k-th paper and its index |
| KnowledgeGraph.OverlapBounds | nasa_project/cursor-front/src/components/knowledge-graph.tsx:95-96 | the keyword overlap, the size of the intersection over the larger set size (at least 1), lies in [0, 1] |
| KnowledgeGraph.OverlapSymmetric | nasa_project/cursor-front/src/components/knowledge-graph.tsx:95-96 | the overlap does not depend on the order of the two keyword sets |
| KnowledgeGraph.OverlapEqual | nasa_project/cursor-front/src/components/knowledge-graph.tsx:95-96 | two equal non-empty keyword sets overlap fully |
| KnowledgeGraph.SimilaritySpec | nasa_project/cursor-front/src/components/knowledge-graph.tsx:93-96 | the similarity of two papers' lower-cased keyword sets lies in [0, 1], is symmetric, and is 1 for two papers with the same non-empty keyword set |
| KnowledgeGraph.RowEdges | nasa_project/cursor-front/src/components/knowledge-graph.tsx:88-106 | row i of the inner loop yields at most one edge per later paper |
| KnowledgeGraph.RowEdgesSound | nasa_project/cursor-front/src/components/knowledge-graph.tsx:88-106 | every edge of row i comes from a later paper k related to paper i |
| KnowledgeGraph.RowEdgesComplete | nasa_project/cursor-front/src/components/knowledge-graph.tsx:88-106 | every later paper related to paper i gives its edge in row i |
| KnowledgeGraph.EdgesBeforeSound | nasa_project/cursor-front/src/components/knowledge-graph.tsx:87-107 | every edge of the first i rows comes from a related pair a < b with a < i |
| KnowledgeGraph.EarlierRowsSound | nasa_project/cursor-front/src/components/knowledge-graph.tsx:87-107 | the soundness step for the rows before the last one |
| KnowledgeGraph.LastRowSound | nasa_project/cursor-front/src/components/knowledge-graph.tsx:87-107 | the soundness step for the last row |
| KnowledgeGraph.EdgesBeforeComplete | nasa_project/cursor-front/src/components/knowledge-graph.tsx:87-107 | every related pair a < b with a < i has its edge among the first i rows |
| KnowledgeGraph.EdgesBeforeCount | nasa_project/cursor-front/src/components/knowledge-graph.tsx:87-107 | after i rows at most i(2n - i - 1)/2 edges exist |
| KnowledgeGraph.IntraEdgesSpec | nasa_project/cursor-front/src/components/knowledge-graph.tsx:86-107 | an edge is produced for a pair a < b exactly when the papers' similarity exceeds 0.2 or they share a methodology; it goes from the first to the second, carries their similarity, and is strong exactly when that exceeds 0.5 |
| KnowledgeGraph.IntraEdgesCount | nasa_project/cursor-front/src/components/knowledge-graph.tsx:87-107 | k papers give at most k(k - 1)/2 edges |
| KnowledgeGraph.ConsiderPair | nasa_project/cursor-front/src/components/knowledge-graph.tsx:89-105 | one pass of the inner loop appends the pair's edge when the papers are related and nothing otherwise |
| KnowledgeGraph.ScanRow | nasa_project/cursor-front/src/components/knowledge-graph.tsx:88-106 | the inner loop appends row i's edges |
| KnowledgeGraph.CollectEdges | nasa_project/cursor-front/src/components/knowledge-graph.tsx:87-107 | the nested loops produce exactly the edges the lemmas above describe |
| KnowledgeGraph.GenerateIntraPaperRelations | nasa_project/cursor-front/src/components/knowledge-graph.tsx:73-110 | fewer than two ticked papers give no nodes and no edges; otherwise one node per ticked paper and the edges among them |
| KnowledgeGraph.SelectedDataSpec | nasa_project/cursor-front/src/components/knowledge-graph.tsx:76-84 | the nodes are exactly the ticked papers, in the order of the paper list, each node carrying its paper's id |
| KnowledgeGraph.FilteredSpec | nasa_project/cursor-front/src/components/knowledge-graph.tsx:130-154 | with no graph both views are empty; otherwise a view holds exactly the nodes of its type and exactly the edges both of whose ends are among them |
| KnowledgeGraph.TopPapersSpec | nasa_project/cursor-front/src/components/knowledge-graph.tsx:58-68 | the top papers are min(4, n) papers forming a sub-multiset of the list, in non-increasing score order |
| KnowledgeGraph.TopPapersMaximal | nasa_project/cursor-front/src/components/knowledge-graph.tsx:58-68 | a paper left out of the top four scores no higher than any paper shown |
| KnowledgeGraph.Render | nasa_project/cursor-front/src/components/knowledge-graph.tsx:58-76 | in one render the top papers are computed first, and because their sort reorders the prop, the nodes and edges are built from the ticked papers in score order |
| KnowledgeGraph.RenderedSelectionSpec | nasa_project/cursor-front/src/components/knowledge-graph.tsx:61-76 | the papers the relation view reads after the in-place sort are exactly the ticked papers, best score first |
| SynergyPage.TotalFundingFilter | nasa_project/cursor-front/src/app/synergy/page.tsx:384-385 | summing the funding over the high synergies is summing, over all pairs, the funding of the high ones |
| SynergyPage.FundingWhereBounded | nasa_project/cursor-front/src/app/synergy/page.tsx:384-385 | with no negative funding the selected pairs never need more than all pairs together |
| SynergyPage.Entries | nasa_project/cursor-front/src/app/synergy/page.tsx:409-426 | one entry per synergy, in order, each carrying the pair and its own funding and citation totals (missing values as 0) |
| SynergyPage.BudgetNumber | nasa_project/cursor-front/src/app/synergy/page.tsx:445 | the budget number (`parseFloat`, or 0 for a falsy result): 0 when the budget does not parse, its value otherwise |
| SynergyPage.MeanScore | nasa_project/cursor-front/src/app/synergy/page.tsx:446 | the mean similarity is NaN exactly for an empty list, and the average score otherwise |
| SynergyPage.RoiFor | nasa_project/cursor-front/src/app/synergy/page.tsx:444-448 | no synergies give NaN; otherwise the budget times the mean score times 2.5, rounded to the nearest integer |
| SynergyPage.RoiBounds | nasa_project/cursor-front/src/app/synergy/page.tsx:444-448 | with a non-negative budget and scores in [0, 1] the estimate lies between 0 and 2.5 times the budget, up to rounding |
| SynergyPage.AssessRiskSpec | nasa_project/cursor-front/src/app/synergy/page.tsx:450-456 | "Low Risk" exactly for tolerance Low with a mean above 0.8, "Medium Risk" exactly for Medium above 0.6, "High Risk - High Reward" exactly for High, and "Moderate Risk" otherwise; an empty list (NaN mean) never passes a threshold |
| SynergyPage.PhasesCover | nasa_project/cursor-front/src/app/synergy/page.tsx:458-466 | for a positive month count the three phases 1..a, a+1..b and b+1..m follow each other without gap or overlap and cover 1..m, with a = ⌈m/3⌉ and b = ⌈2m/3⌉ |
| SynergyPage.TimelineMonthsSpec | nasa_project/cursor-front/src/app/synergy/page.tsx:459 | a timeline starting with a non-zero count reads as that many months; one without a count gives the twelve-month default, split at 4 and 8 |
| SynergyPage.RiskMitigationSpec | nasa_project/cursor-front/src/app/synergy/page.tsx:488-515 | always exactly four strategies; Low and Medium get their own sets and every other tolerance, the empty one included, the aggressive set |
| SynergyPage.RecommendedSpec | nasa_project/cursor-front/src/app/synergy/page.tsx:380-417 | at most five recommended synergies: the first high ones of the input, in its order, each scoring above 0.7 and carrying its own totals |
| SynergyPage.AlternativesSpec | nasa_project/cursor-front/src/app/synergy/page.tsx:381-426 | at most three alternatives: the first medium ones, in input order, each scoring above 0.4 and at most 0.7 and carrying its own totals |
| SynergyPage.SelectionsDisjoint | nasa_project/cursor-front/src/app/synergy/page.tsx:380-381 | no synergy is both recommended and an alternative |
| SynergyPage.RecommendedOrder | nasa_project/cursor-front/src/app/synergy/page.tsx:409 | two high synergies within the first five keep their input order among the recommended ones |
| SynergyPage.ReportTotals | nasa_project/cursor-front/src/app/synergy/page.tsx:373-441 | the report raises the TypeError of a `reduce` over an empty array exactly when no synergy scores above 0.7 (the highlights at 438 reduce without an initial value at 483); otherwise its funding total is the funding of the high pairs summed over the whole list, and its citations, selections, ROI estimate, averages and risk label are those of the high synergies and the form |
| SynergyPage.AveragesSpec | nasa_project/cursor-front/src/app/synergy/page.tsx:392-431 | the two divisions by themselves give NaN (0 / 0) over an empty list, a case the report never returns because it raises first; otherwise the citation average divides by two projects per pair |
| SynergyPage.FormatNumberSpec | nasa_project/cursor-front/src/app/synergy/page.tsx:252-257 | a number gives nothing exactly when it is 0 or NaN, otherwise its text with the suffix; undefined and null give nothing, infinite numbers are rendered |
| SynergyPage.FormatNumeralSpec | nasa_project/cursor-front/src/app/synergy/page.tsx:252-257 | a rendered non-zero integer keeps its suffix |
| SynergyPage.NumericText | nasa_project/cursor-front/src/app/synergy/page.tsx:252-257 | non-empty text that converts to a number is kept with its suffix |
| SynergyPage.FormatTrailingTextSpec | nasa_project/cursor-front/src/app/synergy/page.tsx:253 | text with words after the number ("12 months") gives nothing, because `isNaN` converts it to NaN |
| SynergyPage.FormatBlankSpec | nasa_project/cursor-front/src/app/synergy/page.tsx:253 | blank non-empty text passes: it converts to 0, not to NaN, and only the empty string is excluded |
| SynergyPage.SimilarityColorMonotone | nasa_project/cursor-front/src/app/synergy/page.tsx:169-174 | a higher score never gets a worse colour, and green, yellow and orange start exactly at 0.8, 0.6 and 0.4 |
| MissionPlanner.FeasibilitySpec | nasa_project/cursor-front/src/app/mission-planner/page.tsx:48-67 | the score is the destination base plus the crew and duration adjustments, capped at 100; it lies in [20, 100] so the lower clamp at line 165 never acts; a longer mission never scores higher, a Mars mission never above 90, and a crew of 2..6 scores more than a crew of 7 unless it is already at 100 |
| MissionPlanner.RadiationDoseSpec | nasa_project/cursor-front/src/app/mission-planner/page.tsx:75 | the Mars dose `Math.round(0.5 + days · 0.001)` is 1 plus one per full thousand days |
| MissionPlanner.RisksLength | nasa_project/cursor-front/src/app/mission-planner/page.tsx:69-109 | two risks for Mars and for the Moon, none for other destinations, and two more past 300 days, which come last as muscle atrophy then bone density loss |
| MissionPlanner.RisksSeverity | nasa_project/cursor-front/src/app/mission-planner/page.tsx:69-109 | a risk is High only past 300 days, and only the Mars radiation risk, first in the list, carries a dose |
| MissionPlanner.ResourceTotalsSpec | nasa_project/cursor-front/src/app/mission-planner/page.tsx:111-117 | each of food, water and oxygen is person-days times its rate rounded, so within half a kilogram of it; for a non-negative mission oxygen never exceeds food, nor food water |
| MissionPlanner.ExerciseHoursSpec | nasa_project/cursor-front/src/app/mission-planner/page.tsx:173 | `Math.round(days / 30 · 2)` is within half an hour of days/15, and exactly days/15 when 15 divides the duration |
| MissionPlanner.RecommendationsSpec | nasa_project/cursor-front/src/app/mission-planner/page.tsx:120-134 | five to seven recommendations: the standard five, then crew rotation exactly past 500 days and conflict resolution exactly for crews over six |
| MissionPlanner.GenerateMockMissionAnalysis | nasa_project/cursor-front/src/app/mission-planner/page.tsx:45-180 | the analysis carries the clamped score, the risks, the resource totals, the exercise requirement and the recommendations the lemmas above describe; sample real-time data exactly when it was requested; and the given timestamp |
| MissionPlanner.ScoreMission | nasa_project/cursor-front/src/app/mission-planner/page.tsx:49-66 | the successive updates of `baseScore`, once clamped to [0, 100], give the score FeasibilitySpec describes |
| MissionPlanner.CollectRisks | nasa_project/cursor-front/src/app/mission-planner/page.tsx:69-109 | the pushes onto the risk list give the list RisksLength and RisksSeverity describe |
| MissionPlanner.CollectRecommendations | nasa_project/cursor-front/src/app/mission-planner/page.tsx:120-134 | the pushes give the recommendations RecommendationsSpec describes |
| ManagerDashboard.AllocationSplit | nasa_project/cursor-front/src/components/manager-dashboard-hub.tsx:72-78 | the amount for the total percentage is the sum of the four domain amounts; it and the remaining budget shown at line 789 add up to the budget; the remainder is negative exactly when more than 100% is allocated, and zero exactly at 100% |
| ManagerDashboard.ExpectedRoiBounds | nasa_project/cursor-front/src/components/manager-dashboard-hub.tsx:80-88 | with slider values the expected ROI multiple lies between two and three times the allocated fraction, so within [0, 6]; the default 35/25/20/20 split gives 2.415 |
| ManagerDashboard.SuccessProbabilitySpec | nasa_project/cursor-front/src/components/manager-dashboard-hub.tsx:818 | `Math.max(60, 100 - Math.abs(total - 100) * 2)` lies in [60, 100], is 100 exactly at 100%, is symmetric about 100, falls as the total moves away from 100, and is 60 at or beyond 80 and 120 |
| ManagerDashboard.RiskLevelSpec | nasa_project/cursor-front/src/components/manager-dashboard-hub.tsx:810-818 | the risk badge (High above 100%, Medium above 80%, Low otherwise) only rises with the total; a Medium badge comes with a success probability of at least 62, a High one with at most 98 |
| ManagerDashboard.LookupRate | nasa_project/cursor-front/src/components/manager-dashboard-hub.tsx:145-166 | a found rate is one listed for the key; no rate means no entry has the key |
| ManagerDashboard.SuccessRateAbsent | nasa_project/cursor-front/src/components/manager-dashboard-hub.tsx:141-142 | no estimate is given exactly when a domain is empty or both domains are the same |
| ManagerDashboard.SuccessRateListed | nasa_project/cursor-front/src/components/manager-dashboard-hub.tsx:163-166 | a pair listed once as `domain1-domain2` with a non-zero rate gets that rate |
| ManagerDashboard.SuccessRateSymmetric | nasa_project/cursor-front/src/components/manager-dashboard-hub.tsx:163-166 | when the table never lists a pair in both orders, the estimate does not depend on the order of the two domains |
| ManagerDashboard.SuccessRateRange | nasa_project/cursor-front/src/components/manager-dashboard-hub.tsx:141-166 | with a random draw in [0, 1) the estimate lies in [60, 95]: the listed rates are 69..95 and the random fallback 60..89 |
| PaperLists.IncludesIgnoresCase | nasa_project/cursor-front/src/app/papers/page.tsx:47-50 | the lower-cased `includes` match ignores letter case on both the text and the term |
| PaperLists.StrLeTotal | nasa_project/cursor-front/src/app/papers/page.tsx:64 | the title order is total |
| PaperLists.StrLeTransitive | nasa_project/cursor-front/src/app/papers/page.tsx:64 | the title order is transitive |
| PaperLists.StrLeAntisymmetric | nasa_project/cursor-front/src/app/papers/page.tsx:64 | two titles ordered both ways are equal |
| PaperLists.ComparatorConsistent | nasa_project/cursor-front/src/app/papers/page.tsx:59-69 | each of the three sort orders (citations descending, title ascending, date newest first) is a total preorder, so the sort is well defined |
| PaperLists.SortedSelection | nasa_project/cursor-front/src/app/papers/page.tsx:45-69 | a filtered and sorted list holds exactly the papers that pass, each as often as in the input, in the chosen order, with tied papers kept in input order |
| PaperLists.FilteredPapersSpec | nasa_project/cursor-front/src/app/papers/page.tsx:45-69 | the papers page shows exactly the papers passing the text, methodology and year filters, each as often as in the page, sorted by the chosen order with ties in arrival order |
| PaperLists.SortOrderSpec | nasa_project/cursor-front/src/app/papers/page.tsx:59-69 | neighbours in the sorted list: non-increasing citations for "citations", non-decreasing titles for "title", and newest first for "date" and any other value |
| PaperLists.UnfilteredShowsAll | nasa_project/cursor-front/src/app/papers/page.tsx:45-58 | with the search cleared and both filters at "all" every paper of the page is shown |
| PaperLists.MethodologiesSpec | nasa_project/cursor-front/src/app/papers/page.tsx:156-158 | a methodology is offered exactly when it is non-empty and some paper names it |
| PaperLists.UniqueMethodologiesSpec | nasa_project/cursor-front/src/app/papers/page.tsx:156-159 | the methodology options are the papers' non-empty methodologies, each once, in the order the papers first name them |
| PaperLists.SplitFirstPrefix | nasa_project/cursor-front/src/app/papers/page.tsx:162 | the first part of `split('-')` is a prefix of the date |
| PaperLists.YearOfSpec | nasa_project/cursor-front/src/app/papers/page.tsx:162 | the year is the part of the date before the first '-', so it holds no '-' and every date contains its year |
| PaperLists.YearsSpec | nasa_project/cursor-front/src/app/papers/page.tsx:161-162 | a year is offered exactly when it is non-empty and is the year of some paper |
| PaperLists.YearGeConsistent | nasa_project/cursor-front/src/app/papers/page.tsx:163 | the descending year order is a total preorder |
| PaperLists.UniqueYearsSpec | nasa_project/cursor-front/src/app/papers/page.tsx:161-164 | the year options are the papers' non-empty years, each once, in strictly descending order |
| PaperLists.YearOptionKeepsItsPapers | nasa_project/cursor-front/src/app/papers/page.tsx:55-56 | picking a listed year keeps every paper the year was taken from |
| PaperLists.PageChangeShowsAll | nasa_project/cursor-front/src/app/papers/page.tsx:71-77 | a page change moves to the page, keeps the sort order and clears search and filters, so the whole new page is shown, sorted |
| PaperLists.SearchResultsSpec | nasa_project/cursor-front/src/app/search/page.tsx:32-52 | the search page shows exactly the papers whose title, abstract, authors, keywords or journal match the term, sorted by the chosen order, never more than it was given; an empty term shows them all |
| PaperLists.DashboardPapersSpec | nasa_project/cursor-front/src/components/scientist-dashboard.tsx:63-75 | the dashboard shows exactly the papers passing both the keyword and the topic filter, in their order; with both filters empty it shows every paper |
| PaperLists.MatchesNest | nasa_project/cursor-front/src/components/scientist-dashboard.tsx:63-72 | the dashboard's text match implies the papers page's, which implies the search page's; the papers page adds only the authors and the search page only the journal |
| PaperLists.MatchesIgnoreCase | nasa_project/cursor-front/src/app/search/page.tsx:33-38 | none of the three text matches depends on the letter case of the term |
| PaperLists.DashboardPageChangeShowsAll | nasa_project/cursor-front/src/components/scientist-dashboard.tsx:85-90 | a page change on the dashboard clears both filters, so the whole new page is shown in order |
| InvestmentReport.FormatValueSpec | nasa_project/investment_report_generator.py:82-86 | format_value gives nothing exactly for None, the empty string, zero (False and 0.0 included) and NaN; any other value is rendered with the suffix |
| InvestmentReport.FormatValueTruthy | nasa_project/investment_report_generator.py:82-86 | a rendered value is never the empty text when floats render as non-empty text |
| InvestmentReport.FormatPercentageSpec | nasa_project/investment_report_generator.py:88-92 | a float becomes its rounded-half-to-even percentage; None and NaN give nothing |
| InvestmentReport.FormatPercentageZero | nasa_project/investment_report_generator.py:88-92 | zero, as an int or a float, gives "0%" rather than nothing |
| InvestmentReport.FormatPercentageNear | nasa_project/investment_report_generator.py:92 | the rounded percentage is within half a point of value * 100 |
| InvestmentReport.SummaryTableSpec | nasa_project/investment_report_generator.py:96-101 | the summary table holds exactly the keys "A-B" of the four listed ordered pairs, each with its own text |
| InvestmentReport.SynergySummarySpec | nasa_project/investment_report_generator.py:94-104 | a pair gets its own summary exactly when it is one of the four ordered pairs; any other pair gets the general sentence naming both domains |
| InvestmentReport.ReversedPairGeneric | nasa_project/investment_report_generator.py:103-104 | each listed pair read the other way round gets the general sentence |
| InvestmentReport.PassesSpec | nasa_project/investment_report_generator.py:189-198 | a report number passes the format_value check exactly when it is present, non-zero and, for a float, rendered as non-empty text |
| InvestmentReport.PercentOfSpec | nasa_project/investment_report_generator.py:88-92 | on the numbers of the report data format_percentage never raises, and gives a percentage exactly when the number is present |
| InvestmentReport.TitleDetailsSpec | nasa_project/investment_report_generator.py:118-129 | the three fixed detail rows come first; the budget, timeline and risk-tolerance rows follow in that order, each exactly when its value is truthy |
| InvestmentReport.FinancialItemsSpec | nasa_project/investment_report_generator.py:146-158 | no financial item is listed exactly when no value passes its check; at most four are listed, the total funding first when it passes |
| InvestmentReport.BudgetUtilizationListed | nasa_project/investment_report_generator.py:152-153 | the budget-utilization item is listed exactly when the value is given, with its percentage |
| InvestmentReport.AppendParas | nasa_project/investment_report_generator.py:163-164 | the loop appends one paragraph per item, in order, after the story as it was |
| InvestmentReport.ListSectionSpec | nasa_project/investment_report_generator.py:160-164 | a listing section starts with its heading, shows the fallback exactly when there is no item, and otherwise lists every item in order |
| InvestmentReport.AppendListSection | nasa_project/investment_report_generator.py:243-249 | appends the heading and then the items or the fallback |
| InvestmentReport.CreateFinancialSummary | nasa_project/investment_report_generator.py:143-166 | the financial summary appended to the story is the heading and the passing items, or the fallback sentence |
| InvestmentReport.SynergyMetricsSpec | nasa_project/investment_report_generator.py:186-204 | no metric is listed exactly when no check passes; at most five are listed, the similarity score first whenever it is given |
| InvestmentReport.ProjectParasSpec | nasa_project/investment_report_generator.py:206-236 | an absent project shows nothing; otherwise its title (or "Unknown"), plus a detail line exactly when its funding, citations or status passes |
| InvestmentReport.CreateSynergyBlock | nasa_project/investment_report_generator.py:177-238 | a synergy block is its numbered header, its summary, its metrics as bullet points and the lines of projects A and B |
| InvestmentReport.SynergyBlockHeaders | nasa_project/investment_report_generator.py:179-180 | a synergy block holds one subsection title, its own numbered header |
| InvestmentReport.BlocksHeaders | nasa_project/investment_report_generator.py:177 | the subsection titles of the first n blocks are their numbered headers, in order |
| InvestmentReport.CreateSynergiesSection | nasa_project/investment_report_generator.py:168-238 | the loop appends the heading and one block for each of the first five synergies, or the fallback when there is none |
| InvestmentReport.SynergiesFallback | nasa_project/investment_report_generator.py:172-175 | the "No synergy data available." fallback appears exactly when there is no synergy |
| InvestmentReport.SynergiesHeaders | nasa_project/investment_report_generator.py:177-180 | the section shows min(n, 5) synergies, the k-th under the header "k. A ↔ B" of the k-th synergy |
| InvestmentReport.CreateRiskMitigationSection | nasa_project/investment_report_generator.py:240-251 | appends the heading and each strategy as a bullet point, or the fallback |
| InvestmentReport.RiskMitigationSpec | nasa_project/investment_report_generator.py:244-249 | every strategy is listed in order as "• strategy", and the fallback appears exactly when there is none |
| InvestmentReport.CreateTimelineSection | nasa_project/investment_report_generator.py:253-272 | appends the heading and the truthy phases as bullet points, or the fallback |
| InvestmentReport.TimelineSpec | nasa_project/investment_report_generator.py:257-270 | the fallback appears exactly when no phase is truthy; one line is listed per truthy phase, phase 1 first when truthy |
| InvestmentReport.CreateSuccessMetricsSection | nasa_project/investment_report_generator.py:274-310 | appends the heading and the three term blocks, each with its metrics or its own fallback |
| InvestmentReport.SuccessMetricsSpec | nasa_project/investment_report_generator.py:274-310 | the three term titles always appear in order, and each term takes one line per metric or one fallback line |

## Left out

- TF-IDF vectorisation, sentence embeddings and cosine similarity are foreign numeric libraries. Every similarity matrix is an input, and so is the TF-IDF ranking of papers against a query in the hypothesis generator.
- FAISS search, the summariser, the Ollama calls, the chat answers, the HTTP route wiring and `HTTPException` plumbing call services or frameworks that cannot be seen. A route's 400 response is modelled as an `Err` value.
- File reading (CSV, JSONL, JSON), pandas loading and the module-level service instances are I/O. The records are passed in as sequences, and a failed read is a `None` or `Err` input. `try`/`except` fallbacks are modelled as those error values.
- `print`, logging and the matplotlib, networkx drawing and GraphML export code only produce output and are not modelled.
- `clean_chunk_text` in `main.py` is a set of regular-expression substitutions. `combine_chunks` takes it as a function parameter.
- The random columns of `data_processor.py` (fiscal year, funding, ROI, status), the manager dashboard's random fallback and the random UI numbers are nondeterministic. They are parameters, or the value is left out where it is only displayed.
- Clock reads are parameters: the current year, the mission analysis time stamp and the report date. The readiness service's `analysisDate` is left out of its metadata.
- `Date` parsing in the paper sorts is given as a precomputed timestamp field. An invalid date, whose NaN timestamp makes the comparator return 0 against every paper, cannot be represented. `localeCompare` is modelled as code-unit order.
- Floating point is modelled by exact reals: Python `round` halves to even and `Math.round` halves upwards, both over reals. Python `float()` on funding strings is modelled for plain decimals only (sign, digits, optional fraction, surrounding white space). A blank CSV `funding_amount` cell, which pandas reads as NaN rather than as a missing key, is not modelled: `Funding` holds only a number or a text, so the NaN that `min` then returns or drops, depending on argument order, has no counterpart.
- JavaScript number parsing reads decimal text only. Exponent notation, hexadecimal and the text "Infinity" are not read.
- The character classes cover ASCII only. The white space, word characters and digits used for Python's `\s`, `\w`, `\d`, `split()` and `strip()` are ASCII, as is case folding, while Python's classes are Unicode-aware. Python's ASCII white space is tab, LF, VT, FF, CR, the separators U+001C to U+001F and space; JavaScript's (`trim`, `Number`, `parseFloat`) is the same without U+001C to U+001F. There is no Unicode normalisation.
- A string is a sequence of characters. JavaScript `length` and `substring` count UTF-16 code units, so the model's lengths agree with the source only for text without characters outside the Basic Multilingual Plane. This affects KnowledgeGraph.NodeCaption and the 150-character `short` of the readiness service's key findings (MissionReadiness.ShortSpec).
- PairRanking.MakeRecord: a pair record keeps the indices, the two fundings, the rounded score, the savings and the severity. Each project's display block is not modelled: `paper_id` (default `paper_<i>`), `title` (default "Unknown Title", or "N/A" in the duplication detector), `abstract` (cut to its first 200 characters plus "..." when longer than 200), `team_size` and `status` (default "Unknown" or "N/A") and the detector's `roi` (default "N/A"). These fields only echo the input rows, so every consumer of the records (PairRanking.FindPairs, the services' pair lists and the summaries' top lists) omits them too.
- pandas `sort_values` sorts with an unstable quicksort. The model sorts stably and claims only order and permutation where pandas sorts.
- The member order of a networkx component (a Python set) is implementation-defined. It is modelled as ascending node order.
- CrossDomainSynergy.NetworkSpec: the network edge weight is the source's running average `(w + s) / 2`. The lemma states only that it lies between the smallest and the largest score of the joining rows, not its exact value.
- The knowledge graph's circular layout, edge curvature and the `Math.log` funding term of `getTopPapers` are trigonometry and floats. `getTopPapers` takes its score as a function parameter with real values, so a NaN score (from a non-numeric funding), which makes the comparator return NaN and the sort order engine-dependent, is not modelled. Its in-place sort of the prop array is modelled on a value.
- The similarity service's paper ids are ids as dictionary keys: a boolean id is the number 1 or 0 it equals as a key, so the merged `paper_id` shows the number. A NaN id, which `json.loads` accepts and which never equals itself, is not modelled.
- KnowledgeGraph.SelectedDataSpec: states the order of the list it is given. In the component, `getTopPapers` has already sorted the `papers` prop in place, and KnowledgeGraph.Render and KnowledgeGraph.RenderedSelectionSpec state the resulting score order. The mutation of the prop array itself is modelled on a value.
- The breadcrumb's icons are the only thing the user role changes, so icons and role are not modelled.
- The synergy page's `generateInvestmentHighlights`, `generateSuccessMetrics` and `getSynergySummary`, the report text layout and the PDF download fetch are left out, except for the TypeError the highlights raise over no high synergy, which SynergyPage.InvestmentReport returns as its error. Only the report helpers listed in the table are modelled.
- The real-time data of the back-end mission planner arrives as an untyped dict. It is modelled as a record of optional parts (ISS crew, radiation, research updates, resource consumption) plus a flag for other keys, which make the dict truthy; resource consumption is not read by the modelled functions.
- `calculate_resource_requirements_with_realtime` and `determine_crew_health_requirements_with_realtime` in `main.py` are not modelled.
- Two things the hypothesis generator reads are inputs: the TF-IDF ranking and the iteration order of the Python set of query domains (`list(set(found_domains))`). The trend averages are given in tenths so that their arithmetic is exact.
- The `if hypothesis:` guard of the hypothesis generator is always true, so it is not a separate branch. The `role` argument of the generator is unused and not modelled.
- The readiness service's `computeNLPEnhancedAnalysis` is a stub that returns constants and is not modelled. Its `env` argument is carried without effect, as in the source. The category rules file is a parameter.
- The investment report's reportlab document building, styles and tables are layout. A section is modelled as its list of lines. Float rendering (`repr`, `:.1f`) is a rendering parameter, and an empty project dict is `None`. The report numbers are an int or a float, and an entry present as `null` reads like a missing one: a string `totalFundingRequired`, on which `:.1f` raises `ValueError`, and a `None` domain or title, which renders as "None" instead of the default, are not modelled.
- MissionReadiness.FindRuleSpec: states only the own-key search over the rules. What `categoryRules[categoryId]` finds for a name inherited from `Object.prototype` is stated by MissionReadiness.LookupRuleSpec.
- The readiness service's publication years are absent, `null` or whole numbers. A year given as text or as a fraction is not modelled.
- The sample-data script loads the publication list itself in every helper. Here the loaded list is passed in.
- LoadSample.PublicationsStats: the statistics are stated over the intended counts. When an inherited name such as `constructor` holds text (LoadSample.TallyAsWrittenSpec), the source's `b - a` comparator yields NaN, and that sort order is not modelled.
- The sample-data publications have whole-number years.

## Findings

| source | as written | input that shows it | evidently intended | confidence | as-written member | corrected member |
|---|---|---|---|---|---|---|
| nasa_project/cross_domain_synergy_agent.py:413-438 | with no synergy pairs, `self.synergy_pairs` is `pd.DataFrame([])` (line 249), a frame without columns, so reading its `Domain_A` column for the first valid domain raises `KeyError` (with no valid domain at all the loop appends nothing and `sort_values('Synergy_Count')` at line 438 raises `KeyError` on that column instead) | two projects in two different domains, minimum domain size 1, and no pair reaching the threshold | every domain gets zero synergies and a zero average score | not executed | `CrossDomainSynergy.DomainStatisticsAsWritten`, with `CrossDomainSynergy.DomainStatisticsCrash` | `CrossDomainSynergy.DomainStatistics`, with `CrossDomainSynergy.EmptyStatistics` |
| nasa_project/cursor-front/src/components/dashboard-breadcrumb.tsx:62-69 | the manager page name is looked up with `managerPages[currentPage]` on an object literal, which is truthy for names an object inherits (`constructor`, `toString`, ...) | the path `/manager/constructor` | only the listed manager pages add a third crumb | not executed | `DashboardBreadcrumb.PageInfoAsWritten`, with `DashboardBreadcrumb.InheritedNameCrumb` | `DashboardBreadcrumb.PageInfo` |
| nasa_project/services/missionReadinessService.js:121-128 | the category is looked up with `categoryRules[categoryId]` on the parsed rules object, so an inherited name such as `constructor` passes the `!rules` guard, and spreading its missing `implications` throws a TypeError | `generateDesignImplications([], "constructor")` with no rule of that id | a category without rules gets "Category rules not found" | not executed | `MissionReadiness.DesignImplicationsAsWritten`, with `MissionReadiness.ConstructorCategoryThrows` | `MissionReadiness.DesignImplications`, with `MissionReadiness.DesignImplicationsSpec` |
| nasa_project/scripts/load_sample.js:77-82 | the keywords are counted into `{}` by reading `keywordCounts[keyword]` and falling back to 0 only for a falsy value, which for an inherited name reads the inherited value: `constructor` then holds text instead of a number, and `__proto__` is never stored | a publication whose keywords are `["constructor"]`, or `["__proto__"]` | every keyword is counted from zero | not executed | `LoadSample.TallyAsWrittenSpec`, with `LoadSample.InheritedKeywordTally` | `LoadSample.KeywordCounts`, with `LoadSample.TallyAsWrittenAgrees` |
