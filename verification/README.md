# CloudWatch log graph: a verified model

A Dafny model of the CloudWatch collector's log-graph pipeline: paging log groups under an entry bound,
clustering messages with an online Drain tree, consolidating stack-trace templates, attributing every entry to a
surviving template, bucketing entries into chunks, building streams, resolving labels and assembling the graph.
`dafny verify dfyconfig.toml` checks all of it.

## How it is laid out

| file | part of the collector |
|---|---|
| `Fetch.dfy`, `FetchFilters.dfy`, `Normalize.dfy`, `LineShapes.dfy`, `Ingest.dfy` | paging against an arbitrary server, what the filters keep, reading a line, what a line is read as, and what the later stages may assume of entries |
| `Tokens.dfy`, `PrefixTree.dfy`, `Drain.dfy`, `DrainTheorems.dfy`, `DrainShapes.dfy`, `DrainOverflow.dfy` | clustering as a state machine on values, what every run keeps, which messages meet, and runs in which overflow breaks distinctness |
| `Templates.dfy`, `DrainEngine.dfy` | the clustering engine on the heap: nodes, clusters and templates updated in place |
| `Consolidation.dfy`, `ConsolidationTheorems.dfy`, `MergeNames.dfy`, `Consolidators.dfy` | recognising, grouping, merging and folding trace fragments, on values and on the heap, and what merges are called |
| `Absorption.dfy`, `IterationOrder.dfy`, `Attribution.dfy`, `Remapping.dfy` | the absorption relation re-pointed in place, when map order shows in it, the remap, and the loops that compute them |
| `Determinism.dfy`, `Bursts.dfy`, `StaleMerge.dfy`, `MimicLines.dfy` | exactly when processing depends on map order, and log lines on which re-pointing goes wrong |
| `Pipeline.dfy`, `Ranges.dfy`, `Processing.dfy` | clustering, consolidation and attribution together, and the loop that drives them |
| `Cardinality.dfy`, `Streams.dfy`, `StreamLabels.dfy`, `Chunks.dfy`, `ChunkText.dfy` | label classification, stream identity, chunks, and what their texts and ids say |
| `Resolve.dfy`, `ResolveTheorems.dfy`, `Correlation.dfy`, `CorrelationTheorems.dfy` | resolution and cross-service correlation, and both in terms of the resources, templates and edges given |
| `Graph.dfy`, `GraphIdentity.dfy`, `Collect.dfy`, `CollectLabels.dfy`, `Walk.dfy` | nodes and edges, what each id and edge stands for, the stage order, and a collect from end to end |
| `Alias.dfy` | the word scan behind template aliases |
| `Model.dfy`, `Strings.dfy`, `TextLines.dfy`, `Sorting.dfy`, `Counting.dfy` | shared values, string operations, reading text back by lines, stable sorting, counting marked positions |

Code that updates things in place is modelled by methods on classes or loops, each proved against a function on
values; the theorems are about those functions. Masking, hashing, alias derivation, line recognition, name
comparison, the rendering of instants, JSON decoding and Unicode tables are arbitrary functions (`Rules`,
`Rendering`, `Reader`, `Lexicon`); that a hash does not collide, or is never empty, is an explicit precondition
wherever it is used. Map iteration is an arbitrary order.

## Where the code and its comments differ

The model follows the code.

- `cloudwatch/preprocess.go:61-64` says messages of different length buckets never join one template. They do in the
  overflow fallback, and `LengthsMixOnlyInFallback` says exactly when.
- `cloudwatch/drain.go` hashes a pattern into an id, and later stages treat ids as distinct. A run keeps them distinct
  if and only if no message broadens a cluster of its own leaf into the pattern of a cluster of another leaf
  (`DistinctUnlessTwins` for one message, `RunIsDistinctUnlessTwins` and `IdsAreDistinctUnlessTwins` for runs). That takes
  a cluster which an overflow merge has displaced (`TwinsNeedDisplacement`), so below the cap it cannot happen
  (`StepIsDecided`); a creation or the overflow merge itself never does it. In any engine at its cap that holds two patterns differing in
  their first word, two more messages can do it (`TwinsAtTheCap`), and the collector's own configuration is brought there by
  messages its masks leave alone (`OverflowLeavesTwins`, `TwinsAreSaid`, `DefaultConfigLeavesTwins`).
- `cloudwatch/consolidate.go:29-37` calls re-pointing exact. One in-place pass is exact for every iteration order if
  and only if no merged id is already given away (`FlatteningNeedsFreshSurvivors`), and so for the collector's own chain
  (`OnlyFreshChainsAreExact`). The Go merges always meet that
  (`GoMergesAreFresh`); only the Python merges can fail it (`OnlyPythonMergesMatter`), and they cannot when no pattern
  begins with `Python ` (`UnmarkedMergesAreFresh`). They do fail it when one burst holds a line that reads like the label
  of a later burst: then every iteration order attributes the later burst's entries to the earlier one's merge
  (`MimicMisleadsEveryOrder`), and the published count is wrong unless two counts happen to be equal (`MimicMiscounts`).
  Six log lines do it (`ScriptMakesALadder` for two bursts, `PythonMergesCanMiscount`): the first reads
  `Python exception: x = await Traceback`, the fourth `x = await Traceback`, and the others await calls too.
- `cloudwatch/consolidate.go:18-37` gives determinism as the reason for this design: re-pointing cannot depend on map
  order. It can. The pass leaves one relation for all orders if and only if no key's survivor was absorbed by one that was
  absorbed in turn (`PassIsOrderFree`, `RelationIsDeterministic`). The ids that entries get agree for all orders if and
  only if every such key that did not survive is sent to one template whichever of those it stops at
  (`ProcessingIsDeterministic`), and that decides the whole collect and the emitted graph
  (`CollectIsDeterministic`, `GraphIsDeterministic`). Exact attribution implies it (`UndisturbedHasOneOutcome`). Nine log
  lines fail it: three bursts of three, far apart, that begin
  `Python exception: Python exception: x = await Traceback`, `Python exception: x = await Traceback` and
  `x = await Traceback`, the others awaiting calls of other lengths. Two runs over them give the last burst's entries two
  different ids, both live (`PythonMergesCanDiverge`), and emit two different graphs (`NineLinesGiveTwoGraphs`). With two
  such bursts runs agree, with three or more they do not (`LinesAreOrderFree`).
- `cloudwatch/chunk.go:96-106` says `windowStart` floors. It truncates toward zero, and floors exactly from the epoch on
  or on a boundary (`WindowFloorsFromEpoch`).
- `cloudwatch/fetch.go:78-80` names a log group and says that it holds entries. The group named is the first one left
  unread; the entry found may lie in a later one (the last `ensures` of `FetchAll`).
- `cloudwatch/stream.go:14-17` takes the hashed text for the label set. The text is injective when no key holds `=` and
  no value a newline; either half dropped, two sets collide (`SeparatorInKeyCollides`, `TerminatorInValueCollides`).
  The labels the collector itself writes are clean whenever group and stream names are single lines (`WalkIsClean`).
- `cloudwatch/pipeline.go:56-62` says the correlation detector refuses nothing this pipeline emits. It holds, overflow
  and stale merges included, when the two id hashes are never empty (`NothingIsRefused`).
- `cloudwatch/pipeline.go:39-43` and `cloudwatch/correlate.go:141-147` say that the evidence on a correlation cannot name
  another resource than the one its dependency was confirmed for. The evidence is looked up by label value alone, so it can:
  it never does, whatever the cloud declares, if and only if the service's name was not last met as a namespace label
  (`EvidenceIsConsistent`). The collector's own entries carry no namespace label (`CollectedEvidenceAgrees`).

## Model

| member | source | states |
|---|---|---|
| Tokens.ComputeSimilarity | cloudwatch/drain.go:223-234 | the scanning loop yields the fraction whose product with the token count is the number of positions at which the lists agree or either holds a wildcard; unequal counts score zero |
| Tokens.SimilarityCountsAgreements | cloudwatch/drain.go:220-234 | similarity times the token count is the number of agreeing positions, wherever in the lists they lie |
| Tokens.SimilarityRange | cloudwatch/drain.go:223-234 | similarity lies between 0 and 1, is 1 exactly for non-empty lists of equal length that agree everywhere up to wildcards, and is 0 across token counts |
| Tokens.ComputeMerge | cloudwatch/drain.go:238-251 | the merging loop keeps a position the message agrees with or leaves open, makes any other a wildcard, and leaves a template of another length alone |
| Tokens.MergeFixpoint | cloudwatch/drain.go:238-251 | a message fully agrees with what it was merged into, so a candidate equal to the merge would have scored 1 |
| Tokens.MergeLosesLiterals | cloudwatch/drain.go:238-251 | a merge that changes a template loses at least one literal, so an id moves at most once per literal |
| Tokens.ComputeVars | cloudwatch/drain.go:264-275 | the loop collects the message tokens at the template's wildcards, in order |
| Tokens.VariablesRestoreMessage | cloudwatch/drain.go:264-275 | round trip: a template's wildcards filled with the captured variables give the message back |
| PrefixTree.RoutingIsStable | cloudwatch/drain.go:105-115 | whatever path is created in between, a token list that reached a leaf keeps descending to the same leaf |
| PrefixTree.CollapsedKeyStaysCollapsed | cloudwatch/drain.go:174-187 | a literal sent to the wildcard child by the cap never gets a child of its own later |
| PrefixTree.CapBoundsChildren | cloudwatch/drain.go:174-187 | under the cap's invariant no node has more than MaxChildren + 1 children |
| PrefixTree.BroadeningStaysInLeaf | cloudwatch/drain.go:105-115 | a pattern broadened by a message of its own leaf is still routed to that leaf |
| Drain.Best | cloudwatch/drain.go:191-218 | the search yields the first candidate of greatest similarity above the threshold, and nothing only if none exceeds it |
| DrainTheorems.AbsorbBroadens | cloudwatch/drain.go:155-170 | closed form of broadening: a position holds the creator's token exactly while every equal-length member agrees with it or is a wildcard there |
| DrainTheorems.LengthsMixOnlyInFallback | cloudwatch/drain.go:121-128 | a message enters a cluster of another token count if and only if the leaf has no match, the cap is reached, no cluster of its length matches and the last cluster has another length |
| DrainTheorems.CreationIsNew | cloudwatch/drain.go:79-93 | a message that creates a cluster has tokens no other cluster has |
| DrainTheorems.LeafMergeIsNew | cloudwatch/drain.go:191-201 | a merge inside a leaf never reproduces another routed cluster's pattern: that cluster would have scored 1 and won |
| DrainTheorems.OverflowMergeIsNew | cloudwatch/drain.go:121-128 | an overflow merge never makes two patterns equal |
| DrainTheorems.RunKeepsInv | cloudwatch/drain.go:79-93 | every run keeps the shape of the tree, both caps, every cluster's exactness and, unless displaced, routing and distinctness |
| DrainTheorems.TwinsNeedDisplacement | cloudwatch/drain.go:121-128 | when a message broadens a cluster into a pattern held in another leaf, one of the two clusters is no longer routed to its own leaf |
| DrainTheorems.DistinctUnlessTwins | cloudwatch/drain.go:79-93 | one message keeps all patterns distinct if and only if it does not broaden a cluster of its leaf into the pattern of a cluster of another leaf |
| DrainTheorems.StepIsDecided | cloudwatch/drain.go:79-93 | in every run that equivalence decides each step, and below MaxClusters no step makes twins |
| DrainTheorems.RunIsDistinctUnlessTwins | cloudwatch/drain.go:79-93 | the patterns stay distinct throughout a run if and only if no message makes twins |
| DrainTheorems.TemplatesAreDistinct | cloudwatch/drain.go:155-170 | in every run two clusters share an id or a pattern exactly when they share their tokens |
| DrainTheorems.BelowCapNothingStrays | cloudwatch/drain.go:89-91 | a run that ends below MaxClusters has displaced nothing |
| DrainTheorems.CapsHold | cloudwatch/drain.go:89-91 | no run exceeds MaxClusters clusters, nor MaxChildren + 1 children at a node |
| DrainTheorems.ClustersAreFaithful | cloudwatch/drain.go:155-170 | in every run each cluster's pattern, id, alias, count, severity, range and id moves are exact functions of its members |
| DrainTheorems.MembersAreTheJoined | cloudwatch/drain.go:79-93 | a cluster's members are exactly the entries reported to join it, in order |
| DrainTheorems.EveryMessageJoins | cloudwatch/drain.go:79-93 | a message joins a cluster exactly when it tokenizes to something, overflow included |
| DrainTheorems.CountsAreConserved | cloudwatch/drain.go:155-170 | the counts of all clusters add up to the entries that joined one, overflow included |
| DrainShapes.RoutesAreAlike | cloudwatch/drain.go:105-115 | two token lists take the same way down exactly when no bucket boundary, 3, 8 or 15, lies between their counts and their leading tokens are pairwise equal or both variable, a digit anywhere making a token variable |
| Strings.FieldsLoseOnlySpace | cloudwatch/preprocess.go:59 | a masked message is its tokens with white space around them, some between any two, and nothing else |
| DrainShapes.MaskedAlikeJoinAlike | cloudwatch/preprocess.go:48-59 | messages that mask to one text join the same cluster of any state |
| DrainShapes.UnlikeMakesItsOwn | cloudwatch/drain.go:79-93 | with room left, a message that agrees with no cluster on more than the threshold's share of positions becomes a cluster of its own, the others unchanged |
| DrainShapes.AlikeJoins | cloudwatch/drain.go:191-201 | a message routed like a cluster it agrees with on more than that share creates none: it joins one at least as much alike, which gains exactly it |
| DrainShapes.TwoMessages | cloudwatch/drain.go:79-93 | two messages routed alike end in one template of count two, their merge, exactly when they agree on more than the threshold's share; otherwise in two templates |
| DrainShapes.TwoRoutedApart | cloudwatch/drain.go:105-115 | two messages not routed alike end in two templates, however alike they read |
| DrainShapes.ClustersShowTheirMembers | cloudwatch/drain.go:155-170 | in every run a cluster's severity is the first of the highest rank among its members, and its example rows are what the first three members that filled any wildcard of the pattern they met filled it with |
| DrainOverflow.TwinsAtTheCap | cloudwatch/drain.go:121-128 | in any state at the cap, an overflow merge followed by an ordinary merge in another leaf gives two clusters one pattern |
| DrainOverflow.OverflowLeavesTwins | cloudwatch/drain.go:79-93 | a family of runs, for every configuration with two levels, three children, two clusters and a threshold below one half, that ends with two clusters of one pattern and one id |
| DrainOverflow.TwinsAreSaid | cloudwatch/preprocess.go:47-54 | such a run exists for any masks that leave its messages, "a p", "1 p", "w w w w" and longer, "b p", "2 p", as they are |
| DrainEngines.DrainEngine.EnsureChild | cloudwatch/drain.go:174-187 | the child for a key, or the wildcard child past the cap; the tree grows by at most that node and no other link changes |
| DrainEngines.DrainEngine.WalkTree | cloudwatch/drain.go:105-115 | the descent creates exactly the missing nodes of the routed path and ends at its leaf |
| DrainEngines.DrainEngine.FindMatchingCluster | cloudwatch/drain.go:191-201 | finds the leaf's best cluster above the threshold, or null when there is none |
| DrainEngines.DrainEngine.FindBestGlobalMatch | cloudwatch/drain.go:205-218 | finds the best cluster of equal token count anywhere, or null |
| DrainEngines.DrainEngine.HandleOverflow | cloudwatch/drain.go:121-128 | past the cap the best global match, else the most recent cluster, absorbs the entry, and nothing else moves |
| DrainEngines.DrainEngine.UpdateCluster | cloudwatch/drain.go:155-170 | pattern, id, count, range, severity, alias and examples of one cluster move as specified, and no other cluster or template changes |
| DrainEngines.DrainEngine.CreateCluster | cloudwatch/drain.go:131-146 | one new cluster with a new template is appended and hung off its leaf, the rest unchanged |
| DrainEngines.DrainEngine.AddMessage | cloudwatch/drain.go:79-93 | the engine's state becomes the state machine's next state, which `DrainShapes` describes by the messages themselves; the pointer returned is the joined cluster's, null exactly for an empty token list; clusters are only appended |
| DrainEngines.DrainEngine.CurrentTemplates | cloudwatch/drain.go:96-102 | the templates in creation order, no pointer twice |
| DrainEngines.UpdateTimeRange | cloudwatch/drain.go:280-290 | the range widens to include a non-zero instant and ignores a zero one |
| Model.ScalesAgree | cloudwatch/severity.go:35-42 | on canonical levels the two severity scales order alike, and the rank tells levels apart |
| Model.ScalesDisagree | cloudwatch/severity.go:79-106 | off them they do not: FATAL and an unknown level rank differently on the two scales |
| LineShapes.RanksAreSpelled | cloudwatch/severity.go:90-107 | the aggregate rank by spelling, whatever the case, and zero for a severity that is none of the listed words |
| Sorting.SortStableCorrect | cloudwatch/consolidate_gostack.go:52-54 | the stable sort yields a sorted permutation that keeps the order of equal keys |
| Sorting.StablySortedUnique | cloudwatch/consolidate_gostack.go:52-54 | there is only one such permutation |
| ConsolidationTheorems.GroupsFlatten | cloudwatch/consolidate.go:167-183 | the time groups concatenate to the sorted input |
| ConsolidationTheorems.GroupsAreMaximalRuns | cloudwatch/consolidate.go:167-183 | gaps are within the window inside a group and exceed it between neighbouring groups |
| MergeNames.RolesAreRecognised | cloudwatch/consolidate_python.go:43-54 | a Go fragment is a template whose pattern or a joined row the Go recogniser accepts; a Python header one whose text, white space aside, begins with the traceback line; a Python fragment one that is no header and that the Python recogniser accepts |
| MergeNames.PythonMergeIsNamed | cloudwatch/consolidate_python.go:112-124 | a Python merge is named after the first member text that holds Traceback, cut to 117 characters and dots beyond 120; without one, after the first that names an exception class; without either, Python traceback |
| MergeNames.PythonMergeShows | cloudwatch/consolidate_python.go:128-141 | its example rows are that header and that exception unless they are one text, else the first member's first row |
| MergeNames.GoMergeShows | cloudwatch/consolidate_gostack.go:71-113 | every Go merge has the one name and shows the texts of its first three members whose pattern is an example line, in order; without one, the first member's first row or its pattern |
| MergeNames.MergesAreSevere | cloudwatch/consolidate_gostack.go:71-88 | a Go merge is CRITICAL; a Python merge is ERROR unless a member is CRITICAL |
| MergeNames.GroupsAreBursts | cloudwatch/consolidate_python.go:55-66 | the groups put together are the headers and fragments stably sorted by last seen, cut exactly where one starts more than 30 seconds, for Python 5, after its predecessor's end |
| MergeNames.BurstsOfThreeMerge | cloudwatch/consolidate_python.go:55-76 | with no header and fewer than three fragments the templates are returned as they are; otherwise exactly the groups of three or more are merged, each absorbing its members' ids |
| ConsolidationTheorems.MergeIsWhole | cloudwatch/consolidate.go:202-221 | a merged template has exactly its group's count and range, and the greater of its group's severity and the family's own; id and alias follow its pattern |
| ConsolidationTheorems.DedupeKeeps | cloudwatch/consolidate.go:232-251 | folding keeps every id's aggregate and the set of ids, and leaves each id once |
| ConsolidationTheorems.RoundAccounts | cloudwatch/consolidate_python.go:43-75 | one consolidator neither loses nor invents: each surviving id's count, range and severity are exactly those of the templates the absorptions lead to it, absorbed ones raised to the family's severity, and the surviving ids are exactly those led to |
| ConsolidationTheorems.SurvivorsAreNamed | cloudwatch/consolidate.go:202-206 | every survivor's id and alias are still those of its own pattern and severity |
| ConsolidationTheorems.CountsSurvive | cloudwatch/consolidate_gostack.go:38-67 | whatever the ids, the survivors' counts add up to the counts that went in |
| Absorptions.PassFlattens | cloudwatch/consolidate.go:89-94 | with fresh merged ids one in-place pass, in any order, maps every absorbed id to the survivor that finally holds it |
| Absorptions.PassKeepsFlat | cloudwatch/consolidate.go:89-94 | after the pass absorbed ids point at live templates and live ids at themselves |
| Absorptions.StaleSurvivorMisleads | cloudwatch/consolidate.go:89-94 | without freshness some iteration order sends a fragment to the wrong template |
| Absorptions.FlatteningNeedsFreshSurvivors | cloudwatch/consolidate.go:78-99 | the pass is exact for every iteration order if and only if no merged id is already given away |
| Absorptions.ChainFlattens | cloudwatch/consolidate.go:78-99 | for any number of consolidators and any iteration orders the relation computed is the true one and live |
| IterationOrder.TwoOrders | cloudwatch/consolidate.go:89-94 | a key whose survivor was absorbed by one that was absorbed in turn comes out differently in two orders, and nothing else is touched but in the same way |
| IterationOrder.PassIsOrderFree | cloudwatch/consolidate.go:89-94 | for any relation, the pass leaves the same relation for all iteration orders if and only if no key is chained so |
| IterationOrder.RemapIsOrderFree | cloudwatch/consolidate.go:109-136 | every id is remapped alike for all iteration orders if and only if each absorbed id that did not survive lands on one template wherever along its chain the pass stops |
| Attribution.FallbackIsOrderFree | cloudwatch/consolidate.go:138-163 | the fallback survivor does not depend on the order of the slice |
| Attribution.FallbackIsLatest | cloudwatch/consolidate.go:143-160 | the fallback is the survivor last seen latest, among those first seen latest, among those of the least id |
| Attribution.RemapIsTotal | cloudwatch/consolidate.go:109-136 | when anything survives, the remap is defined on exactly the ids that did not, and every target is live |
| Attribution.ChainOfConsolidators | cloudwatch/consolidate.go:78-99 | distinct ids stay distinct, and the live ids are those the true relation leads to |
| Attribution.ChainKeepsTotal | cloudwatch/consolidate.go:78-99 | any chain of consolidators keeps the sum of counts |
| Attribution.ChainAccounts | cloudwatch/consolidate.go:78-99 | through any chain, a surviving id's count, range and severity are exactly those of the original templates routed to it, each raised to the severities its merges start from |
| Attribution.RouteIsTruth | cloudwatch/consolidate.go:78-99 | that route leads where the true relation does, under exactly the floor of the merges on the way |
| Attribution.RemapIsTruth | cloudwatch/consolidate.go:109-136 | with fresh merges the remap leads every original id where it truly went |
| Attribution.DefaultIsOnePass | cloudwatch/consolidate.go:78-99 | the relations the default consolidators can compute are exactly those one pass in some order makes of what they record |
| Attribution.OnlyFreshChainsAreExact | cloudwatch/consolidate.go:78-99 | for the default consolidators the relation computed is the true one for all iteration orders if and only if the merges are fresh |
| Attribution.GoMergesAreFresh | cloudwatch/consolidate_gostack.go:71-86 | the Go merge always has fresh ids |
| Attribution.OnlyPythonMergesMatter | cloudwatch/consolidate.go:66-68 | for the default consolidators freshness is a question about the Python merges alone |
| Attribution.UnmarkedMergesAreFresh | cloudwatch/consolidate_python.go:112-124 | the merges are fresh whenever no template's own pattern begins the way a merged Python pattern does |
| Bursts.MaximalRunsAreTheGroups | cloudwatch/consolidate.go:167-183 | maximal runs are the groups of their concatenation: there is one way to split a list into them |
| Bursts.BurstAbsorbs | cloudwatch/consolidate_python.go:43-75 | of any number of bursts far apart, each fragment is recorded under its own burst's merge |
| StaleMerge.LadderChains | cloudwatch/consolidate.go:78-99 | when each burst's fragments are absorbed into a template of the burst before, exactly those from the third burst on are chained |
| StaleMerge.LadderIsOrderFree | cloudwatch/consolidate.go:78-136 | such bursts give every run one outcome if and only if there are at most two of them |
| StaleMerge.ThirdBurstDiverges | cloudwatch/consolidate.go:78-136 | with three, an entry of the third burst is given the second merge's id by one run and the first merge's by another |
| StaleMerge.MimicMisleadsEveryOrder | cloudwatch/consolidate.go:78-99 | with two, every iteration order maps every fragment of the second burst to the first burst's merge |
| StaleMerge.MimicMiscounts | cloudwatch/pipeline.go:81-107 | then the second merge publishes its burst's count while only the mimicked template's entries carry its id; the two agree exactly when those numbers are equal |
| MimicLines.PythonMergesCanMiscount | cloudwatch/consolidate_python.go:88-124 | on six such lines a collect publishes a count of three for a template one entry is attributed to, whatever the iteration orders |
| MimicLines.PythonMergesCanDiverge | cloudwatch/consolidate_remap_test.go:45-75 | on nine such lines two runs give each of the last three entries different ids, the first line's own and its burst's merge's |
| MimicLines.LinesAreOrderFree | cloudwatch/consolidate.go:78-136 | runs over such lines have one outcome if and only if there are no more than two bursts |
| MimicLines.ScriptMakesALadder | cloudwatch/consolidate_python.go:141-172 | there are such lines, for up to six bursts, given only what the recognisers and the masks make of them |
| Pipeline.OrdinaryRunsAreUndisturbed | cloudwatch/pipeline.go:81-107 | a run below the cap none of whose patterns begins like a merged Python pattern meets every proviso of exact attribution |
| Pipeline.IdsAreDistinctUnlessTwins | cloudwatch/pipeline.go:81-107 | throughout clustering no two templates share an id, if and only if no message makes twins |
| Pipeline.SurvivorIsExact | cloudwatch/pipeline.go:81-107 | a survivor has exactly the count, range and severity of the original templates that lead to it, each raised to what its merges start from |
| Pipeline.CountsAgree | cloudwatch/pipeline.go:81-107 | undisturbed, every emitted template's count is the number of entries finally attributed to its id |
| Pipeline.CountsAreConservedToTheEnd | cloudwatch/pipeline.go:81-107 | with no proviso but a positive cap, the surviving counts add up to the entries that tokenized to something |
| Pipeline.EveryEntryFindsASurvivor | cloudwatch/pipeline.go:81-107 | an entry has a final id exactly when its message tokenized to something, and the id is a surviving template's, collisions and overflow included |
| Determinism.RelationIsDeterministic | cloudwatch/consolidate.go:78-99 | for any templates, the relation computed is the same for all iteration orders if and only if nothing recorded is chained |
| Determinism.ProcessedByOnePass | cloudwatch/pipeline.go:81-107 | what processing can return is the survivors with the ids that some order of one pass gives, and nothing else |
| Determinism.ProcessingIsDeterministic | cloudwatch/consolidate.go:14-37 | for any entries, survivors and per-entry ids are the same for all map iteration orders if and only if every absorbed id that did not survive lands on one template |
| Determinism.UndisturbedHasOneOutcome | cloudwatch/consolidate.go:14-37 | an undisturbed run meets that condition |
| Ranges.RangesAreExact | cloudwatch/consolidate.go:208-221 | undisturbed, each survivor's range is the attained minimum and maximum over the entries attributed to it, and its severity the attained maximum of their levels and of what their merges start from |
| Ranges.TemplatesAreWellFormed | cloudwatch/pipeline.go:56-62 | every emitted template has an id and a range that does not end before it starts, whatever the entries |
| Consolidators.AbsorbFragment | cloudwatch/consolidate.go:210-221 | counts add, the range widens and severity rises in place, and nothing else changes |
| Consolidators.MergeGoStackGroup | cloudwatch/consolidate_gostack.go:71-86 | a new template with the group's merge; the group itself unchanged |
| Consolidators.MergePythonGroup | cloudwatch/consolidate_python.go:88-108 | a new template named after the first header or exception found; the group itself unchanged |
| Consolidators.SortByLastSeen | cloudwatch/consolidate_python.go:60-61 | the references in stable order of their range's end, none lost |
| Consolidators.SplitByTime | cloudwatch/consolidate.go:167-183 | the grouping loop yields the specified runs, and puts together they are the input references |
| Consolidators.Partition | cloudwatch/consolidate_python.go:43-57 | every template goes to exactly one role's list and keeps its order |
| Consolidators.MergeEach | cloudwatch/consolidate_python.go:63-72 | small groups pass through, larger ones are replaced by a new merged template recorded with their ids |
| Consolidators.DedupeMergedSurvivors | cloudwatch/consolidate.go:232-251 | templates of one id are folded in place into the first, every merger points at a template kept, and no id changes |
| Consolidators.ConsolidateTemplates | cloudwatch/consolidate_gostack.go:38-67 | one consolidator on the heap yields the specified outcome, no survivor twice, and leaves every incoming id as it was |
| Remapping.RecordAbsorptions | cloudwatch/consolidate.go:82-88 | the recording loops override the relation with the round's own map |
| Remapping.RepointAbsorptions | cloudwatch/consolidate.go:89-94 | the in-place loop is the pass in some order of the keys |
| Remapping.RunConsolidators | cloudwatch/consolidate.go:78-99 | the loop yields the chain's survivors and a relation some iteration orders compute, and no incoming id changes |
| Remapping.PickRemapFallback | cloudwatch/consolidate.go:143-163 | the id of a survivor that none precedes in the total order, empty when nothing survived |
| Remapping.BuildTemplateRemap | cloudwatch/consolidate.go:109-136 | the loop yields the specified remap with that fallback |
| Processing.ClusterTemplates | cloudwatch/pipeline.go:82-88 | the templates are those of the run, all new, and each entry points at the one it joined |
| Processing.ResolveIds | cloudwatch/pipeline.go:92-106 | ids are read through the pointers after merging, remapped, and empty exactly for an entry that joined nothing |
| Processing.ProcessEntries | cloudwatch/pipeline.go:81-107 | survivors and per-entry ids are exactly those of clustering, consolidation and remap, for some map iteration orders |
| Fetch.KeptEntries | cloudwatch/fetch.go:186-198 | a page yields its kept entries in order, and fails exactly when an event has no timestamp |
| FetchFilters.KeptArePassing | cloudwatch/fetch.go:186-212 | the k-th entry kept records the k-th event that passes: its time, message, severity and labels; nothing else is kept |
| FetchFilters.FiltersKeep | cloudwatch/fetch.go:203-212 | under a minimum severity alone an event is kept exactly when its level stands no lower in TRACE, DEBUG, INFO, WARN, ERROR, CRITICAL; under a text filter alone exactly when a slice of its message is the text, case aside; under neither, always |
| FetchFilters.NormalizeRecords | cloudwatch/normalize.go:45-88 | an entry carries its event's time and reading, its group, the group's last path segment as service, and the stream's name, cut to 57 characters and dots beyond 60 |
| FetchFilters.RequestCoversTheWindow | cloudwatch/fetch.go:228-249 | a request selects exactly the milliseconds that end after the window's start and begin no later than its end; zero times and an empty pattern select nothing away |
| FetchFilters.NarrowingIsModular | cloudwatch/fetch.go:228-232 | narrowing to 32 bits keeps a value exactly when it fits and moves any other by a multiple of 2^32 |
| Fetch.BuildFilterInput | cloudwatch/fetch.go:228-247 | the page limit is legal and at most the remaining bound, however large the bound |
| Fetch.NarrowingFirstWraps | cloudwatch/fetch.go:222-227 | converting a bound of three billion before comparing would yield a negative limit |
| Fetch.CursorHoldsAnEntry | cloudwatch/fetch_more.go:33-60 | error-free, true exactly when an entry this collect would keep lies behind the cursor, empty pages included |
| Fetch.AnyGroupHasEntry | cloudwatch/fetch_more.go:65-98 | error-free, true exactly when some group holds an entry this collect would keep |
| Fetch.CloseAtBudget | cloudwatch/fetch.go:153-182 | keeps exactly what still fits, and reports truncation exactly when the group held more |
| Fetch.FetchGroup | cloudwatch/fetch.go:110-145 | error-free, exactly the first remaining kept entries of the group, truncated exactly when a further one exists |
| Fetch.FetchAll | cloudwatch/fetch.go:61-100 | for every paging of the server, an error-free walk returns the first max_entries of the kept entries of the groups taken together, all of them when the bound is unset or not positive, truncated exactly when a further one exists; it fails only for a failing server or an event without a timestamp |
| Normalize.JsonYieldsInnermost | cloudwatch/normalize.go:180-192 | a structured line's severity is the innermost level on its path that is not INFO |
| Normalize.NestedYieldsInnermost | cloudwatch/normalize.go:200-233 | unwrapping a message yields the innermost level that is not INFO, else the outer one |
| Normalize.UnwrappingIsBounded | cloudwatch/normalize.go:180-192 | unwrapping from a depth makes at most the decodes the nesting bound leaves |
| Normalize.OuterLevelSurvives | cloudwatch/normalize.go:194-199 | a line any of whose layers reports a level is never lowered to INFO, and takes at most four decodes |
| Normalize.SeveritiesAreCanonical | cloudwatch/normalize.go:97-125 | whatever shape a line has, its severity is a canonical level |
| LineShapes.LevelsAreSpelled | cloudwatch/severity.go:52-69 | every spelling of a level, trimmed and whatever its case, reads as the level, and anything else as INFO |
| LineShapes.LevelLeads | cloudwatch/normalize.go:134-147 | a line leads with a level exactly when its first word, of at most eight characters and brackets aside, names one, INFO only by its own name; what follows is the rest, trimmed |
| LineShapes.OneWordLeadsNothing | cloudwatch/normalize.go:135-138 | a line without a space leads with no level |
| LineShapes.LoggerNameIsDropped | cloudwatch/normalize.go:163-176 | a bracketed name in front is dropped exactly when the text after its first closing bracket and space, trimmed, is an object |
| LineShapes.UnwrappingSettles | cloudwatch/normalize.go:200-233 | the message returned is the last of a chain of texts, each the message decoded from the one before, which ends where nothing decodes any more or the nesting bound is reached |
| LineShapes.SettlesOnce | cloudwatch/normalize.go:200-233 | there is only one such text |
| LineShapes.LineIsRead | cloudwatch/normalize.go:97-125 | the message of a line, shape by shape: the text a structured line settles on; what follows a leading level, or the text that settles on; else the line, trimmed |
| LineShapes.LineHasSeverity | cloudwatch/normalize.go:97-125 | its severity, shape by shape: the innermost level that is not INFO, a leading level counting as the outermost; else the embedded level; else INFO |
| Strings.TrimSpaceDrops | cloudwatch/normalize.go:98 | trimming drops white space from both ends, all of it and nothing else |
| LineShapes.LevelIsTakenOff | cloudwatch/normalize.go:134-157 | a level, a space and plain text are read as that text at that level |
| Ingest.WalkIsWellFormed | cloudwatch/normalize.go:45-66 | whatever the groups, the paging, the bound and the filters, every entry a walk returns carries a time and a canonical level |
| Ingest.WalkIsClean | cloudwatch/normalize.go:54-63 | with single-line names, every entry a walk returns has a label set on which stream identity is exact |
| Ingest.WalkLabelsAreKnown | cloudwatch/normalize.go:54-63 | every entry a walk returns carries no label but a log group, its service and a log stream |
| Alias.StrippingIsRedundant | cloudwatch/alias_template.go:117-122 | replacing wildcards by spaces changes no word |
| Alias.MeaningfulTokens | cloudwatch/alias_template.go:127-159 | the streaming scan, which may stop early, yields the first limit lowered words that are not connectors |
| Alias.MeaningfulAre | cloudwatch/alias_template.go:127-159 | the words kept are the lowered words of the text other than the twelve connectors |
| Cardinality.ClassificationIsOrderFree | cloudwatch/cardinality.go:52-58 | the label split depends only on which entries the collect holds |
| Cardinality.UnobservedIsLow | cloudwatch/cardinality.go:43-50 | a key no entry carries reads as low-cardinality |
| Cardinality.CardinalityTracker.Observe | cloudwatch/cardinality.go:34-41 | one value is added under one key, and no other key changes |
| Cardinality.CardinalityTracker.ObserveAll | cloudwatch/stream.go:74-79 | afterwards the tracker holds exactly the distinct values of every key over the whole collect |
| Cardinality.CardinalityTracker.Classify | cloudwatch/cardinality.go:59-70 | the two maps split the labels by whether a key's distinct values number fewer than the threshold |
| Streams.SortedKeys | cloudwatch/proxy.go:105-112 | the keys in ascending order, for every map iteration order |
| Streams.FingerprintLabels | cloudwatch/stream.go:21-38 | the hash of the canonical text, the empty set included |
| Streams.SerializeIsInjective | cloudwatch/stream.go:21-38 | on sets whose keys hold no '=' and values no newline, texts are equal if and only if the sets are |
| Streams.SeparatorInKeyCollides | cloudwatch/stream.go:30-35 | for all k, v and w, an '=' moved from key to value gives two different sets one text |
| Streams.TerminatorInValueCollides | cloudwatch/stream.go:30-35 | a newline in a value can pass for the end of a line, for all values and ordered keys |
| Streams.SameStreamIffSameLabels | cloudwatch/stream.go:84-94 | two entries share a stream id if and only if their label sets are equal |
| Streams.OneStreamPerLabelSet | cloudwatch/stream.go:84-96 | the streams are exactly those the entries ask for, with distinct ids |
| Streams.StreamsAreOrderFree | cloudwatch/stream.go:64-71 | the streams and their label split depend only on which entries occur |
| Streams.BuildStreams | cloudwatch/stream.go:73-109 | two passes yield one stream per id, classified over the whole collect, in first-observed order, and each entry's id |
| StreamLabels.LabelTextReadsBack | cloudwatch/stream.go:21-38 | the hashed text, read line by line, is key=value for each label in ascending order of the keys |
| StreamLabels.StreamSplitsItsLabels | cloudwatch/stream.go:46-58 | a stream carries some entry's label set in two disjoint parts; a label is low-cardinality exactly when its key holds fewer distinct values over all the entries than the threshold, 500 by default |
| StreamLabels.IdsStandForLabels | cloudwatch/stream.go:46-58 | two streams share an id exactly when their label sets are equal, and a fingerprint exactly when the low-cardinality parts are |
| StreamLabels.EntriesFindTheirStream | cloudwatch/stream.go:84-107 | every entry is given the id of the emitted stream that carries its labels |
| StreamLabels.StreamsKeepEntryOrder | cloudwatch/stream.go:84-107 | the streams stand in the order the entries first show them |
| Chunks.WindowFloorsFromEpoch | cloudwatch/chunk.go:107-110 | a timestamp lies in its window if and only if it is at or after the epoch or on a boundary |
| Chunks.WindowIsMonotone | cloudwatch/chunk.go:107-110 | later timestamps never fall into earlier windows |
| Chunks.WindowIsAligned | cloudwatch/chunk.go:107-110 | windows start at multiples of five minutes since the epoch; a timestamp lies less than one behind its window's start, or before the epoch less than one ahead of it |
| Chunks.ChunkingIsDeterministic | cloudwatch/chunk.go:67-94 | the emitted slice is one function of the entries, whatever order the buckets are visited in |
| Chunks.EveryEntryHasOneChunk | cloudwatch/chunk.go:55-63 | an attributed entry lies in exactly one chunk, any other in none |
| Chunks.ChunkShowsItsEntries | cloudwatch/chunk.go:70-94 | a chunk counts exactly its entries and renders their stable time-sorted permutation, its range is attained by them and, from the epoch on, lies inside its window; `ChunkIsWritten` says what the text is |
| ChunkText.ChunkIsWritten | cloudwatch/chunk.go:171-185 | a chunk's text has one line for each entry it carries, the stamp, a tab and the message, behind the lines of exactly the carried entries that are earlier, or as early and read before it |
| ChunkText.ChunkReadsBack | cloudwatch/chunk.go:171-185 | with single-line messages and plain stamps, splitting the text at newlines gives exactly those lines |
| ChunkText.RenderingIsInjective | cloudwatch/chunk.go:171-185 | round trip: single-line entries render to one text exactly when they are equally many and agree in stamp and message at every position |
| ChunkText.NewlineInMessageCollides | cloudwatch/chunk.go:171-185 | the condition on messages cannot go: a newline in a message can pass for the end of its line |
| ChunkText.ChunkIdsCarryForward | cloudwatch/chunk.go:119-127 | two collects give chunks one id exactly when they share stream, template and window, and within a collect ids are distinct |
| ChunkText.ChunksAreListed | cloudwatch/chunk.go:84-93 | chunks are listed by stream, then template, then start |
| Strings.LessIsLexicographic | cloudwatch/chunk.go:84-93 | one id comes before another exactly when it is a proper prefix of it or smaller at the first difference |
| Chunks.ChunksCountTheirEntries | cloudwatch/chunk.go:55-82 | the entry counts of a template's chunks add up to the entries attributed to it |
| Chunks.EntryTimeRange | cloudwatch/chunk.go:136-150 | the attained minimum and maximum, the zero time for no entries |
| Chunks.EncodeChunkContent | cloudwatch/chunk.go:171-185 | the loop writes the stable time order of the entries, one line each; `RenderingIsInjective` reads it back |
| Chunks.BuildChunks | cloudwatch/chunk.go:70-94 | one chunk per bucket in strict order of stream, template and start, for any visiting order |
| Chunks.AssembleChunks | cloudwatch/chunk.go:42-65 | the chunks of every non-empty key and no others; an error exactly for lists of different lengths beside at least one entry |
| Chunks.ChunkingExists | cloudwatch/chunk.go:42-94 | whatever ids the entries carry, there is a chunking of them |
| Resolve.PrefixRank | cloudwatch/resolve.go:286-304 | the index of the first allowed prefix that fits at a word boundary |
| Resolve.ServiceAccountIsNoService | cloudwatch/resolve.go:277-285 | the boundary keeps Service from matching ServiceAccount |
| Resolve.PickBestResource | cloudwatch/resolve.go:260-275 | the loop finds the best resource |
| Resolve.BestIsUnique | cloudwatch/resolve.go:256-260 | lowest rank, then first in the slice: that is only one resource, and the one picked |
| Resolve.ResolutionsAreExact | cloudwatch/resolve.go:200-212 | the resolutions are exactly those of the eligible low-cardinality pairs that a resource matches, each once |
| Resolve.ResolveStreams | cloudwatch/resolve.go:212-240 | the nested loops with their seen set yield those resolutions |
| ResolveTheorems.ResolutionIsOfTheWinner | cloudwatch/resolve.go:244-304 | a label resolves to a resource of its name, whose type is of the first kind on the key's list that any such resource has, first in the slice among those |
| ResolveTheorems.ResolutionsAreOfWinners | cloudwatch/resolve.go:194-240 | the resolutions are exactly those of the non-empty service, namespace, deployment and app labels that some stream carries as low-cardinality labels and some resource wins |
| Correlations.OverlapIsWithinWindow | common/correlation/overlap.go:33-71 | two templates with known bounds overlap exactly when neither starts more than the window after the other ends; the score is the shared proportion, never changed by clamping, one exactly for equal padded ranges, and symmetric |
| Correlations.FilterErrors | common/correlation/candidates.go:24-33 | the templates at ERROR or above, in order |
| Correlations.ErrorsKeepOrder | common/correlation/candidates.go:24-33 | filtering keeps exactly the error templates and their order |
| Correlations.MapTemplateStreams | common/correlation/candidates.go:48-78 | each template is owned by the first chunk whose stream is known and names a service |
| Correlations.ResolveTemplateResources | common/correlation/candidates.go:87-113 | the loop that remembers hits and misses yields each owning service's resource, for any visiting order |
| Correlations.BuildCandidatePairs | common/correlation/candidates.go:141-163 | the nested loops yield the candidate pairs in slice order |
| Correlations.CandidatesAre | common/correlation/candidates.go:141-163 | the candidates are exactly the pairs in slice order whose services differ and whose ranges overlap |
| Correlations.Rank | common/correlation/correlation.go:84-92 | a permutation in which no result precedes one with lesser services and first template |
| Correlations.Validate | common/correlation/correlation.go:105-143 | refuses exactly an empty template or stream id and a range with both bounds known that ends before it starts |
| Correlations.FindCorrelations | common/correlation/correlation.go:67-94 | fails exactly on malformed input; otherwise returns every candidate pair scored, in ranked order, the two early exits included |
| Correlations.CorrelationsAreExact | common/correlation/correlation.go:52-66 | the results are exactly those of the co-occurring pairs of error templates, each confirmed exactly when its services depend on each other |
| Correlations.ResultsJoinTemplates | common/correlation/candidates.go:138-163 | a result names two different templates of the input, both errors, of two different services |
| Correlations.ProxyMapFrom | cloudwatch/correlate.go:120-133 | the resolved resources by label value, later resolutions overriding |
| Correlations.EvidenceIsConsistent | cloudwatch/correlate.go:120-158 | whatever the cloud declares, evidence and confirmation name one resource if and only if the service's name was not last met as a namespace |
| CorrelationTheorems.OverlapIsMeeting | common/correlation/overlap.go:33-71 | two ranges, each widened by half a minute when both its ends are known, meet with the score that times the longer is what they share, one for two instants |
| CorrelationTheorems.ServiceIsOwner | common/correlation/candidates.go:48-78 | a template's service is that of the first chunk placing it in a stream with a non-empty service, namespace, deployment or app label, the first of these on that stream |
| CorrelationTheorems.CorrelationsAreSaid | common/correlation/correlation.go:52-94 | the results by the input's own fields: one for each two templates at ERROR or CRITICAL whose widened ranges meet and whose owners are different services, confirmed exactly when a declared edge joins the resources those resolve to |
| CorrelationTheorems.RefusedInput | common/correlation/correlation.go:105-143 | input is refused exactly for an empty template or stream id, or a range that ends before it starts with neither end Go's zero time |
| CorrelationTheorems.RankedByServices | common/correlation/correlation.go:84-92 | results are listed by first service, then second, then first template |
| CorrelationTheorems.EvidenceNamesLast | cloudwatch/correlate.go:127-133 | the evidence for a value names the account and resource of its last resolution |
| CorrelationTheorems.IndexEdges | cloudwatch/resolve.go:81-90 | the loop indexes each declared edge with both ends in both directions and nothing else |
| CorrelationTheorems.DependencyIsDeclared | cloudwatch/resolve.go:132-154 | two resources depend on each other exactly when an edge of their one account joins them, in either direction, and then both ways |
| Graph.LabelNodes | cloudwatch/graph.go:158-178 | the nodes are exactly the first node of each id among the pairs, in stream order and key order within a stream; `LabelIdIdentifies` says what an id stands for |
| Graph.LabelNodesAreExact | cloudwatch/graph.go:158-178 | the id of every low-cardinality pair has a node, each id once, and no node stands for anything but such a pair |
| GraphIdentity.LabelIdIdentifies | cloudwatch/stream.go:60-62 | while keys hold no '=', two label nodes share an id exactly when key and value are equal |
| GraphIdentity.SeparatorInKeySharesAnId | cloudwatch/stream.go:60-62 | a key that holds one shares its id with another pair |
| GraphIdentity.EveryPairHasItsNode | cloudwatch/graph.go:158-178 | every low-cardinality pair some stream carries has a node of its own key and value, there are no other label nodes, and none is repeated |
| GraphIdentity.LabelEdgesMeanCarrying | cloudwatch/graph.go:181-191 | a HAS_LABEL edge joins a stream and a label node exactly when the stream carries the pair |
| GraphIdentity.ChunkEdgesMeanOwnership | cloudwatch/graph.go:63-76 | a chunk BELONGS_TO exactly its stream and is what exactly its template CONTAINS |
| Graph.HasLabelEdges | cloudwatch/graph.go:181-191 | one edge per low-cardinality label of the stream, in key order |
| Graph.AssembleGraph | cloudwatch/graph.go:51-79 | the four kinds of node and the three kinds of edge as exact sequences, label edges stream by stream, then two edges per chunk; what each edge means is stated by `LabelEdgesMeanCarrying` and `ChunkEdgesMeanOwnership` |
| Graph.LogEdgesAreExact | cloudwatch/graph.go:51-79 | those edges are the label edges of the streams and the two edges of each chunk, and no others |
| Graph.MaterializeProxies | cloudwatch/proxy.go:54-74 | the nodes are exactly the first proxy of each id, so the first resolution names it, and the edges one per resolution, in order |
| Graph.ProxiesAreExact | cloudwatch/proxy.go:54-74 | proxies have distinct ids, each stands for a resolution, and every resolution has one |
| GraphIdentity.ProxyIdIdentifies | cloudwatch/proxy.go:84-87 | while accounts hold no colon, two proxies share an id exactly when account and resource are equal |
| GraphIdentity.IdsNameTheirKind | cloudwatch/proxy.go:38-45 | the ids of labels and proxies begin with their kinds' prefixes, so none is shared |
| GraphIdentity.EveryResourceHasItsProxy | cloudwatch/proxy.go:54-74 | the resources with a proxy are exactly those some resolution names, by account and id |
| GraphIdentity.EmittedByMeansResolved | cloudwatch/proxy.go:54-74 | an EMITTED_BY edge joins a label and a resource exactly when the label was resolved to it |
| Graph.GraphIsClosed | cloudwatch/graph.go:51-79 | when chunks name emitted streams and templates, every edge joins two emitted nodes of the right kinds |
| Graph.MaterializeCorrelations | common/correlation/materialize.go:43-64 | one edge per confirmed result, in order, and none for an unconfirmed one |
| Graph.RankingKeepsEdges | common/correlation/correlation.go:60-61 | however ties are ranked, the same correlation edges are emitted |
| GraphIdentity.CorrelationEdgesMeanConfirmed | common/correlation/materialize.go:43-64 | a CORRELATES_WITH edge runs from the first to the second template of a confirmed result, and every such result has one |
| Collect.ReclassifySeverity | cloudwatch/severity.go:161-172 | in place, exactly the entries without a level or with INFO take the level their message embeds, when it embeds one, and keep everything else |
| Collect.ReclassifyTakesEmbedded | cloudwatch/severity.go:148-172 | the embedded level replaces a missing or INFO severity when there is one, nothing else is touched, and doing it again changes nothing |
| Collect.CollectIsDeterministic | cloudwatch/consolidate_remap_test.go:55-75 | every collect of the same entries assembles the same templates, ids and chunks if and only if every absorbed id that did not survive lands on one template |
| Collect.GraphIsDeterministic | cloudwatch/pipeline.go:22-69 | under that condition and no other, all collects of the same entries and cloud context emit the same nodes and edges in order, up to how tied correlations are ranked |
| Collect.NineLinesGiveTwoGraphs | cloudwatch/consolidate.go:14-37 | over nine lines two collects emit different graphs, whatever the severities and the cloud context: some template's chunks hold different numbers of entries |
| Collect.EmittedGraphIsClosed | cloudwatch/pipeline.go:22-69 | referential integrity of a whole collect, correlation edges included, however templates broadened or were absorbed |
| Collect.EmittedCorrelationsAreExact | common/correlation/correlation.go:52-100 | an edge for each pair of emitted error templates whose ranges meet within the window and whose owning services are different and depend on each other, and no other |
| Collect.CollectedEvidenceAgrees | cloudwatch/correlate.go:120-158 | for the entries of a walk, the resource named in a correlation's evidence is the one its dependency was confirmed for |
| Collect.NothingIsRefused | cloudwatch/pipeline.go:48-62 | whatever the entries, no emitted template, stream or chunk has an empty id or a range that ends before it starts, so the detector refuses nothing |
| Collect.CollectedRangesAreExact | cloudwatch/pipeline.go:22-46 | range and severity exactness for the entries of a walk, asking of the source only real times and canonical levels |
| Collect.CollectedStreamsAreLabelSets | cloudwatch/stream.go:84-94 | two entries of a walk share a stream if and only if their label sets are equal |
| Collect.CollectedStreamsAreOrderFree | cloudwatch/stream.go:64-71 | two walks that meet the same entries emit the same streams with the same split |
| CollectLabels.CollectedLabelsHaveNodes | cloudwatch/graph.go:155-178 | for the entries of a walk, a label has a node of its own key and value exactly when some entry carries it and its key holds fewer than 500 distinct values over the collect; labels that share a value keep apart |
| Collect.DefaultConfigLeavesTwins | cloudwatch/drain.go:42-49 | the configuration every collect uses is one in which overflow leaves two templates of one pattern |
| Collect.TwoMessagesByDefault | cloudwatch/drain.go:42-44 | as every collect is configured, two messages end in one template exactly when their first three tokens branch alike, they are equally long and they agree on more than two fifths of their positions |
| Collect.DefaultLimits | cloudwatch/drain.go:42-44 | no collect clusters into more than 200 templates or branches a node more than 101 ways |
| Collect.TemplateCountsMatchTheirChunks | cloudwatch/pipeline.go:22-46 | undisturbed, every template node's count equals the entries attributed to it and the sum over the chunks it CONTAINS |
| Collect.BuildGraph | cloudwatch/pipeline.go:22-69 | the stage order yields exactly those nodes and edges, correlations last; it fails exactly when the detector refuses, which non-empty hashes exclude, and no edge dangles |
| Walks.Walk | cloudwatch/collector.go:63-92 | a whole collect against any honest server: reading fails only for a failing request or an event without a timestamp, and the detector refuses nothing while hashes are non-empty; otherwise the graph is that of the walked entries, and it is declared complete exactly when the source held no further entry to keep |
| Walks.WalkedIsFetched | cloudwatch/fetch.go:61-100 | the entries the theorems about a walk speak of are the first max_entries kept ones, or all when the bound is unset or not exceeded |

## Left out

- The declared cloud context is taken as given: its resources, and the index of its edges. `IndexEdges` builds that index from edges; reading edges and resources out of foreign graphs is not modelled.
- The order of correlations that tie on both services and the first template: `sort.Slice` is not stable, so any is allowed.
- The score of a correlation is an exact real, and its rendering to three decimals belongs to edge metadata.
- AWS client, credentials, regions, configuration entries, declarations, parameter validation and the serving framework: data tables and thin wrappers.
- The contents of regular expressions, SHA-256, alias assembly and time formatting: arbitrary functions, so nothing is said about what they recognise or produce.
- JSON decoding and the field names a payload is searched for (`cloudwatch/severity.go:179-206`, `cloudwatch/normalize.go:238-256`): one arbitrary function from a line to its message and level.
- Node and edge metadata, symbol names and stream aliases: nodes, and correlation edges, carry the values they are rendered from.
- Nil templates, nil survivors, nil streams and nil label maps: the guards against them have no counterpart, since references here are never nil; a nil label map reads as the empty one.
- Strings are sequences of characters: the byte limits on headers, stream names and leading tokens count characters, and case mapping is ASCII.
- The similarity threshold is compared as an exact real, so rounding in floating point is not modelled.
- Instants are unbounded integers: `time.Time.Sub` saturating past 292 years and `UnixNano` overflowing are not modelled.
- Cancellation, retries and the texts of errors: a failure names its log group only.
- `MaxClusters` of zero, with which the source indexes an empty list past the cap, is excluded by a precondition.
- Pipeline.CountsAgree: one direction; counts may agree by chance where ids collide or merged ids are not fresh.
- Fetch.FetchAll: success is promised for a server that fails no legal request; a failing request past the bound that is never made does no harm, and that is not stated.
