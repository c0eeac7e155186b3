# Dalikamata in Dafny

A model of the logic at the heart of dalikamata, a service that ingests CI/CD
events, keeps a state store and answers queries and aggregations over it, with
proofs of what that logic promises. Four parts, which build on one another:

* **Query and aggregation engine.** `Values`, `Filters`, `FilterLaws`, `Sorting`,
  `SortKeys`, `Queries`, `QueryLaws` hold the filter evaluator, the multi-key stable sort
  and paging; `Printing`, `Aggregation` give the meaning of an aggregation tree,
  `AggregationEval` the loops that compute it, and `AggregationLaws`,
  `AggregationOrder`, `BucketLaws` what follows: evaluation is a homomorphism, the
  order of the items matters in exactly one way, buckets are re-filters, and nested
  fan-out conserves observations.
* **Ownership.** `OwnerKeys`, `Ownership` resolve workflows to owners; `Components`
  has the incremental index of the memory repository and the rebuild of the SQLite
  repository as pure steps, and `Repositories` has both repositories as classes;
  `QueryFields` says what each query field answers for.
* **Crawlers.** `Bitbucket` and `Jenkins` are state machines over the steps of a
  crawler and of its environment: pushes and rewrites, builds completing, calls
  failing, restarts. `BitbucketCrawler` and `JenkinsCrawler` are the code, as classes
  whose methods are proved to take legal runs of those steps. `BitbucketOnce` and
  `JenkinsOnce` are about runs without failures, `JenkinsListings` about listings that are
  cut.
* **Metrics.** `MetricTree`, `Metrics`, `TaskMetrics` follow projection, aggregation
  and tree walk to what each Prometheus series says; `StoredRows` puts it in the fields of
  the stored rows, and `EndToEnd` starts at a repository and ends with what is sent.

`Seqs` and `Ordering` are about sequences and alphabetical order.

How to read it. A loop of the program is a method whose postcondition equates its
result with a specification function, and the laws are about that function. Field
values are the datatype `Val`; floats are reals, times integers, and the printing of
floats, times and lists and the truncation of dates are functions of which nothing is
assumed (`Format`). A failure carries no message, because the program ranges over Go
maps and which of several errors it reports is left open. Nondeterminism of the
environment is in the actions of a run, or in the `Env` of a crawler: functions of time,
counted in the crawler's steps, that say where tips or builds stand and how each call is
answered at that moment. Ranging over a Go map is choosing elements of a set in any order.

What is assumed of the servers, and nothing else: a commit listing has exactly the
commits of the tip that are not commits of the cursor, each once, the tip first and
every other commit after one of its children; repositories do not vanish; builds of a
job complete in number order, and a build that a listing shows with a result and not in
progress has completed, each shown once; a probe names the highest completed build. Any call may fail instead, and a failed
write may have taken effect. That a build listing leaves out nothing new is a condition of
the theorems that need it (`CrawlIsSafe`); `SafeIffPlansCover` is exact about what may be
left out.

Where the code and its documentation part, the model follows the code and a theorem
says where: an `OrFilter` without clauses matches everything (`DeMorganAnd`,
`EmptyTermsIsNotEmptyOr`); a duplicate histogram bound is counted twice
(`BucketCountsOnce`); values of different types can print alike and share a bucket
(`EvaluationOrder`); a team name with the separator is accepted and then split at the
wrong place (`SplitJoin`, `RunOwnerHasSeries`); `AddComponent` does not take a repo
away from the component that lists it, and the backends may part over it
(`OverlappingClaimsDiffer`, `BackendsAgree`); a build listing may be cut, and the cursor
passes what it left out (`CutListingIsUnsafe`); sorting with a nil among the values is not
by an order (`NilBreaksOrder`).

## Model

| member | source | states |
|---|---|---|
| `Filters.LeafMeaning` | internal/domain/query/evaluator.go:74-177 | A term, terms, range or exists leaf whose comparisons are of one kind never fails and says whether the field, seen as the set of values it holds, contains the value, meets one of the values, lies within all bounds (v > w for gt, v >= w for gte, and so on, by the values themselves), or holds anything. |
| `Filters.MatchMeaning` | internal/domain/query/evaluator.go:12-72 | On every well-typed filter tree evaluation never fails and, short cuts included, equals the boolean denotation: all of Must, none of MustNot, and some Should only when Must is empty and Should is not. |
| `Filters.RangeOutcome` | internal/domain/query/evaluator.go:128-177 | A range fails if and only if, in the order gt, gte, lt, lte, a bound of another kind is met before one the value is on the wrong side of; else it accepts exactly what is within its bounds. |
| `FilterLaws.LeafFails` | internal/domain/query/evaluator.go:74-177 | When each kind of leaf fails, exactly: a missing value, a list under a range, or a comparison of different kinds that is reached; a missing field never fails. |
| `Values.ComparisonMeaning` | internal/domain/query/evaluator.go:217-281 | Comparing a field value with a scalar fails if and only if they are of different kinds; else the sign says which is less, strings by the dictionary, false below true, integers also against floats. |
| `Values.SortComparisonMeaning` | internal/domain/query/evaluator.go:287-342 | Comparing two values in a sort tells the lower of two of one type, and ties everything else. |
| `Ordering.StrLtIsBefore` | internal/domain/query/evaluator.go:332-342 | The string order is that of the dictionary: by the first place where the strings differ. |
| `FilterLaws.DoubleNegation` | internal/domain/query/builders.go:49-53 | Not(Not f) is f on every filter and item, failures included. |
| `FilterLaws.DeMorganAnd` | internal/domain/query/evaluator.go:39-72 | Not(And fs) equals Or of the negations if and only if there is at least one clause: the empty Or matches everything. |
| `FilterLaws.DeMorganOr` | internal/domain/query/evaluator.go:39-72 | Not(Or fs) equals And of the negations, with the same exact condition. |
| `FilterLaws.NotIsNoneOf` | internal/domain/query/builders.go:51-53 | The n-ary Not is the conjunction of the negations, failures included. |
| `FilterLaws.ReorderedMatch` | internal/domain/query/evaluator.go:39-72 | Permuting the Must, MustNot and Should clauses of a well-typed node changes nothing. |
| `FilterLaws.AndOrderIndependent` | internal/domain/query/evaluator.go:40-48 | And is independent of clause order if and only if no clause fails beside one that is false. |
| `FilterLaws.OrOrderIndependent` | internal/domain/query/evaluator.go:58-71 | Or is independent of clause order if and only if no clause fails beside one that is true. |
| `FilterLaws.AnyElementOutcome` | internal/domain/query/evaluator.go:113-126 | What the two nested loops over a list field end with, in closed form, failures included. |
| `FilterLaws.TermsIsOrOfTerms` | internal/domain/query/evaluator.go:89-126 | Terms with at least one value is the Or of its Terms on missing and scalar fields; on a list field, if and only if every value is a string, or the list is empty, or its first element decides, or none of it matches. |
| `FilterLaws.EmptyTermsIsNotEmptyOr` | internal/domain/query/evaluator.go:58-107 | Whatever the item, Terms of no value matches nothing while Or of no clause matches everything. |
| `Sorting.SortSpec` | internal/domain/query/evaluator.go:211-215 | Under a strict weak order the stable sort is a sorted permutation that keeps every class of ties in its original order. |
| `Sorting.StableSortUnique` | internal/domain/query/evaluator.go:211-215 | Whatever is a sorted, tie-keeping permutation of the input is the stable sort: the specification leaves no freedom. |
| `Queries.SortBy` | internal/domain/query/evaluator.go:211-215 | The array sorted in place always holds a rearrangement of its old contents, and their stable sort whenever the sort fields order them; if any two items hold, in each field, the same value or one below the other, none ends up before one that is ahead of it by the first field telling them apart, and by one field the values ascend or descend. |
| `SortKeys.OneFieldOrder` | internal/domain/query/evaluator.go:181-330 | Comparing by one field is a strict weak order if and only if the field has one type among the items or never tells two of them apart. |
| `SortKeys.NilBreaksOrder` | internal/domain/query/evaluator.go:287-330 | A nil among distinct values ties with both although they do not tie: the order breaks. |
| `SortKeys.LessIsAhead` | internal/domain/query/evaluator.go:211-330 | The comparison of a sort goes by the values of the first field that tells the items apart, turned round when descending. |
| `SortKeys.SortedByValues` | internal/domain/query/evaluator.go:211-330 | The outcome of a sort, over fields that rank the items, has no item before one that is ahead of it. |
| `QueryLaws.SortIsKeyByKey` | internal/domain/query/evaluator.go:181-215 | Sorting by k1..kn equals stable-sorting by kn, then ..., then k1. |
| `Queries.FilterSnapshot` | internal/domain/repo/memory.go:526-538 | The filter loop fails if and only if some item makes the filter fail; otherwise it keeps exactly the accepted items, in order. |
| `Queries.EmitAll` | internal/domain/repo/memory.go:540-547 | What is handed to emit is a prefix of the page: all of it if no call fails, else up to and including the first call that does. |
| `Queries.QueryEntities` | internal/domain/repo/memory.go:519-549 | A filter failure emits nothing; otherwise what is emitted is a prefix of a page of the sorted matches, cut at the first failing call of emit only; when the sort fields order the matches it is the page of the query. |
| `QueryLaws.PageIsWindow` | internal/domain/query/evaluator.go:198-207 | A page is the window of the items that starts at the offset: in order, and short only at the end. |
| `QueryLaws.PagesTile` | internal/domain/query/evaluator.go:198-207 | For a positive size the successive pages concatenate to the rest of the items, nothing lost and nothing repeated. |
| `QueryLaws.QueryOrderIndependent` | internal/domain/repo/memory.go:519-549 | When the sort orders the matches, every page is the same for every order of the snapshot if and only if matches that tie on all sort fields are equal. |
| `QueryLaws.PagesOfSeparateIterations` | internal/domain/repo/memory.go:519-549 | When the sort orders the matches and separates them, pages taken from separate map iterations concatenate to the sorted matches. |
| `Printing.DecimalInjective` | internal/domain/query/aggregator.go:58-65 | Distinct integers never share a printed bucket key. |
| `Printing.PlainIntegerPrints` | internal/domain/query/aggregator.go:58-65 | The print of an integer is the one text that reads as it: digits without a superfluous zero, a minus if negative. |
| `AggregationEval.AddToBucket` | internal/domain/query/aggregator.go:58-65 | Filing one more item under a key keeps every group equal to the earlier items having its key, in order, with the key value of the first. |
| `AggregationEval.FileList` | internal/domain/query/aggregator.go:67-78 | A list field files the item once under each distinct element. |
| `AggregationEval.FileItem` | internal/domain/query/aggregator.go:67-81 | After its turn an item is filed under exactly the printed keys it has: every distinct list element, or its one printed value, a missing field included. |
| `AggregationEval.FileDate` | internal/domain/query/aggregator.go:117-134 | An item with a time is filed under its one formatted date; one without the field is filed nowhere. |
| `AggregationEval.MakeBucket` | internal/domain/query/aggregator.go:86-99 | A bucket counts its group and carries the evaluation of the sub-tree on it, failing exactly when that fails. |
| `AggregationEval.FillBuckets` | internal/domain/query/aggregator.go:85-101 | The buckets of a key list, in its order, or failure exactly when the sub-tree fails on some group. |
| `AggregationEval.ListBuckets` | internal/domain/query/aggregator.go:83-102 | The groups become the node's result: one bucket per key that occurs, ascending by printed key. |
| `AggregationEval.ApplyTerms` | internal/domain/query/aggregator.go:50-102 | The terms loops compute the meaning of the node, succeeding exactly when it is defined. |
| `AggregationEval.ApplyDateHistogram` | internal/domain/query/aggregator.go:107-157 | Likewise for the date histogram: a present value that is not a time fails it, an absent one is skipped, and without sub-aggregations nothing else fails it. |
| `AggregationEval.CountUnder` | internal/domain/query/aggregator.go:193-197 | Each counter grows by one per listing of its bound if the value is at or below it, and by nothing else. |
| `AggregationEval.Tally` | internal/domain/query/aggregator.go:182-198 | One more item keeps count, sum and counters equal to those of the items so far. |
| `AggregationEval.ReadOut` | internal/domain/query/aggregator.go:200-203 | The counters read out in bound order are the histogram's buckets. |
| `AggregationEval.ApplyHistogram` | internal/domain/query/aggregator.go:162-231 | The histogram loops compute the meaning of the node. They succeed if and only if there are bounds, no sub-aggregation, and a number in every field present; then count and sum are those of the numbers, of whatever type, and every bound in ascending order counts those at or below it, once per listing. |
| `AggregationEval.ApplyAgg` | internal/domain/query/aggregator.go:27-38 | Each operation computes the node's meaning; an unknown one fails. |
| `AggregationEval.EvaluateAggs` | internal/domain/query/aggregator.go:12-25 | Every named result equals the denotation of its node, and the whole fails exactly when some node does, for every order of ranging over the names. |
| `AggregationLaws.OkConcat` | internal/domain/query/aggregator.go:27-205 | A node evaluates on xs ++ ys if and only if it does on xs and on ys. |
| `AggregationLaws.ValueConcat` | internal/domain/query/aggregator.go:27-205 | The result of a node on xs ++ ys is the merge of its results on xs and ys. |
| `AggregationLaws.EvaluationIsHomomorphism` | internal/domain/query/aggregator.go:12-205 | For every tree of any depth, evaluating xs ++ ys succeeds iff both parts do and equals the recursive merge of the two result trees: key union in order, counts and sums added, sub-trees merged. |
| `AggregationOrder.EvaluationOrder` | internal/domain/query/aggregator.go:12-157 | What evaluation returns, result tree or failure, is the same for every permutation of the items if and only if it fails on them or, at every level, items printing the same key have the same key; it fails for all orders or for none. |
| `AggregationOrder.OrderShowsWithoutOneType` | internal/domain/query/aggregator.go:58-65 | The integer 1 and the string "1" share a bucket whose key is whichever came first. |
| `AggregationOrder.TypedKeysAgree` | internal/domain/query/aggregator.go:50-102 | One type per grouped field is enough for the condition of EvaluationOrder, at every depth. |
| `AggregationOrder.FilterProject` | internal/domain/repo/memory.go:493-514 | Filters and projects a snapshot, failing exactly when the filter fails on some item. |
| `AggregationOrder.Aggregate` | internal/domain/repo/memory.go:392-402 | Aggregates exactly the matching entities; no aggregations means an empty result whatever the filter does. |
| `AggregationOrder.AggregateIsDetermined` | internal/domain/repo/memory.go:392-514 | With one type per grouped field the aggregate of a state does not depend on the map iteration that listed it. |
| `BucketLaws.GroupIsRefilter` | internal/domain/query/aggregator.go:58-81 | The group of key k is what the filter field = k selects, in order, if and only if no item holds something other than text that prints as k. |
| `BucketLaws.DrillDownIsRefilter` | internal/domain/query/aggregator.go:50-102 | On a text field each bucket counts the items its key filters and its sub-tree is the evaluation of them; a bucket exists, at one place, exactly for the keys some item matches. |
| `BucketLaws.BucketsHoldFiled` | internal/domain/query/aggregator.go:50-157 | A terms or date node has one bucket, in dictionary order, for each key some item is filed under, that is prints as, lists, or has as its formatted time (by RFC 3339 if no layout is given); the bucket counts and evaluates exactly the items filed under it, and shows the key as the first of them has it. |
| `BucketLaws.BucketCountsOnce` | internal/domain/query/aggregator.go:193-197 | A bucket counts the numbers at or below its bound if and only if the bound is listed once or there are none. |
| `BucketLaws.HistogramIsCumulative` | internal/domain/query/aggregator.go:162-231 | With distinct bounds in any order: one bucket per bound, ascending, each counting the numbers at or below it that the items hold, as float or integer; counts never decrease or exceed the total; count and sum are those of the items having the field. |
| `BucketLaws.DoubleCounting` | internal/domain/query/aggregator.go:67-81 | Summing any weight over the groups counts every item once per key it has among the keys. |
| `BucketLaws.LeavesConserve` | internal/domain/query/aggregator.go:50-205 | For every path of every tree the leaf counts, and the leaf sums, total the sum over items of the product across levels of the number of distinct keys. |
| `BucketLaws.LeavesSummariseGroups` | internal/domain/query/aggregator.go:50-205 | Each leaf at the end of a path is the histogram of its own group of items, from left to right. |
| `BucketLaws.LeafMultiplicity` | internal/domain/query/aggregator.go:50-205 | Over all leaf groups of a path each item occurs as often as among the items, times the product across levels of the number of its distinct keys. |
| `BucketLaws.ScalarLeavesPartition` | internal/domain/query/aggregator.go:50-205 | With one key per level and a value at the leaf, the leaves are the histograms of groups whose concatenation is a permutation of the items. |
| `OwnerKeys.JoinSplit` | internal/domain/query/owner.go:17-29 | A split of a key, team and component with a bar between, joins back to the key, with no bar in the team; it fails exactly when the key has none. |
| `OwnerKeys.SplitJoin` | internal/domain/query/owner.go:17-29 | Joining and splitting gives the pair back if and only if the team has no bar in it. |
| `OwnerKeys.SplitInjective` | internal/domain/query/owner.go:23-29 | Different keys split into different pairs. |
| `Ownership.FirstSeenOrder` | internal/domain/repo/projection.go:97-122 | Deduplication keeps every value once, in order of first occurrence. |
| `Ownership.Owners` | internal/domain/repo/memory.go:213-235 | The loop computes the owners of a workflow. |
| `Ownership.OwnersAreResolvedRepos` | internal/domain/repo/memory.go:213-235 | In the maps: the owners are exactly the pairs (component a repo is indexed to, its team or "unknown") of the workflow's repos, each once, in the order the repos first lead to them; ("unknown", "unknown") if no repo has a component. |
| `Ownership.Distinct` | internal/domain/repo/projection.go:97-122 | The loop behind component and team names keeps first occurrences. |
| `Ownership.Diagnose` | internal/domain/repo/memory.go:242-263 | The loop computes the diagnosis: every repo classified, and the reason for the whole. |
| `Ownership.DiagnosisInFields` | internal/domain/repo/memory.go:201-263 | In the maps: every repo, in order, with its component, that component's team, and where the chain breaks; missing_repo_id exactly without repos, ok exactly if some repo is, no_component_for_repo exactly if no repo has a component. |
| `Ownership.FallbackIffUnresolved` | internal/domain/repo/memory.go:213-263 | The fallback owner is taken if and only if the diagnosis is missing_repo_id or no_component_for_repo. |
| `Ownership.OkIffNamedTeam` | internal/domain/repo/memory.go:201-263 | The diagnosis is ok if and only if some repo leads to a component with a team. |
| `Ownership.ReasonOrderIndependent` | internal/domain/repo/memory.go:242-263 | The diagnosed reason is the same for every order of the repos. |
| `Ownership.QueryWorkflowRuns` | internal/domain/repo/memory.go:310-326 | A run query streams a page of the sorted matches, cut at the first failing call of emit only; each run emitted carries the name of its workflow, or its ID, and exactly the components and the teams of its owners, each once, in the order they first occur. |
| `Ownership.TeamFilterSelectsOwnedRuns` | internal/domain/repo/memory.go:310-326 | Filtering by a team never fails and selects exactly the runs one of whose owners has that team, whatever the sort does with them. |
| `QueryFields.RunFieldsAnswer` | internal/domain/repo/projection.go:140-156 | Every field of a run query answers for that very field of the stored run, or for the names of its owners. |
| `QueryFields.TaskFieldsAnswer` | internal/domain/repo/projection.go:160-185 | Likewise of a task; workflow and branch are those of its run, and empty if that is not stored. |
| `QueryFields.PullRequestFieldsAnswer` | internal/domain/repo/projection.go:31-56 | Likewise of a pull request; its cycle time is the seconds till it was merged or declined, or till now. |
| `Components.DropByListIsDropByOwner` | internal/domain/repo/memory.go:114-120 | Deleting index entries by walking the old list deletes exactly the entries of that component, because the index is sound. |
| `Components.AddComponentRefines` | internal/domain/repo/memory.go:109-127 | AddComponent keeps the index sound and acts on it as: take away all the component owned, then claim its list. |
| `Components.OnboardRefines` | internal/domain/repo/memory.go:133-161 | Onboarding keeps the index sound and acts on it as: the repo now belongs to the named component. |
| `Components.MemoryIndexRefines` | internal/domain/repo/memory.go:109-161 | Over every run of events the incremental index is the last-writer-wins ownership map, only points at existing components that list the repo, and the team index is the stored team names. |
| `Components.OnboardTablesAgree` | internal/domain/repo/sqlite.go:212-256 | One onboarding leaves equal tables equal in both backends if and only if memory's index names every other component that lists the repo. |
| `Components.IndexEqualsRebuild` | internal/domain/repo/sqlite.go:441-465 | The incremental index equals the rebuilt one if and only if every listed repo is indexed, to the alphabetically last component listing it. |
| `Components.StepAgrees` | internal/domain/repo/sqlite.go:166-261 | From agreeing backends, an event keeps them in agreement if and only if it is harmless for the table it meets: a component event claims no repo a later component lists and gives up none another still lists; an onboarding moves a repo away from no component but the one the index names. |
| `Components.BackendsAgree` | internal/domain/repo/sqlite.go:166-261 | Both backends hold the same component table, list order included, and memory's indexes equal the rebuilt ones, all through a run of events if and only if every event is harmless for the table it meets. |
| `Components.OwnClaimsAreHarmless` | internal/domain/repo/sqlite.go:166-261 | Events that claim no repo another component lists are all harmless. |
| `Components.OverlapCanBeHarmless` | internal/domain/repo/sqlite.go:441-465 | An overlapping claim by a component with a later name is harmless too. |
| `Components.OverlappingClaimsDiffer` | internal/domain/repo/sqlite.go:416-458 | A claim on a repo a later component lists is not: memory answers by the last write and SQLite by the name. |
| `Components.OnboardingClosedForm` | internal/domain/repo/memory.go:133-161 | After any onboarding events each repo is listed once, in the component its last event named and no other; the components are those named, each with the team of the last event naming it; both backends hold that table. |
| `Components.OnboardingIsIdempotent` | internal/domain/repo/sqlite.go:180-261 | Re-applying an onboarding event changes nothing in either backend. |
| `Repositories.MemoryRepository.constructor` | internal/domain/repo/memory.go:40-58 | A new repository is the empty run. |
| `Repositories.MemoryRepository.AddWorkflow` | internal/domain/repo/memory.go:81-86 | Stores the workflow under its ID and changes nothing else. |
| `Repositories.MemoryRepository.AddWorkflowRun` | internal/domain/repo/memory.go:88-93 | Stores the run under its ID and changes nothing else. |
| `Repositories.DropStale` | internal/domain/repo/memory.go:115-119 | The loop deletes exactly the listed repos whose entry still names the component. |
| `Repositories.IndexRepos` | internal/domain/repo/memory.go:123-125 | The loop points every listed repo at the component. |
| `Repositories.MemoryRepository.AddComponent` | internal/domain/repo/memory.go:109-127 | The object follows the run of events; its index becomes what the ownership map becomes. |
| `Repositories.MemoryRepository.AddRepoOnboarding` | internal/domain/repo/memory.go:133-161 | Likewise for an onboarding event; the team is added too. |
| `Repositories.MoveRepo` | internal/domain/repo/memory.go:139-160 | The new component has the team and lists the repo, at the end if it did not yet; the component it was indexed to loses it and keeps the rest in order; all others stay. |
| `Repositories.TaskKeyTellsApart` | internal/domain/repo/memory.go:95-100 | Two tasks have the same key if and only if they have the same run and order. |
| `Repositories.MemoryRepository.AddWorkflowTask` | internal/domain/repo/memory.go:95-100 | Stores the task: one of the same run and order is replaced, every other one is kept, and nothing else changes. |
| `Repositories.MemoryRepository.AddPullRequest` | internal/domain/repo/memory.go:74-79 | Stores the pull request under its ID and changes nothing else. |
| `Repositories.MemoryRepository.AggregateRuns` | internal/domain/repo/memory.go:444-452 | Aggregates the stored runs in some order of iterating the map, each run once, with the indexes and all repos and the name of every stored workflow as lookup. |
| `Repositories.MemoryRepository.AggregateTasks` | internal/domain/repo/memory.go:454-466 | Likewise the stored tasks, each joined with the stored runs. |
| `Repositories.MemoryRepository.AggregatePullRequests` | internal/domain/repo/memory.go:426-433 | Likewise the stored pull requests, as of a given moment. |
| `Repositories.EnumerationsPermute` | internal/domain/repo/memory.go:404-489 | Two iterations over one map list its values in permutations of each other. |
| `Repositories.SQLiteRepository.constructor` | internal/domain/repo/sqlite.go:51-80 | A new repository is the empty run. |
| `Repositories.SQLiteRepository.AddWorkflow` | internal/domain/repo/sqlite.go:121-131 | Stores the workflow under its ID and changes nothing else. |
| `Repositories.SQLiteRepository.AddComponent` | internal/domain/repo/sqlite.go:166-178 | Upserts the row and changes nothing else. |
| `Repositories.StripRows` | internal/domain/repo/sqlite.go:213-229 | Row by row, the repo leaves every component but the target. |
| `Repositories.SQLiteRepository.AddRepoOnboarding` | internal/domain/repo/sqlite.go:184-261 | The table follows the run of events; the team is added too. |
| `Repositories.SQLiteRepository.OwnerLookupFromDB` | internal/domain/repo/sqlite.go:441-465 | The loops rebuild the lookup from the rows by name: for a repo listed twice the later name wins. |
| `Repositories.BackendsAnswerAlike` | internal/domain/repo/sqlite.go:436-465 | After the same events, all harmless, both repositories give every workflow the same owners, name and diagnosis, and project every run alike. |
| `MetricTree.ExtractBucketMap` | internal/metrics/service.go:473-483 | Collects the bounds with their counts, failing on a key that is not a number. |
| `MetricTree.Emit` | internal/metrics/service.go:515-571 | The nested loops send what the walk denotes: a key of the wrong type stops it, an owner key without separator skips its bucket. |
| `MetricTree.WalkReadBack` | internal/metrics/service.go:485-645 | A walk that ends well sends the very same series from the tree read back from JSON, at every depth. |
| `MetricTree.WalkEmitsTuples` | internal/metrics/service.go:515-571 | On evaluated, typed items the walk never fails and emits one series per key tuple some item has, in walk order. |
| `MetricTree.TuplesRealised` | internal/metrics/service.go:515-571 | The tuples walked are exactly those some item has. |
| `MetricTree.TuplesDistinct` | internal/metrics/service.go:515-571 | No tuple is walked twice. |
| `MetricTree.PadInjective` | internal/metrics/service.go:615-619 | Printing an order with two digits keeps different orders apart. |
| `MetricTree.KeyBecomesLabels` | internal/metrics/service.go:587-645 | What the labels of a key are: text as it is, an owner key cut at its first bar and skipped without one, an order as an integer cut off towards zero and written with at least two digits; a key of another type stops the walk. |
| `MetricTree.KeysSurvive` | internal/metrics/service.go:485-513 | Over JSON a number keeps its value as a float, a time becomes text, every other key stays. |
| `MetricTree.ReadBackIsJSON` | internal/metrics/service.go:485-513 | At every depth the tree read back has only keys that JSON has. |
| `MetricTree.EmissionIsExact` | internal/metrics/service.go:515-645 | For every chain of levels: labels are pairwise distinct, each series is the histogram of exactly the items with its keys, and every combination some item has gets its series. |
| `Metrics.ChainMetricIsExact` | internal/metrics/service.go:411-645 | The same over projected rows that hold a number in the measured field: counts, sums and buckets are those of the rows' own numbers. |
| `Metrics.RunMetricIsExact` | internal/metrics/service.go:515-571 | When no team name has the separator: distinct label tuples; the series of (team, component, workflow, name, branch, status) has the number, the total duration and, for each of its seven bounds, the number at or below it, of exactly the runs whose owners contain that pair and whose other fields match; one series for each owner of each run; and the same when the tree comes over the network. |
| `Metrics.RunOwnerHasSeries` | internal/metrics/service.go:515-571 | A run shows under one of its owners if and only if that team's name has no separator. |
| `TaskMetrics.TaskMetricIsExact` | internal/metrics/service.go:576-645 | As for runs, with owner, workflow and branch found through the run it belongs to, and task name and two-digit order among the labels, also when the order comes back from JSON as a float. |
| `TaskMetrics.TaskOwnerHasSeries` | internal/metrics/service.go:576-645 | A task shows under one of its owners if and only if that team's name has no separator. |
| `TaskMetrics.PRMetricIsExact` | internal/metrics/service.go:411-469 | One series per repo, creation month and state that occur, with the number, the total and the buckets of the seconds those pull requests were open. |
| `StoredRows.OwnersStored` | internal/domain/repo/memory.go:165-235 | A workflow has an owner (component, team) if and only if some repo of the stored workflow is indexed to the component and that has the team, or none and the team is unknown; or no repo has a component and both are unknown. |
| `StoredRows.StoredRunsTold` | internal/metrics/service.go:515-571 | In the stored fields, when no team name has a bar: labels are distinct; a series has the number, total duration and buckets of exactly the runs with its labels, some at least; and a run has a series under a team and a component if and only if its workflow has that owner. |
| `StoredRows.StoredTasksTold` | internal/metrics/service.go:576-645 | Likewise for tasks, with workflow and branch of their stored run: each series is about exactly the tasks with its labels, some at least, and each tuple of labels a task has is that of a series. |
| `EndToEnd.EmissionIsDetermined` | internal/metrics/service.go:86-131 | For any chain with one type per level, two iterations over the stored rows lead to the very same series. |
| `EndToEnd.RunEmissionIsDetermined` | internal/metrics/service.go:515-571 | So for the runs of a state. |
| `EndToEnd.TaskEmissionIsDetermined` | internal/metrics/service.go:576-645 | So for its tasks. |
| `EndToEnd.PREmissionIsDetermined` | internal/metrics/service.go:411-469 | So for its pull requests. |
| `EndToEnd.BackendsEmitAlike` | internal/domain/repo/sqlite.go:436-465 | After the same events, all harmless, and over the same runs, both repositories lead to the very same series. |
| `EndToEnd.RefreshAndCollectRuns` | internal/metrics/service.go:307-357 | From the repository to the series sent: the refresh never fails, the series are the same for every order of iterating the runs and whether or not the tree goes over JSON; and, when no team name has a bar, they tell exactly what the stored runs, workflows and indexes hold. |
| `EndToEnd.RefreshAndCollectTasks` | internal/metrics/service.go:307-357 | Likewise for the stored tasks. |
| `EndToEnd.RefreshAndCollectPullRequests` | internal/metrics/service.go:307-357 | Likewise for the pull requests, whose series are always exact. |
| `Bitbucket.RunKeepsInv` | internal/ingest/bitbucket/crawler.go:70-243 | Every run of steps - push, rewrite, restart, load, fetch, clear, refetch, publish, save, each call failing or not - keeps the invariant. |
| `Bitbucket.CrawlIsSafe` | internal/ingest/bitbucket/crawler.go:70-243 | In every reachable state over any commit graph all ancestors of every cursor, in memory and stored, have been handed to the publisher, and all ancestors of every tip whose crawl got a listing and ended. |
| `BitbucketOnce.HandedOverOnceIff` | internal/ingest/bitbucket/crawler.go:188-243 | Without failures, tips moving anywhere, no commit is handed over twice if and only if, at every fetch, all that the tip shares with tips crawled before lies behind the cursor; then each ancestor of a crawled tip is handed over exactly once. |
| `BitbucketOnce.ForwardFetchesOnlyNew` | internal/ingest/bitbucket/crawler.go:188-243 | Tips that only move forward meet that condition. |
| `BitbucketOnce.RewritingHandsOverTwice` | internal/ingest/bitbucket/crawler.go:188-243 | A rewritten tip that comes back is handed over twice with no failure at all. |
| `BitbucketCrawler.RunIsLegal` | internal/ingest/bitbucket/crawler.go:70-243 | What the methods below are shown to take, moves of tips included, is a run of the protocol. |
| `BitbucketCrawler.Crawler.constructor` | internal/ingest/bitbucket/crawler.go:55-68 | A new process is a restart: empty cursors over the same store. |
| `BitbucketCrawler.Crawler.FetchFrom` | internal/ingest/bitbucket/crawler.go:191-196 | One fetch from the cursor, answered by the tips of its moment. |
| `BitbucketCrawler.Crawler.FetchAll` | internal/ingest/bitbucket/crawler.go:202-208 | Forgets the cursor, in memory for certain and in the store if the call had effect, and fetches everything. |
| `BitbucketCrawler.Crawler.FetchCommits` | internal/ingest/bitbucket/crawler.go:191-215 | Falls back to a full fetch exactly when a fetch from a cursor failed, and then leaves a batch for the tip of that moment, a crawled tip, or nothing. |
| `BitbucketCrawler.Crawler.PublishAll` | internal/ingest/bitbucket/crawler.go:217-228 | Hands the commits over in order, whatever publishing returns. |
| `BitbucketCrawler.Crawler.SaveCursor` | internal/ingest/bitbucket/crawler.go:233-240 | The cursor in memory moves only when the store accepted it. |
| `BitbucketCrawler.Crawler.PublishAndSave` | internal/ingest/bitbucket/crawler.go:217-242 | After it every ancestor of the fetched tip has been handed over, wherever the tip has gone meanwhile. |
| `BitbucketCrawler.Crawler.CrawlCommits` | internal/ingest/bitbucket/crawler.go:188-243 | Takes a run of protocol steps, tips moving before each, with one fetch from the cursor in it, each call getting the answer of its moment; succeeds exactly when the final fetch does; then all ancestors of the tip of that fetch have been handed over; states what was published and both cursor maps. |
| `BitbucketCrawler.Crawler.CrawlProject` | internal/ingest/bitbucket/crawler.go:100-122 | One failing repository does not stop the others: each whose full listing can be had throughout is delivered, up to its tip at some moment meanwhile. |
| `BitbucketCrawler.Crawler.Hydrate` | internal/ingest/bitbucket/crawler.go:73-88 | The stored cursors are loaded once per process; a failed load means none. |
| `BitbucketCrawler.Crawler.CrawlProjects` | internal/ingest/bitbucket/crawler.go:90-94 | The repositories of all projects that could be listed are crawled, each once, in order. |
| `BitbucketCrawler.Crawler.Crawl` | internal/ingest/bitbucket/crawler.go:70-98 | A tick, also the first after a failed load, takes a run of protocol steps, tips moving before each, that crawls the listed repositories in order; of every repository whose full listing can be had throughout, all ancestors of its tip, as it stood at some moment of the tick, have been handed over. |
| `Jenkins.GroupingIsPermutation` | internal/ingest/jenkins/crawler.go:105-171 | Grouping by pipeline neither loses nor repeats a job with new builds. |
| `Jenkins.WorkflowsComeFirst` | internal/ingest/jenkins/crawler.go:173-211 | Every job's builds are published under their own workflow, announced just before its jobs. |
| `Jenkins.BranchesShareTheirPipeline` | internal/ingest/jenkins/crawler.go:34-39 | A branch belongs to the pipeline it is a child of, as its siblings do; a job that is no branch is its own pipeline. |
| `Jenkins.NewBuildsAbove` | internal/ingest/jenkins/crawler.go:159-168 | The kept numbers are those above the cursor of builds listed as ended: with a result, whatever it is, and not in progress. |
| `Jenkins.RunKeepsInv` | internal/ingest/jenkins/crawler.go:69-238 | Every run of steps - build completing, restart, load, probe, listing, publishing, save, each call failing or not - keeps the invariant, as long as no listing leaves out a completed build above the cursor that is not handed over yet. |
| `Jenkins.CrawlIsSafe` | internal/ingest/jenkins/crawler.go:69-238 | So long as no listing does, in every reachable state every completed build at or below a cursor, in memory or stored, has been handed over; the branch clearing a cursor is never taken; a finished tick has handed over every build completed when it began, of each job it could list. |
| `JenkinsListings.SafeIffPlansCover` | internal/ingest/jenkins/crawler.go:69-238 | Listings leaving out any builds, calls failing, jobs met repeatedly: if no tick is interrupted while it publishes, a run up to the end of a tick is safe in every state if and only if, whenever it starts publishing, each job to save is preceded by all that its cursor will pass, and all that is due is in some job or has been handed over. |
| `JenkinsListings.CoveringPlansAreSafe` | internal/ingest/jenkins/crawler.go:69-238 | Such plans keep every run safe, whatever interrupts it. |
| `JenkinsListings.PlanOfDistinctJobs` | internal/ingest/jenkins/crawler.go:105-171 | With no job met twice in the tick, the condition is that the builds collected of each job have no gap up to the highest, and all that is due is among them. |
| `JenkinsListings.CoveringListingsPlan` | internal/ingest/jenkins/crawler.go:154-171 | Listings that leave out nothing new above the cursor make such plans. |
| `JenkinsListings.CutListingIsUnsafe` | internal/ingest/jenkins/crawler.go:154-168 | A listing cut to the newest of two new builds loses the other with no failure at all: the cursor passes it. |
| `JenkinsOnce.HandedOverOnceIff` | internal/ingest/jenkins/crawler.go:69-238 | Without failures, listings holding all that is new, no build is handed over twice if and only if no listed job that its tick meets again has a completed build above its cursor; then each build a finished tick was due is handed over exactly once. |
| `JenkinsOnce.DistinctPathsListNewOnce` | internal/ingest/jenkins/crawler.go:69-238 | Ticks over distinct job paths meet that condition. |
| `JenkinsOnce.RepeatedPathHandsOverTwice` | internal/ingest/jenkins/crawler.go:286-316 | A configured job listed twice is handed over twice with no failure at all. |
| `JenkinsCrawler.FilterNew` | internal/ingest/jenkins/crawler.go:159-168 | The loop keeps the numbers above the cursor of the builds that are not in progress and have a result, whatever it is: all of them, in the order listed and as often. |
| `JenkinsCrawler.MaxPublished` | internal/ingest/jenkins/crawler.go:222-227 | The loop finds the highest number. |
| `JenkinsCrawler.NewBuildsOf` | internal/ingest/jenkins/crawler.go:176-185 | A pipeline is skipped exactly when none of its jobs has new builds. |
| `JenkinsCrawler.RunIsLegal` | internal/ingest/jenkins/crawler.go:69-238 | What the methods below are shown to take, completing builds included, is a run of the protocol. |
| `JenkinsCrawler.Crawler.constructor` | internal/ingest/jenkins/crawler.go:54-67 | A new process is a restart: empty cursors over the same store. |
| `JenkinsCrawler.Crawler.CollectEntry` | internal/ingest/jenkins/crawler.go:117-171 | Probe, clear, fetch and filter for one job are protocol steps, builds completing before each; only a failed listing releases the job's due builds. No listing without builds or with the last one at the cursor; the cursor is cleared, and everything ended is new, exactly if the last build is behind it; else what ended above it is. |
| `JenkinsCrawler.Crawler.ClearCursor` | internal/ingest/jenkins/crawler.go:137-147 | Forgets the cursor, in memory for certain and in the store if the call had effect. |
| `JenkinsCrawler.Crawler.FetchBuilds` | internal/ingest/jenkins/crawler.go:154-170 | A failed listing counts as no builds. |
| `JenkinsCrawler.Crawler.CollectNext` | internal/ingest/jenkins/crawler.go:117-171 | One turn keeps the groups equal to the batches by pipeline. |
| `JenkinsCrawler.Crawler.CollectAll` | internal/ingest/jenkins/crawler.go:115-171 | The groups built are the batches by pipeline, pipelines in the order they were first met, while builds complete; what was due stays due unless its job could not be listed. |
| `JenkinsCrawler.Crawler.CrawlJob` | internal/ingest/jenkins/crawler.go:319-361 | Hands over every build of the job in order, whatever publishing returns. |
| `JenkinsCrawler.Crawler.SaveCursor` | internal/ingest/jenkins/crawler.go:219-234 | The cursor moves to the highest number published, in memory only when the store accepted it. |
| `JenkinsCrawler.Crawler.PublishIfNew` | internal/ingest/jenkins/crawler.go:211-235 | One turn publishes and saves the job if it has new builds. |
| `JenkinsCrawler.Crawler.PublishJobs` | internal/ingest/jenkins/crawler.go:211-235 | Publishes and saves every job with new builds, passing over the others. |
| `JenkinsCrawler.Crawler.PublishGroup` | internal/ingest/jenkins/crawler.go:174-236 | Announces the workflow and publishes its jobs, or skips a pipeline with nothing new. |
| `JenkinsCrawler.Crawler.PublishGroups` | internal/ingest/jenkins/crawler.go:173-236 | Performs all grouped tasks in order. |
| `JenkinsCrawler.Crawler.CollectJobs` | internal/ingest/jenkins/crawler.go:105-171 | The first half of a tick: what was due stays due unless its job could not be listed. |
| `JenkinsCrawler.Crawler.PublishCollected` | internal/ingest/jenkins/crawler.go:173-237 | The second half: at its end everything due is settled. |
| `JenkinsCrawler.Crawler.Crawl` | internal/ingest/jenkins/crawler.go:69-238 | A tick takes a run of protocol steps, builds completing before each, begun once for the discovered jobs, each call getting the answer of its moment; if it starts safe and no listing leaves out a completed build above the cursor that is not handed over yet, it stays safe, and of each job whose builds can be listed throughout every build that had completed when the call began has been handed over. |

## Left out

- QueryLaws.SortIsKeyByKey: asks each sort field to have one type or never to tell two items apart, which is exactly when its comparison is an order (OneFieldOrder); without an order the result of the library's sort is unspecified.
- Queries.SortBy: sorts by insertion, as the library does a short slice, and promises the sorted sequence only over an order, where every stable sort gives the same (StableSortUnique); without one the library's merging of blocks may leave another rearrangement.
- Jenkins.CrawlIsSafe: builds of a job complete in number order; a job that is reset and catches up past its cursor unseen, or builds that finish out of order, are not recovered by the code.
- BitbucketCrawler.Crawler.CrawlProject: the repo event published before each repository, its pull requests and its self-onboarding file are omitted; none of them touches a commit cursor.
- JenkinsCrawler.Crawler.CrawlJob: the stages of a build, listed and published after it, are omitted; a failed listing of stages is logged and they are lost.
- JenkinsCrawler.Crawler.PublishGroup: the repo IDs, which the announced workflow takes from its builds or from an override, are omitted, and so are branch and commit of a run.
- Jenkins.BranchesShareTheirPipeline: paths are taken as they are; the library also cleans paths with empty, "." or ".." elements.
- The aggregation of repos, commits, workflows, teams and components, over which no metric is defined; the generic loop is AggregationOrder.Aggregate.
- MetricTree.Emit: one recursive method for the three functions that nest one loop per level.
- MetricTree.WalkReadBack: a whole number comes back from JSON exactly, as it does up to 2^53.
- Delivery means handed to the publisher: the crawlers log a publishing error and go on, so what the message bus does with an event is outside the model.
- The discovery of Jenkins jobs: the jobs of a tick are an input. Path cleaning beyond cutting the last element is left out too.
- A listing is one answer of the server, although the client fetches it page by page.
- NATS and JetStream, HTTP servers and clients, commands, wiring, dashboards and fake servers.
- SQL text, the JSON of stored rows, and transactions: a table is a map and a transaction one step. A failed transaction is no step.
- Rounding, NaN and overflow of unsigned counters: sums are reals, counts natural numbers.
- A negative offset, on which Paginate would panic, is excluded by its type.
- Locks, contexts, timeouts and logging; slices are values, so the shared backing array that slices.DeleteFunc edits in a component's repo list is not modelled.
- Upserts of a single map (repos, commits, teams), the insertion of the "unknown" team, OwnershipDiagnostics over all workflows and the refresh loop's back-off: easy on their own.
- SQLite's emitted tasks, which lack the branch that memory copies from the run; the backends are compared on lookups and projections.
