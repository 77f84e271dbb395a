# Verified models of the Coraza Kubernetes Operator

This project models the parts of the operator and of its CRS generator where state, loops or interleaving decide
correctness, and proves what they promise for all inputs and all runs. `dafny verify dfyconfig.toml` checks everything.

- **CRS rule filter** (`tools/corerulesetgen`): `RuleBlocks` cuts a file into blocks, `RuleGroups` groups chained rules,
  `RuleFilter` drops whole chains, `FileProcessor` is the in-place algorithm with its warnings, `BlockScalar` prints the
  result as YAML literal scalars and reads it back (sections 8.1.1.1, 8.1.1.2 and 8.1.2 of YAML 1.2.2).
- **Unsupported-rule scanner** (`internal/rulesets`): `UnsupportedRules`; `FilterAgreement` connects it with the filter's
  `wasm` profile, `ReadBack` with what a YAML reader sees, and `GeneratedManifests` follows the rules from the generator
  through YAML into the operator.
- **RuleSet cache and garbage collector** (`internal/rulesets/cache`): `CacheModel` holds the stored revisions as values,
  `RuleSetCache` the mutable class with its deep copies and counters, `GarbageCollector` one `rungc` iteration, `CacheRuns`
  whole runs, with the collector interleaved with Puts.
- **Token authenticator** (`internal/rulesets/cache/auth.go`): `TokenAuth` has the locked sections and the class, `AuthRuns`
  any number of overlapping calls.
- **Reconcilers** (`internal/controller`): `StatusConditions`, the RuleSet pipeline (`RuleSetPipeline`, `RuleSetReconciler`,
  `RuleSetRuns`), the Engine (`EngineReconciler`), the NetworkPolicy finalizer as an interleaved protocol
  (`FinalizerProtocol`), and token renewal (`TokenRenewal`).

Conventions. Text is a sequence of Unicode characters; sizes are counted in UTF-8 bytes. The clock, fresh UUIDs, generated
names and the answers of the API server are parameters; Go's map iteration is a nondeterministic choice. A call of the API
server succeeds, fails, or takes effect without its caller learning of it. Each locked section of the cache and of the
authenticator is one atomic step. Methods that change state are proved against functions on values, and the lemmas are about
those functions. Some proofs `hide` function definitions that they do not need.

Where the code does less than its comments or names suggest, the model follows the code and says exactly when the
difference shows:

- A second filter pass is the identity exactly when the first result is empty, or does not end in a newline and still mentions
  a directive (`SecondPassExactly`; `SecondPassTrims` has an input). Splitting, grouping, dropping and joining again is always
  the identity.
- Printing and reading a block scalar is a round trip exactly when the first non-blank line does not start with a space
  (`RoundTripExactly`).
- Generator and operator read rule IDs differently: a quoted ID slips through the filter and is then rejected by the
  operator (`QuotedIDSlipsThrough`; `AcceptedExactly` is the exact condition).
- The authenticator's counter equals the size of its map only while calls do not overlap. In general it runs ahead by the
  number of overwriting stores (`CounterBounds`), and the map loses as many places for good (`CapacityShrinks`,
  `GapNeverShrinks`); every loss but that of the last place does happen (`DriftHappens`). Keys of different tokens collide
  exactly when one token continues another across a colon (`KeysCollide`; `CollisionHappens` has a pair); tokens in JWS
  compact form (section 7.1 of RFC 7515) have none.
- A Ready RuleSet need not be served: the cache does not survive a restart, the status does (`ReadyAfterRestart`).
  `CachedExactly` says which RuleSets are served, and `UncachedReadyIsLeftOver` that the process itself never says Ready of
  others. A RuleSet that is deleted and created again may become Ready by a reconcile of its old self
  (`RecreatedBecomesReady`); without a deletion in between a worker patches the status that it has seen (`SeesStored`).
- A YAML reader breaks lines at carriage returns, and the generator does not: a comment may then reveal a directive
  (`LoneCRRevealsComment`). What is generated is accepted exactly when no comment reveals a registry rule
  (`GeneratedRulesAccepted`); in line ends carriage returns do no harm (`EndedFilesRevealNothing`).
- Rules that begin with an indented line and go on further left cannot be read back at all (`ReadableExactly`).

## Model

| member | source | states |
|---|---|---|
| RuleBlocks.ParseSound | tools/corerulesetgen/rules.go:25-58 | cutting a file yields complete blocks, of which only the last may be unterminated, and loses no line |
| RuleBlocks.ParseUnique | tools/corerulesetgen/rules.go:25-58 | there is no other way to cut the lines into such blocks |
| RuleBlocks.ParseCharacterized | tools/corerulesetgen/rules.go:25-58 | a list of blocks is the parse if and only if it is a legal cut of these lines |
| RuleBlocks.SplitLossless | tools/corerulesetgen/rules.go:25-58 | joining the blocks with newlines gives the content back, for every string, including unterminated continuations |
| RuleBlocks.SplitIntoRules | tools/corerulesetgen/rules.go:25-58 | the line state machine returns exactly the texts of that unique parse |
| RuleBlocks.RuleIDIsLeftmost | tools/corerulesetgen/rules.go:60-66 | the rule ID is the maximal digit run behind the leftmost `id:` followed by a digit, and "unknown" only if there is none |
| RuleBlocks.ChainActionMeaning | tools/corerulesetgen/rules.go:15-15 | the chain test holds if and only if some comma, spaces, `chain`, spaces and comma or quote stand side by side in the block |
| RuleGroups.RuleIndicesExact | tools/corerulesetgen/rules.go:76-112 | the indices to be grouped are the increasing indices of the SecRule blocks, no more and no fewer |
| RuleGroups.GroupsAreGrouping | tools/corerulesetgen/rules.go:72-112 | the groups partition these indices in order into chains: every non-last member has the chain action, nothing but comments and blanks lies between, and no chain could go on |
| RuleGroups.GroupingUnique | tools/corerulesetgen/rules.go:72-112 | this describes one grouping only: a list of groups is the result if and only if it is such a partition |
| RuleGroups.ChainSecRuleGroups | tools/corerulesetgen/rules.go:76-112 | the loop computes that grouping |
| RuleGroups.GroupsCoverRules | tools/corerulesetgen/rules.go:76-112 | a block is in some group if and only if it is a SecRule block |
| RuleGroups.RegroupKept | tools/corerulesetgen/rules.go:76-112 | after removing whole chains, regrouping what is left gives exactly the surviving groups, renumbered |
| RuleFilter.GroupsDisjoint | tools/corerulesetgen/rules.go:148-164 | no block belongs to two groups, so chains are dropped independently |
| RuleFilter.ChainFate | tools/corerulesetgen/rules.go:148-164 | all members of a chain share its fate: a member is dropped if and only if some member is wished away |
| RuleFilter.DropIsChainClosure | tools/corerulesetgen/rules.go:128-164 | a block is dropped if and only if it is a SecRule block and its chain contains a block that matches an ignore setting |
| RuleFilter.KeepWholeChains | tools/corerulesetgen/rules.go:148-164 | filtering never splits a chain |
| RuleFilter.RegroupKeptBlocks | tools/corerulesetgen/rules.go:147-203 | the kept blocks regroup to the surviving groups |
| RuleFilter.KeptIsStable | tools/corerulesetgen/rules.go:128-203 | filtering the kept blocks again keeps all of them |
| RuleFilter.ResplitKept | tools/corerulesetgen/rules.go:197-204 | if anything is kept, splitting the joined result gives back exactly the kept blocks |
| RuleFilter.FilterIdempotent | tools/corerulesetgen/rules.go:125-204 | splitting, grouping, dropping and joining twice is the same as once |
| RuleFilter.SecondPassExactly | tools/corerulesetgen/rules.go:119-204 | a second run of the whole function changes nothing if and only if the first result is empty, or is touched neither by the outer trimming nor by the early exit |
| RuleFilter.SecondPassByBlocks | tools/corerulesetgen/rules.go:119-204 | the same in terms of the kept blocks: the last one is not empty and ends in no line end, and some kept block mentions a directive |
| RuleFilter.IdentityExactly | tools/corerulesetgen/rules.go:119-204 | with nothing to ignore, a file comes back as it was if and only if it is empty, or mentions a directive and does not end in a newline |
| RuleFilter.FilterTextShortens | tools/corerulesetgen/rules.go:197-204 | filtering never makes the text longer |
| FileProcessor.MarkWished | tools/corerulesetgen/rules.go:128-145 | the first pass marks exactly the SecRule blocks that match an ignore setting |
| FileProcessor.MarkChains | tools/corerulesetgen/rules.go:148-164 | the second pass extends the marks in place to exactly the dropped blocks |
| FileProcessor.MarkedIsDropped | tools/corerulesetgen/rules.go:148-164 | marks on members of one-rule groups and of longer chains together are the chain closure |
| FileProcessor.CollectWarnings | tools/corerulesetgen/rules.go:166-195 | each doomed group yields exactly one warning, in order, with its IDs and its reason |
| FileProcessor.CollectKept | tools/corerulesetgen/rules.go:197-203 | the surviving blocks are collected in order |
| FileProcessor.ProcessFileContent | tools/corerulesetgen/rules.go:114-205 | the passes over boolean arrays refine the specification of the filter, text and warnings |
| FileProcessor.SecondPassTrims | tools/corerulesetgen/rules.go:119-122 | a concrete file whose second pass differs from its first |
| UnsupportedRules.RegisteredExactly | internal/rulesets/unsupported.go:204-268 | registering rows of rules adds exactly the listed IDs, each as its row says, and leaves all others alone |
| UnsupportedRules.RegistryExactly | internal/rulesets/unsupported.go:145-271 | a rule is registered if and only if it is listed as incompatible or redundant, under its own ID, in that tier and with the category and description of its row |
| UnsupportedRules.MatchesDisjoint | internal/rulesets/unsupported.go:33-33 | no match of the ID pattern begins inside another |
| UnsupportedRules.SearchFindsAll | internal/rulesets/unsupported.go:47-47 | the search that goes on behind each match finds every match that there is at any position, in order |
| UnsupportedRules.MatchesConcat | internal/rulesets/unsupported.go:47-47 | no match spans a line break: the matches of joined texts are those of the parts |
| UnsupportedRules.CheckExact | internal/rulesets/unsupported.go:45-78 | the result is strictly ascending and holds precisely the registry rules whose ID stands on a non-comment line |
| UnsupportedRules.CheckCharacterized | internal/rulesets/unsupported.go:45-78 | only one list has these properties |
| UnsupportedRules.OnlyActiveLinesCount | internal/rulesets/unsupported.go:292-303 | texts with the same set of non-comment lines scan alike: comments, blank lines, order and repetition do not matter |
| UnsupportedRules.CheckFragments | internal/rulesets/unsupported.go:45-78 | scanning newline-joined fragments finds exactly what scanning each fragment finds |
| UnsupportedRules.StripCommentLines | internal/rulesets/unsupported.go:292-303 | the builder loop leaves exactly the active lines |
| UnsupportedRules.CheckUnsupportedRules | internal/rulesets/unsupported.go:45-78 | the loop over matches with its seen set, and the sort, return that unique result |
| FilterAgreement.ItoaOfValue | tools/corerulesetgen/build.go:120-120 | printing the value of digits without leading zeros gives the digits back |
| FilterAgreement.ValueOfItoa | tools/corerulesetgen/build.go:120-120 | reading a printed ID gives the ID back |
| FilterAgreement.MergeUnsupportedIDs | tools/corerulesetgen/build.go:106-133 | the merged IDs are the user's and, for the wasm profile, the registry's; the automatic ones are those the user did not name |
| FilterAgreement.AcceptedExactly | internal/rulesets/unsupported.go:45-78 | the operator accepts a filtered text if and only if every block that holds a registry ID was dropped |
| FilterAgreement.FlaggedRuleIsWished | tools/corerulesetgen/rules.go:141-144 | a conforming rule that the scanner would flag is one that the filter wishes away |
| FilterAgreement.SkippedNotFlagged | tools/corerulesetgen/rules.go:131-136 | comment and blank blocks are never flagged |
| FilterAgreement.GeneratorAndOperatorAgree | tools/corerulesetgen/build.go:106-144 | for files whose blocks hold at most one ID, unquoted and without leading zeros, the wasm profile leaves nothing that the operator rejects |
| FilterAgreement.QuotedIDSlipsThrough | internal/rulesets/unsupported.go:33-33 | a concrete rule with a quoted ID that the filter keeps and the scanner reports |
| BlockScalar.IndentMultiline | tools/corerulesetgen/render.go:148-162 | the builder loop indents every line, and reduces white-space lines to the indentation |
| BlockScalar.RoundTripExactly | tools/corerulesetgen/render.go:146-162 | reading the printed scalar gives the normalized text if and only if the first non-blank line does not start with a space |
| BlockScalar.IndentationIsLost | tools/corerulesetgen/render.go:146-162 | a concrete text whose first line is indented, and what a reader makes of it |
| BlockScalar.RuleSourceRoundTrip | tools/corerulesetgen/render.go:191-199 | the same for the rules of a whole RuleSource document, for rules without carriage returns |
| BlockScalar.RuleDataRoundTrip | tools/corerulesetgen/render.go:201-219 | the printed text of a RuleData document with any files free of carriage returns reads back as these files, normalized and under their own keys, if and only if each of them starts flush |
| BlockScalar.FilesReadExactly | tools/corerulesetgen/render.go:214-217 | the same on the lines of the document |
| BlockScalar.FormatFiles | tools/corerulesetgen/render.go:214-217 | the loop prints the document that RuleDataRoundTrip reads, whatever order the keys are in |
| GeneratedManifests.Build | tools/corerulesetgen/build.go:58-77 | one payload per file that leaves rules, in order, and the statistics account for every file |
| GeneratedManifests.ScanOfNormalized | internal/rulesets/unsupported.go:292-303 | what the YAML scalar does to blank lines and the end of the text does not change the scan |
| ReadBack.ReadBackExactly | tools/corerulesetgen/render.go:148-162 | whatever a YAML reader makes of a printed RuleSource, its rule IDs are exactly those on the lines that the reader sees in the printed rules: no condition on indentation or carriage returns |
| ReadBack.ReadBackAddsNothing | tools/corerulesetgen/rules.go:18-23 | if all carriage returns end lines, the rule IDs that come back are exactly those that were printed |
| ReadBack.LinesAsRead | internal/rulesets/unsupported.go:292-303 | breaking lines at carriage returns never adds an ID to an active line: what the reader sees beyond the printed IDs comes out of comment lines, and all of that is seen |
| ReadBack.ReadableExactly | tools/corerulesetgen/render.go:148-162 | with line ends of either kind a YAML reader can read the printed rules if and only if no line starts further left than the first line of content |
| GeneratedManifests.AcceptedAsRead | internal/rulesets/unsupported.go:45-78 | for every printed text: the operator accepts what a YAML reader makes of it if and only if no line that the reader sees in it holds a registry ID |
| GeneratedManifests.CleanAsRead | internal/rulesets/unsupported.go:292-303 | a text that scans clean stays clean in a YAML reader's eyes if and only if breaking its comment lines at carriage returns reveals no registry ID |
| GeneratedManifests.GeneratedRulesAccepted | tools/corerulesetgen/build.go:44-98 | RuleSources generated with the wasm profile from any files of conforming blocks, in whatever form a YAML reader gives them back, joined in any order or selection, are accepted by the operator if and only if no comment line printed in the selected ones reveals a registry ID |
| GeneratedManifests.EndedFilesRevealNothing | tools/corerulesetgen/rules.go:18-23 | files with LF or CR LF line ends meet that condition |
| GeneratedManifests.RevealedByKeptBlocks | tools/corerulesetgen/rules.go:197-204 | what is printed meets it if and only if every block of the file that the filter keeps does |
| GeneratedManifests.LoneCRRevealsComment | tools/corerulesetgen/render.go:148-162 | a concrete file of conforming blocks that the filter emits unchanged with any settings and that scans clean; out of its comment with a carriage return inside a YAML reader makes a directive that the operator rejects |
| CacheModel.KeepYoungIsSuffix | internal/rulesets/cache/cache.go:193-210 | with a clock that never goes back, age pruning removes exactly the leading revisions beyond the age limit, never the latest |
| CacheModel.PruneBySizeGuarantee | internal/rulesets/cache/cache.go:215-259 | for every iteration order, size pruning ends within the limit or with only the latest revision everywhere, removes an oldest-first prefix per instance, and partly prunes at most one instance |
| CacheModel.PruneBySizeIsMinimal | internal/rulesets/cache/cache.go:243-253 | putting the revision removed last back would exceed the limit; sizes and counts of the kept and the removed add up |
| CacheModel.SweepStops | internal/rulesets/cache/cache.go:232-234 | stopping the iteration once the limit is met gives the same result as going on |
| CacheModel.AgePruningKeepsLatest | internal/rulesets/cache/cache.go:196-199 | age pruning changes no answer and removes no instance |
| CacheModel.SizePruningKeepsLatest | internal/rulesets/cache/cache.go:238-241 | size pruning changes no answer and removes no instance, in any order |
| RuleSetCaches.CloneFiles | internal/rulesets/cache/cache.go:104-111 | a copy with equal contents in buffers of its own |
| RuleSetCaches.EntrySize | internal/rulesets/cache/cache.go:265-272 | the loop adds up to the size of the entry's value, in any order of files |
| RuleSetCaches.RuleSetCache.Get | internal/rulesets/cache/cache.go:67-96 | finds the last Put of the instance, if there was one, and returns it in fresh buffers |
| RuleSetCaches.RuleSetCache.Put | internal/rulesets/cache/cache.go:98-132 | appends a revision with the caller's contents, keeps both totals exact, and shares no buffer with the caller |
| RuleSetCaches.RuleSetCache.Append | internal/rulesets/cache/cache.go:119-131 | the bookkeeping half of Put, on the entry and its value |
| RuleSetCaches.RuleSetCache.YoungEntries | internal/rulesets/cache/cache.go:194-208 | the inner loop of Prune keeps the suffix that age pruning keeps and reports its size and count exactly |
| RuleSetCaches.RuleSetCache.Prune | internal/rulesets/cache/cache.go:181-213 | has the effect of age pruning on the stored values, whatever the iteration order; returns the number of revisions gone; totals stay exact |
| RuleSetCaches.RuleSetCache.CutEntries | internal/rulesets/cache/cache.go:236-254 | the inner loop of PruneBySize removes the shortest sufficient prefix short of the latest |
| RuleSetCaches.RuleSetCache.PruneBySize | internal/rulesets/cache/cache.go:218-259 | has the effect of size pruning in some order over all instances, though it stops early; totals stay exact |
| RuleSetCaches.Isolation | internal/rulesets/cache/cache.go:76-118 | overwriting a buffer passed to Put or returned by Get changes neither a later Get nor the accounting |
| CacheRuns.CacheRefinesLastWrite | internal/rulesets/cache/cache.go:67-132 | after any sequence of Put, Prune and PruneBySize the cache answers like a plain map that every Put overwrites |
| CacheRuns.InstancesStay | internal/rulesets/cache/cache.go:181-259 | no instance ever disappears along a run |
| CacheRuns.SizeLimitExactly | internal/rulesets/cache/cache.go:215-259 | after size pruning the limit is exceeded if and only if the latest revisions alone exceed it |
| CacheRuns.ConservationThroughGC | internal/rulesets/cache/server.go:318-338 | in every interleaving of the collector with Puts, whenever the collector waits, the number of Puts equals the stored revisions plus the two prune counters |
| CacheRuns.SizeLimitCounterExact | internal/rulesets/cache/server.go:325-338 | in an iteration without a Put the size limit counter rises, by one, if and only if the latest revisions alone exceed the limit |
| GarbageCollector.RuleSetCacheServer.CollectGarbage | internal/rulesets/cache/server.go:318-338 | an undisturbed iteration keeps every answer, charges each removed revision to the counter of the pruning that removed it, and bumps the size limit counter exactly when the latest revisions alone exceed the limit |
| GarbageCollector.RuleSetCacheServer.Shrink | internal/rulesets/cache/server.go:325-338 | the size-based half charges only its own counter, with exactly what it removed |
| TokenAuth.KeyDecodes | internal/rulesets/cache/auth.go:107-109 | with a colon-free token a cache key determines its token and its audience |
| TokenAuth.KeysCollide | internal/rulesets/cache/auth.go:107-109 | exactly when two pairs of token and audience share a key |
| TokenAuth.ParseExactly | internal/rulesets/cache/auth.go:186-200 | a username parses to a namespace and a name if and only if it is the prefix, a colon-free namespace, a colon and that name |
| TokenAuth.StoredGap | internal/rulesets/cache/auth.go:156-167 | evict-and-store keeps the counter within the limit, and widens its gap to the map by one exactly when it overwrites |
| TokenAuth.StoredKeepsRoom | internal/rulesets/cache/auth.go:156-167 | no store lets the gap take the whole capacity, because an overwrite needs a present key and a counter below the limit |
| TokenAuth.AloneKeepsGap | internal/rulesets/cache/auth.go:111-167 | a store behind its own deletion never overwrites |
| TokenAuth.TokenAuthenticator.DeleteLocked | internal/rulesets/cache/auth.go:118-122 | the locked deletion removes whatever is under the key and counts it |
| TokenAuth.TokenAuthenticator.EvictExpiredLocked | internal/rulesets/cache/auth.go:174-184 | removes exactly the expired entries and counts each once, in any order |
| TokenAuth.TokenAuthenticator.StoreLocked | internal/rulesets/cache/auth.go:156-167 | the locked section as specified, with and without room |
| TokenAuth.TokenAuthenticator.Authenticate | internal/rulesets/cache/auth.go:106-170 | a single call answers from the cache strictly before expiry without asking, otherwise from the review; failures store nothing; an exact counter stays exact |
| AuthRuns.CounterBounds | internal/rulesets/cache/auth.go:111-184 | in every interleaving, map size <= counter <= limit, and their difference is the number of stores that overwrote a present key |
| AuthRuns.CapacityShrinks | internal/rulesets/cache/auth.go:156-167 | in every interleaving the overwriting stores number less than the limit, and the map holds at most the limit less their number |
| AuthRuns.GapNeverShrinks | internal/rulesets/cache/auth.go:111-184 | places lost to overwriting stores are never regained |
| AuthRuns.CounterExactWithoutOverlap | internal/rulesets/cache/auth.go:111-184 | in every run without overlapping calls the counter equals the map size |
| AuthRuns.OverlapDrifts | internal/rulesets/cache/auth.go:160-166 | two calls storing under one missing key leave the counter one further ahead |
| AuthRuns.DriftHappens | internal/rulesets/cache/auth.go:160-166 | every gap below the limit occurs in some run: that many simultaneous misses on one key, and one more, leave a single entry |
| AuthRuns.AnswersAreReviewed | internal/rulesets/cache/auth.go:106-170 | in every interleaving with colon-free tokens, each result comes from an earlier successful review of that token for that audience; a cached one is checked less than the TTL after a clock read that lies between that review and the check |
| AuthRuns.ClockReadFollowsReview | internal/rulesets/cache/auth.go:132-154 | every clock read for an expiry comes after a successful review of the same token and audience with the same result |
| AuthRuns.CacheHoldsReviews | internal/rulesets/cache/auth.go:132-166 | no entry of the cache stems from anything but a successful review of its own token and audience |
| AuthRuns.ReviewsHappened | internal/rulesets/cache/auth.go:125-145 | every recorded review is a successful answer of the API, to a call for that token and audience, earlier in the run |
| StatusConditions.Status.SetStatusCondition | internal/controller/utils.go:175-197 | overwrites the first condition of its kind in place or appends it; the transition time moves only with the status |
| StatusConditions.Status.RemoveStatusCondition | internal/controller/utils.go:204-204 | removes the conditions of a kind and keeps the others in order |
| StatusConditions.Status.ApplyDegraded | internal/controller/utils.go:199-205 | the three updates in place have the specified effect |
| StatusConditions.Status.ApplyProgressing | internal/controller/utils.go:207-212 | the two updates in place have the specified effect |
| StatusConditions.Status.ApplyReady | internal/controller/utils.go:254-260 | the three updates in place have the specified effect |
| StatusConditions.DegradedSeen | internal/controller/utils.go:199-205 | from any conditions, degrading leaves Ready=False and Degraded=True with one reason and message, no Progressing, and foreign conditions untouched |
| StatusConditions.DegradedShape | internal/controller/utils.go:199-205 | from each of the four shapes, degrading leads to the degraded shape with this reason and message |
| StatusConditions.ReadyShape | internal/controller/utils.go:254-260 | from each of the four shapes, Ready=True ends up alone |
| StatusConditions.ProgressingShape | internal/controller/ruleset_controller.go:176-190 | the guarded initial patch leads to the progressing shape |
| StatusConditions.ProgressingNeedsGuard | internal/controller/ruleset_controller.go:177-179 | without the guard a status would lose its shape exactly if it was degraded |
| StatusConditions.EveryStatusHasShape | internal/controller/utils.go:227-286 | every status reachable from the empty one has one of the four shapes, whichever patches fail or lose their answer |
| RuleSetPipeline.SourcesLoaded | internal/controller/ruleset_controller_rule_aggregation.go:89-117 | loading succeeds if and only if every source is found, and then gives all of them in list order |
| RuleSetPipeline.DataLoaded | internal/controller/ruleset_controller_rule_aggregation.go:35-63 | loading succeeds if and only if every RuleData is found, and then each file belongs to the last one listed that provides it |
| RuleSetPipeline.LastListedUnique | internal/controller/ruleset_controller_rule_aggregation.go:58-60 | last-listed-wins determines the merged files |
| RuleSetPipeline.AcceptedExactly | internal/controller/ruleset_controller.go:135-167 | a reconcile accepts if and only if everything is found, Coraza takes the aggregate, and no unsupported rule is active or the annotation overrides; what it caches is the newline-joined sources and the last-listed-wins data |
| RuleSetPipeline.CheckNamesListedRules | internal/controller/ruleset_controller_validation.go:58-61 | the unsupported rules of the aggregate are those of the single sources |
| RuleSetReconcilers.AddFiles | internal/controller/ruleset_controller_rule_aggregation.go:58-60 | later files replace earlier ones under the same name, in fresh buffers, in any order |
| RuleSetReconcilers.LoadData | internal/controller/ruleset_controller_rule_aggregation.go:23-64 | the loop gives the merged data, or the reason of the first reference that fails |
| RuleSetReconcilers.FetchSources | internal/controller/ruleset_controller_rule_aggregation.go:89-117 | the loop gives the sources, or the reason of the first reference that fails |
| RuleSetReconcilers.Concatenate | internal/controller/ruleset_controller_rule_aggregation.go:119-141 | the builder loop joins all fragments with newlines and collects the errors of the fragments that are to be validated |
| RuleSetReconcilers.RuleSetReconciler.Assess | internal/controller/ruleset_controller.go:135-164 | loading, validating and scanning come to the specified verdict |
| RuleSetReconcilers.RuleSetReconciler.CacheRules | internal/controller/ruleset_controller_cache.go:19-38 | the rules are in the cache whether or not the patch to Ready succeeds |
| RuleSetReconcilers.RuleSetReconciler.Reconcile | internal/controller/ruleset_controller.go:116-168 | the cache changes if and only if the verdict is acceptance and the initial patch did not stop the reconcile, and then only by this payload under this RuleSet's key; the stored status is the specified one for every outcome of the patches |
| RuleSetReconcilers.ReconcileKeepsShape | internal/controller/ruleset_controller.go:130-167 | a reconcile keeps the stored status in shape, whatever patches fail |
| RuleSetRuns.KeysDiffer | internal/controller/ruleset_controller_cache.go:28-28 | two RuleSets never share a cache key |
| RuleSetRuns.NextServes | internal/controller/ruleset_controller.go:116-168 | one event changes what is served for a RuleSet exactly when a reconcile of it caches accepted rules, or the process restarts |
| RuleSetRuns.LastKnownGood | internal/controller/ruleset_controller.go:116-168 | at every point of every run, between any two API calls, with garbage collection, deletions, new RuleSets of the same name and restarts, Get answers with what the most recent reconcile accepted by the process made of the RuleSet, and with nothing if there was none |
| RuleSetRuns.ShapesAlongRuns | internal/controller/ruleset_controller.go:116-190 | along every run from statuses in shape, whatever happens between a Get and the merge patches made from it, every stored status stays in shape |
| RuleSetRuns.CachedExactly | internal/controller/ruleset_controller_cache.go:28-29 | a RuleSet is served if and only if the process has accepted a reconcile of it, whatever its status says |
| RuleSetRuns.ReadyAnnouncesServed | internal/controller/ruleset_controller_cache.go:28-33 | whenever a reconcile patches a status to Ready, the cache serves exactly the rules that this reconcile has accepted, whatever happened since its Get |
| RuleSetRuns.UncachedReadyIsLeftOver | internal/controller/ruleset_controller_cache.go:19-38 | a Ready status of a RuleSet that is not served is the very status that the process found when it started |
| RuleSetRuns.UndisturbedReconcile | internal/controller/ruleset_controller.go:116-168 | without disturbance the calls of a reconcile amount to the cache and status that the contract of RuleSetReconciler.Reconcile gives |
| RuleSetRuns.SeesStored | internal/controller/utils.go:242-286 | as long as its RuleSet is not deleted, a worker has seen the status that its patches change |
| RuleSetRuns.ReadyAfterRestart | internal/controller/ruleset_controller_validation.go:35-38 | a run across a restart after which a RuleSet is Ready but not served, and stays so while rejections cannot be written |
| RuleSetRuns.RecreatedBecomesReady | internal/controller/utils.go:264-286 | a run in which a RuleSet that was deleted and created again becomes Ready by the patch of a reconcile that began before |
| FinalizerProtocol.WorkKeepsSafe | internal/controller/engine_controller_network_policy.go:106-211 | every API call of every worker, answered, failed or unanswered, keeps the safety invariant |
| FinalizerProtocol.UserKeepsSafe | internal/controller/engine_controller.go:136-168 | user creates and deletes, restarts and abandoned reconciles between any two calls keep it too |
| FinalizerProtocol.PoliciesAreHeld | internal/controller/engine_controller_network_policy.go:48-53 | in every reachable state each labelled policy has its Engine stored with the finalizer, and no Engine has two policies |
| FinalizerProtocol.NoOrphanedPolicy | internal/controller/engine_controller_network_policy.go:121-144 | no Engine object disappears while a policy of its stands |
| FinalizerProtocol.PathKeepsSafe | internal/controller/engine_controller_network_policy.go:106-211 | any sequence of calls of one worker leads from safe states to safe states |
| TokenRenewal.DeadlineBetween | internal/controller/engine_controller_token.go:68-73 | the renewal deadline lies between issuance and expiry, also when a token is issued expired |
| TokenRenewal.PruningInvisible | internal/controller/engine_controller_token.go:190-208 | at any time after pruning the same tokens are reused as without it |
| TokenRenewal.ReusedIsFresh | internal/controller/engine_controller_token.go:160-167 | a stored token is reused only before its deadline and before its expiry |
| TokenRenewal.TokenContinuity | internal/controller/engine_controller_wasm_driver.go:115-120 | along a run of requeues whose delays each leave one second of the slack, the installed token has not expired at any time |
| TokenRenewal.SlackIsRest | internal/controller/engine_controller_token.go:46-51 | the slack is the lifetime less four fifths of it rounded down, at least a fifth |
| TokenRenewal.SecondIsNeeded | internal/controller/engine_controller_wasm_driver.go:118-118 | for a reconcile that returns at the deadline the bound of the continuity result is exact |
| TokenRenewal.TokenKeeper.PruneExpiredTokens | internal/controller/engine_controller_token.go:198-208 | removes exactly the expired entries, in any order |
| TokenRenewal.TokenKeeper.EnsureCacheToken | internal/controller/engine_controller_token.go:156-196 | reuses the stored token exactly before its deadline, otherwise stores and returns a new one or changes nothing on failure; the reuse of every other token is unaffected |
| EngineReconcilers.EngineReconciler.EnsureNetworkPolicyFinalizer | internal/controller/engine_controller_network_policy.go:104-119 | adds the finalizer to this Engine only, and reports added exactly when the patch it needed was answered |
| EngineReconcilers.EngineReconciler.CleanupNetworkPolicy | internal/controller/engine_controller_network_policy.go:188-211 | success leaves no policy of the Engine; in any case no other policy is touched; it fails exactly when some call does; its effects are list and delete calls of the protocol |
| EngineReconcilers.EngineReconciler.HandleNetworkPolicyDeletion | internal/controller/engine_controller_network_policy.go:121-144 | the Engine goes only once none of its policies is left, by calls of the protocol |
| EngineReconcilers.EngineReconciler.ApplyNetworkPolicy | internal/controller/engine_controller_network_policy.go:150-186 | success leaves a policy of this Engine for this Gateway, updating one if listed; no other Engine's policy changes; its effects are calls of the protocol |
| EngineReconcilers.EngineReconciler.InstallPlugin | internal/controller/engine_controller_wasm_driver.go:54-107 | succeeds exactly when there is a target, every call is answered and the token is not empty; the plugin is applied only behind its policy and with a token |
| EngineReconcilers.EngineReconciler.ProvisionWasmDriver | internal/controller/engine_controller_wasm_driver.go:53-121 | Ready is said exactly on success and after the plugin; the requeue is the renewal deadline, but at least a second away |
| EngineReconcilers.ComplaintMeans | internal/controller/engine_controller.go:220-269 | nothing is held against an Engine if and only if its RuleSet is there and does not say Degraded=True and the driver is the one there is; a RuleSet in one of the four status shapes is held against it exactly in the degraded one |
| EngineReconcilers.EngineReconciler.Objection | internal/controller/engine_controller.go:242-268 | an Engine passes a RuleSet in shape exactly if that is not in the degraded shape and the driver is known; the message then hands on the RuleSet's own; only a foreign driver is retried |
| EngineReconcilers.WalkKeepsSafe | internal/controller/engine_controller.go:131-168 | the effects of a reconcile are calls of the interleaved protocol, so where that is safe every policy has its Engine with the finalizer and no Engine two policies |
| EngineReconcilers.ReconcileWalks | internal/controller/engine_controller.go:131-168 | every reconcile has such a walk to begin with, whatever objects are stored, and from held policies it begins in a safe state |
| EngineReconcilers.EngineReconciler.Reconcile | internal/controller/engine_controller.go:131-194 | the order of effects for all outcomes of all calls: Ready exactly when held, undeleted, with a healthy RuleSet and provisioned; otherwise Degraded with its complaint; policies stay held, statuses in shape, and an Engine goes only without policies |

## Left out

- Coraza's validation of rules is a function given from outside; so is the wording of the unsupported-rules message.
- The Kubernetes client, informers, work queues, stale reads, RBAC and server-side apply: the API server is a set of stored objects with atomic calls that may fail or lose their answer. A call that takes effect after its caller has given up is not modelled.
- Two operator processes at once; `FinalizerProtocol` has one worker per Engine, `RuleSetRuns` one per RuleSet, and both have restarts. Other finalizers on an Engine, and third parties that edit the finalizer or the labelled policies.
- The finalizer protocol is interleaved on values as a step system. The methods of `EngineReconciler` run one reconcile undisturbed; each of them is proved to be a walk of one worker through the protocol.
- `RuleSetEntry` values that a cache has pruned stay in the footprint of its proof; the model has no garbage collection of objects. A nil and an empty map of data files are the same.
- What a user writes into a RuleSet's status, and statuses out of shape: runs start from statuses that earlier processes could have left.
- The cache's counters are unbounded integers; overflow is not modelled. Durations are unbounded, and the renewal fraction is the rational 4/5, not a rounded float.
- Real clocks, UUID generation and random names: times are parameters that never go back where the code relies on it, UUIDs and generated names are unused ones.
- The inner loops of `Prune` and `PruneBySize` return what they freed, and the totals are adjusted once per instance rather than once per revision; both happen under the same lock.
- HTTP serving, TLS, JSON, metrics registration, logging, events and their truncation, `extractBearerToken` and `DefaultGC`.
- File reading, globbing and UTF-8 repair: the filter starts from valid text. Go's regexp engine: the three patterns are predicates.
- The wording of the warnings beyond their IDs and reasons; names of RuleSources and their validation, payload size limits, the base rules, `injectNamespaceInBaseRuleSourceYAML` and the headers of the YAML documents.
- YAML beyond literal block scalars: unprintable characters, the documents around a scalar, carriage returns in RuleData files, and the sorting of RuleData keys, which are taken as given.
- The namespace and audience checks of the HTTP handlers; `cacheClientSALabels` and the search for the ServiceAccount beyond its success or failure.
- The fields of a WasmPlugin other than its token, and of a NetworkPolicy other than its owner and Gateway.
- RuleSetReconcilers.RuleSetReconciler.Assess: the filesystem that is handed to Coraza is the map of data files itself.
- EngineReconcilers.EngineReconciler.Reconcile: error texts of failed calls are one parameter, because they only end up in messages.
- `hack`, `test`, deep-copy code, Istio object builders, flag parsing and the GitHub client.
