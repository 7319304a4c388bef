# BlastRadius: a verified model

BlastRadius reads two versions of a Terraform configuration, builds an attack graph of each, lists the routes from the
internet to sensitive data, compares the two and answers SAFE TO MERGE, REVIEW or BLOCK. A service around it takes GitHub
webhooks, queues them durably, runs the analysis in workers and publishes a check and a comment. This project models that
core in Dafny and proves what its parts promise together.

| file | models |
|---|---|
| `Wrappers`, `Sequences` | an optional value; two facts about concatenation |
| `Ids`, `Graphs` | node ids, their order, the joined path key; graphs, walks, routes, reachability |
| `AttackPaths` | breadth-first parents, shortest witnesses, the budgeted depth-first enumeration, the whole analysis |
| `RiskScore`, `DiffEngine`, `Decision` | the score, the before/after comparison, the merge gate and what its answers mean |
| `GraphBuilder` | node placement, edge insertion, the shape of built graphs |
| `KeyCollision` | the graphs for which two paths with one key make the gate miss a route |
| `Rules` | reference collection, the resource index against a linear scan, bucket patterns |
| `Expression`, `ExpressionReader` | the serialized-HCL grammar as functions, and the stateful reader that computes them |
| `ExpressionPrinter`, `ExpressionTokens`, `ExpressionRoundTrip`, `ExpressionSpelling`, `ExpressionReports`, `ExpressionCleanReads` | a printer with a meaning, the round trip, what spelling changes and what not, what is reported instead, and the converse |
| `Lease` | the service lease over PostgreSQL advisory locks, with any number of processes and transactions, and which backend pids may be reused |
| `Publication` | check and comment POSTs with lost answers, crashes and lease handovers |
| `Deliveries`, `GitHubService` | the webhook queue: record transitions, attempts, orphans, recovery, job slots, deliveries dispatched twice |
| `Jobs`, `Billing`, `RateLimit` | analyses to their one terminal status, quota charges, the fixed-window limiter |

## Main results

1. **The gate is about the graphs.** `Decision.SafeMeansNothingNew`: the gate says SAFE exactly when both analyses are
   complete, every route to an attacker's goal in AFTER already runs over edges of BEFORE, nothing is newly exposed, the
   score did not fall and the policy has no objection. `Decision.BlocksExactlyOnWorse`: with AFTER fully enumerated, the
   default policy says BLOCK exactly when a sensitive resource is newly reached or a route through a sensitive marker is
   new; for any policy, `Decision.BlockedMeans`. Risk level, score and verdict are stated of the graphs likewise
   (`AttackPaths.RiskLevelMeans`, `AttackPaths.AnalysisScoreMeans`, `DiffEngine.VerdictMeans`), and the graphs of the
   findings: `GraphBuilder.BuildGraph` gives every finding its edge and every edge a finding. All this rests on
   `AttackPaths.Enumerate` (soundness, no duplicates, all four budgets, and every simple path listed when nothing was
   truncated, cycles included), on `AttackPaths.DistanceIsLeast` for the breadth-first tree, and on
   `DiffEngine.OnlyInExactly` for the difference. `Decision.Gate` is the whole way from two graphs to such an answer.
2. **Lease fencing** over every run (`Lease.Fencing`), and in every state exactly which backend pids a new owner
   may have (`Lease.FencingIsExact`). **At most one POST** over every run (`Publication.AtMostOnce`).
3. **Bounded re-execution** over every interleaving, executions that end on a record no longer theirs and redeliveries
   included, with a tight bound (`Deliveries.BoundedReexecution`, `Deliveries.BoundIsTight`). Every method of
   `GitHubService.GitHubService`, and every sequence of them (`GitHubService.GitHubService.Serve`), keeps slots and
   executions in order always, and the records exactly as long as no running delivery is dispatched.
4. **Expressions.** `ExpressionRoundTrip.RoundTrip`: what the printer writes, the reader reads back, within the budgets, with
   nothing left over and no problem. `ExpressionCleanReads.CleanMeansUnderstood`: whatever text is read without a problem
   denotes the meaning of some expression of the grammar, reference addresses included, so the caller can fail closed.

## Where the code falls short of what one would expect

- Path keys join ids with " -> ", and resource names are not validated. Keys identify paths when no id contains the
  separator or starts with "-" (`Ids.JoinIsInjective`), which the ids of a built graph never break unless a resource name
  contains the separator (`GraphBuilder.BuildGraph`). An id that contains it always collides (`Ids.KeysCollide`), and then
  the gate can call a change SAFE that opens a route to an instance: for any names of two security groups and two
  instances there are two configurations whose built graphs show it (`KeyCollision.SafeDespiteANewRoute`). A new path goes
  unreported exactly when its key is taken (`DiffEngine.HiddenExactlyByKey`).
- Lease ownership is read from `pg_locks` by backend pid alone. A reused pid is harmless exactly when no earlier holder of
  it can still act; otherwise a stale transaction commits in some continuation (`Lease.FencingIsExact`,
  `Lease.HarmfulReuse`, and from the start: `Lease.PidReuseBreaksFencing`).
- `dispatch` of a delivery that is already running, as when `receive` and the dispatcher thread pick up one delivery, drops
  it from the active set, and the next sweep re-arms it. It can then run twice, and its record can end retryable without a
  payload: from every valid state with a free slot (two, to run twice) and a delivery with an attempt left after the next
  one, that is one that used at most one of its three (`GitHubService.RunTwice`, `GitHubService.RaceLosesThePayload`). For
  other deliveries neither can happen before a redelivery resets the attempts (`Deliveries.RaceNeedsTwoAttempts`).
  `Dispatch` keeps the records in order exactly when it meets no running delivery; slots and the bound on executions
  survive in all cases.
- `int()` refuses more than 4300 digits with a plain `ValueError`, which neither the evaluator nor its caller catches. An
  integer evaluates if and only if it has at most that many (`ExpressionRoundTrip.IntegerEvaluates`).
- Quota charging compares months by equality. When a charged run's analysis is unfinished and a recovery happens before
  its month, a retry back in that month charges it again if and only if the recovery fell into an earlier month and the
  month's quota is not used up (`Billing.BackwardClockBillsTwice`).
- Splitting a bucket pattern at its first "/" is sound, but sees only that slash: where a wildcard before it matches the
  slash after the bucket's name, the object is missed (`Rules.SplitMissesExactly`, `Rules.SlashFreeNamesNeedWildcards`).
  Where only objects count, a public grant on a prefix such as "arn:aws:s3:::b*" is not seen (`Rules.PublicPrefixIsMissed`;
  which patterns and buckets exactly: `Rules.PatternIsMissedExactly`, `Rules.BucketIsMissedExactly`).

## Model

| member | source | states |
|---|---|---|
| Ids.Sorted | blastradius/graph/attack_paths.py:133-136 | targets and successors are taken once each, in increasing order of id |
| Ids.BeforeMeans | blastradius/graph/attack_paths.py:133-136 | the order of ids is that of the first difference, a proper prefix first |
| Ids.JoinIsInjective | blastradius/parser/models.py:170-172 | two path keys agree only for equal node lists, when no id contains the separator or starts with a dash |
| Ids.KeysCollide | blastradius/parser/models.py:170-172 | an id with the separator inside reads, wherever it stands in a path, like the two ids around that separator |
| AttackPaths.Visit | blastradius/graph/attack_paths.py:141-144 | recording one neighbour keeps the parent tree and the two-level queue |
| AttackPaths.Expand | blastradius/graph/attack_paths.py:140-144 | after expanding a node all its successors are recorded at most one level further |
| AttackPaths.BfsParents | blastradius/graph/attack_paths.py:137-144 | the parent map is a breadth-first tree closed under edges and records exactly what the internet reaches |
| AttackPaths.DistanceIsLeast | blastradius/graph/attack_paths.py:137-148 | no walk from the internet is shorter than a node's depth in the parent tree, and every walk's end is recorded |
| AttackPaths.ParentsAreReachable | blastradius/graph/attack_paths.py:122-144 | the parent map holds exactly the internet and its descendants |
| AttackPaths.Witness | blastradius/graph/attack_paths.py:146-152 | a shortest route is found exactly when the target is within the depth budget |
| AttackPaths.Emit | blastradius/graph/attack_paths.py:173-177 | a route is added once, at the end, and recorded as emitted |
| AttackPaths.Enumerate | blastradius/graph/attack_paths.py:156-186 | the paths to a target are distinct simple routes within all budgets, shortest first; untruncated means all routes; truncation names a budget that was reached |
| AttackPaths.AttackPathsTo | blastradius/graph/attack_paths.py:145-186 | the same over all targets, with totals per target and overall, and for the flag exactly the budget reasons |
| AttackPaths.Conclude | blastradius/graph/attack_paths.py:123-130 | exposure, sensitive reach, diagnostics, risk level and score are those that `RiskLevelMeans` and `AnalysisScoreMeans` state for the graph and its paths |
| AttackPaths.Analyze | blastradius/graph/attack_paths.py:112-195 | refuses exactly oversized graphs, otherwise returns a complete and sound analysis in the sense above |
| AttackPaths.RiskLevelMeans | blastradius/graph/attack_paths.py:101-109 | for every analysis: CRITICAL exactly when sensitive data is reached or a listed path visits a marker; otherwise HIGH exactly when a listed path runs over a high-risk edge, MEDIUM when a path is listed or something exposed, LOW when neither |
| AttackPaths.PathMeans | blastradius/security/explain.py:97-102 | a listed path carries the graph's edges; its severity is critical at a marker and otherwise the risk of one of its edges and of none a higher |
| AttackPaths.AnalysisScoreMeans | blastradius/security/risk_score.py:42-83 | the score of every analysis, as a formula over the graph's edges, the instances and sensitive data its walks reach, and the listed paths |
| AttackPaths.CompleteMeans | blastradius/graph/attack_paths.py:187-190 | an analysis is complete exactly when nothing was cut and no finding of the graph blocks analysis, and a cut leaves a blocking diagnostic |
| AttackPaths.BudgetsMean | blastradius/graph/attack_paths.py:147-184 | 500 paths, 25 to a target, 32 steps, 100000 units of work, and a cut only where one of them was reached |
| AttackPaths.Explore | blastradius/graph/attack_paths.py:122-186 | the descendants of the internet and the enumeration of the routes to the targets among them |
| AttackPaths.NothingReachable | blastradius/graph/attack_paths.py:119-120 | for a graph without the internet node the empty result is a complete analysis |
| RiskScore.CountFindings | blastradius/security/risk_score.py:42-66 | every counter equals the number of matching edges or resources |
| RiskScore.ScoreAnalysis | blastradius/security/risk_score.py:69-83 | the score lies in 0..100 and is 100 plus the breakdown's points, clamped; each counted finding is listed once, with its count |
| RiskScore.ScoreMeans | blastradius/security/risk_score.py:1-83 | the published table of penalties and caps, over the edges and resources themselves |
| RiskScore.FullMarksExactly | blastradius/security/risk_score.py:69-83 | 100 exactly when there is no finding of any kind |
| RiskScore.ScoreNeverRises | blastradius/security/risk_score.py:42-83 | more edges, higher risks, more exposure never raise the score |
| DiffEngine.UnbrokenIdsIdentify | blastradius/graph/diff_engine.py:142-143 | keys identify the paths of two analyses when no node id contains the separator or starts with a dash |
| DiffEngine.OnlyInExactly | blastradius/graph/diff_engine.py:142-151 | the new paths are exactly the listed paths with an edge the other graph lacks |
| DiffEngine.NewPathsIgnoreBeforeEnumeration | blastradius/graph/diff_engine.py:142-147 | truncating BEFORE's enumeration neither creates nor hides a new path |
| DiffEngine.NewPathHasNewEdge | blastradius/sarif.py:50-53 | every new path has an edge among the new edges, so the fallback to all its edges is never taken |
| DiffEngine.HiddenExactlyByKey | blastradius/graph/diff_engine.py:142-147 | a path that BEFORE's graph lacks is unreported exactly when its key is taken by another path |
| DiffEngine.CompareMeans | blastradius/graph/diff_engine.py:121-151 | every list of the comparison, as differences between the two graphs, what the internet reaches in them, and the listed paths that are no walks of the other |
| DiffEngine.VerdictMeans | blastradius/graph/diff_engine.py:106-118 | each verdict exactly when sensitive data, completeness, paths, exposure and score of the two sides say so, in that order |
| DiffEngine.VerdictsReverse | blastradius/graph/diff_engine.py:106-118 | undoing an improvement is a regression, and undoing no change is no change |
| KeyCollision.SafeDespiteANewRoute | blastradius/graph/diff_engine.py:142-147 | for all names of two security groups and two instances: two configurations whose built graphs have complete analyses that the default policy compares as SAFE, although AFTER has a route to an instance that BEFORE lacks |
| KeyCollision.ConfigsBuildTheSite | blastradius/graph/graph_builder.py:121-155 | the builder makes exactly the two graphs of the failing example from these configurations |
| KeyCollision.FoundIsAnalysis | blastradius/graph/attack_paths.py:112-195 | what the failing example compares are complete analyses of its two graphs: all routes, all exposure, the score |
| KeyCollision.LongNameCollides | blastradius/parser/terraform_parser.py:134-143 | an instance named after the addresses of two others around an arrow, which no parser refuses, has the address that collides with them |
| Decision.SafeMeansNothingNew | blastradius/security/decision.py:206-220 | SAFE if and only if both sides are complete, AFTER has no route and no exposure BEFORE lacks, the score did not fall and no policy rule is violated |
| Decision.SafeKeepsSensitiveRoutes | blastradius/security/decision.py:206-220 | under SAFE every simple path to a sensitive marker already existed edge by edge, and the marker was reachable before |
| Decision.NoNewPathsMeansNoNewRoutes | blastradius/graph/diff_engine.py:144-147 | for a complete AFTER an empty path difference says that all routes to goals run over BEFORE's edges |
| Decision.ExposureKept | blastradius/graph/diff_engine.py:133-140 | empty exposure differences are inclusions between what the two graphs let the internet reach |
| Decision.SafeVerdict | blastradius/graph/diff_engine.py:106-118 | SAFE never comes with a REGRESSION or INCOMPLETE verdict |
| Decision.DefaultPolicyBlocks | blastradius/security/decision.py:168-195 | the default policy blocks exactly on newly reachable sensitive resources or a new path to sensitive data, as the comparison lists them |
| Decision.NewCriticalPathsAreRoutes | blastradius/graph/diff_engine.py:144-147 | for a fully enumerated AFTER, a new critical path is listed exactly when AFTER has a route through a sensitive marker that leaves the edges of BEFORE |
| Decision.BlocksExactlyOnWorse | blastradius/security/decision.py:168-195 | for a fully enumerated AFTER, the default policy says BLOCK exactly when the graph newly reaches a sensitive resource or opens a route through a marker |
| Decision.BlockedMeans | blastradius/security/decision.py:164-195 | for every policy: BLOCK exactly when one of its rules forbids what changed -- new sensitive reach, a new critical path, a new admin or HTTPS ingress rule of a security group, a score below the minimum |
| Decision.DecisionIsJustified | blastradius/security/decision.py:206-220 | for graphs with unbroken ids and every policy: SAFE if and only if AFTER offers nothing new, the score held and no rule of the policy forbids what changed; BLOCK if and only if one does; under the default policy, if and only if the graphs worsened |
| Decision.Gate | blastradius/security/decision.py:127-229 | from two graphs to a decision: refused exactly when one is too large, otherwise SAFE, BLOCK or REVIEW exactly as the two graphs, their scores and the policy justify |
| GraphBuilder.StrongestIsHighest | blastradius/graph/graph_builder.py:67-76 | the edge kept for a link is a candidate for it and none of its candidates has a higher risk |
| GraphBuilder.InsertKeepsStrongest | blastradius/graph/graph_builder.py:67-76 | after any insertions within the limit each link holds its first highest-risk candidate, and the limit is never passed |
| GraphBuilder.CandidatesFit | blastradius/graph/graph_builder.py:210-372 | every candidate edge joins present nodes of the kinds its relationship is for |
| GraphBuilder.PreparedIsUnique | blastradius/graph/graph_builder.py:154-155 | after preparation every address is declared once |
| GraphBuilder.PreparedExactly | blastradius/graph/graph_builder.py:154-155 | preparation keeps exactly the resources whose address is declared once |
| GraphBuilder.Builder.AddResource | blastradius/graph/graph_builder.py:173-207 | adds the resource's node and, for a sensitive bucket, its marker |
| GraphBuilder.Builder.AddResources | blastradius/graph/graph_builder.py:158-207 | every resource and marker is in place with the kind its id spells |
| GraphBuilder.Builder.AddEdge | blastradius/graph/graph_builder.py:67-76 | one insertion keeps the riskier edge and refuses new edges at the limit |
| GraphBuilder.Builder.AddEdges | blastradius/graph/graph_builder.py:210-372 | a sequence of insertions is the fold of single ones |
| GraphBuilder.BuildGraph | blastradius/graph/graph_builder.py:121-155 | refuses exactly too many resources; otherwise the nodes are those of the resources declared once, every edge comes from a finding and, unless cut, every finding has its edge; well shaped, within the analysis budgets, cut only when full, with unbroken ids when no name contains the separator |
| GraphBuilder.FindingsAreCarried | blastradius/graph/graph_builder.py:121-372 | unless cut, the graph carries every ingress, public exposure, attachment, role, grant and sensitive bucket, with its relationship and at its risk or a higher one |
| GraphBuilder.BuiltIsExplained | blastradius/graph/graph_builder.py:121-372 | every edge of the graph has a finding of a resource declared once for its reason |
| GraphBuilder.NodesOfPrepared | blastradius/graph/graph_builder.py:158-207 | the nodes are the internet, the resources declared once and the markers of sensitive buckets, each with its kind, sensitivity and ingress rules |
| GraphBuilder.CutIsIncomplete | blastradius/graph/graph_builder.py:67-76 | a graph cut at its limit is never analysed as complete |
| GraphBuilder.NamesGiveUnbrokenIds | blastradius/graph/graph_builder.py:158-207 | a placed node has a broken id only if some resource name contains the separator |
| GraphBuilder.MarkerMeansSensitiveResource | blastradius/graph/graph_builder.py:356-372 | reaching a marker means reaching its sensitive bucket |
| GraphBuilder.CriticalPathIsReachableSensitive | blastradius/security/risk_score.py:64-65 | on built graphs a critical path implies a reachable sensitive resource |
| GraphBuilder.ScoreIgnoresBudgets | blastradius/security/risk_score.py:65-66 | two analyses of one built graph have one score however far enumeration got |
| GraphBuilder.ScoreFallsWithRisk | blastradius/security/risk_score.py:69-83 | adding edges to a built graph or raising their risk never raises the score |
| Rules.CollectReferences | blastradius/parser/values.py:36-52 | the stack traversal yields the first mention of each address in document order, without duplicates |
| Rules.MentionsMean | blastradius/parser/values.py:36-71 | an address is mentioned exactly when some string of the value, however deep, mentions it; plain text only where it counts |
| Rules.MentionsInOrder | blastradius/parser/values.py:36-52 | mentions come in the order of the document |
| Rules.File | blastradius/security/rules.py:322-326 | a resource is appended under exactly the addresses its attribute refers to |
| Rules.FileByKind | blastradius/security/rules.py:318-326 | a resource goes into the one table of its kind; a managed policy only if its address is new |
| Rules.Build | blastradius/security/rules.py:310-327 | every table of the index answers as a linear scan over all resources would, in order |
| Rules.ManagedSources | blastradius/security/rules.py:346-349 | the documents of the managed policies an attachment names, first declaration each |
| Rules.RolePolicySources | blastradius/security/rules.py:330-350 | looking a role up in the index gives, in order, what scanning all resources gives |
| Rules.RoleSourcesMean | blastradius/security/rules.py:330-350 | the documents of a role are those of its own policies and of the managed policies its attachments name, by their first declaration |
| Rules.ScanIsFilter | blastradius/security/rules.py:297-302 | the scan lists exactly the resources of the right kind that refer to the address |
| Rules.GlobConcat | blastradius/security/rules.py:192-193 | matches concatenate |
| Rules.GlobMeans | blastradius/security/rules.py:192-193 | a text matches exactly when it falls into pieces, one for each character of the pattern: any for a star, one character for a question mark, itself otherwise |
| Rules.SampleMatches | blastradius/security/rules.py:192-193 | every pattern matches a text of its own length |
| Rules.SplitIsSound | blastradius/security/rules.py:240-243 | a pattern accepted through its split matches a nonempty object key of the bucket as a whole |
| Rules.ObjectsNeedABoundary | blastradius/security/rules.py:240-243 | a pattern matches some object of the bucket exactly when the name can end, and the slash be matched, at some place of it |
| Rules.SlashFreeNamesNeedWildcards | blastradius/security/rules.py:240-243 | for a bucket name or ARN without slashes, every place the split does not see is a wildcard before the first slash of the pattern |
| Rules.SplitMissesExactly | blastradius/security/rules.py:240-243 | the patterns the split misses are exactly those that match the slash somewhere, but never with their own first slash, whatever the bucket's name |
| Rules.SplitMissesCrossingWildcards | blastradius/security/rules.py:240-243 | two patterns with such a wildcard that match an object and are not accepted |
| Rules.PatternIsMissedExactly | blastradius/security/rules.py:228-244 | a pattern matches an object of the bucket and is not accepted exactly when it can match the slash, only at places the split does not see, and names no bucket the method would take |
| Rules.BucketIsMissedExactly | blastradius/security/rules.py:228-244 | no pattern is accepted although one matches an object exactly when some can match the slash, none at a place the split sees, and none names the bucket |
| Rules.PublicPrefixIsMissed | blastradius/security/rules.py:228-244 | where only objects count, a slash-free prefix pattern that matches the bucket covers its objects and is not accepted |
| Rules.BucketResourceMatches | blastradius/security/rules.py:228-244 | true exactly when some pattern accepts the bucket, and then a whole pattern matches the bucket or one of its objects |
| ExpressionReader.Reading.SkipSpace | blastradius/parser/expression.py:81-82 | drops exactly the leading whitespace |
| ExpressionReader.Reading.Expect | blastradius/parser/expression.py:87-91 | skips space and takes the token, or raises |
| ExpressionReader.Reading.ReadValue | blastradius/parser/expression.py:93-127 | value, rest, node count, problems and error are those of the grammar, budgets included |
| ExpressionReader.Reading.ReadTraversal | blastradius/parser/expression.py:129-137 | takes all leading steps and nothing more |
| ExpressionReader.Reading.ReadWord | blastradius/parser/expression.py:109-126 | constants, unsupported calls and references, as the grammar says |
| ExpressionReader.Reading.ReadObject | blastradius/parser/expression.py:139-161 | the loop reads the members the grammar gives, a repeated key replacing in place |
| ExpressionReader.Reading.ReadKey | blastradius/parser/expression.py:147-155 | a quoted string's text or a bare identifier |
| ExpressionReader.Reading.ReadList | blastradius/parser/expression.py:163-174 | the loop reads the items the grammar gives |
| ExpressionReader.Reading.ReadString | blastradius/parser/expression.py:176-195 | the loop reads the text and addresses the grammar gives |
| ExpressionReader.Reading.ReadEscape | blastradius/parser/expression.py:197-212 | simple, four- and eight-digit escapes, with surrogates and out-of-range points refused |
| ExpressionReader.Reading.ReadTemplate | blastradius/parser/expression.py:214-226 | a genuine reference contributes its text and addresses, anything else a problem |
| ExpressionReader.Reading.ReadNumber | blastradius/parser/expression.py:228-234 | the longest leading number, as an integer or as its token; an integer of more than 4300 digits raises |
| ExpressionReader.Reading.SkipParentheses | blastradius/parser/expression.py:236-252 | consumes up to the matching parenthesis, strings included |
| ExpressionReader.EvaluateExpression | blastradius/parser/expression.py:255-270 | the whole evaluation equals the grammar's, with size, trailing-content and integer-length errors |
| ExpressionTokens.NumberReadsBack | blastradius/parser/expression.py:228-234 | an integer's decimal text reads back as that integer, stopping where it ends, if and only if it has at most 4300 digits, and raises otherwise |
| ExpressionTokens.FloatReadsBack | blastradius/parser/expression.py:228-234 | a number with fraction or exponent is read to its end, whatever may follow a value |
| ExpressionTokens.AddressesAreRead | blastradius/parser/expression.py:48-67 | the reference pattern finds exactly the resource a traversal names, and none when the resource is indexed |
| ExpressionTokens.TemplateReadsBack | blastradius/parser/expression.py:214-224 | a printed reference reads back with its text and addresses |
| ExpressionTokens.StringReadsBack | blastradius/parser/expression.py:176-226 | a printed string reads back: escapes, code points in either width and any case, doubled `$${` and `%%{`, and only genuine references contribute addresses |
| ExpressionTokens.EscapeReadsBack | blastradius/parser/expression.py:197-212 | every character written as four or eight hexadecimal digits, each in either case, is read as that character |
| ExpressionSpelling.EverySpelling | blastradius/parser/expression.py:203-209 | every string of hexadecimal digits is such a spelling of one number |
| ExpressionSpelling.CodePointsAre | blastradius/parser/expression.py:203-212 | a spelled number is read as its character, and refused exactly when it is a surrogate or out of range |
| ExpressionSpelling.OtherEscapesAreRefused | blastradius/parser/expression.py:197-205 | whatever is no escape of the grammar is refused |
| ExpressionRoundTrip.ReadsBack | blastradius/parser/expression.py:93-127 | a printed value reads back in any context that ends it, counting one node per sub-expression and reporting nothing |
| ExpressionRoundTrip.ItemsReadBack | blastradius/parser/expression.py:163-174 | the same for the rest of a list |
| ExpressionRoundTrip.MembersReadBack | blastradius/parser/expression.py:139-161 | the same for the rest of an object with distinct keys |
| ExpressionRoundTrip.RoundTrip | blastradius/parser/expression.py:255-270 | within the size, node and depth budgets, evaluating a printed expression whose integers have at most 4300 digits gives its meaning, no problems and nothing left over |
| ExpressionRoundTrip.IntegerEvaluates | blastradius/parser/expression.py:228-270 | a printed integer evaluates to itself if and only if it has at most 4300 digits |
| ExpressionSpelling.OnlySpaceMayFollow | blastradius/parser/expression.py:255-270 | space around a rendering changes nothing, and anything else after it is refused |
| ExpressionSpelling.SpacesAreThese | blastradius/parser/expression.py:81-82 | the space skipped is the characters Python's lstrip strips |
| ExpressionSpelling.SpaceInTemplates | blastradius/parser/expression.py:214-224 | space inside the braces of a reference changes nothing |
| ExpressionSpelling.FloatsAre | blastradius/parser/expression.py:228-234 | every sign, whole part, fraction and exponent, with one of the last two, is a number read to its end |
| ExpressionSpelling.PutKeepsKeysDistinct | blastradius/parser/expression.py:139-161 | a repeated key takes the last value and leaves the other members alone |
| ExpressionSpelling.DedupMeans | blastradius/parser/expression.py:176-195 | a string names each address once, in the order of first mention |
| ExpressionSpelling.BudgetsAreKept | blastradius/parser/expression.py:76-97 | 131072 characters, 2000 nodes and 64 levels, and nothing more |
| ExpressionReports.PiecesAreSkipped | blastradius/parser/expression.py:236-252 | balanced text, with strings and nested parentheses, leaves the scan for the closing parenthesis where it was |
| ExpressionReports.CallIsReported | blastradius/parser/expression.py:116-121 | an unsupported call is consumed up to its own closing parenthesis, valued null and reported by name |
| ExpressionReports.TraversalIsReported | blastradius/parser/expression.py:122-126 | a traversal outside the provider's is consumed whole, valued null and reported as written |
| ExpressionReports.TemplateIsReported | blastradius/parser/expression.py:214-226 | a template sequence that is no genuine reference adds no text and no address, and is reported |
| ExpressionCleanReads.ValuesGrow | blastradius/parser/expression.py:93-127 | reading never takes a reported problem back |
| ExpressionCleanReads.OthersAreReported | blastradius/parser/expression.py:118-126 | other calls and other traversals always report a problem |
| ExpressionCleanReads.StringsMean | blastradius/parser/expression.py:176-226 | a string read without a problem is made of literal characters and genuine references |
| ExpressionCleanReads.ValueMeans | blastradius/parser/expression.py:93-127 | a value read without a problem is the meaning of an expression within the nodes and depth it used |
| ExpressionCleanReads.CleanMeansUnderstood | blastradius/parser/expression.py:255-270 | an evaluation without problems returned the meaning of an expression that fits the budgets |
| ExpressionCleanReads.ReadIntegersAreReadable | blastradius/parser/expression.py:228-234 | an integer that was read, leading zeros included, is one that can be printed and read again |
| Lease.Fencing | blastradius/server/lease.py:42-57 | over every run in which a pid is reused only once its earlier holders can no longer act: once an acquisition has returned, no transaction admitted under an earlier one commits |
| Lease.SingleOwner | blastradius/server/lease.py:44-49 | in every such state at most one live lease connection exists, and it belongs to the latest acquisition |
| Lease.InvStep | blastradius/server/db.py:53-67 | every step of any process or transaction keeps the lock, drain, admission and log invariants; taking the lock needs only a harmless pid |
| Lease.CheckMeansLatest | blastradius/server/lease.py:98-108 | an ownership check passes only for a process that no later acquisition has overtaken, or, in an opening fence, for one that lost the lease and will refuse to commit |
| Lease.MovingAdmitted | blastradius/server/lease.py:98-108 | a transaction is admitted only while it holds the shared lock and no later acquisition has overtaken its process, unless that process will refuse to commit it |
| Lease.FailedCheckLoses | blastradius/server/lease.py:98-108 | a failed check ends its transaction and marks its process, whoever holds the lease |
| Lease.StopsForGood | blastradius/server/lease.py:98-108 | once marked, or refused before its fence, a process begins no transaction again and passes none on to its commit |
| Lease.PidReuseBreaksFencing | blastradius/server/lease.py:19-26 | for every pid, a run in which the successor gets it from a connection lost unnoticed and an earlier transaction commits |
| Lease.HarmfulReuse | blastradius/server/lease.py:98-108 | from every state of such runs, when the lock is taken on the pid of a holder that can still act, some continuation without further lock steps commits a stale transaction |
| Lease.FencingIsExact | blastradius/server/lease.py:42-108 | in every state of such runs, a pid is harmless to take the lock on if and only if no continuation with harmless reuse commits a stale transaction |
| Publication.AtMostOnce | blastradius/server/github_publish.py:189-295 | over crashes, lost answers, retries and handovers: at most one check POST per run and one comment POST per pull request |
| Publication.PostedStaysRecorded | blastradius/server/github_publish.py:199-230 | once a run's check POST was sent, its row holds the uncertain flag or the check id in every later state |
| Publication.CheckStep | blastradius/server/github_publish.py:199-230 | every step keeps the write-ahead guard around the check POST |
| Publication.MarkMeansUncommitted | blastradius/server/github_publish.py:263-281 | a comment POST is armed only when none was sent or armed for the pull request |
| Publication.MemoryOfPosts | blastradius/server/github_publish.py:266-292 | until a comment is visible some run remembers its unresolved POST |
| Publication.ScanComments | blastradius/server/github_publish.py:243-259 | reads exactly the app's own comments, or gives up when five full pages of a hundred were read |
| Publication.OwnedInMeans | blastradius/server/github_publish.py:243-259 | the app's own comments are those of its bot that start with its marker |
| Publication.UndisturbedPublishes | blastradius/server/github_publish.py:189-295 | an undisturbed publisher sends one check and one comment POST, stores its check id and leaves the run published with nothing uncertain |
| Publication.StoresAFoundCheck | blastradius/server/github_publish.py:189-230 | a check found by its listing is stored without another POST |
| Publication.PublishesItsComment | blastradius/server/github_publish.py:243-295 | with the check stored, a visible comment is patched and a missing one posted once, and the run ends published |
| Deliveries.ExecutionSpends | blastradius/server/github_service.py:543-550 | claiming strictly lowers the record's budget and leaves at least one |
| Deliveries.FinalizedEnds | blastradius/server/github_service.py:566-613 | success leaves a record handled without payload; a failure rejected; a transient one waiting 30 seconds for each attempt used, and rejected after the third |
| Deliveries.ClaimsMean | blastradius/server/github_service.py:543-550 | a claim takes one attempt, the fourth rejects, and an undone claim leaves no trace |
| Deliveries.ReadmissionMeans | blastradius/server/github_service.py:271-298 | a redelivery starts a rejected record afresh and gives a waiting one back its payload, and re-arms no other |
| Deliveries.SweepMeans | blastradius/server/github_service.py:341-372 | which records are due, and that sweeping and picking change only status and due time |
| Deliveries.RecoveryMeans | blastradius/server/github_service.py:120-153 | what a restart makes of each record |
| Deliveries.NothingRefunds | blastradius/server/github_service.py:595-613 | no ending gives budget back, whatever the record has become meanwhile; nor does a re-arm, a redelivery that keeps the attempts, or a recovery |
| Deliveries.PendingMeasureFalls | blastradius/server/github_service.py:127-134 | between two executions the measure on pending records strictly falls |
| Deliveries.BoundedReexecution | blastradius/server/github_service.py:219-639 | over any interleaving of claims, re-arms, redeliveries, endings, crashes and recoveries, from any record with any number of executions in flight, a record is executed at most twice MAX_ATTEMPTS times, and as often again for every redelivery that resets its attempts |
| Deliveries.StepSpends | blastradius/server/github_service.py:338-639 | every step of a record and its executions, but a redelivery that resets the attempts, pays for the execution it starts and keeps the record in shape |
| Deliveries.ExecutionsWithinBudget | blastradius/server/github_service.py:338-639 | over any interleaving the executions stay below the budget at its start and one more full budget for every reset |
| Deliveries.BoundIsTight | blastradius/server/github_service.py:127-134 | a run without resets that reaches the bound |
| Deliveries.RetriesRunOut | blastradius/server/github_service.py:595-613 | a delivery whose executions all fail transiently is executed three times and then rejected for the last failure |
| Deliveries.RaceNeedsTwoAttempts | blastradius/server/github_service.py:338-639 | before a reset, a pending record with nothing in flight can come to run twice at once, and can come to wait without its payload, if and only if it has an attempt left after the next |
| Deliveries.LastAttemptStays | blastradius/server/github_service.py:127-134 | on its last attempt a record keeps its shape and has at most one execution in flight, over every interleaving without a reset |
| GitHubService.WorkedKeepsTable | blastradius/server/github_service.py:81-92 | rewriting records without spending or reviving keeps the table invariant, with several executions of a record in flight too |
| GitHubService.BacklogIsBounded | blastradius/server/github_service.py:81-92 | in a valid state the backlog limit bounds the live records |
| GitHubService.RecoveryRepairs | blastradius/server/github_service.py:120-153 | recovery puts a record in order, whatever two executions of it did |
| GitHubService.GitHubService.Receive | blastradius/server/github_service.py:219-328 | conflict, ignore, duplicate, backlog and admission exactly as decided by id, body and status; a body is recorded once, and its execution count restarts only when it is new or its attempts are reset |
| GitHubService.GitHubService.RearmOrphans | blastradius/server/github_service.py:341-348 | exactly the queued records nobody here works on go back to pending |
| GitHubService.GitHubService.Recover | blastradius/server/github_service.py:120-153 | every record becomes its recovered form and the whole state is valid again, also after a race |
| GitHubService.GitHubService.Crash | blastradius/server/github_service.py:107-118 | a new process has all slots and an unchanged table |
| GitHubService.GitHubService.Reserve | blastradius/server/jobs.py:153-159 | a slot is taken exactly when the process is healthy, not draining and one is free |
| GitHubService.GitHubService.Claim | blastradius/server/github_service.py:524-556 | the record to write, the slot taken for it and the outcome agree |
| GitHubService.GitHubService.Submit | blastradius/server/github_service.py:447-482 | hand-off, or the claim undone and the slot given back once |
| GitHubService.GitHubService.Attempt | blastradius/server/github_service.py:392-482 | handed off exactly when the claim takes a slot, is applied and the executor accepts; in every case answer, record, slots and active set are those of the outcome |
| GitHubService.GitHubService.Stake | blastradius/server/github_service.py:392-447 | the claiming transaction takes a slot exactly when it is applied and finds the delivery workable; otherwise nothing is kept of the slot or of its being active |
| GitHubService.DispatchMeans | blastradius/server/github_service.py:405-556 | what a claim writes for every payload, connection, state of the process and number of attempts |
| GitHubService.AnswerMeans | blastradius/server/github_service.py:405-482 | when a dispatch hands off, must wait, or ends the delivery at once |
| GitHubService.GitHubService.Dispatch | blastradius/server/github_service.py:381-482 | determines answer and table for every weather, keeps slots and executions in order always, and a valid state valid exactly unless it meets a running delivery; every path without hand-off returns the slot |
| GitHubService.GitHubService.Save | blastradius/server/github_service.py:595-618 | up to three tries write how the execution ended, whatever the record is by then, or leave it as it was: handled, rejected, or waiting for the next attempt, as `Deliveries.EndsAs` spells out |
| GitHubService.GitHubService.Finish | blastradius/server/github_service.py:589-639 | one of possibly several executions ends: the record is handled, rejected, waiting for the next attempt or left for recovery, and the slot comes back exactly once |
| GitHubService.DoneIsForGood | blastradius/server/github_service.py:219-328 | once a body was handled or ignored and is not being executed, nothing the service does or meets executes it again, and its redelivery is a duplicate |
| GitHubService.SuccessIsForGood | blastradius/server/github_service.py:589-639 | a saved success of the only execution leaves the record handled for good, and its redelivery a duplicate |
| GitHubService.GitHubService.NextDue | blastradius/server/github_service.py:355-367 | the due record that arrived first, if there is one |
| GitHubService.GitHubService.Pick | blastradius/server/github_service.py:353-372 | the second transaction of the sweep chooses the earliest due record and makes it pending, finds nothing exactly when nothing is due, or fails |
| GitHubService.GitHubService.DispatchNext | blastradius/server/github_service.py:338-376 | one round, in full: sweeps orphans, picks the due record that arrived first and dispatches it, with the table, slots, active set and executions that follow; nothing found means nothing is due or orphaned, and it fails exactly when one of its transactions does |
| GitHubService.GitHubService.DispatchPending | blastradius/server/github_service.py:330-379 | with nothing in between, the rounds of the sweep one after the other, counted, until nothing is due, a record must wait, a transaction fails or the process may not dispatch; slots and executions stay in order always, and a valid state valid |
| GitHubService.GitHubService.Serve | blastradius/server/github_service.py:219-639 | any sequence of intake, dispatches, the sweep's single transactions, endings, uploads and restarts, with any failures, keeps slots and executions in order and every count of executions bounded, and the records too unless a running delivery was dispatched since the last restart |
| GitHubService.GitHubService.CreateAnalysis | blastradius/server/app.py:695-736 | an upload is accepted exactly when the process is healthy, a slot and quota are left, and commit and hand-off succeed; it then holds one slot, otherwise none |
| GitHubService.RaceLosesThePayload | blastradius/server/github_service.py:400-482 | from every valid state with a free slot and a claimable delivery that has an attempt left after the next: dispatched again while running, re-armed, settled by a second claim, it ends retryable without a payload, with all slots back |
| GitHubService.RunTwice | blastradius/server/github_service.py:338-482 | from every valid state with two free slots and such a delivery, it comes to have two executions in flight |
| GitHubService.FirstDelivery | blastradius/server/github_service.py:219-328 | receiving one delivery in a new service reaches such a state |
| GitHubService.FinalizeAgain | blastradius/server/github_service.py:601-613 | finalizing again after a lost answer changes nothing |
| Jobs.ConcludeKeeps | blastradius/server/jobs.py:179-186 | concluding an unfinished analysis gives one terminal status, its one event, and a result exactly on success |
| Jobs.ConcludeMeans | blastradius/server/jobs.py:179-186 | a conclusion records the decision with its two events, or the error with its one |
| Jobs.RecoveredMeans | blastradius/server/jobs.py:125-146 | recovery fails what was unfinished, for the restart, and nothing else |
| Jobs.JobManager.Finish | blastradius/server/jobs.py:168-215 | concludes at most once, with the response or a worker failure; terminal records never change |
| Jobs.JobManager.Run | blastradius/server/jobs.py:230-265 | a worker touches only its own queued analysis and no terminal record; when its transactions apply and nothing interferes, the analysis is started and concluded with the response, or as a worker failure |
| Jobs.JobManager.Start | blastradius/server/jobs.py:230-237 | starts the analysis exactly when it is still queued and the transaction applies |
| Jobs.JobManager.Complete | blastradius/server/jobs.py:248-265 | whatever happened since the start: concludes an unfinished analysis as its transactions allow, and leaves a deleted or terminal one alone |
| Jobs.JobManager.Delete | blastradius/server/app.py:747-754 | an analysis can be deleted at any time, also under a running worker |
| Jobs.JobManager.RecoverBatch | blastradius/server/jobs.py:126-146 | one batch fails at most a hundred unfinished analyses, says exactly when it was full, and changes nothing else |
| Jobs.JobManager.Recover | blastradius/server/jobs.py:125-146 | afterwards nothing is unfinished, and what was terminal is as it was |
| Billing.ChargedOncePerPeriod | blastradius/server/github_service.py:668-714 | over every run of retries, crashes and recoveries with a monotone clock, a run is charged at most once per calendar period |
| Billing.ChargeRespectsLimit | blastradius/server/quotas.py:63-69 | a charge happens only below the limit, raises the period's usage by one and touches no other period |
| Billing.ProcessMeans | blastradius/server/github_service.py:668-714 | a waiting run is charged once below the limit, started free after an interruption of the same month, and ended when the quota is used up; any other run is left alone |
| Billing.RetryIsFreeWithinTheMonth | blastradius/server/github_service.py:172-190 | an interrupted run is retried free of charge exactly when the recovery comes in the month of its analysis |
| Billing.EndedIsNeverCharged | blastradius/server/github_service.py:668-714 | a run that was ended once is never charged again |
| Billing.BackwardClockBillsTwice | blastradius/server/github_service.py:172-185 | for every charged run with a running analysis: recovery after the clock stepped back, and a retry in its month, charge that month again if and only if the step crossed a month boundary and the month's quota is not used up |
| Billing.ChargedTwice | blastradius/server/quotas.py:63-69 | a second charge for a month already charged breaks the once-per-period order of charges |
| RateLimit.GuardMiddleware.Admit | blastradius/server/middleware.py:125-148 | buckets, submission windows and verdict after a request are those of the window rule |
| RateLimit.AdmissionsAreSpread | blastradius/server/middleware.py:127-140 | any 2*limit+1 consecutive admissions of a key span a whole window length |
| RateLimit.AtMostTwiceTheLimit | blastradius/server/middleware.py:127-140 | any half-open 60-second interval admits at most twice the limit per key |
| RateLimit.BelowTheLimitIsAdmitted | blastradius/server/middleware.py:125-140 | a client admitted less often than its limit in the last minute is within its limit now, as long as the table has room |
| RateLimit.BelowBothLimitsIsAdmitted | blastradius/server/middleware.py:125-148 | and a submission is admitted while all clients together stay below the limit of its route |
| RateLimit.SubmissionsAtMostTwice | blastradius/server/middleware.py:141-148 | the same for the service-wide limit of the submission routes |
| RateLimit.BucketsAreCapped | blastradius/server/middleware.py:128-140 | the bucket table never holds more than 10000 keys |

## Left out

- Lease.Fencing: assumes that a backend pid is reused only once no earlier holder can act on it; `Lease.FencingIsExact` shows that nothing less will do.
- Decision.SafeMeansNothingNew: assumes that path keys identify paths; unbroken ids, which `Decision.Gate` asks for, give that, and `KeyCollision.SafeDespiteANewRoute` shows that it is needed.
- Publication.AtMostOnce: assumes that listings show every comment an answer has shown and that nobody deletes them, and one publisher at a time per process, as the single-worker executor gives.
- Billing.ChargedOncePerPeriod: assumes a monotone clock (`Billing.BackwardClockBillsTwice` shows why) and that no analysis is deleted.
- AttackPaths.Analyze: membership-only result lists are sets, and the final sort of paths by severity, length and key, their explanations and the path display are not modelled.
- GraphBuilder.BuildGraph: public ingress, IAM grants, bucket exposure, the sensitivity tag and the role addresses of an instance profile are given with each resource; edge reasons, evidence, categories and remediation texts are left out.
- Rules.CollectReferences: which addresses a plain string mentions is given; that pattern is not modelled.
- Rules.BucketResourceMatches: the bucket that a reference in ARN position names is given with the pattern.
- ExpressionReader.EvaluateExpression: Unicode digits and the value of a float (its token is kept) are left out, as are error and problem texts and their truncation.
- Lease, Publication and Billing are transition systems on values: their properties are about interleavings of many processes and restarts, so no object is updated in place there.
- GitHubService.GitHubService.Receive: the IntegrityError race of two inserts and rows recorded before payloads were stored cannot arise from an empty table with serialized intake; intake database errors leave the table unchanged and are not shown.
- GitHubService.GitHubService.DispatchPending: the number of rounds is bounded by a given sequence, and other threads act between its transactions only in `Serve`.
- GitHubService.GitHubService.Attempt: the claim and the hand-off are one step; an execution that ends between them commutes with the hand-off.
- GitHubService.GitHubService.Save: its three tries read one clock, and in the service its slot comes back in the same step; `Deliveries.BoundedReexecution` has the two apart.
- Jobs.JobManager.Delete: retention sweeps delete in batches; the audit events and their cap of 100000 records (events.py) are not modelled.
- Cancelled futures during drain, thread timing, subprocess limits and the SQLite file-lock branch of the lease.
- Unwrapping of `jsonencode(...)`, policy documents, JSON, YAML and HCL loading, HCL editing and remediation.
- Score bands, headlines, reasons, notes, SARIF and comment texts, the web and Streamlit interfaces, OIDC, cookies, the GitHub HTTP client.
- Member, invitation and export quotas; only the monthly analysis quota is modelled.
