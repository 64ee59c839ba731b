# A Dafny model of carbon-c-relay

carbon-c-relay receives Graphite metrics, cleans them, routes them through a list
of rules and delivers them to clusters of servers, possibly aggregating or
rewriting them on the way. This project models the logic of that path and proves
what it keeps. `dafny verify dfyconfig.toml` checks all of it.

| file | models |
|---|---|
| `Patterns.dfy` | turning a rule's pattern into a plain string match, and matching |
| `Tails.dfy` | the tail literal of a pattern and the reversed search of a group |
| `Rewrite.dfy`, `RewriteLaws.dfy` | expanding a replacement template; laws of case, numbers and the identity |
| `Routing.dfy` | the rule interpreter, as a method over a bounded array of destinations and as a function |
| `RouteLaws.dfy`, `DestLaws.dfy` | laws about rule lists and servers chosen; laws of the kinds of destinations |
| `Optimiser.dfy`, `Links.dfy` | regrouping the rule list by tail; the linked list it is done on |
| `Grouping.dfy`, `Gates.dfy`, `Checks.dfy` | what the result looks like; when a group loses metrics; what becomes of a validate without destinations |
| `Distinct.dfy`, `Ring.dfy` | carbon_ch and fnv1a_ch rings: building, searching, walking |
| `JumpHash.dfy` | jump consistent hash and the choice of replicas |
| `Window.dfy`, `Aggregator.dfy`, `Expiry.dfy` | the buckets of one aggregation; runs of putters and the expiry thread; nothing is closed early |
| `TableSteps.dfy`, `InvocationTable.dfy`, `Passes.dfy` | the hash table of invocations under a read-write lock; all interleavings; a pass leaves none out |
| `Cleanser.dfy`, `LineForms.dfy`, `Connection.dfy` | the line cleanser; what it makes of a line; a connection that reads, stalls and resumes |
| `Queue.dfy` | the ring buffer queue |
| `Sender.dfy`, `Delivery.dfy` | writing a batch; `server_send`, requeueing, and whole runs |
| `Md5.dfy` | MD5 streaming over an abstract compression function |
| `Allocator.dfy` | the region allocator |

The main theorems are `Optimiser.Optimise` with `Optimiser.RouteBothWays` (the
optimised rule list means the same), `Grouping.GroupsAreFormed`,
`Gates.GroupLosesExactlyWhen` and `Checks.ChecksAreSafeExactlyWhen`,
`Tails.TailIsLastRun`, `Patterns.StringMatchIsRegexMatch`,
`RouteLaws.SameNameSameRoute`, `Rewrite.RewriteMeansTemplate` with
`Rewrite.RewriteMeansTemplateExactlyWhen` and `RewriteLaws.AllGroupsGiveItBack`,
`Ring.HashRing.Lookup` with `Ring.OrderDoesNotMatter` and
`Ring.RemovalKeepsChoices`, `JumpHash.JumpIsConsistent` with
`JumpHash.JumpIsLastHop`, `Aggregation.WindowsStayInShape`,
`Aggregation.EverySampleIsWrittenOnce`, `Expiry.NothingIsClosedEarly` with
`Expiry.RecentSamplesAreTaken`, `InvocationTable.OneInvocationPerName` with
`Passes.EveryInvocationIsVisited`,
`Connections.Connection.Run` with `Connections.SplitsAndStallsDoNotMatter`,
`Cleanser.CleansingIsIdempotent` with `LineForms.LineIsCleaned`,
`Queues.Queue.Run`, `Delivery.Relay.QueueSend`, `Delivery.NothingIsLost` with
`Delivery.EveryBatchIsAccountedFor`, `Md5.HashChunks` and
`Allocator.BlocksAreSafe`.

## Conventions

* Whatever the relay cannot decide is a parameter: hash functions, the regular
  expression engine (an abstract match with spans), the clock, the outcome of
  socket operations, the order `qsort` gives to equal elements, the byte past the
  end of the ring, the memory in front of and behind a metric name.
* Runs are sequences of events. A predicate says which sequences are possible, a
  ghost function gives the final state, and the theorems hold for every sequence.
* `double` values are `real`. Integer widths are written out where the code
  depends on them (the allocator's sizes, the MD5 counters, the jump hash key).

## Where the code does not do what one would expect

These are consequences of the code as it is; the model follows the code.

* A rule that ends with a literal compares bytes in front of the metric when the
  name is shorter than the literal: `Patterns.EndsWithOnShortNames` gives the exact
  condition and `Patterns.EndsWithReadsInFront` an input. In a connection the byte
  in front of the metric is the last byte of `buflen` (`dispatcher.c:84-104`): zero
  on little-endian hosts, where the verdict is right, and the low byte of the
  buffer length on big-endian ones, where a wrong verdict can be reached.
* In a template, a digit behind a reference belongs to its number, a reference
  without modifier behind another one takes over its case, and one with a modifier
  behind another one is printed as it stands. `Rewrite.MeaningExactlyWhen` says
  exactly which templates mean what they say for every match, and
  `Rewrite.CaseSpillsOver` and `Rewrite.ModifierIsPrinted` are two that do not.
* A `validate` without destinations (a lone check below) stops the list for a metric
  with bad data, but the optimiser moves it and moves others past it like any rule.
  The meaning changes in three ways, and in each a metric the check stops and a rule
  of another tail that delivers it suffice: a rule overtakes the check and delivers
  twice (`Checks.CheckIsOvertaken`), the check overtakes a rule and its delivery is
  lost (`Checks.CheckOvertakes`), or a stop rule takes a rule behind the check, with
  the same effect (`Checks.StopMovesBehindCheck`). `Checks.BadDataIsDeliveredTwice`,
  `Checks.BadDataIsDeliveredOnce` and `Checks.BadDataIsLost` are inputs. Lone checks
  are safe in every list exactly when no metric one of them stops has another tail
  literal in its name: `Checks.ChecksAreSafeExactlyWhen`. A list keeps its meaning when no step
  exchanges two rules whose order matters (`Optimiser.OptimisedMeans`, with
  `RouteLaws.ExchangeableExactlyWhen` for the pairs), so also when no lone check
  changes places with another rule (`Optimiser.UnmovedChecksAreHarmless`).
* The optimiser takes the last run of letters outside parentheses as text that every
  matched name contains (`Tails.TailIsLastRun`). For regular expressions that need
  not be so: with `aaa|bbb` three rules that match the name `aaa` become a group that
  hides them from it (`Gates.AlternativeIsLost`). A group of rules that only deliver
  loses metrics exactly when they deliver one without the tail in its name:
  `Gates.GroupLosesExactlyWhen`.
* A batch is given up halfway, and its rest freed without being written, when a flush
  for room fails or a poll meets an error event and the connection stays open. Only
  then: `Senders.Sender.WriteBatch` and `Delivery.Relay.QueueSend`.
* A tail of 64 letters and more makes the optimiser write a NUL behind its buffer,
  exactly then: `Tails.ExtractTail`, with `Tails.SixtyFourLettersOverrun` for an input.
* `server_send` asks whether the server itself failed where it loops over the
  secondaries, so a failed server is never relieved by them:
  `Delivery.MovedExactlyWhen` has the exact condition for a move and
  `Delivery.FailedServerStalls` an input.
* A batch that is put back comes back in reverse order: `Delivery.Relay.Requeue`.
* For the 1024 largest sizes the size of a new region wraps around and the request
  does not fit into it, so the walk appends regions without end, exactly then:
  `Allocator.WalkIsEndlessExactlyWhen`.
* The "lost track" branch and the last `else` branch of the optimiser cannot be
  reached; `Optimiser.ReduceBlocks` proves the first of these.

## Model

| member | source | states |
|---|---|---|
| `Patterns.DetermineIfRegex` | router.c:204-275 | the classifying loop over the 8192-byte buffer computes the recursive classification, and keeps the literal unless the pattern needs a regex |
| `Patterns.ScanOne` | router.c:222-267 | the switch on one character, writing into the buffer, is one step of the classification |
| `Patterns.OrdinaryCharsAre` | router.c:249-262 | what is copied as it stands: the 52 letters, the ten digits, `_` and `-` |
| `Patterns.StrStr` | router.c:2705 | finds the leftmost occurrence, and nothing exactly when there is none |
| `Patterns.ScanReads` | router.c:221-270 | whatever the scan accepts reads, under the grammar of section 9.4 of POSIX.1-2017 Base Definitions, as its literal with the anchors of its kind |
| `Patterns.DenotesChars` | router.c:2703-2711 | a run of ordinary characters denotes exactly its own occurrence |
| `Patterns.DenotesByKind` | router.c:2694-2742 | what the parsed pattern of each match type denotes: a contained, leading, trailing or whole literal |
| `Patterns.ClassifiedPatternParses` | router.c:217-270 | a pattern classified as plain is a well-formed expression if and only if its trailing backslashes are even, and then parses to its literal with anchors |
| `Patterns.EscapeIsParity` | router.c:223-227 | the escape flag at the end of the scan is the parity of the trailing backslashes |
| `Patterns.MatchStringByKind` | router.c:2703-2738 | when each kind of string match succeeds, and with which span |
| `Patterns.PrefixStaysInName` | router.c:2712-2719 | the unbounded prefix comparison cannot succeed beyond the name when a delimiter ends it |
| `Patterns.StringMatchIsRegexMatch` | router.c:204-274 | for every plain pattern and delimited name, string matching agrees with the regular expression's denotation: the same verdict and its leftmost-longest span |
| `Patterns.EndsWithOnShortNames` | router.c:2720-2729 | on a name shorter than the literal the expression never matches, and the code matches exactly when the bytes in front complete the literal |
| `Patterns.ClassifiedAb` | router.c:237-243 | `ab$` is classified as a plain ending |
| `Patterns.EndsWithReadsInFront` | router.c:2720-2729 | an input: a pattern for names ending in `ab`, such as `ab$`, and the name `b` behind the byte `a`: matched although the expression matches nothing |
| `Tails.StripPattern` | router.c:1581-1606 | the backward loop ends at the last tail character outside parentheses, escaped ones not counted, and nowhere exactly if there is none behind the first character |
| `Tails.CopyRun` | router.c:1631-1646 | copies up to 64 tail characters in reverse and sums them; the NUL falls behind the buffer exactly for runs of 64 and more |
| `Tails.ExtractTail` | router.c:1581-1648 | the extracted tail and hash, with the unusable and too short cases; the buffer is overrun exactly for tails that do not fit |
| `Tails.WordIsItsTail` | router.c:1581-1647 | a pattern of three letters and more is its own tail |
| `Tails.LongWordsOverrun` | router.c:1631-1646 | such a pattern fits if and only if it has fewer than 64 letters |
| `Tails.SixtyFourLettersOverrun` | router.c:1631-1646 | inputs: 64 letters overrun the buffer, 63 do not |
| `Tails.ReversedOccurrence` | router.c:2993-3003 | comparing backwards from a position is an occurrence of the reversed tail |
| `Tails.StripStops` | router.c:1584-1606 | where stripping ends, no tail character follows |
| `Tails.TailCharsAre` | router.c:1584-1592 | tail characters are the 52 letters and the underscore |
| `Tails.StripIsOutside` | router.c:1584-1606 | counting parentheses from the right as the loop does, or from the left with escapes by parity of backslashes, tells the same tail characters to be outside parentheses |
| `Tails.TailIsLastRun` | router.c:1581-1648 | for every pattern: it has a tail if and only if the last run of tail characters outside parentheses has three and more, and then the tail is that run, reversed; it is unusable if and only if no tail character behind the first is outside parentheses |
| `Tails.AlternativesAreNoTail` | router.c:1594-1604 | an input: for `foo` with the alternatives `bar` and `baz` in parentheses behind it, the tail is `foo` |
| `Tails.GroupAccepts` | router.c:2993-3006 | the nested search accepts a nonempty name if and only if the tail is a substring of it |
| `Tails.TailStandsInPattern` | router.c:1581-1647 | the tail read forwards stands in the pattern as a run of tail characters that cannot be extended on either side |
| `Tails.LiteralGrows` | router.c:221-265 | the literal only ever grows during the scan |
| `Tails.RunReachesLiteral` | router.c:221-265 | a run of letters of the pattern reaches the literal unbroken |
| `Tails.TailStandsInLiteral` | router.c:1631-1647 | the tail of a plain pattern is a substring of its literal |
| `Tails.MatchedLiteralStandsInName` | router.c:2703-2738 | a name matched by a plain rule contains the literal |
| `Tails.PlainRuleMatchesOnlyNamesWithItsTail` | router.c:1581-1647 | every name a plain rule matches contains the extracted tail, so the gate of a group never hides the rule |
| `Rewrite.CopyCased` | router.c:2813-2854 | copies a stretch with its case conversion, inside the buffer; `RewriteLaws.CaseLaws` says what that does |
| `Rewrite.Expand` | router.c:2778-2872 | the template loop never writes outside the buffer and produces what the character machine says |
| `Rewrite.RewriteMetric` | router.c:2747-2898 | the whole rewrite, with its three size checks, equals the functional form |
| `Rewrite.Rewritten` | router.c:2874-2894 | a rewrite keeps the data: from the new first space on it is the old data |
| `Rewrite.StepsRef` | router.c:2780-2803 | backslash, modifiers and digits are read as one reference with its case |
| `Rewrite.StepsPrinted` | router.c:2786-2865 | a modified reference behind a pending one is copied as text |
| `Rewrite.StepsFlush` | router.c:2786-2864 | a backslash behind a reference writes it and keeps its case |
| `Rewrite.StepsItems` | router.c:2780-2865 | the machine on a printed template produces the code's text of its items, from any pending reference |
| `Rewrite.StepsNul` | router.c:2868-2872 | the end of the template flushes a pending reference |
| `Rewrite.RewriteMeansTemplate` | router.c:2747-2898 | for every well-formed match, faithful template and nonempty data that fit, the result is prefix, meaning of the template, suffix and data, with the first space at their boundary |
| `Rewrite.MeaningExactlyWhen` | router.c:2778-2870 | for every number of groups, the code's text is the template's meaning for all matches if and only if no digit and no modified reference stands right behind a reference, and behind a modified one only references to no group |
| `Rewrite.RewriteIsCodeText` | router.c:2747-2898 | for every list of items and every match that fits, touching references included, the result is prefix, the code's text, suffix and data |
| `Rewrite.RewriteMeansTemplateExactlyWhen` | router.c:2747-2898 | for a template whose text fits in a match with no group set and one with every group set: every call with that many groups whose text fits gives the template's meaning if and only if the template is faithful, that is under the condition of `Rewrite.MeaningExactlyWhen` |
| `Rewrite.ResultTellsText` | router.c:2747-2898 | a call succeeds with the meaning if and only if the text it writes is that meaning |
| `Rewrite.UnfaithfulShows` | router.c:2778-2870 | one of these two matches tells every template that is not faithful |
| `Rewrite.FaithfulText` | router.c:2778-2870 | on a faithful template the code's text is the meaning |
| `Rewrite.ApartIsFaithful` | router.c:2786-2864 | templates whose references touch neither a reference nor a digit are faithful |
| `Rewrite.CaseSpillsOver` | router.c:2780-2798 | an input: `\_1\2` yields `ab` where `aB` is meant |
| `Rewrite.ModifierIsPrinted` | router.c:2786-2799 | an input: `\1\_2` yields `A_2` where `Ab` is meant |
| `RewriteLaws.CaseLaws` | router.c:2813-2854 | upper case leaves no small letter, turns letters into the same letter and keeps all else, lower case the other way round; the dotted cases hold an underscore exactly where there was a dot or one before, no dot, and otherwise agree with the plain case |
| `RewriteLaws.CaseIsUnique` | router.c:2813-2854 | only one text is the upper case of another, and only one the lower case |
| `RewriteLaws.ModifiersAsWritten` | router.c:2786-2798 | `\1`, `\_1`, `\^1`, `\.1`, `\_.1` and `\^.1` give the first group in the six cases |
| `RewriteLaws.UpperAb` | router.c:2822-2825 | an input: `\^1` makes `AB` of `ab` |
| `RewriteLaws.ValueOfDecimal` | router.c:2799-2802 | the decimal digits of a number refer to the group of that number |
| `RewriteLaws.AllGroupsGiveItBack` | router.c:2747-2898 | round trip: for every match that its groups divide up, the template that names them in order gives the metric back |
| `Routing.RouteIntern` | router.c:2954-3229 | as long as slots do not run out, the interpreter loop yields exactly the deliveries, submissions, metric and stop flag of the functional form; when they do it stops with an array that holds the first of these deliveries, unless a stub hid it; enough slots never run out |
| `Routing.RouteOne` | router.c:2987-3019 | the same for one rule, group gate included |
| `Routing.DestLoop` | router.c:3022-3218 | the same for the destinations of one rule, with aggregation and validation ending them |
| `Routing.DestOne` | router.c:3037-3217 | the same for one destination of every cluster type; a validation replaces only the match spans it sets |
| `Routing.Deliver` | router.c:3041-3134 | the switch over clusters of servers: slots run out exactly when fewer are left than asked for, forwards and log files fill what is left, and otherwise the deliveries are lawful: every server of a forward once and in order, the first of a shared queue, the hashed member of any_of, as many of a ring as replicas, each in its server's format |
| `Routing.SendEach` | router.c:3046-3068 | the loop over the servers of a forward or log |
| `Routing.TargetsAreLawful` | router.c:3041-3134 | the functional form promises the same |
| `Routing.TargetsWithin` | router.c:3046-3133 | a cluster uses at most the slots asked for, forwards and log files all of them |
| `Routing.RouteAllSlots` | router.c:2979-2984 | routing never delivers more than the slots counted for the rules |
| `RouteLaws.RulesKeepData` | router.c:3149-3167 | no rule list changes the data of a metric; one without rewrites keeps the name, too |
| `RouteLaws.SameNameSameServers` | router.c:3069-3134 | for every kind of cluster, metrics of one name go to the same servers whatever their data; on a ring, so do metrics whose masquerades expand alike |
| `RouteLaws.SameNameSameRoute` | router.c:2986-3224 | so it is for every list of rules without validation, masquerade, rewrite and stub that match both |
| `DestLaws.StopEndsList` | router.c:3020-3222 | a matching rule with stop ends the list |
| `DestLaws.NoMatchNoEffect` | router.c:3017-3019 | a rule that does not match is as good as absent |
| `DestLaws.DataSeen` | router.c:3187-3196 | a validation looks at what stands between the space and the newline |
| `DestLaws.ValidationGuards` | router.c:3187-3213 | bad data reaches no destination behind a validation and goes on to the next rule, good data passes it by |
| `DestLaws.AggregationTakesItIn` | router.c:3135-3148 | an aggregation takes a metric in once, and nothing behind it gets it |
| `DestLaws.StubStripsPattern` | router.c:3168-3186 | a stub routes the name without its pattern and leaves the metric as it was |
| `DestLaws.RewriteRenames` | router.c:3149-3167 | a rewrite is seen by all rules behind it and delivers nothing |
| `DestLaws.RewriteToMeans` | router.c:3149-3167 | the new name is the template's meaning in place of the matched part |
| `DestLaws.RewriteToItself` | router.c:3149-3167 | naming all groups of a match they divide up leaves the metric as it is |
| `DestLaws.RewriteGoesOn` | router.c:3149-3167 | destinations behind a rewrite see the new name |
| `DestLaws.StubGoesOn` | router.c:3168-3186 | destinations behind a stub get the metric as it was |
| `DestLaws.EveryClusterIsServed` | router.c:3022-3134 | every cluster of a matching rule gets the metric, one after the other |
| `DestLaws.SlotsAreUsed` | router.c:2986-3224 | the slots counted are not too many: a metric that all rules match takes each of them, unless clusters are empty, masquerade or stop |
| `DestLaws.SpansOfRegex` | router.c:2698-2702 | with groups the spans are the engine's; without, a rule neither rewrites nor masquerades |
| `RouteLaws.RouteAllAppend` | router.c:2986-3224 | routing through a list and then another is routing through their concatenation |
| `RouteLaws.EquivInContext` | router.c:2986-3224 | equivalent lists may replace each other anywhere |
| `RouteLaws.EquivTransitive` | router.c:2986-3224 | equivalence of rule lists is transitive |
| `RouteLaws.CalmRule` | router.c:3020-3222 | a rule without stop, rewrite and lone validation neither changes the metric nor stops |
| `RouteLaws.ExchangeableExactlyWhen` | router.c:2986-3224 | two rules without rewrites may change places if and only if no metric notices: what one stops, the other does nothing with, or both stop it with the same deliveries and submissions |
| `RouteLaws.CalmRulesExchange` | router.c:1710-1727 | rules without stop, rewrite and lone validation may change places |
| `RouteLaws.RuleMovesForward` | router.c:1710-1714 | a rule may move in front of a list when it may change places with each rule in it |
| `RouteLaws.ListsExchange` | router.c:1716-1727 | two lists may change places when their rules may, pair by pair |
| `RouteLaws.NothingMatches` | router.c:3017-3019 | rules none of which matches do nothing |
| `RouteLaws.GroupMeansItsRules` | router.c:2987-3016 | a group means the same as its rules when each of them matches only names with the tail |
| `Optimiser.FindBlock` | router.c:1675-1681 | the search returns the first group with the very tail behind the last barrier, or none if there is none |
| `Optimiser.AddedSingle` | router.c:1557-1579 | an ungroupable rule in a block of its own keeps the shape of the block list and becomes the barrier |
| `Optimiser.AddedGroup` | router.c:1682-1708 | starting a group keeps the shape |
| `Optimiser.JoinedCalm` | router.c:1710-1714 | joining without stop keeps the shape |
| `Optimiser.JoinedStop` | router.c:1715-1727 | joining with stop keeps the shape |
| `Optimiser.CollectedShape` | router.c:1542-1733 | after any number of rules: numbers ascend, a block holds configured rules of the list with its tail and counts them, and behind the barrier there is one block for each tail, without stop rules |
| `Optimiser.PlaceTailed` | router.c:1673-1732 | placing a rule with a tail does what the functional form says |
| `Optimiser.BuildBlocks` | router.c:1542-1733 | the whole first loop computes the blocks of the functional form; its last branch is dead |
| `Optimiser.ReduceBlocks` | router.c:1734-1786 | the second loop turns exactly the blocks of three rules and more into groups and never loses track of the sequence numbers |
| `Optimiser.PlacedFlattened` | router.c:1673-1732 | a rule moves in front of the blocks behind its own; with a stop it goes to the end and takes its block along |
| `Optimiser.PlacedMeans` | router.c:1673-1732 | placing a rule keeps the meaning when the rules that change places may do so |
| `Optimiser.CollectedMeans` | router.c:1542-1733 | so does the whole first loop, after any number of rules |
| `Optimiser.ReducedBlock` | router.c:1769-1784 | replacing a block by a group rule keeps the meaning |
| `Optimiser.ReducedMeans` | router.c:1734-1786 | the second loop keeps the meaning |
| `Optimiser.OptimisedMeans` | router.c:1510-1786 | where tails are sound and no step exchanges two rules whose order matters, the optimised list means the same |
| `Optimiser.OptimisedSlots` | router.c:1510-1786 | the optimised list asks for the same slots, always |
| `Optimiser.PairsAreHarmless` | router.c:1673-1732 | it is enough that the rules without stop and with different tails may change places |
| `Optimiser.UnmovedChecksAreHarmless` | router.c:1673-1732 | it is enough, in every world, that no lone check changes places with another rule |
| `Optimiser.Optimise` | router.c:1510-1786 | the result is the functional form and needs the same slots; for every world in which grouped rules match only names with their tail it gives the same multisets of deliveries and submissions and the same metric, wherever the exchanges are harmless or no lone check changes places |
| `Optimiser.PlainTailIsSound` | router.c:1581-1647 | the tail hypothesis holds of every plain or stub rule |
| `Optimiser.PlainRulesAreSound` | router.c:1581-1647 | it holds of every list without grouped regex rules |
| `Optimiser.RouteBothWays` | router.c:2986-3224 | where the exchanges are harmless the interpreter, run on both lists with enough slots, gives the same result |
| `Grouping.OptimisedIsRearranged` | router.c:1510-1786 | with groups dissolved, the optimised list holds every rule as often as before |
| `Grouping.GroupsShareATail` | router.c:1769-1784 | every group holds at least three rules of the list, all with its tail |
| `Grouping.GroupsAreFormed` | router.c:1555-1784 | between a barrier and the next barrier, stop rule or end, three or more rules with one tail become one group, in their order |
| `Grouping.StretchIsOpen` | router.c:1673-1716 | until then every open block holds exactly the rules with its tail |
| `Grouping.ShutToTheEnd` | router.c:1677-1708 | blocks before a barrier or a stop rule do not change any more |
| `Checks.CheckOutcome` | router.c:3187-3213 | a lone check delivers nothing and stops exactly the metrics it matches whose data does not |
| `Checks.ThreeRules` | router.c:1673-1732 | for any two tails: the third rule of `[x, y, z]` with the tail of the first goes in front of the second, or takes the first behind it if it stops |
| `Checks.CheckIsOvertaken` | router.c:1710-1716 | for every lone check, every metric it stops and every rule of another tail that delivers it: `[a, v, a]` becomes `[a, a, v]` and the deliveries double |
| `Checks.CheckOvertakes` | router.c:1710-1716 | for these and every rule with the check's tail in front: `[c, a, v]` becomes `[c, v, a]` and the deliveries of `a` are lost |
| `Checks.StopMovesBehindCheck` | router.c:1715-1727 | for these and every stop rule with the tail of `a`: `[a, v, s]` becomes `[v, a, s]` and nothing is delivered |
| `Checks.SecludedExchanges` | router.c:1710-1727 | a check that stops no metric with another tail literal in its name may change places with every rule of another tail |
| `Checks.ChecksExchange` | router.c:3187-3213 | two lone checks may always change places |
| `Checks.ChecksAreSafeExactlyWhen` | router.c:1510-1786 | for any lone checks: every list without others keeps its meaning if and only if no metric one of them stops has a tail literal other than that check's own in its name |
| `Checks.BadDataIsDeliveredTwice` | router.c:3187-3213 | an input for the first way, in every world: 1 delivery becomes 2 |
| `Checks.BadDataIsDeliveredOnce` | router.c:3187-3213 | an input for the second way: 2 become 1 |
| `Checks.BadDataIsLost` | router.c:3187-3213 | an input for the third way: 1 becomes 0 |
| `Checks.CheckInFrontStays` | router.c:1673-1716 | a lone check in front of two rules of another tail does not change places |
| `Links.AppendedWalk` | router.c:1683-1698 | appending a block keeps the links walkable, and every `prev` that was right |
| `Links.MovedWalk` | router.c:1718-1722 | unlinking a block through a right `prev` and hanging it behind the last one gives the walk with that block at its end |
| `Links.LinksFollowBlocks` | router.c:1542-1733 | after every rule the links hold the blocks in the order of the functional form, and behind the barrier, where alone blocks are moved, every `prev` is right |
| `Gates.GroupLosesExactlyWhen` | router.c:1769-1784 | three rules alike that only deliver become one group, and mean the same if and only if every metric they deliver passes its search for the tail |
| `Gates.GroupOutcome` | router.c:2987-3016 | a group does what its rules do, or nothing, by its search |
| `Gates.AlternativeIsLost` | router.c:1581-1648 | an input: the alternatives `aaa` and `bbb` without parentheses and the name `aaa`, for every engine that matches them: 3 deliveries become 0 |
| `Ring.StrCmpTransitive` | consistent-hash.c:119 | string comparison is transitive, strictly if one step is strict |
| `Ring.TieCmpOrder` | consistent-hash.c:108-160 | the tie break is zero exactly on equal tie-break fields, and antisymmetric |
| `Ring.TieCmpTransitive` | consistent-hash.c:108-160 | the tie break is transitive, missing instances included |
| `Ring.StrCmpIsLexicographic` | consistent-hash.c:119 | the comparison is negative if and only if the first text precedes the second lexicographically |
| `Ring.TieCmpIsLexicographic` | consistent-hash.c:108-160 | the earlier address wins, then the earlier instance, servers without one last, or the lower port |
| `Ring.OwnerIsUnique` | consistent-hash.c:305-311 | a position has one owner when servers differ in the tie-break fields |
| `Ring.LeastAt` | consistent-hash.c:305-311 | every occupied position has an owner |
| `Ring.OwnersWithout` | consistent-hash.c:243-430 | owners met from a key do not change when a server not among them is removed |
| `Ring.RemovalKeepsChoices` | consistent-hash.c:243-430 | removing a server that is not among a key's first r choices leaves these unchanged |
| `Ring.OverwrittenOwns` | consistent-hash.c:301-311 | after sorting and overwriting, every entry names the owner of its position |
| `Ring.BuiltIsRing` | consistent-hash.c:243-314 | any sort of the entries, overwritten, is the ring of the set of servers |
| `Ring.ScanIsPreference` | consistent-hash.c:414-429 | the distinct servers of a cyclic scan from the first entry at or above the key are the preference list of the server set |
| `Ring.Search` | consistent-hash.c:380-412 | the binary search ends at the first entry at or above the key or inside a run of equal positions, whatever stands in the slot past the end |
| `Ring.Chosen` | consistent-hash.c:418-423 | whether a server was already chosen |
| `Ring.Walk` | consistent-hash.c:414-429 | the walk terminates and returns the first r distinct servers from its start |
| `Ring.StartInsideRun` | consistent-hash.c:384-388 | starting inside a run of equal positions gives the same distinct servers |
| `Ring.GetNodes` | consistent-hash.c:378-430 | search and walk return exactly the first r servers of the preference list |
| `Ring.OrderDoesNotMatter` | consistent-hash.c:243-314 | two rings built from the same servers in any order choose the same servers for every key |
| `Ring.HashRing.constructor` | consistent-hash.c:199-232 | an empty ring with room for all replicas |
| `Ring.HashRing.AddNode` | consistent-hash.c:243-314 | after the last server the ring is complete; before, the entries are the replicas of those added |
| `Ring.HashRing.FillReplicas` | consistent-hash.c:256-293 | writes the replicas behind the entries there are |
| `Ring.HashRing.Lookup` | consistent-hash.c:323-430 | a lookup on a complete ring depends only on the set of servers added |
| `Ring.OverwriteDuplicates` | consistent-hash.c:305-310 | the in-place loop overwrites every run with its first server |
| `JumpHash.ExactStepAdvances` | consistent-hash.c:95-98 | the jump always goes forward, computed without rounding |
| `JumpHash.JumpBucketPos` | consistent-hash.c:87-103 | the loop terminates in [0, n) with the recursive jump |
| `JumpHash.JumpIsConsistent` | consistent-hash.c:83-103 | one more bucket moves a key only to the new bucket |
| `JumpHash.GrowthOnlyMovesToNew` | consistent-hash.c:83-103 | any number of new buckets moves keys only to new buckets |
| `JumpHash.JumpIsLastHop` | consistent-hash.c:83-103 | every key has a fixed ascending sequence of buckets to hop to, and among n buckets it is in the last of these below n |
| `JumpHash.MovesExactlyWhen` | consistent-hash.c:83-103 | a key moves to the bucket added last if and only if it hops there |
| `JumpHash.KnownKey` | consistent-hash.c:87-103 | an input: key 10863919174838991 and 11 buckets give bucket 6 |
| `JumpHash.SelectReplicas` | consistent-hash.c:341-375 | chooses min(replcnt, n) servers (all n for replcnt 0) in pairwise distinct ring slots, the first by jump hash: the functional form |
| `JumpHash.ReplicasAreDistinct` | consistent-hash.c:341-375 | of which all that is so for any number of replicas |
| `JumpHash.FewerPicksAreAPrefix` | consistent-hash.c:341-375 | asking for fewer replicas gives the first of those for more |
| `Windows.WindowLength` | aggregator.c:81 | the bucket count spans at least expiry plus one interval |
| `Windows.NewIsWindow` | aggregator.c:272-295 | a new window is aligned, contiguous, open, and reaches beyond now |
| `Windows.BucketContainsEpoch` | aggregator.c:303-328 | the bucket for an epoch is the open one whose interval contains it, and there is none exactly when the metric is dropped |
| `Windows.MarkStep` | aggregator.c:512-530 | one step of the expiry scan keeps the window's shape and leaves a next bucket inside the array |
| `Windows.ScanDone` | aggregator.c:512-516 | where the scan stops no open bucket is past its expiry |
| `Windows.RotationProgress` | aggregator.c:546-561 | every rotation lowers the number of expired buckets, so the loop ends |
| `Windows.RotateOneKeepsWindow` | aggregator.c:549-558 | a rotation keeps the shape and extends the window by one interval |
| `Windows.RotateKeepsWindow` | aggregator.c:544-561 | after the loop the window reaches expiry plus interval beyond the pass |
| `Windows.Window.constructor` | aggregator.c:272-295 | builds the new window and its splayed expiry, which fits 16 bits |
| `Windows.Window.Put` | aggregator.c:302-364 | folds a sample into its bucket and leaves the others alone, or drops it |
| `Windows.Window.Expire` | aggregator.c:512-530 | marks every due bucket and emits those open with samples, in order, inside the array |
| `Windows.Window.Rotate` | aggregator.c:544-561 | the loop of memory moves equals repeated rotation and terminates |
| `Windows.Window.IsEmpty` | aggregator.c:562-569 | tells whether no bucket holds samples |
| `Aggregation.AddSummarises` | aggregator.c:334-344 | folding a value keeps count, sum, maximum and minimum those of the values so far |
| `Aggregation.PlacedInStep` | aggregator.c:302-364 | putting a sample keeps every window and the pass in step |
| `Aggregation.CreatedInStep` | aggregator.c:246-299 | so does creating an invocation at any time during a pass |
| `Aggregation.ScannedInStep` | aggregator.c:508-532 | so does a step of the scan, which reads inside the array |
| `Aggregation.TurnedInStep` | aggregator.c:544-561 | so does a rotation |
| `Aggregation.FinishedInStep` | aggregator.c:562-592 | so does keeping or unlinking an invocation |
| `Aggregation.CreatedBooked` | aggregator.c:246-299 | a new invocation starts with empty books |
| `Aggregation.PlacedBooked` | aggregator.c:302-364 | a sample is booked under one bucket only |
| `Aggregation.ClosedBooked` | aggregator.c:512-530 | a bucket is written when it is closed, once, with all its samples |
| `Aggregation.TurnedBooked` | aggregator.c:544-561 | a bucket that is reused had been written or was empty |
| `Aggregation.FinishedBooked` | aggregator.c:562-588 | an invocation that is unlinked has no sample waiting |
| `Aggregation.StepKeepsValid` | aggregator.c:478-605 | every step of putters and expiry keeps windows and books |
| `Aggregation.WindowsStayInShape` | aggregator.c:498-596 | in every run with passes at most `expire` apart, windows are aligned and contiguous, expired buckets a prefix without the last one, and a scan stands inside its array |
| `Aggregation.EverySampleIsWrittenOnce` | aggregator.c:302-364 | in every run an accepted sample lies in its bucket's interval and is accounted for by exactly one aggregate: an open bucket's or a single written one |
| `Aggregation.AggregatesAreHonest` | aggregator.c:512-532 | in every run each written aggregate is count, sum, maximum and minimum of exactly the accepted samples of its bucket, and samples offered to the compute are those accepted and those dropped |
| `Expiry.NothingIsClosedEarly` | aggregator.c:512-532 | in every run an expired bucket's start plus its invocation's expiry lies before the pass, the splay is less than an interval, and so does the start plus expiry of every aggregate written |
| `Expiry.DroppedExactlyWhen` | aggregator.c:302-328 | in every run a sample is dropped if and only if its epoch is outside the window or in an expired bucket, and then that bucket's time is over |
| `Expiry.RecentSamplesAreTaken` | aggregator.c:262-364 | in every run, between passes, a sample at most `expire - interval` seconds old and not newer than the last pass is accepted |
| `Expiry.UnlinkedExactlyWhen` | aggregator.c:556-594 | an invocation is unlinked if and only if no bucket holds a sample; others are not touched |
| `Expiry.ScanIsExpire` | aggregator.c:512-532 | the steps of an undisturbed scan do to an invocation what `Windows.Window.Expire` does to its window |
| `Expiry.TurnsAreRotate` | aggregator.c:541-555 | and undisturbed rotations what `Windows.Window.Rotate` does |
| `Expiry.NewReachesBack` | aggregator.c:266-283 | the first bucket of a new window contains the time `expire` seconds ago |
| `Expiry.StepIsTimely` | aggregator.c:512-594 | every event keeps that expired buckets and written aggregates are past their expiry |
| `TableSteps.StepsAreSafe` | aggregator.c:222-244 | every step's pointers lead to nodes in the table |
| `TableSteps.CheckAdvances` | aggregator.c:239-244 | the search under the write lock passes by only nodes of other names |
| `TableSteps.NotThere` | aggregator.c:239-246 | when it finds nothing, the name has no invocation |
| `TableSteps.PutterStep` | aggregator.c:222-244 | searching, locking, unlocking and finishing keep the table and every other thread's view |
| `TableSteps.ExpirerStep` | aggregator.c:505-596 | so do the expiry thread's scanning, writing without a lock, and sweeping |
| `TableSteps.InsertStep` | aggregator.c:297-298 | inserting at the head keeps chains, hashes and map in agreement |
| `TableSteps.UnlinkStep` | aggregator.c:580-588 | unlinking and freeing keeps them in agreement and leaves no thread with the freed node |
| `InvocationTable.OneInvocationPerName` | aggregator.c:214-300 | under every interleaving no two invocations share a name, and a search finds exactly what the map of inserts and unlinks holds, within as many steps as there are nodes |
| `InvocationTable.WorkIsOnTheLiveInvocation` | aggregator.c:302-364 | a putter at work holds the live invocation of its name, and nothing can be unlinked meanwhile |
| `InvocationTable.ChangesAreExclusive` | aggregator.c:234-237 | while one thread may change the table no other one is in it |
| `InvocationTable.NoDanglingPointer` | aggregator.c:505-532 | under every interleaving no step follows a pointer to a freed invocation, also after writing a metric without a lock |
| `Passes.EveryInvocationIsVisited` | aggregator.c:505-594 | under every interleaving, a scan or a sweep that runs to its end has come to every invocation that was there when it began |
| `Passes.StepPasses` | aggregator.c:505-594 | no step of any thread lets the expiry thread pass an invocation it was still to come to |
| `Queues.ViewAdvance` | queue.c:121-136 | reading one entry drops the oldest from the view, with the cursor on the end or not |
| `Queues.ViewAppend` | queue.c:109-113 | writing one entry appends it to the view |
| `Queues.ViewPrepend` | queue.c:184-188 | putting back prepends to the view |
| `Queues.Queue.constructor` | queue.c:37-58 | an empty queue of the given capacity |
| `Queues.Queue.Enqueue` | queue.c:85-115 | appends; a full queue frees exactly the oldest entry |
| `Queues.Queue.Dequeue` | queue.c:121-136 | returns the oldest entry, or none exactly when empty |
| `Queues.Queue.DequeueVector` | queue.c:145-166 | returns the oldest entries in order, as many as asked for or there are |
| `Queues.Queue.Putback` | queue.c:175-192 | prepends, or refuses exactly when full |
| `Queues.Queue.Run` | queue.c:85-192 | every sequence of operations behaves as on a bounded deque |
| `Queues.FirstInFirstOut` | queue.c:85-166 | for every run without put-backs for which there is room: what came out and what is left is what was there and what came in, in order |
| `Queues.NewestAreKept` | queue.c:85-115 | a queue only written to holds the newest entries, as many as fit |
| `Queues.VectorIsRepeatedDequeue` | queue.c:121-166 | taking a vector is taking one entry after the other |
| `Queues.PutBackComesNext` | queue.c:175-192 | what is put back comes out next, unless the queue is full and refuses it |
| `Cleanser.ConsumeAppend` | dispatcher.c:1438-1529 | cleansing a concatenation is cleansing one part after the other |
| `Cleanser.TerminatorsAreCounted` | dispatcher.c:1439-1457 | metrics plus discards are the line ends consumed, and every metric is a routed line |
| `Cleanser.LinesGrow` | dispatcher.c:1439-1485 | lines are only added, and only at line ends |
| `Cleanser.TabsAreSpaces` | dispatcher.c:1494-1495 | turning tabs into spaces in the input changes nothing |
| `Cleanser.StepKeepsClean` | dispatcher.c:1486-1528 | every character keeps the line under construction clean |
| `Cleanser.FinishedIsNormal` | dispatcher.c:1443-1463 | a line that is not discarded is in normal form |
| `Cleanser.RoutedLinesAreClean` | dispatcher.c:1434-1529 | for every input, each routed line has a nonempty name of permitted characters without leading, trailing or doubled dot, and no repeated space |
| `Cleanser.CleansingIsIdempotent` | dispatcher.c:1434-1529 | cleansing a line in normal form gives that line again |
| `LineForms.NameIsWords` | dispatcher.c:1486-1528 | a name received so far is its nonempty words joined by dots, unpermitted characters replaced by underscores, with a dot at the end if another word is due |
| `LineForms.DataIsCleaned` | dispatcher.c:1486-1528 | data loses exactly the separators in front and those that repeat the one before |
| `LineForms.LineIsCleaned` | dispatcher.c:1434-1529 | a line of name, space and data is routed as the two of these, or discarded exactly if a limit is exceeded |
| `LineForms.BlankLineIsDiscarded` | dispatcher.c:1439-1464 | a line of separators only is discarded |
| `LineForms.LeadingSeparators` | dispatcher.c:1486-1500 | separators in front of a line change nothing |
| `Connections.CharStep` | dispatcher.c:1486-1528 | a character of the buffer advances the scan as it does in the stream, tabs replaced in place included |
| `Connections.EndStep` | dispatcher.c:1439-1485 | a line end does so, too |
| `Connections.Connection.constructor` | dispatcher.c:1213-1321 | a connection that has seen nothing, with an empty buffer of the size asked for |
| `Connections.Connection.ProcessDests` | dispatcher.c:1383-1416 | accepted and pending destinations together stay the same; what is pending is a suffix of what was |
| `Connections.Connection.Put` | dispatcher.c:1486-1528 | the in-place cases of the scan compute the cleanser's step inside the metric buffer |
| `Connections.Connection.OnChar` | dispatcher.c:1486-1528 | keeps the scan invariant for a character |
| `Connections.Connection.OnEnd` | dispatcher.c:1439-1485 | keeps it for a line end, and stalls exactly when destinations are left |
| `Connections.Connection.RouteLine` | dispatcher.c:1465-1485 | routes one line and delivers what is accepted |
| `Connections.Connection.ReceivedMetrics` | dispatcher.c:1420-1546 | the loop stays inside both buffers, and without a stall nothing routable is left |
| `Connections.Connection.FinishScan` | dispatcher.c:1530-1545 | what is left in the buffer starts with a line, and holds no whole one if more input is needed |
| `Connections.ScanEnds` | dispatcher.c:1530-1545 | at the end of a scan the bytes behind the last line end are the rest of the stream, where a line starts |
| `Connections.Connection.Discard` | dispatcher.c:1531-1543 | moves the bytes behind the last line end to the front |
| `Connections.Connection.Dispatch` | dispatcher.c:1602-1685 | resumes, reads or closes; it reads exactly when nothing is pending and the buffer holds no whole line, and closes only when all is delivered and drained |
| `Connections.Connection.Run` | dispatcher.c:1602-1685 | a connection that reads in turns: whatever is ready in each and whichever deliveries stall, a prefix of the source's cleansed lines is routed and delivered, and all of what was read once it is closed |
| `Connections.SplitsAndStallsDoNotMatter` | dispatcher.c:1602-1634 | two drained connections with the same stream routed the same lines and delivered the same, however reads were split and stalls fell |
| `Connections.DrainedHasRoutedAll` | dispatcher.c:1420-1546 | a drained connection has routed exactly the cleansed lines of its stream |
| `Connections.RoutedSoFar` | dispatcher.c:1420-1546 | at any time what was routed is a prefix of these, and metrics plus discards are the line ends consumed |
| `Senders.Sender.AddFailure` | server.c:586-594 | counts a failure up to the cap of 6 |
| `Senders.Sender.Poll` | server.c:975-1008 | only an open connection is ready, none is opened, and one that is not ready is closed or has an error event |
| `Senders.Sender.Retry` | server.c:1034-1051 | without room: flush, poll, and one more try |
| `Senders.Sender.WriteOne` | server.c:1030-1068 | one turn of the loop: the metric is written, or the connection is closed, a flush failed or a poll met an error event |
| `Senders.Sender.WriteBatch` | server.c:1026-1083 | what goes out is a front part of the batch, in order; all of it, and flushed, when every answer was good; a connection left open has written less only if a flush failed or a poll met an error event; one that ends closed leaves the flushed count at the last successful flush |
| `Senders.Sender.Recover` | server.c:1085-1090 | a good batch takes one failure off |
| `Delivery.ChooseIsBest` | server.c:1755-1767 | the queue chosen is the own one or the roomiest eligible one above the bar of four batches |
| `Delivery.FatesOfAMetric` | server.c:1747-1804 | a metric is queued, moved to a running secondary with more room, takes the place of the oldest one which is counted as dropped, or stalls; with the conditions of each |
| `Delivery.MovedExactlyWhen` | server.c:1752-1773 | a metric moves to a secondary if and only if it is not forced, the server has not failed, its room is below the threshold and a running secondary has more room by over four batches |
| `Delivery.FailedServerStalls` | server.c:1758-1767 | an input: a failed server with a full queue stalls although a running secondary has room |
| `Delivery.SentKeepsValid` | server.c:1747-1804 | sending keeps every queue within its capacity and the stall count within its limit |
| `Delivery.StallsAreBounded` | server.c:1788-1797 | a server stalls at most `maxstalls` times in a row |
| `Delivery.SendBalanced` | server.c:1747-1804 | sending keeps the books of queues and drops |
| `Delivery.TakeBalanced` | server.c:1023-1029 | taking a batch moves metrics from queue to sender |
| `Delivery.SettleBalanced` | server.c:1085-1103 | the end of a batch frees it, or what its last successful flush covered |
| `Delivery.GiveBackBalanced` | server.c:1104-1114 | each metric put back is queued again or counted as dropped |
| `Delivery.NextKeepsValid` | server.c:1010-1122 | every event keeps the books, whatever other threads change in between |
| `Delivery.NothingIsLost` | server.c:1010-1122 | in every run accepted metrics are those queued, in batches, released and dropped; what senders took is held, released, put back or dropped; the drop counters count the drops |
| `Delivery.EveryBatchIsAccountedFor` | server.c:1085-1115 | in every run, for every connection and batch: what is behind the last successful flush of a closed connection is still to be put back, was put back or was dropped, and these add up to all that was put back, dropped and freed |
| `Delivery.Relay.ServerFailed` | server.c:1124-1137 | nonzero exactly when every connection failed, and then the worst count |
| `Delivery.Relay.ChooseLine` | server.c:1755-1767 | the loop over the secondaries makes the choice above |
| `Delivery.Relay.HasBackup` | server.c:1777-1787 | whether some secondary has not failed |
| `Delivery.Relay.Send` | server.c:1747-1804 | the whole operation on counters and queues |
| `Delivery.Relay.Requeue` | server.c:1104-1114 | as many as fit go to the front in reverse order, the others are counted as dropped |
| `Delivery.Relay.QueueSend` | server.c:1010-1122 | a ready connection takes as many metrics as there are, up to the batch size, and writes a front part of them in order, all when every answer was good; a batch on a connection that ends open is gone from the queue, on one that ends closed all after the last successful flush is in the queue again |
| `Delivery.Relay.SendBatch` | server.c:1026-1112 | the same of a batch taken from the queue |
| `Md5.F` | md5.c:51 | the optimised F is that of section 3.4 of RFC 1321 |
| `Md5.G` | md5.c:52 | the optimised G is that of section 3.4 of RFC 1321 |
| `Md5.H2` | md5.c:54 | the regrouped H is that of section 3.4 of RFC 1321 |
| `Md5.CountersAdd` | md5.c:216-219 | the 29-bit and 32-bit counters add with carry |
| `Md5.CountersAreBitLength` | md5.c:264-272 | they are the two words of the bit length modulo 2^64 |
| `Md5.Context.constructor` | md5.c:200-209 | an empty message |
| `Md5.Context.Body` | md5.c:93-198 | folds the compression function over 64-byte blocks |
| `Md5.Context.Count` | md5.c:216-219 | the counters stand for the message length |
| `Md5.Context.Update` | md5.c:211-243 | appends to the message, whatever the sizes |
| `Md5.Context.Absorb` | md5.c:221-242 | state and buffer stand for the whole blocks and the rest of the message |
| `Md5.Context.Final` | md5.c:245-294 | the digest is the fold over the padded message |
| `Md5.Context.Pad` | md5.c:249-262 | both padding branches produce the padding of section 3.1 of RFC 1321 |
| `Md5.PaddedShort` | md5.c:251-262 | padding that fits into the last block |
| `Md5.PaddedLong` | md5.c:255-262 | padding that takes another block |
| `Md5.HashChunks` | md5.c:211-294 | every split of a message into updates gives the digest of the message |
| `Md5.InitialWords` | md5.c:200-209 | the initial state is the one of section 3.3 of RFC 1321, byte by byte |
| `Md5.BytesOfWord` | md5.c:262-292 | words are written low-order byte first |
| `Allocator.FreshRegionFits` | allocator.c:46-63 | a new region holds the request if and only if its size does not wrap around |
| `Allocator.RegionSizeIs` | allocator.c:47-51 | a region has the default size unless the request is larger, and then the next multiple of 1024 above it |
| `Allocator.RoundedFits` | allocator.c:92-98 | a request that fits still fits after rounding |
| `Allocator.FirstFit` | allocator.c:91-92 | the first region with room, if any |
| `Allocator.RegionChain.constructor` | allocator.c:68-77 | one empty region |
| `Allocator.RegionChain.Malloc` | allocator.c:85-107 | serves a request from the first region with room or a new one, and always gives a block if memory can be had |
| `Allocator.ServedKeepsSafe` | allocator.c:85-107 | a request keeps all blocks aligned, inside their regions and disjoint |
| `Allocator.BlocksAreSafe` | allocator.c:85-107 | so they are after every sequence of requests |
| `Allocator.NoBlockExactlyWhen` | allocator.c:85-107 | a request gets no block if and only if nothing fits and memory is refused or the size wraps around |
| `Allocator.WalkIsEndlessExactlyWhen` | allocator.c:91-103 | on a chain without room, no number of appended regions helps if and only if the size wraps around |

## Left out

- Sockets, TLS, compressed streams, libevent, listeners, signals and daemon code: their outcomes are arbitrary here.
- The configuration parser, printing, diffing, test mode and the collector's statistics.
- The regular expression engine: an abstract match with spans; tails of regex rules are a hypothesis of the optimiser theorem.
- The `blackholed` flag and the order of deliveries in the optimiser theorem: groups change both.
- Optimiser.Optimise: blocks are a sequence, whose links are in `Links`; the links between rules and running out of memory halfway are not modelled; tails have fewer than 64 characters. That the exchanges are harmless one by one is sufficient; a list may keep its meaning although one is not, when a later one makes up for it or equal deliveries are traded.
- Routing.RouteIntern: a rule with more match slots than its matcher set counts as a failed expansion; the slot behind the last group, which a template may name and `regexec` never sets, expands to nothing, where the source may find a span of an earlier rule there; the group gate on an empty name depends on a stale cursor and is arbitrary; once slots ran out inside a stub, only the bound on the array is stated.
- Rewrite.RewriteMetric: a reference number that overflows an `int` is not modelled.
- Rewrite.RewriteIsCodeText: escaped backslashes in templates, which print nothing, are not items.
- Allocator.NoBlockExactlyWhen: for the 1024 largest sizes "no block" stands for a walk without end.
- Allocator.RegionChain.Malloc: for the 1024 largest sizes the source appends empty regions without end; these are outside its precondition and covered by `Allocator.WalkIsEndlessExactlyWhen`.
- JumpHash.ExactStepAdvances: rounding of `double` arithmetic; the theorems hold for every step function that goes forward.
- Ring.Search: a ring of one entry, on which the source's loop may not end.
- entrycmp_jump_fnv1a: it is no order on mixed numeric and textual instances; jump hash starts from a fixed server list.
- Windows.Window.Put: percentiles, median, variance and standard deviation, and the stored entries they need.
- Aggregation.EverySampleIsWrittenOnce: the test of a bucket's state (`aggregator.c:323`) and the addition under its lock (`aggregator.c:333`) are one step; a bucket written in between would leave the sample unwritten. Also shutdown, and pipe writes that fail after the aggregate was formed.
- Aggregation.AggregatesAreHonest: counts per compute; the source counts a metric once for all computes of an aggregator, and skips computes whose expansion fails.
- Aggregation.WindowsStayInShape: a clock that jumps by more than `expire` between passes, or back.
- InvocationTable.OneInvocationPerName: lock fairness and memory ordering; every step is one atomic access.
- Connections.Connection.Dispatch: UDP, aggregator pipes, tags and the second read of compressed transports.
- Delivery.Relay.QueueSend: runs from dequeue to requeue as one step; what other threads do in between is in `Delivery.EveryBatchIsAccountedFor`.
- Delivery.NothingIsLost: a batch broken off with the connection still open counts as released, sent or not; replacing a shared queue and shutdown are left out.
- Senders.Sender.WriteBatch: what a stream does inside a write or a flush; a flush may have sent part of what is put back.
- Word-size effects other than those named above, such as the 8-bit failure counts.
