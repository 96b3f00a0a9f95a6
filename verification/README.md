# A verified model of the exporter's collection logic

This project models, in Dafny, how `redis_exporter` turns the replies of a Redis server into metrics, and proves
properties of that model. It covers the parts where a simple statement is met by a complicated implementation: replies
that are pipelined and read back in order, aggregates that are merged batch by batch, a cache that changes between scrapes,
a line-driven interpreter, and the parsers around them.

`dafny verify dfyconfig.toml` checks everything.

## The modules

| modules | what they model |
|---|---|
| `Wrappers`, `Text`, `Sums`, `Metrics` | optional values; Go's string and number routines; sums, flat maps and map iteration orders; samples and the channel |
| `Redis` | the connection: a selected database, commands waiting to be flushed, replies waiting to be read, first in first out, and a log of which exchange each reply read came from |
| `KeyInspection`, `Pipelining`, `Alignment` | the pipelined and the one-at-a-time inspection of keys; the refinement between the two; exactly when replies are read for the commands they answer |
| `KeyReports` | what is reported about one key, told from the replies to its commands |
| `Scan`, `CursorRuns`, `KeyArguments`, `KeyLists` | cursor runs, pattern expansion and key counting; runs and expansions told batch by batch and key by key; the key list arguments and the keys they list |
| `KeyGroups`, `GroupNaming`, `GroupLimits`, `KeyGroupMetrics` | the embedded Lua aggregation, names and charges key by key, the merge of its batches, the limit on distinct groups, conservation |
| `Streams`, `StreamRecords` | stream inspection and the join of not-acknowledged counts; the same from the replies as they are printed |
| `KeyPhase` | the key phase of a scrape, end to end on one connection |
| `Descriptions`, `LabelLists`, `Clients` | the cache of metric descriptions, and the two metrics whose labels vary at run time |
| `Info`, `InfoText`, `Keyspace`, `LatencyJoin`, `EmptyDatabases`, `MultiMaster`, `Replicas`, `CommandRecords`, `InfoLines` | the INFO interpreter and what holds of its output |
| `FieldText` | printed lists of `key=value` fields |
| `LatencyTotals`, `Addresses` | command time totals; client and node addresses |

A server is a function from a database and a command to a reply, so any reply, error replies included, is possible, and the
keyspace does not change during a scrape. The source's loops are methods over a connection, a channel or an exporter, each
proved against a specification function; the laws are lemmas about those functions, for all inputs.

## What the proofs found

- The pipelined path needs TYPE to succeed, not only SELECT. After a failed TYPE the paired MEMORY USAGE reply stays unread
  (keys.go:197-200), and later databases read replies of earlier ones: `Pipelining.RefusedTypeMislabels` reports one
  database's memory under another's label. `Alignment.PipelineAlignedIff` gives the exact condition for reading every reply
  for the command it answers, `Pipelining.PipelineDrainsIff` that for leaving none unread.
- An error that stays unread is returned by the next command, whose own effect takes place all the same. What that costs is
  one count, or the expansion of the streams, or one stream, or the slow log's length, and never a wrong label; the key
  groups come after the slow log and lose nothing (`KeyPhase.RunKeyPhase`).
- The key group memory depends on how SCAN cuts its batches when MEMORY USAGE answers a key with something that is not a
  number, for the script then charges the key before it once more (key_groups.go:162, 176-179).
  `KeyGroups.BatchingIndependenceIff` gives the exact condition; names and counts never depend on the batches
  (`KeyGroups.CountsIgnoreBatching`).
- A kept group that is itself named `overflow` collides with the overflow entry. `KeyGroupMetrics.SeriesCollideIff` gives the
  exact condition on the groups gathered, `KeyGroupMetrics.OverflowCollides` an instance.
- A Replication field such as `slave_repl_offset2` makes the exporter panic: the patterns (info.go:29) match the start of a
  name, and what follows stays in the name that a description is looked up under (`Info.PanicsIff`,
  `Info.SecondOffsetPanics`).
- A Commandstats line that is refused still yields a name, with the calls and time parsed so far, and so can complete a
  latency summary or overwrite an earlier line's numbers (info.go:131-135, 616-621).
- A Latencystats part without exactly one `=` is no error: it counts as percentile 0 with value 0 (info.go:56-59).
- With the role label enabled, registering a labelled metric without values shrinks its labels to the role label
  (`Descriptions.RegisteringBareRelabels`).
- The pattern for command times (latency.go:17) matches a name only if it is made of letters, digits and `|`
  (`LatencyTotals.PrintedLineMatches`), so a command with an underscore or a hyphen has a total of 0, whatever its line says
  (`LatencyTotals.UnmatchedTotal`).

## Model

| member | source | states |
|---|---|---|
| Pipelining.PipelinedRefinesPlain | upstream/exporter/keys.go:128-362 | for every key list (any databases, duplicates allowed), every order in which the key map is iterated and every server whose SELECT and TYPE replies for those keys are no errors, whatever the other replies: the multiset of samples of the pipelined path is that of the one-at-a-time path, each key read in its own database, plus one `key_size` 0 per occurrence of a missing key |
| Pipelining.DbZeroRefinement | upstream/exporter/keys.go:364-385 | the same against the one-at-a-time path as it is written, for keys of database 0: it runs no SELECT and labels everything db0 |
| Pipelining.PipelineDrainsIff | upstream/exporter/keys.go:151-219 | from an idle connection, the pipelined path leaves no reply unread if and only if every key's SELECT and TYPE succeed; then every reply read belongs to the command, key and database it is taken for, whatever errors the other commands return |
| Pipelining.DatabaseDrainsIff | upstream/exporter/keys.go:155-218 | the same for one database with at least one key: nothing left unread if and only if its SELECT and all its TYPEs succeed |
| Pipelining.DatabasePassAligned | upstream/exporter/keys.go:155-218 | a database with working SELECT and TYPEs ends with that database selected, nothing unread, every read aligned, and exactly the samples the server's replies call for |
| Pipelining.DatabasePassPending | upstream/exporter/keys.go:155-218 | whatever the replies, a database never reads more replies than it asked for: the unread ones do not get fewer |
| Pipelining.ReadTypesAligned | upstream/exporter/keys.go:193-212 | when no TYPE fails, the first reading loop consumes exactly the 2n replies of the first pipeline, pairs each with its key, and yields the keys' types and memory samples |
| Pipelining.ReadInfoAligned | upstream/exporter/keys.go:302-361 | the second reading loop consumes exactly the 0, 1 or 3 replies per key that the second sending loop asked for, whatever the mix of types and errors |
| Pipelining.InfoAgrees | upstream/exporter/keys.go:302-361 | per key, the pipelined second round emits what `getKeyInfo` emits, and a size of 0 besides when the key is missing |
| Pipelining.ReportsOwnDatabase | upstream/exporter/keys.go:151-219 | two servers that agree on one database, and on nothing else but that SELECT and TYPE work, get the same number of each sample labelled with that database, in whatever order databases are visited and whichever was selected before |
| Pipelining.RefusedTypeMislabels | upstream/exporter/keys.go:197-200 | where TYPE fails the pairing is lost: with one refused TYPE in database 1, database 2's memory usage is reported under database 3, a sample the one-at-a-time path never emits |
| Alignment.PipelineAlignedIff | upstream/exporter/keys.go:151-219 | for every server, every key list and every order of visiting the databases, from an idle connection: every reply is read for the command, key and database it answers if and only if no database but the last visited is refused a SELECT or a TYPE, and the last one is refused its SELECT, or no TYPE, or only the TYPE of its last key with nothing to send in the second pipeline |
| Alignment.EveryOrderAlignedIff | upstream/exporter/keys.go:151-219 | with two databases or more, all reads are aligned in every order if and only if no key is refused its SELECT or TYPE |
| Alignment.OneDatabaseAlignedIff | upstream/exporter/keys.go:151-219 | with a single database, if and only if its SELECT is refused, or none of its TYPEs is, or only that of the last key is and no second round follows |
| Alignment.DatabaseAlignedIff | upstream/exporter/keys.go:155-218 | the same condition for one database visited from an idle connection |
| Alignment.NextMisreads | upstream/exporter/keys.go:184-187 | whatever a database leaves unread, the next one takes for its SELECT reply |
| Alignment.RefusedAtEndLeaves | upstream/exporter/keys.go:197-200 | after the one harmless refusal exactly one reply is left, that of MEMORY USAGE, and the next command is given an error if and only if that reply is one |
| Alignment.AlignedReportsOwn | upstream/exporter/keys.go:151-219 | whenever every reply is read for the command it answers, harmless refusals included, the samples are those of the one-at-a-time path, each key read in its own database, for the keys whose database can be selected, and a size of 0 per missing one |
| KeyInspection.ExtractPipelined | upstream/exporter/keys.go:128-220 | the method over the connection ends in the state, and with the samples, of the specification run, for some order listing each database once |
| KeyInspection.InspectDatabases | upstream/exporter/keys.go:151-219 | the loop over databases, for a given iteration order of the key map |
| KeyInspection.InspectDatabase | upstream/exporter/keys.go:151-219 | one database: SELECT and the first pipeline are shipped, the SELECT reply is read, and only when it is a string the keys are inspected |
| KeyInspection.GroupByDatabase | upstream/exporter/keys.go:139-149 | the key map has exactly the databases named, each with its keys in list order, duplicates kept |
| KeyInspection.SendTypes | upstream/exporter/keys.go:155-181 | SELECT, then TYPE and MEMORY USAGE per key, are flushed in this order |
| KeyInspection.ReceiveTypes | upstream/exporter/keys.go:193-212 | reads two replies per key, but only one after a failed TYPE; yields the types and emits the memory samples |
| KeyInspection.SendInfo | upstream/exporter/keys.go:223-300 | sends PFCOUNT, STRLEN and GET for a string, one size command for the six other known types, nothing for missing and unknown types, then flushes |
| KeyInspection.ReceiveInfo | upstream/exporter/keys.go:302-361 | reads the replies key by key as the types say and emits value and size samples |
| KeyInspection.ReceiveKeyInfo | upstream/exporter/keys.go:302-361 | one key: PFCOUNT wins over STRLEN, the value sample only for a plain string, a size of 0 for a missing key, nothing after a failed reply or for an unknown type |
| KeyInspection.GetKeyInfoPipelined | upstream/exporter/keys.go:222-362 | both loops: the connection and channel end as the specification of the second pipeline says |
| KeyInspection.ExtractNotPipelined | upstream/exporter/keys.go:364-385 | emits, key by key and in list order, the samples of the key read in the selected database and labelled db0, and leaves the selected database and an idle connection behind |
| KeyInspection.ExtractOneNotPipelined | upstream/exporter/keys.go:368-383 | one key: nothing when TYPE fails, else the memory sample if there is one and then the key's own samples |
| KeyInspection.GetKeyInfo | upstream/exporter/keys.go:40-88 | the samples of a key by its type; nothing for missing keys, unknown types and failed sizes |
| KeyInspection.GetStringInfo | upstream/exporter/keys.go:20-38 | the value, and type and size: HLL with PFCOUNT's size if that works, else string with STRLEN's, else nothing |
| KeyReports.MeasuredKey | upstream/exporter/keys.go:51-88 | each of the types list, set, zset, hash, stream and array is measured by LLEN, SCARD, ZCARD, HLEN, XLEN and ARCOUNT: from the replies to TYPE, MEMORY USAGE and that command, the one-at-a-time path emits exactly the memory sample, if there is one, and the size, with database and key as labels; where the key is read and labelled alike, the two rounds of the pipelined path emit the same |
| KeyReports.UnmeasuredKey | upstream/exporter/keys.go:72-75 | when that command is refused only the memory is reported, on both paths |
| KeyReports.UnknownKey | upstream/exporter/keys.go:68-75 | of any other type but string only the memory is reported, on both paths |
| KeyReports.MissingKey | upstream/exporter/keys.go:309-311 | about a missing key the one-at-a-time path emits nothing and the pipelined path a size of 0 |
| KeyReports.UntypedKey | upstream/exporter/keys.go:370-374 | after a refused TYPE nothing is said about a key, not even its memory |
| KeyReports.StringKey | upstream/exporter/keys.go:20-38 | a plain string, from its replies: the size STRLEN gives, and the value, as a number if it parses, else as a label, nothing for an empty text or where values are disabled; on both paths the same samples |
| KeyReports.StringRound | upstream/exporter/keys.go:313-361 | in the pipelined second round the value comes before the size |
| KeyReports.HyperLogLogKey | upstream/exporter/keys.go:20-27 | where PFCOUNT gives a number it is the size, and no value is reported, whatever STRLEN and GET answer |
| KeyReports.LengthlessKey | upstream/exporter/keys.go:28-32 | a string without either length has only its memory reported, on both paths |
| KeyReports.ClusterLabel | upstream/exporter/keys.go:364-385 | in cluster mode a key is read where it is and labelled db0; elsewhere it is read in and labelled with its own database |
| KeyReports.Conversions | upstream/exporter/keys.go:20-73 | as the client library converts replies: a printed number and an integer are numbers, both kinds of string are text |
| KeyReports.NotConverted | upstream/exporter/keys.go:20-73 | every other kind of reply, and text that is no number, is an error |
| Redis.Conn.Do | upstream/exporter/redis.go:142-150 | a command executed at once: it is shipped, every outstanding reply is read, and the first error among them, else the command's own reply, is returned and recorded as what was read |
| Redis.DoDrains | upstream/exporter/redis.go:142-150 | from any connection with nothing unshipped: it ends idle, the command runs in the selected database, and its own reply is returned exactly when no error was left unread |
| Redis.Conn.SelectDatabase | upstream/exporter/keys.go:394-398 | SELECT reports success exactly when the database can be selected and no error was left unread; the database is selected either way if it can be |
| Redis.DoWhenIdle | upstream/exporter/redis.go:142-150 | on an idle connection that is one request and its own reply, in the selected database |
| Redis.ExecuteSelected | upstream/exporter/keys.go:155-181 | a pipeline that starts with a successful SELECT runs all the rest in the database it names, whichever was selected before |
| Scan.ScanKeys | upstream/exporter/keys.go:498-522 | returns the batches of the cursor run joined in order, or an error for an empty pattern, a failed or malformed reply; a cursor out of range counts as the clamped number, one that is no number as 0; the loop ends with the run; only its own replies are read |
| Scan.ExpandGlob | upstream/exporter/keys.go:432-443 | from any connection: selects the pattern's database and returns its matches tagged with that database, nothing when SCAN fails or an element is no string; fails when SELECT does or an error was left unread |
| Scan.GetKeysFromPatterns | upstream/exporter/keys.go:428-450 | from any connection: the order-preserving flat map that keeps literal keys and replaces each pattern by its matches in its own database; it fails if and only if some pattern's SELECT fails, or there is a pattern and an error was left unread, and then returns what was expanded before the first such pattern |
| Scan.CountKey | upstream/exporter/keys.go:394-406 | one entry, from any connection: `keys_count` is the number of elements its cursor run returned in its own database, nothing when SELECT or SCAN fails or an error was left unread |
| Scan.ExtractCountKeys | upstream/exporter/keys.go:387-407 | one `keys_count` per entry whose SELECT and SCAN succeed, in list order; an error left unread costs the first entry and nothing else |
| Scan.KeysCountBounds | upstream/exporter/keys.go:387-419 | given SCAN's guarantee that every key present throughout is returned, the one `keys_count` emitted is at least the number of matches, and equal to it if and only if SCAN returned only matches and none twice |
| CursorRuns.CursorRead | upstream/exporter/keys.go:516 | a printed cursor is read back as its number, clamped at the largest 64-bit integer; text that is no number is 0 |
| CursorRuns.RunReturnsAll | upstream/exporter/keys.go:498-522 | whatever the cursors of a run (0 first, then never 0 until the last reply) and its batches: against a server that answers each cursor with the printed next one and a batch, the run ends and returns all batches joined in order, or an error for an empty pattern |
| CursorRuns.RunFails | upstream/exporter/keys.go:503-514 | a run whose last reply is an error or no pair returns nothing, however many batches came before |
| CursorRuns.ScriptReturnsAll | upstream/exporter/key_groups.go:204-238 | the same for the key group script: it is run until its printed cursor is 0, and every batch is gathered |
| CursorRuns.PatternIff | upstream/exporter/keys.go:425 | a key is a pattern exactly when it has one of the five characters `? * [ ] ^` |
| CursorRuns.LiteralKept | upstream/exporter/keys.go:433-437 | a key with none of them stays as it is |
| CursorRuns.PatternExpanded | upstream/exporter/keys.go:432-443 | a pattern is replaced by all keys of all batches of its run: as many, in order, entry i being key i in the database of the pattern |
| CursorRuns.StringsAt | upstream/exporter/keys.go:438 | a list of replies is a list of text exactly when each is either kind of string or nil, which counts as the empty text |
| CursorRuns.PatternDropped | upstream/exporter/keys.go:438-442 | an element that is no text, or a reply of the run that is no pair, leaves nothing of a pattern, and the expansion goes on |
| CursorRuns.ExpandedInOwn | upstream/exporter/keys.go:438-442 | whatever the replies, every key that an entry expands to has that entry's database |
| CursorRuns.ExpandedInSome | upstream/exporter/keys.go:428-450 | every key of an expanded list has the database of the entry it comes from |
| CursorRuns.PatternCounted | upstream/exporter/keys.go:387-419 | `keys_count` of a pattern is the number of keys in all batches of its run, labelled with its own database and text |
| KeyArguments.KeyArgRoundTrip | upstream/exporter/keys.go:453-494 | printing any list of (database, non-empty key) pairs as `db<N>=<escaped key>` joined by commas and parsing it returns the same list in the same order |
| KeyArguments.ParseKeyArg | upstream/exporter/keys.go:453-494 | succeeds if and only if no part is bad, and then returns the parts' pairs in order; on any input, error or not, every returned pair has a non-empty key and a database that parses as a non-negative 64-bit number |
| KeyArguments.ParseParts | upstream/exporter/keys.go:458-492 | stops at the first bad part and returns the pairs before it |
| KeyArguments.PrintedPart | upstream/exporter/keys.go:471-491 | one printed pair parses to itself and contains no comma |
| KeyArguments.UnescapeEscape | upstream/exporter/keys.go:468-471 | unescaping inverts escaping on all byte strings |
| KeyLists.CheckedAreListed | upstream/exporter/keys.go:90-112 | for the options printed from any two lists of keys: what is inspected is the single keys as listed, then what the others expand to, each in the database of a listed key |
| KeyLists.StreamsAreListed | upstream/exporter/streams.go:302-321 | the same for the two stream options |
| KeyLists.CountedAreListed | upstream/exporter/keys.go:387-392 | the counted keys are those of the option, in order, with their databases |
| KeyLists.FailedExpansion | upstream/exporter/keys.go:104-112 | where the SELECT of a listed pattern fails exactly the single keys are inspected |
| KeyLists.BareKey | upstream/exporter/keys.go:464-468 | a key without a database is of database 0 |
| KeyLists.SpacedPair | upstream/exporter/keys.go:471-491 | white space around both sides of a pair is dropped, and the `db` before the number |
| KeyLists.DatabaseNames | upstream/exporter/keys.go:470 | every `db` in the first side is dropped, but not one that dropping others leaves behind |
| KeyLists.EmptySides | upstream/exporter/keys.go:479-484 | a pair with an empty side is skipped, and so is an empty part |
| KeyLists.RefusedPairs | upstream/exporter/keys.go:465-489 | a negative database, one that is no number and a second `=` are errors |
| KeyLists.EscapesPrinted | upstream/exporter/keys.go:468-471 | the escapes of a key, byte by byte: letters, digits and four others as they are, a blank as `+`, all others as `%` and two hexadecimal digits, which are read in either case; a broken escape is an error |
| KeyLists.OptionPrinted | upstream/exporter/keys.go:458 | the option of two keys: the one, a comma, the other |
| KeyGroups.BatchingIndependenceIff | upstream/exporter/key_groups.go:161-201 | every way of splitting a key sequence into batches gives the groups of a single pass, in which each key is charged its own usage, if and only if no reply that is not a number follows, in the sequence, a last number other than 0 |
| KeyGroups.NumericRepliesNeverStale | upstream/exporter/key_groups.go:176-179 | with numbers throughout that condition holds |
| KeyGroups.BatchedIsSinglePass | upstream/exporter/key_groups.go:204-238 | the merge of the per-batch tables is the single pass's map, under that condition |
| KeyGroups.StaleShows | upstream/exporter/key_groups.go:162-179 | where the condition fails, splitting one batch right before the last stale key gives different groups |
| KeyGroups.CountsIgnoreBatching | upstream/exporter/key_groups.go:191-233 | any two ways of splitting the same keys into batches give the same group names and the same counts, whatever the usage replies |
| KeyGroups.ClassifyKey | upstream/exporter/key_groups.go:180-190 | the captures of the first pattern that matches, concatenated; `unclassified` exactly when none matches |
| GroupNaming.ConcatAppend | upstream/exporter/key_groups.go:184 | joining captures turns concatenation of lists into concatenation of text |
| GroupNaming.NamedByFirstMatch | upstream/exporter/key_groups.go:180-190 | the group of a key is exactly the captures of the first pattern that matches, in order: capture i stands right after those before it, and nothing else is in the name |
| GroupNaming.NamedUnclassified | upstream/exporter/key_groups.go:180-190 | a key that no pattern matches is in `unclassified` |
| GroupNaming.TwoCaptures | upstream/exporter/key_groups.go:180-190 | an instance: `user:42` under a pattern with two captures is in `user42` |
| GroupNaming.ChargedKeyByKey | upstream/exporter/key_groups.go:162-179 | the charge of each key of a batch: its own usage when that is a number, else the charge of the key before it, 0 for the first |
| GroupNaming.NothingStaleMeans | upstream/exporter/key_groups.go:162-179 | the condition of `BatchingIndependenceIff` from the replies alone: every number that is directly followed by a reply that is none is 0, however many such replies follow |
| KeyGroups.AggregateBatch | upstream/exporter/key_groups.go:161-197 | the script's table: per group, how many keys and the sum of their charges, a charge being the key's numeric usage, else the one carried over from the key before, 0 at the start of a batch |
| KeyGroups.RunScript | upstream/exporter/key_groups.go:198-201 | each group of the table as one row, in some order |
| KeyGroups.MergeRows | upstream/exporter/key_groups.go:216-233 | adds the rows of a batch to the map group by group, whatever their order |
| KeyGroups.GatherKeyGroups | upstream/exporter/key_groups.go:149-239 | returns the tally of the charges of all batches of the cursor run, or an error when a run of the script fails; only its own replies are read and the selected database stays |
| KeyGroups.TallyConcat | upstream/exporter/key_groups.go:216-233 | the tally of two lists of charges is the sum of their tallies |
| GroupLimits.BeforeIsStrictTotalOrder | upstream/exporter/key_groups.go:121-129 | the comparator is irreflexive, asymmetric and transitive, and decides any two entries with different names |
| GroupNaming.RankedBy | upstream/exporter/key_groups.go:121-129 | the more memory comes first, then the fewer keys, then the name |
| GroupNaming.NamesCompared | upstream/exporter/key_groups.go:128 | names are compared at the first place where they differ, and a proper beginning of a name comes before it |
| GroupLimits.SortedUnique | upstream/exporter/key_groups.go:121-129 | any two sortings of the same entries are equal |
| GroupLimits.RankingUnique | upstream/exporter/key_groups.go:116-129 | the ranking, and so the kept groups, is a function of the map alone, whatever its iteration order and the sorting algorithm |
| GroupLimits.SortEntriesSorts | upstream/exporter/key_groups.go:121-129 | sorting yields a sorted permutation |
| GroupLimits.OverflowIsLeast | upstream/exporter/key_groups.go:130-137 | no other choice of K groups leaves less memory to be folded |
| GroupLimits.KeptAtLeastFolded | upstream/exporter/key_groups.go:130-137 | every kept group uses at least as much memory as every folded one |
| GroupLimits.EntriesOf | upstream/exporter/key_groups.go:117-120 | lists every group of the map once |
| GroupLimits.Overflow | upstream/exporter/key_groups.go:130-142 | the overflow entry sums the counts and the memory of the folded groups |
| GroupLimits.ApplyLimit | upstream/exporter/key_groups.go:116-144 | folds exactly when there are more groups than the limit: keeps the first K of the ranking, folds the others, and records the number of groups |
| KeyGroupMetrics.SamplesConserve | upstream/exporter/key_groups.go:38-69 | for every limit, the emitted counts of a database gathered without error sum to the keys SCAN returned, the emitted memory sums to the memory gathered, and the gauge is the number of groups |
| KeyGroupMetrics.EntriesConserve | upstream/exporter/key_groups.go:115-144 | n groups are shown as n entries when n is within the limit K and as K + 1 otherwise, with the same sums |
| KeyGroupMetrics.SeriesCollideIff | upstream/exporter/key_groups.go:38-69 | two samples emitted for a database are of the same metric with the same labels if and only if there are more groups than the limit K, one of the groups gathered is itself named `overflow`, and fewer than K groups are ahead of it |
| KeyGroupMetrics.OverflowCollides | upstream/exporter/key_groups.go:115-144 | an instance: a pattern that captures the whole key, the keys `overflow` and `other`, and a limit of 1 give two entries of the same name |
| KeyGroupMetrics.PositionIsRank | upstream/exporter/key_groups.go:121-129 | a group's position in the ranking is the number of gathered groups that the comparator puts ahead of it |
| KeyGroupMetrics.NoChoiceFoldsLess | upstream/exporter/key_groups.go:130-142 | for every K group names of the map one might keep, the groups of the other names have at least the memory that the overflow entry shows |
| KeyGroupMetrics.ListedSums | upstream/exporter/key_groups.go:216-233 | the groups of any list of charges hold every key and every amount exactly once |
| KeyGroupMetrics.GatherDatabase | upstream/exporter/key_groups.go:105-145 | from any connection: a database's outcome depends on its own batches alone: skipped when SELECT or the script fails or an error was left unread, else its groups, limited when there are too many |
| KeyGroupMetrics.GatherAllDatabases | upstream/exporter/key_groups.go:73-147 | the same for each of the databases 0 to n-1, nothing at all without patterns; an error left unread costs database 0 and no other |
| KeyGroupMetrics.EmitEntries | upstream/exporter/key_groups.go:40-55 | two samples per entry, in order |
| KeyGroupMetrics.EmitOutcome | upstream/exporter/key_groups.go:56-68 | the kept entries and the overflow, or all groups in some order, then the gauge; nothing for a skipped database |
| Streams.GetStreamInfo | upstream/exporter/streams.go:53-85 | fails exactly when the stream cannot be decoded or the group scan fails; else fields and groups are those of the scan, in scan order, and a group is marked available if and only if the FULL reply was fetched and parses and has an entry with its name and a count, the value being that of the last such entry |
| Streams.JoinCounts | upstream/exporter/streams.go:73-79 | the in-place update changes nothing of a group but its count and the mark |
| Streams.ParseNackedCounts | upstream/exporter/streams.go:172-217 | succeeds if and only if the first `groups` value is a list of which every entry parses; then maps each name to the count of the last entry that has a non-empty name and a count |
| Streams.SomeLastCounting | upstream/exporter/streams.go:211-213 | a name that some entry counts for has a last such entry, so its value is determined |
| Streams.ParseNackedEntry | upstream/exporter/streams.go:192-210 | the last name and the last count of an entry; an error as soon as one does not convert |
| Streams.FindGroupsValue | upstream/exporter/streams.go:174-185 | the first `groups` value; an empty list without one, an error when it is no list |
| Streams.ScanNackedCounts | upstream/exporter/streams.go:164-170 | one FULL call, whose failure is an error |
| Streams.ScanStreamGroups | upstream/exporter/streams.go:131-162 | decodable groups in order, undecodable ones skipped; a failed consumer call fails the scan |
| Streams.ScanStreamGroupConsumers | upstream/exporter/streams.go:219-246 | decodable consumers in order, undecodable ones skipped |
| StreamRecords.EntryRead | upstream/exporter/streams.go:187-214 | an entry with a name and a count, and any other fields before, between and after them, counts that for the name |
| StreamRecords.EntryWithout | upstream/exporter/streams.go:187-214 | an entry without a count counts for nothing; a count that is no number or a name that is no text is an error |
| StreamRecords.GroupsFound | upstream/exporter/streams.go:172-185 | the entries are the value of the first field `groups`, whatever fields stand before it |
| StreamRecords.GroupsMissing | upstream/exporter/streams.go:172-185 | without such a field there are no entries, and no error |
| StreamRecords.GroupMarked | upstream/exporter/streams.go:73-79 | a group is marked exactly when the FULL reply prints its name, with the count it prints last for it, an empty name never; nothing else of the group changes |
| StreamRecords.GroupsScanned | upstream/exporter/streams.go:131-162 | when every item can be decoded each group is its own item, with the consumers its own call returned |
| StreamRecords.ConsumersScanned | upstream/exporter/streams.go:219-246 | when every item can be decoded the consumers are the items, in order |
| StreamRecords.UndecodedSkipped | upstream/exporter/streams.go:138-145 | an item that cannot be decoded is left out of groups and consumers alike |
| StreamRecords.DescribedBy | upstream/exporter/streams.go:53-85 | the fields are those of the stream's own reply, the entries those of its FULL reply, and a stream that cannot be decoded is not described |
| StreamRecords.NoFullReply | upstream/exporter/streams.go:73-79 | a FULL call that returns no list marks no group |
| StreamRecords.Undescribed | upstream/exporter/streams.go:53-71 | a stream or group call that returns no list leaves the stream undescribed |
| KeyPhase.RunKeyPhase | upstream/exporter/exporter.go:968-987 | over every key phase outside cluster mode, for every server and from any selected database: after the checked keys every reply read ran in the database meant and answers the command meant, except that the first command may be given an error the checked keys left unread; counts, streams and key groups are functions of the replies of the databases their labels name, not of the database selected before or of the visiting order; the checked keys are so too whenever their replies are read for the commands they answer, of which the exact condition is given |
| KeyPhase.InspectNamed | upstream/exporter/exporter.go:975-982 | counts, streams and slow log from any connection: an error left unread costs the first count, or without counts the stream expansion, or without patterns the first stream, or without streams the slow log's length, never two of them, and nothing that comes later |
| KeyPhase.ExtractCheckKeys | upstream/exporter/keys.go:90-126 | nothing when an argument does not parse; else the single keys and the expanded ones, or the single keys alone when the expansion fails, are inspected: all reads are aligned if and only if the condition of Alignment.PipelineAlignedIff holds, and then the samples are those of each key read in its own database, for the keys whose database can be selected; nothing is left unread if and only if no SELECT or TYPE is refused |
| KeyPhase.ExpandKeys | upstream/exporter/keys.go:104-112 | single keys first, then the expansion, dropped as a whole when a SELECT fails or, where there is a pattern, an error was left unread |
| KeyPhase.ExtractCounts | upstream/exporter/keys.go:387-407 | the counts of the parsed list, nothing when it does not parse; the connection stays as it is when there is nothing to count |
| KeyPhase.ExtractStream | upstream/exporter/streams.go:324-336 | a stream's samples are made of what its own database says, nothing when SELECT or a call fails or an error was left unread |
| KeyPhase.ExtractStreams | upstream/exporter/streams.go:302-337 | the streams named and expanded, each described by its own database, in order; an error left unread costs the expansion where there is one, else the first stream |
| KeyPhase.StreamLabelled | upstream/exporter/streams.go:324-336 | a described stream adds its own samples, rendered with its own database and key, after those of the streams before it; an undescribed one adds none |
| KeyPhase.ExtractSlowLog | upstream/exporter/slowlog.go:8-36 | its first command always runs and reads whatever is left unread, so nothing after it is given another's error; length, newest id and newest duration are emitted, the length missing when its reply is an error or is lost |
| KeyPhase.SlowLogRead | upstream/exporter/slowlog.go:8-36 | from the replies: the length, the newest entry's id, and its duration, printed in microseconds and reported in seconds |
| KeyPhase.SlowLogEmpty | upstream/exporter/slowlog.go:8-36 | without entries id and duration are 0; a refused reply says nothing |
| KeyPhase.ExtractKeyGroups | upstream/exporter/key_groups.go:33-71 | all databases are gathered before any sample is emitted; each one's samples come from its own outcome; from any connection, an error left unread costs database 0 and no other |
| KeyPhase.GroupLabelled | upstream/exporter/key_groups.go:38-69 | every sample about key groups is labelled with the database whose outcome it is made of |
| Descriptions.RunKeepsCoherent | upstream/exporter/metrics.go:149-176 | after any sequence of calls from a coherent state, each name's recorded labels are those its description was built with, and no name is lost |
| Descriptions.ConstructedCoherent | upstream/exporter/exporter.go:550-702 | the constructed state is coherent and describes exactly the names of the table |
| Descriptions.LabelsAreLastAsked | upstream/exporter/metrics.go:157-176 | after any calls, a name's labels are the last label set asked for under it, an empty one counting only for a name that has none |
| Descriptions.RegisterOutcome | upstream/exporter/metrics.go:102-147 | after any calls: a gauge or counter is sent exactly when its number of values is that of the labels last asked for, and panics exactly for a name never described; summaries and histograms are sent on the same terms and panic otherwise |
| LabelLists.FirstDescribed | upstream/exporter/metrics.go:157-176 | a metric described for the first time has the labels asked for and, with the option on, `instance_role` after them, except the two collected before the role is known |
| LabelLists.RegisteredWith | upstream/exporter/metrics.go:102-120 | a described metric is sent with its values and, in the same cases, the role after them, or dropped when the number is not that of its labels |
| LabelLists.SummaryWith | upstream/exporter/metrics.go:122-147 | summaries and histograms have the role appended whatever their name, and panic instead |
| LabelLists.BareRegistered | upstream/exporter/metrics.go:102-120 | a metric registered without labels or description is described and sent at once |
| LabelLists.ConstructedWith | upstream/exporter/exporter.go:550-702 | the constructor appends the role label to every entry of the table, those two included |
| Descriptions.CreatedThenRegistered | upstream/exporter/metrics.go:102-176 | from the constructed state, after any calls: create with non-empty labels, then any calls that do not relabel the name, then register as many values: the sample is sent with those labels, role label on or off |
| Descriptions.RegisteringBareRelabels | upstream/exporter/metrics.go:102-120 | with the role label on, registering without values does relabel: the next sample with the old values is dropped |
| Descriptions.Exporter.constructor | upstream/exporter/exporter.go:550-702 | fills both maps from the table, the role label appended to every entry when the option is on |
| Descriptions.Exporter.CreateMetricDescription | upstream/exporter/metrics.go:157-176 | the new cache, coherent again, and the description now found under the name |
| Descriptions.Exporter.RegisterConstMetric | upstream/exporter/metrics.go:102-120 | the new cache, the outcome, and the metric sent if there is one |
| Descriptions.Exporter.MustRegister | upstream/exporter/metrics.go:122-147 | the outcome, and the metric sent if there is one; the cache stays |
| Descriptions.Exporter.CreateAndRegister | upstream/exporter/info.go:217-218 | creating with labels and registering one value per label always sends exactly one metric |
| Descriptions.Exporter.RegisterInstanceInfo | upstream/exporter/info.go:185-218 | exactly one `instance_info` is sent, each label with its own value, whichever optional fields are present and whatever labels the last scrape used |
| Descriptions.Exporter.RegisterClientInfo | upstream/exporter/clients.go:166-189 | exactly one `connected_client_info` is sent, each label with its own value |
| LabelLists.InstanceInfoLabels | upstream/exporter/info.go:185-218 | the labels of `instance_info`, written out: ten always, the two Valkey ones when their fields are there, the availability zone when it is not empty |
| LabelLists.InstanceInfoValues | upstream/exporter/info.go:185-218 | each has the value recorded under its own name, the mode that of `server_mode` when it has none |
| LabelLists.ClientInfoLabels | upstream/exporter/clients.go:166-189 | the labels of `connected_client_info`, written out: five always, the port when asked for, user and protocol when not empty |
| LabelLists.ClientInfoValues | upstream/exporter/clients.go:166-189 | each has the value of its own field of the client |
| LabelLists.SentWith | upstream/exporter/metrics.go:102-120 | what is sent has those names as labels and those values beside them, and the role after both with the option on |
| Clients.ParseConnectedClients | upstream/exporter/clients.go:158-189 | every line that parses, and no other, gets its one sample with its own labels and values, in order, however label sets differ from line to line |
| Clients.ParseClientListString | upstream/exporter/clients.go:51-139 | refuses a line that does not start with an id and an address, else reads its parts |
| Clients.ClientLineIff | upstream/exporter/clients.go:14 | a line is a client's if and only if it is `id=`, digits, ` addr=`, a character that is no blank, and any rest |
| Clients.ParseFields | upstream/exporter/clients.go:58-136 | the field loop: stops at the first part that cannot be used |
| Clients.FieldByField | upstream/exporter/clients.go:58-138 | a line's parts are refused if and only if some part has not exactly one `=`, an age is no number or an address has no colon; else each label has the value of the last part with its key, host and port those of the last address |
| Clients.ClientRoundTrip | upstream/exporter/clients.go:51-139 | printing an id, an address and any further fields, in any order, repeated or not, and parsing the line returns the last value of each label, or refuses it on exactly those conditions |
| Clients.ClientRead | upstream/exporter/clients.go:51-139 | a client printed by its fields, each once, with others among them and in any order after id and address, is read back field by field: host and port from `addr`, whatever its ages |
| Clients.ClientPrinted | upstream/exporter/clients.go:51-60 | an instance of a printed line, letter by letter |
| Addresses.HostPortRebuilds | upstream/exporter/clients.go:125-132 | an address is accepted if and only if it has a colon; then host, colon and port rebuild it and the port has no colon, so IPv6 hosts survive |
| Addresses.HostPortPrinted | upstream/exporter/clients.go:125-132 | printing any host and a port without a colon and splitting returns both |
| Addresses.NodeRoundTrip | upstream/exporter/nodes.go:36-56 | printing a node line from ip, digit ports and optional host name and parsing it returns ip:port, or hostname:port exactly when asked for and present |
| Addresses.PrintedAddress | upstream/exporter/nodes.go:11 | the pattern recovers ip, port and host name of a printed address, colons in the ip and in the host name notwithstanding |
| Addresses.GetClusterNodes | upstream/exporter/nodes.go:13-30 | the lines that parse, in order |
| Keyspace.ParseDBKeyspaceString | upstream/exporter/info.go:282-326 | refused unless the key starts with `db`, every part has an `=`, both required fields are present and every value used parses; else the measured definitions in table order |
| Keyspace.CollectFields | upstream/exporter/info.go:290-298 | the last value of each field, refused when a part has no `=` |
| Keyspace.FindValue | upstream/exporter/info.go:301-307 | the value under the first spelling that is present |
| Keyspace.MeasureFields | upstream/exporter/info.go:300-323 | one metric per definition found, refused at the first missing required or unparseable one |
| Keyspace.FieldMapMembers | upstream/exporter/info.go:290-298 | for distinct names, the map holds exactly the printed pairs |
| Keyspace.FieldOrderIrrelevant | upstream/exporter/info.go:290-325 | for distinct names, every permutation of the fields gives the same verdict and the same metrics |
| Keyspace.PrintedOrderIrrelevant | upstream/exporter/info.go:282-326 | the same on the printed text |
| Keyspace.AcceptedShape | upstream/exporter/info.go:273-325 | accepted output starts with `db_keys` and `db_keys_expiring`, follows the table and has each name at most once, so one expiring-items metric even with both spellings |
| Keyspace.AcceptedSays | upstream/exporter/info.go:282-326 | a line is accepted if and only if its name starts with `db`, every part has an `=`, and every definition finds a number, or nothing where it is optional; then for each definition the metrics hold its number, scaled, or nothing of its name |
| Keyspace.AcceptedValues | upstream/exporter/info.go:300-323 | the first two metrics of an accepted line are the numbers of its last `keys` and `expires` |
| Keyspace.FieldMapLast | upstream/exporter/info.go:290-298 | the fields exist if and only if every part has an `=`, and are the last ones of each name |
| Keyspace.PrintedDatabase | upstream/exporter/info.go:282-326 | a printed `keys=a,expires=b` gives exactly the numbers a and b |
| Keyspace.RedisSpellingWins | upstream/exporter/info.go:278-279 | when both spellings are present the Redis one is used |
| InfoLines.AverageTtl | upstream/exporter/info.go:276 | `db_avg_ttl_seconds` is a thousandth of the last `avg_ttl`, and absent exactly without one |
| InfoLines.CachedKeys | upstream/exporter/info.go:277 | `db_keys_cached` is the last `cached_keys`, and absent exactly without one |
| InfoLines.ExpiringItems | upstream/exporter/info.go:278-279 | `db_keys_with_expiring_items` is the last `subexpiry`, without one the last `keys_with_volatile_items`, and absent exactly without both |
| Info.ExtractInfoMetrics | upstream/exporter/info.go:73-228 | for every text: it panics if and only if some Replication field has a name that no description is found under; otherwise it gives the samples of the line loop in order, the padding when enabled, the replica's `slave_info`, one summary per joined command, and as role the last one named |
| Info.InterpretLines | upstream/exporter/info.go:80-169 | the line loop ends in the state of the specification, or stops at the first line that panics |
| Info.PanicsIff | upstream/exporter/info.go:381-391 | for every text: the run panics if and only if the name of some Replication field is matched by a direct pattern, not by that of a link status, and neither ends in a known suffix nor is the replication offset's; otherwise every line is interpreted |
| Info.SecondOffsetPanics | upstream/exporter/info.go:29 | an instance: a field `slave_repl_offset2` under Replication |
| InfoText.InterpretEnded | upstream/exporter/info.go:81-97 | for every text, carriage returns at the ends of any of its lines change nothing |
| Info.StepLine | upstream/exporter/info.go:84-162 | one line: a header changes the section, a field is recorded, may move the current master, and goes to its section's handler, which may panic |
| Info.HandleReplication | upstream/exporter/info.go:371-412 | link status, direct fields and connected replicas, the first two under the current master's labels; no description is found exactly for a direct name that neither ends in a known suffix nor is the replication offset's; a dropped parse error counts as the value that comes with it |
| Info.HandleSlave | upstream/exporter/info.go:332-369 | something is emitted if and only if the name is numbered, every part has exactly one `=`, the offset is a number and the lag is one or is missing: then the offset and, when above -1, the lag, under the last ip, port and state given |
| Replicas.ReplicasRoundTrip | upstream/exporter/info.go:371-412 | printing any list of replicas as a Replication section, each one's fields in any order, with or without carriage returns, and interpreting the text does not panic and emits each replica's offset and lag, in order, under its own ip, port and state |
| Replicas.ReplicaStep | upstream/exporter/info.go:394-409 | one printed replica, from any state within the section |
| Replicas.NotAMaster | upstream/exporter/info.go:24-37 | no master pattern matches a replica's name |
| Info.CollectSlaveFields | upstream/exporter/info.go:337-345 | refused if and only if some part has not exactly one `=`; else the map has exactly the names of the parts, each with the value of its last part |
| Info.HandleLatencyStats | upstream/exporter/info.go:539-588 | accepted if and only if the name has the prefix and no part has exactly one `=` with a side that is empty or no number; then the command is the rest of the name, and each percentile given maps to the value of the last part that gives it, a part without exactly one `=` counting as 0 at 0 |
| Info.CollectPercentiles | upstream/exporter/info.go:579-586 | the same condition and the same map for a list of parts |
| Info.GenerateSummaries | upstream/exporter/info.go:230-239 | exactly one summary for each command in all three maps, in some order |
| Info.PadDatabases | upstream/exporter/info.go:175-183 | zeros for each configured database not handled, in order |
| InfoLines.SectionsPrinted | upstream/exporter/info.go:84-97 | the headers of the four sections, letter by letter |
| InfoLines.MasterFieldsPrinted | upstream/exporter/info.go:24-37 | the fields of masters, numbered or not, letter by letter |
| InfoLines.MasterFieldIff | upstream/exporter/info.go:24-29 | the patterns for masters, exactly: `master`, an underscore and digits or neither, the suffix, and anything after it |
| InfoLines.NumberedReplica | upstream/exporter/info.go:37 | nothing is emitted for a name that is not `slave` and at least one digit |
| InfoLines.RecordsPrinted | upstream/exporter/info.go:131-158 | the names of commands, latencies, replicas and databases, and the fields of a database, letter by letter |
| InfoLines.CommandPrinted | upstream/exporter/info.go:434-501 | a command's line, letter by letter |
| InfoLines.LatencyPrinted | upstream/exporter/info.go:539-588 | a command's percentiles, letter by letter |
| InfoLines.ReplicaPrinted | upstream/exporter/info.go:332-369 | a replica's line, letter by letter |
| InfoLines.ReplicationOffset | upstream/exporter/info.go:371-391 | `slave_repl_offset` is emitted as a number under the current master's host and port |
| InfoLines.SlaveInfoSaid | upstream/exporter/info.go:220-225 | exactly an instance whose role is `slave` has `slave_info`, with the master's host and port and `slave_read_only`, empty where not recorded |
| InfoLines.RecordedAreLast | upstream/exporter/info.go:99-101 | for every text: each value used after the last line, the role among them, is that of the last field of its name, in whatever section |
| InfoLines.OtherLines | upstream/exporter/info.go:84-101 | a line that is neither a header nor has a colon changes nothing |
| InfoLines.ShortLines | upstream/exporter/info.go:92-97 | two characters make a field if one is a colon, one alone never does |
| InfoLines.SpacedLine | upstream/exporter/info.go:82 | white space at either end of a line is dropped |
| InfoLines.OtherSections | upstream/exporter/info.go:103-162 | a field of any section but the four emits nothing |
| InfoLines.NumbersClamped | upstream/exporter/info.go:371-391 | numbers out of range count as the nearest 64-bit integer, text that is no number as 0 |
| LatencyJoin.InterpretMaps | upstream/exporter/info.go:131-139 | after any text the three accumulator maps hold, for each name, what its last field in the section says, and no other name |
| LatencyJoin.LatencySummaries | upstream/exporter/info.go:230-239 | for every text on which the run does not panic: a summary at most once per command, exactly for the names with an accepted Latencystats line that some Commandstats line yields, count and time from the last such Commandstats line even when that line was refused, percentiles from the last Latencystats line |
| LatencyJoin.SwapChangesNothing | upstream/exporter/info.go:171-173 | swapping a Commandstats and a Latencystats section, whatever other sections stand before, between and after them, changes no summary |
| LatencyJoin.SwapSections | upstream/exporter/info.go:131-139 | the swap leaves the fields of both sections as they are |
| LatencyJoin.SameFieldsSameSummaries | upstream/exporter/info.go:171-173 | texts with the same fields in the two sections have the same summaries |
| CommandRecords.CommandRecordsRoundTrip | upstream/exporter/info.go:131-139 | printing any commands and any latencies as the two sections, with or without carriage returns, and interpreting the text does not panic, emits each command's counts and times in order, and summarizes exactly the names in both lists, with the numbers printed last |
| CommandRecords.CommandRead | upstream/exporter/info.go:434-501 | a printed Commandstats line, with three fields or with five, yields its name and its numbers, and samples with those |
| CommandRecords.CommandYields | upstream/exporter/info.go:434-501 | any printed line, whether or not its numbers can be read: calls, time in seconds and the two failure counts are emitted under the command's name exactly when all of them can, and the latency summaries get the name always, the calls once read, the time once both are |
| CommandRecords.OtherCommandLines | upstream/exporter/info.go:434-456 | fewer than three fields yield the name alone, another prefix an empty name, and neither a sample |
| CommandRecords.FieldNumber | upstream/exporter/info.go:43-70 | a field is read exactly when it has one `=` and a number after it |
| CommandRecords.OtherLatencyLines | upstream/exporter/info.go:539-588 | another prefix and a percentile without a name refuse the line; a part without `=` counts as 0 at 0 |
| CommandRecords.LatencyRead | upstream/exporter/info.go:539-588 | a printed Latencystats line is accepted and gives its command and its percentiles |
| EmptyDatabases.EveryDatabaseOnce | upstream/exporter/info.go:149-183 | with accepted, distinct Keyspace names and padding, on every text on which the run does not panic: exactly one `db_keys` and one `db_keys_expiring` for every configured and every listed database, none for any other |
| EmptyDatabases.KeyMetricCount | upstream/exporter/info.go:149-183 | for every text on which the run does not panic: as many as there are accepted lines under the name, and one more exactly when the database is configured and has none |
| EmptyDatabases.KeyMetricValues | upstream/exporter/info.go:149-183 | a listed database has the numbers of its line's last `keys` and `expires`, a padded one zero |
| EmptyDatabases.PaddingCount | upstream/exporter/info.go:175-183 | padding adds one of each to exactly the configured databases not handled |
| EmptyDatabases.KeyspaceRoundTrip | upstream/exporter/info.go:149-158 | printing any list of databases as a Keyspace section, with or without carriage returns, and interpreting the text does not panic and emits each database's two numbers, in order, under its own name |
| MultiMaster.MastersRoundTrip | upstream/exporter/info.go:84-116 | printing any list of masters as a Replication section, with or without carriage returns, and interpreting the text does not panic and emits each master's three samples, in order, with its own host and port |
| MultiMaster.AllMasters | upstream/exporter/info.go:103-116 | the same from any state within the section |
| MultiMaster.OneMaster | upstream/exporter/info.go:371-391 | a master's five lines emit its samples under its own labels, whatever master came before |
| MultiMaster.Matching | upstream/exporter/info.go:24-29 | of the five kinds of printed fields each is matched by its own pattern only, numbered or not |
| LatencyTotals.ExtractTotalUsecForCommand | upstream/exporter/latency.go:91-110 | the result is the sum, modulo 2^64, over the matching lines whose name is counted for the command and whose number fits 64 bits |
| LatencyTotals.TotalIsOwnPlusChildren | upstream/exporter/latency.go:95-107 | a command's exact total is its own time plus the totals of its `cmd\|sub` children |
| LatencyTotals.ReportedTotals | upstream/exporter/latency.go:95-107 | the same modulo 2^64 for the totals the exporter reports |
| LatencyTotals.TotalConcat | upstream/exporter/latency.go:95-107 | the total is additive over concatenated line lists |
| LatencyTotals.SiblingNotCounted | upstream/exporter/latency.go:96 | a command that merely starts with the same text is never counted |
| LatencyTotals.CountedBySub | upstream/exporter/latency.go:96 | a name is counted for `cmd\|sub` if and only if `sub` is its component right below `cmd` |
| LatencyTotals.TotalNonNegative | upstream/exporter/latency.go:92-109 | below 2^64 the reported total is the exact sum |
| LatencyTotals.LastUsecIsLast | upstream/exporter/latency.go:17 | a line matches if and only if `usec=` and a digit occur after the name, and the digits are those at the last such place |
| LatencyTotals.PrintedLineMatches | upstream/exporter/latency.go:17 | a line in INFO's format whose name has no colon matches, with its own name and time, if and only if the name is made of letters, digits and `|` |
| LatencyTotals.MatchedCharacters | upstream/exporter/latency.go:17 | the characters that names may have, one by one |
| LatencyTotals.PrintedTotal | upstream/exporter/latency.go:91-110 | over any printed lines the total is the sum of the times of the command and its sub-commands, less those whose names have any other character |
| LatencyTotals.UnmatchedTotal | upstream/exporter/latency.go:17 | a command with such a character in its name has a total of 0 over any lines |
| LatencyTotals.UnderscoreUnmatched | upstream/exporter/latency.go:17 | for instance `georadius_ro`, whatever time its line gives |

## Left out

- Transport: dialling, TLS, passwords, cluster redirects, HTTP handlers, flags, and failures of Send, Flush and Receive themselves. A reply that is an error is in the model, a broken connection is not.
- The client library beyond its contract: first in first out, and an immediate command drains what is outstanding and returns the first error. Prometheus beyond its contract: a sample is accepted when the label counts match; label values that are not valid UTF-8 are not singled out.
- Cluster mode's key phase as a whole: it uses another connection and runs no SELECT. Only its inspection of keys is modelled.
- KeyInspection.ExtractNotPipelined: requires an idle connection, because on the cluster connection nothing is ever pipelined.
- KeyPhase.RunKeyPhase: assumes that cursor runs end. What the checked keys report once a reply has been read for the wrong command is left as the specification run gives it. The emission of a stream's samples is an arbitrary function. The command log, which comes between slow log and key groups and runs no SELECT, is not included.
- Scan.ScanKeys: that a cursor run ends is a hypothesis, as Redis promises it; the loop is proved to end with it. A keyspace that changes during a scan is not modelled; `Scan.KeysCountBounds` therefore takes the returned elements as given.
- KeyGroups.BatchingIndependenceIff: group sums are unbounded integers, without the wrap-around of 64-bit sums or the precision of Lua numbers.
- KeyGroups.ClassifyKey: the Lua pattern engine is an arbitrary function; the script's check of the patterns' syntax is one more way for a run of the script to return an error.
- KeyGroups.MergeRows: groups are values in a map, where the source updates them through pointers; no group is shared, so aliasing plays no part.
- GroupLimits.SortEntriesSorts: the library's in-place sort is represented by an insertion sort on values; `GroupLimits.SortedUnique` shows that any correct sort returns the same.
- GroupLimits.ApplyLimit: a negative limit, which makes the source panic, is not modelled.
- Splitting the key group option into patterns: the model starts from the list of non-empty patterns. The duration gauge that follows the groups is omitted.
- KeyArguments.KeyArgRoundTrip: databases above the largest 64-bit integer are not printed, for the parser refuses them.
- Redis's own matching of SCAN patterns, and any state of the server other than its replies.
- Floats: parsing is an arbitrary partial function to the reals, without rounding, infinities or NaN; so is the conversion of a number of calls to an unsigned count.
- Only ASCII white space is trimmed; text is a sequence of bytes, one char each.
- Streams.GetStreamInfo: the library's decoding of field lists into structs, with the entry ids of the stream, is an arbitrary partial function.
- Descriptions.Exporter.RegisterConstMetric: a metric is its description and label values; its number and type play no part in the cache. The help text of a description is omitted.
- Clients.ParseConnectedClients: of each client only the `connected_client_info` sample; the numeric fields and their metrics, which have other names and fixed labels, are omitted except that an unreadable age refuses the line.
- Info.ExtractInfoMetrics: the sections Server, TLS, Scripting Engines, Errorstats and Sentinel, generic fields and the slow log fields of commands are omitted; they add samples without a database or master label and no state. A sample stands for the call that registers it; whether the label counts match is the subject of `Descriptions`, which also models `instance_info`.
- Info.PanicsIff: a panic ends the scrape and the exporter; what was sent on the channel before it is not modelled.
- LATENCY LATEST and LATENCY HISTOGRAM replies, search index, module, Tile38, command log and Sentinel gauges, the table of metric names, clocks, logging: straight-line copying or counting.
