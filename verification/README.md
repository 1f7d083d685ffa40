# cadish in Dafny

A model of five parts of cadish, an HTTP cache and edge server, with proofs about them:

1. **The two-tier object cache** (`internal/cache`): sharding and byte budgets, second-chance eviction, the
   in-flight byte budget charged by compare-and-swap, pooled write buffers, the disk tier with its index file,
   flusher and reload, and the store that keeps a key in one tier.
2. **The Cadishfile language** (`internal/cadishfile`): scanner, quoting, environment placeholders, statement
   parser, formatter.
3. **Route exclusions** (`internal/edgeir/exclusions.go`): which paths may skip the edge worker.
4. **Cache keys, their fingerprints and configuration reloads** (`internal/pipeline`, `internal/config`).
5. **Gateway hostname intersection** (`internal/gateway/attach.go`).

`dafny verify dfyconfig.toml` checks everything. Nothing of cadish is executed here.

## How it is written

Code that changes state in place is a class with methods (`Ram.RamTier`, `DiskTiers.DiskTier`, `Stores.Store`,
`Buffers.BufferPool`, `Scanner.Scanner`, `Printer.Printer`, `Parsing.Parser`, `Reload.Config`) or a method with a
loop, proved against functions on values; what is promised of it is proved about those functions. Protocols whose
steps interleave are state machines over all runs: writers reserving bytes (`Inflight`), commit and sibling delete
(`Router`), flusher and crash (`Persist`, `Crashes`), reloads and delayed teardowns (`ReloadRuns`). A method of a tier is one
critical section of its shard's lock.

Taken as given: blob names are injective in the key; rename is atomic; one tier owns its directory (but for `Crashes.ColdPass` and `Flushes`); hashing is a
function of the key; scratch directory names are not used twice and never configured; matchers other than path
matchers, and regexes that are not anchored literals, answer as they like (every answer is covered).

## Where the code and its documentation differ

- "A crash between flushes costs at most a re-fetch, never a stale or corrupt hit" (`internal/cache/cache.go:59-61`):
  metadata of an older commit can meet the blob of a newer one of the same size (`Persist.CrashCanMixCommits`). In every
  state of every run this happens to a key exactly if the index file lists it with the live size and other metadata
  (`Crashes.StaleIff`); the body is always the live one (`Crashes.CrashServesLive`).
- With a budget that is not positive, `reserve` charges nothing but `release` still subtracts
  (`internal/cache/ram.go:199-219`): `Inflight.NonNegativeIffEnabled`.
- "Format is idempotent" (`internal/cadishfile/format.go:34`). For a source that formats it is, exactly if its first
  word does not start with a second byte order mark and every site header outlives formatting
  (`FormatTwice.FormatTwiceIff`). A header is at risk if a line break follows a word that formatting quotes: the lines
  up to there are cut off as statements, and what is left must still have an address (`FormattedFiles.Outlives`). So
  `x/"y,` as a header with its brace on the next line formats to a text that does not parse
  (`FormatTwice.UnsafeNotFixed`, for every such word). At the top level formatting can also turn a statement and a site
  into one site (`FormattedFiles.SemicolonMerges`).
- Route exclusion ignores regex flags: a case-folding or multi-line redirect or cache rule can still take a path that
  was excluded (`RouteExclusions.FlagsLeak`, for redirects, cache_ttl, storage and cache_key alike). `EdgeRules.LiteralExactIff` gives the exact condition.
- "A pattern fully covered by a broader prefix pattern for the same host is dropped"
  (`internal/edgeir/exclusions.go:322-324`): not always (`RouteMerge.NotMinimal`); exactly when is
  `RouteMerge.MinimalIff`.
- "Two configs whose sites produce the same fingerprint compute byte-identical keys" (`internal/config/cache.go:27-31`).
  They do if they also agree in what else their keys can read (`KeyLaws.SameFingerprintSameKeys`). Ten things outside
  the fingerprint make keys differ, each shown by a pair of sites with one fingerprint and the exact requests on which
  their keys differ (`KeyGaps`): the definition of a named matcher, the sticky cookie of the upstreams, quotes around a
  selector, the routes (through `upstream` matchers), the cookie allowlist, the trusted proxies, the presence of a
  security gate (through `ip` matchers), the declaration of the origins (through `upstream_healthy` matchers), a cluster
  block (through its hop header) and the contents of the geo databases.
- The store resolves its limits so that a large object is never "routed to RAM … yet rejected by the writer"
  (`internal/cache/router.go:84-89`): true exactly if there is a disk budget, the small-object threshold is not above the
  per-object cap, and the per-object cap is above neither the budget for bodies under way nor the cap of any shard
  (`Router.NeverDroppedIff`). The limits of a site without a cache block fail: an image between 32 and 64 MiB is stored
  nowhere (`Router.DefaultsDrop`).
- A lookup reads RAM, then disk. A key that moves from disk to RAM in between is missed although it is cached at every
  moment (`Router.MovingKeyMissed`). A miss is wrong at its second read exactly if RAM was filled in between and not
  emptied again (`Router.MissIsMoving`).
- Scratch directories are to be removed when their configuration is closed (`internal/config/config.go:896-931`): with
  no teardown outstanding, those left on disk belong exactly to the live stores and to every store that some reload
  carried over, closed or not (`ReloadRuns.ScratchLeft`).
- On a changed fingerprint "the flush is genuine" (`internal/config/config.go:675-684`). The new store drops what it
  loaded, but the old one keeps the same configured directory until its teardown and then writes its own index file
  over it. A later opening then returns an entry of the old store exactly if the directory holds a blob of its key with
  its size (`Flushes.OldIndexReturns`); with nothing in between, that is every entry the index file did not list yet
  when the new store was opened (`Flushes.FlushUndone`).
- An index file that lists a key twice can keep the tier from opening (`internal/cache/disk.go:306-314`): exactly when
  is `DiskRepeats.OpensIff`. No snapshot lists a key twice (`DiskIndex.SnapshotDistinct`).

## Model

| member | source | states |
|---|---|---|
| Shards.ShardCount | internal/cache/shard.go:45-58 | between 1 and the default; more than one shard only if each gets at least 1 MiB, fewer than the default only if one more would not |
| Shards.ShardCaps | internal/cache/shard.go:88-108 | the filled array is the specified caps |
| Shards.CapsSumExactly | internal/cache/shard.go:78-108 | for a positive budget the caps sum to exactly the budget |
| Shards.CapsAreMeaningful | internal/cache/shard.go:45-108 | for a budget of at least 1 MiB every shard's cap is at least 1 MiB, and caps differ by at most one byte |
| Shards.SumWithinBudget | internal/cache/shard.go:78-108 | shards within their caps keep the tier within its budget |
| Clock.SweepClosedForm | internal/cache/ram.go:282-343 | the eviction loop keeps exactly the longest prefix that fits of "referenced entries in ring order, then unreferenced ones", and the ring is then the second-chance entries with their bits cleared, in ring order, followed by the entries the sweep did not reach |
| Clock.SecondChance | internal/cache/ram.go:282-343 | a referenced entry is evicted only if every unreferenced one is |
| Ram.Consult | internal/cache/ram.go:314-334 | one turn of the sweep on the real shard is one step of the specified sweep; byte count, mirror, map and ring stay in agreement |
| Ram.Evict | internal/cache/ram.go:306-334 | the loop terminates with enough room, and its ring is the specified sweep |
| Ram.CommitShard | internal/cache/ram.go:282-343 | stores exactly when the object fits the shard; then the key has the new body, the ring is the swept ring with the key in front, and no other body changes |
| Ram.DeleteShard | internal/cache/ram.go:242-254 | removes the key from map and ring and nothing else |
| Ram.RamTier.constructor | internal/cache/ram.go:87-105 | a valid empty tier with the specified caps |
| Ram.RamTier.Get | internal/cache/ram.go:111-143 | returns what the key holds, sets its reference bit, changes no content |
| Ram.RamTier.Commit | internal/cache/ram.go:282-343 | the key holds the new object if stored; every other key keeps its object or is evicted |
| Ram.RamTier.Delete | internal/cache/ram.go:242-254 | the key is gone, every other key unchanged |
| Ram.RamTier.Reset | internal/cache/ram.go:229-238 | nothing is left |
| Ram.RamTier.Bytes | internal/cache/ram.go:268-274 | the lock-free sum is the bytes really cached and at most the budget |
| Ram.RamTier.WithinBudget | internal/cache/ram.go:229-343 | in every valid state the cached bytes are at most the budget |
| Inflight.NextConserved | internal/cache/ram.go:199-221 | every step of every writer keeps: counter equals the sum of what writers hold, half-done steps included |
| Inflight.BudgetIsNeverExceeded | internal/cache/ram.go:369-441 | for a positive budget, in every interleaving: the counter equals the reservations, is never negative, never above the budget, and bounds the buffered bytes |
| Inflight.QuiescentCounter | internal/cache/ram.go:369-441 | between calls the counter is exactly the buffered bytes; zero once all writers are closed |
| Inflight.DisabledBudgetDrifts | internal/cache/ram.go:199-221 | for a budget that is not positive the counter is minus all bytes ever released |
| Inflight.NonNegativeIffEnabled | internal/cache/ram.go:199-221 | the counter is non-negative in all runs if and only if the budget is positive |
| Inflight.LoneWriter | internal/cache/ram.go:369-394 | a body written with no other writer about is given up if and only if its size exceeds the per-object cap or the budget, however it is cut into pieces; otherwise all of it is buffered |
| Buffers.BufferPool.Acquire | internal/cache/ram.go:177-184 | hands out a buffer, reused or new, whose array backs no cached entry |
| Buffers.BufferPool.Append | internal/cache/ram.go:369-394 | appends to the buffer; published arrays are untouched |
| Buffers.BufferPool.Commit | internal/cache/ram.go:406-430 | a small body is copied and its buffer recycled, a large one hands its array over; the entry serves the body and no published array changes or returns to the pool |
| Buffers.BufferPool.Discard | internal/cache/ram.go:396-404 | the buffer leaves the active set; nothing published changes |
| Buffers.BufferPool.Remove | internal/cache/ram.go:242-254 | forgetting an entry leaves its array to the readers that hold it |
| DiskShard.EvictClosedForm | internal/cache/disk.go:582-589 | eviction from the back keeps exactly the longest most-recent prefix that fits, with exact byte counts |
| DiskShard.RemoveAccounted | internal/cache/disk.go:526-541 | removal keeps list, map and byte counts in agreement |
| DiskShard.InstallAccounted | internal/cache/disk.go:595-603 | so does installing a new key |
| DiskShard.TouchAccounted | internal/cache/disk.go:335-362 | so does moving a hit to the front |
| Disk.EvictLoop | internal/cache/disk.go:582-589 | the loop leaves the specified shard and unlinks exactly the victims' blobs |
| Disk.CommitShard | internal/cache/disk.go:543-603 | keeps the shard valid and every entry backed by a blob of its size, for oversize, failed rename and success alike |
| Disk.CommitFacts | internal/cache/disk.go:543-603 | stored: metadata and blob of the same commit; failed: the key is gone; otherwise nothing of the key changes; surviving keys keep entry and blob; the temporary file is gone |
| DiskIndex.SnapshotDistinct | internal/cache/disk.go:231-249 | the merged snapshot has distinct keys |
| DiskIndex.ReloadKeepsPrefix | internal/cache/disk.go:264-316 | at any budget and shard count a shard keeps the longest prefix, in file order, of its fitting entries that fits its cap, and is dirty exactly if something was dropped |
| DiskIndex.ReopenRestores | internal/cache/disk.go:231-316 | close and reopen at the same budget restores every shard's entries and recency order exactly |
| DiskLoad.Distribute | internal/cache/disk.go:276-298 | for any index file: the first pass loads and unlinks what the specified pass does, and each shard holds its entries in file order |
| DiskLoad.PassDistinct | internal/cache/disk.go:276-298 | with distinct keys that is: every entry that the directory backs and its shard's cap admits, and the blobs of the others unlinked |
| DiskLoad.Load | internal/cache/disk.go:264-316 | the two-pass load equals the specified reload per shard, unlinks exactly the blobs it does not keep, and leaves a valid tier |
| DiskRepeats.TrimEndsIff | internal/cache/disk.go:306-314 | with repeated keys, the second pass over a shard ends if and only if no key is loaded twice or the entries in front of the last repeat fit the cap |
| DiskRepeats.OpensIff | internal/cache/disk.go:264-316 | for every index file and directory the load ends if and only if that holds of what each shard has loaded |
| DiskRepeats.ThriceListed | internal/cache/disk.go:264-316 | an index file that lists a blob of more than half its shard's cap three times keeps the tier from opening |
| DiskTiers.DiskTier.constructor | internal/cache/disk.go:125-183 | reaping temporary files and loading gives a valid tier whose shards are the specified reload |
| DiskTiers.DiskTier.Begin | internal/cache/disk.go:364-373 | a new temporary file; nothing committed changes |
| DiskTiers.DiskTier.Write | internal/cache/disk.go:614-618 | appends what was written, all of it or the part before an error, to the temporary file only |
| DiskTiers.DiskTier.Abort | internal/cache/disk.go:635-639 | removes the temporary file only |
| DiskTiers.DiskTier.Commit | internal/cache/disk.go:543-603 | stored exactly when it fits and the rename works; then the key reads back this commit; every other key keeps its object or is evicted |
| DiskTiers.DiskTier.Get | internal/cache/disk.go:335-362 | returns metadata and body of one commit and moves the entry to the front; if the blob cannot be opened the entry is dropped; no other shard changes |
| DiskTiers.DiskTier.Delete | internal/cache/disk.go:375-388 | the key is gone, every other key unchanged |
| DiskTiers.DiskTier.TakeSnapshot | internal/cache/disk.go:231-249 | lists all entries, distinct, clears the dirty flags and says whether one was set |
| DiskTiers.DiskTier.WriteIndex | internal/cache/disk.go:320-333 | the index file is the list if the write works, else unchanged |
| DiskTiers.DiskTier.FlushIfDirty | internal/cache/disk.go:211-229 | writes the snapshot when something is dirty; a failed write marks the shards dirty again |
| DiskTiers.DiskTier.Close | internal/cache/disk.go:510-524 | the index file is the snapshot |
| DiskTiers.DiskTier.Reset | internal/cache/disk.go:390-405 | nothing is left; the emptied index is written if anything changed, and if that fails the file is as before and every shard is dirty |
| DiskTiers.DiskTier.Bytes | internal/cache/disk.go:419-425 | the lock-free sum is the bytes of the blobs indexed and at most the budget |
| DiskTiers.DiskTier.WithinBudget | internal/cache/disk.go:543-603 | in every valid state the indexed bytes are at most the budget |
| Persist.NextKeepsInv | internal/cache/disk.go:192-333 | every step of commits, deletes, evictions, hits, flusher and crash keeps: a clean shard is covered by the index file or by what the flusher holds, and an index entry without a live entry has no blob |
| Persist.RunKeepsInv | internal/cache/disk.go:192-333 | so it holds in every run |
| Crashes.CrashKeepsIff | internal/cache/disk.go:264-316 | in every state, whatever the flusher is doing: after a crash an entry comes back if and only if the index file lists it and its key was live with the same size |
| Crashes.CrashServesLive | internal/cache/disk.go:264-316 | what comes back was live, and its blob is the live one |
| Crashes.StaleIff | internal/cache/disk.go:264-316 | the live body comes back with other metadata if and only if the index file lists the key with the live size and other metadata |
| Crashes.CrashRestoresCleanShard | internal/cache/disk.go:192-316 | with the flusher at rest, a crash restores exactly the entries of a clean shard, with equal metadata |
| Crashes.RunsRecoverCleanShards | internal/cache/disk.go:192-316 | the same after every run, with any number of earlier crashes and failed writes |
| Crashes.ColdPassSpares | internal/config/config.go:675-689 | a second tier opened and closed on the directory of a live one unlinks exactly the live blobs whose key the index file lists with another size, and every temporary file |
| Crashes.ColdIndexIff | internal/config/config.go:675-689 | the index file it leaves lists exactly the entries that agree with the live tier in size |
| Crashes.ColdPassKeepsClean | internal/config/config.go:675-689 | so a clean shard under a resting flusher keeps its blobs and its place in the index |
| Persist.CrashCanMixCommits | internal/cache/disk.go:264-300 | a run after which a crash serves old metadata with a newer blob |
| Router.NeverDroppedIff | internal/cache/router.go:84-246 | with the limits resolved, no object of known size is sent to RAM and dropped there for its size, if and only if there is a disk budget, the small-object threshold is not above the per-object cap, and the per-object cap is not above the in-flight budget or the cap of any key's shard |
| Router.TightestShard | internal/cache/shard.go:78-108 | over all keys the last is the tier's budget divided by the number of shards |
| Router.DefaultsDrop | internal/config/cache.go:84-140 | with 2 GiB of RAM and the default caps every image above 32 MiB and up to 64 MiB is sent to RAM and dropped |
| Router.RunKeepsInv | internal/cache/router.go:168-203 | commit-then-delete-sibling keeps its invariant in every interleaving of writers of a key |
| Router.QuiescentKey | internal/cache/router.go:147-203 | once no writer owes a delete, the key is in at most one tier and a lookup gives the last stored object or a miss |
| Router.StaleOnlyBeforeDelete | internal/cache/router.go:147-203 | a lookup, with any steps between its two reads, gives another object than the one stored last at the read that hit only while that writer still owes the sibling delete |
| Router.MissIsMoving | internal/cache/router.go:147-155 | a lookup that misses had the key cached at its second read if and only if a writer filled RAM between the reads and no later step emptied it |
| Router.MovingKeyMissed | internal/cache/router.go:147-203 | a run in which a key cached at every moment is missed |
| Stores.Store.GetTier | internal/cache/router.go:147-164 | a hit is the object of the last store that installed it, from RAM first |
| Stores.Store.Put | internal/cache/router.go:168-203 | sent to RAM, an object is installed exactly if the writer did not give up and it fits its shard; an installed object is what a lookup returns; a discarded one leaves the old copy in place; a failed rename leaves just the RAM copy; other keys keep theirs or lose them |
| Stores.Store.constructor | internal/cache/router.go:82-110 | the limits are resolved, and what is served is what the disk holds |
| Stores.Store.Reset | internal/cache/router.go:302-305 | no key has a copy in either tier |
| Stores.Flush | internal/config/config.go:681-684 | the flush that reloads count on is what Reset does to the store itself |
| Scanner.Scanner.LooksLikePlaceholder | internal/cadishfile/lex.go:307-327 | the lookahead answers whether a balanced run closes before a blank |
| Scanner.Scanner.ScanPlaceholder | internal/cadishfile/lex.go:452-479 | consumes exactly the balanced run, or rolls the cursor back |
| Scanner.Scanner.ReadWord | internal/cadishfile/lex.go:387-443 | reads exactly the specified bare word |
| Scanner.Scanner.ReadQuoted | internal/cadishfile/lex.go:486-527 | reads exactly the specified quoted text, or fails as specified |
| Scanner.Scanner.Next | internal/cadishfile/lex.go:219-302 | token, error and new state are the specified ones |
| Scanner.TokenizeText | internal/cadishfile/lex.go:150-163 | the scanner delivers the specified tokens |
| Quoting.QuoteText | internal/cadishfile/format.go:269-281 | the loop writes the specified quoted form |
| Quoting.QuotedReadBack | internal/cadishfile/format.go:269-281 | for every text without control characters, reading the quoted form gives the text back and stops after the closing quote |
| Quoting.WordExtends | internal/cadishfile/lex.go:387-443 | a bare word is still exactly that word before any separator |
| Quoting.CutIsWhole | internal/cadishfile/lex.go:387-443 | what the scanner cuts off as a bare word is read back as one |
| ArgQuoting.QuoteArgReadBack | internal/cadishfile/format.go:261-266 | for every text without control characters and whatever follows the separator, QuoteArg's output is read as exactly one word with that text, and scanning goes on with what follows |
| ArgQuoting.QuoteArgIsInert | internal/cadishfile/env.go:48-59 | if no unescaped "{$" is found in it, no environment changes the argument |
| Env.ContainsEnvPlaceholder | internal/cadishfile/env.go:48-59 | the loop finds an unescaped "{$" exactly if there is one |
| Env.ExpandEnv | internal/cadishfile/env.go:109-154 | the loop writes the specified expansion |
| Env.ExpandWithout | internal/cadishfile/env.go:48-154 | for every lookup: a text in which no placeholder is found is not changed, although the two scans treat escapes and brace spans differently |
| Env.SubstituteArgs | internal/cadishfile/env.go:62-101 | the arguments are rewritten in place as specified |
| Env.InertNodesKept | internal/cadishfile/env.go:24-101 | for every lookup: a tree without such placeholders is left as it is |
| Parsing.Parser.ParseArgs | internal/cadishfile/parse.go:714-732 | takes exactly the words directly behind |
| Parsing.Parser.ExpectStatementEnd | internal/cadishfile/parse.go:739-754 | accepts exactly at a separator, a closing brace or the end |
| Parsing.Parser.ParseMatcherDef | internal/cadishfile/parse.go:634-674 | result, error and cursor are the grammar's |
| Parsing.Parser.ParseDirective | internal/cadishfile/parse.go:678-709 | result, error and cursor are the grammar's |
| Parsing.Parser.ParseBlockBody | internal/cadishfile/parse.go:563-589 | result, error and cursor are the grammar's, nesting bounded by 1000; the depth counter is restored |
| Parsing.Parser.ParseFragmentBody | internal/cadishfile/parse.go:598-616 | result and error are the grammar's |
| Parsing.Parser.StartsSiteBlock | internal/cadishfile/parse.go:239-290 | the lookahead answers as the grammar does |
| Parsing.Parser.UnseparatedAddrWrap | internal/cadishfile/parse.go:400-446 | the lookahead answers as the grammar does |
| Parsing.Parser.ParseSite | internal/cadishfile/parse.go:517-558 | result, error and cursor are the grammar's |
| Parsing.Parser.ParseFile | internal/cadishfile/parse.go:170-217 | result and error are the grammar's |
| ParserLaws.RespacedBody | internal/cadishfile/parse.go:563-754 | a block body parses the same, and fails the same, when any ";" becomes a line break and separators are added or dropped at statement ends |
| ParserLaws.RespacedFragment | internal/cadishfile/parse.go:598-754 | so does an imported fragment |
| Printer.Printer.Print | internal/cadishfile/format.go:99-175 | one round of the token loop is one round of the layout |
| Printer.FormatText | internal/cadishfile/format.go:35-186 | builder and flags produce the rendered layout with its final line break |
| FormatLaws.FormatReadsBack | internal/cadishfile/format.go:35-245 | scanning the formatted text delivers its lines, item by item |
| FormatLaws.FormatKeepsTokens | internal/cadishfile/format.go:35-245 | formatting keeps every word's text, every brace and comment, and their order |
| FormatLaws.RelaidOut | internal/cadishfile/format.go:35-186 | the lines laid out for the formatted text are the lines it was rendered from |
| FormatLaws.FormatTokensTwice | internal/cadishfile/format.go:34-186 | formatting the formatted text's tokens gives the same text |
| FormattedMarks.FormattedSymbols | internal/cadishfile/format.go:99-186 | the formatted text's symbols are the source's, every separator a line break, braces at line ends |
| FormattedTrees.SpreadBody | internal/cadishfile/parse.go:563-754 | a formatted block body parses to the same tree with the words that had to be quoted quoted |
| FormattedTrees.SettledIff | internal/cadishfile/format.go:215-220 | that tree is the same exactly if no bare argument and no matcher name in it has to be quoted |
| FormattedMarks.FormattedFragment | internal/cadishfile/format.go:99-186 | both together, for every fragment that parses |
| FormattedFiles.ConstructsIff | internal/cadishfile/parse.go:170-290 | sites and statements that parse still parse once formatted, merged or not, if and only if every site header outlives formatting |
| FormattedFiles.FileKeptIff | internal/cadishfile/parse.go:170-290 | the same for every file that parses |
| FormattedFiles.FileHeadersOpen | internal/cadishfile/parse.go:239-290 | no file fails for a site header that runs into its end, a '}' or a ';': the lookahead has seen the brace |
| FormattedFiles.SemicolonMerges | internal/cadishfile/parse.go:239-290 | a statement and a site that formatting turns into one site |
| FormatSource.FormatFile | internal/cadishfile/format.go:35-186 | scanner, parser and printer together compute Format |
| FormatTwice.FinishRendered | internal/cadishfile/format.go:177-186 | trimming and adding the last line break changes nothing |
| FormatTwice.FixedIfParses | internal/cadishfile/format.go:34-186 | without a leading byte order mark, formatting twice is formatting once if and only if the formatted symbols parse |
| FormatTwice.FormatNotFixed | internal/cadishfile/lex.go:140-145 | never so if the first word starts with a byte order mark |
| FormatTwice.FormatTwiceIff | internal/cadishfile/format.go:34-186 | Format(Format(x)) == Format(x) for every source that formats, if and only if no byte order mark leads and every site header outlives formatting |
| FormatTwice.UnsafeNotFixed | internal/cadishfile/format.go:215-240 | for every unsafe word a source that formats and whose formatted text does not |
| Globs.OverlapIff | internal/edgeir/exclusions.go:700-711 | two globs overlap if and only if some path is in both |
| Globs.CoversIff | internal/edgeir/exclusions.go:743-748 | a glob covers another if and only if every path of the one is in the other |
| Globs.Collapse | internal/edgeir/exclusions.go:716-739 | exactly the maximal globs remain, each once, and everything is still covered |
| Globs.SamePaths | internal/edgeir/exclusions.go:716-739 | so the union is the same |
| Globs.CollapsedAntichain | internal/edgeir/exclusions.go:716-739 | and none covers another |
| Globs.LiteralRoundTrip | internal/edgeir/exclusions.go:545-567 | a glob is read back from its text |
| Globs.SplitRoundTrip | internal/edgeir/exclusions.go:377-388 | host and glob are read back from a route pattern |
| RouteMerge.MergeRouteExclusions | internal/edgeir/exclusions.go:328-373 | the loops compute the specified merge, in order, and for every host the patterns match the same paths as before |
| RouteMerge.SortOrdered | internal/edgeir/exclusions.go:371-371 | the result is in order and holds each pattern as often as before |
| RouteMerge.MergedServes | internal/edgeir/exclusions.go:346-367 | the merge keeps, for every host, exactly the paths |
| RouteMerge.MinimalIff | internal/edgeir/exclusions.go:346-367 | no pattern of the result covers another if and only if every pattern is covered already or finds a broadest among the earlier ones it covers |
| RouteMerge.NotMinimal | internal/edgeir/exclusions.go:346-367 | three patterns of which a covered one stays |
| EdgeRules.LiteralExactIff | internal/edgeir/exclusions.go:574-588 | on paths, an anchored literal regex matches exactly its glob if and only if its flags do not widen it |
| Exclusions.ScopePathGlobs | internal/edgeir/exclusions.go:479-496 | the loop gives the globs of a scope of path matchers only, else nothing |
| Exclusions.ScopeMeans | internal/edgeir/exclusions.go:479-540 | a path in those globs is matched by the scope; with narrow flags a matched path is in them |
| Exclusions.TouchFootprints | internal/edgeir/exclusions.go:622-682 | the five loops collect the specified footprint |
| Exclusions.TakenIsTouched | internal/edgeir/exclusions.go:622-694 | a request that some rule redirects, answers, stores or keys has a touched path |
| RouteExclusions.ComputeRouteExclusions | internal/edgeir/exclusions.go:394-444 | emits exactly the broadest safe globs on every catch-all host, in ascending order without repeats |
| RouteExclusions.SafeIsHarmless | internal/edgeir/exclusions.go:394-711 | on a safe glob every request is passed and no rule redirects, answers, stores or keys it |
| RouteExclusions.ExclusionSound | internal/edgeir/exclusions.go:394-711 | the same for every request an emitted pattern matches, which is on a catch-all host |
| RouteExclusions.ExclusionComplete | internal/edgeir/exclusions.go:394-444 | every untouched candidate is covered on every catch-all host |
| RouteExclusions.FlagsLeak | internal/edgeir/exclusions.go:622-682 | for every literal regex whose flags widen it, and for a redirect, cache_ttl, storage or cache_key rule that carries it, rules under which an excluded path is redirected, stored or keyed |
| Fingerprint.WriteDirective | internal/config/cache.go:52-68 | the recursion appends the specified serialisation |
| Fingerprint.Serialise | internal/config/cache.go:36-46 | a site's vocabulary directives, in order, and nothing else |
| Fingerprint.AllReadBack | internal/config/cache.go:52-68 | a reader gets the directives back from their serialisation |
| Fingerprint.SitesAlikeIff | internal/config/cache.go:27-68 | two sites are serialised alike if and only if their vocabularies have the same names, arguments, blocks and nested directives |
| ParsedSites.SourcesAlikeIff | internal/config/cache.go:27-68 | so it is for the sites of any two texts that parse: no text of a parsed tree holds a marker |
| Fingerprint.MarkersCollide | internal/config/cache.go:52-68 | with a marker byte in a text different directives collide |
| Fingerprint.MatchersUnseen | internal/config/cache.go:36-46 | changing a matcher definition changes nothing |
| KeyLaws.KeysAlike | internal/pipeline/pipeline.go:41-180 | for every request: sites with the same vocabulary that agree in the matchers it comes to, the cookie allowlist, trusted proxies, cluster and geo data, and, where their keys read them, the routes, the security gate, the origins and the sticky cookie, compute the same key |
| KeyLaws.SameFingerprintSameKeys | internal/config/cache.go:27-46 | the same from equal serialisations, if no argument is read differently for being quoted |
| KeyGaps.MatcherMatters | internal/pipeline/classify.go:68-110 | two sites with one fingerprint and different matchers give a request the same key if and only if both matchers answer alike |
| KeyGaps.StickyMatters | internal/pipeline/cachekey.go:346-353 | so with different sticky cookies, if and only if the cookies render alike |
| KeyGaps.QuotingMatters | internal/pipeline/cachekey.go:128-184 | so with a selector in quotes or not, if and only if its matcher does not accept and the two recipes happen to render alike |
| KeyGaps.RouteMatters | internal/pipeline/pipeline.go:41-61 | so with and without a route to the upstream that a selector tests, if and only if the route does not take the request or both recipes render alike |
| KeyGaps.CookieAllowMatters | internal/server/handler.go:355-381 | so with a cookie in the key kept or stripped, if and only if the request has no value of it |
| KeyGaps.ProxyMatters | internal/server/handler.go:230-242 | so with a sticky token behind a trusted proxy or not, if and only if the prefix does not hold the peer or the client found behind the peer has its address |
| KeyGaps.GateMatters | internal/server/handler.go:287-296 | so with a selector that tests the client's address, with a security gate or without, if and only if the client is outside the prefixes or both recipes render alike |
| KeyGaps.OriginsMatter | internal/config/config.go:540-570 | so with a selector that tests whether an origin is up, declared differently, if and only if both are up or both down, or both recipes render alike |
| KeyGaps.ClusterMatters | internal/server/handler.go:202-214 | so with a cluster block or not and the hop header in the key, if and only if the header renders as an absent one |
| KeyGaps.DataMatters | internal/server/handler.go:243-274 | so over different geo databases at the same path, if and only if both place the request in the same country |
| Reload.Config.TransplantStoresFrom | internal/config/config.go:656-704 | sites, stores with their contents, scratch directories and disk after the loop are the specified ones |
| Reload.Config.CloseExcept | internal/config/config.go:896-931 | closes exactly the stores not kept and removes exactly the directories that back none of the kept |
| ReloadRuns.NextKeepsInv | internal/server/server.go:1083-1122 | a reload, a refused reload or a teardown, in any order, keeps the invariant |
| ReloadRuns.RunsAreSafe | internal/server/server.go:1083-1122 | in every run the live stores are open and their directories in place; with no teardown outstanding every other store ever made is closed |
| ReloadRuns.FinishSpares | internal/config/config.go:896-931 | a teardown closes no live store and removes no live directory |
| ReloadRuns.CarriedOrFresh | internal/config/config.go:656-715 | a warm store is carried, contents unchanged, exactly between matched sites with equal fingerprints; with different ones the site gets its own store, with no contents |
| Flushes.FlushSpares | internal/config/config.go:675-684 | a blob of a live store outlives the opening and flush of another on its directory if and only if the index file did not list its key |
| Flushes.OldIndexReturns | internal/cache/disk.go:264-316 | once the old store has written its index file last, over any directory: an entry of it comes back if and only if its key has a blob of its size, and then with its metadata |
| Flushes.FlushUndone | internal/server/server.go:1083-1122 | with nothing in between, an old entry comes back after a flush if and only if the index file did not list it when the new store was opened |
| ReloadRuns.ScratchLeft | internal/config/config.go:687-931 | in every run the directory of a carried store is on disk; with no teardown outstanding a scratch directory is on disk if and only if its store is live or was carried |
| ReloadRuns.CarriedByReload | internal/config/config.go:656-703 | taking a store over makes it one of the carried |
| Hosts.ExactIff | internal/gateway/attach.go:186-218 | the intersection stands for exactly the common names, unless the two are wildcards one empty label apart |
| Hosts.FailsIffEmpty | internal/gateway/attach.go:186-218 | otherwise it fails if and only if there is no common name |
| Hosts.ValidNotApart | internal/gateway/translate.go:642-660 | valid hostnames are never one empty label apart |
| Hosts.EffectiveHosts | internal/gateway/attach.go:116-178 | the hosts are what the route hosts contribute, or the listeners' own, in ascending order without repeats; rejects exactly when nothing is left |
| Hosts.EffectiveExact | internal/gateway/attach.go:107-178 | with route hostnames present the hosts stand for exactly the route's names that some listener admits |

## Left out

- Shards.ShardIndex: states the range only; the FNV-1a hash itself is a parameter.
- Grammar.Block: error positions and messages are not modelled, only which error is reported.
- Parsing.Parser.ParseSite: end of file, '}' and ';' in a header are one error, since no file reaches it (FormattedFiles.FileHeadersOpen).
- Lexer.Next: columns, and the bytes of invalid UTF-8, are not modelled; text is a sequence of code points.
- Inflight.Next: the sum in `reserve` is unbounded, so its 64-bit overflow is not modelled.
- DiskIndex.ReloadKeepsPrefix: needs an index file without repeated keys, which every snapshot is; what a repeat does to the load is DiskRepeats.OpensIff.
- DiskLoad.Load: the same; with repeats it may not end.
- DiskTiers.DiskTier.constructor: the same.
- Disk.CommitShard: an unlink always works. A blob that could not be unlinked and that the index file still lists would come back after a crash.
- Persist.Next: one flusher. Close waits for it; the flush inside Reset, which can overlap it, is not modelled.
- Crashes.ColdPass: the second tier is opened and closed in one step, with no step of the live one in between.
- Fingerprint.Serialise: SHA-256 over the serialisation is left out.
- Hosts.EffectiveHosts: trimming and lower-casing of declared hostnames is a parameter.
- ParsedSites.SourcesAlikeIff: is about the tree as parsed; a value put in from the environment can hold a marker (Fingerprint.MarkersCollide).
- CacheKeys.Key: how a plain matcher, a normalizer, the tenant and device tokens, headers and the query render, which address is inside a prefix and where it is, and whether an origin is up are parameters, any functions of what the code gives them; addresses are taken in canonical form; errors on compiling are not modelled.
- Reload.Config.TransplantStoresFrom: two stores opened on one configured directory are separate here; what the second opening does to the first is Crashes.ColdPass, and what is left of a flush is Flushes.
- ReloadRuns.CarriedOrFresh: the same.
- Explicit bypass patterns and their overlap warnings: advisory, on the same glob facts.
- HTTP serving, Kubernetes informers, status writing, TLS, the admin dashboard: input and output.
- Counters, logging and statistics: no effect on what is cached.
- Regex meaning beyond anchored literals; the worker's freshness rules.
