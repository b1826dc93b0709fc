# Assetic dump-files command, modelled in Dafny

This project models the core of `AsseticDumpFilesCommand`, a Symfony console
command that keeps Assetic assets up to date as their source files change. Its
model has five parts:

- **Dependency walk.** `walkAsset` and the visitor of `buildSourceToAssetMap`
  walk every top-level asset of the asset manager's catalog.
  - Collections are descended into.
  - For each dependency-extracting filter on a leaf, the walk makes a clone that
    carries only the filters before that one, and walks the children the filter
    extracts from it.
  - Every non-collection asset reached is recorded under its top-level name: a
    reference in `assets[target]`, any other leaf in `files["root/path"]`.
- **Impact resolution.** `getAssetsToDump` with its `endsWith` closure, and
  `getDependentAssets`.
  - A changed file name matches every recorded source key that ends with it.
  - The names built from matched keys are joined by every name that references
    them, directly or through other references.
  - The result is deduplicated.
- **Cache policy.** `getSourceToAssetMap` works over the memoised field and a
  cache file.
- **Dump driver.** `doDumpAssets` resolves, retries once with a forced rebuild
  when nothing is found, and dumps each name. One try block covers the retry and
  the dumps.
- **Server dispatch.** The body of `doRunServer` reads lines per connection and
  handles `refresh`, `quit` and file paths. It hands `force` to the first dump
  only.

The modules:

- `Wrappers`: Option and Result.
- `Seqs`: `array_unique` as `Dedup` and `array_merge` as `Flatten`.
- `PhpStrings`: `strpos`, `trim` and PHP falsiness of strings.
- `Assets`: the asset tree and the prefix clone.
- `DependencyMaps`: the source-to-asset map.
- `GraphBuilder` and `GraphBuilderProperties`: the walk and the map it builds.
- `ImpactResolver`: `getAssetsToDump` and `getDependentAssets`.
- `Dispatch`: the server's command language.
- `DumpCommand`: the command object with its cache, dump driver and server loop.

Where the code works by mutation, the model is imperative:

- `SourceMapBuilder` is a class whose map fields the visitor updates.
- `DumpFilesCommand` is a class holding the memoised map, the cache file, the
  log of dumped names and the stderr lines.
- The loops of `walkAsset`, `getAssetsToDump`, the dump loop and the server are
  `while` loops.
- Each method is proved equal to a pure specification function, and the
  properties are proved about those functions.

The code and the command's intended behaviour disagree in places. The model
follows the code:

- **Reference cycles.** The intended behaviour asks reference expansion to track visited
  names so that cycles terminate. `getDependentAssets` keeps no visited set and
  recurses forever on a cycle that it reaches. The model therefore requires a
  ranking that decreases along every reference edge leaving a ranked name, with
  every recorded name that is referenced ranked. Then no walk of reference
  edges from a recorded name repeats a name. A cycle that no recorded name
  reaches needs no rank and does not stop resolution.
- **Dump failures.** The intended behaviour is that a failed dump is recorded and the remaining
  assets are still dumped. In the code one try block wraps the whole dump loop,
  so the first exception stops the remaining dumps.
- **Build failures.**
  - The intended behaviour is that a failed extraction skips that asset only. In the code the
    exception aborts the whole build.
  - If it happens in `doDumpAssets`' first map lookup, that lookup is outside
    the try block, so the exception escapes the command.
  - Extraction that nests too deeply (`DepthExceeded`) stands for PHP's fatal
    error on unbounded recursion, which no `catch (\Exception)` handles, so it
    escapes the command wherever it happens.
- **Empty lines.** The intended behaviour is that an empty line is ignored. In the code a line
  that trims to `""` or `"0"` ends the connection loop.

## Model

| member | source | states |
|---|---|---|
| Seqs.Dedup | Command/AsseticDumpFilesCommand.php:189 | `array_unique`: the result has no duplicates and holds exactly the members of the input; its order is stated by `DedupKeepsFirstOccurrences` |
| Seqs.DedupKeepsFirstOccurrences | Command/AsseticDumpFilesCommand.php:189 | `array_unique` keeps first occurrences in input order: before any occurrence of a result entry, the input already holds every earlier result entry |
| Seqs.DedupOfDistinct | Command/AsseticDumpFilesCommand.php:204 | `array_unique` leaves a list without duplicates unchanged |
| Seqs.Flatten | Command/AsseticDumpFilesCommand.php:189 | `array_merge` of the collected lists holds exactly the members of the lists; it keeps repeats that PHP's name-keyed merge collapses, and the two agree once the `array_unique` that always follows is applied |
| Seqs.FlattenAppend | Command/AsseticDumpFilesCommand.php:204 | merging two runs of lists is merging each and concatenating |
| PhpStrings.StrPos | Command/AsseticDumpFilesCommand.php:176 | `strpos` with an in-range offset and a nonempty needle returns the first occurrence at or after the offset, and `false` only when none exists |
| PhpStrings.IsFalsy | Command/AsseticDumpFilesCommand.php:283 | PHP's truthiness of a string: a false string is `""` or `"0"`, never two or more characters |
| PhpStrings.Trim | Command/AsseticDumpFilesCommand.php:283 | `trim` returns the longest middle part that neither starts nor ends with a blank, with only blanks cut on either side |
| Assets.WithFilters | Command/AsseticDumpFilesCommand.php:54-55 | the clone carries exactly the given filters, stays a leaf or a reference as the original was, and keeps a leaf's root and path or a reference's target |
| Assets.EnsureFilter | Command/AsseticDumpFilesCommand.php:57 | `ensureFilter` keeps the filters already present as a prefix and adds the new one at the end only if it is absent, and nothing else |
| Assets.PrefixClone | Command/AsseticDumpFilesCommand.php:54-59 | the clone fed to a filter carries exactly the preceding filters, deduplicated, and the leaf's other attributes; with distinct filters this is `filters[0..i)` |
| GraphBuilder.Walk | Command/AsseticDumpFilesCommand.php:36-69 | the walk never visits a collection, and a non-collection asset is visited last, after everything extracted from it |
| GraphBuilder.WalkEach | Command/AsseticDumpFilesCommand.php:38-41 | walking a collection's children visits no collection |
| GraphBuilder.WalkFilters | Command/AsseticDumpFilesCommand.php:45-64 | the visits the filter loop makes, from filter `i` on, contain no collection |
| GraphBuilder.FilterVisits | Command/AsseticDumpFilesCommand.php:49-63 | a non-extracting filter extracts nothing; an extracting one walks the children extracted from the prefix clone; no collection is visited |
| GraphBuilder.AddName | Command/AsseticDumpFilesCommand.php:138 | adds `name` under `source` at most once, keeps the names already there, creates the key if missing, and changes no other key and no referrer |
| GraphBuilder.Record | Command/AsseticDumpFilesCommand.php:126-139 | a reference appends the current name to its target's referrers and leaves the sources alone; any other leaf adds the name under its `root/path` key; nothing recorded is lost |
| GraphBuilder.RecordAll | Command/AsseticDumpFilesCommand.php:126-139 | recording a run of visits loses no source key and no recorded name |
| GraphBuilder.BuildFrom | Command/AsseticDumpFilesCommand.php:125-144 | a successful build of the catalog loses no source key and no name of the map it starts from |
| GraphBuilder.SourceMapBuilder.constructor | Command/AsseticDumpFilesCommand.php:117-118 | the builder starts with empty `files` and `assets` |
| GraphBuilder.SourceMapBuilder.Visit | Command/AsseticDumpFilesCommand.php:126-139 | the visitor's update of the map equals `Record` of the old map |
| GraphBuilder.SourceMapBuilder.WalkAsset | Command/AsseticDumpFilesCommand.php:36-69 | `walkAsset` fails exactly when the walk specification fails, and otherwise records the walk's visits in order |
| GraphBuilder.SourceMapBuilder.WalkFilterLoop | Command/AsseticDumpFilesCommand.php:43-65 | the filter loop, growing `prevFilters` one filter per round, fails exactly when `WalkFilters` fails and otherwise records its visits in order |
| GraphBuilder.SourceMapBuilder.WalkFilterChildren | Command/AsseticDumpFilesCommand.php:47-63 | one round: the prefix clone is built from `prevFilters` without its last filter, and walking its extracted children matches `FilterVisits` |
| GraphBuilder.SourceMapBuilder.WalkAssets | Command/AsseticDumpFilesCommand.php:38-41 | walking the children in order matches `WalkEach` and records its visits |
| GraphBuilder.BuildSourceToAssetMap | Command/AsseticDumpFilesCommand.php:115-150 | the built map, or the first error, is the catalog walk specified by `BuildFrom` |
| GraphBuilder.FiltersStep | Command/AsseticDumpFilesCommand.php:46-64 | one more round of the filter loop: its failure is the loop's failure, and otherwise its visits follow those of the earlier rounds |
| GraphBuilder.FiltersDone | Command/AsseticDumpFilesCommand.php:46-64 | once every filter has had its round, the loop's visits are those collected so far |
| GraphBuilder.RecordAllAppend | Command/AsseticDumpFilesCommand.php:126-139 | recording two runs of visits is recording them one after the other |
| GraphBuilderProperties.StaticWalkVisitsLeaves | Command/AsseticDumpFilesCommand.php:38-41 | with no extracting filters, the walk visits exactly the tree's leaves, left to right |
| GraphBuilderProperties.StaticWalkEachVisitsLeaves | Command/AsseticDumpFilesCommand.php:39-41 | with no extracting filters, the children's walks together visit their leaves in order |
| GraphBuilderProperties.StaticFiltersVisitNothing | Command/AsseticDumpFilesCommand.php:49-51 | non-extracting filters cause no extraction and no visit |
| GraphBuilderProperties.RecordAllFiles | Command/AsseticDumpFilesCommand.php:134-139 | a name is under a source key exactly when it was before, or it is the current name and a visited file-backed leaf has that key |
| GraphBuilderProperties.RecordAllReferrers | Command/AsseticDumpFilesCommand.php:127-133 | each reference visit appends the current name once to `assets[target]`, and no key is dropped from `files` |
| GraphBuilderProperties.RecordWellFormed | Command/AsseticDumpFilesCommand.php:138 | recording keeps every source key's names free of duplicates and the key order in step with the keys |
| GraphBuilderProperties.RecordNamesWithin | Command/AsseticDumpFilesCommand.php:133-138 | recording under an allowed name keeps every recorded name allowed |
| GraphBuilderProperties.RecordAllInvariants | Command/AsseticDumpFilesCommand.php:126-139 | recording many visits keeps both invariants |
| GraphBuilderProperties.BuildInvariants | Command/AsseticDumpFilesCommand.php:125-144 | building from a well-formed map over allowed names keeps it so |
| GraphBuilderProperties.BuiltMapInvariants | Command/AsseticDumpFilesCommand.php:115-150 | a built map is well formed and records only names from the catalog |
| ImpactResolver.EndsWith | Command/AsseticDumpFilesCommand.php:174-177 | `endsWith` is true exactly when the needle is a literal suffix of the haystack; `''` matches everything |
| ImpactResolver.RankOf | Command/AsseticDumpFilesCommand.php:194-207 | chooses a ranking and bound witnessing that the map can be resolved: every recorded name that is referenced is ranked below the bound, and every reference edge from a ranked name descends |
| ImpactResolver.NoCycleFromRecorded | Command/AsseticDumpFilesCommand.php:194-207 | on a resolvable map, no walk of reference edges that getDependentAssets follows from a recorded name repeats a name |
| ImpactResolver.RankDescends | Command/AsseticDumpFilesCommand.php:197-201 | along a walk from a ranked name, every later referenced name ranks strictly lower |
| ImpactResolver.UnreachedCycleResolvable | Command/AsseticDumpFilesCommand.php:194-207 | an example: the map whose only source records `main` while `x` and `y` refer to each other is resolvable, so a cycle no recorded name reaches is allowed there |
| ImpactResolver.DependentAssets | Command/AsseticDumpFilesCommand.php:194-207 | `getDependentAssets` returns a list without duplicates; its members are stated by `DependentsAreReachable` |
| ImpactResolver.CollectDependents | Command/AsseticDumpFilesCommand.php:196-204 | the merged lists hold every direct referrer of each referenced name, and nothing when no name is referenced |
| ImpactResolver.CollectMembership | Command/AsseticDumpFilesCommand.php:197-203 | the merged lists hold the direct referrers of each referenced name and their own dependents, and nothing else |
| ImpactResolver.CollectWitness | Command/AsseticDumpFilesCommand.php:197-203 | each collected name comes from some referenced name, as its direct referrer or as one of its dependents |
| ImpactResolver.PathCons | Command/AsseticDumpFilesCommand.php:197-203 | a reference edge followed by a reference path is a path |
| ImpactResolver.DependentsReach | Command/AsseticDumpFilesCommand.php:194-207 | each dependent is reached from the names by one or more reference edges |
| ImpactResolver.ReachedAreDependents | Command/AsseticDumpFilesCommand.php:194-207 | each name reached by one or more reference edges is a dependent |
| ImpactResolver.DependentsAreReachable | Command/AsseticDumpFilesCommand.php:194-207 | a name is a dependent exactly when it is reachable through one or more edges; unreferenced names start no path |
| ImpactResolver.MatchGroups | Command/AsseticDumpFilesCommand.php:181-187 | for one changed name, at most two lists per source key |
| ImpactResolver.SourceGroups | Command/AsseticDumpFilesCommand.php:182-186 | one source key contributes at most two lists |
| ImpactResolver.SourceGroupsMembership | Command/AsseticDumpFilesCommand.php:182-186 | a source key contributes a name exactly when it ends with the changed name and the name is built from it or reaches one of its names |
| ImpactResolver.Groups | Command/AsseticDumpFilesCommand.php:180-188 | over all changed names, at most two lists per changed name and source key |
| ImpactResolver.Resolve | Command/AsseticDumpFilesCommand.php:189 | the merged and deduplicated lists have no duplicates |
| ImpactResolver.Impact | Command/AsseticDumpFilesCommand.php:172-192 | against any resolvable map, the result has no duplicates and holds exactly the impacted names, whatever ranking witnesses it |
| ImpactResolver.MatchGroupsMembership | Command/AsseticDumpFilesCommand.php:181-187 | for one changed name, the lists collected hold exactly the names and dependents of the sources it is a suffix of |
| ImpactResolver.GroupsMembership | Command/AsseticDumpFilesCommand.php:179-188 | over all changed names, the lists collected hold exactly the impacted names |
| ImpactResolver.ResolveMeaning | Command/AsseticDumpFilesCommand.php:174-189 | the result has no duplicates, holds exactly the impacted names, and is empty when no changed name matches a source |
| ImpactResolver.MatchGroupsStep | Command/AsseticDumpFilesCommand.php:181-187 | one more source key adds its names and their dependents exactly when it ends with the changed name |
| ImpactResolver.CollectStep | Command/AsseticDumpFilesCommand.php:181-187 | one round of the loop over source keys appends the key's names and their dependents exactly when it ends with the changed name |
| ImpactResolver.SourceEntry | Command/AsseticDumpFilesCommand.php:181 | every key in the table's key order has an entry, whose names are the ones the resolver reads |
| ImpactResolver.CollectMatches | Command/AsseticDumpFilesCommand.php:181-187 | the inner loop over source keys collects, in key order, the lists specified by `MatchGroups` |
| ImpactResolver.GroupsStep | Command/AsseticDumpFilesCommand.php:180-188 | one more changed name appends the lists collected for it to those of the earlier names |
| ImpactResolver.AssetsToDump | Command/AsseticDumpFilesCommand.php:172-192 | `getAssetsToDump` returns a list without duplicates of exactly the impacted names, empty when nothing matches |
| Dispatch.AllCommands | Command/AsseticDumpFilesCommand.php:281-283 | the commands of all connections, none of them `""` or `"0"` |
| Dispatch.Commands | Command/AsseticDumpFilesCommand.php:283 | a connection yields no more commands than lines, and none is `""` or `"0"` |
| Dispatch.CommandsAreTrimmedLines | Command/AsseticDumpFilesCommand.php:283 | the commands are the connection's lines, trimmed, in order from the first |
| Dispatch.CommandsStop | Command/AsseticDumpFilesCommand.php:283-299 | `quit` can only be the last command; reading stops early only at a line that trims to `""` or `"0"`, or after `quit` |
| Dispatch.CommandsAt | Command/AsseticDumpFilesCommand.php:283-299 | from line `j` on: a false line ends the commands, `quit` is the last one, any other line is a command followed by those of the next lines |
| Dispatch.Requests | Command/AsseticDumpFilesCommand.php:285-297 | dumps are requested only for lines other than `refresh` and `quit`; only the first dump can be forced, and only if the server started forced; `FirstDumpCarriesForce` gives the converse |
| Dispatch.FirstDumpCarriesForce | Command/AsseticDumpFilesCommand.php:285-297 | the first command that is neither `refresh` nor `quit` is dumped with the starting `force`; the commands before it only refresh, and those after it start unforced |
| Dispatch.OnlyRefreshes | Command/AsseticDumpFilesCommand.php:285-291 | commands that only refresh or quit request only refreshes and keep `force` |
| Dispatch.DumpHead | Command/AsseticDumpFilesCommand.php:293-295 | a dump request takes the current `force` and clears it for the rest |
| Dispatch.RequestsFollowCommands | Command/AsseticDumpFilesCommand.php:285-297 | every command but `quit` makes exactly one request, in order |
| Dispatch.ForceAfterStep | Command/AsseticDumpFilesCommand.php:295 | `force` after a run of commands is `force` after its first command, carried through the rest |
| Dispatch.ForceAfterAppend | Command/AsseticDumpFilesCommand.php:295 | `force` flows from one run of commands (one connection) into the next |
| Dispatch.RequestsAppend | Command/AsseticDumpFilesCommand.php:281-297 | the requests of two runs of commands are those of each, with `force` carried across |
| Dispatch.ForceConsumed | Command/AsseticDumpFilesCommand.php:293-295 | `force` survives a run of commands exactly when it was set and no dump was requested |
| DumpCommand.Rebuild | Command/AsseticDumpFilesCommand.php:218-220 | a rebuild stores the built map in the field and the cache file, and on a failure changes nothing |
| DumpCommand.Lookup | Command/AsseticDumpFilesCommand.php:215-231 | a successful lookup leaves the returned map memoised; a failed one changes nothing; usable maps stay usable |
| DumpCommand.CachePolicy | Command/AsseticDumpFilesCommand.php:217-228 | forced or file missing: build, write and memoise; field set: return it untouched; otherwise read the file, rebuilding only for content that is not a map |
| DumpCommand.LookupCoherent | Command/AsseticDumpFilesCommand.php:217-228 | the field always equals what the cache file holds, and a returned map is the file's content |
| DumpCommand.LookupStable | Command/AsseticDumpFilesCommand.php:221 | after a successful lookup, an unforced one returns the same map and changes nothing |
| DumpCommand.DumpAll | Command/AsseticDumpFilesCommand.php:251-253 | the loop dumps a prefix of the names, in order, and all of them when nothing throws |
| DumpCommand.DumpStopsAtFirstFailure | Command/AsseticDumpFilesCommand.php:243-254 | names are dumped in result order, each completing; without an exception all are dumped; otherwise the run stops at the first name that throws, with that name's message |
| DumpCommand.DumpAllAt | Command/AsseticDumpFilesCommand.php:251-253 | at each position the loop either stops with that name's exception, keeping the names dumped so far, or dumps that name and goes on |
| DumpCommand.Report | Command/AsseticDumpFilesCommand.php:255-258 | a caught exception writes one error line, and none when its message is `""` or `"0"` |
| DumpCommand.DumpAssets | Command/AsseticDumpFilesCommand.php:240-260 | doDumpAssets keeps every map the cache hands out usable |
| DumpCommand.Retried | Command/AsseticDumpFilesCommand.php:245-259 | the try block after the first resolution keeps the cache usable |
| DumpCommand.RetryOnlyWhenEmpty | Command/AsseticDumpFilesCommand.php:242-250 | when the first lookup throws, nothing is resolved and its error escapes with only the lookup's cache change; otherwise the first resolution is made against the looked-up map; at most two resolutions, a second only when the first is empty and against a fresh build; a forced rebuild that nests too deeply escapes |
| DumpCommand.Finish | Command/AsseticDumpFilesCommand.php:251-258 | the dump loop and its catch block keep the cache, append to the dumped names a prefix of `names`, and add at most one error line |
| DumpCommand.ReportOnce | Command/AsseticDumpFilesCommand.php:255-258 | reporting adds nothing, or one error line with a message that is neither `""` nor `"0"` |
| DumpCommand.FinishFollows | Command/AsseticDumpFilesCommand.php:251-258 | the dumped names are a prefix of the names, each completed; a short prefix means the next name threw and its message was reported |
| DumpCommand.DumpsFollowResolution | Command/AsseticDumpFilesCommand.php:242-259 | dumped names are a prefix of the last resolution, each completed; the first exception aborts the rest and is reported; an extraction error from the retry's forced rebuild is reported and nothing is dumped; an escaping exception, including too-deep nesting in the retry, dumps and reports nothing |
| DumpCommand.Execute | Command/AsseticDumpFilesCommand.php:285-296 | handling one request keeps the cache usable |
| DumpCommand.Perform | Command/AsseticDumpFilesCommand.php:283-299 | handling requests up to the first exception keeps the cache usable |
| DumpCommand.RefreshRebuildsOnly | Command/AsseticDumpFilesCommand.php:286-288 | `refresh` rebuilds and stores the map, dumps and reports nothing, and throws exactly when the build fails |
| DumpCommand.ServeStep | Command/AsseticDumpFilesCommand.php:283-299 | serving a command and then the rest of the connection is serving the first, then the rest with the `force` it leaves, unless an exception escaped |
| DumpCommand.QuitRequestsNothing | Command/AsseticDumpFilesCommand.php:289-291 | `quit` dumps nothing and leaves `force` as it was |
| DumpCommand.PerformAppend | Command/AsseticDumpFilesCommand.php:279-303 | serving two runs of requests is serving the first, then the second unless an exception escaped |
| DumpCommand.DumpFilesCommand.constructor | Command/AsseticDumpFilesCommand.php:34 | the field starts unset, next to whatever cache file a previous run left |
| DumpCommand.DumpFilesCommand.Rebuilt | Command/AsseticDumpFilesCommand.php:218-220 | build, then write the file and set the field only if the build succeeded |
| DumpCommand.DumpFilesCommand.GetSourceToAssetMap | Command/AsseticDumpFilesCommand.php:215-231 | the new field, file and result are those of `Lookup` |
| DumpCommand.DumpFilesCommand.DumpNames | Command/AsseticDumpFilesCommand.php:251-253 | the loop dumps the names `DumpAll` gives and returns the stopping exception's message |
| DumpCommand.DumpFilesCommand.ReportError | Command/AsseticDumpFilesCommand.php:255-258 | the catch block appends `Report(msg)` to stderr |
| DumpCommand.DumpFilesCommand.DoDumpAssets | Command/AsseticDumpFilesCommand.php:240-260 | the new state, the resolutions and an escaping exception are those of `DumpAssets` |
| DumpCommand.DumpFilesCommand.RetryAndDump | Command/AsseticDumpFilesCommand.php:245-259 | the retry and the dumps match `Retried` |
| DumpCommand.DumpFilesCommand.DumpAndReport | Command/AsseticDumpFilesCommand.php:251-258 | the dump loop and its catch block match `Finish` |
| DumpCommand.DumpFilesCommand.Handle | Command/AsseticDumpFilesCommand.php:285-297 | one command line performs its request, and `force` is cleared by a dump |
| DumpCommand.DumpFilesCommand.ServeLine | Command/AsseticDumpFilesCommand.php:283-299 | one pass of the read loop: a false line ends the connection, `quit` closes it, any other line performs its request; what is left is the requests of the following lines |
| DumpCommand.DumpFilesCommand.ServeConnection | Command/AsseticDumpFilesCommand.php:283-300 | one connection performs the requests of its commands, up to the first exception |
| DumpCommand.DumpFilesCommand.RunServer | Command/AsseticDumpFilesCommand.php:270-304 | a bind failure throws "Could not bind to socket: …" and changes nothing; otherwise all connections' requests are performed in order, with `force` carried across connections, until an exception escapes |

## Left out

- The socket is not modelled. A bind failure is a parameter, and the accepted
  connections are a finite list of line lists. Accept timeouts, `sleep(1)`,
  `fclose` and the endless outer loop are left out; a run ends with `Listening`
  once the listed connections are served.
- Reads after `quit` follow PHP 7. Reading from and closing the closed client
  only warns, and `fgets` then returns `false`. The model does not capture the
  `TypeError` that later PHP versions raise there.
- Console output to stdout is not modelled: the header, `Listen:`, `> cmd`,
  `Dismissed` and what `dumpAsset` prints. Stderr is a list of lines.
- Reflection is not modelled: the `getAsseticFactory` hack and the reading of an
  `AssetReference`'s private name. The factory is implicit, and a reference
  carries its target name.
- `serialize`, `unserialize`, `file_put_contents` and `clearstatcache` are not
  modelled, nor the cache path built from `sys_get_temp_dir` and `sha1`.
  - The cache file is a field: absent, holding a map, or holding content that
    does not unserialize to an array.
  - A cache file that holds some other array is not modelled.
- Assetic internals are parameters.
  - Child extraction (`load`, `getContent`, `getChildren`) is a function from a
    filter and the prefix clone to children or an error message.
  - `dumpAsset` is a function from a name to an optional exception message.
  - `am->clear()` and `am->load()` are not modelled: the catalog is given.
- Assetic's collection iterator, which flattens nested collections and applies a
  collection's filters to its leaves, is left out. A collection's children are
  what the iteration yields.
- The asset sources do not change while the server runs. One world (catalog,
  extraction, dump outcome) serves every request, so `refresh` rebuilds from the
  same world.
- GraphBuilder.Walk: extraction recursion is bounded by a depth (fuel), and
  exhausting it is the error `DepthExceeded`. It stands for PHP's fatal error on
  unbounded recursion and always escapes the command. A finite extraction chain
  deeper than the depth fails in the model although PHP builds it.
- ImpactResolver.DependentAssets: it requires a ranking that descends along
  every reference edge from the names it expands. PHP needs that only from the
  names it actually expands, and the model asks the same of every name recorded
  under any source (RecordedBelow). A map with a cycle reached from some recorded
  name that no changed file matches is excluded, although PHP resolves it.
- ImpactResolver.AssetsToDump: the same requirement as DependentAssets, over every
  recorded name rather than only those of the matched sources.
- DumpCommand.DumpFilesCommand.RunServer: it requires that every map the cache
  can hand out, and every map the world builds, is resolvable in that sense. A
  world whose only cycles are reached from names of sources that no changed file
  ever matches is excluded, although PHP would serve it.
- PHP array keys that look like integers are not modelled. PHP converts such
  keys, and they are renumbered by `array_merge`. Source keys and asset names
  are plain strings here.
- Option parsing in `configure` and `execute` is not modelled. This includes the
  one-off `doDumpAssets` of the `files` argument before the server starts.
