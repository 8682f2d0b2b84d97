# Verified models of the repository's gates, runners and protocols

This Dafny 4.11 project models the algorithms and protocols in `scripts/`, `benchmarks/` and the PWA
worker that no finite set of tests settles, and proves what they promise for every input, every run and
every interleaving. `dafny verify dfyconfig.toml` checks all of it.

| file | system |
|---|---|
| `Forms`, `Matching`, `NewPairs` | the duplicate-function gate: similarity, Kuhn's matching, counterparts, reported pairs |
| `Hunks`, `DiffText`, `Changes`, `Text` | `git diff -U0`: text, headers, hunks, edit scripts, line maps, touched functions |
| `Keys`, `CrapPolicy`, `Sorting` | function keys, the CRAP gate's rules over its limits, the stable sort they share |
| `StartupImports`, `Lists` | the breadth-first import guard; reversal, which the profiles share |
| `MutationPool` | the mutation runner's worker pool, as interleaved steps |
| `RunExclusive` | the mkdir lock, as file operations of processes that may be killed between any two |
| `WarmModules` | the module-graph warmer: slot handover, claims, answers |
| `ServiceWorker` | install, activate and fetch of every build that one scope served |
| `ProfileGraph`, `ProfileTime`, `Leaderboard`, `Folded` | CPU profiles: forest check, stacks, leaderboard, folded printer |
| `NpmPaths`, `Shrinkwrap` | lockfile keys, Node's lookup, the published subtree |
| `UsageRollup` | session usage over a ledger forest |
| `Lcov` | zero runs, suspect windows, function coverage |

Code that changes state step by step is a method or a class against a specification function
(`Matching.Matcher`, the array walks of `ProfileGraph`, every loop over maps and queues); pure rules are
functions; the four protocols are state machines whose invariants are proved for every step and lifted to
every run. Numbers are exact (`int`, `real`).

## What the proofs found

Each of these is a lemma with a concrete run or input, beside a theorem that says when the code does hold.

- The lock is a lock if and only if five things are assumed (`RunExclusive.LockIffAllAssumed`): the owner file is
  written in time, no kill falls between spawn and `childPid`, no `childPid` is written between the two reads of
  one owner's file, no second ownerless lock passes for the tested one, and no new lock appears between the second
  read and the rename. Only the last is the race that the comment concedes. `removeStale` compares pids alone, so
  a late `childPid` (`OldReadBreaksTheLock`) and an ownerless twin (`OwnerlessTwinBreaksTheLock`) go unseen. Every
  other lock that changed hands after the first read is caught (`SecondReadSparesTheNewLock` is such a run).
- `npmPath` is not injective: `@x` and `@x/undefined` share a folder. `NpmPaths.PathsMeetIff` says exactly
  which keys do; none of them is in a tree whose edges name packages.
- `keyRows` and `keyed` drop a row when a function is named like another one's ordinal key, `f[2]` beside two
  `f`. `Keys.SameKeyIffClash` is the exact condition; keys that do not end in a bracket never meet it.
- `concurrency: 1.5` passes the warmer's check and then runs two fetches. `concurrency` bounds the fetches in
  every run if and only if it is whole or not below `MAX_MODULES - 1` (`WarmModules.LimitIffWhole`).
- An active build that installs again under its own id and fails deletes the cache it serves from, and an
  activation beside a running install drops what that install stores (`ServiceWorker.SameIdBreaksTheLaunch`,
  `BusyActivateBreaksTheLaunch`). Every active build launches offline if and only if the two are ruled out
  (`LaunchesIffAllAssumed`).
- The usage summary counts a session once too often for each further honoured ledger that lists it:
  `UsageRollup.TwoLedgersCountTwice` is an archive whose five tokens become ten. `CountsOnceIff` is the exact
  condition, and every forest of ledgers is counted exactly (`ForestCountsOnce`).
- `edgesOf` asks `name in optional` of a plain object, so a dependency named `constructor`, or like any other member
  that objects inherit, is taken for an optional one and lost: a file is published without it
  (`Shrinkwrap.InheritedNameIsLost`). Every other name is safe (`Shrinkwrap.AskedIsHeldIff`).

## Model

| member | source | states |
|---|---|---|
| Forms.PreFilterIsExact | scripts/dry/dryer_report.py:141-147 | `similar` accepts a pair if and only if the sets are not both empty and Jaccard reaches the threshold; the size pre-filter drops nothing |
| Forms.JaccardIsAShare | scripts/dry/dryer_report.py:141-147 | the score is the share of common fingerprints, 1 for equal sets only and 0 for disjoint ones only |
| Matching.Matcher.Claim | scripts/dry/dryer_report.py:222-230 | one augmenting search over the shared `owner` and `seen`: success matches the form to an untried base and unmatches nobody, failure changes no owner and leaves a closed set of tried bases; it ends because `seen` grows |
| Matching.TakeFrom | scripts/dry/dryer_report.py:227-229 | a base that changes hands after its rival moved on keeps the matching one-to-one and every matched form matched |
| Matching.WeakDuality | scripts/dry/dryer_report.py:205-235 | no matching is larger than the owners when every other form wants only dead bases (Koenig's bound) |
| Matching.PrefixStaysMaximum | scripts/dry/dryer_report.py:232-233 | after each claim the matching is maximum on every prefix of the tried forms |
| Matching.ClaimAll | scripts/dry/dryer_report.py:232-233 | the loop: a failed form stays dead, a matched form stays matched |
| Matching.Reordered | scripts/dry/dryer_report.py:205-235 | the result is a one-to-one matching over accepted pairs, of maximum size on every prefix of the start-line order; a form whose best candidate no other lost form could take gets it |
| Matching.EarliestFormsAreMatched | scripts/dry/dryer_report.py:232-235 | against any other matching, the first form on which they differ is matched here |
| Matching.OptionsAreSimilar | scripts/dry/dryer_report.py:213-219 | the options of an added form are exactly the removed forms that `similar` accepts |
| Matching.BestScoreFirst | scripts/dry/dryer_report.py:213-218 | a form's candidates come by falling score, and those of one score in the order of the file |
| Matching.ByStartAscends | scripts/dry/dryer_report.py:232-232 | forms are tried by start line, and those of one line in the order they came in |
| Hunks.BaseLine | scripts/dry/dryer_report.py:150-166 | the loop with the running offset computes the recursive line map of the sorted hunks |
| Hunks.ReplacedLine | scripts/dry/dryer_report.py:169-180 | the loop returns the position-wise partner in the first hunk that holds the line |
| Hunks.BaseLineIsKept | scripts/dry/dryer_report.py:150-166 | for the hunks of any edit script, `base_line` is the script's own map on every head line: None exactly on written lines |
| Hunks.ReplacedLineIsReplaced | scripts/dry/dryer_report.py:169-180 | for the hunks of any edit script, `replaced_line` is the position-wise map inside each change |
| Hunks.KeptLineIsUnchanged | scripts/dry/dryer_report.py:150-166 | `head[l] == base[base_line(l)]` on every kept line |
| Hunks.KeptIsIncreasing | scripts/dry/dryer_report.py:150-166 | the line map is strictly increasing on kept lines |
| Hunks.ImageIsWhatSurvives | scripts/dry/dryer_report.py:150-166 | the image of the line map is every base line that the script did not remove |
| Hunks.KeptAndReplacedAreDisjoint | scripts/dry/dryer_report.py:150-180 | no base line is both kept and replaced |
| Hunks.ReplacedIsInBase | scripts/dry/dryer_report.py:169-180 | a replaced line is a line of the base and has no kept one |
| Hunks.TouchedExactly | scripts/crap/policy.ts:120-141 | a function is touched if and only if a line was written inside it or a deletion fell between two of its lines |
| DiffText.ParsePrintedHunk | scripts/crap/policy.ts:74-110 | the header expression reads back every printed hunk header, left-out counts and section headings included |
| DiffText.Scan | scripts/crap/policy.ts:91-111 | the counting loop computes the recursive reading of the lines |
| DiffText.BodyIsSkipped | scripts/crap/policy.ts:79-98 | a hunk's body is skipped by count, whatever its lines look like (`+++ x`, `@@ ... @@`) |
| DiffText.HeadersRoundTrip | scripts/crap/policy.ts:85-112 | the headers read from any well-formed diff text are exactly the ones printed |
| Changes.ParseHunks | scripts/crap/changes.ts:54-66 | the loop files each hunk under the open head path |
| Changes.ParseChangedLines | scripts/crap/policy.ts:120-136 | the span lists are the head-side spans of the same hunks |
| Changes.HunksRoundTrip | scripts/crap/changes.ts:50-66 | from the whole text, each printed path gets exactly its printed hunks |
| Changes.ScriptTextIsWellFormed | scripts/crap/policy.ts:76-85 | any text that prints an edit script, with a section heading of its own for each hunk and no-newline notes, is a well-formed diff with the script's hunks |
| Changes.ScriptTextPrints | scripts/crap/policy.ts:76-85 | every script of one-line texts has such a text, under any headings and notes |
| Changes.DiffGivesTheLineMap | scripts/crap/changes.ts:54-66 | from any diff text whose hunks are an edit script's to `base_line` and `replaced_line`: the maps of that script |
| Changes.DiffGivesTheTouchedFunctions | scripts/crap/policy.ts:120-141 | from any diff text whose hunks are an edit script's to `touched`: exactly the functions the script changed |
| NewPairs.Counterpart | scripts/dry/dryer_report.py:183-202 | the first base form that holds most of the mapped lines, or None when none holds any |
| NewPairs.HoldsMostIsUnique | scripts/dry/dryer_report.py:197-202 | that description fixes the counterpart |
| NewPairs.EvidenceOfScript | scripts/dry/dryer_report.py:191-200 | over an edit script, what counts for a base form are the kept lines it held or, when the form kept none, the lines replaced by position |
| NewPairs.AddedFormHasNoCounterpart | scripts/dry/dryer_report.py:183-189 | a form made only of added lines has no base form |
| NewPairs.KeptFormHasACounterpart | scripts/dry/dryer_report.py:183-202 | a form with a kept line that a base form held has a base form, which held kept lines of it |
| NewPairs.FindOwners | scripts/dry/dryer_report.py:258-273 | counterparts first; then, per changed path, the lost forms take a prefix-maximum matching of the removed forms, each its best one where nobody else wants that, and nothing else changes |
| NewPairs.RemovedKeepsOrder | scripts/dry/dryer_report.py:270-270 | the removed forms keep the order of the file, which decides between equal scores |
| NewPairs.RepairsAreOneToOne | scripts/dry/dryer_report.py:264-273 | a repaired base stands for one added form only and for no kept form |
| NewPairs.PairKeyIdentifies | scripts/dry/dryer_report.py:298-300 | the sorted key pair names the unordered pair and no other |
| NewPairs.HitExactly | scripts/dry/dryer_report.py:288-297 | the loop's tests hold exactly when one side is touched, Jaccard reaches the threshold and the two counterparts are not two distinct similar base forms |
| NewPairs.NewlySimilarIsSymmetric | scripts/dry/dryer_report.py:278-297 | being newly similar does not depend on the side |
| NewPairs.ReportPairs | scripts/dry/dryer_report.py:285-300 | the double loop keeps one entry per unordered pair, the first hit's |
| NewPairs.ReportedExactly | scripts/dry/dryer_report.py:285-300 | an unordered pair is reported if and only if the diff made it |
| NewPairs.NewPairs | scripts/dry/dryer_report.py:238-301 | the whole function: owners as above, and every pair reported exactly when the diff made it |
| Sorting.SortSorts | scripts/crap/policy.ts:62-62 | rows come in start-line order |
| Sorting.SortIsStable | scripts/dry/dryer_report.py:130-130 | and rows of one line keep the order they had |
| Sorting.SortKeepsOrder | scripts/crap/policy.ts:62-62 | of two rows of one line, the one that stood first comes first |
| Keys.KeyRows | scripts/crap/policy.ts:61-72 | each key holds the last row that got it |
| Keys.SuffixedIsInjective | scripts/dry/dryer_report.py:125-134 | ordinal keys tell rows apart |
| Keys.AssignedSays | scripts/crap/policy.ts:61-72 | a row has its plain key, or behind it the number of rows of that key so far |
| Keys.SameKeyIffClash | scripts/crap/policy.ts:61-72 | two rows share a key if and only if one's plain key is the other's ordinal key |
| Keys.NoBracketNoLoss | scripts/dry/dryer_report.py:125-134 | no row is lost when no plain key ends in a bracket |
| Keys.BracketNameLosesARow | scripts/crap/policy.ts:61-72 | two functions `f` and one `f[2]`: two rows share a key |
| CrapPolicy.CrapFallsWithCoverage | scripts/crap/thresholds.ts:43-87 | CRAP falls with coverage and is never below CC, its value at full coverage |
| CrapPolicy.ViolationsAreUpwardClosed | scripts/crap/policy.ts:147-271 | a violation of any rule stays one when the score rises |
| CrapPolicy.BlocksIffAtFullCoverage | scripts/crap/policy.ts:273-321 | on an incomplete or suspect report a scored row blocks if and only if the same rules block it at full coverage |
| CrapPolicy.BlocksIffAtEveryCoverage | scripts/crap/policy.ts:273-321 | so it blocks if and only if it would block at every possible coverage |
| CrapPolicy.VerdictFollowsTheRules | scripts/crap/policy.ts:147-321 | in numbers: a kept function blocks if and only if its CC, or its CRAP with both sides scored, grew and it is above 10 CC without a score or 30 CRAP with one; a new one is found above 8 CC or 15 CRAP and blocks without relief or above 30 CRAP; a touched hotspot above 30 that did not shrink is taxed; scores that may miss hits count as at full coverage |
| CrapPolicy.SumMoves | scripts/crap/policy.ts:210-223 | the loop sums what kept functions lost and the decision points of new ones |
| CrapPolicy.KeyedTotal | scripts/crap/policy.ts:339-346 | when no row is lost to a shared key, the keyed rows have the total CC that `evaluate` takes of all rows |
| CrapPolicy.TotalsBalance | scripts/crap/thresholds.ts:68-107 | how the total CC that the gate compares moved, in terms of kept, new and removed functions, when no row is lost to a shared key |
| CrapPolicy.MoveReliefAcceptsASmallerCut | scripts/crap/thresholds.ts:68-107 | on those totals, with no function removed, net-extraction relief asks for a cut larger by the number of new functions plus one |
| CrapPolicy.KeyedByStartLine | scripts/crap/policy.ts:61-64 | ordinals follow the start lines |
| CrapPolicy.Evaluate | scripts/crap/policy.ts:339-359 | every keyed head row is found and blocked exactly by those rules, under the totals and moves of the two sides |
| StartupImports.SubpathKeepsTheName | scripts/check-startup-imports.ts:155-159 | every subpath of an unscoped package has the package's name |
| StartupImports.ScopedSubpathKeepsTheName | scripts/check-startup-imports.ts:155-159 | every subpath of a scoped package has the scoped name |
| StartupImports.BannedIff | scripts/check-startup-imports.ts:161-165 | a package is banned when it is listed, or when its scope is listed with a star |
| StartupImports.InNodeModulesIff | scripts/check-startup-imports.ts:143-145 | a file is in node_modules when a path segment is called so |
| StartupImports.OwningPackage | scripts/check-startup-imports.ts:138-141 | and belongs to the package below the innermost one |
| StartupImports.EdgesAreImports | scripts/check-startup-imports.ts:255-280 | an import is followed, or reports a banned package by name or by folder, exactly as its kind, `external`, `original` and path say |
| StartupImports.ShortPathIsDone | scripts/check-startup-imports.ts:250-283 | whatever a path shorter than the head's layer reaches was visited and followed |
| StartupImports.ChainTo | scripts/check-startup-imports.ts:275-277 | the chain rebuilt from `parent` is a real path of the file's breadth-first depth |
| StartupImports.FirstReportIsShortest | scripts/check-startup-imports.ts:272-277 | no chain to a package is shorter than the first one found |
| StartupImports.Follow | scripts/check-startup-imports.ts:255-283 | one file's imports keep the search layered and its reports exact |
| StartupImports.Analyze | scripts/check-startup-imports.ts:243-284 | per entry: a package is reported if and only if an eager edge to it leaves a reachable file, once, with a shortest chain; visited files are the reachable ones; a missing file is reachable |
| StartupImports.AnalyzeStartupImports | scripts/check-startup-imports.ts:240-292 | over the imports of the metafile, for every entry in order: the visited files are those that eager, bundled imports outside banned packages lead to; a package is reported if and only if one of them imports it by a resolved external name or by a file in its folder, once, by a shortest chain; a missing file is loaded by one of them |
| MutationPool.StepKeepsInv | scripts/mutate/mutate_report.py:408-432 | every step of every thread keeps each worker in one place |
| MutationPool.FreePlusHeldIsAlive | scripts/mutate/mutate_report.py:405-432 | in every reachable state free plus held workers are `alive`, and no worker is in two hands |
| MutationPool.HandedOutIsClean | scripts/mutate/mutate_report.py:417-428 | a worker whose copy stayed mutated is never in the queue and never used |
| MutationPool.NoDeadlock | scripts/mutate/mutate_report.py:399-432 | while a site has no row, some thread can step |
| MutationPool.RunIsBounded | scripts/mutate/mutate_report.py:408-437 | every step uses up part of a bounded rank |
| MutationPool.EverySiteGetsItsRow | scripts/mutate/mutate_report.py:387-437 | a run has at most four steps per site and ends with one row per site in input order, "no-test" exactly without a plan, "no worker left" only with none alive |
| MutationPool.RowsSayWhatHappened | scripts/mutate/mutate_report.py:399-432 | a row has a result exactly when the runner returned, an error exactly when it raised, "no worker left" exactly when the thread got None; a worker is retired exactly when a runner left its copy mutated or unreadable |
| MutationPool.RunningIsBounded | scripts/mutate/mutate_report.py:436-437 | no more calls run at once than there are threads |
| RunExclusive.StepKeepsInv | scripts/lib/run_exclusive.js:61-128 | every file operation, liveness test, spawn, exit and crash keeps the lock's invariant |
| RunExclusive.MutualExclusion | scripts/lib/run_exclusive.js:61-161 | in every run under the five assumptions, whether or not the lock changes hands under a waiter, at most one wrapper or command is alive under the lock |
| RunExclusive.OnlyOwnOrDeadLocksGo | scripts/lib/run_exclusive.js:85-128 | `release` removes only its own lock, and a waiter moves aside only a lock whose maker is dead, while nobody runs |
| RunExclusive.EveryReleaseFrees | scripts/lib/run_exclusive.js:124-128 | a wrapper that ends normally finds its own pid and removes its lock |
| RunExclusive.WholeRunFrees | scripts/lib/run_exclusive.js:102-161 | a wrapper on its own takes a free lock, names itself and its command in it, and leaves it free |
| RunExclusive.FailedRunFrees | scripts/lib/run_exclusive.js:145-157 | so does one whose command cannot be started |
| RunExclusive.DeadLockIsTakenOver | scripts/lib/run_exclusive.js:73-122 | one attempt takes over a lock whose holder and command are dead, or which is older than ten seconds without an owner, and leaves any other one alone |
| RunExclusive.SlowOwnerBreaksTheLock | scripts/lib/run_exclusive.js:61-83 | an owner file that takes too long: two holders |
| RunExclusive.KillAtSpawnBreaksTheLock | scripts/lib/run_exclusive.js:145-148 | a kill between spawn and `childPid`: two holders |
| RunExclusive.LateRenameBreaksTheLock | scripts/lib/run_exclusive.js:85-100 | the race the comment concedes, a new lock between the second read and the rename: two holders |
| RunExclusive.OldReadBreaksTheLock | scripts/lib/run_exclusive.js:88-113 | a `childPid` written after the owner was read is not noticed: two holders |
| RunExclusive.OwnerlessTwinBreaksTheLock | scripts/lib/run_exclusive.js:88-98 | a new lock without an owner file passes for the tested one: two holders |
| RunExclusive.SecondReadSparesTheNewLock | scripts/lib/run_exclusive.js:85-91 | a run under all assumptions in which only the second read keeps a waiter from moving a new lock aside |
| RunExclusive.LockIffAllAssumed | scripts/lib/run_exclusive.js:61-161 | at most one holder in every run if and only if all five are assumed |
| WarmModules.StepKeepsInv | scripts/warmViteModules.ts:76-156 | every step keeps the semaphore, the walk and the tallies |
| WarmModules.SlotsAreBounded | scripts/warmViteModules.ts:74-88 | in every run slots in use equal `active`, handed-over ones included; they stay within `concurrency` for a whole number and below it plus one for any; a waiter means every slot is taken |
| WarmModules.FractionalConcurrencyIsExceeded | scripts/warmViteModules.ts:66-83 | with any fractional value below the module limit, some page makes more fetches run than `concurrency` |
| WarmModules.FewerThanModules | scripts/warmViteModules.ts:107-125 | no run holds more slots than there may be modules besides the page |
| WarmModules.LimitIffWhole | scripts/warmViteModules.ts:66-114 | `concurrency` bounds the slots of every run if and only if it is whole or not below the module limit |
| WarmModules.NoStall | scripts/warmViteModules.ts:74-88 | while a visit is open, one that holds a slot can go on |
| WarmModules.EachKeyIsFetchedAtMostOnce | scripts/warmViteModules.ts:107-125 | no key is fetched twice in any run |
| WarmModules.WarmsTheClosure | scripts/warmViteModules.ts:151-169 | on normal return `seen` is exactly the import closure of the page, `served` and `notFound` count the keys answered so, and there are no others |
| WarmModules.ReturnsIff | scripts/warmViteModules.ts:107-169 | a run that can go no further returns if and only if nothing aborted it, the closure has at most 20000 keys and every answer is a module or a 4xx |
| ServiceWorker.StepKeepsInv | public/service-worker.js:91-237 | every step of install, activate, fetch and late write keeps the active and the waiting build launchable |
| ServiceWorker.ActiveBuildLaunchesOffline | public/service-worker.js:146-206 | in every reachable state, offline: every launch is answered from the cache with a shell that names the active build's entry, and so are the entry and every first-load script |
| ServiceWorker.RootNavigationRefreshes | public/service-worker.js:91-114 | a root navigation that gets a shell of the build passes it on, and stores what the next offline launch gets |
| ServiceWorker.AllowListedIsRefreshed | public/service-worker.js:91-114 | the same for an allow-listed file under its URL |
| ServiceWorker.PrivateRequestsPassThrough | public/service-worker.js:209-237 | token URLs, other methods, foreign paths, API, oRPC and auth routes in any case, deep routes and unlisted files are never stored and never answered from the cache |
| ServiceWorker.AllowListedIff | public/service-worker.js:25-38 | the allow-list in full: the hashed names and six public files |
| ServiceWorker.InstallSucceedsIff | public/service-worker.js:152-186 | an install waits to be activated if and only if the shell and the first load were stored; a failed one drops its cache, but not the shared one |
| ServiceWorker.InstallStores | public/service-worker.js:131-150 | install takes a shell of its own build that was not redirected, and every file that a cache may keep |
| ServiceWorker.ActivateDropsTheOthers | public/service-worker.js:188-206 | activation leaves the scope one cache, its own |
| ServiceWorker.OnlyAllowListedIsStored | public/service-worker.js:208-237 | in every run, whatever is assumed of ids and activations, no cache holds anything but the shell and allow-listed paths, and no API, oRPC or auth path |
| ServiceWorker.AllowListedIsCacheable | public/service-worker.js:25-54 | no allow-listed name is an uncacheable route |
| ServiceWorker.SameIdBreaksTheLaunch | public/service-worker.js:175-184 | a failed reinstall of the active id deletes the cache it serves from |
| ServiceWorker.BusyActivateBreaksTheLaunch | public/service-worker.js:188-206 | an activation during another install leaves that build without its shell |
| ServiceWorker.LaunchesIffAllAssumed | public/service-worker.js:146-206 | every active build of every run answers its launch offline if and only if both assumptions are made |
| ProfileGraph.SetParent | scripts/perf/analyzeProfilesCore.ts:114-121 | a child keeps one parent, and a refusal means another one is recorded |
| ProfileGraph.LinkChildren | scripts/perf/analyzeProfilesCore.ts:122-129 | the pass over `children` records exactly those links, and fails only with a dangling link or a second parent that it names |
| ProfileGraph.LinkUp | scripts/perf/analyzeProfilesCore.ts:130-137 | the same for `parent` |
| ProfileGraph.LoopNeverEnds | scripts/perf/analyzeProfilesCore.ts:138-151 | a node that comes back to itself never reaches a root |
| ProfileGraph.RootsOrCycle | scripts/perf/analyzeProfilesCore.ts:138-151 | when every node reaches a root there is no cycle |
| ProfileGraph.WalkUp | scripts/perf/analyzeProfilesCore.ts:140-150 | one three-state walk ends, marks what reaches a root, or returns a node on a cycle |
| ProfileGraph.FindCycle | scripts/perf/analyzeProfilesCore.ts:138-151 | the amortised check: -1 only when every node reaches a root, else a node that comes back to itself |
| ProfileGraph.LinkParents | scripts/perf/analyzeProfilesCore.ts:105-152 | accepts if and only if ids are unique, no link dangles, each node has at most one parent and there is no cycle; a refusal names a fault of the nodes |
| ProfileTime.StackOf | scripts/perf/analyzeProfilesCore.ts:196-202 | the upward walk ends and, reversed, is the root-to-leaf stack without root frames |
| ProfileTime.FramesAreTheClimb | scripts/perf/analyzeProfilesCore.ts:196-202 | the frames are those met on the way up from the node, root frames left out, the top one first |
| ProfileTime.LeafIsNearest | scripts/perf/analyzeProfilesCore.ts:196-202 | the last one is the sampled node's own or, above a root frame, the nearest one's |
| ProfileTime.Weigh | scripts/perf/analyzeProfilesCore.ts:176-191 | each node gets the clamped time and the count of its samples; fails exactly on an unknown sample |
| ProfileTime.ReadCpuProfile | scripts/perf/analyzeProfilesCore.ts:161-214 | reads exactly the consistent forests with known samples, into one stack for each sampled node in node order, with its frames, time and count; a refusal names a fault of the profile, the first unknown sample among them |
| ProfileTime.StacksHoldTheSampleTime | scripts/perf/analyzeProfilesCore.ts:176-204 | the stacks weigh exactly the clamped deltas of all samples off the root |
| Leaderboard.AddTotals | scripts/perf/analyzeProfilesCore.ts:373-379 | every key of a stack gets its weight once, however often it recurs |
| Leaderboard.TakeStack | scripts/perf/analyzeProfilesCore.ts:365-383 | one stack keeps entries, categories and sums right |
| Leaderboard.AnalyzeProfiles | scripts/perf/analyzeProfilesCore.ts:344-395 | entries are exactly the keys that appear, each with a frame's own info and self, total and sample sums over all stacks |
| Leaderboard.SelfTimesAddUp | scripts/perf/analyzeProfilesCore.ts:363-384 | self times sum to the sampled time |
| Leaderboard.CategoriesAddUp | scripts/perf/analyzeProfilesCore.ts:348-371 | the seven categories sum to the sampled time |
| Leaderboard.SelfIsPartOfTotal | scripts/perf/analyzeProfilesCore.ts:363-384 | `0 <= selfUs <= totalUs <= sampledUs` for every key, recursion or not |
| Leaderboard.TimeIsConserved | scripts/perf/analyzeProfilesCore.ts:176-204 | over all profiles, sampled time is the clamped time of the samples off the root |
| Leaderboard.LeaderboardHoldsTheSampleTime | scripts/perf/analyzeProfilesCore.ts:344-395 | from samples to the leaderboard no time is lost or made up |
| Leaderboard.KeysHoldTheirSamples | scripts/perf/analyzeProfilesCore.ts:344-395 | a key's self time is that of the samples whose own or nearest frame has it, its total time that of the samples with it anywhere above |
| Leaderboard.CategoriesHoldTheirSamples | scripts/perf/analyzeProfilesCore.ts:364-371 | a category's time is that of the samples whose own or nearest frame is of it |
| Folded.UnescapeInvertsEscape | scripts/perf/analyzeProfilesCore.ts:777-786 | `%XX` escaping has an inverse, so distinct labels never collide |
| Folded.PlainLabelIsKept | scripts/perf/analyzeProfilesCore.ts:777-786 | a label with nothing to escape is printed as it is |
| Folded.EscapeHidesSeparators | scripts/perf/analyzeProfilesCore.ts:777-786 | an escaped label has no `;` and no line break |
| Folded.StackReadsBack | scripts/perf/analyzeProfilesCore.ts:801-803 | a folded stack gives back its labels, so joining is injective on nonempty lists |
| Folded.LineReadsBack | scripts/perf/analyzeProfilesCore.ts:809-809 | the last space separates the count |
| Folded.TextReadsBack | scripts/perf/analyzeProfilesCore.ts:806-811 | the whole text gives back every stack with its count |
| Folded.SortLinesSorts | scripts/perf/analyzeProfilesCore.ts:806-808 | the lines come in increasing order and are the ones of the map |
| Folded.RenderFolded | scripts/perf/analyzeProfilesCore.ts:789-811 | the printed text reads back as one row per distinct stack with exactly its samples, and the rows sum to the samples of the included stacks |
| NpmPaths.KeySegments | scripts/generate-npm-shrinkwrap.ts:92-100 | the index loop groups a scope with its name, and a bare last scope with `undefined` |
| NpmPaths.PathsMeetIff | scripts/generate-npm-shrinkwrap.ts:92-105 | two keys share an npm path if and only if one is the other's bare scope with `/undefined` behind it |
| NpmPaths.BareScopeCollides | scripts/generate-npm-shrinkwrap.ts:92-105 | `@x` and `@x/undefined` do |
| NpmPaths.SegmentsOfJoin | scripts/generate-npm-shrinkwrap.ts:91-100 | a key made of package names reads back as those names |
| NpmPaths.NpmPathOfNames | scripts/generate-npm-shrinkwrap.ts:102-105 | a key of package names has each name below a node_modules of its own |
| NpmPaths.ResolveKey | scripts/generate-npm-shrinkwrap.ts:135-147 | the outward loop computes Node's lookup |
| NpmPaths.NearestIsNearest | scripts/generate-npm-shrinkwrap.ts:135-147 | the key found is in the tree and every deeper candidate is not; none is found only when no candidate is there |
| Shrinkwrap.EdgesOf | scripts/generate-npm-shrinkwrap.ts:156-170 | exactly the edges npm takes the manifest to ask for, without the dependencies whose names every object inherits |
| Shrinkwrap.Expand | scripts/generate-npm-shrinkwrap.ts:217-225 | one package's followed edges add exactly their targets |
| Shrinkwrap.Reach | scripts/generate-npm-shrinkwrap.ts:209-229 | the frontier loop ends with the least set closed under the followed edges |
| Shrinkwrap.LeastIsReached | scripts/generate-npm-shrinkwrap.ts:209-229 | that set is what trails of followed edges from the root lead to |
| Shrinkwrap.FewerKindsReachLess | scripts/generate-npm-shrinkwrap.ts:230-231 | the required packages are in the tree |
| Shrinkwrap.TreeFindsTheSame | scripts/generate-npm-shrinkwrap.ts:211-246 | lookup in the published tree equals lookup in the whole lock for every followed edge |
| Shrinkwrap.TreeHoldsItsFolders | scripts/generate-npm-shrinkwrap.ts:91-105 | with package names, the tree is closed under folder prefixes |
| Shrinkwrap.TreePathsAreDistinct | scripts/generate-npm-shrinkwrap.ts:102-105 | with package names, npm paths are distinct on the tree |
| Shrinkwrap.CheckPackages | scripts/generate-npm-shrinkwrap.ts:184-201 | the problems of the packages: no release, or another digest |
| Shrinkwrap.CheckEdges | scripts/generate-npm-shrinkwrap.ts:239-254 | the problems of the edges and the peer mismatches, exactly |
| Shrinkwrap.BuildShrinkwrap | scripts/generate-npm-shrinkwrap.ts:176-304 | publishes if and only if there is no problem, else throws exactly the problems; the tree and the required set are least fixpoints |
| Shrinkwrap.OutcomeIsUnique | scripts/generate-npm-shrinkwrap.ts:209-304 | the lock and the registry fix whether it publishes, the problems and the peer mismatches, and with package names every entry |
| Shrinkwrap.PublishedEdgesHold | scripts/generate-npm-shrinkwrap.ts:233-259 | published: every edge that the generator sees, but an optional peer, resolves in the tree, and regular and optional ones are in range |
| Shrinkwrap.InheritedNameIsLost | scripts/generate-npm-shrinkwrap.ts:156-163 | a root with one dependency of such a name is published with an empty tree |
| Shrinkwrap.AskedIsHeldIff | scripts/generate-npm-shrinkwrap.ts:156-259 | every published tree holds, in range, what its packages ask for under a name if and only if objects do not inherit the name |
| Shrinkwrap.PublishedPackagesHold | scripts/generate-npm-shrinkwrap.ts:184-201 | published: every package is a release with the lock's digest |
| Shrinkwrap.PublishedEntryIs | scripts/generate-npm-shrinkwrap.ts:272-285 | each package has its own entry, optional if and only if no required trail leads to it |
| Shrinkwrap.EntrySays | scripts/generate-npm-shrinkwrap.ts:262-285 | version and digest are the lock's, the tarball is named by the release without its scope, and an alias is given exactly when the folder has another name |
| Shrinkwrap.PublishedTreeIs | scripts/generate-npm-shrinkwrap.ts:209-231 | what is published is what required and optional edges lead to from the root |
| Shrinkwrap.OutOfRangeIff | scripts/generate-npm-shrinkwrap.ts:239-254 | a target out of range is a problem of a regular or optional edge, and only a mismatch of a peer's |
| Shrinkwrap.NodeFindsTheLockedPackage | scripts/generate-npm-shrinkwrap.ts:135-147 | Node, walking outward over the published folders for an edge that the generator sees, stops at the package that the whole lock gives |
| UsageRollup.IsValidRollupEntry | benchmarks/terminal_bench/mux_agent.py:666-693 | the loops accept exactly the entries with valid required and optional fields |
| UsageRollup.RollupEntrySays | benchmarks/terminal_bench/mux_agent.py:664-693 | the schema of an entry, field by field |
| UsageRollup.HasUsableSessionUsage | benchmarks/terminal_bench/mux_agent.py:695-710 | true exactly when some valid token count is positive |
| UsageRollup.UsableIffTokens | benchmarks/terminal_bench/mux_agent.py:695-710 | that is, when some bucket's total is positive |
| UsageRollup.RolledUpIds | benchmarks/terminal_bench/mux_agent.py:768-777 | exactly the ids with a valid entry in the ledger of a usable session |
| UsageRollup.AddPart | benchmarks/terminal_bench/mux_agent.py:811-826 | one component: an invalid count is skipped, a price is added, a missing price of real usage is remembered |
| UsageRollup.SummarizeSessionUsage | benchmarks/terminal_bench/mux_agent.py:712-832 | the totals of the sessions that are not skipped, and None without any |
| UsageRollup.TotalsSumTheirFields | benchmarks/terminal_bench/mux_agent.py:783-820 | each total sums the token count of its own JSON field over the counted sessions |
| UsageRollup.CostIsGivenIff | benchmarks/terminal_bench/mux_agent.py:800-831 | a cost is given if and only if a counted session has a price and none has unknown costs or tokens without one; it sums the valid prices of the five fields |
| UsageRollup.SumByRowsOrColumns | benchmarks/terminal_bench/mux_agent.py:795-819 | summing roll-ups by parent or by child is the same |
| UsageRollup.TotalIsOwnUsagePlusExcess | benchmarks/terminal_bench/mux_agent.py:712-820 | a total is every session's own usage once, at any depth, plus one count for each further ledger that lists a session; a zero-usage parent's ledger changes nothing |
| UsageRollup.CountsOnceIff | benchmarks/terminal_bench/mux_agent.py:712-820 | exact if and only if no session with tokens is in two honoured ledgers |
| UsageRollup.ForestCountsOnce | benchmarks/terminal_bench/mux_agent.py:712-820 | when no session is in two honoured ledgers, at any depth, each one's own usage is counted once |
| UsageRollup.TwoLedgersCountTwice | benchmarks/terminal_bench/mux_agent.py:768-820 | two session files that both rolled up a third: its five tokens are summed to ten |
| Lcov.SortedLines | scripts/crap/crapper_report.py:437-437 | the listed lines in ascending order |
| Lcov.TakeLine | scripts/crap/crapper_report.py:437-443 | one line extends the open run, or closes it and opens the next |
| Lcov.ZeroRuns | scripts/crap/crapper_report.py:432-446 | exactly the maximal runs of consecutive listed zero lines |
| Lcov.SuspectWindows | scripts/crap/crapper_report.py:449-458 | a window if and only if such a run starts on the literal's line and ends inside the user |
| Lcov.FlaggedIff | scripts/crap/crapper_report.py:461-469 | a function is flagged if and only if it is not fully covered and some report zeroed lines of it through a user |
| Lcov.RanFunction | scripts/crap/crapper_report.py:176-187 | a report ran the function exactly when its first listed line was hit |
| Lcov.Merge | scripts/crap/crapper_report.py:201-209 | the merged lines are the code lines of the reports that ran the function, with the sums of their hits |
| Lcov.FunctionPercent | scripts/crap/crapper_report.py:190-213 | None without reports, else the share of merged lines that were hit |
| Lcov.UnrunReportChangesNothing | scripts/crap/crapper_report.py:190-213 | a report that did not run the function never changes its percent |
| Lcov.OrderChangesNothing | scripts/crap/crapper_report.py:190-213 | neither does the order of the reports |
| Lcov.FullIff | scripts/crap/crapper_report.py:211-213 | 100% exactly when there is a merged line and each was hit; the percent is between 0 and 100 |

## Left out

- Floating point: scores, coverage, costs and times are exact reals; `round(score, 4)`, millisecond rounding and 2^53 limits are not modelled.
- git, esbuild, tree-sitter, dryer, mutator, Crapper, semver, the npm registry and zod: their results are inputs (forms, hunks, graphs, rows, a `satisfies` predicate, manifests, a checked profile).
- Matching.Reordered: a `Form` value carries an `id`, so distinct objects are distinct values; a result dict keyed by equal values of two objects is not modelled.
- NewPairs.NewPairs: the final sort of the pairs and the accepted and name annotations on them; which of two orders comes first in an entry is the first hit's.
- StartupImports.AnalyzeStartupImports: eager graph sizes and the elided-import bookkeeping of the build plugin; resolved banned imports are an input.
- MutationPool.EverySiteGetsItsRow: the tests a runner starts, its deadline and the restore inside it are one step that returns, or raises and leaves the copy clean, mutated or unreadable; `worker_count == 0`, baselines, triage and test choice are left out.
- RunExclusive.MutualExclusion: no pid is used twice, `writeOwner`'s write and rename are one step and so is `rmSync`, a rename fails only when nothing is there, and signals, polling intervals and messages are left out; an `EPERM` process counts as alive.
- WarmModules.LimitIffWhole: `concurrency: Infinity`, which the check lets through and which no run exceeds, is not a `real`.
- WarmModules.WarmsTheClosure: the expressions that find module URLs and the URL parsing behind a key; an answer is counted, its body read and its slot released in one step; abort is a step of one visit.
- ServiceWorker.ActiveBuildLaunchesOffline: no browser eviction, cache names are build ids of one scope, one install at a time, and a verified navigation write is decided when its response arrives.
- ServiceWorker.LaunchesIffAllAssumed: the offline answer is the one the handler gives when the fetch fails, from the cache as it is then; precache names are hashed, as below.
- ServiceWorker.OnlyAllowListedIsStored: precache names are the hashed names that scripts/stamp-service-worker.ts lets through.
- CrapPolicy.Evaluate: messages, the order of findings and debt trailers.
- ProfileTime.ReadCpuProfile: the schema check and the wording of reasons and warnings; reasons are a datatype.
- Leaderboard.AnalyzeProfiles: frame identification (source maps, URL and name normalisation, categories) is a parameter; per-profile statistics, reports and `diffRows` are left out.
- Folded.RenderFolded: the label before escaping and the idle test are parameters; characters compare by code point, JavaScript strings by code unit.
- Shrinkwrap.BuildShrinkwrap: the order of problems, of peer mismatches and of package entries, the root's own entry, and failing fetches; npm names that are not package names are excluded only where a statement says so.
- UsageRollup.SummarizeSessionUsage: the archive and its size limits; integers too large for a double count as numbers.
- UsageRollup.CountsOnceIff: usage of a child whose file is missing counts as its parent's own.
- Lcov.FunctionPercent: function ranges start at line 1 or later, as parsers give them; LCOV text, comments and code lines are inputs.
- Changes.ParseHunks: `parseNameStatus` and paths that git quotes.
- Hash-keyed caching of manifests, documents and comments, which changes no result.
