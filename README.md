# approve-checker approval engine in Dafny

A model of the approval-decision engine of the approve-checker GitHub Action.
For each changed file of a pull request, the action finds the OWNERS file of
the nearest directory on the way up to the repository root. It reads the
owners listed there and groups the files by module, meaning the directory
whose OWNERS file decided. It folds the reviews of the pull request into
approvers and rejecters. It then decides which modules still need an
approval, and from whom. It sets the commit status to success or failure and
writes or rewrites one tracked comment that lists the missing approvals.

The model has these modules:

- `Paths`: `path.dirname` on relative `/`-separated paths, the OWNERS path of a directory, and the chain of directories from a directory up to `"."`.
- `Text`: `String.prototype.split` on one character and `Array.prototype.join`, with their round trips.
- `Ownership`: the `Owners` / `OwnersResult` / `OwnersData` values and the parsing of an OWNERS file (split at `"\n"`, drop blank and `#` lines).
- `Lookup`: the cache-free meaning of a lookup. It defines the nearest OWNERS file, the owners a file resolves to, and for a given cache the directory where the walk stops, the number of fetches it makes and the cache keys it back-fills.
- `Walk`: the cached walk of `getOwnersfileContent` / `getFileContent` / `saveListInCache` as a function. It is proved equal to the `Lookup` specification, and the cache it produces stays truthful.
- `Resolver`: class `OwnersManager` of `src/OwnersManager.ts`. It has the mutable `pathOwnersCache` field and a ghost count of the requests sent to the content provider.
- `LegacyResolver`: the older class `OwnersManager` of `index.js`, which caches bare, unfiltered line lists.
- `Scenarios`: the six resolver tests of `test/index.test.js`, with their results and exact request counts, as methods on the legacy class and lemmas about the specification.
- `Reviews`: `collectApprovers`, a fold over the reviews into two insertion-ordered, duplicate-free sets.
- `CommentFormatter`: the bullet and table formatters.
- `Decision`: the body of `doApproverCheckLogic` and the comment selection of `updateComment`. It covers the module map, the per-module requirement, the status, the comment text, and the update-or-add choice.

The repository is a `map<string, string>` from OWNERS path to decoded text. A
path that is absent is a request that fails. JavaScript `Set`s and `Map`s are
sequences in insertion order, with `Set.add`, `Set.delete` and `Map.set`
written out, because the order shows in the comment text.

The decision follows `src/index.ts`. test/RequireApprovePerModules.test.ts
imports a `calculateRequireApprovePerModules` that `src/index.ts` does not
define, so those tests describe another revision and are not modelled. In
`src/index.ts` a `List` module is satisfied by any approving owner unless an
owner rejected.

## Model

| member | source | states |
|---|---|---|
| Paths.DirnameSpec | src/OwnersManager.ts:58 | the dirname is "." when the path has no slash, else the part before the last slash, with no slash after it |
| Paths.DirnameShorter | src/OwnersManager.ts:58-59 | a dirname other than "." is strictly shorter than the path, so the climb towards the root ends |
| Paths.DirChain | src/OwnersManager.ts:57-75 | the directories the walk visits start at the given one and end at "." |
| Paths.DirnameOfOwnersPath | src/OwnersManager.ts:97-98 | the dirname of the OWNERS path of d is d, which is why the back-fill recursion climbs one directory per call |
| Paths.OwnersPathInjective | src/OwnersManager.ts:98 | different directories have different OWNERS paths |
| Paths.ChainKeysDistinct | src/OwnersManager.ts:96-103 | the OWNERS paths along one walk are pairwise different |
| Paths.ChainSuffix | src/OwnersManager.ts:72 | the walk from an ancestor is the rest of the walk from the file |
| Text.Split | src/OwnersManager.ts:87 | split always yields at least one piece |
| Text.SplitPartsOmitSeparator | src/OwnersManager.ts:87 | no piece contains the separator |
| Text.JoinSplit | src/OwnersManager.ts:87 | joining the pieces with the separator gives back the text |
| Text.SplitJoin | src/OwnersManager.ts:87 | splitting a join of separator-free pieces gives back the pieces |
| Ownership.OwnerLines | src/OwnersManager.ts:88 | filtering never adds lines |
| Ownership.OwnerLinesAppend | src/OwnersManager.ts:88 | filtering distributes over concatenation, so line order is kept |
| Ownership.OwnerLinesCount | src/OwnersManager.ts:88 | each owner line keeps its multiplicity and every other line is dropped |
| Ownership.ParseOwnersSpec | src/OwnersManager.ts:86-88 | the owners are exactly the non-blank, non-"#" lines of the text, with duplicates, none holding a line break |
| Lookup.FirstPresent | src/OwnersManager.ts:57-75 | the index of the first directory on the walk whose OWNERS file exists |
| Lookup.NearestOwnersFile | src/OwnersManager.ts:57-75 | the nearest OWNERS file is one the repository has |
| Lookup.Resolve | src/OwnersManager.ts:44-55 | a List result is never empty and is the parse of the OWNERS file of its path; the path lies on the walk and is "." or has an OWNERS file |
| Lookup.Governing | src/OwnersManager.ts:57-75 | the data of the nearest OWNERS file, or the empty list at "OWNERS" when there is none |
| Lookup.StopAt | src/OwnersManager.ts:57-81 | the walk stops at the first directory that is cached or whose OWNERS file exists |
| Lookup.FirstPresentUnique | src/OwnersManager.ts:57-75 | the first-present index is the only index with that property |
| Lookup.NearestFromAncestor | src/OwnersManager.ts:72 | recursing to an ancestor past directories with no OWNERS file keeps the nearest OWNERS file |
| Lookup.StopAtGoverns | src/OwnersManager.ts:57-81 | where the walk stops has the same nearest OWNERS file as the file; a fetch there is that file; no stop means there is none |
| Lookup.KeysUpToPrefix | src/OwnersManager.ts:96-103 | back-filling up to the k-th OWNERS path writes exactly the first k+1 keys of the walk |
| Lookup.BackFillIsFilled | src/OwnersManager.ts:96-103 | the back-fill after a fetch writes exactly the keys the specification predicts |
| Lookup.FilledIsFresh | src/OwnersManager.ts:89 | the back-fill writes no key that was already cached |
| Lookup.FilledShareGoverning | src/OwnersManager.ts:96-103 | every back-filled key belongs to a directory with the same nearest OWNERS file as the file |
| Lookup.SameDirectoryIsFree | src/OwnersManager.ts:78-81 | after one lookup, another file in the same directory is a cache hit with no request and no new keys |
| Lookup.ResolveIsGoverning | src/OwnersManager.ts:44-55 | Anyone when the governing list is empty, else that list, with the dirname of the governing OWNERS path |
| Lookup.KeysUpToStep | src/OwnersManager.ts:100-101 | one back-fill step writes the current key and recurses one directory up |
| Lookup.FillStep | src/OwnersManager.ts:99-101 | setting one key and then filling the rest equals filling all of them |
| Walk.WalkStep | src/OwnersManager.ts:65-73 | below the root the walk fetches here and stops on success, else costs one request and goes up |
| Walk.WalkRoot | src/OwnersManager.ts:59-64 | at the root a failed fetch back-fills the empty list for every directory of the walk |
| Walk.WalkStops | src/OwnersManager.ts:57-75 | the walk's answer, cache and cost are those of the fetch where StopAt stops, plus one request per skipped directory |
| Walk.WalkOfFile | src/OwnersManager.ts:57-103 | on a truthful cache the walk of a file costs FetchCost, back-fills Filled with the governing value, and answers that value |
| Walk.WalkOfFileHit | src/OwnersManager.ts:78-81 | a cache hit answers the cached value and writes nothing |
| Walk.WalkOfFileMiss | src/OwnersManager.ts:83-93 | a miss fetches the nearest OWNERS file and back-fills it |
| Walk.HitIsFound | src/OwnersManager.ts:78-81 | a truthful cache holds the governing value at the key where the walk stops |
| Walk.FillKeepsValid | src/OwnersManager.ts:99 | the back-fill keeps every cache entry equal to the governing value of its directory |
| Resolver.OwnersManager.constructor | src/OwnersManager.ts:38-42 | a manager starts with an empty cache and no requests |
| Resolver.OwnersManager.CollectOwners | src/OwnersManager.ts:44-55 | the result is the cache-free Resolve; the cache grows by exactly Filled; requests grow by FetchCost; the cache stays truthful |
| Resolver.OwnersManager.GetOwnersfileContent | src/OwnersManager.ts:57-75 | the recursive walk returns, caches and costs what WalkOutcome says |
| Resolver.OwnersManager.GetFileContent | src/OwnersManager.ts:77-94 | a cache hit is returned with no request; otherwise one request, and a success is parsed and back-filled |
| Resolver.OwnersManager.SaveListInCache | src/OwnersManager.ts:96-103 | the cache gains the found data at every OWNERS path from the file's directory up to the found one |
| LegacyResolver.LegacyResolveSpec | index.js:41-48 | Anyone exactly when no OWNERS file is on the way up; otherwise a non-empty line list that joins back to the file |
| LegacyResolver.LegacyFilteredIsCurrent | src/OwnersManager.ts:86-88 | filtering the older resolver's lines gives the newer resolver's owners |
| LegacyResolver.LegacyEmptyFile | index.js:83 | an empty OWNERS file gives the one-owner list [""] in the older resolver and Anyone in the newer one |
| LegacyResolver.OwnersManager.constructor | index.js:33-40 | a manager starts with an empty cache and no requests |
| LegacyResolver.OwnersManager.CollectOwners | index.js:41-48 | the result is LegacyResolve; the cache grows by exactly Filled; requests grow by FetchCost |
| LegacyResolver.OwnersManager.GetOwnersfileContent | index.js:49-68 | the recursive walk returns, caches and costs what WalkOutcome says |
| LegacyResolver.OwnersManager.GetFileContent | index.js:69-90 | a cache hit, even an empty list, costs no request; otherwise one request, and the lines are back-filled |
| LegacyResolver.OwnersManager.SaveListInCache | index.js:91-99 | the cache gains the list at every OWNERS path from the file's directory up to the found one |
| Scenarios.LookupInRoot | index.js:49-57 | a file in the root costs one request unless OWNERS is cached |
| Scenarios.LookupInTop | index.js:49-68 | the request count and new cache keys for a file one directory deep, in every cache state |
| Scenarios.NearestInTop | index.js:49-68 | one directory deep, the directory's OWNERS wins over the root's |
| Scenarios.LookupInSecond | index.js:49-68 | the request count and new cache keys for a file two directories deep, in every cache state |
| Scenarios.NearestInSecond | index.js:49-68 | two directories deep, the nearest of the three OWNERS files wins |
| Scenarios.TwoFilesInRootCost | test/index.test.js:59-67 | two root files cost one request and then none |
| Scenarios.TwoFilesInNestedDirectoryCost | test/index.test.js:68-76 | two files under moduleA cost one request and then none |
| Scenarios.NoOwnersInCurrentDirectoryLookups | test/index.test.js:77-89 | the four lookups cost 3, 0, 1 and 0 requests, and all resolve to the root OWNERS |
| Scenarios.MaybeOwnersInCurrentDirectoryLookups | test/index.test.js:90-104 | the five lookups cost 2, 0, 1, 0 and 2 requests; moduleA files get moduleA/OWNERS, moduleB gets OWNERS |
| Scenarios.NoOwnersAtAllLookups | test/index.test.js:105-119 | the five lookups cost 3, 0, 1, 0 and 1 requests, and no file has an OWNERS file |
| Scenarios.NoOwnersInCurrentDirectoryOwners | test/index.test.js:77-89 | all four files get the root OWNERS file's lines |
| Scenarios.MaybeOwnersInCurrentDirectoryOwners | test/index.test.js:90-104 | the four moduleA files get moduleA/OWNERS's lines, the moduleB file the root's |
| Scenarios.NoOwnersAtAllOwners | test/index.test.js:105-119 | all five files may be approved by anyone |
| Scenarios.SubdirHasOwnersOnlyCost | test/index.test.js:120-128 | the two lookups cost 1 and 2 requests |
| Scenarios.Collect | index.js:41-48 | one collectOwners call returns LegacyResolve and moves the cache keys and request count as specified |
| Scenarios.TwoFilesInRoot | test/index.test.js:59-67 | 1 request; both files get the root list |
| Scenarios.TwoFilesInNestedDirectory | test/index.test.js:68-76 | 1 request; both files get moduleA's list |
| Scenarios.NoOwnersInCurrentDirectory | test/index.test.js:77-89 | 4 requests; all four files get the root list |
| Scenarios.MaybeOwnersInCurrentDirectory | test/index.test.js:90-104 | 5 requests; four files get moduleA's list and moduleB/z.js the root list |
| Scenarios.NoOwnersAtAll | test/index.test.js:105-119 | 5 requests; every file gets Anyone |
| Scenarios.SubdirHasOwnersOnly | test/index.test.js:120-128 | 3 requests; moduleA/a.js gets moduleA's list and moduleB/b.js gets Anyone |
| Reviews.Add | src/index.ts:18 | Set.add: the element is a member afterwards, nothing else changes, and there are still no duplicates |
| Reviews.Delete | src/index.ts:19 | Set.delete: exactly the element leaves, and there are still no duplicates |
| Reviews.CollectApprovers | src/index.ts:6-29 | the forEach loop computes the fold Tally of the reviews |
| Reviews.TallyIsLastVerdict | src/index.ts:13-26 | a user is an approver iff their last counting review approved the head commit, and a rejecter iff it requested changes |
| Reviews.TallyWellFormed | src/index.ts:17-24 | approvers and rejecters have no duplicates and are disjoint |
| Reviews.Ignored | src/index.ts:15-24 | a review by a null user, a stale approval, or any other state leaves both sets unchanged |
| Reviews.LaterReviewWins | src/index.ts:17-24 | a change request moves its author to the rejecters; an approval of the head commit moves its author to the approvers |
| CommentFormatter.SimpleRows | src/CommentFormatter.ts:11 | one bullet per entry, in order |
| CommentFormatter.SimpleFormatAppend | src/CommentFormatter.ts:11 | the bullet format distributes over concatenation |
| CommentFormatter.SimpleFormatCons | src/CommentFormatter.ts:11 | the first entry gives the first line |
| CommentFormatter.SimpleFormatJoin | src/CommentFormatter.ts:11 | the comment is the bullets, each followed by a line break; no entries give "" |
| CommentFormatter.SimpleFormatLines | src/CommentFormatter.ts:11 | with no line break in any bullet, splitting at line breaks gives back the bullets in input order, then "" |
| CommentFormatter.TableFormatAsWrittenAppend | src/CommentFormatter.ts:17 | the table as written distributes over concatenation; no entries give "" |
| CommentFormatter.TableFormatAppend | src/CommentFormatter.ts:17 | the corrected table distributes over concatenation |
| CommentFormatter.TableFormatAsWrittenCons | src/CommentFormatter.ts:17 | the first entry gives the first row of the table as written |
| CommentFormatter.TableLinesAsWritten | src/CommentFormatter.ts:17 | one "\| path \| cell \|" row per entry, in order, with the cell as written |
| CommentFormatter.TableFormatAsWrittenJoin | src/CommentFormatter.ts:17 | the table as written is its rows, each followed by a line break, with no header row; no entries give "" |
| CommentFormatter.ReducedCellClosedForm | src/CommentFormatter.ts:17 | for two users or more the cell as written is the first user, then every other user followed by "<br>" |
| CommentFormatter.ReducedCellMerges | src/CommentFormatter.ts:17 | the cell as written prints ["ab","c"] and ["a","bc"] alike and puts no separator between the first two users |
| CommentFormatter.CellHead | src/CommentFormatter.ts:17 | in a corrected cell the first user ends at the first "<", and the rest is the cell of the other users |
| CommentFormatter.TableCellInjective | src/CommentFormatter.ts:17 | the corrected cell determines its users when no user contains "<" |
| Decision.MapSetSpec | src/index.ts:56 | Map.set adds the key, keeps keys unique, appends a new key at the end, and changes only the entry for its key |
| Decision.ResolveByModule | src/index.ts:55-56 | a file's owners are determined by its module path alone |
| Decision.ModuleOwnersSpec | src/index.ts:52-57 | the module map has unique keys, exactly the modules of the files, each with its module's owners |
| Decision.CollectModules | src/index.ts:50-57 | the loop over the files, through the resolver object, builds the module map |
| Decision.Rejecting | src/index.ts:65 | an owner is in the result iff it is in the module's list and requested changes; the result is no longer than the list |
| Decision.RejectingAppend | src/index.ts:65 | the filter distributes over concatenation, so the rejecting owners keep the list's order |
| Decision.RejectingCount | src/index.ts:65 | each owner who requested changes occurs as often as in the list, and any other owner not at all |
| Decision.ListRequirement | src/index.ts:63-70 | a List module is satisfied iff some owner approved and none rejected; otherwise the rejecting owners, or the whole list when none rejected |
| Decision.AnyoneModuleByReviews | src/index.ts:71-76 | an Anyone module is satisfied iff some user's last counting review approved the head commit and no user's last counting review requested changes; otherwise it needs a List holding each user whose last counting review requested changes exactly once, or Anyone when there is none |
| Decision.ListModuleByReviews | src/index.ts:63-70 | a List module is satisfied iff some owner's last counting review approved the head commit and no owner's last counting review requested changes |
| Decision.RequirementsEmpty | src/index.ts:61-77 | the result map is empty iff every module is satisfied |
| Decision.RequirementsSound | src/index.ts:61-77 | every entry of the result map is the requirement of a module with the same key |
| Decision.RequirementsKeys | src/index.ts:61-77 | the result map's keys are exactly the unsatisfied modules |
| Decision.DecideModules | src/index.ts:61-77 | the forEach loop over the module map computes Requirements |
| Decision.RequirementsTextIsSimpleFormat | src/index.ts:81-85 | the comment text built with += is the bullet format of the required modules |
| Decision.BuildComment | src/index.ts:79-85 | the += loop computes RequirementsText |
| Decision.FindOwnerComment | src/index.ts:39 | the index of the first comment whose body starts with the header, or the count when there is none |
| Decision.CommentIsFoundAgain | src/index.ts:35-44 | with no tracked comment a new one is added, and the next run updates that comment |
| Decision.EarlierCommentUpdated | src/index.ts:39-41 | the first tracked comment is the one updated, with the header, a blank line, and the body |
| Decision.StatusSucceedsIff | src/index.ts:54-80 | no module needs approval iff every changed file's owners are satisfied |
| Decision.DoApproverCheckLogic | src/index.ts:50-92 | the status is failure iff some module needs approval, and the comment action carries the header and the body, or "No more approvals are needed" |

## Left out

- Base64 and ASCII decoding of the fetched content is a foreign library call. The repository map holds the decoded text.
- The GitHub REST client is not part of this model. Its reads (files, reviews, comments, OWNERS contents) are parameters. Its writes (status, comment) are returned as `Status` and `CommentAction` values.
- `async`/`await` is not modelled: every call is awaited in turn, so the methods are sequential.
- The `run` entry points, action inputs, `core.setFailed` and `console.log` are out of scope, and so is the null head sha that `run` can pass.
- The compiled `src/*.js` files come from another revision and are not modelled.
- The committer rules that test/RequireApprovePerModules.test.ts exercises through `calculateRequireApprovePerModules` are not modelled, because `src/index.ts` defines no such function and takes no committers.
- Paths.DirnameSpec: `path.dirname` is modelled only for relative paths without leading, trailing or doubled slashes, which is the form GitHub reports changed files in. For a path starting with "/", Node's `path.dirname` reaches "/" and stays there, so src/OwnersManager.ts:57-75 would request "//OWNERS" forever when no OWNERS file is found; the model's walk ends at "." instead.
- Any failure of a request (not found, network, a malformed response) is one case: the path is absent from the repository map.
- The request counter is ghost state. It counts calls to the content provider and has no counterpart in the source.
- Review states other than APPROVED and CHANGES_REQUESTED are one `Other` state, because the fold treats them all alike.
- The `value != null` test at src/index.ts:82 always holds and is not modelled as a branch.
- Interpolating an owner list into the comment prints it joined with ",". Users containing "," are not told apart.
- CommentFormatter.TableFormatAsWritten requires every entry to name a user (`AllHaveUsers`): on an entry with no users the inner `reduce` of src/CommentFormatter.ts:17 has no initial value and throws a TypeError, and that error path is not modelled.
- `TableCommentFormatter` is modelled, but `doApproverCheckLogic` does not use it: it builds the bullet text inline, which is proved equal to the bullet formatter.
- The `content.length === 0` branch of index.js:44 is reached through the empty lists that a failed root lookup caches for every directory of its walk (index.js:54, 91-99): a later lookup finds `[]` in the cache as a hit (index.js:71-75) and yields `Anyone`, the value `LegacyResolve` gives when no OWNERS file exists. A fetched file never takes the branch, because splitting yields at least one line.

## Findings

| source | as written | input that shows it | evidently intended | confidence | as-written member | corrected member |
|---|---|---|---|---|---|---|
| src/CommentFormatter.ts:17 | the table cell is `users.reduce((prev, curr) => prev + curr + "<br>")` with no initial value | users ["a","b"] print "ab<br>"; ["ab","c"] and ["a","bc"] both print "abc<br>" | users separated by "<br>", so the cell determines its users | not executed | CommentFormatter.ReducedCellMerges | CommentFormatter.TableCellInjective |
| index.js:83 | the owner list is every line of the OWNERS file, blank ones included | an empty OWNERS file gives the owner list [""], a user nobody can be | blank and "#" lines are no owners, and an empty file means anyone, as src/OwnersManager.ts:86-88 and :50-51 do | not executed | LegacyResolver.LegacyEmptyFile | Lookup.Resolve |
