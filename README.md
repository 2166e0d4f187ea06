# Cross-repository patch tools, modelled in Dafny

The tools wrap `git` and `gh` to move a set of local changes from the checkouts under `deps/`
to pull requests in the target repositories:

- `tools/mkpatch.py` finds the dirty checkouts and writes a *bundle* directory
  `patches/bundle-YYYYMMDD-HHMMSS`. The bundle holds one patch per repository, a machine-readable
  `change_plan.json` and a `change_report.md`. The tool can first prune old bundles down to the
  newest `--keep`.
- `tools/repo_ops.py` reads a plan. For each change it clones the repository with a token,
  optionally pins the recorded base commit, checks the base, applies the patch and, if anything
  changed, commits, pushes and opens a pull request. `--dry-run` only prints what it would do.
- `tools/check_patch_retention.py` is the CI check that fails when `patches/` holds more bundles
  than allowed, listing the ones to remove.
- `parse_sources_file` in `tools/sync_context.py` reads `docs/context/sources.yml`, a small
  indentation-driven subset of YAML listing source repositories, refs and paths.

## How the model is built

- The outside world is a value.
  - A directory is a `Host.Listing`: missing, or a sequence of entries with a name, a
    directory flag, an integer modification time and the files directly inside.
  - `git` replies are a function from (checkout, query) to exit code and output.
  - In `repo_ops`, everything the program does is an `Action` appended to a trace: a
    subprocess, a deleted tree, a created directory, a printed line. What a command
    replies, and whether a path exists, is asked of a `World` that is shown the trace so far.
- Raised exceptions are `Failure` values of `Wrappers.Result`.
- Where the program updates variables in a loop, the model has a `method` with that loop. The
  method is proved equal to a specification function, and the properties are proved about that
  function. The methods are `Retention.PruneOldBundles` / `RemoveTrees`,
  `DirtyScan.ListDirtyRepos`, `MkPatch.WriteBundle` / `Run`, `ChangePlan.LoadPlan`,
  `SyncContext.ParseSourcesFile` / `ReadListLine` and `RepoOps.RunChanges` / `RunPlan`.
- Module layout:
  - `Wrappers`: Option, Result and the stop-at-first-error loops.
  - `Text`: Python `str` operations.
  - `Sorting`: a stable insertion sort by a strict order.
  - `Paths`: `PurePosixPath` normalisation.
  - `Json`: decoded JSON values without floats, and the built-ins the plan loader applies to
    them (`str()`, `int()`, truthiness), within the limits listed under "Left out".
  - `Host`: the filesystem records.
  - One module per tool: `Retention`, `DirtyScan`, `Report`, `MkPatch`, `ChangePlan`,
    `RoundTrip`, `RetentionCheck`, `SyncContext`, `Quoting` and `RepoOps`.

Where the code and its design notes disagree, the model follows the code:

- `load_plan` does not check `schema_version` against 1. It also accepts empty or non-string
  `repo`/`branch` values, turning them into strings with `str()`.
- A successful `checkout_base` is not always followed by a passing `assert_base_sha`. The check
  compares the `base_sha` text with the full name `rev-parse HEAD` prints, and `load_plan` accepts
  any non-empty `base_sha`. An abbreviated SHA or a ref name therefore checks out and then raises
  the mismatch (`RepoOps.AbbreviatedShaFailsAfterCheckout`). Plans written by `mkpatch` record the
  full name, for which the check passes (`RepoOps.CheckoutThenAssertPasses`).
- In `repo_ops.py`, a patch file's existence is checked inside the loop, just before that
  change. Patches are not all checked before the first clone.
- Any error ends the whole run. There is no per-change recovery (`RepoOps.FirstErrorEndsRun`).
- The retention check lists the stale bundles newest first. It says "oldest beyond retention
  window" only in the sense that they are past the newest `max` (`RetentionCheck.StaleNewestFirst`).

## Model

| member | source | states |
|---|---|---|
| Retention.SortedBundleDirs | tools/mkpatch.py:133-138 | The scan holds exactly the `bundle-*` subdirectories of an existing directory, and nothing when the directory is missing |
| Retention.NewerIsStrictOrder | tools/mkpatch.py:138 | The sort key (mtime, name), descending, is a strict order |
| Retention.BundleOrder | tools/mkpatch.py:133-138 | In a directory with distinct names, the scan is strictly newest first (ties on mtime broken by the larger name), so the order is total and no bundle repeats |
| Retention.PruneOldBundles | tools/mkpatch.py:141-150 | A negative `keep` raises and deletes nothing; otherwise it returns exactly the scan from position `keep` on, max(0, n - keep) of them, and the directory afterwards lacks exactly those |
| Retention.RemoveTrees | tools/mkpatch.py:147-148 | Deleting the stale bundles one by one leaves the directory without exactly their names |
| Retention.KeptThenStale | tools/mkpatch.py:145-146 | The scan is the kept bundles followed by the stale ones; the kept ones are sorted and are exactly the scanned bundles not deleted |
| Retention.PruneKeepsNewest | tools/mkpatch.py:141-150 | After pruning, a new scan finds exactly the first `keep` bundles of the old scan, in the same order |
| Retention.PruneIdempotent | tools/mkpatch.py:141-150 | Pruning again with the same `keep` deletes nothing |
| Retention.PruneSparesOthers | tools/mkpatch.py:137-148 | Entries that are not bundle directories survive pruning |
| Retention.FiveBundlesSorted | tools/test_mkpatch.py:86-118 | Five bundles with increasing mtimes scan newest first |
| Retention.PruneFiveKeepThree | tools/test_mkpatch.py:86-118 | With five such bundles and keep 3, the two oldest are deleted (newer of them first) and the three newest are kept |
| Retention.NewestAfterPrune | tools/mkpatch.py:178-188 | After pruning and creating a newer bundle under a free name, the scan is the new bundle followed by the kept ones |
| RetentionCheck.CheckRetention | tools/check_patch_retention.py:29-51 | A negative maximum is rejected; the check passes iff the count is within the maximum; on violation it reports the count and exactly `sorted[max:]`, count - max > 0 bundles |
| RetentionCheck.ExitCodes | tools/check_patch_retention.py:29-51 | Exit status 0 iff within the maximum, 2 iff the option is negative, 1 iff there are more bundles than allowed |
| RetentionCheck.MissingDirectoryPasses | tools/check_patch_retention.py:10-12 | A missing `patches/` passes with zero bundles |
| RetentionCheck.CheckAgreesWithPrune | tools/check_patch_retention.py:36-43 | With the same bound, the check passes iff pruning would delete nothing, and otherwise reports exactly what pruning would delete |
| RetentionCheck.StaleNewestFirst | tools/check_patch_retention.py:43-51 | The reported stale bundles are newest first |
| RetentionCheck.PassesAfterPrune | tools/check_patch_retention.py:33-41 | After `prune_old_bundles(dir, k)` the check with maximum k passes |
| DirtyScan.Inspect | tools/mkpatch.py:49-64 | One loop turn succeeds iff all its git commands do; it yields a record iff the stripped porcelain status is non-empty, and the record carries the checkout's HEAD, short status and diff |
| DirtyScan.ListDirtyRepos | tools/mkpatch.py:43-66 | The loop's result equals the specification `DirtyRepos`; a missing deps directory gives the empty list |
| DirtyScan.CollectSucceeds | tools/mkpatch.py:48-55 | The scan fails iff some git command in some checkout fails |
| DirtyScan.CollectRecords | tools/mkpatch.py:53-64 | Every record kept is the one its checkout's git replies give |
| DirtyScan.CollectKeepsDirty | tools/mkpatch.py:49-51 | The kept names are exactly those of the dirty checkouts |
| DirtyScan.CollectIncreasing | tools/mkpatch.py:48 | Over checkouts in name order, the kept names strictly increase |
| DirtyScan.CheckoutsSorted | tools/mkpatch.py:48 | The checkouts are exactly the subdirectories holding `.git`, in strictly increasing name order |
| DirtyScan.DirtyReposSelects | tools/mkpatch.py:43-66 | The whole selection: empty for a missing directory; otherwise names strictly increase, each record matches its checkout, a checkout is listed iff dirty, and every name listed is a scanned checkout |
| Report.ReportHeadLines | tools/mkpatch.py:70-83 | Line by line, the report opens with its title, the affected repositories one per line, their base SHAs one per line and the summary heading |
| Report.ReportTailLines | tools/mkpatch.py:72-95 | Line by line, the rest of the report is the summaries, the fenced apply loop and the tests heading with its placeholder |
| Report.ReportLines | tools/mkpatch.py:69-95 | The whole report holds the sections Affected repos, Base SHAs, Summary, Apply instructions and Tests in that order, each repository listed once in input order |
| MkPatch.SuggestedBranch | tools/mkpatch.py:24-26 | The branch is `codex/<bundle>/` followed by the repository name with each `_` turned into `-`, character by character |
| MkPatch.BranchDistinguishesBundles | tools/mkpatch.py:24-26 | For a fixed repository, different bundles give different branches |
| MkPatch.SuggestedCommitMessage | tools/mkpatch.py:29-30 | The message starts with `Apply <bundle> updates for ` and ends with the repository name, nothing else |
| MkPatch.MessageDistinguishesRepos | tools/mkpatch.py:29-30 | For a fixed bundle, different repositories give different messages |
| MkPatch.MakeBundleName | tools/mkpatch.py:128-130 | The name has 22 characters, starts with `bundle-`, and is digits with a `-` at position 15 |
| MkPatch.BundleNameOrder | tools/mkpatch.py:128-130 | Bundle names order as their instants do to the second, and coincide exactly for instants in the same second |
| MkPatch.GeneratedNameIsSimple | tools/mkpatch.py:187 | A generated name is a single path component |
| MkPatch.PatchFilesContents | tools/mkpatch.py:104-106 | One patch file per repository, each holding that repository's diff |
| MkPatch.BundleFilesContents | tools/mkpatch.py:100-124 | The bundle holds exactly the patches, the plan and the report, with those contents |
| MkPatch.WriteBundle | tools/mkpatch.py:100-125 | A single-component name that is taken is refused with nothing written, otherwise exactly the new bundle directory is added; `..` is always refused as existing, creating a missing `patches/` first; an empty name or `.` is refused as existing once `patches/` is there; a nested or absolute name, or `patches/` itself while missing, is an unsupported name |
| MkPatch.Run | tools/mkpatch.py:153-190 | The imperative `main` has the effect of the specification `Effect`, for every `--bundle` value |
| MkPatch.NothingDirtyChangesNothing | tools/mkpatch.py:173-176 | With no dirty checkout nothing is pruned or written, whatever the options |
| MkPatch.NegativeKeepWritesNothing | tools/mkpatch.py:178-179 | A negative `--keep` with `--prune-old` fails before anything is deleted or written |
| MkPatch.EffectCreated | tools/mkpatch.py:173-188 | A successful run deleted `Stale(keep)` only when asked, then added the new bundle under a free single-component name with the expected files |
| MkPatch.CreatedBundleHoldsPatches | tools/mkpatch.py:173-188 | After a run the new bundle is in `patches/` with each diff and the plan, and every entry not deleted survives |
| MkPatch.PruneThenWrite | tools/mkpatch.py:178-188 | With `--prune-old --keep K`, the scan afterwards is the new bundle followed by the K newest old ones |
| ChangePlan.Subscript | tools/repo_ops.py:44-45 | `v[key]` succeeds iff `v` is an object holding the key, and otherwise raises TypeError or KeyError for that key |
| ChangePlan.ToPath | tools/repo_ops.py:52 | `Path(v)` succeeds iff `v` is a string, giving its normalised form |
| ChangePlan.BaseSha | tools/repo_ops.py:59 | The base SHA is absent iff the item's `base_sha` is missing or falsy |
| ChangePlan.LoadPlan | tools/repo_ops.py:42-63 | The append loop equals the specification `DecodePlan` |
| ChangePlan.DecodeChangesEach | tools/repo_ops.py:50-61 | One change per item, each decoded from its own item, in order |
| ChangePlan.DecodeChangesFirstError | tools/repo_ops.py:51-61 | The loop succeeds iff every item decodes, and otherwise raises the first failing item's error |
| ChangePlan.NoChangesRejected | tools/repo_ops.py:46-48 | `changes` missing, not a list or empty is rejected |
| ChangePlan.MissingTopLevelKeys | tools/repo_ops.py:43-45 | A non-object, a missing `schema_version`, a non-integer version or a missing `bundle` each raise their own error |
| ChangePlan.ChangeRequiredKeys | tools/repo_ops.py:52-57 | An item decodes iff it is an object with a string `patch_path` and with `repo`, `branch` and `commit_message`; the first missing key read is the one reported |
| ChangePlan.ChangeBaseSha | tools/repo_ops.py:59 | A decoded base SHA is `None` iff `base_sha` is absent or falsy, and otherwise its `str()` |
| RoundTrip.EntryRoundTrip | tools/mkpatch.py:112-118 | A plan entry written by `write_bundle` decodes to the change it was built from |
| RoundTrip.PlanRoundTrip | tools/mkpatch.py:108-121 | `load_plan` on the plan `write_bundle` builds gives schema 1, the bundle name and one change per repository in order, with the derived branch, message, patch path and the recorded base SHA |
| RoundTrip.EmptyPlanRejected | tools/repo_ops.py:46-48 | A plan with no changes is rejected |
| SyncContext.Flush | tools/sync_context.py:46-60 | Nothing pending leaves the sources as they were; a flush fails only with the missing repo, ref or paths errors |
| SyncContext.ListLine | tools/sync_context.py:73-114 | A line inside the list never leaves the sources list |
| SyncContext.ReadListLine | tools/sync_context.py:73-114 | The branchy loop body equals the specification `ListLine` |
| SyncContext.ParseSourcesFile | tools/sync_context.py:25-121 | The parser with its variables updated in place equals the specification `ParseSources` |
| SyncContext.EmptyFileRejected | tools/sync_context.py:37-39 | "sources file is empty" is raised exactly for an empty file |
| SyncContext.CommentIgnored | tools/sync_context.py:63 | Text from the first `#` on is dropped |
| SyncContext.BlankLineSkipped | tools/sync_context.py:63-65 | Inserting a blank or comment-only line anywhere changes nothing |
| SyncContext.FirstLineMustBeSources | tools/sync_context.py:67-71 | A first content line that is not `sources:` raises |
| SyncContext.NoSourcesConfigured | tools/sync_context.py:116-119 | `sources:` with no entry raises "No sources configured" |
| SyncContext.ContentBeforeFirstEntry | tools/sync_context.py:88-89 | Any content line before the first entry raises |
| SyncContext.IndentationRules | tools/sync_context.py:76-114 | Indent 2 `- ` flushes and starts an entry outside path mode; indent 4 `paths:` enters path mode; indent 6 `- ` outside path mode and any other indent raise; indent 4 keys other than `paths` leave path mode |
| SyncContext.ParsedSourcesValid | tools/sync_context.py:50-59 | Every source returned has non-empty repo and ref and a non-empty list of non-empty paths, and there is at least one |
| SyncContext.RepoLineStep | tools/sync_context.py:76-86 | A `- repo: v` line flushes the previous entry and starts one holding `v` |
| SyncContext.RefLineStep | tools/sync_context.py:105-112 | A `ref: v` line sets the ref and leaves path mode |
| SyncContext.PathsLineStep | tools/sync_context.py:91-93 | A `paths:` line enters path mode |
| SyncContext.PathLineStep | tools/sync_context.py:95-103 | A path item is appended at the end of the list |
| SyncContext.RenderRoundTrip | tools/sync_context.py:25-121 | A file in the documented layout parses to exactly its sources, in order, each with its paths in order |
| Quoting.Quote | tools/repo_ops.py:70 | The quoted token holds only unreserved characters and `%XX` escapes |
| Quoting.QuoteUnreserved | tools/repo_ops.py:70 | A token of unreserved characters is unchanged |
| Quoting.QuoteAsciiRoundTrip | tools/repo_ops.py:70 | Percent-decoding an ASCII token's quoting gives it back |
| RepoOps.RunCmd | tools/repo_ops.py:30-39 | A command succeeds iff it exits 0, returning its stripped output; otherwise it raises with the command and code, the command recorded either way |
| RepoOps.TokenUrl | tools/repo_ops.py:66-71 | Only `https://` URLs are accepted; the quoted token goes right after the scheme and the rest of the URL is untouched |
| RepoOps.QuotedTokenIsPlain | tools/repo_ops.py:70-71 | The quoted token holds no `@`, `/` or `:` |
| RepoOps.CloneDirName | tools/repo_ops.py:75 | The clone directory name never holds a `/` |
| RepoOps.CloneDirOfRepo | tools/repo_ops.py:75-76 | A plainly named repository is cloned into a directory of its own name |
| RepoOps.CloneRepo | tools/repo_ops.py:74-84 | On success: an https URL, the old clone deleted if present, then clone, branch and remote commands with the credentials, in that order |
| RepoOps.CloneNeedsHttps | tools/repo_ops.py:77-80 | A non-https URL is refused after the old clone is deleted and before any command |
| RepoOps.CheckoutBase | tools/repo_ops.py:87-113 | On success the existence probe and the checkout ran, in order; failures come from git |
| RepoOps.CheckoutBaseOutcome | tools/repo_ops.py:98-113 | A missing commit fails before any checkout, with "not found"; otherwise the step's outcome is the checkout's |
| RepoOps.AssertBaseSha | tools/repo_ops.py:120-179 | Without a base SHA nothing runs; when it passes, the HEAD, branch and existence queries ran in order |
| RepoOps.ClassifyOrder | tools/repo_ops.py:136-167 | The relationship is chosen in priority order: not found, expected behind HEAD, HEAD behind expected, different branches |
| RepoOps.AssertSilentIff | tools/repo_ops.py:123-139 | With a base SHA, the check is silent iff the queries succeed, the commit exists and HEAD is that commit |
| RepoOps.AssertMismatch | tools/repo_ops.py:123-179 | The mismatch names the clone's directory, the expected SHA, HEAD and branch read; not-found skips the ancestry probes; otherwise the relationship follows the two probes in order |
| RepoOps.CheckoutThenAssertPasses | tools/repo_ops.py:252-254 | When `rev-parse HEAD` prints the base SHA itself after the checkout (the full name `mkpatch` records), the following check passes |
| RepoOps.AbbreviatedShaFailsAfterCheckout | tools/repo_ops.py:87-179 | A base SHA that is not the name `rev-parse HEAD` prints, such as an abbreviated one, passes `checkout_base` and then fails `assert_base_sha` with "expected SHA is an ancestor of current HEAD" |
| RepoOps.MismatchReadsBack | tools/repo_ops.py:169-179 | The error text reads back line by line as the heading, the repository, the two SHAs, the branch, the relationship and the two remediation steps |
| RepoOps.CommitAndPush | tools/repo_ops.py:187-190 | Succeeds exactly when stage, commit and push each exit 0 in turn, leaving those three commands on the trace; otherwise it stops at the first that fails, with its exit code |
| RepoOps.PinBase | tools/repo_ops.py:252-254 | `checkout_base` only with a base SHA, then `assert_base_sha`; the commands are those of both, in order |
| RepoOps.Finish | tools/repo_ops.py:257-268 | An empty status prints the skip line and publishes nothing; otherwise it succeeds exactly when stage, commit, push and `gh pr create` each exit 0 in turn, then prints the stripped output of `gh pr create` as the PR URL; a failure stops at the first command that fails |
| RepoOps.RealRun | tools/repo_ops.py:251-268 | What a real run raises comes from git, gh or the URL check |
| RepoOps.RealRunCommands | tools/repo_ops.py:251-268 | A successful real run issues clone, base pinning, apply and status, and then the four publishing commands unless it printed the skip line |
| RepoOps.PatchCheckedFirst | tools/repo_ops.py:235-237 | A missing patch raises with nothing done for that change |
| RepoOps.ChangeErrors | tools/repo_ops.py:233-268 | A change never raises the token or plan errors, and raises the missing-patch error iff its patch is absent |
| RepoOps.DryRunChange | tools/repo_ops.py:239-249 | A dry run prints the heading and the five dry-run lines and nothing else |
| RepoOps.DryRunNamesBase | tools/repo_ops.py:242-245 | A dry run names the commit it would check out, or says it keeps the branch tip when there is no base SHA |
| RepoOps.TokenOf | tools/repo_ops.py:222 | A token is found iff either variable holds a non-empty value, `GH_TOKEN` first |
| RepoOps.ChangesErrors | tools/repo_ops.py:233-268 | The loop never raises the token or plan errors |
| RepoOps.StartupErrors | tools/repo_ops.py:222-226 | The token error iff no token and not dry-run; the plan error iff past that and the plan fails to load; both with nothing done |
| RepoOps.DryRunHarmless | tools/repo_ops.py:222-249 | A dry run needs no token, runs no command and deletes nothing, and stops only on a bad plan or a missing patch |
| RepoOps.FirstErrorEndsRun | tools/repo_ops.py:233-268 | The first change that fails ends the run with its error |
| RepoOps.PrBodyBase | tools/repo_ops.py:262-266 | The PR body ends with the base SHA, or "not specified" without one |
| RepoOps.RunChanges | tools/repo_ops.py:233-268 | The loop over the changes equals the specification fold, returning at the first error |
| Wrappers.RunFold | tools/repo_ops.py:233-268 | The imperative loop, one step per element and returning at the first error, equals `Fold` |
| RepoOps.RunPlan | tools/repo_ops.py:212-270 | `main` equals the specification `Publish`: token check, plan, work directory and header, then the loop |

## Left out

- Git and gh semantics are not modelled. A command's exit code and output come from the
  `World` oracle (`repo_ops`) or the `Git` reply function (`mkpatch`).
- RepoOps.CheckoutThenAssertPasses: its hypothesis is that `rev-parse HEAD` prints the base SHA
  verbatim after `checkout -B`. Git guarantees only that HEAD is at the commit the SHA names, so
  the hypothesis also needs the plan's `base_sha` to be that commit's full lower-case name.
- Patch contents are opaque strings. `has_changes` is modelled as "the stripped porcelain
  status is non-empty".
- Json.Value: JSON numbers with a fraction or exponent are not modelled; only integers are. `int()`
  of a decoded float and `str()` of a float `base_sha` are therefore outside the model.
- Json.Repr: `repr()` of a string is written as the text between single quotes. Python's choice
  of double quotes and its escaping of quotes, backslashes and control characters are not
  modelled. An object with a repeated key prints every member in document order, where the
  decoded `dict` holds one entry per key.
- Json.PyStr: inherits the limits of `Json.Repr` for values that are not strings.
- Json.PyInt: `int()` of a string accepts surrounding whitespace, one sign and ASCII decimal digits.
  Underscores between digits and non-ASCII digits, which Python also accepts, are refused.
- JSON text is not modelled in either direction. The plan is the decoded `Json.Value`, and
  `write_bundle` stores the document value it would dump.
- Reading a file is not modelled: `parse_sources_file` is given the file's text. Its
  `splitlines()` is modelled by `Text.SplitLines` with Python's set of line breaks.
- The filesystem is records:
  - `exists`, `glob`, `is_dir`, `mkdir`, `write_text` and `rmtree` act on a `Host.Listing`
    (`mkpatch`, retention) or are trace actions (`repo_ops`);
  - only the files directly inside a bundle are represented;
  - symbolic links are not modelled.
- MkPatch.WriteBundle: a `--bundle` value containing `/`, and an empty name or `.` while
  `patches/` is missing, are refused as `UnsupportedName` with `patches/` unchanged. The program
  would create nested directories, write outside `patches/`, or write into `patches/` itself
  (and `x/` or `./x` would normalise to `x`). A `Host.Listing` holds one directory level.
- MkPatch.Run: has the same refusals, through `MkPatch.Effect`.
- RoundTrip.EntryRoundTrip, RoundTrip.PlanRoundTrip and RoundTrip.PatchPathIsNormal: proved for
  single-component bundle names only. Those are the only names under which the model writes a
  bundle (`MkPatch.EffectCreated`).
- `st_mtime` is an integer, not a float.
- The clock is a parameter: the `Instant` of `make_bundle_name` and the new bundle's mtime.
- MkPatch.MakeBundleName: each field is written as its last 4 or 2 digits. This matches
  `strftime` only within `datetime`'s ranges (`MkPatch.ValidInstant`), the only instants
  `datetime` can hold; the ordering lemma `MkPatch.BundleNameOrder` requires them.
- Printed output:
  - `mkpatch` and the retention check print lines that are not modelled beyond the decision
    and the exit code (`RetentionCheck.ExitCodes`);
  - the lines `repo_ops` prints are `Line` values rendered by `RepoOps.LineText`;
  - the argument vectors are rendered by `RepoOps.Argv`;
  - neither rendering has further lemmas;
  - the change report's text is proved line by line.
- argparse parsing and its defaults are not modelled. `main` takes a parsed options record.
  `--workspace-root` is taken as given; resolving a relative one against the current directory
  is not modelled.
- `repo_dir.name` in the mismatch message is `Paths.Name` of the clone's path.
- `Quoting.QuoteAsciiRoundTrip` proves the percent-decoding round trip only for ASCII tokens;
  UTF-8 decoding of multi-byte escapes is not modelled.
- `sync_context.py` outside `parse_sources_file` is not part of this model: `_http_get`,
  `fetch_ref_sha`, `fetch_raw_markdown`, `sync_sources` and `main` do network I/O.
- The parser stores keys other than `repo`, `ref` and `paths` in its entry but never reads them,
  so `SyncContext.Entry` keeps only those three.
- `tools/test_*.py` are cited as evidence for properties and are not modelled.
