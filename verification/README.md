# Verified models of the lobster security and knowledge-base components

This project models the stateful and recursive core of the repository in Dafny and proves what that
core is for. `dafny verify dfyconfig.toml` checks everything.

Each module follows one source file or component:

- **`Yaml`, `YamlShape`, `YamlSpelling`, `YamlRoundTrip`, `YamlText`, `YamlErrors`** (text helpers in `PyText`):
  the YAML subset reader. The three mutually recursive parsers run over lines with an index. The main results
  are locality (a block stops exactly at its suffix), the round trip over values of any depth, the exact set of
  values that can be loaded, that whatever any text loads to can be written and loaded again, what each scalar
  is read as, and what the lines of a text that loads are like.
- **`Files`, `Snapshot`, `Rollback`, `SnapshotRuns`** (sorting in `PathOrder`): a tree of files and
  directories, the snapshot manager, and what a rollback restores over whole runs of snapshots, edits
  and rollbacks.
- **`Wrapper`, `WrapperRuns`**, `WrapperExamples`: the task wrapper. Its audit records, in the order of writing
  over all task logs and before redaction, account for every path that differs from a task's manifest; each
  operation says exactly when it keeps that so, and so does a theorem over whole runs.
- **`ImportClosure`**: the in-place fixpoint over an import graph computes reachability.
- **`Scheduler`**: the bounded-parallel scheduler as a step system over its callbacks.
- **`JsText`, `LineBreaks`, `Chunking`**: text normalisation, when it is idempotent, and the overlapping chunker.
- **`TextLists`, `Checkpoint`, `PromptBudget`, `PromptMeaning`**: lists of distinct texts, the workflow
  checkpoints and the prompt budget governor built on them; and what the governor keeps of each text.
- **`CommentWatch`, `CommentPoller`**: the protocol behind comment suggestion cards, as runs of calls and
  as a step system of polls.
- **`Sanitizer`, `SourceGroups`, `LearningLoop`**: the HTML sanitiser's state machine, the grouping of
  sources, and the aggregation of requests.

Loops and objects of the source are loops and classes here. Each is proved equal to a specification
function or step, and the theorems are about that function or over runs of that step.

## Where the code does not do what one would expect

- `normalizeText` is not idempotent: a carriage return before CR LF, or before a blank and LF, survives the
  first pass. It is idempotent exactly on the texts without such a stray one between visible characters
  (`LineBreaks.IdempotentIff`). Incremental and batch checkpoints agree for items without one, and an item is
  kept by the next update exactly when it has none (`Checkpoint.KeptIffStable`).
- A rollback does not bring back a file whose path has become a directory, or lies below what has become a
  file. `shutil.copy2` copies into the directory and reports success; `mkdir` raises on the file. Those
  are the only obstacles (`Rollback.RollbackRestoresIff`).
- In the first of these cases the copy's own path is in no diff, unless a file of that name was there already
  (`Wrapper.RollbackTouchesIff`). In the second nothing is recorded at all. Either way the task rolled
  back stays accounted for exactly when each copy made into a directory under a new name was named before
  (`Wrapper.OwnRollbackIff`), and other tasks under a condition of their own (`Wrapper.RollbackAccountsIff`).
- The manifest files lie in the workspace, and the wrapper can be asked to write one. A forged manifest makes
  the final diff list files that no record names (`Wrapper.ForgedManifest`); `Wrapper.ManifestWriteIff` says
  which manifests do no harm.
- With the overlap set to 0, `slice(-0)` is the whole text, so each chunk repeats the chunk before it.
  Reconstruction still holds; the size bound holds only for a text that needs no second chunk
  (`Chunking.ZeroOverlapBoundIff`).
- Two accounts can share a comment scope when the name of one, followed by two colons, starts the other's
  (`CommentWatch.ScopesShareIff`).
- A card whose marking fails after it went out is sent again (`CommentWatch.FailedMarkRepeats`,
  `CommentPoller.FailedMarkRepeats`).
- With nested `pre` and `code` elements, the sanitiser files as text what follows the inner end tag
  (`Sanitizer.FiledIff`).
- In a YAML list, a list below the first entry of an item is read and then dropped
  (`YamlErrors.ListBelowItemDropped`). The branch for an empty item is never taken: a stripped line cannot end
  in the blank after its dash (`YamlShape.PayloadNotEmpty`).


## Model

| member | source | states |
|---|---|---|
| `YamlRoundTrip.BlockRoundTrip` | lobster_security/lobster_security/yamlish.py:63-123 | For every nested value that the parsers can yield, at any base indent and at any place in a list of lines: laid out with two spaces a level and followed by any suffix shallower than the block, it parses back to the same value, and the parser stops exactly at the suffix |
| `YamlRoundTrip.ItemRoundTrip` | lobster_security/lobster_security/yamlish.py:76-100 | The same for one list item: a colon-free scalar, or a non-empty dictionary, also one whose first entry is nested and overwrites its stand-in on the dash line |
| `YamlRoundTrip.EntryRoundTrip` | lobster_security/lobster_security/yamlish.py:103-123 | The same for one dictionary entry, with a scalar, a nested dictionary or a non-empty list as its value |
| `YamlSpelling.ScalarMeaning` | lobster_security/lobster_security/yamlish.py:31-49 | What every scalar text is read as, by its characters: the inside of quotes at both ends, the words in any case, digits with or without a minus as their number, and any other text as itself |
| `YamlSpelling.ScalarPadding` | lobster_security/lobster_security/yamlish.py:31-34 | White space around a scalar does not matter, and white space alone is the empty string |
| `PyText.DigitsPlaces` | lobster_security/lobster_security/yamlish.py:43-47 | Digits are read by place: each counts ten times the one after it |
| `YamlSpelling.SpellingsRoundTrip` | lobster_security/lobster_security/yamlish.py:31-49 | Every scalar, in any of its spellings (four quotings of a string, bare strings, numbers and words), is read back as itself with its type |
| `YamlSpelling.SpellingsAll` | lobster_security/lobster_security/yamlish.py:31-49 | A string has no other spelling: what reads as a string is that string bare or in one of the four quotings |
| `YamlSpelling.CommentFreeMeaning` | lobster_security/lobster_security/yamlish.py:15-28 | The scan with its quote flags finds no comment exactly on the lines that read left to right never meet a "#" outside quotes at the start or after white space |
| `YamlSpelling.PairSpelledAgain` | lobster_security/lobster_security/yamlish.py:103-123 | Key and scalar of any line that is free of comments can be written on one line again, in some spelling, without opening a comment |
| `YamlSpelling.PayloadSpelledAgain` | lobster_security/lobster_security/yamlish.py:85-99 | The same for the payload of a list item |
| `YamlShape.BlockExtent` | lobster_security/lobster_security/yamlish.py:63-73 | On any lines, well laid out or not: every consumed line is indented at least as deep as its block, and a block entered at its own indent consumes a line or fails |
| `YamlShape.ItemsExtent` | lobster_security/lobster_security/yamlish.py:76-100 | A list takes only lines at its indent or deeper, and stops at a line that is no item of it |
| `YamlShape.EntriesExtent` | lobster_security/lobster_security/yamlish.py:103-123 | A dictionary takes only lines at its indent or deeper, and stops at a line that is no entry of it |
| `YamlShape.BlockLookahead` | lobster_security/lobster_security/yamlish.py:63-123 | Locality: what a block parses to depends on its own lines and the one line it stops at, on nothing further down |
| `YamlShape.PutMeaning` | lobster_security/lobster_security/yamlish.py:120-122 | Assigning a key overwrites the entry of that key in its place, or appends a new one; nothing else moves |
| `YamlShape.PayloadNotEmpty` | lobster_security/lobster_security/yamlish.py:85-89 | The branch for an item with an empty payload cannot be reached from loaded text: a stripped line that opens with "- " has a payload, and a lone "-" is no item |
| `YamlErrors.LoadedLines` | lobster_security/lobster_security/yamlish.py:63-133 | A text loads only if each line is a list item or has a key, none stands further left than the first, and none more than two columns deeper than the line before; an error about a line names one that breaks this |
| `YamlErrors.BlockReads` | lobster_security/lobster_security/yamlish.py:63-123 | The same for every block, at any place in a list of lines |
| `YamlErrors.ListBelowItemDropped` | lobster_security/lobster_security/yamlish.py:90-97 | A list below the first entry of an item is read and then dropped |
| `YamlShape.BlockShape` | lobster_security/lobster_security/yamlish.py:63-123 | Whatever a successful parse returns has distinct trimmed colon-free keys, no empty list, and only colon-free scalars or non-empty dictionaries as list items |
| `YamlShape.LoadedShape` | lobster_security/lobster_security/yamlish.py:126-133 | The same for every text that loads, starting from the text itself |
| `YamlText.RenderedLines` | lobster_security/lobster_security/yamlish.py:15-28 | Comment stripping and indentation counting give back every safe line from its rendered text, indent and content, although "#" may stand inside quotes |
| `PyText.SplitLinesMeaning` | lobster_security/lobster_security/yamlish.py:54 | Any of the line breaks ends a line, CR LF ends one, and a text without one is a line; every text is split by these three rules |
| `PyText.BreakMeaning` | lobster_security/lobster_security/yamlish.py:54 | The line breaks are the ten that `str.splitlines` documents |
| `PyText.SpaceMeaning` | lobster_security/lobster_security/yamlish.py:15-60 | The white space is the 29 characters of `str.isspace` |
| `YamlText.LoadRoundTrip` | lobster_security/lobster_security/yamlish.py:126-133 | Any value that the parsers can yield whose layout has only safe lines is loaded back from its rendered text, at any base indent |
| `YamlText.RenderLoad` | lobster_security/lobster_security/yamlish.py:126-133 | Loading the rendered text of any shaped and writable value returns that value |
| `YamlText.LoadedWritable` | lobster_security/lobster_security/yamlish.py:52-133 | Whatever any text loads to is shaped and writable: the reader yields nothing that its notation cannot spell again |
| `YamlText.LoadRenderLoad` | lobster_security/lobster_security/yamlish.py:126-133 | What any text loads to, without exception, can be written out and loaded again without loss |
| `YamlText.ReachableIff` | lobster_security/lobster_security/yamlish.py:126-133 | Among all values, those that some text loads to are exactly the dictionaries and lists that are shaped and writable |
| `Yaml.StripCommentScan` | lobster_security/lobster_security/yamlish.py:15-28 | The loop over quote flags cuts at the first "#" that is outside quotes and at the start or after white space |
| `Yaml.NormalizeLines` | lobster_security/lobster_security/yamlish.py:52-60 | The loop over the raw lines yields the indents and contents that the specification function names |
| `Yaml.PrepareLines` | lobster_security/lobster_security/yamlish.py:52-60 | Blank lines and lines with only a comment are dropped, wherever they stand, and the others keep their order |
| `Yaml.BlockParser` | lobster_security/lobster_security/yamlish.py:63-73 | The dispatching procedure refines the recursive block parser, errors included |
| `Yaml.ListParser` | lobster_security/lobster_security/yamlish.py:76-100 | The list loop with its index and list variable refines the recursive item parser, errors included; it terminates on every list of lines |
| `Yaml.DictParser` | lobster_security/lobster_security/yamlish.py:103-123 | The dictionary loop refines the recursive entry parser, errors included; it terminates on every list of lines |
| `Yaml.Load` | lobster_security/lobster_security/yamlish.py:126-133 | The loader refines the specification: an empty document is an empty dictionary, and a line left over after the first block is an error |
| `Snapshot.SnapshotManager.constructor` | lobster_security/lobster_security/snapshot.py:17-20 | The snapshot root exists afterwards in a well-formed tree, unless a file stood in the way; snapshots that are already there stay as they are |
| `Snapshot.SnapshotManager.ScanWorkspace` | lobster_security/lobster_security/snapshot.py:73-88 | The scan, which copies while it walks, records exactly the visible files with the digests they had before it began, and makes exactly the copies that placing those files makes |
| `Snapshot.SnapshotManager.CreateSnapshot` | lobster_security/lobster_security/snapshot.py:22-37 | Files root, copies and manifest file, in that order, stopping where an operation raises; on success every visible file is copied and the manifest is that of the tree before |
| `Snapshot.CreatedManifest` | lobster_security/lobster_security/snapshot.py:22-37 | The manifest file that was written is the one that is loaded afterwards |
| `Snapshot.SnapshotManager.DiffSnapshot` | lobster_security/lobster_security/snapshot.py:39-49 | The sorted added, deleted and changed paths against the manifest file as it is now; changes nothing; there is a diff exactly when there is a readable manifest file |
| `Snapshot.SnapshotManager.RollbackSnapshot` | lobster_security/lobster_security/snapshot.py:51-67 | A dry run changes nothing and returns the diff that the real run acts on; the real run copies back what is deleted or changed, then unlinks what is added, stopping where an operation raises |
| `Snapshot.SnapshotManager.CopyBack` | lobster_security/lobster_security/snapshot.py:58-62 | The copying loop does what placing all files does, also where it stops |
| `Snapshot.SnapshotManager.RemoveAdded` | lobster_security/lobster_security/snapshot.py:63-66 | The unlinking loop does what unlinking all files does, also where it stops |
| `Snapshot.ScanNonNested` | lobster_security/lobster_security/snapshot.py:73-88 | No two scanned paths lie in one another: the condition the rollback theorems need holds of every manifest that was scanned |
| `Snapshot.HiddenRoot` | lobster_security/lobster_security/snapshot.py:75-78 | The snapshot area is invisible to every scan when its path holds the excluded name, or when it lies apart from the workspace |
| `Snapshot.VisibleMeaning` | lobster_security/lobster_security/snapshot.py:75-80 | A scan sees a path exactly when it lies below the workspace and neither excluded name starts at any position in it |
| `Snapshot.ManifestMeaning` | lobster_security/lobster_security/snapshot.py:73-88 | The manifest of a scan holds every file below the workspace outside the security areas, with the digest of its content, and no other |
| `Snapshot.NothingTouched` | lobster_security/lobster_security/snapshot.py:39-49 | The difference of two manifests is empty exactly when they are equal |
| `Files.WriteMeaning` | lobster_security/lobster_security/wrapper.py:102-106 | A write succeeds exactly when no directory is at its path and no file above it; then the file holds exactly the content, the directories above exist, and nothing else has changed |
| `Files.MakeDirIff` | lobster_security/lobster_security/snapshot.py:23-25 | Making a directory succeeds exactly when no file is at its path or above |
| `Files.BaseMeaning` | lobster_security/lobster_security/snapshot.py:58-62 | The name under which a file is copied into a directory is what stands behind the last slash |
| `Files.PlaceAllFree` | lobster_security/lobster_security/snapshot.py:58-62 | When all targets are free, copying file after file succeeds, and the files are the old ones overlaid with the copies |
| `Files.PlaceAllFrame` | lobster_security/lobster_security/snapshot.py:58-62 | Copying file after file, also when it raises half-way, leaves every path alone that is no target and below no target |
| `Files.PlaceAllLandings` | lobster_security/lobster_security/snapshot.py:58-62 | Copying file after file, whatever comes of it, writes only where copies land: on the target, or inside it when that is a directory |
| `Files.PlaceAllExact` | lobster_security/lobster_security/snapshot.py:58-62 | It succeeds exactly when every file can be placed, by a condition on the tree before; it makes exactly the copies that come before the first that cannot, and changes nothing else |
| `Files.PlaceAllKeeps` | lobster_security/lobster_security/snapshot.py:58-62 | Copying file after file, also when it raises half-way, keeps the tree well formed and loses no file or directory |
| `Files.UnlinkAllEffect` | lobster_security/lobster_security/snapshot.py:63-66 | Unlinking, also when it raises half-way, removes targets only and changes no content |
| `Files.UnlinkAllTargets` | lobster_security/lobster_security/snapshot.py:63-66 | Unlinking file after file removes exactly the targets when none is a directory |
| `Rollback.RollbackExact` | lobster_security/lobster_security/snapshot.py:51-67 | With nothing in the way, rollback succeeds, overlays exactly the restored files and removes exactly the added ones |
| `Rollback.RollbackRestores` | lobster_security/lobster_security/snapshot.py:51-67 | It then gives back the manifest of the snapshot with no assumption on the digest, and the contents when the digest is injective |
| `Rollback.RollbackRestoresIff` | lobster_security/lobster_security/snapshot.py:51-67 | Rollback restores the manifest if and only if no deleted path is now a directory or below a file: a copy lands inside a directory of that name, and making a parent raises on a file |
| `Rollback.BlockedStaysMissing` | lobster_security/lobster_security/snapshot.py:58-62 | A file that is blocked in that way is missing after the rollback, whatever else it did |
| `Rollback.SecondRollbackIdle` | lobster_security/lobster_security/snapshot.py:51-67 | A second rollback has an empty diff and does nothing |
| `Rollback.RollbackFrame` | lobster_security/lobster_security/snapshot.py:51-67 | In every outcome, also blocked or raising, all paths keep their contents on which no copy lands and which are not to be unlinked |
| `Rollback.SnapshotAreaKept` | lobster_security/lobster_security/snapshot.py:51-67 | Nothing in the snapshot area changes, also when the rollback raises or copies into a directory |
| `SnapshotRuns.NothingTaken` | lobster_security/lobster_security/snapshot.py:17-20 | A run may begin with an empty snapshot area: the invariant then holds |
| `SnapshotRuns.TakeStep` | lobster_security/lobster_security/snapshot.py:22-37 | A snapshot under a fresh id cannot fail, copies every visible file, writes its manifest file, and disturbs no earlier snapshot |
| `SnapshotRuns.RunKeepsInv` | lobster_security/lobster_security/snapshot.py:22-71 | After any interleaving of snapshots, edits and rollbacks, also failed ones, and from an area that may hold snapshots already: every snapshot still holds the files it saw, in its copies and in its manifest file |
| `SnapshotRuns.RollbackOverRuns` | lobster_security/lobster_security/snapshot.py:22-88 | After any such run, rolling back a task by its manifest file restores what the workspace held at its snapshot if and only if nothing blocks a deleted path |
| `PathOrder.LessMeaning` | lobster_security/lobster_security/snapshot.py:46-48 | The order of the listings: a prefix comes first, and otherwise the first difference decides |
| `PathOrder.SortsUnique` | lobster_security/lobster_security/snapshot.py:46-48 | There is one sorted list of a set of paths, so diffs with the same meaning are equal |
| `PathOrder.Sort` | lobster_security/lobster_security/snapshot.py:46-48 | Sorting yields each path of the set once, in increasing code-point order |
| `Wrapper.SecureAgentWrapper.GetTask` | lobster_security/lobster_security/wrapper.py:238-252 | A task is known from memory or from its saved file, and is remembered from then on |
| `Wrapper.SecureAgentWrapper.constructor` | lobster_security/lobster_security/wrapper.py:28-36 | A new wrapper takes over the snapshots, task files and logs that earlier ones left, and accounts for what they account for |
| `Wrapper.SecureAgentWrapper.StartTask` | lobster_security/lobster_security/wrapper.py:38-51 | The task starts under a snapshot of the present, which changes no visible file; no task loses its account, also when the snapshot raises |
| `Wrapper.SecureAgentWrapper.WriteFile` | lobster_security/lobster_security/wrapper.py:102-110 | A write is recorded with its path exactly when it happened, and a refused or raising one changes no file. The log stays complete if and only if the path is no manifest file of a task, or what is written there is itself explained |
| `Wrapper.SecureAgentWrapper.RunCommand` | lobster_security/lobster_security/wrapper.py:112-152 | A command runs only when allowed or approved, and is recorded with exactly the paths on which the scans around it differ; a denied one is recorded with none and leaves the tree alone. The log stays complete when the snapshot area is the same, and in general exactly when every manifest file that the command changed is itself explained |
| `Wrapper.SecureAgentWrapper.DiffManifests` | lobster_security/lobster_security/wrapper.py:254-265 | The two loops over the dictionaries yield the sorted union of added, deleted and changed paths |
| `Wrapper.SecureAgentWrapper.RollbackTask` | lobster_security/lobster_security/wrapper.py:84-90 | A rollback is recorded exactly when it did not raise. In both cases the log stays complete if and only if, for every task, each copy that was made is listed by a recorded diff, named before, or agrees with the manifest of that task |
| `Wrapper.SecureAgentWrapper.FinishTask` | lobster_security/lobster_security/wrapper.py:53-65 | Accountability: while the log is complete, every path in the final diff was the target of a write, or modified by a command, or listed by a rollback, since the task started |
| `Wrapper.TouchedTriangle` | lobster_security/lobster_security/wrapper.py:254-265 | Differences of manifests compose: what differs over two steps differs over one of them |
| `Wrapper.AccountsIff` | lobster_security/lobster_security/wrapper.py:84-152 | What an operation that keeps a task's manifest file leaves of its account, exactly: every path touched beyond the recorded ones was named before or agrees with the manifest |
| `Wrapper.LogAccounts` | lobster_security/lobster_security/wrapper.py:84-152 | A record that names all that its effect touched keeps the account of every task |
| `Wrapper.StartAccounts` | lobster_security/lobster_security/wrapper.py:38-51 | A task that starts now is accounted for by an empty log, and the other tasks still by theirs |
| `Wrapper.SnapshotTouchesNothing` | lobster_security/lobster_security/snapshot.py:22-37 | Taking a snapshot, also one that raises half-way, changes nothing that a scan of the workspace reports |
| `Wrapper.SnapshotManifests` | lobster_security/lobster_security/snapshot.py:22-37 | It changes no manifest file but its own, and that one only when it succeeds |
| `Wrapper.WriteTouches` | lobster_security/lobster_security/wrapper.py:102-110 | A write changes at most its own path in the manifest of the workspace |
| `Wrapper.ManifestWriteIff` | lobster_security/lobster_security/wrapper.py:102-110 | A write to a task's manifest file keeps its account exactly when the new manifest is honest and explained by the log, which can be checked before the write |
| `Wrapper.ForgedManifest` | lobster_security/lobster_security/wrapper.py:102-110 | The input that breaks it: an empty manifest written over the one of a task makes every visible file that the log does not name count as added |
| `Wrapper.RollbackTree` | lobster_security/lobster_security/snapshot.py:51-67 | The tree after any rollback by an honest manifest: the copies that come before the first that raises, and without one the added files gone |
| `Wrapper.RollbackManifests` | lobster_security/lobster_security/snapshot.py:51-67 | A rollback by an honest manifest changes no manifest file |
| `Wrapper.RollbackTouchesIff` | lobster_security/lobster_security/wrapper.py:84-90 | A rollback that succeeds changes only paths of its diff if and only if it copies no file into a directory under a new visible name |
| `Wrapper.RollbackTouches` | lobster_security/lobster_security/wrapper.py:84-90 | Without such a copy that also holds of a rollback that raises |
| `Wrapper.RollbackAccountsIff` | lobster_security/lobster_security/wrapper.py:84-90 | The exact condition, on the state before, under which a rollback keeps the account of another task, recorded or raising |
| `Wrapper.OwnRollbackIff` | lobster_security/lobster_security/wrapper.py:84-90 | For the task rolled back itself, success or raise: it stays accounted for if and only if every copy that was made into a directory under a new visible name has been named before |
| `Wrapper.RaisedTaskAccounts` | lobster_security/lobster_security/wrapper.py:84-90 | So when no deleted file would be copied that way, the task rolled back stays accounted for also when its rollback raises and nothing is recorded |
| `Wrapper.OwnLogExplainsIff` | lobster_security/lobster_security/wrapper.py:53-65 | The records of one task alone, before redaction, explain its diff exactly when they name, of those paths, all that records of other tasks have named since the start |
| `Wrapper.NamedIsWritten` | lobster_security/lobster_security/audit.py:52-71 | Accountability up to redaction, for any redaction of strings: each path named since a task started stands in the log files redacted, as it is or as a path below the workspace |
| `Wrapper.NothingToAccount` | lobster_security/lobster_security/wrapper.py:28-36 | A wrapper over an area without manifests has nothing to account for |
| `WrapperRuns.StepIff` | lobster_security/lobster_security/wrapper.py:38-152 | Every call of the wrapper, by any task, keeps a complete log exactly under its guard: on the manifests that a write or a command leaves, and on the copies that a rollback makes |
| `WrapperRuns.RunAccountsIff` | lobster_security/lobster_security/wrapper.py:38-152 | Over every run of starts, writes, commands, rollbacks and finishes from a complete log: the log accounts for every task after each call if and only if each call met its guard |
| `WrapperRuns.FinishOverRuns` | lobster_security/lobster_security/wrapper.py:53-65 | In every such run: whatever a final diff lists was written, or changed by a command, or listed by a rollback, since its task started |
| `WrapperExamples.FaithfulConfig` | lobster_security/lobster_security/snapshot.py:69-71 | There is a manifest format that is read back as it was written, for every workspace, snapshot area and digest |
| `WrapperExamples.DamageOutcome` | lobster_security/lobster_security/wrapper.py:84-90 | A family of workspaces with honest manifests and a complete log, and all that a rollback does to it: it raises when a file is in the way, loses the account of its task when a directory is, and that of a younger task in both cases |
| `WrapperExamples.UnlistedCopy` | lobster_security/lobster_security/wrapper.py:84-90 | An instance, with its manifest in the tree: a task file that has become a directory is copied into it, the rollback succeeds without listing the path, and its task is no longer accounted for |
| `WrapperExamples.RaisedUnnamed` | lobster_security/lobster_security/wrapper.py:84-90 | Instances of a rollback that raises: having brought a file back it loses the account of a task that started just before; having copied into a directory first, also that of its own task |
| `ImportClosure.CollectDbBoundModules` | scripts/test-db-guardrails.mjs:167-190 | The in-place loop terminates on any graph, also a cyclic one, and returns exactly the modules with a non-empty import path to the database module |
| `ImportClosure.ClosedHoldsPath` | scripts/test-db-guardrails.mjs:179-187 | Every set that the loop would not extend any more holds the start of every such path |
| `ImportClosure.OrderIrrelevant` | scripts/test-db-guardrails.mjs:167-190 | The modules so bound are the same for any order of the map entries, although additions are visible within one pass |
| `Scheduler.Clamp` | scripts/stress-executive-concurrency.mjs:52-54 | At least one round, and as many in parallel as asked for or the nearest number from 1 to the rounds |
| `Scheduler.ScheduleKeeps` | scripts/stress-executive-concurrency.mjs:124-148 | Scheduling keeps the invariant, leaves either no room or nothing to start, and starts exactly as many rounds as it counts |
| `Scheduler.ThenKeeps` | scripts/stress-executive-concurrency.mjs:135-139 | A result is recorded once for a round in flight, and keeps the invariant and the quiescence between callbacks |
| `Scheduler.FinallyKeeps` | scripts/stress-executive-concurrency.mjs:140-147 | Finishing a round frees its place and refills it, or resolves when it was the last; the invariant holds again |
| `Scheduler.RunKeeps` | scripts/stress-executive-concurrency.mjs:119-151 | In every interleaving of results and completions: never more than `parallel` running, starts in order and once each, no idle place while rounds are left, resolved exactly when all is done |
| `Scheduler.Completion` | scripts/stress-executive-concurrency.mjs:119-151 | Every maximal interleaving has exactly two callbacks a round and none is ever stuck before; resolution comes once, at the last; then every round has started and finished, and `failures` holds exactly the failed rounds, each once |
| `Scheduler.Runner.constructor` | scripts/stress-executive-concurrency.mjs:119-151 | The first call of `schedule` starts the machine in the state from which all runs proceed |
| `Scheduler.Runner.ScheduleRounds` | scripts/stress-executive-concurrency.mjs:124-148 | The while loop over the shared variables refines the step system |
| `Scheduler.Runner.OnThen` | scripts/stress-executive-concurrency.mjs:135-139 | The `then` callback refines its step and keeps the invariant |
| `Scheduler.Runner.OnFinally` | scripts/stress-executive-concurrency.mjs:140-147 | The `finally` callback refines its step, resolving or scheduling, and keeps the invariant |
| `JsText.NormalizeIsNormal` | src/text-utils.mjs:11-20 | A normalised text has no zero-width character or no-break space, no blank before a break, no three breaks or two blanks in a row, visible ends; and is no longer than the input |
| `JsText.NormalizeMeaning` | src/text-utils.mjs:11-20 | Normalising keeps the words of any text, letter for letter and in order, and between them the kind of gap: a blank, one line break, or two; no character is made up but blanks |
| `JsText.SpaceMeaning` | src/text-utils.mjs:11-20 | The white space, zero-width characters and blanks, listed |
| `LineBreaks.IdempotentIff` | src/text-utils.mjs:11-20 | Normalising is idempotent on a text if and only if the text has no stray CR: one with something visible before it, and after it blanks, no-break spaces or zero-width characters and a LF, or any of these and CR LF, and something visible |
| `LineBreaks.LeavesIff` | src/text-utils.mjs:11-20 | A CR LF pair is left in the result exactly then |
| `JsText.NotIdempotent` | src/text-utils.mjs:11-20 | It is not idempotent on all inputs: a carriage return before a CR LF pair is left before a line feed |
| `JsText.NormalizeShows` | src/text-utils.mjs:11-20 | No visible character is lost or made up |
| `JsText.NormalizeEmpty` | src/text-utils.mjs:11-20 | The result is empty exactly when the input has nothing visible |
| `JsText.TrimMeaning` | src/text-utils.mjs:19-19 | Trimming takes blank ends off and nothing else |
| `Chunking.SplitYieldsParagraphs` | src/chunking.mjs:4-9 | Splitting any text yields paragraphs with visible ends and no blank line inside |
| `Chunking.ParagraphsKeepText` | src/chunking.mjs:4-9 | The paragraphs of any text, laid out with blank lines, have all its words in order and between them the same kind of gap: none is lost, repeated or moved |
| `Chunking.SplitOfJoined` | src/chunking.mjs:4-9 | On paragraphs whose joined text is normalised already, splitting takes apart exactly what joining put together |
| `Chunking.PiecesOfJoined` | src/chunking.mjs:4-9 | Paragraphs joined by blank lines are split again into exactly those paragraphs |
| `Chunking.ChunksAreLossless` | src/chunking.mjs:11-32 | The chunks are consecutive non-empty groups of the paragraphs, each group joined by blank lines behind the lead of the chunk before; a chunk ends exactly where the next paragraph would not have fitted; taking the leads off gives back all paragraphs, once, in order. For any size and overlap |
| `Chunking.TextIsLossless` | src/chunking.mjs:4-32 | The same for the paragraphs of any text |
| `Chunking.LeadMeaning` | src/chunking.mjs:27-28 | With an overlap of at least 1, the lead is a non-empty suffix of the chunk before, of at most that length, and a blank line |
| `Chunking.NegativeLead` | src/chunking.mjs:26-27 | With an overlap of 0 or below, the lead is the chunk before without its first characters, trimmed, and a blank line |
| `Chunking.ChunkSizes` | src/chunking.mjs:11-32 | With an overlap of at least 1, no chunk is longer than the larger of maxSize and overlap + 2 + the longest paragraph |
| `Chunking.ZeroOverlapRepeats` | src/config.mjs:169-169 | With the overlap that a setting of "0" configures, every chunk leads with the whole chunk before it |
| `Chunking.ZeroOverlapBoundIff` | src/chunking.mjs:11-32 | With overlap 0 the size bound holds if and only if there is at most one paragraph or the whole text fits into one chunk |
| `Chunking.NegativeOverlapSizes` | src/chunking.mjs:11-32 | With an overlap of 0 or below, each chunk may exceed the one before by what the longest paragraph and a blank line measure beyond the characters dropped; with at least that many dropped only a single long paragraph exceeds maxSize |
| `Chunking.WholeBound` | src/chunking.mjs:11-32 | For any overlap, no chunk is longer than all paragraphs joined |
| `Chunking.ZeroOverlapBreaks` | src/chunking.mjs:11-32 | An instance where it fails: two paragraphs that do not fit together |
| `Chunking.ChunkText` | src/chunking.mjs:11-46 | The whole function, its loop and its final map and filter: one record a chunk, with its position, normalised text, length and digest |
| `Chunking.CloseChunks` | src/chunking.mjs:11-32 | The loop over `current` and `chunks` refines the recursive chunker that the theorems are about |
| `Chunking.ChunkRecords` | src/chunking.mjs:34-45 | The map and filter make one record a chunk when no chunk normalises to nothing |
| `Chunking.ChunksShow` | src/chunking.mjs:34-45 | No chunk normalises to nothing, so the final filter drops none and the positions have no gap |
| `TextLists.UniqueItems` | src/agent-workflow-state.mjs:5-20 | The loop with its early stop returns the first `limit` distinct non-blank normalised items |
| `TextLists.UniqueLines` | src/agent-token-governance.mjs:9-21 | The loop returns the distinct non-blank normalised lines in order of first appearance |
| `TextLists.DedupMeaning` | src/agent-workflow-state.mjs:5-20 | Nothing is lost or repeated, and the distinct items of a prefix are a prefix of all distinct items |
| `TextLists.FirstDistinctMore` | src/agent-workflow-state.mjs:5-20 | On stable items, cutting off at the limit before more is added loses nothing of the first `limit` |
| `Checkpoint.CheckpointStore.UpdateCheckpoint` | src/agent-workflow-state.mjs:55-81 | An update merges the patch into the record of its key and changes no other key; a blank key is refused |
| `Checkpoint.CheckpointStore.GetCheckpoint` | src/agent-workflow-state.mjs:45-53 | Refines the reading function, whose meaning the next two rows state |
| `Checkpoint.ReadMeaning` | src/agent-workflow-state.mjs:45-53 | From an empty store a reader gets a record exactly for the keys that an update has named, and nothing for a blank key |
| `Checkpoint.ReadYourWrite` | src/agent-workflow-state.mjs:22-53 | A reader gets exactly the record that the update stored if and only if no text in it holds a CR LF pair |
| `Checkpoint.ReadIsBatch` | src/agent-workflow-state.mjs:45-81 | After any run of updates with stable items, the lists that a reader gets are the first eight distinct items of everything the run gave |
| `Checkpoint.IncrementalIsBatch` | src/agent-workflow-state.mjs:55-81 | After any run of updates, completed, constraints and facts of a key each are the first eight distinct items of everything the run gave, when normalising is stable on those items |
| `Checkpoint.EarlierIsPrefix` | src/agent-workflow-state.mjs:55-81 | So each such list is a prefix of every later one |
| `Checkpoint.PendingIsLast` | src/agent-workflow-state.mjs:55-81 | After any run of updates, pending is what the last patch to the key gave, and a key that no update names keeps its record |
| `Checkpoint.GoalIsLast` | src/agent-workflow-state.mjs:55-81 | After any run of updates the goal is the last one given, normalised, when that is stable |
| `Checkpoint.RisksAreLast` | src/agent-workflow-state.mjs:55-81 | And the risks are the first eight distinct ones of the last list given |
| `Checkpoint.MetaIsOverlay` | src/agent-workflow-state.mjs:55-81 | The meta is the overlay of all metas given, in order, and the time that of the last update |
| `Checkpoint.BatchIffStable` | src/agent-workflow-state.mjs:22-81 | The condition is exact over runs: incremental lists equal the batch on every run that gives a key only certain items if and only if all these items are stable |
| `Checkpoint.KeptIffStable` | src/agent-workflow-state.mjs:22-33 | The stability condition is the exact one for an item: it survives the next update of its key if and only if it has no stray CR |
| `CommentWatch.PayloadsEqual` | src/comment-watch-store.mjs:18-25 | Two comment versions have the same payload exactly when id, time, latest reply and solved flag agree, for ids and times without a colon |
| `CommentWatch.UnseenOrder` | src/comment-watch-store.mjs:33-38 | The unseen comments stand in the order of the listing |
| `CommentWatch.ResultMeaning` | src/comment-suggestion-workflow.mjs:47-108 | A card goes out exactly when some listed version is not stored, the preview is confirmed, and the reply is not needed or goes through; the call raises before that exactly when the preview or a needed reply fails; the card carries exactly the versions that were not stored |
| `CommentWatch.StoreMeaning` | src/comment-suggestion-workflow.mjs:97-108 | The store changes only when the card went out and marking is asked for and works; then exactly the listed versions become stored, in one scope |
| `CommentWatch.UnseenMeaning` | src/comment-watch-store.mjs:32-38 | The filter keeps exactly the fingerprints that are not stored for the scope |
| `CommentWatch.MarkedMeaning` | src/comment-watch-store.mjs:40-62 | Marking adds exactly the fingerprints of the comments to the scope and changes no other scope |
| `CommentWatch.WatchStore.MarkSeen` | src/comment-watch-store.mjs:40-62 | The loop over the bucket and the write of the store have that effect |
| `CommentWatch.WatchStore.GenerateCard` | src/comment-suggestion-workflow.mjs:32-123 | The sequence of effects: marked only after the card went out, and only when asked to; a failed preview or reply marks nothing, and neither does a marking that raises after the card went out |
| `CommentWatch.BucketIsUnion` | src/comment-suggestion-workflow.mjs:46-107 | Over any run of calls, the stored bucket of a scope is the initial one and exactly what the marked cards of that scope carried |
| `CommentWatch.AtMostOnce` | src/comment-suggestion-workflow.mjs:46-107 | What a marked card carried, no later card of the same scope carries again, marked or not |
| `CommentWatch.FailedMarkRepeats` | src/comment-suggestion-workflow.mjs:102-108 | When marking raises after the card went out, the next call that lists the same comments sends them again |
| `CommentWatch.NothingMissed` | src/comment-suggestion-workflow.mjs:46-107 | A listed comment version that was never marked is carried by the next card of its scope; without a card, the preview was not confirmed or raised, or the reply failed |
| `CommentWatch.SameScope` | src/comment-watch-store.mjs:14-16 | Two scope keys are equal exactly when the head of one account starts that of the other, and the first document continues with the rest of it |
| `CommentWatch.ScopesShareIff` | src/comment-watch-store.mjs:14-16 | Two accounts can share a scope, for some documents, if and only if the head of one starts that of the other |
| `CommentWatch.ScopesApart` | src/comment-watch-store.mjs:14-16 | Otherwise a scope belongs to one account and one document |
| `CommentWatch.NoColonApart` | src/comment-watch-store.mjs:14-16 | In particular for all accounts whose names hold no colon |
| `CommentWatch.ScopesShared` | src/comment-watch-store.mjs:14-16 | Instances: accounts with colons that share a scope, and the empty account and the one named "default" |
| `CommentWatch.EndMeaning` | src/comment-suggestion-workflow.mjs:13-29 | The last page is the first one without more, without a token, or with the very token that asked for it |
| `CommentWatch.CursorReadsAll` | src/comment-suggestion-workflow.mjs:13-29 | A service whose cursor moves on until its last page is read to the end |
| `CommentWatch.AllItemsConcat` | src/comment-suggestion-workflow.mjs:13-29 | What is collected are the items of the pages read, all of them and in order |
| `CommentWatch.ListAllUnresolved` | src/comment-suggestion-workflow.mjs:8-30 | Paging returns all items of the pages up to the first that ends it, and asks for no page after that |
| `CommentPoller.PollerRun` | src/comment-suggestion-poller.mjs:82-116 | Under any interleaving of timer ticks, poll steps and stops, with previews, replies and markings that may fail: at most one poll is in flight, and no two cards of a scope carry the same comment unless marking the earlier one failed |
| `CommentPoller.FailedMarkRepeats` | src/comment-watch-store.mjs:40-62 | That exception is real: after a failed marking the same comments are sent again |
| `CommentPoller.MarkFailsStep` | src/comment-watch-store.mjs:40-62 | A failed marking leaves what every reachable state satisfies |
| `CommentPoller.ListStep` | src/comment-suggestion-workflow.mjs:46-62 | Listing the unseen comments leaves what every reachable state satisfies |
| `CommentPoller.NotifyStep` | src/comment-suggestion-workflow.mjs:46-107 | A card that goes out repeats nothing of any earlier card of its scope that was to be marked, even one whose marking has just begun |
| `CommentPoller.MarkStep` | src/comment-watch-store.mjs:40-62 | Marking after a card closes the gap that sending it opened |
| `CommentPoller.TwoPollsRepeat` | src/comment-suggestion-poller.mjs:90-103 | The flag is needed: two polls in flight that have both listed a comment both send it |
| `CommentPoller.CallIsSteps` | src/comment-suggestion-workflow.mjs:32-123 | The steps of the machine in a row have the effect of one call of the workflow |
| `CommentPoller.Poller.Tick` | src/comment-suggestion-poller.mjs:90-94 | A tick starts a poll exactly when none is in flight |
| `CommentPoller.Poller.Settle` | src/comment-suggestion-poller.mjs:100-102 | When a poll ends, by either way, the next tick may start one again |
| `CommentPoller.Poller.Stop` | src/comment-suggestion-poller.mjs:108-115 | Stopping clears the timer and leaves a poll in flight alone |
| `CommentPoller.Poller.constructor` | src/comment-suggestion-poller.mjs:87-106 | Starting sets the timer and at once runs the first tick |
| `CommentPoller.ReportMeaning` | src/comment-suggestion-poller.mjs:32-72 | What a watch reports: failure without a token, or when with something new the preview, a needed reply or the marking raises; otherwise success with the number of comments on its card |
| `CommentPoller.PollOnce` | src/comment-suggestion-poller.mjs:31-80 | One result a watch, in order, each from the store as the watches before left it; a missing token or a raised error does not stop the others |
| `PromptBudget.FitLines` | src/agent-token-governance.mjs:48-56 | The loop keeps the longest prefix of the lines that fits |
| `PromptBudget.TrimTextForBudget` | src/agent-token-governance.mjs:31-66 | The trimmed text is within the budget, is blank exactly when the text is, and is what the specification assembles |
| `PromptBudget.TrimTextBound` | src/agent-token-governance.mjs:31-66 | No trimmed text is longer than max(1, maxChars): the cut leaves room for the ellipsis, except for a budget below one |
| `PromptBudget.TrimTextShows` | src/agent-token-governance.mjs:31-66 | Trimming blanks only blank texts |
| `PromptMeaning.TrimTextMeaning` | src/agent-token-governance.mjs:31-66 | A text that fits is left as it is; a longer one becomes its summary when that fits, else the longest beginning of the summary that leaves room for an ellipsis and ends visibly |
| `PromptMeaning.SummaryMeaning` | src/agent-token-governance.mjs:37-61 | The summary is the longest beginning of the priority lines that fits, then the head of the text, then its tail, each normalised and none twice |
| `PromptMeaning.PriorityMeaning` | src/agent-token-governance.mjs:40-46 | A line has priority when it is a heading, or has a keyword in it, or is one of the first six; headings come first and the six last |
| `PromptMeaning.FittingMeaning` | src/agent-token-governance.mjs:48-56 | The lines kept are the longest beginning whose lengths, with one each, stay within the budget |
| `PromptMeaning.SplitLinesMeaning` | src/agent-token-governance.mjs:40 | Splitting at line breaks and joining with them are inverse |
| `PromptMeaning.TrimAllMeaning` | src/agent-token-governance.mjs:40 | The lines are the trimmed ones that are not blank |
| `PromptMeaning.HeadMeaning` | src/agent-token-governance.mjs:58 | The head begins the text and holds its first 60 characters and first 55%, but for blanks at its end, and no more |
| `PromptMeaning.TailMeaning` | src/agent-token-governance.mjs:59 | The tail ends the text and holds its last 40 characters and last 20%, but for blanks at its start, and no more |
| `PromptMeaning.CompactMeaning` | src/agent-token-governance.mjs:107-134 | In the normal stage a section contributes its full text if there is one, in the others its summary if there is one, trimmed to its budget or its own smaller limit; an optional section contributes nothing in an emergency |
| `PromptMeaning.SectionWhole` | src/agent-token-governance.mjs:107-134 | A section whose text is stable and fits its limits contributes it whole |
| `PromptMeaning.SectionBudgetMeaning` | src/agent-token-governance.mjs:218-220 | The budget of a section: four characters for each of its own tokens, else the whole number next below 32% or 18% of the prompt |
| `PromptMeaning.StageMeaning` | src/agent-token-governance.mjs:195-211 | The stage goes by the highest threshold, times the token budget, that the estimated tokens of the raw prompt reach |
| `PromptMeaning.RawBlocksMeaning` | src/agent-token-governance.mjs:195-201 | The raw prompt has the sections with a full text, each behind its label, in order |
| `PromptMeaning.NoBudgetStage` | src/agent-token-governance.mjs:203 | Without a token budget the stage is the normal one |
| `PromptMeaning.EstimateMeaning` | src/agent-token-governance.mjs:23-29 | Four characters a token, rounded up |
| `PromptMeaning.SelectMeaning` | src/agent-token-governance.mjs:213-238 | A section is kept exactly when it has something to contribute and is required or fits behind the sections kept before it |
| `PromptMeaning.RequiredStandsWhole` | src/agent-token-governance.mjs:217-243 | A required section that fits its budget stands whole in the prompt, behind its label |
| `PromptMeaning.PromptUntouched` | src/agent-token-governance.mjs:195-243 | In the normal stage, when every section and the whole fit, the prompt is the raw one: every label and text in order |
| `PromptBudget.CompactBound` | src/agent-token-governance.mjs:107-134 | Compacting respects the budget in every stage, and blanks exactly the blank sections and, in an emergency, the optional ones |
| `PromptBudget.SelectKeeps` | src/agent-token-governance.mjs:213-238 | Kept sections stand in order and are their own compacted texts; every required section that is not blank is kept; the running total is that of the blocks |
| `PromptBudget.PromptLength` | src/agent-token-governance.mjs:213-250 | The prompt exceeds four characters a token by the allowances of the kept required sections at most, and not at all when every section is optional |
| `PromptBudget.EmergencyKeepsRequired` | src/agent-token-governance.mjs:129-134 | In an emergency only required sections are kept |
| `PromptBudget.GovernSections` | src/agent-token-governance.mjs:181-251 | The loop over the sections refines that selection and its prompt fits the bound |
| `Sanitizer.SanitizingHTMLParser.HandleStartTag` | lobster_security/lobster_security/search_proxy.py:34-40 | Refines the step of the specification machine on a start tag |
| `Sanitizer.SanitizingHTMLParser.HandleEndTag` | lobster_security/lobster_security/search_proxy.py:42-48 | Refines the step on an end tag; the counter never goes below zero |
| `Sanitizer.SanitizingHTMLParser.HandleData` | lobster_security/lobster_security/search_proxy.py:50-61 | Refines the step on data: skipped, dropped as blank, or recorded in the list of the current mode; the first recorded text makes the title |
| `Sanitizer.SanitizingHTMLParser.constructor` | lobster_security/lobster_security/search_proxy.py:26-32 | A new parser is in text mode, skips nothing and has recorded nothing |
| `Sanitizer.SkipIsLargestSuffix` | lobster_security/lobster_security/search_proxy.py:34-48 | On any event stream, balanced or not, the skip counter is the largest number of starts minus ends of skip tags over all suffixes of the stream |
| `Sanitizer.CaptureIsLastTag` | lobster_security/lobster_security/search_proxy.py:34-48 | The capture mode is set by the last pre or code tag of the stream |
| `Sanitizer.DocumentRecorded` | lobster_security/lobster_security/search_proxy.py:34-61 | For every well-nested document, the recorded parts are exactly the non-blank data without a script, iframe, style or form ancestor, in document order; the counter is back at zero; the title is the start of the first |
| `Sanitizer.FiledIff` | lobster_security/lobster_security/search_proxy.py:34-61 | For every well-nested document, the code parts are exactly the visible data below pre or code, in order with the text parts, if and only if no visible text below pre or code follows the end of a nested one unless another has opened |
| `Sanitizer.WrappedCodeFiled` | lobster_security/lobster_security/search_proxy.py:34-61 | So the common nesting is filed correctly: one code element that fills its pre |
| `Sanitizer.NestedCodeMisfiled` | lobster_security/lobster_security/search_proxy.py:42-48 | An instance that is not: after the inner end tag the rest of the outer element counts as text |
| `Sanitizer.SqueezeBlank` | lobster_security/lobster_security/search_proxy.py:53-55 | Joining the words yields nothing exactly for blank data |
| `Sanitizer.SqueezeMeaning` | lobster_security/lobster_security/search_proxy.py:44 | The recorded text keeps the visible characters in order, with one blank between two words and none at the ends |
| `Sanitizer.TagMeaning` | lobster_security/lobster_security/search_proxy.py:27-42 | The skipped tags are script, iframe, style and form, those with code pre and code, in any case |
| `Sanitizer.TitleMeaning` | lobster_security/lobster_security/search_proxy.py:47-48 | The title is the first recorded text up to its 200th character |
| `SourceGroups.BuildComparableBigrams` | src/answer-source-mapper.mjs:21-34 | The loop collects the set of neighbouring pairs of the comparable characters |
| `SourceGroups.CountShared` | src/answer-source-mapper.mjs:56-61 | The counting loop counts each shared bigram once |
| `SourceGroups.ComputeSnippetSimilarity` | src/answer-source-mapper.mjs:36-64 | The loop counts the shared bigrams exactly; the result lies between 0 and 1 |
| `SourceGroups.SimilarityRange` | src/answer-source-mapper.mjs:36-64 | Similarity lies between 0 and 1 |
| `SourceGroups.SimilarityMeaning` | src/answer-source-mapper.mjs:36-66 | On the cleaned snippets: 0 for a blank one, 1 when one contains the other, else the number of common pairs of neighbouring characters over that of all pairs |
| `SourceGroups.SimilarMeaning` | src/answer-source-mapper.mjs:66-68 | Two snippets are similar exactly when neither is blank, and one contains the other or at least 72% of all pairs are common |
| `SourceGroups.KeepMeaning` | src/answer-source-mapper.mjs:20-21 | Comparing keeps the lower-case letters, digits and ideographs, in order |
| `SourceGroups.SimilaritySymmetric` | src/answer-source-mapper.mjs:36-64 | Similarity does not depend on the order of the two snippets |
| `SourceGroups.FindGroupMeaning` | src/answer-source-mapper.mjs:160-160 | The search finds the first group with a similar primary snippet, or there is none |
| `SourceGroups.BuildSourceGroups` | src/answer-source-mapper.mjs:152-174 | The groups partition exactly the sources with a snippet, in first-seen order; a member is similar to no earlier group's primary snippet, and to its own group's exactly when that cleans to something |
| `SourceGroups.PrimariesApart` | src/answer-source-mapper.mjs:152-174 | No two groups have similar primary snippets |
| `SourceGroups.BlankStaysAlone` | src/answer-source-mapper.mjs:152-174 | A snippet that cleans to nothing is similar to nothing, not even to itself, and its group has one member |
| `SourceGroups.FirstByIdMeaning` | src/answer-source-mapper.mjs:119-134 | Every id is kept, once, by its first source, and the sources of a prefix are a prefix of those of the whole list |
| `SourceGroups.BuildAnswerSources` | src/answer-source-mapper.mjs:119-134 | The loop with its set of seen ids keeps the first source of each id, in order |
| `LearningLoop.BuildBuckets` | src/agent-learning-loop.mjs:551-598 | The loop that mutates the buckets agrees with grouping: one bucket for each non-empty key, with exactly its requests counted, split into successes and failures, timed and ranked |
| `LearningLoop.MatchingMeaning` | src/agent-learning-loop.mjs:551-598 | The reference for a key: the positions of its requests, all of them, in order |
| `LearningLoop.BucketsCoverRequests` | src/agent-learning-loop.mjs:551-598 | The sample counts of all buckets, in any order, sum to the number of requests with a key; and so of all requests, as the source gives each a key |
| `LearningLoop.ReplayHalves` | src/agent-learning-loop.mjs:304-323 | Control and candidate partition the samples, differ in size by at most one, the control half is no newer, and the success counts add up |
| `LearningLoop.P95Meaning` | src/agent-learning-loop.mjs:237-254 | At least 95% of the latencies are at most the p95 figure, which is one of them, and fewer than 95% are strictly below it |
| `LearningLoop.AverageBounds` | src/agent-learning-loop.mjs:248-251 | The rounded average is the integer next to the mean, halves up, and lies between the least and the greatest latency |
| `LearningLoop.SumConcat` | src/agent-learning-loop.mjs:248 | Sums add up over any way of cutting a list |

## Left out

- GetTask: the task files are a set of ids, which only `start_task` extends; a write or a command that edits such a file is not followed. Likewise the log is the sequence of records as the wrapper wrote them, whatever is later done to the log files.
- NamedIsWritten: the patterns of the redaction are not modelled, any function on strings stands for them. A path such as `notes/sk-abcdefghij0.txt` is redacted in the log file, so the file does not name it as the final diff does.
- Valid: the files of the audit root are not in the tree. The root must be invisible to scans, as it is by default; with `audit.root` elsewhere inside the workspace every record changes a visible file that no record names.
- CreateSnapshot: a manifest file holds what a rendering function makes of the files root and the entries, and a parsing function reads back; the layout of the JSON and the other metadata are not modelled.
- RollbackOverRuns: the edits of a run do not write into the snapshot area, and new task ids are single path components that nothing in the area uses yet.
- ScanWorkspace: walks the tree in string order, where the source sorts by path components; only the order of a manifest depends on it.
- ListAllUnresolved: requires that some page is the last; against a service that never ends its pages the source asks for ever.
- SpellingsRoundTrip: digits are the ASCII ones, and the interpreter's limit on the length of integer strings is not modelled.
- IncrementalIsBatch: holds on items that normalising leaves stable; BatchIffStable shows that no other set of items has it over all runs.
- Lookup: the store is a map from keys to records. In the source it is a plain object, so the keys "constructor" and "__proto__" meet what objects inherit: the first reads as a blank record before any update, the second is lost on writing.
- ChunkSizes: for an overlap of at least 1; ZeroOverlapBoundIff is exact for 0, and for negative settings NegativeOverlapSizes gives a bound but not when it is reached.
- PromptLength: for the label format; the XML format, which adds tags outside the budget, is not modelled.
- StageOf: thresholds and the factors 0.32, 0.18, 0.55 and 0.2 are exact rationals; floating-point rounding at a boundary is not modelled.
- P95Meaning: the sort is any ordered rearrangement, and n * 0.95 is exact; the same holds for the sort by rank in ReplayHalves.
- AverageBounds: durations are the integers left after the source's own filtering of missing values; the mean is an exact quotient.
- Similarity: the quotient is exact; `normalizeCompareText` is a parameter, so nothing depends on its case folding.
- PollerRun: calls of the workflow from outside the poller are not steps of the machine; TwoPollsRepeat shows that one in flight beside a poll can repeat a card.
- OnThen: the promise of each round fulfils; a rejection of `runRound` is not a step.
- DocumentRecorded: tokenising, character references, CDATA content and void tags belong to the standard library's parser, whose events are the input here.
- Symlinks, permissions and path resolution: the tree has regular files and directories under normalised paths.
- Reads, HTTP requests, search actions, approval prompts, command policy and sandbox checks of the wrapper: the decisions are inputs, and what a command does to the tree is any well-formed tree.
- Clocks, random identifiers and digests: parameters, or values given to the operations.
- JavaScript strings are sequences of characters rather than of UTF-16 units.
- Case folding outside ASCII, and the regular expression for headings, which is a parameter of the prompt budget.
- Labels, merged snippets and rendered lines of source groups; error counters, sample trace ids, ranking and proposals of the learning loop.
- Tool registrations, regex classification, network guards, the advisor's decision table and report printing: finite tables or forwarding.
