# project-brain-beacon, modelled in Dafny

project-brain-beacon hands a project's state from one AI chat thread to the
next. A narrative file (`.brain.yml`) records the current step, its definition
of done, the recent commands and the troubleshooting history. A snapshot
generator writes the repository's files and git state to `dist/stp.yaml`. The
browser front end composes a single JSON "copy" payload behind a one-line
banner, checks that it parses, and puts it on the clipboard. It also shows a
project picker and a status card.

This project models that core as pure functions over an explicit JSON/YAML
value type, and proves what each step promises. There is one module per file:

| file | module | what it models |
|---|---|---|
| `wrappers.dfy` | `Wrappers` | `Option` and `Result` (a thrown exception is an `Err`) |
| `strings.dfy` | `Strings` | JavaScript `trim` and Python `strip` whitespace, ASCII lower-casing, `includes`, `split`/`join`, decimal rendering |
| `ordering.dfy` | `Ordering` | the code-point order, insertion sort, distinctness, subsequences |
| `json.dfy` | `Json` | JavaScript/YAML values with ordered members, member lookup and assignment, truthiness, `\|\|`, `??`, `String()` |
| `copy_composer.dfy` | `CopyComposer` | `frontend/src/lib/copyComposer.js`: banner, banner stripping, prompt-pack sniffing, current step, file inlining, the payload |
| `footer_bar.dfy` | `FooterBar` | `frontend/src/FooterBar.jsx`: the copy button's options, validity check and status line |
| `brain_update.dfy` | `BrainUpdate` | `tools/brain_update.py`: one run of the narrative updater |
| `stp_make.dfy` | `StpMake` | `tools/stp_make.py`: file selection, inlining, the tree view, the YAML emitter, the snapshot document |
| `project_switcher.dfy` | `ProjectSwitcher` | `frontend/src/components/ProjectSwitcher.jsx`: filtering, selection, caption, open/close events |
| `status_card.dfy` | `StatusCard` | `frontend/src/components/StatusCard.jsx`: the `generated_at`/`tag` regular expressions and the health line |

A few behaviours of the code are worth knowing before reading the contracts:

- The HTML sniff on the prompt pack reads the first 50 characters of the trimmed text.
- A file candidate is inlined only when it carries string `content`. A record without
  content gets a `note: "ask by path"` stub (`CopyComposer.InliningExampleNoContent`).
- The footer's validity check asks for eight keys. `project_overview` is not among them.
- A narrative that lacks `project`, `current_step` or `goals` is accepted. Every missing
  member falls back to its default.

## Model

| member | source | states |
|---|---|---|
| CopyComposer.NonEmpty | frontend/src/lib/copyComposer.js:7 | a string with a non-whitespace character is kept as it is; anything else becomes the fallback |
| CopyComposer.NonEmptyIdempotent | frontend/src/lib/copyComposer.js:7 | applying the fallback twice is applying it once |
| CopyComposer.Banner | frontend/src/lib/copyComposer.js:28-30 | the banner starts with `//`, ends with a newline, and has no other newline when the shown project and source have none |
| CopyComposer.StripBanner | frontend/src/lib/copyComposer.js:22-24 | a text that starts with `//` and has a newline loses everything up to the first newline; any other text is unchanged |
| CopyComposer.ParseCopyText | frontend/src/lib/copyComposer.js:22-26 | a `//` text with a newline is parsed from just after its first newline; any other text is parsed whole |
| CopyComposer.ParseBanneredCopy | frontend/src/lib/copyComposer.js:22-30 | parsing a bannered copy parses exactly the body that follows the banner |
| CopyComposer.BannerRoundTrip | frontend/src/lib/copyComposer.js:22-30 | stripping the banner from banner + body gives back the body exactly |
| CopyComposer.Destructure | frontend/src/lib/copyComposer.js:33-36 | each of the nine options is read as given, and takes its own default exactly when it is `undefined` |
| CopyComposer.SniffWindowIrrelevant | frontend/src/lib/copyComposer.js:42-44 | looking at only the first 50 characters decides the same as looking at the whole trimmed, lower-cased text |
| CopyComposer.PromptPack | frontend/src/lib/copyComposer.js:41-45 | the prompt pack is the chosen text, or empty exactly when that text is empty or starts with `<!doctype` or `<html` after trimming, case-insensitively |
| CopyComposer.DoctypeExample | frontend/src/lib/copyComposer.js:43-44 | a fetched page starting `<!DOCTYPE html>` is discarded |
| CopyComposer.RepoName | frontend/src/lib/copyComposer.js:48 | the repository name is `repo.name` when it is a non-blank string, else the narrative's truthy `project.name`, else `project-brain-beacon` |
| CopyComposer.Branch | frontend/src/lib/copyComposer.js:49 | the branch is the option when it is a non-blank string, else `main` |
| CopyComposer.BuildTrace | frontend/src/lib/copyComposer.js:47-52 | the trace has its six keys in order, the repository name and branch above, `commit`, `runtime` and the stamp as given, and the `endpoints` option unless it has no keys, then the narrative's endpoints or `{}` |
| CopyComposer.ProjectOverview | frontend/src/lib/copyComposer.js:54-60 | the overview has its five sections in order, none `undefined` or `null`; `overview` comes from `project` and `goals` from the top level, each falling back when falsy |
| CopyComposer.ThreadBrief | frontend/src/lib/copyComposer.js:62-65 | the brief is the narrative's `project.summary` when it is a non-blank string, otherwise the sentence naming repository, branch and the current step's name |
| CopyComposer.BriefWithoutNarrative | frontend/src/lib/copyComposer.js:62-65 | without a narrative the brief reads `Project <name> on <branch>. Current focus: n/a.` |
| CopyComposer.StepCommands | frontend/src/lib/copyComposer.js:67-69 | the step's own non-empty command array wins; otherwise a prefix of the recent commands of length min(2, count) |
| CopyComposer.CommandsFallbackExample | frontend/src/lib/copyComposer.js:67-69 | an empty own command list with three recent commands yields the first two |
| CopyComposer.CurrentStep | frontend/src/lib/copyComposer.js:67-70 | the current step is an object whose `commands` are the step commands and whose every other member is the narrative step's |
| CopyComposer.AbsentNarrativeStep | frontend/src/lib/copyComposer.js:67-70 | with no narrative the current step is `Unknown` with empty done list and commands |
| CopyComposer.AbsentNarrativeDefaults | frontend/src/lib/copyComposer.js:54-103 | with no narrative the overview, troubleshooting and footer asks are all empty |
| CopyComposer.Troubleshooting | frontend/src/lib/copyComposer.js:72 | the troubleshooting section is always an array: the narrative's when it is one, else empty |
| CopyComposer.Footer | frontend/src/lib/copyComposer.js:93-103 | the footer has its three keys in order, the stop rule is also the last of the five rules, and the asked commands are the truthy recent commands or `[]` |
| CopyComposer.InlineLimit | frontend/src/lib/copyComposer.js:80 | a nullish `max_inline_kb` gives 10 KiB, a number n gives n × 1024, and any limit is a whole number of KiB |
| CopyComposer.Decide | frontend/src/lib/copyComposer.js:80-86 | a file object is inlined exactly when it has string content and is flagged inline or within the size limit; the entry keeps the path, the content, and `bytes`, falling back to the content length |
| CopyComposer.InlineRespectsLimit | frontend/src/lib/copyComposer.js:80-82 | an entry inlined without the flag has a limit, and its numeric `bytes` (else its content length) is within it |
| CopyComposer.InliningExampleSmall | frontend/src/lib/copyComposer.js:80-83 | a 5000-byte file with content is inlined under the default 10 KiB limit |
| CopyComposer.InliningExampleLarge | frontend/src/lib/copyComposer.js:80-85 | a 50000-byte file is referenced by path under the default 10 KiB limit |
| CopyComposer.InliningExampleNoContent | frontend/src/lib/copyComposer.js:81-85 | a file record without content is referenced by path even when small |
| CopyComposer.DecideAllAt | frontend/src/lib/copyComposer.js:74-89 | the i-th important file is the decision for the i-th file object, in input order |
| CopyComposer.Collect | frontend/src/lib/copyComposer.js:74-89 | the tree receives every string and every object's path in order; the important files are exactly the decisions for the file objects |
| CopyComposer.SnapshotValue | frontend/src/lib/copyComposer.js:105-106 | the payload object has the nine keys in their fixed order and no `undefined` member |
| CopyComposer.BuildSnapshot | frontend/src/lib/copyComposer.js:47-106 | every section is defined; `build_trace` carries the stamp and `thread_brief` is the brief rule above; the file tree is a sorted permutation of the candidate paths; each other section is the one its own rule computes from the narrative and options |
| CopyComposer.FileTreeIgnoresCandidateOrder | frontend/src/lib/copyComposer.js:106 | reordering the candidates leaves the file tree unchanged |
| CopyComposer.FileTreeKeepsDistinct | frontend/src/lib/copyComposer.js:106 | distinct candidate paths give a tree without duplicates |
| CopyComposer.Compose | frontend/src/lib/copyComposer.js:32-110 | composition throws exactly when the options are `null` or `repo` is `null`; otherwise the text is the banner followed by the pretty-printed payload |
| CopyComposer.IgnoresCurrentStepOption | frontend/src/lib/copyComposer.js:33-36 | the `current_step` option has no effect on the composed result |
| CopyComposer.SameOptions | frontend/src/lib/copyComposer.js:33-36 | options that agree on every destructured name compose alike |
| FooterBar.EveryKey | frontend/src/FooterBar.jsx:54-55 | true exactly when the object owns every listed key |
| FooterBar.Valid | frontend/src/FooterBar.jsx:49-59 | valid exactly when the banner-stripped text parses to an object owning all eight required keys |
| FooterBar.StatusFor | frontend/src/FooterBar.jsx:61-64 | the three status lines correspond one-to-one to: copied and valid, copied and invalid, copy failed |
| FooterBar.Settle | frontend/src/FooterBar.jsx:22-64 | a throwing composer or clipboard leaves "Building JSON…"; otherwise the status reflects the clipboard result and the validity of the composed text |
| FooterBar.HandleCopy | frontend/src/FooterBar.jsx:22-64 | the status is one of the four lines; a `null` repo prop or a throwing clipboard leaves "Building JSON…", and otherwise a clipboard that returns false reports the failure |
| FooterBar.PayloadTextValid | frontend/src/FooterBar.jsx:49-55 | a banner followed by any pretty-printed payload object with the nine keys passes the validity check |
| FooterBar.ComposedTextValid | frontend/src/FooterBar.jsx:24-55 | every composition that does not throw produces text that passes the validity check |
| FooterBar.SettleValid | frontend/src/FooterBar.jsx:61-62 | a successful clipboard write of a composed text always reports "Copied JSON ✅ (valid)" |
| FooterBar.CopyOptionsRead | frontend/src/FooterBar.jsx:24-47 | the composer reads the button's project and repo props and the fixed source `/stp.json` |
| FooterBar.ButtonCopyIsValid | frontend/src/FooterBar.jsx:22-62 | pressing the button with a non-null repo and a one-line project id ends in the valid status when the clipboard accepts |
| BrainUpdate.Document | tools/brain_update.py:10-14 | a falsy load becomes the empty mapping, a mapping is used as is, and any other truthy document is an error |
| BrainUpdate.Ensure | tools/brain_update.py:20-21 | a missing or `None` key gets the default; a set key and every other key are unchanged |
| BrainUpdate.EnsureIdempotent | tools/brain_update.py:20-21 | ensuring a key twice is ensuring it once |
| BrainUpdate.PyIn | tools/brain_update.py:44 | `in` over a list tests element membership, over a mapping key membership, and fails on non-containers |
| BrainUpdate.AppendNew | tools/brain_update.py:41-50 | no items leave the container as it is; on a list the result is the old list followed by the first occurrence of each item it lacks, in argument order |
| BrainUpdate.FirstNewAppends | tools/brain_update.py:43-50 | that result keeps the old list as a prefix, adds only absent items, without duplicates and in argument order, and leaves every item present |
| BrainUpdate.NonBlank | tools/brain_update.py:52 | the kept commands are, in order, exactly those that are not blank after stripping, each as often as it was given |
| BrainUpdate.RemoveFirst | tools/brain_update.py:54-55 | an absent value leaves the list unchanged; otherwise exactly its first occurrence is removed |
| BrainUpdate.MoveToFront | tools/brain_update.py:54-56 | the command goes first, followed by the old list without its first occurrence of the command |
| BrainUpdate.PushAll | tools/brain_update.py:53-56 | the result is each pushed command once at its last push, most recent first, then the old list without the first occurrence of each pushed command |
| BrainUpdate.LatestOfDistinct | tools/brain_update.py:53-56 | distinct commands end up in front in reverse order |
| BrainUpdate.PushAllDistinct | tools/brain_update.py:53-56 | pushing onto a list without duplicates gives a list without duplicates |
| BrainUpdate.Slice | tools/brain_update.py:57 | slicing works on lists and strings only and gives a prefix of length min(n, length) for n ≥ 0, and of length max(0, length + n) for negative n |
| BrainUpdate.AddCommands | tools/brain_update.py:51-57 | with a non-blank command the update succeeds exactly on a list, and then the new list is the pushed commands, most recent first, followed by the old list without them, cut by `[:max_recent]` |
| BrainUpdate.AddCommandsShape | tools/brain_update.py:51-57 | when the kept commands are distinct, they appear reversed in front of the old list without them, cut to `max_recent` |
| BrainUpdate.StripFacts | tools/brain_update.py:60-64 | a stripped string has no outer whitespace and only characters of the original |
| BrainUpdate.FixesClean | tools/brain_update.py:64 | every kept fix is non-empty, stripped, and free of any character the input parts lack |
| BrainUpdate.ParseTrouble | tools/brain_update.py:58-64 | any `--trouble` text parses to a stripped issue and cause without `\|` and non-empty stripped fixes without `;`; a text without `\|` is all issue |
| BrainUpdate.TroubleTwoParts | tools/brain_update.py:58-64 | `issue\|cause` parses to the stripped issue and cause with no fixes |
| BrainUpdate.TroubleExtraPartsIgnored | tools/brain_update.py:58-64 | the fixes come from the third part alone: parts after the third are ignored |
| BrainUpdate.TroubleRoundTrip | tools/brain_update.py:58-64 | rendering a well-formed entry as `issue\|cause\|fix1;fix2` and parsing it gives the entry back |
| BrainUpdate.FixesRoundTrip | tools/brain_update.py:64 | joining clean fixes with `;` and splitting them again gives them back |
| BrainUpdate.Base | tools/brain_update.py:35-37 | afterwards the three guaranteed keys are set and no other key changes |
| BrainUpdate.BaseSettles | tools/brain_update.py:35-37 | on a well-formed document the guaranteed keys hold a mapping and two lists |
| BrainUpdate.SetStep | tools/brain_update.py:39-40 | a step name succeeds exactly on a mapping `current_step`, sets its `name`, and changes nothing else |
| BrainUpdate.AddDod | tools/brain_update.py:41-45 | done items need a mapping `current_step`; its `definition_of_done` becomes the old list followed by the first occurrence of each new item, and every other member of the step is kept |
| BrainUpdate.AddNext | tools/brain_update.py:46-50 | `next_steps` becomes the old list followed by the first occurrence of each new item, and no other key changes |
| BrainUpdate.AddCmds | tools/brain_update.py:51-57 | commands touch only `commands_recent`, and the result is the recent-list update |
| BrainUpdate.AddTrouble | tools/brain_update.py:58-67 | a trouble entry succeeds exactly on a list, goes in front of the older entries, and changes no other key |
| BrainUpdate.Update | tools/brain_update.py:33-67 | a successful run saves a mapping |
| BrainUpdate.RunKeepsBaseKeys | tools/brain_update.py:35-67 | after the defaults every flag keeps the three guaranteed keys set |
| BrainUpdate.UpdateKeepsBaseKeys | tools/brain_update.py:33-67 | every saved document has the three guaranteed keys set |
| BrainUpdate.RunOtherKeys | tools/brain_update.py:35-67 | a run changes no key besides the four it may write |
| BrainUpdate.UpdateUntouched | tools/brain_update.py:33-67 | no key outside the four changes, and each of the four moves only under its own flag |
| BrainUpdate.UpdateCommandsBound | tools/brain_update.py:51-57 | with at least one command and `max_recent` ≥ 0, at most `max_recent` recent commands remain |
| BrainUpdate.UpdateTroubleFirst | tools/brain_update.py:58-67 | the new trouble entry comes first, followed by the earlier entries in order |
| BrainUpdate.StepKeepsSettled | tools/brain_update.py:39-40 | on a settled document `--step` cannot fail and keeps it settled |
| BrainUpdate.DodKeepsSettled | tools/brain_update.py:41-45 | on a settled document `--dod` cannot fail and keeps it settled |
| BrainUpdate.NextKeepsSettled | tools/brain_update.py:46-50 | on a settled document `--next` cannot fail and keeps it settled |
| BrainUpdate.CmdsKeepsSettled | tools/brain_update.py:51-57 | on a settled document `--add-command` cannot fail and keeps it settled |
| BrainUpdate.TroubleKeepsSettled | tools/brain_update.py:58-67 | on a settled document `--trouble` cannot fail and keeps it settled |
| BrainUpdate.RunSettled | tools/brain_update.py:39-67 | from settled defaults, every combination of flags succeeds and stays settled |
| BrainUpdate.UpdatePreservesWellFormed | tools/brain_update.py:33-67 | a well-formed narrative is always accepted and saved well-formed, so the updater can be rerun on its own output |
| StpMake.SuffixOfExtension | tools/stp_make.py:40 | a name `stem.ext` has suffix `.ext` |
| StpMake.DotfileHasNoSuffix | tools/stp_make.py:40 | a name with one leading dot has no suffix |
| StpMake.Suffix | tools/stp_make.py:40 | a suffix is a proper tail of the name of at least two characters, starting with its only dot; it is empty exactly when no dot follows the first character or the name ends in a dot |
| StpMake.MakeItemFields | tools/stp_make.py:38-47 | a record has the path and size, `inline` true exactly when the file is eligible and readable, and content exactly then |
| StpMake.GitignoreNeverInlined | tools/stp_make.py:28-47 | `.gitignore`, though listed, is never inlined |
| StpMake.KeptMembers | tools/stp_make.py:32-37 | the walked files kept, in walk order, are exactly those without an excluded path component |
| StpMake.Kept | tools/stp_make.py:32-37 | no kept entry has an excluded component, and a walk without one is kept whole |
| StpMake.TreeLineOfParts | tools/stp_make.py:54-55 | a path's tree line is two spaces per directory level, a dash, and the last component |
| StpMake.TreePlaceholderIffEmpty | tools/stp_make.py:56 | the tree is the placeholder exactly when there are no files |
| StpMake.TreeIgnoresOrder | tools/stp_make.py:53 | the tree depends only on the multiset of paths, not the walk order |
| StpMake.TreeSplitsIntoLines | tools/stp_make.py:51-56 | the tree has one line per file, the files' lines in sorted path order |
| StpMake.Dumps | tools/stp_make.py:68 | a scalar's JSON rendering is non-empty, printable ASCII, and a single line |
| StpMake.YmlEmptyContainer | tools/stp_make.py:59-78 | an empty mapping or list emits nothing |
| StpMake.FlatPropLines | tools/stp_make.py:61-69 | a mapping of scalars emits one `key: value` line per member, in order |
| StpMake.FlatMappingLines | tools/stp_make.py:59-69 | splitting a flat mapping's output on newlines gives back exactly its key lines |
| StpMake.YmlIndented | tools/stp_make.py:59-79 | every line emitted at depth n starts with 2n spaces |
| StpMake.GitValue | tools/stp_make.py:17-24 | the git section has the six keys in order, all string-valued |
| StpMake.StpSummary | tools/stp_make.py:82-93 | `file_count` is the number of file records, one per kept file, and `tree` is the tree of their paths |
| StpMake.StpEmittable | tools/stp_make.py:82-94 | the snapshot holds only values the emitter handles and no key with a newline |
| StpMake.MappingHead | tools/stp_make.py:59-69 | a mapping whose first two members are scalars opens with their two `key: value` lines |
| StpMake.EscapePlain | tools/stp_make.py:68 | `json.dumps` leaves printable ASCII other than quote and backslash unescaped |
| StpMake.StpYaml | tools/stp_make.py:81-97 | the written YAML opens with the line `stp_version: "1"` and then the `generated_at` line carrying the stamp |
| ProjectSwitcher.Matches | frontend/src/components/ProjectSwitcher.jsx:17-21 | a project is accepted only when its name, else its id, else one of its tags mentions the query; malformed projects throw |
| ProjectSwitcher.MatchesWellFormed | frontend/src/components/ProjectSwitcher.jsx:17-21 | on a well-formed project the filter never throws and accepts exactly when name, id or a tag mentions the query |
| ProjectSwitcher.FilterByOk | frontend/src/components/ProjectSwitcher.jsx:17 | filtering succeeds exactly when the test succeeds on every project |
| ProjectSwitcher.FilterByKeeps | frontend/src/components/ProjectSwitcher.jsx:17 | the kept projects are exactly those the test accepts |
| ProjectSwitcher.Filtered | frontend/src/components/ProjectSwitcher.jsx:14-22 | a blank query shows every project; any result is an order-preserving selection |
| ProjectSwitcher.FilteredMembers | frontend/src/components/ProjectSwitcher.jsx:15-21 | over well-formed projects a non-blank query shows exactly the projects that mention it |
| ProjectSwitcher.FilteredIgnoresCase | frontend/src/components/ProjectSwitcher.jsx:15 | lower-casing the query changes nothing |
| ProjectSwitcher.Find | frontend/src/components/ProjectSwitcher.jsx:25 | a found project is one of the list and its id strictly equals the selected id |
| ProjectSwitcher.Selected | frontend/src/components/ProjectSwitcher.jsx:24-27 | the selection is `null` or a listed project whose id strictly equals the selected id, and the search throws only on a `null` or `undefined` entry |
| ProjectSwitcher.SelectedIsFirstMatch | frontend/src/components/ProjectSwitcher.jsx:24-27 | the selection is the first project whose id equals the selected id, and `null` exactly when none does |
| ProjectSwitcher.Caption | frontend/src/components/ProjectSwitcher.jsx:53 | the prompt shows exactly when nothing is selected; otherwise the caption starts with the name |
| ProjectSwitcher.Step | frontend/src/components/ProjectSwitcher.jsx:31-99 | Escape closes and keeps the query; the button toggles; typing replaces the query only while the list is open; choosing a shown row of the open list selects that row's id, closes the list and clears the query, and any other choice changes nothing; only such a choice selects |
| ProjectSwitcher.OpenThenChoose | frontend/src/components/ProjectSwitcher.jsx:40-99 | opening the closed picker and choosing row i selects project i's id and returns to the closed, empty-query state |
| ProjectSwitcher.ToggleTwice | frontend/src/components/ProjectSwitcher.jsx:41 | toggling twice restores the state |
| ProjectSwitcher.EscapeIdempotent | frontend/src/components/ProjectSwitcher.jsx:31 | a second Escape changes nothing |
| ProjectSwitcher.ChooseShowsAllAfterwards | frontend/src/components/ProjectSwitcher.jsx:96-99 | the chosen id is the shown row's, and the list afterwards shows every project |
| ProjectSwitcher.ResetShowsAll | frontend/src/components/ProjectSwitcher.jsx:11-16 | the initial empty query shows every project |
| StatusCard.CaptureGreedy | frontend/src/components/StatusCard.jsx:10-12 | `\s*(.+)$` captures from the first non-space position, possibly on a later line, to the end of that line, and fails exactly when no group can start |
| StatusCard.Find | frontend/src/components/StatusCard.jsx:7 | the match found is the one at the leftmost position that matches, and none exactly when no position does |
| StatusCard.FirstMatchWins | frontend/src/components/StatusCard.jsx:6-9 | the leftmost match's group, cleaned, is the line's value |
| StatusCard.StripQuotesOfQuoted | frontend/src/components/StatusCard.jsx:8 | surrounding double quotes are removed |
| StatusCard.StripQuotesUnquoted | frontend/src/components/StatusCard.jsx:8 | an unquoted value is unchanged |
| StatusCard.StripQuotes | frontend/src/components/StatusCard.jsx:8 | at most two characters go, and only characters of the value remain |
| StatusCard.Cleaned | frontend/src/components/StatusCard.jsx:8 | the cleaned value stays on one line and has no outer whitespace |
| StatusCard.Finish | frontend/src/components/StatusCard.jsx:8 | no match yields `unknown` |
| StatusCard.GetLine | frontend/src/components/StatusCard.jsx:6-9 | the value is always one line without outer whitespace |
| StatusCard.GetLineFromKeyLine | frontend/src/components/StatusCard.jsx:6-12 | a known value comes from a line that starts with the key and a colon |
| StatusCard.GeneratedAtAtLineStart | frontend/src/components/StatusCard.jsx:10 | a known `generated_at` comes from a line starting exactly with `generated_at:` |
| StatusCard.ParseFromYaml | frontend/src/components/StatusCard.jsx:5-13 | both values are one line; the time is the unindented `generated_at` value; the tag is the `tag` or the `branch` value, and `unknown` exactly when both are |
| StatusCard.TagFallsBackToBranch | frontend/src/components/StatusCard.jsx:11-12 | with no line matching the `tag` pattern the tag is the `branch` value |
| StatusCard.TagUnknownFallsBack | frontend/src/components/StatusCard.jsx:8-12 | a first `tag` match whose value cleans to `unknown` also falls back to the `branch` value |
| StatusCard.UnknownSpellings | frontend/src/components/StatusCard.jsx:8 | both `unknown` and `"unknown"` clean to `unknown` |
| StatusCard.TagLineWins | frontend/src/components/StatusCard.jsx:11-12 | a `tag` line with a known value wins over any `branch` line |
| StatusCard.SecondLineMatch | frontend/src/components/StatusCard.jsx:6-10 | when the text opens with a non-matching line and then `key: v`, the value read for the key is `v`, cleaned |
| StatusCard.ReadsSnapshotTime | frontend/src/components/StatusCard.jsx:10 | the card shows exactly the generation time that `tools/stp_make.py` wrote into the snapshot, for a stamp of printable ASCII without blanks, quotes or backslashes |
| StatusCard.Health | frontend/src/components/StatusCard.jsx:21-23 | `ok` exactly when the reply's `ok` is truthy, `error` exactly when the request or decoding failed, else `not ok` |
| StatusCard.SnapshotMeta | frontend/src/components/StatusCard.jsx:25-28 | a failed snapshot request shows `unknown` for both values; a text is read by the two patterns |
| Ordering.Sort | frontend/src/lib/copyComposer.js:106 | the result is sorted and a permutation of the input |
| Ordering.SortIgnoresOrder | tools/stp_make.py:53 | permutations of one another sort to the same sequence |
| Strings.TrimEmptyIffBlank | frontend/src/lib/copyComposer.js:7 | trimming leaves nothing exactly when every character is whitespace |
| Strings.SplitJoin | tools/brain_update.py:59 | splitting a join on a separator no part contains gives the parts back |

## Left out

- Input and output are parameters: file reads and writes, `fetch`, the clock, `git`
  subprocesses, `rglob`, the clipboard and console logging. The model receives their results.
- The shipped `copyToClipboard` (copyComposer.js:113-125) returns true or throws; it never
  returns false. `Clipboard.Wrote(false)`, which reports "Copy failed", therefore matches no
  path of that helper. It is kept because FooterBar.jsx:61-64 handles a false result.
- The JSON and YAML libraries are parameters: `JSON.stringify`, `JSON.parse`, `yaml.load`
  and `yaml.safe_load`. The validity lemmas assume only that parsing a pretty-printed object
  gives the object back, minus its `undefined` members.
- `safeFetch` and the index fetch (copyComposer.js:9-20, 38-39) are not modelled. The
  narrative arrives as a loaded value, and the prompt pack arrives as an optional text.
- `asUTC` (copyComposer.js:6) and the timestamps of both Python tools are string parameters.
- The prompt-pack template of stp_make.py (lines 99-123) is plain text formatting and is not modelled.
- Numbers are integers. Fractions, `NaN` and `Infinity` are not modelled, except that a
  non-numeric `max_inline_kb` makes the limit `None`, which inlines nothing without the flag.
- Json.StringToNumber: reads only blank text and optionally signed decimal digits. The
  prefixed forms `0x10`, `0b1` and `0o7`, exponent notation such as `1e3`, and decimal points
  such as `16.0` convert to `None` (NaN) here, where JavaScript's `Number` gives 16, 1, 7, 1000
  and 16. So a quoted `max_inline_kb: "0x10"` gives no limit in the model and 16 KiB in the source.
- Lower-casing is ASCII only. JavaScript's and Python's full Unicode case mappings are not modelled.
- Ordering.Sort: compares code points, as Python does. JavaScript's default sort compares
  UTF-16 code units, which differs only for characters beyond U+FFFF.
- Object spread over an array or a string lists indices in order. JavaScript's rule that
  integer-like keys of an object come first is not modelled.
- YAML aliases are not modelled: a loaded value is a tree, so no two keys share one object.
  The frame lemmas (`BrainUpdate.RunOtherKeys`, `BrainUpdate.UpdateUntouched`) hold for
  alias-free documents only; with an alias, a write through one key also shows under another.
- A loaded document never holds JavaScript `undefined`, so that value is not modelled inside loaded documents.
- `Path.suffix` follows Python 3.13 and earlier. Later versions change the rule for names ending in a dot.
- ProjectSwitcher.StrictEq: treats an object or an array as equal to nothing, because the
  model has no identity. So `Find` and `Selected` never select a project whose `id` is the very
  object passed as `selectedId`, where JavaScript `===` would.
- The rendering of ProjectSwitcher, StatusCard and FooterBar is not modelled. `onSelect` is
  modelled as the chosen id in the event outcome.
- The timer that clears FooterBar's status after 2.5 s (FooterBar.jsx:16-20) is not modelled.
- StatusCard's two requests are abstracted to their results: `Health` takes the decoded reply
  or an error, and `SnapshotMeta` takes the text or an error.
- ProjectSwitcher.Caption: states that the caption starts with the project's name, not the full `name (id)` text.
- BrainUpdate.AddCommandsShape: requires the kept commands to be distinct. Repeated commands are
  covered by `AddCommands`, whose contract states the exact list in every case.
- CopyComposer.Decide: content length is counted in code points. JavaScript's `.length` counts
  UTF-16 code units, so a character beyond U+FFFF counts once here and twice in the source.
  The same holds for `SizeOk` and for the `bytes` fallback.
- The `dist` and `prompt_pack.md` writes and the `Updated .brain.yml` message are output only.
