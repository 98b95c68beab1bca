# Completion core of nvim-completion-manager, modelled in Dafny

The completion manager collects candidate words from many completion
sources while the user types in Neovim. Its Python core, `Handler`, does the
following:

- It stores each source's latest report (a start column and raw matches)
  under the source's name, in arrival order.
- On every edit (`cm_refresh`) it decides which sources to ask again:
  those whose scope matches the buffer, and that have no stored report or
  ask to be refreshed. With nobody to ask, it merges straight away.
- A merge (`_refresh_completions`) sorts the stored sources by descending
  priority, processes each source's matches, and pads every word with the
  typed text between the common start column and the source's own. The
  padded lists are then concatenated and handed to the editor's popup
  (`_complete`).
- `process_matches` turns a source's raw matches into records with a
  `menu`, keeps the ones whose word starts with the typed base (ignoring
  case) and sorts them stably by word length.

`FileServer` caches the current buffer's text, keyed by the version of a
context (change counter and cursor position). Out-of-process sources fetch
that text with the reference stamped into their context, and a request for
a version the editor is no longer at gets nothing.

Modules:

- `Wrappers`: the `Option` type.
- `Text`: Python string operations (ASCII lower-casing, clamped slices,
  `"\n".join` and `split`).
- `OrderedDict`: an insertion-ordered dictionary, the behaviour of Python's
  `dict`.
- `Sorting`: a stable sort by integer key, the behaviour of `list.sort` and
  `sorted`.
- `Editor`: contexts and versions.
- `MatchProcessor`: `process_matches`.
- `Sources`: source descriptors, `_check_scope` and the refresh queue.
- `Merge`: the store, and what a merge computes, stated as functions, with
  its laws.
- `MergeLoops`: the two loops of the merge, and their agreement with
  `Merge`.
- `VersionCache`: the `FileServer` class.
- `Coordinator`: the `Handler` class and the loops it runs.

Calls into Neovim (`cm#notify_sources_to_refresh`, `cm#core_complete`) are
appended to the ghost log `Handler.calls`. The values Neovim would return
to `get_src` (`cm#context()` and the buffer's lines) are parameters of
`FileServer.GetSrc`.

Two behaviours of the code worth knowing:

- `get_src` returns `None` for a request whose version differs from the
  editor's. This includes a request for a version the editor has not yet
  reached, even while the cache still holds the older text.
  `StaleRequestScenario` walks through this case.
- `_last_matches` is set to the empty list once and never assigned again.
  `_complete` therefore skips the popup whenever the merged list is empty,
  even when a previous, nonempty list is still on screen.

## Model

| member | source | states |
|---|---|---|
| Text.SplitJoin | autoload/cm.py:329 | Joining newline-free lines with `"\n"` and splitting the result again gives the lines back, so the served text determines the buffer's lines |
| Text.Lower | autoload/cm.py:225 | Lower-cases each character and keeps the length |
| Text.Join | autoload/cm.py:329 | `"\n".join`: no lines give the empty text, and otherwise the text starts with the first line |
| Text.Slice | autoload/cm.py:184 | Python's `s[i:j]` for non-negative bounds: both ends clamped to the length, empty when `j <= i`, characters taken from `i` on |
| OrderedDict.Put | autoload/cm.py:54-61 | Assigning a dictionary key: a new key goes last, an existing key keeps its place, the value map is updated |
| OrderedDict.Delete | autoload/cm.py:57-58 | `del`: the key is gone and the other keys keep their order |
| Sorting.SortBy | autoload/cm.py:232 | The stable sort by key used for `result.sort(key=...)` and `sorted(..., key=...)`: the result has the input's length (permutation, order and stability in the three lemmas below) |
| Sorting.SortByPermutes | autoload/cm.py:232 | The sort returns a permutation of its input |
| Sorting.SortByIsSorted | autoload/cm.py:232 | The sort's result is in non-decreasing key order |
| Sorting.SortByIsStable | autoload/cm.py:232 | Elements with equal keys keep their relative order (Python's sort is stable) |
| MatchProcessor.Normalize | autoload/cm.py:208-212 | A bare string becomes a record holding only `word`; a record is taken as it is |
| MatchProcessor.Annotate | autoload/cm.py:214-221 | A record without `menu` gets `abbr + " :" + info` (nonempty info under 70 characters, abbreviation set), `info` (no abbreviation), or the abbreviation; an existing menu and every other field are untouched |
| MatchProcessor.PrefixMatches | autoload/cm.py:225 | The filter `base.lower() == word[0:len(base)].lower()`: an empty base lets every word through |
| MatchProcessor.PrefixMatchesIff | autoload/cm.py:225-226 | The filter `base.lower() == word[0:len(base)].lower()` holds exactly when the word is at least as long as the base and agrees with it, ignoring case, on every position of the base |
| MatchProcessor.Kept | autoload/cm.py:206-228 | The filtered records are no more than the items, and each passes the filter and has a menu |
| MatchProcessor.ProcessMatches | autoload/cm.py:200-234 | `process_matches` for a source with the given abbreviation: prepare, filter, sort by word length; never more records than items (full contract in ProcessMatchesSpec) |
| MatchProcessor.KeptMembers | autoload/cm.py:206-228 | A record is kept exactly when it is the prepared form of some item and passes the filter |
| MatchProcessor.ProcessMatchesSpec | autoload/cm.py:200-234 | `process_matches` returns exactly the prepared items that pass the filter: a permutation of them, each with a menu, sorted by word length, with items of equal length in input order |
| MatchProcessor.ProcessedMatchBase | autoload/cm.py:204-226 | Every returned word starts with `typed[startcol-1:]`, ignoring case |
| Merge.Stored | autoload/cm.py:50-61 | The `finally` block of `cm_complete`: an empty report removes the entry; otherwise the entry holds the new start column and matches and keeps its last processed matches. Other entries are unchanged, and a new source goes last in key order |
| Merge.ProcessFor | autoload/cm.py:200-234 | Processing raises exactly when the source has no descriptor and some item lacks `menu`; with a descriptor it is `process_matches` with the source's abbreviation, and without one (every item having a `menu`) it is `process_matches` with no abbreviation |
| Merge.Processed | autoload/cm.py:152-162 | A source's processed matches in a merge: none when its start column is past the cursor, and never more than its raw matches |
| Merge.ContributorIsValid | autoload/cm.py:154-165 | A source with processed matches in a merge has its start column at or before the cursor |
| Merge.MergeOrder | autoload/cm.py:139 | The priority sort raises exactly when a stored source has no descriptor; otherwise it lists only stored sources |
| Merge.MergeOrderSpec | autoload/cm.py:139 | The merge order lists each stored source exactly once, by non-increasing priority, with sources of equal priority in storage order |
| Merge.MergeStart | autoload/cm.py:146-169 | The start column the first loop ends at: never past the cursor (the full law in MergeStartLaw) |
| Merge.MergeStartLaw | autoload/cm.py:146-169 | The merge's start column is at or before the cursor and at or before the start of every source with processed matches; it is the cursor column or the start column of such a source |
| Merge.Pad | autoload/cm.py:186-187 | Every word gets the prefix in front; the number of records and every other field are unchanged |
| Merge.Contribution | autoload/cm.py:179-191 | A source's part of the merged list: one record per processed match, each keeping its menu (none for a source past the cursor) |
| Merge.MergedList | autoload/cm.py:176-191 | The merged list, the contributions in merge order: empty when no source has processed matches |
| Merge.MergedEntries | autoload/cm.py:155-187 | After a merge the store has the same sources, each with its padded processed matches as `last_matches` |
| Merge.MergeSpec | autoload/cm.py:134-198 | A merge fails exactly when its sort raises; otherwise the written-back store is valid and keeps the key order |
| Merge.SameReportsEntry | autoload/cm.py:153-184 | A merge reads only the start column and raw matches of an entry, never its `last_matches` |
| Merge.MergePrefixLaw | autoload/cm.py:134-198 | Every merged word starts, ignoring case, with the typed text from the merge's start column on |
| Merge.MergeIdempotent | autoload/cm.py:134-198 | Merging the store a merge wrote back gives the same start column, list and store |
| Merge.SilentContribution | autoload/cm.py:164-191 | A source without processed matches adds nothing to the merged list |
| Merge.NonContributorStart | autoload/cm.py:152-169 | A source without processed matches, including one whose start column is past the cursor, does not move the start column |
| Merge.NonContributorList | autoload/cm.py:176-191 | Dropping a source without processed matches from the merge order leaves the merged list unchanged |
| MergeLoops.ProcessedAt | autoload/cm.py:150-162 | After the first loop, each visited entry holds its processed matches and every other entry is unchanged |
| MergeLoops.PaddedAt | autoload/cm.py:176-187 | After the second loop over distinct names, each visited entry that is not skipped is padded once and every other entry is unchanged |
| MergeLoops.PaddedListIsMerged | autoload/cm.py:176-191 | The list the second loop builds is the concatenation of the sources' contributions in merge order |
| MergeLoops.LoopsMeetSpec | autoload/cm.py:146-191 | Over any ordering of the stored sources, the two loops leave exactly the merged entries and list |
| MergeLoops.LoopsMeetMerge | autoload/cm.py:134-198 | Run over the merge order from the cursor column, the two loops give the merge's outcome |
| Coordinator.Emission | autoload/cm.py:237-241 | `_complete` calls the editor exactly when the new list or the remembered last list is nonempty, and then with this list and start column |
| Coordinator.MergeEffect | autoload/cm.py:134-198 | The store and editor calls of `_refresh_completions`: the key order is kept, at most one call is made and it carries the written-back store, and a raising sort changes nothing and calls nothing |
| Coordinator.PadWords | autoload/cm.py:186-187 | The in-place padding loop leaves every word padded with the prefix |
| Coordinator.ProcessSource | autoload/cm.py:152-169 | One pass of the first loop: the entry gets its processed matches (none when its start column is past the cursor), and a nonempty result from further left lowers the start column |
| Coordinator.ProcessEntries | autoload/cm.py:146-173 | The first loop leaves each visited entry with its processed matches and ends at the merge's start column |
| Coordinator.PadSource | autoload/cm.py:179-191 | One pass of the second loop: a source past the cursor is skipped, otherwise its words are padded and become its part of the list |
| Coordinator.PadEntries | autoload/cm.py:176-195 | The second loop pads the visited entries and builds the merged list |
| Coordinator.QueueSource | autoload/cm.py:95-113 | One source in `cm_refresh`'s loop: when queued, its name if it has `cm_refresh`, and one note per channel with an `id`, in order |
| Coordinator.SourcesToRefresh | autoload/cm.py:92-113 | The loop over the descriptors builds exactly the direct-call list and the channel-notification list |
| Coordinator.KeptReports | autoload/cm.py:85-89 | The stored reports are dropped when nothing is typed or the last typed character is not `[0-9a-zA-Z_]`, and kept otherwise |
| Coordinator.Handler.constructor | autoload/cm.py:24-34 | The core starts with no reports, no descriptors, no popup, an empty editor log and a fresh file server |
| Coordinator.Handler.Complete | autoload/cm.py:237-241 | Appends the editor call that `_complete` makes, if any |
| Coordinator.Handler.RefreshCompletions | autoload/cm.py:134-198 | Reports a raise exactly when the priority sort raises, and leaves the store and editor log that the merge describes |
| Coordinator.Handler.CmComplete | autoload/cm.py:36-65 | The descriptors are taken, and the report is stored whatever happens. A merge follows only when processing did not raise, the call did not return early and the popup was already shown; otherwise the editor log is unchanged |
| Coordinator.Handler.CmInsertEnter | autoload/cm.py:67-68 | Entering insert mode forgets every stored report |
| Coordinator.Handler.CmCompleteTimeout | autoload/cm.py:70-73 | Merges only if nothing was shown in this cycle, and marks the popup as shown when the merge did not raise; otherwise nothing changes |
| Coordinator.Handler.CmRefresh | autoload/cm.py:76-121 | Records the context's version in the file server, takes the descriptors and starts a new cycle, dropping the reports after a non-word character. It merges at once when no source is queued, and otherwise makes exactly one notification call with the queued names and channels |
| Coordinator.Handler.StartCycle | autoload/cm.py:78-89 | The start of `cm_refresh`: the file server's context, the stamped context, the descriptors, a cleared popup flag and the kept reports |
| Coordinator.Handler.RefreshOrNotify | autoload/cm.py:115-121 | With nothing queued, merge and mark the popup as shown unless the sort raised; otherwise notify once and change nothing else |
| Sources.AnyScope | autoload/cm.py:127-132 | The scope loop succeeds exactly when `"*"` or the current scope is among the scopes |
| Sources.CheckScope | autoload/cm.py:124-132 | Raises exactly when the context has no `filetype`. It holds exactly when the scopes (default `["*"]`) include `"*"` or the context's `scope`, or its filetype when there is no scope |
| Sources.Queued | autoload/cm.py:98-104 | A source is asked again only when the context has a `filetype` and the descriptor a `name`; a source with default scopes and no stored report always is |
| Sources.SyncQueue | autoload/cm.py:94-107 | The direct-call list after the loop: no longer than the descriptors visited |
| Sources.ChannelQueue | autoload/cm.py:94-110 | The channel-notification list after the loop: every note carries the refreshed context |
| Sources.ChannelNotes | autoload/cm.py:108-110 | The notes for one source's channels: each carries the source's name and the context |
| Sources.ResetsStore | autoload/cm.py:85-89 | The reset test: a trailing `_` keeps the reports, a trailing space drops them |
| Sources.SyncQueueMembers | autoload/cm.py:94-107 | A source is called directly exactly when its scope matches, it has a `name` and either no stored report or a nonzero `refresh`, and it has `cm_refresh` |
| Sources.ChannelNotesMembers | autoload/cm.py:108-110 | A note is made for exactly the channels that have an `id`, each with the source's name and the context |
| Sources.ChannelQueueMembers | autoload/cm.py:94-110 | A channel is notified exactly when its source is queued and the channel has an `id` |
| VersionCache.ContextChanged | autoload/cm.py:334-335 | Two contexts are unchanged exactly when both exist with equal change counters and cursor positions |
| VersionCache.GetFileUrl | autoload/cm.py:344-346 | The reference keeps the context's version, so it is unchanged with respect to the context |
| VersionCache.FileUrlOnlyVersion | autoload/cm.py:345-346 | Two contexts get the same reference exactly when they have the same change counter and cursor |
| VersionCache.FileServer.constructor | autoload/cm.py:250-254 | The server starts with no current context, no cache context and empty cached text |
| VersionCache.FileServer.SetCurrentContext | autoload/cm.py:337-342 | Records the context's version and nothing else |
| VersionCache.FileServer.GetSrc | autoload/cm.py:313-331 | The editor is re-queried only on a mismatch. The result is `None` exactly when the request still differs from the current context, and then the cache is untouched. Otherwise the text is served for the requested version, rebuilt from the buffer only when the cache was for another version |

## Left out

- The HTTP server (`start`, `run`, `run_GET`, `shutdown`, `cm_shutdown`) is not modelled. This covers request parsing and `run_GET` mapping `None` to the empty string. It is network I/O.
- Threads and the `RLock` are not modelled. Every operation is atomic in the model.
- Neovim RPC is not modelled as a process. Calls into Neovim are logged in `Handler.calls`, and the values Neovim returns are parameters.
- Logging is not modelled.
- The JSON and URL encoding of the file reference is not modelled. `GetFileUrl` returns the stripped version that would be encoded.
- Text.Lower: lower-cases ASCII letters only, where Python's `str.lower` also folds non-ASCII letters.
- Malformed items and descriptors are not modelled. Examples are a record without `word`, a non-string `info`, a non-list `channels` or a non-numeric `priority`. The model's types rule them out, so exceptions that only they can raise are absent.
- Columns are at least 1. A start column of 0 or below, where Python's negative slice indices would apply, is not modelled.
- The in-place padding of the record dictionaries shared between `_matches` and the merged list is modelled as a value update of the stored entry. The merged list is a copy of the same values, so no aliasing is observable in the model.
- A `last_matches` key that was never written is modelled as the empty list. Both read as empty everywhere the core looks.
- The file server keeps only the version of each context (change counter and cursor). No other part of a context is read there.
