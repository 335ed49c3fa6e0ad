# productivity.go readings browser, modelled in Dafny

productivity.go keeps a reading list in a Notion knowledge base. It caches the
list in a local store and lets the user browse it in a terminal UI. This project
models the core of it and proves properties of that model:

- **The read-through cache service** (`internal/readings/service.go`).
  - A random sample comes from the local store.
  - The service synchronises from the remote knowledge base only when the
    sample is empty.
  - Toggling an item in the current week's reading list removes every
    occurrence of it, or appends it.
  - The week is resolved once, and the cached list changes only when the
    remote update succeeds.
  - The store (`Repository`) and the remote client (`NotionClient`) are
    classes that hold only what their contracts need: an identifier-keyed
    map with insert-or-replace upsert, each week's reading list, and ghost
    call logs, so that "never called" can be stated. Failures are
    nondeterministic.
- **The terminal state machine** (`internal/tui/update.go`, seeded by
  `internal/tui/model.go`).
  - `Update` is a function from a `Model` value and a message to the next
    model and a command.
  - Commands are values: `NoCmd`, `Quit`, `ScheduleClear`, `Toggle(id)` and
    `OpenUrl(url)`.
  - The source's loops are methods proved equal to the functions that
    `Update` is stated with. These are the copy of the tag selection, the
    select-all, `applyFilter`, and the shuffle / tag extraction / sort of
    `InitTUI`.
  - An invariant `Inv` holds from the initial model on. It implies that no
    reachable state makes `Update` or `View` index out of range.
- **Rendering** (`internal/tui/view.go`), with every style taken as the
  identity. The `strings.Builder` loops are methods proved to build the text
  that a function describes. Lemmas state the window arithmetic, the padding,
  the cursor marker and the checkboxes.
- **`CleanDatabaseID` and `Validate`** (`internal/config/config.go`).
  `url.Parse` is modelled by the path component of a URI (section 3.3 of
  RFC 3986), split the way Go's `net/url` splits it. The package's test
  vectors are proved.

Go's `int` is unbounded in the model, except in `MoveDownAsWritten`. That
member keeps the 64-bit wrap-around of `update.go:79` and shows the finding
below. A Go index-out-of-range panic is a precondition: `IndexesInRange` and
`ViewIndexOk`. `UpdateInv` and `ReachableRenders` prove that every reachable
state meets it.

Files:

| file | contents |
|---|---|
| `wrappers.dfy` | `Option`, `Result` |
| `seqs.dfy` | subsequence |
| `gostrings.dfy` | the parts of `strings`/`strconv` used |
| `config.dfy` | `CleanDatabaseID`, `Validate` |
| `domain.dfy` | `Article`, `Week`, the store |
| `service.dfy` | the remote client and `Service` |
| `tui_model.dfy` | `Model`, `InitTUI` |
| `tui_update.dfy` | `Update` and its invariant |
| `tui_view.dfy` | `View` |

## Model

| member | source | states |
|---|---|---|
| GoStrings.Wrap64 | internal/tui/update.go:79 | Go's 64-bit `int` addition: the result lies in the int64 range, equals the exact sum when that fits, and is 2^64 less when the sum overflows by at most MaxInt64+1 |
| GoStrings.Quo | internal/tui/update.go:113 | Go's truncating `/`: the remainder has the dividend's sign and is smaller than the divisor |
| GoStrings.TrimSuffix | internal/config/config.go:184 | `strings.TrimSuffix`: a prefix of the input; with the suffix present, it plus the suffix gives back the input; otherwise the input unchanged |
| GoStrings.IndexOf | internal/config/config.go:204 | `strings.Index` for one character: None iff the character is absent; otherwise the first position holding it |
| GoStrings.Split | internal/config/config.go:186 | `strings.Split` on one separator: at least one piece, and no piece holds the separator |
| GoStrings.JoinSplit | internal/config/config.go:186 | joining the pieces of a split with the separator gives back the string |
| GoStrings.SplitLast | internal/config/config.go:186-188 | the last piece is a separator-free suffix, preceded by the separator when it is not the whole string |
| GoStrings.SplitLastSegment | internal/config/config.go:186-188 | the last piece of `pre + sep + seg`, with `seg` separator-free, is `seg` |
| GoStrings.Atoi | internal/tui/update.go:60 | `strconv.Atoi`: a parsed value lies in the int64 range, and is negative only after a leading '-' |
| GoStrings.AtoiDecimal | internal/tui/update.go:60 | the decimal digits of any n ≤ MaxInt64 parse back to n |
| GoStrings.LessIrreflexive | internal/tui/model.go:70 | the byte-wise string order of `sort.Strings` is irreflexive |
| GoStrings.LessTransitive | internal/tui/model.go:70 | that order is transitive |
| GoStrings.LessTotal | internal/tui/model.go:70 | that order is total on distinct strings |
| GoStrings.LessAsymmetric | internal/tui/model.go:70 | that order is asymmetric |
| GoStrings.AdjacentToStrict | internal/tui/model.go:66-70 | a duplicate-free list, sorted in adjacent pairs, is strictly ascending |
| GoStrings.StrictlySortedUnique | internal/tui/model.go:59-70 | two strictly ascending lists with the same members are equal, so the tag list is determined by the tag set whatever the map's iteration order |
| Config.Validate | internal/config/config.go:95-106 | None iff the API key, database ID and weeks database ID are all present; otherwise the message for the first missing one, in that order, naming `.netrc` machine `notion.so` or `productivity.go.toml` |
| Config.Before | internal/config/config.go:204-206 | the prefix before the first occurrence of a character: free of it, followed by it in the input, the whole input when it is absent |
| Config.ScanScheme | internal/config/config.go:178 | `net/url`'s scheme scan: a scheme found is a non-empty, colon-free name, and the input is that name, ':' and the rest |
| Config.ScanLetters | internal/config/config.go:178 | over a colon-free run of letters ending at a ':', the scheme scan finds the scheme before the ':' and the rest after it (helper for `UrlPathWithHttps`) |
| Config.UrlPath | internal/config/config.go:178-183 | the path `url.Parse` reports, with fragment and query cut off, never contains '?' or '#' |
| Config.SchemePath | internal/config/config.go:178-183 | the path after a scheme is a suffix of the text after the ':' |
| Config.AfterAuthority | internal/config/config.go:178-183 | what follows an authority is a suffix starting with '/', or nothing |
| Config.UrlPathWithHttps | internal/config/config.go:178 | text after `https:` without '#' is parsed with the https scheme, its path taken from before the first '?' |
| Config.QueryCut | internal/config/config.go:178 | a query starts at the first '?', so a '?'-free path before it is kept whole |
| Config.AuthorityPath | internal/config/config.go:178-183 | after `//`, a '/'-free authority is skipped and the path kept |
| Config.UrlPathHttps | internal/config/config.go:178-183 | `https://host/path?query` with a host free of '/', '?' and '#' has path `/path` |
| Config.WithScheme | internal/config/config.go:174-176 | the text to parse starts with "http", and is the input itself when it already did |
| Config.IdFromSegment | internal/config/config.go:190-199 | a 36-character segment whole; one of at least 32 (not 36) characters gives its last 32; a shorter one as it is |
| Config.LastSegment | internal/config/config.go:184-188 | the last segment is a '/'-free suffix of the path after one trailing '/' is trimmed |
| Config.IdFromPath | internal/config/config.go:183-199 | the identifier from a path is '/'-free, 36 or at most 32 characters long, and made of the path's characters |
| Config.CleanDatabaseID | internal/config/config.go:172-209 | without "notion.so": the input when it has no '?', else the part before the first '?'; with it: the identifier from the parsed path (free of '?' and '#'), or the scheme-prefixed input when parsing fails |
| Config.CleanIdempotentWithoutDomain | internal/config/config.go:203-208 | without "notion.so", cleaning twice is cleaning once |
| Config.CleanSchemeLess | internal/config/config.go:173-176 | a "notion.so" input without "http" in front cleans exactly as its `https://` form does |
| Config.CleanHttps | internal/config/config.go:172-199 | an https URL whose host contains "notion.so" cleans to the identifier of its path, whatever query follows |
| Config.IdFromLastSegment | internal/config/config.go:184-199 | a path ending in `/seg`, with `seg` '/'-free, gives the identifier of `seg` |
| Config.CleanPageURL | internal/config/config.go:190-199 | a page URL whose last segment is a name (not 4 characters long) followed by a 32-character identifier cleans to that identifier |
| Config.CleanRawID | internal/config/config_test.go:15-19 | the raw identifier comes back unchanged |
| Config.CleanFullURLWithQuery | internal/config/config_test.go:20-24 | the full URL with a user segment and a view query gives the identifier |
| Config.CleanFullURLWithName | internal/config/config_test.go:25-29 | the full URL whose segment is `My-Reading-List-` and the identifier gives the identifier |
| Config.CleanIDWithQuery | internal/config/config_test.go:30-34 | the identifier followed by `?v=123` loses the query |
| Config.SampleIDHex | internal/config/config_test.go:17 | the test vectors' identifier is 32 hexadecimal digits (helper for the test-vector lemmas) |
| Config.SampleIDLacks | internal/config/config_test.go:17 | a character that is no hexadecimal digit does not occur in that identifier (helper for the test-vector lemmas) |
| Config.SampleIDPlain | internal/config/config_test.go:17 | that identifier holds no '/', '?' or '#' (helper for the test-vector lemmas) |
| Config.NotionHostPlain | internal/config/config_test.go:22 | the host `www.notion.so` holds no '/', '?' or '#' and contains "notion.so" (helper for the test-vector lemmas) |
| Domain.Upserted | internal/readings/domain.go:19-20 | insert-or-replace of a batch keeps the store keyed by each item's identifier |
| Domain.UpsertedKeys | internal/readings/domain.go:19-20 | after an upsert, an identifier is stored iff it was stored before or is in the batch |
| Domain.UpsertedLastWins | internal/storage/sqlite.go:69-103 | each identifier of the batch holds the batch's last item with it (`ON CONFLICT DO UPDATE`, row by row) |
| Domain.UpsertedKeepsOthers | internal/readings/domain.go:19-20 | stored items whose identifier is not in the batch are untouched |
| Domain.UpsertIdempotent | internal/readings/domain.go:19-20 | upserting the same batch twice is upserting it once |
| Domain.Repository.SaveUpsert | internal/storage/sqlite.go:69-103 | on success the store is the upsert of the batch; on failure it is unchanged (one transaction); the call is logged |
| Domain.Repository.GetRandom | internal/storage/sqlite.go:105-126 | the store is unchanged; a sample has at most `count` items (no limit for a negative count), each stored and matching the tag; the call and its result are logged |
| Domain.Repository.GetAll | internal/storage/sqlite.go:128-137 | every stored item exactly once: as many items as stored identifiers, membership iff stored, identifiers distinct |
| Readings.RemoveAll | internal/readings/service.go:80-88 | the list without `id`: every other identifier keeps its number of occurrences, and the result is a subsequence (order kept) |
| Readings.RemoveAllAbsent | internal/readings/service.go:80-88 | removing an absent identifier changes nothing |
| Readings.Toggled | internal/readings/service.go:80-94 | `id` is in the new list iff it was not in the old; other identifiers keep their counts; a present `id` is removed with the order kept; an absent one is appended at the end |
| Readings.AddThenRemove | internal/readings/service.go:80-103 | toggling an absent identifier twice restores the original list |
| Readings.RemoveThenAdd | internal/readings/service.go:80-103 | toggling a present identifier twice moves it, once, to the end |
| Readings.ToggleExamples | internal/readings/service_test.go:105-141 | `["article-1"]` toggled with "article-2" becomes `["article-1", "article-2"]`, and toggled back it becomes `["article-1"]` |
| Readings.ToggleIDs | internal/readings/service.go:80-94 | the copy-and-append loop computes the toggled list, and `added` is true iff `id` was absent |
| Readings.NotionClient.FetchArticles | internal/readings/service.go:10 | a successful fetch returns the remote items; nothing remote changes; the call is logged |
| Readings.NotionClient.FetchCurrentWeek | internal/readings/service.go:11 | a successful fetch returns the current week and its reading list; with no current week it fails with "no current week found in Notion" |
| Readings.NotionClient.UpdateWeekReadingList | internal/readings/service.go:12 | on success the week page's whole reading list is replaced and otherwise nothing changes; the call is logged with its outcome |
| Readings.Service.constructor | internal/readings/service.go:21-26 | no week is cached at first |
| Readings.Service.Sync | internal/readings/service.go:53-64 | one fetch; a failed fetch returns its error and never reaches the store; otherwise exactly the fetched list is upserted, and its outcome is returned |
| Readings.Service.GetReadings | internal/readings/service.go:28-51 | a sample error fails with "failed to get readings: "; a sample of at least `count` items, or a short non-empty one, is returned as it is with no fetch; only an empty sample triggers one `Sync`, whose error fails with "failed to sync: ", and then a second sample is returned as it is |
| Readings.Service.GetAll | internal/readings/service.go:66-68 | the store's enumeration is passed through: every stored item once |
| Readings.Service.ToggleReadingInCurrentWeek | internal/readings/service.go:70-104 | the week is fetched only while none is cached; a failed fetch returns (false, its error) with the cache still empty; otherwise the whole toggled list is pushed (logged with its outcome), the remote list is replaced by it exactly when the push succeeds, and only a successful push caches it and reports whether the item was added |
| TuiModel.TagSet | internal/tui/model.go:60-65 | a tag is in the set iff some item carries it |
| TuiModel.TagSetPermutation | internal/tui/model.go:54-65 | shuffling the items does not change the tag set |
| TuiModel.NoDuplicatesPermutation | internal/tui/model.go:66-70 | sorting a duplicate-free list keeps it duplicate-free |
| TuiModel.Shuffle | internal/tui/model.go:55-57 | the swaps of `rand.Shuffle` leave the items a permutation of what they were |
| TuiModel.SortStrings | internal/tui/model.go:70 | `sort.Strings`: the result is sorted and a permutation of the input |
| TuiModel.SinkLast | internal/tui/model.go:70 | one insertion step extends the sorted prefix by one and keeps the multiset |
| TuiModel.GatherTags | internal/tui/model.go:60-65 | the map-filling loop yields exactly the tag set of the items |
| TuiModel.AddTags | internal/tui/model.go:62-64 | the inner loop adds exactly one item's tags |
| TuiModel.SetToList | internal/tui/model.go:66-69 | the map-to-slice loop lists each key exactly once |
| TuiModel.CollectTags | internal/tui/model.go:59-70 | the tag list is strictly ascending (so duplicate-free) and holds exactly the items' tags |
| TuiModel.InitTUI | internal/tui/model.go:48-80 | an error is returned exactly when `GetAll` (its result returned as the ghost `fetched`) fails, and it is that same error, beside the zero model; otherwise the items are a permutation of every stored item, everything is shown, the tags are sorted and exactly the items' tags, nothing is selected, and the view is the list with cursor, scroll and buffer at zero |
| TuiModel.Init | internal/tui/model.go:82-84 | no command at start |
| TuiUpdate.Count | internal/tui/update.go:58-63 | the repeat count is the buffered number when it parses to a positive int, otherwise 1 (empty buffer, "0", or too large for `Atoi`) |
| TuiUpdate.CountDecimal | internal/tui/update.go:58-63 | typing the digits of a positive int64 gives that count |
| TuiUpdate.MoveUp | internal/tui/update.go:66-76 | only cursor and scroll change; at the top nothing moves; otherwise the cursor moves back but not below 0, with the scroll following it up |
| TuiUpdate.FollowDown | internal/tui/update.go:83-88 | the scroll after moving down is non-negative and shows the cursor in a window of `height-4` rows |
| TuiUpdate.MoveDown | internal/tui/update.go:77-90 | only cursor and scroll change; on the last item nothing moves; otherwise the cursor moves forward, stays in the list and is in the window |
| TuiUpdate.MoveDownAsWritten | internal/tui/update.go:77-90 | the same motion with Go's wrapping `m.cursor += count`: only cursor and scroll change, and the cursor never goes past the end |
| TuiUpdate.MoveDownAgreesWithoutOverflow | internal/tui/update.go:77-90 | when `m.cursor + count` fits in int64, the code as written and the clamped motion agree |
| TuiUpdate.MoveDownOverflows | internal/tui/update.go:79-81 | with three items, the cursor on the second and 9223372036854775807 typed, `j` as written leaves the cursor at MinInt64, where the clamped motion gives 2 |
| TuiUpdate.Recenter | internal/tui/update.go:130-133 | the scroll for `g`/`G` is unchanged when the cursor is visible; otherwise it is recentred, non-negative, and shows the cursor |
| TuiUpdate.JumpTo | internal/tui/update.go:105-116 | the cursor goes to the target clamped to the list (−1 for an empty list), the scroll adjusted |
| TuiUpdate.UpdateList | internal/tui/update.go:49-168 | a digit only extends the buffer; every other key clears it; `enter` on a non-empty list issues the toggle of the item under the cursor, and no other key issues a command; `/` opens the filter with the backup equal to the selection and cursor and scroll at 0; the cursor stays on an item; the scroll stays non-negative |
| TuiUpdate.ListMotions | internal/tui/update.go:58-134 | on a non-empty list: up/down move by the count clamped to [0, len-1]; `g` with an empty buffer goes to the top; `G` with an empty buffer goes to the bottom; `g`/`G` with a number go to clamp(count-1) |
| TuiUpdate.FilterMotions | internal/tui/update.go:190-203 | in the filter view up/down move the cursor one tag, stopping at either end (clamped to [0, len-1] on a valid cursor); moving up above the window moves the window to the cursor, moving down past its bottom scrolls it by one; a cursor inside the `height-4` window stays inside it |
| TuiUpdate.UpdateDetail | internal/tui/update.go:170-184 | `esc`/`q` return to the list; `enter` with the cursor below the length opens the item's URL; any other message changes nothing |
| TuiUpdate.KeepTagged | internal/tui/update.go:241-254 | the items having a selected tag, as a subsequence (order kept) |
| TuiUpdate.KeepTaggedCounts | internal/tui/update.go:241-254 | an item with a selected tag is kept as often as it occurs; any other item never |
| TuiUpdate.FilterArticles | internal/tui/update.go:235-255 | every item for an empty selection; otherwise exactly the items with at least one selected tag, order kept |
| TuiUpdate.FilterArticlesCounts | internal/tui/update.go:235-255 | each item is shown as often as it occurs when the selection is empty or it has a selected tag, and otherwise not at all |
| TuiUpdate.SelectAllHidesUntagged | internal/tui/update.go:213-255 | after `right`, an item is shown iff it has a tag, so selecting every tag differs from selecting none |
| TuiUpdate.WithAll | internal/tui/update.go:213-217 | `right` selects every tag and keeps the rest |
| TuiUpdate.Flip | internal/tui/update.go:204-212 | `space` flips exactly one tag |
| TuiUpdate.UpdateFilter | internal/tui/update.go:186-233 | no command. `up`/`down` move only cursor and scroll. `space` flips the tag under the cursor. `right` adds every tag. `enter` applies the filter and `esc` restores the backup, both returning to the list with cursor and scroll at 0. |
| TuiUpdate.Update | internal/tui/update.go:15-47 | `q`/`ctrl+c` quit, unchanged, from any view but the filter, where they change nothing. A resize sets only width and height. A status sets the line and schedules its clear. A clear empties it. The items and tags never change. |
| TuiUpdate.ZeroModelExamples | internal/tui/update_test.go:11-38 | from Go's zero `Model`, `q` and `ctrl+c` quit and a 100×50 resize sets width 100 and height 50 |
| TuiUpdate.InitialInv | internal/tui/model.go:72-79 | `InitTUI`'s model satisfies the invariant |
| TuiUpdate.UpdateInv | internal/tui/update.go:15-233 | from a state satisfying the invariant, `Update` never indexes out of range and keeps the invariant, and a toggle it issues names a loaded item |
| TuiUpdate.ViewKeepsInv | internal/tui/update.go:37-44 | the view handlers keep the invariant |
| TuiUpdate.ListKeepsInv | internal/tui/update.go:49-168 | the list handler keeps the invariant and toggles only loaded items |
| TuiUpdate.FilterKeepsInv | internal/tui/update.go:186-233 | the filter handler keeps the invariant |
| TuiUpdate.Run | internal/tui/update.go:15-47 | over any message sequence the invariant holds, the items and tags never change, `Quit` is the last command if issued, and every toggle names a loaded item |
| TuiUpdate.FilterCancelRestores | internal/tui/update.go:218-229 | in the filter view, any messages but `enter`/`esc`, then `esc`: back in the list with the backup selection, the shown items as they were, cursor and scroll at 0 |
| TuiUpdate.FilterSessionCancel | internal/tui/update.go:152-229 | `/`, anything but applying, then `esc` leaves the selection and the shown items as they were |
| TuiUpdate.FilterExampleBothTags | internal/tui/update_test.go:76-81 | with "go" and "rust" selected, all three items of the test are shown |
| TuiUpdate.FilterExampleOneTag | internal/tui/update_test.go:83-91 | with "go" selected, the "Go" and "Both" items are shown, in that order |
| TuiUpdate.SnapshotSelection | internal/tui/update.go:155-158 | the map copy of `/` yields the selection itself |
| TuiUpdate.SelectAll | internal/tui/update.go:213-217 | the select-all loop yields `WithAll` |
| TuiUpdate.ApplyFilter | internal/tui/update.go:235-255 | the `applyFilter` loops yield `FilterArticles` |
| TuiUpdate.ExecToggle | internal/tui/update.go:140-149 | the toggle command's status is "Error: " and the error exactly when resolving the week or pushing its list failed; after a successful push it is "Added to reading list" when the item was absent from the resolved week's list and "Removed from reading list" when it was present; "Added" implies the item is now in the cached list, "Removed" that it is not |
| TuiView.Blank | internal/tui/view.go:77-82 | `k` empty lines, none for a negative `k` |
| TuiView.WriteBlank | internal/tui/view.go:80-82 | the padding loop writes one line break per blank line |
| TuiView.Available | internal/tui/view.go:48-51 | the rows available are max(height-3, 1) |
| TuiView.VisibleRange | internal/tui/view.go:53-60 | 0 ≤ start ≤ end ≤ len, at most the available rows, and row i is drawn iff it lies in the window from the scroll offset |
| TuiView.DisplayTitle | internal/tui/view.go:64-67 | never empty: the title, or "Untitled" for an empty one |
| TuiView.ListRowsAt | internal/tui/view.go:62-75 | the drawn rows are the rows of the items in the window, in order |
| TuiView.ListFillsWindow | internal/tui/view.go:77-82 | rows plus padding are exactly the available rows |
| TuiView.CursorRowDrawn | internal/tui/view.go:69-70 | when the cursor lies in the `height-4` window from the scroll offset, its row is drawn (the drawn window has `height-3` rows), marked "> " |
| TuiView.OtherRowsPlain | internal/tui/view.go:71-73 | every drawn row but the cursor's shows the plain title |
| TuiView.WriteListRows | internal/tui/view.go:62-75 | the row loop writes exactly the drawn rows |
| TuiView.ViewList | internal/tui/view.go:30-85 | the list text: the header, then "No articles found." and `height-4` line breaks for an empty list, else the drawn rows and the padding |
| TuiView.ViewDetail | internal/tui/view.go:87-102 | "No article selected" when the cursor is not below the length; otherwise the title, the URL line and the fetch time |
| TuiView.Checkbox | internal/tui/view.go:133-136 | the box is "[x] " when the tag is selected and "[ ] " when it is not |
| TuiView.FilterRowChecked | internal/tui/view.go:130-144 | after the optional "> " marker, a filter row shows "[x] " when its tag is selected and "[ ] " when it is not, and ends with the tag |
| TuiView.FilterRowsAt | internal/tui/view.go:130-144 | the drawn filter rows are the rows of the tags in the window, in order |
| TuiView.FilterLineAt | internal/tui/view.go:130-151 | filter rows plus padding are exactly the available rows, each drawn row the row of its tag |
| TuiView.WriteFilterRows | internal/tui/view.go:130-144 | the row loop writes exactly the drawn filter rows |
| TuiView.ViewFilter | internal/tui/view.go:104-154 | the filter text: the header, then "No tags available." when there are no tags, else the drawn rows and the padding |
| TuiView.HelpKeys | internal/tui/view.go:157-165 | each view has a non-empty list of key/description pairs |
| TuiView.HelpText | internal/tui/view.go:167-177 | the help text is the view's pairs, followed by two spaces and the buffer iff the buffer is non-empty |
| TuiView.HelpView | internal/tui/view.go:156-179 | the pair loop writes exactly the help text |
| TuiView.ReachableRenders | internal/tui/view.go:10-28 | rendering never indexes out of range in a state satisfying the invariant |
| TuiView.View | internal/tui/view.go:10-28 | the current view's content, a line break, and the help bar |

## Left out

- `openUrl` (internal/tui/update.go:257-275) spawns an OS process. Only the `OpenUrl(url)` command value is modelled.
- The two-second `tea.Tick` becomes the `ScheduleClear` command; no clock is modelled.
- The toggle command runs asynchronously in the source. `ExecToggle` runs it in sequence, and the bubbletea runtime (`internal/tui/app.go`) is not part of this model.
- `selectedTags` and `backupSelectedTags` are value sets. Go maps alias across `Model` copies (`esc` assigns the backup map itself, `update.go:226`), so the model is faithful only for the linear sequence of states. Nil versus empty maps are not distinguished.
- The `svc` field is not in `Model`; the toggle is issued as a `Toggle(id)` command value instead.
- Go's index-out-of-range panics are preconditions (`IndexesInRange`, `ViewIndexOk`), not modelled behaviour.
- `View`'s `"Unknown view"` default cannot be reached with a three-valued datatype.
- lipgloss styles, `Place` and `JoinVertical` are taken as the identity. `JoinVertical` also pads lines to a common width, which is not modelled.
- Lengths and slices count characters, where Go counts UTF-8 bytes. The two agree for ASCII text such as the identifiers, the URLs and the keys.
- `url.Parse` is modelled by its path split only. Percent-decoding of the path, host and port validation, and the errors they raise are not modelled.
- `GoStrings.Split` builds the pieces from the last separator backwards. It yields the same pieces as Go's `strings.Split` on one separator; only the definition differs.
- `Domain.Repository.GetRandom`: the tag filter is stated differently from the SQL. The model keeps an item when some tag contains the text (`MatchesTag`); the source matches `LIKE '%tag%'` over the JSON text of the tag list, case-insensitively. So the SQL may keep items `MatchesTag` drops: tag "GO" against an item tagged "go", or a tag such as "," or "_" that matches the JSON punctuation or acts as a wildcard. The random order is left unspecified.
- `Article.fetchedAt` is kept as its formatted text; time handling is not modelled.
- The SQLite store (`internal/storage/sqlite.go`) and the Notion client (`internal/notion/client.go`) are not part of this model beyond their contracts. Their error texts are placeholders, except "no current week found in Notion".
- Config loading and saving, the setup wizard, the CLI and background sync (`Load`, `Save`, `internal/setup`, `cmd/readings`, `internal/sync`) are file and process I/O and are not part of this model.
- Integers other than `MoveDownAsWritten`'s cursor sum are unbounded, including the scroll arithmetic with a huge height.
- The help text says `enter` shows details, but `enter` in the list toggles the item. The model follows the code.
- `q`/`ctrl+c` do not quit in the filter view, as the code says.

## Findings

| source | as written | input that shows it | evidently intended | confidence | as-written member | corrected member |
|---|---|---|---|---|---|---|
| internal/tui/update.go:79 | `m.cursor += count` wraps around in 64-bit `int` before it is compared with the list length | three items, cursor on the second, "9223372036854775807" typed, then `j`: the cursor becomes -9223372036854775808, so a following `enter` indexes out of range | the cursor clamps to the last item | not executed | TuiUpdate.MoveDownAsWritten, TuiUpdate.MoveDownOverflows | TuiUpdate.MoveDown |
