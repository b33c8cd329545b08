# Time-bucketed playlists from a saved-tracks library — a Dafny model

The script `main.py` is meant to reorganise a music-streaming user's saved
tracks into playlists named after the time each track was saved: by year, by
"quarter" (months grouped in fours) or by month. One run is meant to walk the
paginated library, bucket every track by its save time, reconcile the
desired playlists against the user's existing playlists, create the missing
ones, and append the missing tracks in batches of at most 100 URIs per
request. As written it falls short of that in four places, each listed
under Findings: labelling by month raises a TypeError (main.py:118), the
batching sends one truncated request (main.py:101-107), an existing playlist
is sent its whole group again (main.py:189), and pages come back last page
first (main.py:55-59). With dry-run on, every POST is logged and none is
sent.

This project models that core with the network abstracted away. A timestamp
is an already-parsed `(year, month)`. A track is `(uri, timestamp)`. The
service's pages, the user's playlists with their track listings, and the
service's replies to create requests are all passed in as values.

| file | module | models |
|---|---|---|
| `wrappers.dfy` | `Wrappers` | `Option` / `Result` |
| `tracks.dfy` | `Tracks` | timestamps, tracks, URIs, reversal, newest/oldest-first order |
| `status.dfy` | `StatusCodes` | `process_status_code` |
| `labels.dfy` | `Labels` | `map_add_time_to_playlist`, decimal rendering of years and months |
| `pagination.dfy` | `Pagination` | `get_all_pages`, as written and in page order |
| `grouping.dfy` | `Grouping` | `generate_playlists` (the loop filling the dict) |
| `reconcile.dfy` | `Reconcile`, `ReconcileProperties` | `playlists_filter_existing` and what it guarantees |
| `chunking.dfy` | `Chunking` | `add_tracks_to_playlist`: the intended batching and the truncating original |
| `orchestrator.dfy` | `Orchestrator` | `post`, `create_playlist`, `add_tracks_to_playlist`, `create_playlists_from_library` as a `Session` class recording its POSTs |
| `run_properties.dfy` | `RunProperties` | what a whole run guarantees |

Modelling choices:

- A Python dict keeps its keys in insertion order. The desired playlists
  are therefore `Groups(names, members)`: `names` holds the keys in that
  order and `members` maps each key to its list. `playlist_tracks.keys()`
  in `create_playlists_from_library` is iterated by walking the desired
  names and skipping those with nothing to add. Keys are inserted into
  `playlist_tracks_to_add` in the order of the desired names, so this gives
  the same order.
- The exits in `process_status_code` become the result `Halted(status, …)`
  of a page walk, and the run returns that status.
- A `Session` records every POST in `recorded`, which plays the part of the
  debug log line in `post`. Only POSTs made with dry-run off are appended to
  `sent`. `post` returns the reply's playlist id, if it has one: the
  service's reply (a parameter) when sent, and nothing, like the empty dict
  of main.py:44, in dry-run.
- The configuration globals `group_tracks_by` and `dry_run` become a
  parameter and a `Session` constant. `token` is not modelled. The user id
  that `get_user_id` would fetch is a `Session` constant.

Facts about `main.py` that the model keeps as written:

- The "year" label is Python's `str(year)`, with no zero-padding to four
  digits.
- `get_all_pages` returns the pages last page first (main.py:55-59). Both
  this walk (`Pagination.GetAllPagesAsWritten`) and the page-order walk
  (`Pagination.GetAllPages`) are modelled.
- `add_tracks_to_playlist` sends exactly one request, even for an empty
  list. Its docstring (main.py:97) and its recursion on the remainder
  (main.py:109-110) show that batches of at most 100 until none remain are
  intended. `Chunking.Batches` models that: no request for an empty list and
  ceil(L/100) requests for L URIs.
- The remainder is sliced from the already-truncated list (main.py:102-103),
  so it is always empty and a second batch is never sent.
- With no existing playlists, every label's whole group is to be added
  (`RunProperties.FreshAccountToAdd`), and L URIs go out as ceil(L/100) add
  requests (`Chunking.BatchesComplete`). So a fresh run with the intended
  batching sends ceil(size/100) add requests per label, where size is the
  number of tracks with that label.

## Model

| member | source | states |
|---|---|---|
| `StatusCodes.Classify` | main.py:19-26 | 401 gives Unauthorized, and only 401 does. A code gives Ok exactly when it lies in 200–209, i.e. its tens rounded down are 20. Every other code gives Fatal. |
| `StatusCodes.FloorDiv` | main.py:23 | `math.floor(code / 10)` is the integer q with 10q ≤ code < 10q + 10, negative codes included. |
| `Labels.Decimal` | main.py:114 | `str(n)` is non-empty, all decimal digits, and has no leading zero for n ≥ 10. |
| `Labels.DecimalRoundTrip` | main.py:114 | Parsing `str(n)` gives back n, so different years and months get different strings. |
| `Labels.LabelShape` | main.py:112-124 | "year" gives the year alone. "quarter" gives year + " Q1" for months 1–4, " Q2" for 5–8 and " Q3" for 9–12, i.e. quarter (m−1)/4+1. "month" gives year + " " + month. |
| `Labels.LabelInjective` | main.py:114-124 | Labels are exclusive and exhaustive. Two valid timestamps share a label exactly when they share the year and the bucket of that year: the same year, the same four-month quarter, or the same month, depending on granularity. |
| `Labels.LabelAsWritten` | main.py:112-124 | As written, a label comes back only for "year" and "quarter", never for "month", and it starts with the digits of the year. |
| `Labels.AsWrittenMonthFails` | main.py:117-121 | As written, labelling fails (TypeError) exactly for "month". For "year" and "quarter" it returns the same label as the model. |
| `Pagination.LastPage` | main.py:53-57 | A walk from page k stops at the first page at or after k that has no `next` link. Every page before that one has a link. |
| `Pagination.GetAllPagesAsWritten` | main.py:47-62 | The as-written walk from page k makes at least one GET and at most one per page of the chain from k. When it halts, the status it halts with is not Ok. |
| `Pagination.GetAllPages` | main.py:47-62 | The page-order walk makes at least one GET and at most one per page of the chain from k. When it halts, the status it halts with is not Ok. |
| `Pagination.AsWrittenReversesPages` | main.py:47-62 | As written, with the default empty `results`, a walk makes one GET per page of the chain. It returns the items of those pages last page first, each page in server order. |
| `Pagination.GetAllPagesComplete` | main.py:47-62 | The page-order walk makes one GET per page of the chain. It returns every item exactly once, in page order and server order within a page, so it returns as many items as the pages hold together. |
| `Pagination.GetAllPagesHalts` | main.py:47-55 | Both walks halt exactly at the first reached page whose status is outside 200–209, with that page's classification. They make one GET per page up to that page and none after it. |
| `Pagination.AsWrittenLosesChronology` | main.py:53-59 | Take two pages served newest first. The as-written walk returns the older track first, so the reversal before submission is not oldest-first. The page-order walk followed by the reversal is oldest-first. |
| `Grouping.GeneratePlaylists` | main.py:131-138 | The loop builds exactly `Grouped(tracks, g)`: one key per label in order of first occurrence, each holding the tracks with that label in library order. |
| `Grouping.SelectMembers` | main.py:133-136 | A track is in the group for label l exactly when it is in the library and its own label is l. So every track is in exactly one group. |
| `Grouping.FirstSeenLabels` | main.py:133-136 | A label is a key exactly when some track carries it, and then its group is not empty. |
| `Grouping.SelectKeepsOrder` | main.py:136 | Appending keeps library order: a newest-first library gives newest-first groups. |
| `Grouping.Grouped` | main.py:131-138 | The desired playlists form a well-formed dict: the keys are distinct and are exactly the names listed. |
| `Grouping.FirstSeenDistinct` | main.py:136 | No label is listed twice among the keys. |
| `Grouping.GroupsPartition` | main.py:131-138 | Together the groups hold the URIs of the saved tracks, each URI exactly as often as the library holds it. So no track is lost or counted twice, and the group sizes add up to the number of saved tracks. |
| `Reconcile.IndexByName` | main.py:146-148 | Every name in the index maps to a playlist of that name. |
| `Reconcile.Missing` | main.py:163-167 | No more tracks are missing than are desired. |
| `Reconcile.IndexUserPlaylists` | main.py:146-149 | The loop builds the name index `IndexByName(userPlaylists)`. |
| `Reconcile.AppendMissing` | main.py:163-167 | The inner loop leaves the map unchanged when no desired track is missing. Otherwise it appends the missing tracks, in desired order, to the list under the name, creating that list on the first missing track. |
| `Reconcile.PlaylistsFilterExisting` | main.py:140-169 | The three results are exactly `Reconciliation(desired, userPlaylists)`. |
| `ReconcileProperties.LastWriteWins` | main.py:146-148 | A name is in the index exactly when some existing playlist has it. It maps to the last playlist with that name. |
| `ReconcileProperties.MissingMembers` | main.py:163-167 | A desired track is listed as missing exactly when its URI is not in the playlist's listing. |
| `ReconcileProperties.MissingKeepsOrder` | main.py:165-167 | The missing tracks keep desired order: newest-first in gives newest-first out. |
| `ReconcileProperties.AbsentMembers` | main.py:151-154 | A name is to be created exactly when it is desired and no existing playlist has it. |
| `ReconcileProperties.ReconcilePartition` | main.py:151-167 | Each desired name either is to be created, with its whole group to add, or has an id, never both. The id is the existing playlist's id or the sentinel. A name with an id has an entry to add exactly when one of its desired tracks is missing, and that entry is exactly its missing tracks. |
| `ReconcileProperties.PlanMentionsOnlyDesired` | main.py:151-167 | Every name to create, to add to, or with an id is a desired name. Every name with tracks to add is either to be created or has an id. |
| `ReconcileProperties.NothingToDoIffSynced` | main.py:151-167 | Nothing is to be created and nothing is to be added exactly when every desired playlist exists and already holds every desired URI. |
| `ReconcileProperties.OneTrackMissing` | main.py:160-167 | Take desired {"2023": [t1, t2]} against an existing "2023" that holds t1. Nothing is to be created, only [t2] is to be added, and the id is the existing one. |
| `Chunking.Batches` | main.py:93-110 | Every intended batch holds between 1 and 100 URIs. |
| `Chunking.BatchesComplete` | main.py:93-110 | The intended batches join back to the input in order. There are ceil(L/100) of them, each holds 1–100 URIs, and all but the last hold exactly 100. |
| `Chunking.AsWrittenTruncates` | main.py:100-110 | As written, exactly one request is sent, even for an empty list. It carries the first min(L, 100) URIs, and every URI after the hundredth is dropped. |
| `Orchestrator.SubmittedUris` | main.py:187-191 | The URIs submitted for a playlist are a permutation of the URIs of its tracks to add, each as often as it is to be added. |
| `Orchestrator.SubmittedUrisAsWritten` | main.py:189-190 | As written, the URIs submitted are a permutation of the URIs of the playlist's whole desired group. |
| `Orchestrator.RunRequests` | main.py:174-191 | A run first issues one create request per name to create, in order, and after those only add requests. |
| `Orchestrator.UpdateRequestsTargets` | main.py:185-191 | Every request of the update loop adds tracks to a playlist whose id the run has recorded. |
| `Orchestrator.ReverseList` | main.py:190 | Reversing in place leaves the array holding the old contents read back to front. |
| `Orchestrator.Session.constructor` | main.py:15-17 | A session starts with the given dry-run flag and user, and with nothing recorded or sent. |
| `Orchestrator.Session.Post` | main.py:35-44 | Every POST is recorded. It is sent only when dry-run is off. It returns the service's reply when sent, and an empty reply (no id) in dry-run. |
| `Orchestrator.Session.CreatePlaylist` | main.py:85-91 | One create request is issued. The id is the one in `post`'s reply, or the sentinel when the reply has none, which is always so in dry-run. |
| `Orchestrator.Session.AddTracksToPlaylist` | main.py:93-110 | Submitting issues exactly one add request per intended batch, in order. |
| `Orchestrator.Session.CreatePlaylists` | main.py:176-181 | One create request is issued per name to create, in order. Each new id is recorded under its name. |
| `Orchestrator.Session.SubmitTracks` | main.py:185-191 | For each desired name in order that has tracks to add, its URIs are reversed and submitted in batches. |
| `Orchestrator.Session.SubmitOldestFirst` | main.py:189-191 | The URIs of a list of tracks are copied into a list and reversed in place. The result is submitted in intended batches: one add request per batch of the reversed URIs. |
| `Orchestrator.Session.CreatePlaylistsFromLibrary` | main.py:171-193 | If a library page fails, the run halts with that status and posts nothing. Otherwise it returns Ok, having issued exactly the create requests and then the add requests of `RunRequests`. All of them are recorded, and in dry-run none is sent. |
| `RunProperties.NoPresentTrackResubmitted` | main.py:163-167 | No URI submitted to an existing playlist is already in that playlist's listing. |
| `RunProperties.AsWrittenResubmitsPresentTrack` | main.py:185-191 | In the worked case, the as-written submission re-sends t1, which the playlist already holds. The corrected submission sends only t2. |
| `RunProperties.RerunFindsNothing` | main.py:151-167 | Suppose a run's playlists were created and its submissions landed. Reconciling the same desired playlists again asks for nothing to create and nothing to add. |
| `RunProperties.NewestGroupsOldestSubmissions` | main.py:189-191 | If a desired group is newest-first, the tracks behind its submission are oldest-first. |
| `RunProperties.SubmittedOldestFirst` | main.py:189-191 | For a library that comes newest-first, every playlist's submission is oldest-first. |
| `RunProperties.ChronologicalRun` | main.py:173-191 | Suppose every page answers 200–209 and the collection is served newest-first. Then the page-order walk succeeds and every submission is oldest-first. |
| `RunProperties.UpdateRequestsCarried` | main.py:185-191 | The add requests carry exactly the URIs of the tracks to add, each as often as it is to be added. |
| `RunProperties.FreshAccountRun` | main.py:171-193 | With no existing playlists, one playlist is created per label, in order of first occurrence. The add requests together carry the URI of every saved track, each as often as the library holds it, so as many URIs as there are saved tracks. |
| `RunProperties.RunRequestsWithinLimit` | main.py:97-103 | No add request of a run carries more than 100 URIs or none at all. |
| `RunProperties.DryRunIds` | main.py:174-181 | In dry-run `post` returns an empty reply, so `create_playlist` falls back to the sentinel. Every name the run creates is recorded with the sentinel id, and every existing name with the id its listing gave, or the sentinel when it has none. |
| `RunProperties.DryRunTargets` | main.py:171-193 | In dry-run, `post` returns an empty reply, so no new playlist gets a real id. Every add request of the run goes to the sentinel id or to the id an existing playlist's listing gave. |

## Left out

- HTTP itself is not modelled: `requests` GET/POST, the bearer header, URL construction, `get_json` and `get_user_id`. The user id is a `Session` constant.
- JSON encoding and decoding and `dateutil` parsing are not modelled. A timestamp arrives as an already-parsed `(year, month)`.
- Logging is not modelled, except that the POST debug line becomes `Session.recorded`. The informational "total" counts of a page are left out too.
- `exit(1)` becomes a returned status. The run's process exit code is not modelled.
- Failing POSTs are not modelled. `post` also passes its response through `process_status_code`, but the model treats every POST as successful.
- The user's playlists and each playlist's track listing are given as values (`Existing`). Their paginated fetches, and the halts those fetches could cause, are not modelled, and neither is a missing `tracks.href` key.
- Only the `name`, `id` and track URIs of a playlist are kept. The `public` flag of a create request is always true and is not recorded.
- Only the three values of `group_tracks_by` named in main.py:16 are modelled. Any other string labels as "year" does (main.py:117-121), so it is represented by `Year`.
- The user's playlists are passed to `Reconcile.PlaylistsFilterExisting` in the order `get_user_playlists` returns them. As written, that is last page first (main.py:55-59), so where two playlists share a name, the index keeps the last one of that name on the earliest page that has it.
- Reconcile.Missing: its own contract is only a length bound. Which tracks are missing, and in what order, is stated by `ReconcileProperties.MissingMembers` and `ReconcileProperties.MissingKeepsOrder`.
- Labels.Label: carries no contract of its own. Its shape and injectivity are stated by `Labels.LabelShape` and `Labels.LabelInjective`.
- The mutable default argument `results=list()` of `get_all_pages` is never mutated, so it is modelled as an ordinary parameter that callers pass as empty.
- Orchestrator.Session.CreatePlaylistsFromLibrary: follows the corrected pieces, not main.py as written. It walks pages in page order, labels "month" as year + " " + month, submits in batches until nothing remains, and submits only the missing tracks. Each as-written behaviour is a separate member; see Findings.
- Orchestrator.Session.CreatePlaylistsFromLibrary: starts from the library pages, whereas the source fetches them inside `generate_playlists`. The fetch is the same walk either way.

## Findings

| source | as written | input that shows it | evidently intended | confidence | as-written member | corrected member |
|---|---|---|---|---|---|---|
| main.py:118 | `" " + added_at.month` adds an int to a str and raises TypeError | any track, granularity "month" | label year + " " + month | high; not executed | `Labels.LabelAsWritten` (`Labels.AsWrittenMonthFails`) | `Labels.Label` (`Labels.LabelInjective`) |
| main.py:102-103 | the list is cut to 100 before the remainder is sliced from it, so the remainder is always empty and one request is sent | 101 URIs: one request of 100, the 101st dropped | batches of 100 until none remain | high; not executed | `Chunking.AddTracksAsWritten` (`Chunking.AsWrittenTruncates`) | `Chunking.Batches` (`Chunking.BatchesComplete`) |
| main.py:55-59 | the deeper pages' items are prepended to this page's items, so pages come back last first | pages [newer], [older]: result [older, newer], which the reversal on line 190 turns into newest-first | items in page order | high; not executed | `Pagination.GetAllPagesAsWritten` (`Pagination.AsWrittenLosesChronology`) | `Pagination.GetAllPages` (`Pagination.GetAllPagesComplete`) |
| main.py:189 | the URIs submitted come from the whole desired group, not from the filtered tracks to add | desired {"2023": [t1, t2]}, existing "2023" holding t1: t1 is sent again | submit only the missing tracks | medium; not executed | `Orchestrator.SubmittedUrisAsWritten` (`RunProperties.AsWrittenResubmitsPresentTrack`) | `Orchestrator.SubmittedUris` (`RunProperties.NoPresentTrackResubmitted`) |
