# web-sm coordination core in Dafny

web-sm is a collaborative editor for "sentence mixing" videos. Clients
connect over websockets. They create or join a named project (a seed, a
list of source video ids and an ordered list of segments) and edit its
segments together. Each segment holds a sentence and the index of the
chosen phoneme combo. The server keeps all state in one coordinator actor.
That actor validates and applies every edit, and broadcasts each change to
the members of the project. It then spawns background pipelines: these ask
the downloader actor for the videos, run the sentence through a memoising
analysis cache in front of an external engine, render a preview or a full
export, and broadcast the result.

This project models that core:

- `Coordinator.SmActor` is the coordinator of `src/sm_actor.rs`. It is a class with the three maps `sessions`, `projects` and `editingSessions`, plus an `outbox` of broadcasts and the batches sent to the downloader. It has the validate-then-mutate helpers and every handler.
- `Pipelines` holds the deterministic parts of the spawned futures as pure functions over the outcomes of their stages: the preview message sequence, the export combo assembly and result, and the preview batch sent to a joining client. `Segments` holds the segment-list edits and `hash_segments`.
- `Downloader.DownloaderActor` is the download state machine of `src/downloader.rs`. It has the id-state map, the start and completion steps of `DownloadVideos`, the `GetVideoPath` scan and the bounded retry loop.
- `Analysis.AnalysisCache` is the memo cache of `src/sm.rs`.
- `Legacy.SmActor` is the older coordinator of `src/actor.rs`, which `src/main.rs` does not compile in. It is modelled separately so that its different rules can be seen.
- `Text` (trim, decimal rendering, the id-joining fold), `Collections` (listing a hash container) and `Types` (the records, enums and messages) support the rest.

Broadcasting appends a `Delivery(to, msg)` to `outbox`, where `to` is a set of session ids. A spawned future is run to completion inside the handler that spawns it. Outcomes the model cannot see are parameters:

- the engine's output;
- the downloader's answer to `GetVideos`;
- whether a render succeeds;
- the bytes of a preview file, if it can be read;
- each youtube-dl attempt;
- the session id drawn at `Connect`.

Panics are modelled in three ways:

- In the modern coordinator, indexing a map by a missing key panics. There the model makes the key's presence a precondition.
- In the legacy coordinator, every `todo!` panic becomes a `Panicked` outcome.
- A panic inside a pure pipeline step (a combo index past the end of the analysis) becomes `None`, and that pipeline broadcasts nothing further. What the panic does to the coordinator actor itself is not modelled.

Five behaviours of the code are easy to misread, and the model keeps them as written:

- The preview pipeline analyses the sentence before it looks at the video answer, so an ambiguity is reported even when the videos are not ready (`src/sm_actor.rs:34-52`).
- A failed download leaves its ids pending rather than resetting them. Issuing the same batch again is therefore answered `Ok` and starts nothing (`src/downloader.rs:101-104`, `137`).
- `Export` checks neither the project nor its editing set (`src/sm_actor.rs:898-900`). Both become preconditions of the handler.
- `Export` drops the ambiguous analyses and then pairs the i-th remaining analysis with the i-th segment, not with its own (`src/sm_actor.rs:914-929`). The handler runs this assembly as written; the intended one is modelled beside it (see "## Findings").
- `Disconnect` sends "user left" to the members of every project, not only to the projects the user was in (`src/sm_actor.rs:518-531`).

`Segment::new` and `AnalysisId::from_project_sentence` are not part of this model:

- A new segment is taken to choose combo 0.
- The cache key is taken to be the seed, the video ids concatenated in project order, and the sentence.

## Model

| member | source | states |
|---|---|---|
| Text.TrimStart | src/sm_actor.rs:778 | drops exactly the leading Unicode whitespace; the result is empty iff the string is all whitespace |
| Text.TrimEnd | src/sm_actor.rs:778 | drops exactly the trailing Unicode whitespace; the result is empty iff the string is all whitespace |
| Text.Trim | src/sm_actor.rs:778 | `str::trim` leaves no whitespace at either end and never lengthens the string |
| Text.TrimIsSlice | src/sm_actor.rs:778 | the trimmed string is a contiguous piece of the input with only whitespace before and after it |
| Text.TrimEmptyIffBlank | src/sm_actor.rs:778 | `trim().is_empty()` holds exactly when every character is whitespace, which decides whether `CreateSegment` previews |
| Text.Decimal | src/sm_actor.rs:274 | `to_string` of a combo index is a non-empty digit string with no leading zero; 0 renders as exactly "0" |
| Text.DecimalRoundTrip | src/sm_actor.rs:274 | reading the decimal rendering back yields the number |
| Text.DecimalInjective | src/sm_actor.rs:274 | different numbers render differently |
| Text.FoldWithSpaces | src/downloader.rs:58-62 | the fold of no ids is `""`; otherwise it writes at least one character per id and ends in a space, and its exact value is given by `FoldIsJoinPlusSpace` |
| Text.Pop | src/downloader.rs:64 | `pop` removes exactly the last character, and nothing from an empty string |
| Text.InlineUrls | src/downloader.rs:57-64 | the fold-then-pop id string equals the reference join: the ids with one space between each adjacent pair, none before the first or after the last, and `""` for no ids |
| Text.FoldIsJoinPlusSpace | src/downloader.rs:58-62 | the fold alone is the joined string plus one trailing space |
| Text.JoinSplitRoundTrip | src/downloader.rs:58-64 | for a non-empty list of space-free ids, splitting the joined string on spaces gives back exactly the ids |
| Segments.InsertAt | src/sm_actor.rs:403-408 | `Vec::insert` at `p <= len`: one longer, the new segment at `p`, earlier segments kept, later ones shifted up by one |
| Segments.RemoveAt | src/sm_actor.rs:477-481 | `Vec::remove` at `p < len`: one shorter, earlier segments kept, later ones shifted down by one |
| Segments.WithSentence | src/sm_actor.rs:429-433 | only the sentence of the segment at `p` changes |
| Segments.WithComboIndex | src/sm_actor.rs:454-458 | only the combo index of the segment at `p` changes |
| Segments.RemoveUndoesInsert | src/sm_actor.rs:408 | removing at the insertion point restores the list |
| Segments.InsertUndoesRemove | src/sm_actor.rs:481 | re-inserting a removed segment where it was restores the list |
| Segments.HashSegmentsAppend | src/sm_actor.rs:271-277 | `hash_segments` (the function `Segments.HashSegments`, each sentence followed by its decimal combo index) maps a concatenation of segment lists to the concatenation of their hashes |
| Segments.HashSegmentsAt | src/sm_actor.rs:271-277 | every segment's sentence and decimal combo index appear in the hash right after the hash of the segments before it |
| Segments.HashOfOneSegment | src/sm_actor.rs:271-277 | for one segment with a known sentence, the hash determines the combo index |
| Segments.HashSegmentsCollision | src/sm_actor.rs:271-277 | with no separator, two different segment lists ("a1", 0) and ("a", 10) share a hash |
| Pipelines.PreviewPipeline | src/sm_actor.rs:28-88 | the structural request goes first to the project's members. With the flag off nothing follows. With it on, at most one more message follows: `AmbiguityToken(row, word)` iff the analysis is ambiguous, and the preview of the segment iff the analysis succeeds, the videos are ready, the combo index is in range, the render succeeds and the file is read |
| Pipelines.PreviewNeverBoth | src/sm_actor.rs:28-88 | a preview pipeline never broadcasts both an ambiguity and a preview |
| Pipelines.Successful | src/sm_actor.rs:914-918 | every kept value is a successful analysis and every successful analysis is kept, no more of them than there are segments |
| Pipelines.SuccessfulAppend | src/sm_actor.rs:914-918 | the filter keeps order: filtering a concatenation gives the filtered parts one after the other |
| Pipelines.SuccessfulOne | src/sm_actor.rs:914-918 | a single success is kept as it is and a single ambiguity is dropped; with `SuccessfulAppend` this fixes the filtered list in segment order and multiplicity |
| Pipelines.ExportCombosAsWritten | src/sm_actor.rs:914-929 | assembly as written: succeeds iff, for each i below the number of successful analyses, the i-th segment's combo index is in range of the i-th successful analysis |
| Pipelines.Gather | src/sm_actor.rs:920-929 | the `enumerate`-then-index step succeeds iff each result is indexed in range by the segment at the same position |
| Pipelines.GatherAppend | src/sm_actor.rs:920-929 | gathering in two parts flattens the parts' sequences in order, each part's results paired with that part's segments |
| Pipelines.GatherOne | src/sm_actor.rs:920-929 | one result contributes exactly the combo its paired segment selects, or panics when that index is out of range |
| Pipelines.ExportCombos | src/sm_actor.rs:914-929 | corrected assembly: succeeds iff every successful segment's own combo index is in range |
| Pipelines.ExportCombosAppend | src/sm_actor.rs:920-929 | the corrected assembly of a split list is the concatenation of the parts' assemblies |
| Pipelines.ExportCombosOne | src/sm_actor.rs:914-929 | an ambiguous segment contributes nothing and a successful one contributes exactly its selected combo |
| Pipelines.AsWrittenAgreesWithoutAmbiguity | src/sm_actor.rs:914-929 | when no analysis is ambiguous, the code as written and the corrected assembly agree |
| Pipelines.AsWrittenUsesWrongComboIndex | src/sm_actor.rs:914-929 | if the first of two segments is ambiguous, the code as written picks the second segment's combo with the first segment's index |
| Pipelines.AsWrittenPanicsWhereIntendedExports | src/sm_actor.rs:914-929 | if the first of two segments is ambiguous and has a large combo index, the code as written indexes past the end of the second analysis and panics, where the intended assembly exports the second segment's combo |
| Pipelines.ExportPipeline | src/sm_actor.rs:931-966 | over an assembled sequence (absent when assembly panicked): at most one broadcast, present iff assembly, videos, render and file read all succeed; it is `RenderResult(hash_segments(segments), bytes)` to the members |
| Pipelines.ExportAsWrittenAgrees | src/sm_actor.rs:906-968 | with no ambiguous segment, the export future as written broadcasts exactly what the intended assembly would |
| Pipelines.PreviewOf | src/sm_actor.rs:684-734 | one segment adds its preview when its analysis, combo and file are available, nothing when they are not, and panics iff its combo index is past the end of its analysis |
| Pipelines.CollectPreviews | src/sm_actor.rs:684-734 | the batch exists iff no combo lookup panics. It lists only the project's segments, at most one per segment, and exactly one per segment, in order, when every preview is available |
| Pipelines.CollectPreviewsAppend | src/sm_actor.rs:684-734 | the batch of a split list is the two parts' batches in order, so with `CollectPreviewsOne` the batch is exactly the available previews in segment order, unavailable ones omitted |
| Pipelines.CollectPreviewsOne | src/sm_actor.rs:684-734 | a single segment's batch is exactly what that segment adds |
| Collections.Enumerate | src/sm_actor.rs:367 | collecting a set lists each element exactly once |
| Coordinator.MembersWithout | src/sm_actor.rs:518-531 | after the leaver is removed from every editing set, the union of the sets is the former union without the leaver: every other member of any project is still a recipient |
| Coordinator.SmActor.constructor | src/sm_actor.rs:260-268 | the coordinator starts with empty maps |
| Coordinator.SmActor.AllRecipients | src/sm_actor.rs:290-293 | exactly the connected sessions, which include every member of every project's editing set |
| Coordinator.SmActor.ProjectRecipients | src/sm_actor.rs:295-303 | exactly the project's editing set, all of them connected sessions |
| Coordinator.SmActor.ProjectRecipientsExcept | src/sm_actor.rs:305-317 | the editing set without the given user |
| Coordinator.SmActor.CreateProject | src/sm_actor.rs:319-334 | a taken name gives `ProjectAlreadyExists` and changes no map; otherwise the new project plus an empty editing set are added |
| Coordinator.SmActor.DeleteProject | src/sm_actor.rs:335-345 | an unknown name gives `ProjectDoesNotExist`; otherwise only the project entry goes and the editing set stays |
| Coordinator.SmActor.UserJoinProject | src/sm_actor.rs:347-390 | `ProjectDoesNotExist` or `UserAlreadyJoinedProject` change nothing. Success adds exactly the user and lists the members as they were before the insert. The snapshot copies the stored seed, videos, name and segments |
| Coordinator.SmActor.AddSegment | src/sm_actor.rs:392-416 | `position <= len` inserts a new segment there and answers `NewSegment{row: position}`; a larger position gives `SegmentOutOfBounds` with no change |
| Coordinator.SmActor.ModifySegmentSentence | src/sm_actor.rs:418-441 | `position < len` changes only that sentence, and anything else gives `SegmentOutOfBounds` with no change |
| Coordinator.SmActor.ModifySegmentComboIndex | src/sm_actor.rs:443-465 | `position < len` changes only that combo index, and anything else gives `SegmentOutOfBounds` with no change |
| Coordinator.SmActor.RemoveSegment | src/sm_actor.rs:467-487 | `position < len` removes that segment and the rest shift down; a larger position gives `SegmentOutOfBounds` with no change |
| Coordinator.SmActor.HandleConnect | src/sm_actor.rs:495-508 | registers the channel under the drawn id and returns it |
| Coordinator.SmActor.HandleDisconnect | src/sm_actor.rs:511-545 | the id is left in no editing set and not in `sessions`; "user left" goes to the union of all editing sets after the removal, which is the former union without the leaver |
| Coordinator.SmActor.HandleListProjects | src/sm_actor.rs:547-555 | lists every stored project exactly once |
| Coordinator.SmActor.HandleCreateProject | src/sm_actor.rs:558-622 | a duplicate changes nothing. Otherwise the project is created and announced to every session, the creator is joined and sent an empty member list and the snapshot, the ids go to the downloader, and "every project has an editing set" is kept |
| Coordinator.SmActor.HandleDeleteProject | src/sm_actor.rs:625-646 | an unknown name changes nothing; otherwise `RemoveProject` goes to the former members, whose editing set is kept |
| Coordinator.SmActor.HandleJoinProject | src/sm_actor.rs:669-754 | a refusal changes nothing. Success sends the member list and the snapshot to the client, the join notice to the previous members, then the preview batch |
| Coordinator.SmActor.HandleCreateSegment | src/sm_actor.rs:756-786 | errors are exactly those of `add_segment` and change nothing; success inserts and runs the pipeline with the flag "sentence not blank" |
| Coordinator.SmActor.HandleModifySegmentSentence | src/sm_actor.rs:789-822 | errors are exactly those of the helper and change nothing; success rewrites and runs the pipeline with the flag set, on the updated segment |
| Coordinator.SmActor.HandleModifySegmentComboIndex | src/sm_actor.rs:825-857 | errors are exactly those of the helper and change nothing; success rewrites and runs the pipeline with the flag set, on the updated segment |
| Coordinator.SmActor.HandleRemoveSegment | src/sm_actor.rs:860-889 | errors change nothing; success removes and sends `RemoveSegment{row}` to the members |
| Coordinator.SmActor.HandleExport | src/sm_actor.rs:891-975 | always `Ok`; the broadcasts are those of the export future over the project's segments, with the combo sequence assembled as the code is written |
| Coordinator.SmActor.HandleLoad | src/sm_actor.rs:978-1001 | duplicates are refused with no change. Otherwise the project is stored and announced to every session. No editing set is created, so a loaded project without one breaks "every project has an editing set" |
| Downloader.Marked | src/downloader.rs:106-108 | the inserts leave exactly the batch's ids at the new value and every other state as it was |
| Downloader.Registered | src/downloader.rs:113-133 | after the inserts each id of the batch has `Video{url: id}` and other videos are kept |
| Downloader.DownloadWithRetries | src/downloader.rs:69-90 | at most five attempts. The first success returns the ids unchanged. `Err(())` comes only after five failures, and no attempt is made after a success |
| Downloader.DownloaderActor.constructor | src/downloader.rs:46-51 | both maps start empty |
| Downloader.DownloaderActor.GetVideoPath | src/downloader.rs:170-194 | `Ok` iff every requested id is ready; otherwise the status of the first id in request order that is not ready |
| Downloader.DownloaderActor.StartDownload | src/downloader.rs:101-108 | a batch with every id known changes nothing; otherwise every id of it, ready ones included, becomes pending. No state is ever removed |
| Downloader.DownloaderActor.CompleteDownload | src/downloader.rs:111-138 | success makes every id ready and registers its video; failure returns `CommunicationError` and changes nothing |
| Downloader.DownloaderActor.HandleDownloadVideos | src/downloader.rs:97-153 | composes the two steps over the retry loop and keeps "every video key has a state" |
| Downloader.FailureThenReissue | src/downloader.rs:101-104 | after a failed download the same request is answered `Ok` without a new download, and the id reports pending |
| Analysis.Interpret | src/sm.rs:69-94 | a result parse wins, an ambiguity parse comes second, and a launch failure or an unparsable output is a panic |
| Analysis.EngineArgs | src/sm.rs:63-72 | the engine gets the sentence, then the seed, then each video id in project order |
| Analysis.ConcatIdsAppend | src/sm.rs:59 | under the assumed key, the id string of two concatenated id lists is the two id strings concatenated, so only the characters of the ids, not their split, reach the key |
| Analysis.KeyCollision | src/sm.rs:59 | under the assumed key, two projects with different video lists ["ab","c"] and ["a","bc"] share a key |
| Analysis.AnalysisCache.constructor | src/sm.rs:20-22 | the cache starts empty |
| Analysis.AnalysisCache.Analyze | src/sm.rs:55-98 | a hit returns the cached value without running the engine. A miss runs the engine once with its arguments; a result is cached under exactly that key and returned, while an ambiguity is returned and not cached. Cached values never change |
| Analysis.AnalysisCache.AnalyzeTwice | src/sm.rs:59-83 | for a deterministic engine: once a call succeeds, repeating it returns the same value and runs the engine no further (at most once over both calls, and not at all on a hit); an ambiguity runs the engine again with the same arguments |
| Legacy.SmActor.constructor | src/actor.rs:108-115 | the legacy coordinator starts with empty maps |
| Legacy.SmActor.CreateProject | src/actor.rs:119-133 | a taken name gives `ProjectAlreadyExists` with no change; success inserts only the project, with no editing set |
| Legacy.SmActor.UserJoinProject | src/actor.rs:135-161 | no existence check. A missing set becomes `{user}`, a repeated join gives `UserAlreadyoinedProject` with no change, and otherwise the user is added |
| Legacy.SmActor.AddSegment | src/actor.rs:163-185 | only `position < len` inserts; any other position, hence every insert into an empty project, gives `SegmentOutOfBounds` |
| Legacy.SmActor.ModifySegmentSentence | src/actor.rs:187-204 | `position < len` changes only that sentence |
| Legacy.SmActor.ModifySegmentComboIndex | src/actor.rs:206-223 | `position < len` changes only that combo index |
| Legacy.SmActor.RemoveSegment | src/actor.rs:225-242 | `position >= len` gives `SegmentOutOfBounds`; otherwise the segment is removed |
| Legacy.SmActor.HandleConnect | src/actor.rs:250-263 | registers the channel under the drawn id |
| Legacy.SmActor.HandleDisconnect | src/actor.rs:266-277 | removes the id from every editing set and leaves `sessions` untouched |
| Legacy.SmActor.HandleCreateProject | src/actor.rs:290-312 | panics iff the name is taken or the creator had already joined that name; otherwise creates and joins |
| Legacy.SmActor.HandleJoinProject | src/actor.rs:315-325 | panics iff the user is already a member, whether or not the project exists |
| Legacy.SmActor.HandleCreateSegment | src/actor.rs:328-346 | panics on every refusal; with no segments anywhere, it always panics |
| Legacy.SmActor.HandleModifySegmentSentence | src/actor.rs:349-367 | panics on every refusal, otherwise rewrites the sentence |
| Legacy.SmActor.HandleModifySegmentComboIndex | src/actor.rs:370-388 | panics on every refusal, otherwise rewrites the combo index |
| Legacy.SmActor.HandleRemoveSegment | src/actor.rs:391-405 | panics on every refusal, otherwise removes the segment |
| Legacy.FirstSegmentPanics | src/actor.rs:174-176 | a freshly created project cannot receive a first segment: the handler panics |
| Legacy.JoinBeforeCreatePanics | src/actor.rs:140-160 | joining a name before its project exists succeeds, and creating it afterwards panics although the project is stored |

## Left out

- Concurrency. Actix mailboxes, `ctx.spawn`, `join_all` and the fire-and-forget sends are not modelled. Each spawned future runs to completion inside its handler, so interleavings of a pipeline with later handlers are not modelled. The exception is the downloader, whose start and completion steps are separate methods. Failed sends are ignored, as in the code.
- Concurrent misses in the analysis cache. The cache is one object without its lock.
- Randomness. The id drawn at `Connect` is a parameter.
- Transport. `src/socket.rs` (websocket decoding, heartbeats) and `src/main.rs` (HTTP server, configuration) are not part of this model.
- Rendering. `renderer::preview` and `renderer::render` are success flags. The `f64` times of phonemes are opaque bit patterns.
- Files and encoding. A preview or render file read is an optional byte string. `base64::encode` is left out, so payloads carry raw bytes.
- The `sm-interface` engine process and its JSON parsing. Both become `EngineOutput`.
- Panics of `sm::analyze` inside the preview, join and export futures (the `expect` and `panic!` calls of src/sm.rs:69-94). There each analysis is an `Analysis` stage outcome, which has no panic case, so such a future always runs on; what the panic does to the actor is not modelled. `Analysis.AnalysisCache.Analyze` itself makes the panic a precondition.
- The downloader's `GetVideos` handler is not part of this model. Its answer is the `VideosOutcome` parameter: mailbox full, not ready, or the videos.
- `sm::download_videos` (src/sm.rs:28-53) is not part of this model.
- `Downloader.DownloadWithRetries`: does not model the panic of `YoutubeDL::new_multiple_links(..).unwrap()` (src/downloader.rs:67), which comes before any attempt and leaves the ids pending with no `CommunicationError` reply. Building the youtube-dl command is external, so it is taken to succeed and at least one attempt is always made.
- `Downloader.DownloaderActor.CompleteDownload`: does not model the panics of `get_video_path(..).unwrap()` and `render_main_video(..).unwrap()` (src/downloader.rs:118-130). The regex directory scan and transcoding are external, so each registration is taken to succeed.
- Coordinator panics on a missing map key appear as preconditions rather than as outcomes. This covers an unregistered session at join and at create, and a missing editing set at join, delete, the segment handlers and export. Callers that break them are not modelled.
- The downloader result that `CreateProject` only logs (src/sm_actor.rs:608-614) is recorded as a request batch, and its outcome is not modelled.
- `Legacy.SmActor` `ListProjects` (src/actor.rs:280-287) is not modelled separately. It returns the same project list as `Coordinator.SmActor.HandleListProjects`, without the message wrapper.
- Integer widths. Session ids and rows are unbounded naturals. Combo indices and positions are `u16` subranges, so no wrap-around arises.

## Findings

| source | as written | input that shows it | evidently intended | confidence | as-written member | corrected member |
|---|---|---|---|---|---|---|
| src/sm_actor.rs:914-929 | after the ambiguous analyses are dropped, the i-th remaining analysis is indexed with the combo index of `project.segments[i]`, where `i` counts only the remaining ones | segments ("x", 0), ("y", 1); analyses ambiguous, then `[c0, c1]`. The code exports `c0` where `c1` is chosen | each successful analysis is indexed with the combo index of its own segment | not executed | Pipelines.ExportCombosAsWritten, Pipelines.AsWrittenUsesWrongComboIndex, Pipelines.AsWrittenPanicsWhereIntendedExports | Pipelines.ExportCombos, Pipelines.ExportCombosAppend, Pipelines.ExportCombosOne |
