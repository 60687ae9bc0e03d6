# HLS media period — a verified model

This project models the control logic of ExoPlayer's HLS media source, which acts as its own single media
period (`HlsMediaSource`). The period loads a playlist and builds one sample-stream wrapper per rendition group:
a default wrapper over a selection of the variants, plus an audio wrapper and a text wrapper when the playlist has
audio and subtitle renditions. It waits for every wrapper to prepare, then publishes the catalog of all the
wrappers' track groups. After that it:

- routes each track selection to the wrapper that owns the selected group;
- writes back the streams the wrappers return, at the positions of their selections;
- keeps an identity map from each live stream to its wrapper;
- tracks which wrappers are enabled;
- forwards seeks, buffered-position queries and release to the wrappers.

The modules follow the structure of the code:

| module | file | what it holds |
|---|---|---|
| `Options` | options.dfy | `Option` for Java's nullable values; `Result` for a thrown exception |
| `Seqs` | seqs.dfy | order-preserving filtering and subsequences, used as reference definitions |
| `CodecPrefix` | codec_prefix.dfy | `variantHasExplicitCodecWithPrefix`: the CODECS split and the prefix test, plus a plain characterization of the test |
| `Classification` | classification.dfy | `buildSampleStreamWrappers`: a playlist becomes the ordered list of wrapper configurations |
| `TrackGroupIndex` | track_group_index.dfy | `getSourceAndGroup` as a prefix-sum lookup, and the catalog as the concatenation of the wrappers' groups |
| `Buffering` | buffering.dfy | the minimum behind `getBufferedPositionUs`, ignoring the end-of-source marker |
| `TrackSelectionDiff` | selection_diff.dfy | one wrapper's selection step, on values: taking back old streams, re-indexing selections, writing back, binding, the enabled set |
| `TrackSelectionRound` | selection_round.dfy | a whole round of those steps over all wrappers, on values |
| `Period` | period.dfy | the `HlsMediaPeriod` class, the abstract wrapper, stream and timestamp-adjuster classes, and the imperative loops of `selectTracks`, `onLoadCompleted`, `onPrepared`, `seekToUs` and `release` |

The parts that only compute a value are functions with lemmas. The parts that change state are methods of
`HlsMediaPeriod`, with loops, `modifies` clauses and invariants. Each method's contract relates the new state to
the value-level functions of `TrackSelectionDiff` and `TrackSelectionRound`, and the partner lemmas prove what
those functions promise.

Wrappers are abstract. A wrapper's track groups, duration, liveness and buffered position are fixed when it is
built; `onLoadCompleted` takes them as a parameter, a function from wrapper configuration to outcome. A wrapper's
`selectTracks` returns one fresh stream per selection. The wrapper records its prepare calls, its seeks and its
release. The period records every `selectTracks` call it makes on a wrapper, in order, in the field `selectCalls`.

## Model

All source paths are relative to the repository root.

| member | source | states |
|---|---|---|
| CodecPrefix.PrefixTestCharacterization | library/src/main/java/com/google/android/exoplayer2/source/hls/HlsMediaSource.java:459-471 | For a non-empty prefix without whitespace, commas or the line terminators U+0085, U+2028 and U+2029, as `avc` and `mp4a` are, an absent codec string never matches. Otherwise the test holds exactly when the prefix occurs, case-sensitively, at the start of a token. A token starts at position 0 or after a comma and the whitespace after it; leading whitespace of the first token is kept. |
| CodecPrefix.FinalTerminatorSplit | library/src/main/java/com/google/android/exoplayer2/source/hls/HlsMediaSource.java:464 | A codec string ending in U+2028 splits before it, with or without whitespace in front, and the terminator becomes a token of its own: `avc` followed by U+2028 matches the prefix U+2028 but not `avc` followed by U+2028. |
| CodecPrefix.DropTrailingEmpty | library/src/main/java/com/google/android/exoplayer2/source/hls/HlsMediaSource.java:464 | The split result is a prefix of the raw pieces and does not end in an empty piece; every piece dropped is empty. |
| Classification.PartitionIsFilter | library/src/main/java/com/google/android/exoplayer2/source/hls/HlsMediaSource.java:347-357 | The classification loop collects exactly the definite-video variants (height > 0 or an `avc` codec) and exactly the definite-audio-only variants (otherwise, an `mp4a` codec), each in playlist order. |
| Classification.RemoveAudioOnly | library/src/main/java/com/google/android/exoplayer2/source/hls/HlsMediaSource.java:366 | `removeAll` of the collected audio-only variants leaves exactly the variants that are not audio-only, in order. |
| Classification.DefaultGroupVideo | library/src/main/java/com/google/android/exoplayer2/source/hls/HlsMediaSource.java:358-362 | With some definite-video variant, the default group is exactly the definite-video subsequence. |
| Classification.DefaultGroupDropsAudioOnly | library/src/main/java/com/google/android/exoplayer2/source/hls/HlsMediaSource.java:363-366 | With no definite-video variant and some variant that is not audio-only, the default group is the list without its audio-only variants. |
| Classification.DefaultGroupUnchanged | library/src/main/java/com/google/android/exoplayer2/source/hls/HlsMediaSource.java:363-369 | With no definite-video variant, and either all or none of the variants audio-only, the default group is the list unchanged. |
| Classification.DefaultGroupNonEmpty | library/src/main/java/com/google/android/exoplayer2/source/hls/HlsMediaSource.java:347-370 | The default group is non-empty exactly when the playlist lists some variant. |
| Classification.DefaultGroupIsSubsequence | library/src/main/java/com/google/android/exoplayer2/source/hls/HlsMediaSource.java:347-369 | The default group is a subsequence of the playlist's variants, in every branch. |
| Classification.MediaPlaylistWrapper | library/src/main/java/com/google/android/exoplayer2/source/hls/HlsMediaSource.java:335-342 | A media playlist gives exactly one default wrapper. It has an adaptive evaluator and no muxed formats, over the single variant at the playlist URI whose container format is `application/x-mpegURL` with id "0". This is read directly off the definition. |
| Classification.MasterPlaylistWrapperOrder | library/src/main/java/com/google/android/exoplayer2/source/hls/HlsMediaSource.java:370-394 | A master playlist gives, in this order: a default wrapper if it lists any variant, an audio wrapper if and only if it has audio renditions, and a text wrapper if and only if it has subtitles. |
| Classification.MasterPlaylistWrapperContents | library/src/main/java/com/google/android/exoplayer2/source/hls/HlsMediaSource.java:370-394 | The default wrapper carries the selected variants, an adaptive evaluator and the muxed audio and caption formats. The audio and text wrappers carry their renditions, no evaluator and no muxed formats. All of them carry the base URI. This is read directly off the definition; the order and presence of the wrappers are in MasterPlaylistWrapperOrder and WrappersHaveVariants. |
| Classification.WrappersHaveVariants | library/src/main/java/com/google/android/exoplayer2/source/hls/HlsMediaSource.java:331-397 | There are at most three wrappers and each has a variant. There are none only for a master playlist without variants, audio renditions or subtitles. |
| Classification.FirstWrapperIsDefault | library/src/main/java/com/google/android/exoplayer2/source/hls/HlsMediaSource.java:300-302 | The first wrapper, whose duration and liveness the period adopts, is the default one exactly when the playlist is a media playlist or lists some variant. |
| TrackGroupIndex.SourceAndGroupInRange | library/src/main/java/com/google/android/exoplayer2/source/hls/HlsMediaSource.java:447-455 | For 0 <= g < the total group count, the lookup returns the wrapper i with prefix(i) <= g < prefix(i+1), and the local index g - prefix(i), which lies in [0, count_i). |
| TrackGroupIndex.PrefixRangesDisjoint | library/src/main/java/com/google/android/exoplayer2/source/hls/HlsMediaSource.java:447-455 | The wrapper whose range holds a group index is unique. |
| TrackGroupIndex.SourceAndGroupPastEnd | library/src/main/java/com/google/android/exoplayer2/source/hls/HlsMediaSource.java:447-457 | An index at or past the total group count makes the lookup throw IndexOutOfBoundsException. |
| TrackGroupIndex.SourceAndGroupNegative | library/src/main/java/com/google/android/exoplayer2/source/hls/HlsMediaSource.java:447-457 | A negative index is not rejected. It goes unchanged to the first wrapper whenever there is one, and throws only when there are no wrappers. |
| TrackGroupIndex.SourceAndGroupBound | library/src/main/java/com/google/android/exoplayer2/source/hls/HlsMediaSource.java:447-457 | Whatever the index, a lookup that succeeds names one of the wrappers. |
| TrackGroupIndex.CatalogLookup | library/src/main/java/com/google/android/exoplayer2/source/hls/HlsMediaSource.java:304-316 | The catalog is as long as the wrappers' group counts add up to. The entry at a global index is the group the lookup names: group `local` of wrapper `i`. |
| Buffering.BufferedPositionIsMinimum | library/src/main/java/com/google/android/exoplayer2/source/hls/HlsMediaSource.java:207-217 | The result is END_OF_SOURCE exactly when every position is END_OF_SOURCE or Long.MAX_VALUE, including when there are none. Otherwise it is one of the positions and at most every position that is not END_OF_SOURCE. |
| Buffering.BufferedPositionExample | library/src/main/java/com/google/android/exoplayer2/source/hls/HlsMediaSource.java:207-217 | {1000, END_OF_SOURCE, 2000} gives 1000. |
| TrackSelectionDiff.TakeOwnedSpec | library/src/main/java/com/google/android/exoplayer2/source/hls/HlsMediaSource.java:413-421 | The streams taken back are exactly the listed streams the map gives to the wrapper, each once. The map left behind is the old one without them. |
| TrackSelectionDiff.TakeOwnedKeepsUnlisted | library/src/main/java/com/google/android/exoplayer2/source/hls/HlsMediaSource.java:415-420 | A stream that is not listed, or is owned by another wrapper, keeps its binding. |
| TrackSelectionDiff.TakeOwnedNothing | library/src/main/java/com/google/android/exoplayer2/source/hls/HlsMediaSource.java:413-421 | When nothing is taken back, the map is unchanged. |
| TrackSelectionDiff.LocalSelectionsSpec | library/src/main/java/com/google/android/exoplayer2/source/hls/HlsMediaSource.java:422-432 | The re-indexing fails exactly when the lookup rejects some selection's group. Otherwise it yields exactly the selections that fall to the wrapper, in order: each gets its local group index and keeps its tracks, and comes with its strictly increasing original position. |
| TrackSelectionDiff.ExactDisjoint | library/src/main/java/com/google/android/exoplayer2/source/hls/HlsMediaSource.java:422-432 | Two different wrappers are handed disjoint sets of original positions. |
| TrackSelectionDiff.PlaceSpec | library/src/main/java/com/google/android/exoplayer2/source/hls/HlsMediaSource.java:440-441 | With distinct positions, new stream j lands at position idx[j] and every other position keeps its content. |
| TrackSelectionDiff.BindSpec | library/src/main/java/com/google/android/exoplayer2/source/hls/HlsMediaSource.java:442 | After binding, exactly the old keys and the new streams are bound. The new streams are bound to the wrapper; the rest keep their owner. |
| TrackSelectionDiff.OwnedAfterStep | library/src/main/java/com/google/android/exoplayer2/source/hls/HlsMediaSource.java:413-444 | One wrapper's step changes only that wrapper's ownership. Its number of owned streams moves by the new streams less the streams taken back. |
| TrackSelectionDiff.EnabledSpec | library/src/main/java/com/google/android/exoplayer2/source/hls/HlsMediaSource.java:175-183 | With distinct wrappers, a wrapper is enabled exactly when its count is positive. The enabled wrappers are distinct, are wrappers of the period, and keep the wrapper order. |
| TrackSelectionRound.RoundOwners | library/src/main/java/com/google/android/exoplayer2/source/hls/HlsMediaSource.java:168-170 | After the round, a stream bound at the start that no wrapper of the period took back keeps its owner, and a stream that was taken back is unbound. Every stream wrapper j answered is bound to wrapper j, and nothing else is newly bound. |
| TrackSelectionRound.RoundCounts | library/src/main/java/com/google/android/exoplayer2/source/hls/HlsMediaSource.java:168-170 | After the round, each wrapper owns what it owned, less the streams it took back, plus its new streams. |
| TrackSelectionRound.RoundPlacement | library/src/main/java/com/google/android/exoplayer2/source/hls/HlsMediaSource.java:165-170 | After the round, each answered stream sits at the position of its selection. For an accepted group, the entry is a stream of the wrapper the lookup names. For a rejected group, the entry is untouched; since every wrapper's re-indexing succeeded, that happens only when the period has no wrapper. |
| Period.OnLoadError | library/src/main/java/com/google/android/exoplayer2/source/hls/HlsMediaSource.java:284-290 | A parse failure gives DONT_RETRY_FATAL; any other failure gives RETRY. |
| Period.TotalTrackGroupCount | library/src/main/java/com/google/android/exoplayer2/source/hls/HlsMediaSource.java:304-307 | The counting loop returns the length of the catalog. |
| Period.CopyGroups | library/src/main/java/com/google/android/exoplayer2/source/hls/HlsMediaSource.java:311-314 | One wrapper's groups are appended to what the array held before `start`. |
| Period.BuildCatalog | library/src/main/java/com/google/android/exoplayer2/source/hls/HlsMediaSource.java:304-316 | The array filled through the running index is the concatenation of the wrappers' groups, in wrapper order. |
| Period.NewWrappers | library/src/main/java/com/google/android/exoplayer2/source/hls/HlsMediaSource.java:266-268 | There is one fresh, distinct wrapper per configuration, in order. Each is built from its configuration, the start position, the retry count and the shared adjuster provider; it is unprepared and owns no stream. |
| Period.PrepareWrappers | library/src/main/java/com/google/android/exoplayer2/source/hls/HlsMediaSource.java:271-273 | Each wrapper is asked to prepare exactly once. |
| Period.ReleaseWrappers | library/src/main/java/com/google/android/exoplayer2/source/hls/HlsMediaSource.java:248-251 | Every wrapper is released. |
| Period.CollectSelections | library/src/main/java/com/google/android/exoplayer2/source/hls/HlsMediaSource.java:423-432 | The loop's result is the re-indexing that LocalSelectionsSpec characterizes, including the lookup's exception. |
| Period.AddToCount | library/src/main/java/com/google/android/exoplayer2/source/hls/HlsMediaSource.java:169 | `selectedTrackCounts[i] += delta` changes that entry only. |
| Period.RoundResultHolds | library/src/main/java/com/google/android/exoplayer2/source/hls/HlsMediaSource.java:165-174 | The result entry of a selection is null exactly when the lookup rejects its group, which after a completed round happens only when the period has no wrapper. Otherwise it is a new stream, neither bound at the start nor handed back, and bound to the wrapper that owns the group. |
| Period.RoundBindingsHold | library/src/main/java/com/google/android/exoplayer2/source/hls/HlsMediaSource.java:168-174 | After the round, old streams of the period's wrappers are unbound, other bindings are kept, and every new binding is a stream of the result. |
| Period.RoundCountsHold | library/src/main/java/com/google/android/exoplayer2/source/hls/HlsMediaSource.java:168-174 | Each count moves by the wrapper's selections less the streams it took back. Counts that matched the owner map at the start still match it. |
| Period.RoundTurnsHold | library/src/main/java/com/google/android/exoplayer2/source/hls/HlsMediaSource.java:168-170 | Turn j gave wrapper j the selections the lookup gives it, and each stream it answered sits in the result at its selection's position. |
| Period.HlsMediaPeriod.constructor | library/src/main/java/com/google/android/exoplayer2/source/hls/HlsMediaSource.java:99-111 | The retry count is the one given (the shorter constructor passes DEFAULT_MIN_LOADABLE_RETRY_COUNT, 3). An empty owner map and a fresh timestamp-adjuster provider; every other field has Java's default value. |
| Period.HlsMediaPeriod.Prepare | library/src/main/java/com/google/android/exoplayer2/source/hls/HlsMediaSource.java:129-132 | The start position is kept; OnLoadCompleted hands it to every wrapper it builds. |
| Period.HlsMediaPeriod.OnLoadCompleted | library/src/main/java/com/google/android/exoplayer2/source/hls/HlsMediaSource.java:261-274 | After the load there is one fresh wrapper per configuration of `buildSampleStreamWrappers`, each prepared once. Every wrapper is built with the stored start position, the period's retry count and its timestamp-adjuster provider, as `buildSampleStreamWrapper` passes them. All counts are zero and consistent with the owner map, and the countdown stands at the number of wrappers. |
| Period.HlsMediaPeriod.OnPrepared | library/src/main/java/com/google/android/exoplayer2/source/hls/HlsMediaSource.java:295-318 | The countdown drops by one. While it stays positive, nothing else changes. When it runs out, the duration and liveness come from wrapper 0, the catalog is the wrappers' groups concatenated, and the callback is told once. |
| Period.HlsMediaPeriod.GetBufferedPositionUs | library/src/main/java/com/google/android/exoplayer2/source/hls/HlsMediaSource.java:207-217 | The smallest buffered position among the enabled wrappers that is not END_OF_SOURCE; the value is one that an enabled wrapper reports. It is END_OF_SOURCE exactly when every enabled wrapper reports END_OF_SOURCE or Long.MAX_VALUE. |
| Period.HlsMediaPeriod.SeekToUs | library/src/main/java/com/google/android/exoplayer2/source/hls/HlsMediaSource.java:220-228 | Returns 0 when live and the requested position otherwise. It resets the timestamp adjusters once and seeks every enabled wrapper to exactly that returned value. |
| Period.HlsMediaPeriod.Release | library/src/main/java/com/google/android/exoplayer2/source/hls/HlsMediaSource.java:231-256 | Every wrapper is released and the adjusters are reset. The owner map is cleared and every field the source resets returns to its initial value. |
| Period.HlsMediaPeriod.TakeOldStreams | library/src/main/java/com/google/android/exoplayer2/source/hls/HlsMediaSource.java:413-421 | The loop's taken streams and the map it leaves are those of TakeOwned, which TakeOwnedSpec characterizes. |
| Period.HlsMediaPeriod.WriteBack | library/src/main/java/com/google/android/exoplayer2/source/hls/HlsMediaSource.java:440-443 | The result array becomes Place of its old content, and the map becomes Bind of the old map, as PlaceSpec and BindSpec characterize them. |
| Period.HlsMediaPeriod.SelectTracksFor | library/src/main/java/com/google/android/exoplayer2/source/hls/HlsMediaSource.java:410-445 | One wrapper's step. It fails exactly when the re-indexing fails, after the old streams were unbound. Otherwise the new streams are fresh, distinct, as many as the wrapper's selections, written at their original positions and bound to the wrapper, and the delta is new selections less old streams. Fast path: on a call other than the first, with nothing taken back and nothing selected, the wrapper is not called and nothing changes. |
| Period.HlsMediaPeriod.SelectTracksTurn | library/src/main/java/com/google/android/exoplayer2/source/hls/HlsMediaSource.java:168-173 | One turn of the wrapper loop keeps the loop state and the call log in step with the value-level round. Failure is possible only on the first turn, and leaves everything but that wrapper's unbound old streams as it was. |
| Period.HlsMediaPeriod.SelectTracksPerWrapper | library/src/main/java/com/google/android/exoplayer2/source/hls/HlsMediaSource.java:168-174 | The wrapper loop fails exactly when there is a wrapper and the lookup rejects some group. Otherwise it ends in the state of the value-level round over all wrappers, with the calls the round makes. |
| Period.HlsMediaPeriod.SelectionRound | library/src/main/java/com/google/android/exoplayer2/source/hls/HlsMediaSource.java:165-174 | The first loop with the result array. It fails exactly as above. On success the result, the owner map, the counts, each turn and the call log are as the Round lemmas state. |
| Period.HlsMediaPeriod.UpdateEnabled | library/src/main/java/com/google/android/exoplayer2/source/hls/HlsMediaSource.java:175-183 | The enabled wrappers become those with a positive count, in wrapper order; EnabledSpec characterizes them. |
| Period.HlsMediaPeriod.FinishSelection | library/src/main/java/com/google/android/exoplayer2/source/hls/HlsMediaSource.java:175-188 | Enabled set as above. The period seeks only on a call other than the first, with at least one selection and one enabled wrapper: the adjusters reset once, and each enabled wrapper, and only those, is sought to that position or to 0 when live. The first selection is seen afterwards. |
| Period.HlsMediaPeriod.SelectTracks | library/src/main/java/com/google/android/exoplayer2/source/hls/HlsMediaSource.java:163-190 | The whole public selectTracks: the failure case as above, with nothing else changed, otherwise the round's facts, the enabled set and the implicit-seek rule. |

## Left out

- Playlist fetching and parsing are not modelled: `Loader`, `ParsingLoadable`, `DataSource`, `BandwidthMeter`, `maybeThrowPrepareError` and `onLoadCanceled`. They are asynchronous I/O; `onLoadCompleted` receives the parsed playlist directly.
- `EventDispatcher` notifications are left out; they do not change the period's state.
- `continueLoading`, `getNextLoadPositionUs` and the `CompositeSequenceableLoader` are left out; they only delegate to the enabled wrappers.
- `readDiscontinuity`, `getPeriodCount`, `createPeriod`, `getDurationUs`, `getTrackGroups` and `onContinueLoadingRequested` are left out. They are constants, field reads or callback forwarding.
- `HlsSampleStreamWrapper`, `HlsChunkSource` and `PtsTimestampAdjusterProvider` are not part of this model. Wrappers are stand-ins: what they report once prepared is a parameter, and `selectTracks` returns fresh streams. The adjuster provider only counts its resets.
- `buildSampleStreamWrapper` is modelled as the record of what it passes to the wrapper: the configuration, the start position, the retry count and the shared timestamp-adjuster provider (held by the wrapper in place of its chunk source). The data source, the chunk source itself, the allocator, the callback (`this`) and the event dispatcher are not modelled.
- The codec split uses the Java regular expression `(\s*,\s*)|(\s*$)`. It is modelled as the pieces that `java.util.regex` and `String.split` (with no leading empty piece for a zero-width match at position 0) yield for this separator, including `$` matching before a final U+0085, U+2028 or U+2029; it is not given by a regular-expression engine. There is no Unicode case folding, as in Java's `startsWith`.
- Java `null` is `Option` (`None`) for fields and `SampleStream?` for entries of the result. The array `selectedTrackCounts` is `array?`.
- `selectTracks` returns its streams as a sequence copied from the array it fills, not as the array itself.
- The callback, allocator, manifest data source and loader fields, and their nulling in `release`, are left out. The callback is modelled as a counter of `onPeriodPrepared` calls.
- `Period.HlsMediaPeriod.UpdateEnabled`: the source first counts the enabled wrappers and then fills an array of that size. The model appends to a sequence, which gives the same contents.
- `Period.HlsMediaPeriod.OnPrepared` requires at least one wrapper. The source reads wrapper 0 unconditionally, and with no wrapper nothing ever calls `onPrepared`.
- `Period.HlsMediaPeriod.SeekToUs` and `GetBufferedPositionUs` require the enabled wrappers to be set. The source dereferences the array, which is null before the first selection.
- `Period.HlsMediaPeriod.SelectTracksFor` states that the new streams are new through a ghost set of streams to avoid (every earlier stream), rather than through object identity across the whole heap.
- `CodecPrefix.PrefixTestCharacterization` is stated only for non-empty prefixes without whitespace, commas or the line terminators U+0085, U+2028 and U+2029. Those are the only prefixes the source passes. A final terminator is a token of its own (FinalTerminatorSplit), which the token-start description does not cover. The test itself, `HasExplicitCodecWithPrefix`, is defined for every prefix.
- There is no concurrency: the period runs on one thread.
- `int` and `long` overflow of the counters and of the group-count sums is not modelled; these are mathematical integers. Positions are Java longs (`Long`), and END_OF_SOURCE is Long.MIN_VALUE.
