# ADB-Binder audiobook pipeline, in Dafny

A model of the core of ADB-Binder, a desktop tool that merges audio files into
a chaptered audiobook and converts and splits audio. The model covers four
parts:

- The main process's planners (`dist-electron/main.js`). This is everything
  the process decides before and after the audio engine runs:
  - the `;FFMETADATA1` chapter sidecar of a merge;
  - the merge's inputs, filter graph and options;
  - the single-file convert planner `W` and the batch handler around it;
  - the split-by-chapters jobs and results;
  - the silence-line parser and the chapter suggestion heuristic;
  - the prober's metadata defaults and chapter normalisation;
  - the artwork search order;
  - the recent-projects list.
- The license store (`src/lib/license-store.ts`). The tier-to-feature table is
  modelled with a `LicenseStore` class whose setters update its fields in
  place.
- The conversion tables (`src/lib/conversion-presets.ts`). These are the five
  target formats, the six built-in presets and the default preset, checked for
  consistency and against the convert planner.
- The converter view's queue (`src/components/Converter.tsx`). Each queue
  transition (add, remove, convert one, retry, clear, progress) is a function
  from the queue before to the queue after. Convert-all is a method that walks
  the pending files in order.

The engine itself is not modelled. What the engine or the file system answers
is always a parameter:

- an `EngineOutcome` for each run;
- whether a file exists or can be read;
- the prober's JSON;
- the engine's diagnostic lines;
- the clock reading;
- random ids.

Durations are Dafny `real`s. `parseFloat` is a parameter `num`. A JavaScript
value that is missing or empty (both falsy) is the empty string.

Each source concern has its own module:

| module | file | concern |
|---|---|---|
| `Text` | text.dfy | decimal text, first-occurrence search and replace, lower-casing |
| `Paths` | paths.dfy | POSIX `parse`, `basename`, `dirname`, `extname`, `join` |
| `Lists` | lists.dfy | `filter` with the positions it keeps |
| `Chapters` | chapters.dfy | the merge's sidecar |
| `Merge` | merge.dfy | `audio:process` |
| `Convert` | convert.dfy | `W`, `audio:convert`, `audio:batchConvert` |
| `Split` | split.dfy | `audio:split-by-chapters` |
| `Silence` | silence.dfy | `audio:detect-silence` |
| `Probe` | probe.dfy | `audio:read-metadata`, `audio:read-chapters` |
| `Artwork` | artwork.dfy | `audio:detect-artwork` |
| `Recent` | recent.dfy | `recent:read`, `recent:add`, `recent:clear` |
| `License` | license.dfy | the license store |
| `Presets` | presets.dfy | the format and preset tables |
| `Converter` | converter.dfy | the converter view's queue |

The merge bitrate is the given value, or `128k` when none is given. Unlike
the convert planner, which coerces its bitrate to the allowed set, merge makes
no allowed-set check (`dist-electron/main.js:217`, `:226-235`).

Two behaviours of the code are stated as they are:

- FLAC is offered as a target format, by the `lossless` preset and in the
  view's format menu, but the convert switch has no `flac` case. Every FLAC
  conversion therefore fails pre-flight with "Unsupported format: flac"
  (`Presets.PresetsAgainstConvert`, `Converter.FlacChoiceFails`).
- When a conversion request throws in the view, the entry is marked failed but
  its progress is not touched (`Converter.ConvertOneEffect`). In the program it
  keeps the last percentage a progress event delivered. Progress events are not
  interleaved with a conversion in the model, so there it keeps the 0 set when
  the conversion started.

## Model

| member | source | states |
|---|---|---|
| Chapters.BuildSidecar | dist-electron/main.js:203-215 | The sidecar is the header followed by one stanza per file. For an MP3 output it is the header alone. |
| Chapters.WriteStanzas | dist-electron/main.js:207-214 | The running-sum loop writes exactly the stanzas of `Markers`, the reference list of chapter markers. |
| Chapters.MarkersContiguous | dist-electron/main.js:207-214 | The first marker starts at 0, each marker ends where the next one starts, and the last one ends at floor(1000 × total duration). |
| Chapters.MarkerTitles | dist-electron/main.js:213 | A file without a title gets the marker title `Chapter i+1`; otherwise its own title is used. |
| Chapters.MarkerLengthWithinOneMs | dist-electron/main.js:208 | Each marker's length in ms is within 1 of 1000 × the file's duration. |
| Chapters.MarkersOrdered | dist-electron/main.js:207-214 | With non-negative durations, each marker starts no later than it ends, and starts never decrease. |
| Chapters.TwoTrackExample | dist-electron/main.js:207-214 | Files of 300 s and 180 s give the markers [0,300000] and [300000,480000]. |
| Merge.Process | dist-electron/main.js:183-261 | No files gives the "No files to process" error. A cancelled save dialog gives the cancelled result. With a chosen save path, an engine that ends gives success with that path, and an engine error is thrown with the engine's message. |
| Merge.DefaultSavePath | dist-electron/main.js:188-189 | The proposed name is `audiobook` with `.mp3` for mp3, `.m4a` for aac and `.m4b` otherwise. Without a default directory it is that bare name; with one, the path ends with that name and has it as its base name. |
| Merge.DefaultSaveChapterless | dist-electron/main.js:188-206 | Keeping the proposed name, the merge takes the MP3 branch exactly when the format is mp3. |
| Merge.ChapterlessShape | dist-electron/main.js:206-236 | For MP3 output: the sidecar is only the header; the inputs are the audio files plus the sidecar; the options are exactly filter, map, `libmp3lame` and bitrate. There is no cover, `-map_metadata`, tags or faststart. |
| Merge.ChapteredInputs | dist-electron/main.js:218-225 | The audio files are inputs 0..N-1 in order, the sidecar is input N, and an existing cover is input N+1. |
| Merge.ChapteredOptions | dist-electron/main.js:226-236 | The options start with filter, map, `aac` and bitrate. An existing cover adds `-map N+1:v`, `-c:v mjpeg` and `-disposition:v attached_pic`. Then `-map_metadata` names input N. |
| Merge.ChapteredTail | dist-electron/main.js:236 | After `-map_metadata N` come the book tags when book details are given, then `-movflags +faststart` when iTunes compatibility is on, and nothing else; this fixes the option list's exact length. |
| Merge.ChapteredSidecar | dist-electron/main.js:206-215 | For chaptered output the sidecar is the header followed by the stanzas of the chapter markers. |
| Merge.FilterGraphReadsBack | dist-electron/main.js:216 | Reading the filter graph back gives the labels `[0:a]`…`[N-1:a]` and `concat=n=N`, so it covers exactly the N audio inputs. |
| Merge.ConcatCount | dist-electron/main.js:216 | The concat tail reads back the input count N. |
| Merge.TagOptionsReadBack | dist-electron/main.js:236 | The book-tag options read back to the book: every given field, and nothing for empty ones; `album_artist=` reads back the author as well. |
| Merge.ReadBackTitle | dist-electron/main.js:236 | The `title=` tag reads back the book title. |
| Merge.ReadBackAuthor | dist-electron/main.js:236 | The `artist=` tag reads back the author. |
| Merge.ReadBackAlbumArtist | dist-electron/main.js:236 | The `album_artist=` tag reads back the author. |
| Merge.ReadBackGenre | dist-electron/main.js:236 | The `genre=` tag reads back the genre. |
| Merge.ReadBackYear | dist-electron/main.js:236 | The `date=` tag reads back the year. |
| Merge.ReadBackNarrator | dist-electron/main.js:236 | The `composer=` tag reads back the narrator. |
| Merge.MergeBitrateUnchecked | dist-electron/main.js:226-235 | A given bitrate is used as is; only a missing one becomes `128k`. |
| Merge.AudioPaths | dist-electron/main.js:219-221 | The audio inputs are the file paths, in order. |
| Convert.OutputPath | dist-electron/main.js:320-322 | The output is `dir/name.fmt`, or `dir/name_converted.fmt` exactly when the former is the input. It is never the input. |
| Convert.CoerceBitrate | dist-electron/main.js:322 | The result is always an allowed bitrate. An allowed bitrate is kept; any other becomes `128k`. |
| Convert.FormatTableDomain | dist-electron/main.js:323-339 | Only m4b, m4a, mp3 and aac have a codec and container, and only mp3 uses `libmp3lame`. |
| Convert.ConvertOutcomes | dist-electron/main.js:316-357 | The four outcomes. A missing input gives the not-found record; an unknown format gives the unsupported-format record. Otherwise the engine decides: a success whose output differs from the input, or a rejection with the engine's message. |
| Convert.BatchConvert | dist-electron/main.js:369-376 | As written: all results in request order when every run settles. Otherwise the whole batch rejects with the first rejected run's message. |
| Convert.BatchAbortExample | dist-electron/main.js:340-350 | Two mp3 requests whose first engine run fails reject the whole batch at request 0. |
| Convert.Isolated | dist-electron/main.js:351-356 | A rejection becomes the request's own failure record with the same message. Settled results are kept. |
| Convert.BatchConvertIsolated | dist-electron/main.js:369-376 | Corrected batch: exactly one settled result per request, in order. |
| Convert.IsolatedOutcome | dist-electron/main.js:316-357 | In the corrected batch an engine failure gives `Failed(input, message)`. Every other outcome is that of the single conversion. |
| Split.Sanitize | dist-electron/main.js:423 | Same length as the title. Letters and digits are kept; every other character becomes `_`. |
| Split.SanitizeOnlySafe | dist-electron/main.js:423 | The sanitised title holds only letters, digits and `_`, and sanitising twice changes nothing. |
| Split.HandleSplit | dist-electron/main.js:419-445 | When a missing output directory cannot be made, the call is rejected with that error and no job runs. Otherwise, once the directory exists, the jobs are the planned ones and the answer is the success record with one result per chapter. |
| Split.SplitByChapters | dist-electron/main.js:422-445 | Reports success. It plans exactly one job per chapter, in order, each with its file name and `track=id/total` tags, and gives one result per chapter from that chapter's engine outcome. |
| Split.ResultsFollowOutcomes | dist-electron/main.js:432-443 | Result i carries chapter i's id. It is written iff its run succeeded, at the job's output path (which ends with the file name); otherwise it carries the run's error. |
| Split.DefaultTemplateName | dist-electron/main.js:424 | With `{index} - {title}`, the name is the two-digit id, ` - `, the sanitised title and `.format`. |
| Split.DefaultTemplateReadsBackId | dist-electron/main.js:424 | The file name starts with the chapter id, which reads back as a number. |
| Split.ExampleName | dist-electron/main.js:423-424 | Chapter 3 "The Dark Forest!" as mp3 is named `03 - The_Dark_Forest_.mp3`. |
| Text.PadTwoKeepsValue | dist-electron/main.js:424 | Padding a number to two digits with zeros keeps its value. |
| Text.ReplaceFirst | dist-electron/main.js:424 | Only the first occurrence is replaced. With no occurrence the text is unchanged. |
| Text.Lower | src/components/Converter.tsx:67 | Lower-casing keeps the length and lower-cases each character. |
| Paths.Name | dist-electron/main.js:301 | The name followed by the extension is the base name. |
| Paths.Join | dist-electron/main.js:321 | A joined path ends with the joined name. |
| Silence.MatchStartLine | dist-electron/main.js:461 | A `silence_start: <number>` line gives that number. |
| Silence.MatchEndLine | dist-electron/main.js:467 | A `silence_end: <e> \| silence_duration: <d>` line gives e and d. |
| Silence.ParseGaps | dist-electron/main.js:456-471 | The line loop builds exactly `Gaps`, the reference fold of `Step` over the lines. |
| Silence.OnLine | dist-electron/main.js:460-471 | One line's update is exactly `Step`. |
| Silence.StepStartOnly | dist-electron/main.js:461-466 | A start line appends a gap `{start, 0, 0}`. |
| Silence.StepEndOnly | dist-electron/main.js:467-471 | An end line sets end and duration on the last gap only, and is ignored when there are no gaps. |
| Silence.StepOther | dist-electron/main.js:460-471 | Any other line changes nothing. |
| Silence.GapCount | dist-electron/main.js:460-466 | There is one gap per start line. |
| Silence.GapStartsFromLines | dist-electron/main.js:461-466 | Every gap's start comes from a start line. |
| Silence.SuggestChapters | dist-electron/main.js:477-506 | The suggestion loop builds exactly `Suggested`, the reference definition of the heuristic. |
| Silence.NoGapsOneChapter | dist-electron/main.js:480-485 | With no gaps there is one chapter, [0, total]. |
| Silence.LeadingExactly | dist-electron/main.js:487-491 | A leading chapter [0, g₀.start] appears iff g₀.start > 0.5. |
| Silence.MiddlesExactly | dist-electron/main.js:492-499 | A middle chapter [gₖ.end, gₖ₊₁.start] appears iff it lasts at least 30 s. Nothing else is a middle chapter. |
| Silence.TrailingExactly | dist-electron/main.js:500-505 | A trailing chapter [last.end, total] appears iff total − last.end > 0.5. |
| Silence.SuggestedShape | dist-electron/main.js:479-506 | Every duration is end − start, and there are at most gaps + 1 chapters. |
| Silence.SuggestedLongerThanEdge | dist-electron/main.js:486-506 | With gaps, every suggested chapter lasts more than 0.5 s. |
| Silence.SuggestedOrdered | dist-electron/main.js:479-506 | For ordered gaps inside the file, the suggestions are in order and do not overlap. |
| Silence.DefaultFilter | dist-electron/main.js:448 | The default filter is `silencedetect=noise=-50dB:d=1.5`. |
| Silence.DetectSilence | dist-electron/main.js:447-523 | A missing file gives the "File not found" result with zero duration. An engine error gives an empty result with the probed duration. Otherwise the result is the parsed gaps and their suggestions. |
| Probe.MetadataDefaults | dist-electron/main.js:59-65 | The metadata is the probed values, or the base name, "Unknown Artist" and "Unknown Album" where they are missing. |
| Probe.MetadataIdempotent | dist-electron/main.js:59-65 | Re-reading defaulted metadata gives it back unchanged. |
| Probe.NormalizedChapters | dist-electron/main.js:397-403 | Chapter i gets id i+1 and its parsed start and end, with duration end − start. Its title is its own, or `Chapter i+1`. |
| Probe.NormalizedIdsDistinct | dist-electron/main.js:398 | The normalised ids are pairwise distinct. |
| Probe.ReadChaptersOutcomes | dist-electron/main.js:391-412 | A non-zero exit fails with "ffprobe exited with code C: " and the prober's stderr. Unparsable output fails with "Failed to parse ffprobe output". Otherwise the reply's chapters are the normalised table (so Probe.NormalizedChapters and Probe.NormalizedIdsDistinct describe them), the duration is the parsed value or "0", and the format name and bit rate are passed through. |
| Probe.ContiguousDurationsTelescope | dist-electron/main.js:397-403 | For contiguous chapters the durations add up to last end − first start. |
| Artwork.DetectArtwork | dist-electron/main.js:123-182 | The two search loops compute exactly `Detect`, the reference definition of the search. |
| Artwork.FirstCoverIsFirst | dist-electron/main.js:144-159 | The chosen cover file exists and is readable, and no earlier candidate is. |
| Artwork.FirstEmbeddedIsFirst | dist-electron/main.js:160-180 | The chosen input yields a picture, and no earlier input does. |
| Artwork.DetectFolder | dist-electron/main.js:144-159 | A folder result is the first usable candidate in the first input's folder. |
| Artwork.DetectEmbedded | dist-electron/main.js:160-180 | An embedded result means no candidate was usable. It is the first input that yields a picture, as `image/jpeg`. |
| Artwork.DetectNotFound | dist-electron/main.js:123-182 | Nothing is found iff no candidate is usable and no input yields a picture. |
| Artwork.NoFilesNotFound | dist-electron/main.js:124-125 | With no inputs nothing is found. |
| Artwork.MimeOfCandidates | dist-electron/main.js:150-154 | A `.png` candidate is `image/png`; every other candidate is `image/jpeg`. |
| Artwork.CandidatesListed | dist-electron/main.js:127-143 | The candidates are the fifteen names, in the source's order. |
| Recent.ReadStored | dist-electron/main.js:289-297 | A missing or unreadable file reads as the empty list. |
| Recent.AddRecent | dist-electron/main.js:299-308 | When the write succeeds, both the answer and the file are `Added`. Otherwise the answer is empty and the file is unchanged. |
| Recent.ClearRecent | dist-electron/main.js:309-315 | The answer is always empty. The empty list is written exactly when writing succeeds. |
| Recent.AddedTail | dist-electron/main.js:301-303 | The new entry comes first, then the other entries, cut to ten. |
| Recent.AddedFirstAndOnce | dist-electron/main.js:301-303 | The added path comes first, with its name and time, and appears nowhere else. |
| Recent.AddedKeepsOrder | dist-electron/main.js:301-303 | The other entries keep their relative order; only the oldest are cut. |
| Recent.AddedKeepsAllWhenRoom | dist-electron/main.js:301-303 | Below ten entries, no other entry is lost. |
| Recent.AddedIdempotent | dist-electron/main.js:299-304 | Adding the same path again at the same time changes nothing. |
| License.Requirements | src/lib/license-store.ts:42-54 | Every feature is open to STUDIO and none to FREE. PRO gets every feature but batch processing. |
| License.AllowsMonotone | src/lib/license-store.ts:42-54 | A higher tier never loses a feature. |
| License.LicenseStore.constructor | src/lib/license-store.ts:59-64 | The store starts FREE, with no license fields, not validating. |
| License.LicenseStore.SetTier | src/lib/license-store.ts:66 | Only the tier changes. |
| License.LicenseStore.SetLicenseKey | src/lib/license-store.ts:67 | Only the license key changes. |
| License.LicenseStore.SetMachineId | src/lib/license-store.ts:68 | Only the machine id changes. |
| License.LicenseStore.SetValidating | src/lib/license-store.ts:69 | Only the validating flag changes. |
| License.LicenseStore.ClearLicense | src/lib/license-store.ts:71-76 | The tier becomes FREE and the key, expiry and last validation are cleared. The machine id and validating flag are kept, and no feature is usable afterwards. |
| License.LicenseStore.IsPro | src/lib/license-store.ts:78-81 | True iff the tier is not FREE, which is iff AI autofill is usable. |
| License.LicenseStore.IsStudio | src/lib/license-store.ts:83-86 | True iff batch processing is usable; implies `IsPro`. |
| License.LicenseStore.CanUseFeature | src/lib/license-store.ts:88-92 | True iff the tier is STUDIO, or PRO and the feature is not batch processing. |
| License.RequiresPro | src/lib/license-store.ts:107-111 | True iff the tier is FREE, or PRO and the feature is batch processing. |
| Presets.FindPreset | src/lib/conversion-presets.ts:123 | The lookup by which a stored preset id such as `DEFAULT_PRESET_ID` is resolved: it gives a position whose preset has the id and before which no preset has it, or reports that no preset has it. |
| Presets.WireName | src/components/Converter.tsx:67 | The format sent to the main process is the lower-cased key. |
| Presets.ExtIsLowerKey | src/lib/conversion-presets.ts:1-37 | Each extension is `.` followed by the lower-cased key. |
| Presets.FormatsAgreeWithConvert | src/lib/conversion-presets.ts:2-29 | M4B, M4A, MP3 and AAC have the codec and container the convert switch uses. FLAC is the only format the switch lacks. |
| Presets.ChapterSupport | src/lib/conversion-presets.ts:1-37 | Chapters are unsupported exactly for M4A and AAC. |
| Presets.BuiltinIdsDistinct | src/lib/conversion-presets.ts:55-112 | The built-in ids are pairwise distinct and all presets are built in. |
| Presets.DefaultPresetExists | src/lib/conversion-presets.ts:122-123 | The default id is that of the first built-in preset. |
| Presets.BuiltinBitrates | src/lib/conversion-presets.ts:55-112 | Only `lossless` has an empty bitrate. The others are 64k, 96k, 128k or 256k, which the convert planner keeps. |
| Presets.ItunesOnlyOnM4B | src/lib/conversion-presets.ts:55-112 | iTunes compatibility is set exactly on the M4B presets. |
| Presets.PresetsAgainstConvert | src/lib/conversion-presets.ts:55-112 | The lossless preset always fails pre-flight with "Unsupported format: flac". Every other preset passes pre-flight with its bitrate kept. |
| Converter.AddFiles | src/components/Converter.tsx:23-36 | No selection changes nothing. Otherwise the new entries follow the unchanged queue, pending with progress 0, each with its path and fresh id. |
| Converter.AddFilesKeepsUnique | src/components/Converter.tsx:26-35 | With fresh distinct ids, all ids stay distinct. |
| Converter.RemoveFileExactly | src/components/Converter.tsx:52-54 | Exactly the entries with the id are removed; the others keep their order. |
| Converter.ClearCompletedExactly | src/components/Converter.tsx:133-136 | Exactly the done entries are removed; the others keep their order. |
| Converter.ClearAll | src/components/Converter.tsx:138-143 | Empties the queue when not converting; otherwise does nothing. |
| Converter.RetryFailedEffect | src/components/Converter.tsx:126-131 | Each failed entry becomes pending with progress 0 and no error. Other entries are unchanged. No entry is left failed, and a second retry changes nothing. |
| Converter.ApplyProgressEffect | src/components/Converter.tsx:145-153 | Only the entries with the event's path get its percentage; nothing else changes. |
| Converter.ConvertOneEffect | src/components/Converter.tsx:57-93 | The entry first becomes converting with progress 0. It ends done iff the reply succeeded, else failed. A settled reply sets progress 100, the output path and the error; a thrown one sets the message. Other entries are untouched. |
| Converter.FlacChoiceFails | src/components/Converter.tsx:57-93 | Converting to FLAC always leaves the entry failed; with an existing input the error is "Unsupported format: flac". |
| Converter.RunAllEffect | src/components/Converter.tsx:100-109 | Each batch entry is settled by its own reply; entries outside the batch are untouched. |
| Converter.PendingBatch | src/components/Converter.tsx:100 | An entry is in the batch iff it was pending at the start. |
| Converter.ConvertAll | src/components/Converter.tsx:96-124 | One request per entry pending at the start, in queue order. The final queue is `RunAll` of the replies. The toast is the corrected one, computed from the final queue (see ## Findings; the program's own toast is `Converter.ToastAsWritten`). |
| Converter.ConvertAllOutcome | src/components/Converter.tsx:96-109 | Entries that were not pending are unchanged. Each pending one ends done iff its reply succeeded, else failed, keeping its id, name and path. |
| Converter.ToastFor | src/components/Converter.tsx:115-123 | A toast is shown iff some entry is done. It is the success toast iff some are done and none failed. |
| Converter.ToastAsWrittenSilent | src/components/Converter.tsx:114-123 | As written: the toast reads the queue from before the batch, so it never shows. |
| Converter.ToastFromQueueShown | src/components/Converter.tsx:114-123 | Corrected: a toast is shown when some reply succeeded. |
| Converter.ToastFromQueueSuccess | src/components/Converter.tsx:114-123 | Corrected: the success toast is shown when every reply succeeded. |
| Converter.BatchEntryReplied | src/components/Converter.tsx:103-109 | Every batch entry in the final queue reflects some reply. |
| Converter.BatchReplyEntered | src/components/Converter.tsx:103-109 | Every reply is reflected by a batch entry in the final queue. |
| Converter.ToastExample | src/components/Converter.tsx:96-124 | One pending file that converts successfully gives no toast as written, but the success toast as corrected. |

## Left out

- Running the audio engine and the prober. Their events, progress percentages, stderr logging, and the unlinking of temporary files are left out. Each engine run's outcome, the prober's answers and the diagnostic lines are inputs.
- Floating point. Durations are exact reals, and floor to ms is `.Floor`. `parseFloat` is the parameter `num`, and NaN is not modelled. `toFixed` and the view's time estimate (`getEta`) are left out.
- Windows paths. Paths are POSIX, without trailing separators.
- Unicode. Strings are sequences of characters, so UTF-16 code units, case folding beyond ASCII and normalisation are not modelled.
- Base64 and data URIs. Artwork results carry the chosen file and MIME type, not the encoded data.
- Reading and writing files, the save dialog, and the clock. These are parameters: whether the file exists or is readable, whether the write succeeds, whether a missing output directory can be made, the dialog's answer, the time of day. Temporary file names are parameters too.
- `crypto.randomUUID`. The new ids are a parameter.
- The Electron window, dialogs, settings and project files, file drag, and the iTunes hand-off. These are platform I/O.
- The inter-process bridge. When the main process rejects a conversion, the bridge raises an error in the view. Its message is the parameter `bridgeMessage`.
- The store's `persist` middleware and its `partialize`. Dates are integer timestamps.
- `generatePresetId` (clock and randomness), `CONVERSION_PRESETS` (an alias) and the optional `sampleRate` field.
- The `ConversionFile` type file. It is not part of this model; the queue entry's fields follow their use in the view.
- Converter.ConvertAll: the pause check is left out. `paused` is only ever set to false (src/components/Converter.tsx:98), so the break never runs.
- Converter.ConvertAll: progress events during a batch and user actions between conversions are not interleaved.
- Merge.Process: writing and deleting the chapter sidecar file and forwarding the engine's progress events are I/O and are not stated. The engine's end or error is a parameter, and the result states how each is reported.
- Paths.Join: does not normalise `.`, `..` or doubled separators as Node's `path.join` does; directories and names are taken as already normalised.
- Convert.OutputPath: for an input path that is not normalised (such as `/a/./b.m4b` converted to m4b), the program's joined output equals the normalised input and overwrites it, while the model compares the unnormalised strings and picks `_converted`; input paths are taken as normalised.
- Artwork.DetectFolder: states which candidate is chosen, not the encoded data.

## Findings

| source | as written | input that shows it | evidently intended | confidence | as-written member | corrected member |
|---|---|---|---|---|---|---|
| src/components/Converter.tsx:114-123 | The completion toast filters `files`, the queue captured when convert-all started, where every batch entry is still pending. Its done and error counts are therefore always 0, and no toast is ever shown. | One pending file whose conversion succeeds. | Count the batch entries in the queue after the batch: success when some are done and none failed, a warning when some are done and some failed. | not executed; high | Converter.ToastAsWritten (shown by Converter.ToastAsWrittenSilent and Converter.ToastExample) | Converter.ToastFromQueue (used by Converter.ConvertAll; Converter.ToastFromQueueShown, Converter.ToastFromQueueSuccess) |
| dist-electron/main.js:340-376 | `W` returns the engine promise from inside its `try` without awaiting it. An engine failure rejects `W` instead of giving the `{success:false}` record, and `audio:batchConvert` awaits `W` without a catch. One failed run rejects the whole batch and drops every later request. | Two mp3 requests for existing inputs whose first engine run fails. | Each failed run becomes that request's own failure record, and the batch returns one result per request. | not executed; high | Convert.BatchConvert (shown by Convert.BatchAbortExample) | Convert.BatchConvertIsolated (with Convert.Isolated, Convert.IsolatedOutcome) |
