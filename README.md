# Youtube_Farm core, modelled in Dafny

Youtube_Farm turns a topic into a narrated short video. A language model writes a
markdown script with `IMAGE PROMPT:` lines. An image model draws one picture per
prompt. A text-to-speech engine reads the cleaned script. moviepy cuts the pictures
to the length of the narration. The result can be uploaded to a numbered Google
Drive folder.

This project models the program's own logic around those services:

- the narration cleaner `collect_complete_story`;
- streaming the script and extracting image prompts, in both script generators;
- the topic catalog, its categories and random selection;
- the interactive menu of `main.py` and its per-prompt image loop;
- the planning part of `create_video`, the dispatch and crop arithmetic of
  `apply_image_effects`, and `find_generated_files`;
- voice resolution and the retry loop of `generate_audio`;
- the Drive folder numbering, folder names, tag text, file-id extraction and the
  early returns of `upload_video_with_metadata`;
- the chunk fold of both `generate_image` functions and `save_binary_file`;
- the delay setting and loop control of `continuous_runner.py`.

Every call into a model, an engine, the Drive API, HTTP, moviepy, the clock or
`random` is a parameter of the Dafny member that needs it:

- a function-typed oracle (the script stream, the TTS engine, the Drive calls,
  `mimetypes.guess_extension`);
- a plain value (the listing of Drive folders, the wall clock, the typed menu input);
- or a nondeterministic choice constrained only by membership, size and
  distinctness (`random.choice`, `random.sample`, `random.randint`).

The image files of both `generate_image` functions and the downloaded service-account
file are written to a `Storage.FileStore` object, whose `files` map the write methods
update in place. The script file that `main` writes and the `.wav` file that
`generate_audio` writes appear only as the paths the model returns.

Layout, one Dafny module per source file:

| file | module | source |
|---|---|---|
| media_utils.dfy | MediaUtils | src/utils/media_utils.py |
| script_generator.dfy | ScriptGenerator | src/generators/script_generator.py |
| root_script_generator.dfy | RootScriptGenerator | script_generator.py |
| topic_data.dfy | TopicData | src/utils/topic_data.py |
| video_generator.dfy | VideoGenerator | src/generators/video_generator.py |
| audio_generator.dfy | AudioGenerator | src/generators/audio_generator.py |
| drive_uploader.dfy | DriveUploader | src/utils/drive_uploader.py |
| main_menu.dfy | MainMenu | main.py |
| continuous_runner.dfy | ContinuousRunner | continuous_runner.py |
| image_generator.dfy | ImageGenerator, RootImageGenerator | src/generators/image_generator.py, image_generator.py |

Shared modules: `Wrappers` (Option, Result), `PyText` (the Python `str` operations
used, over ASCII), `Seqs` (filter and map), `Sorting` (`sorted` on strings, newest-first
by ctime, `max` by ctime), `Sampling` (`random.sample` and `random.choice`) and
`Storage` (the file store).

The two topic catalogs, in src/utils/topic_data.py and script_generator.py, hold the
same 215 strings in the same order. They are modelled once, as `TopicData.Catalog`.

## Model

| member | source | states |
|---|---|---|
| MediaUtils.HeadingCases | src/utils/media_utils.py:42-46 | `#…# <spaces>x` becomes `strip(x)`; an indented heading, or `#` directly followed by text, is only stripped |
| MediaUtils.HashRunOf | src/utils/media_utils.py:44 | the `^#+` run of `k` hashes followed by a non-hash is exactly `k` long |
| MediaUtils.MarkerNotBlank | src/utils/media_utils.py:28-35 | a marker line is never the blank line that ends a skip |
| MediaUtils.SkipStep | src/utils/media_utils.py:28-39 | the skip flag after a line is set iff that line is a marker, or the flag was set and the line is not blank |
| MediaUtils.CleanLines | src/utils/media_utils.py:26-49 | the line loop emits exactly the kept lines in order: markers, skipped lines and the blank line ending a skip are dropped, headings are rewritten, other lines are verbatim |
| MediaUtils.KeptAllWithoutMarkers | src/utils/media_utils.py:26-49 | without marker lines and headings, every line is kept verbatim and in order |
| MediaUtils.CollapseNewlines | src/utils/media_utils.py:55 | the collapse leaves no run of three newlines and keeps whether the text starts with one or two newlines |
| MediaUtils.CollapseIdentity | src/utils/media_utils.py:55 | text without a three-newline run is unchanged by the collapse |
| MediaUtils.CloseAtFinds | src/utils/media_utils.py:59-60 | the non-greedy match closes at the first delimiter on the same line |
| MediaUtils.UnwrapIdentity | src/utils/media_utils.py:59-60 | text without the delimiter is unchanged by the bold or italic pass |
| MediaUtils.BoldRemoved | src/utils/media_utils.py:59 | `**x**` becomes `x` after the three passes |
| MediaUtils.ItalicRemoved | src/utils/media_utils.py:60 | `*x*` becomes `x` after the three passes |
| MediaUtils.CharOnLineFinds | src/utils/media_utils.py:63 | the link scan finds the first wanted character on the same line |
| MediaUtils.LinkFromFinds | src/utils/media_utils.py:63 | the link match closes at the first `](` and the first `)` after it |
| MediaUtils.LinkRemoved | src/utils/media_utils.py:63 | `[t](u)` becomes `t` after the three passes |
| MediaUtils.UnlinkIdentity | src/utils/media_utils.py:63 | text without `[` is unchanged by the link pass |
| MediaUtils.Polish | src/utils/media_utils.py:52-65 | the rewriting passes end in a text with no leading or trailing whitespace |
| MediaUtils.CollectCompleteStory | src/utils/media_utils.py:7-65 | the cleaner's result is the line pass followed by the rewriting passes, and it is stripped |
| MediaUtils.PlainStoryUnchanged | src/utils/media_utils.py:19-65 | a story with no marker, no heading, no `*`, no `[` and no three-newline run comes out as its stripped self |
| ScriptGenerator.StreamTextAppend | src/generators/script_generator.py:124-134 | the text of two streams one after the other is the concatenation of their texts |
| ScriptGenerator.StreamTextSkipsEmpty | src/generators/script_generator.py:132-133 | a chunk with no text or empty text adds nothing |
| ScriptGenerator.AccumulateResponse | src/generators/script_generator.py:124-134 | the streaming loop returns the in-order concatenation of the chunk texts |
| ScriptGenerator.PromptOf | src/generators/script_generator.py:140 | an extracted prompt has no leading or trailing whitespace |
| ScriptGenerator.PromptsByPosition | src/generators/script_generator.py:137-141 | exactly one prompt per marker line, in line order, each computed from its own line |
| ScriptGenerator.PromptsStripped | src/generators/script_generator.py:140 | every extracted prompt is stripped |
| ScriptGenerator.PromptsAppend | src/generators/script_generator.py:138-141 | extraction over two blocks of lines is the concatenation of the two extractions |
| ScriptGenerator.MarkerLinePrompt | src/generators/script_generator.py:139-140 | an indented `IMAGE PROMPT: rest` line is a marker line and yields `strip(rest)` |
| ScriptGenerator.MarkerCaseSensitive | src/generators/script_generator.py:139 | a line starting with the marker in lower case yields no prompt |
| ScriptGenerator.ExtractImagePrompts | src/generators/script_generator.py:137-143 | the extraction loop returns the prompts of the `\n`-separated lines |
| ScriptGenerator.EmptyResponse | src/generators/script_generator.py:124-143 | an empty stream yields an empty script and no prompt |
| ScriptGenerator.GenerateMotivationScript | src/generators/script_generator.py:33-143 | a falsy topic is replaced by a catalog topic, a given one is kept; the script is the stream text for that topic and the prompts are extracted from it |
| RootScriptGenerator.GetAvailableTopics | script_generator.py:240-242 | the 215-entry catalog, unchanged |
| RootScriptGenerator.GetRandomTopics | script_generator.py:244-246 | a negative count raises; otherwise min(n, 215) entries from distinct catalog positions |
| RootScriptGenerator.GenerateMotivationScript | script_generator.py:128-238 | a falsy topic is replaced by a catalog topic; script and prompts as in the other generator |
| RootScriptGenerator.EmptyStream | script_generator.py:219-238 | an empty stream yields an empty script and no prompt |
| TopicData.AllTopics | src/utils/topic_data.py:105-112 | the catalog itself, 215 entries |
| TopicData.PrefixSlices | src/utils/topic_data.py:136-146 | the first k categories together are the catalog's first min(20k, len) entries |
| TopicData.SlicesPartition | src/utils/topic_data.py:136-148 | the categories concatenated in key order are exactly the catalog, with no gap and no overlap |
| TopicData.CategorySizes | src/utils/topic_data.py:137-146 | category k of the first ten has min(20, max(0, len - 20k)) entries |
| TopicData.RepeatedAcrossCategories | src/utils/topic_data.py:8-70 | "Spatial computing applications" sits in two categories, and "AI ethics frameworks" appears twice |
| TopicData.CatalogNonEmptyEntries | src/utils/topic_data.py:5-102 | no catalog entry is empty |
| TopicData.GetRandomTopics | src/utils/topic_data.py:115-126 | a negative count raises; otherwise min(n, 215) entries from distinct catalog positions |
| VideoGenerator.Trunc | src/generators/video_generator.py:210 | `int()` of a float truncates toward zero |
| VideoGenerator.RepeatIndex | src/generators/video_generator.py:211 | the repeated list holds image `r` at position `q·n + r` of every copy `q` |
| VideoGenerator.CyclesAtLeastTwo | src/generators/video_generator.py:210 | when the images are too short for the audio, the list is repeated at least twice |
| VideoGenerator.PlanCoversAudio | src/generators/video_generator.py:202-216 | an empty list fails; a plan has images and n'·duration = T |
| VideoGenerator.PlanRepeats | src/generators/video_generator.py:208-213 | long enough lists are kept; short ones are repeated whole int(T/(n·d))+1 ≥ 2 times |
| VideoGenerator.PlanOfStretch | src/generators/video_generator.py:213-216 | the planned images are the stretched list |
| VideoGenerator.BuildClips | src/generators/video_generator.py:223-286 | one clip per image, the prepared image or a same-length black filler; no clips at all when the first image fails to load |
| VideoGenerator.ClipsTotal | src/generators/video_generator.py:216-286 | the clips together last n'·duration |
| VideoGenerator.ClipsLastAudio | src/generators/video_generator.py:201-286 | clips that follow a successful plan last exactly as long as the audio |
| VideoGenerator.FadePattern | src/generators/video_generator.py:239-245 | clip 0 fades in only, the last clip fades out only, the others both; no fade without transitions |
| VideoGenerator.CaptionRewritten | src/generators/video_generator.py:254-258 | with more than two `_`-parts, the caption holds no `_` and no date-stamp part |
| VideoGenerator.CaptionKept | src/generators/video_generator.py:250-255 | with at most two `_`-parts, the caption is the file stem |
| VideoGenerator.CinematicCrop | src/generators/video_generator.py:132-138 | the same number of rows is cut above and below; when the frame is at least the 21:9 height, the kept band lies inside the frame and is ⌊9w/21⌋ rows high, or one more; a shorter frame gets a band that starts above it |
| VideoGenerator.CropOfFullHd | src/generators/video_generator.py:132-138 | a 1920×1080 frame keeps rows 129..951, its 822-row 21:9 band |
| VideoGenerator.ApplyImageEffect | src/generators/video_generator.py:26-159 | a catalog name appends its one operation and an unknown name leaves the clip unchanged; only a zoom-out changes the size, scaling both sides by the zoom factor (truncated) and never shrinking them; otherwise the width is kept and only the crop changes the height |
| VideoGenerator.Scaled | src/generators/video_generator.py:47-50 | a clip resized by a callable has the size of its frame at t = 0, and a factor of at least 1 never shrinks a side |
| VideoGenerator.ZoomOutMovesCrop | src/generators/video_generator.py:49-138 | a 1.08 zoom-out turns 1920×1080 into 2073×1166, so a crop drawn after it cuts rows 139..1027 |
| VideoGenerator.EffectNamesDistinct | src/generators/video_generator.py:295-299 | the eleven effect names are distinct |
| VideoGenerator.ChooseEffects | src/generators/video_generator.py:302-305 | min..min(11, min+2) distinct catalog names; min > 11 raises |
| VideoGenerator.ApplyEffects | src/generators/video_generator.py:309-339 | the effects are applied in selection order, unknown names skipped, earlier operations kept |
| VideoGenerator.EffectStep | src/generators/video_generator.py:314-339 | one pass of the effect loop appends the operation of a catalog name after all earlier ones and adds nothing for an unknown name |
| VideoGenerator.ChooseAndApplyEffects | src/generators/video_generator.py:293-339 | with min <= 11 the draw succeeds (min > 11 raises) and the frame carries exactly one operation per drawn effect, in drawn order |
| VideoGenerator.RenderPlan | src/generators/video_generator.py:223-361 | after planning, a video comes out iff the first image loads, the effect draw succeeds and every moviepy call after the clip loop succeeds (`written`); its clips follow the plan and its frame carries one operation per drawn effect, in order |
| VideoGenerator.CreateVideo | src/generators/video_generator.py:162-361 | no images, no audio, a raising moviepy call after the clip loop or an impossible effect count give None; a video has the planned clips, lasts exactly the audio, and carries its chosen effects |
| VideoGenerator.FindNothing | src/generators/video_generator.py:393-397 | no audio or no non-.gitkeep image gives (None, []) |
| VideoGenerator.FindByTimestamp | src/generators/video_generator.py:400-405 | a timestamp matching both gives the first matching audio and the matching images sorted |
| VideoGenerator.AudioStampIsFirst | src/generators/video_generator.py:410-418 | the stamp is the first `_`-part of the newest audio's name that is all digits and at least 8 long, and only a name with more than one part has one |
| VideoGenerator.FindByAudioStamp | src/generators/video_generator.py:407-423 | without a timestamp match, a stamp of the newest audio found in image names gives the newest audio and exactly those images, sorted |
| VideoGenerator.FindFallback | src/generators/video_generator.py:407-428 | with neither match, the newest audio and exactly min(5, n) images, the first entries of the images ordered newest first |
| VideoGenerator.FoundImagesListed | src/generators/video_generator.py:393-428 | every returned image is one of the non-.gitkeep images |
| Sorting.SortStringsCorrect | src/generators/video_generator.py:405 | `sorted` returns an ordered permutation of its input |
| Sorting.InsertByCtimeProps | src/generators/video_generator.py:427 | placing one more file into a newest-first list keeps it newest first and adds exactly that file |
| Sorting.InsertKeepsBound | src/generators/video_generator.py:427 | the insertion never brings in a file newer than all it was given |
| Sorting.SortNewestFirstCorrect | src/generators/video_generator.py:427 | the newest-first sort returns a permutation ordered by descending ctime |
| Sorting.Newest | src/generators/video_generator.py:408 | `max(key=getctime)` picks the first file of greatest ctime |
| AudioGenerator.ResolveVoice | src/generators/audio_generator.py:53-57 | the voice is always a listed one; a listed request is kept; any other voice than af_bella was requested |
| AudioGenerator.ResolveVoiceIdempotent | src/generators/audio_generator.py:53-57 | resolving a resolved voice changes nothing |
| AudioGenerator.DefaultVoicesOffered | src/generators/audio_generator.py:18-30 | every default voice is one of the listed voices |
| AudioGenerator.CombinedAppend | src/generators/audio_generator.py:98-103 | the combined audio of two segment runs is their concatenation |
| AudioGenerator.RetryNone | src/generators/audio_generator.py:71-124 | no audio iff no attempt within the budget yields a segment |
| AudioGenerator.RetryFirst | src/generators/audio_generator.py:101-114 | the first attempt that yields segments decides the audio; later attempts cannot change it |
| AudioGenerator.RetryMoreAttempts | src/generators/audio_generator.py:71-124 | a larger budget does not change a result already found |
| AudioGenerator.NoRetries | src/generators/audio_generator.py:68-72 | with max_retries ≤ 0 no attempt is made and the result is None |
| AudioGenerator.GenerateAudio | src/generators/audio_generator.py:32-128 | the cleaned script and resolved voice are sent; the result is the first success's audio at 24000 Hz in `audio_dir/<name>.wav`, made on the first attempt that yields segments with every earlier attempt failed, or None after exactly max(max_retries, 0) failed attempts |
| AudioGenerator.CollectSegments | src/generators/audio_generator.py:89-99 | every yielded segment is counted, and the collected samples are the segments' samples concatenated in yield order |
| AudioGenerator.Attempts | src/generators/audio_generator.py:68-124 | the retry loop stops at the first attempt that yields segments, every attempt before it having raised or yielded nothing; None comes only when all max(max_retries, 0) attempts failed |
| DriveUploader.ParsedMembers | src/utils/drive_uploader.py:205-209 | a number is collected iff some folder name carries it in its second `_`-part |
| DriveUploader.SecondPartOnly | src/utils/drive_uploader.py:207-208 | only the second part counts: digits there give its value, anything else gives none |
| DriveUploader.MaxOf | src/utils/drive_uploader.py:215 | the maximum is a member and bounds every member |
| DriveUploader.NextNumberAbove | src/utils/drive_uploader.py:211-215 | the next number exceeds every collected number and is 1 or max + 1 |
| DriveUploader.NextNumberFresh | src/utils/drive_uploader.py:204-215 | on a listing, the next number is ≥ 1, above every parsed folder number, and 1 or one more than a parsed one |
| DriveUploader.GetNextFolderNumber | src/utils/drive_uploader.py:184-220 | the loop computes the listed rule; a failed listing gives the clock modulo 1000 |
| DriveUploader.FolderName | src/utils/drive_uploader.py:256 | `Video_` followed by at least three digits |
| DriveUploader.FolderNameRoundTrip | src/utils/drive_uploader.py:256 | parsing a folder name with the listing rule gives its number back |
| DriveUploader.TagsText | src/utils/drive_uploader.py:277 | non-list tags pass through unchanged |
| DriveUploader.TagsRoundTrip | src/utils/drive_uploader.py:277 | comma-free tags joined with `,` split back into the same list |
| DriveUploader.FileId | src/utils/drive_uploader.py:29 | no id iff the link has no `/d/`; an id never contains `/view` |
| DriveUploader.FileIdOfShareLink | src/utils/drive_uploader.py:29 | a share link `…/d/<id>/view…` yields exactly `<id>` |
| DriveUploader.DownloadServiceAccount | src/utils/drive_uploader.py:16-47 | no `/d/`: no request and no write; otherwise the direct address is fetched; a 200 body is written to the save path and the path returned only when the save succeeds (the path has a directory part and the disk accepts the write); every other case returns None and writes nothing |
| DriveUploader.UploadsOrder | src/utils/drive_uploader.py:263-282 | video, title.txt, description.txt, tags.txt, then the thumbnail only when given and present, all into the folder |
| DriveUploader.UploadVideoWithMetadata | src/utils/drive_uploader.py:222-289 | missing credentials or service return None before listing; no folder means no upload; otherwise all uploads are made whatever the video upload returns |
| MainMenu.ResolveChoice | main.py:39-56 | a suggestion pick is in range and non-empty; a typed pick is the non-empty custom input |
| MainMenu.CustomAnyCase | main.py:42-44 | `custom` in any letter case takes the typed topic when one is typed |
| MainMenu.ZeroSelectsAny | main.py:47-49 | a digit string whose value is 0 asks for any catalog topic |
| MainMenu.NumberSelects | main.py:45-52 | the number k, 1 ≤ k ≤ len, selects suggestion k-1 |
| MainMenu.OutOfRangeFallsBack | main.py:50-56 | a number beyond the suggestions falls back to any topic |
| MainMenu.PaddedNumberFallsBack | main.py:45-56 | a space-padded number is not a digit string and falls back |
| MainMenu.OtherInputFallsBack | main.py:42-56 | input that is neither `custom` in some letter case nor a digit string selects any topic |
| MainMenu.SelectTopic | main.py:39-56 | the topic is the typed one, the chosen suggestion or a catalog member, and never empty |
| MainMenu.TopicsNonEmpty | main.py:54-56 | a random catalog topic is never empty, so the fallback never repeats |
| MainMenu.ScriptFile | main.py:69-70 | the script is saved as `motivation_script_<ts>.md` |
| MainMenu.ImageName | main.py:87 | prompt names share the prefix `motivation_<ts>_` |
| MainMenu.ImageNamesDistinct | main.py:82-88 | prompts at different positions get different names |
| MainMenu.FailedContributesNothing | main.py:90-91 | a prompt whose generation returns nothing adds no image |
| MainMenu.GenerateImages | main.py:81-98 | prompt i is requested as `motivation_<ts>_<i>`, images are the in-order concatenation, and len-1 pauses separate the requests |
| MainMenu.GenerateContent | main.py:39-98 | the topic is the one the menu pick names (typed, the chosen suggestion, or a catalog member); that topic's stream is the script, its file name and image names share one timestamp, and one request is made per prompt |
| ContinuousRunner.DelayBetweenVideos | continuous_runner.py:65-81 | the delay is always at least 60 |
| ContinuousRunner.DelayOfInteger | continuous_runner.py:72-77 | an integer setting v gives max(v, 60) |
| ContinuousRunner.DelayOfInvalid | continuous_runner.py:79-81 | a value `int()` rejects gives 120 |
| ContinuousRunner.EnvironmentAfterOption | continuous_runner.py:187-188 | no `--delay`, or `--delay 0`, leaves the environment as it was |
| ContinuousRunner.DelayOption | continuous_runner.py:187-188 | `--delay d` with d ≠ 0 gives max(d, 60); `--delay 0` keeps the previous delay |
| ContinuousRunner.GenerateRandomTopic | continuous_runner.py:54-63 | the topic is one of the 22 listed words |
| ContinuousRunner.AfterCycle | continuous_runner.py:121-171 | the outputs are pinned by the flag reads: a failed stage reads nothing and does not wait; an exception reads once and sleeps the delay iff that read is clear; a completed video stops iff its first read is set, otherwise sleeps one second per clear read up to the delay, the first set read ending the wait |
| ContinuousRunner.CycleEndWaits | continuous_runner.py:154-171 | no cycle waits longer than the delay, and a cycle whose wait was cut short (or that stopped the loop) has already read the flag as set |
| ContinuousRunner.HistoryBounds | continuous_runner.py:105-171 | each iteration takes at least one flag read, so there are at most as many videos as clear reads, and every iteration but the last waited the whole delay or had a stage fail |
| ContinuousRunner.FinishedReads | continuous_runner.py:105-171 | when the loop ends the flag has been read set, at most one read past the first set read |
| ContinuousRunner.RunContinuous | continuous_runner.py:83-177 | a failed key check runs nothing; otherwise iteration k is video k+1 with a listed topic and its own outcome, starts at the read where the previous one ended, and ends as AfterCycle says; the loop runs until a read finds the flag set (at least one video when the first read is clear), ending exactly by the last video's stop or the next loop-head read |
| Storage.FileStore.Write | src/generators/image_generator.py:99-100 | the file holds exactly the written bytes and no other file changes |
| ImageGenerator.Extension | src/generators/image_generator.py:75 | the guessed extension, or `.jpg` when none (or an empty one) is known |
| ImageGenerator.ImagePath | src/generators/image_generator.py:76 | the image path ends with `<image_name><ext>` |
| ImageGenerator.SavedPathsShape | src/generators/image_generator.py:59-88 | one saved path per chunk whose first part carries inline data, each `<dir>/<name><ext>` for such a chunk; none when no chunk carries one |
| ImageGenerator.SkippedChunk | src/generators/image_generator.py:70-71 | a chunk with no candidates, content, parts or first-part inline data changes neither the list nor the files |
| ImageGenerator.SameTypeOverwrites | src/generators/image_generator.py:73-79 | two images of one mime type share one path: it is listed twice and the file keeps the later bytes |
| ImageGenerator.SaveBinaryFile | src/generators/image_generator.py:91-101 | the file then holds exactly the given bytes, replacing what it held |
| ImageGenerator.SaveStreamedImages | src/generators/image_generator.py:65-88 | the fold returns the saved paths in stream order and leaves the files as the successive writes do |
| ImageGenerator.GenerateImage | src/generators/image_generator.py:59-88 | the fold under the configured images directory |
| RootImageGenerator.GenerateImage | image_generator.py:67-96 | the same fold under `output_images`, with the same `save_binary_file` (image_generator.py:8-18) |
| RootImageGenerator.JoinUnderOutputDir | image_generator.py:84 | a relative name is joined as `output_images/<name>` |
| RootImageGenerator.SavedUnderOutputDir | image_generator.py:81-87 | every saved path of a relative image name is `output_images/<name><ext>` with a non-empty extension |

## Left out

- Network and model calls: Gemini streaming, the Kokoro pipeline, the Drive API and
  `requests.get` are oracles passed in. Their internals and `get_drive_service`,
  `create_folder`, `upload_file` and `upload_text_content` are not modelled beyond
  what they return.
- Prompt templates and generation settings are content, not behaviour.
- moviepy rendering: resizing, pan and zoom lambdas, fades, text clips, compositing,
  encoding and the `finally` cleanup are pixel work. A clip is a record of what was
  requested.
- VideoGenerator.ApplyImageEffect: the size of a resized clip follows moviepy 1.x, which is
  not part of this model: a clip resized by a callable takes the size of its frame at
  t = 0, each side `int(side * factor)`. The `slow_pan` branch passes callables as
  `x1`/`y1` to `crop`, which moviepy 1.x adds to the width or height and so cannot
  accept; the model follows the evident intent, a pan that keeps the w×h size.
- src/generators/video_generator.py:17-21 imports `vfx_frame` from `moviepy.video.fx`,
  a name moviepy does not provide, so the module would fail at import. The model follows
  the evident intent of `create_video`, `apply_image_effects` and `find_generated_files`.
- Floating point: durations are `real`, with `int()` as truncation. Rounding is not
  modelled. `total_duration`, the segment counters and the pan, opacity and
  intensity parameters are only printed or passed to moviepy and are not modelled; the
  zoom factor is modelled only for the size of the zoomed-out clip.
- Randomness: only membership, size and distinctness of `random.choice`,
  `random.sample`, `random.randint` and `random.uniform`, never their distributions.
- Time and files: `datetime.now`, `time.strftime`, `time.sleep`, `glob`,
  `os.path.getctime`, `os.path.exists` and `makedirs` become parameters or records.
  Timestamps are given strings, directory listings are (name, ctime) records, the
  clock fallback of `get_next_folder_number` is a given number, and sleeps are counted
  (pauses, waited seconds).
- src/utils/config.py is not part of this model. Output directories are given strings.
  `PARENT_FOLDER_ID` does not appear in the model: the folder it names is implicit in the
  `listing` and `createFolder` oracles of `DriveUploader.Drive`. `SERVICE_ACCOUNT_URL` is the
  `url` parameter of `DriveUploader.DownloadServiceAccount`; `UploadVideoWithMetadata` takes
  that download's result, `downloaded`, instead of the link.
- `ensure_directory` in src/utils/media_utils.py is directory creation only.
- Python string semantics are modelled over ASCII: the whitespace of `strip` is the
  ASCII `isspace` set, `isdigit` means ASCII digits, and `lower` and `title` act on
  ASCII letters. `int()` is modelled as: surrounding ASCII whitespace ignored, an optional sign,
  then ASCII digits with single underscores between them.
- continuous_runner.py imports `generate_script`, `create_images`, `generate_audio`,
  `create_video`, `process_arguments`, `verify_api_key` and `verify_moviepy_installation`
  from main.py (continuous_runner.py:28-36). main.py defines only `main`, so the import
  fails and the script exits (continuous_runner.py:38-40). The runner's loop is modelled
  against an abstract outcome per cycle instead. `verify_moviepy_installation` only logs.
- ContinuousRunner.RunContinuous: the SIGINT handler is modelled as the number of
  flag reads before the flag turns true, not as an asynchronous signal. The wall-clock
  wait is modelled as one flag read per second.
- print and logging output.
- VideoGenerator.FindFallback: does not fix the order among images with equal ctime,
  only that the list is ordered newest first and drawn from the images.
- AudioGenerator.GenerateAudio: does not model an exception raised by
  `collect_complete_story` or by directory creation (the outer handler,
  src/generators/audio_generator.py:126-128), which returns None.
- ImageGenerator.GenerateImage: an exception from the stream or a failed write
  propagates to the caller in the source and is not modelled.
- ScriptGenerator.GenerateMotivationScript, RootScriptGenerator.GenerateMotivationScript
  and MainMenu.GenerateContent: an exception raised by the Gemini stream is not caught
  in the source and propagates out of `generate_motivation_script` and `main`; the
  model's stream oracle always completes.
- DriveUploader.DownloadServiceAccount: a write that raises after the file was opened
  may leave a truncated file in the source; the model treats every failed save as
  writing nothing.
