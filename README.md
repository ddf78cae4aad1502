# Voice assistant service: a verified model

This project models the sequential logic of the `ai_service` scripts of a
Raspberry-Pi voice assistant that answers spiritual questions. The assistant
speaks through the piper text-to-speech engine and plays audio with aplay.
The scripts download piper voices, test them and clean up voice files.
Each script keeps its name as a Dafny module:

- `LoadingSounds` (loading_sounds.dfy) models the loading-sound overlay.
  - `LoadingSoundSystem` is a class whose `isPlaying` flag and `soundThread`
    reference change as cues start and stop.
  - The cues come from a registry of five, with a default cue.
  - The background thread body is two explicit steps.
- `SpiritualAssistant` (spiritual_assistant.dfy) models three parts:
  - the canned keyword responder;
  - `speak_response`;
  - the conversation loop, run under the loading overlay.
- `ListAllVoices`, `VoiceOutputTest`, `Piper` and `DebugVoices` model the four
  voice scripts.
- `CleanupVoiceFiles` and `CleanupCoquiVoices` model the two cleanup scripts.
- `SimpleLoadingTest` models the S16_LE beep encoder.
- Shared modules hold what several scripts write out alike:
  - `Downloads`: the URL walk with skip and stop-at-first-failure.
  - `Synthesis`: the synthesise/play/clean-up step and output-file naming.
  - `Menu`: `voices[int(n) - 1]` with Python's `int` and negative subscripts.
  - `Listing`: sort largest first, show ten, "... and N more".
  - `Removals`: removal loops that count only successes.
  - `Common`: `str.lower`, substring `in`, `split('/')[-1]`, `str.replace`,
    list comprehensions and sums.

How the world outside the scripts is modelled:

- The filesystem is the set of existing paths.
- Every external program is an oracle supplied by the caller: wget, piper,
  aplay, pip, `which`, `os.remove`, `shutil.rmtree`, `glob`, `os.walk` and
  `os.path.getsize`. It is a success boolean, or the set of arguments on
  which it succeeds, or a function giving its result.
- Speech recognition is a sequence of recognised inputs.
- Prompts are strings passed in.

Each operation with a loop is a method proved against a recursive
specification function. The properties the scripts promise are lemmas about
those functions.

## Model

| member | source | states |
|---|---|---|
| LoadingSounds.LookupInSpec | ai_service/loading_sounds.py:86-90 | a cue id is found exactly when some registry entry carries it, and the configuration found is that entry's |
| LoadingSounds.RegistrySpec | ai_service/loading_sounds.py:22-50 | `list_available_sounds` yields the five ids in declaration order; exactly those ids are found; a found cue is spoken (tts) exactly when it is one of the two "voice_" cues |
| LoadingSounds.DefaultSoundRegistered | ai_service/loading_sounds.py:53 | the default id "voice_processing" is registered, as the spoken cue "Processing your request..." |
| LoadingSounds.DispatchSpec | ai_service/loading_sounds.py:110-115 | a tts cue speaks its text; a file cue hands on its own file; the duration handed to `_play_audio_file` is the registry duration when the override is missing or zero, and is positive unless the override is negative (that duration only sizes the fallback beep; an existing file is played whole) |
| LoadingSounds.Dispatch | ai_service/loading_sounds.py:110-115 | a cue is spoken exactly when its type is "tts"; a file cue hands on the file of its configuration |
| LoadingSounds.StopStep | ai_service/loading_sounds.py:168-174 | a stop lowers `is_playing` and keeps the thread reference, the thread counter and the record of playbacks |
| LoadingSounds.PlayStep | ai_service/loading_sounds.py:81-101 | starting a cue plays nothing by itself; an unknown id changes nothing; a known id leaves the flag down (the old cue was stopped) and uses up one fresh thread id |
| LoadingSounds.StepsKeepFresh | ai_service/loading_sounds.py:96-101 | every step keeps thread ids below the counter, so a newly started thread is never the current one |
| LoadingSounds.StopSpec | ai_service/loading_sounds.py:168-174 | after a stop nothing is flagged as playing and nothing else changed; stopping when idle changes nothing; stopping twice is stopping once |
| LoadingSounds.PlayUnknown | ai_service/loading_sounds.py:86-88 | an unknown id leaves the whole state unchanged, including a cue that is playing |
| LoadingSounds.PlayKnown | ai_service/loading_sounds.py:83-101 | a known id first stops the current cue, then installs a new thread different from the old one; nothing is played yet; playing after a stop equals playing; no id means the default cue |
| LoadingSounds.ThreadBodySpec | ai_service/loading_sounds.py:105-119 | entering and then finishing a thread body leaves the flag down, records exactly that cue's playback and keeps the thread reference |
| LoadingSounds.LoadingSoundSystem.constructor | ai_service/loading_sounds.py:16-19 | a new system is idle, with no thread and nothing played |
| LoadingSounds.LoadingSoundSystem.PlayLoadingSound | ai_service/loading_sounds.py:81-103 | the object's new state is the play step applied to its old state |
| LoadingSounds.LoadingSoundSystem.StopLoadingSound | ai_service/loading_sounds.py:168-174 | the object's new state is the stop step applied to its old state |
| LoadingSounds.LoadingSoundSystem.EnterThreadBody | ai_service/loading_sounds.py:105-107 | the thread body raises `is_playing` |
| LoadingSounds.LoadingSoundSystem.FinishThreadBody | ai_service/loading_sounds.py:109-119 | the cue's playback is recorded and the flag is lowered on every exit path |
| LoadingSounds.LoadingSoundSystem.ProcessWithLoading | ai_service/loading_sounds.py:180-193 | the outcome of `process_func` (returned or raised) is passed on unchanged; the default cue's thread is installed; afterwards nothing is flagged as playing, and the playback record gains the default cue's dispatch exactly when its thread got through before the stop; a thread not yet started or still running is not followed (see Left out) |
| LoadingSounds.ProcessStepSpec | ai_service/loading_sounds.py:180-193 | for each progress of the cue thread (not started, running, finished) when the stop comes: the flag ends down, one thread id is used, the default cue's thread is installed, and the playback record grows by "Processing your request..." exactly when the thread finished |
| LoadingSounds.ProcessTwiceSpec | ai_service/loading_sounds.py:180-193 | two overlays in a row end with nothing flagged as playing, two thread ids used, the second overlay's default-cue thread current, and the record grown by the cues of the two threads that got through before their stops |
| SpiritualAssistant.ReplyTextNonEmpty | ai_service/spiritual_assistant_with_loading.py:83-103 | every answer, the default included, is non-empty, so the `if ai_response` branch is always taken |
| SpiritualAssistant.TopicIgnoresCase | ai_service/spiritual_assistant_with_loading.py:97 | the answer depends only on the lowered input |
| SpiritualAssistant.GetAiResponse | ai_service/spiritual_assistant_with_loading.py:78-103 | the method returns the table answer for the input's topic |
| SpiritualAssistant.MatchTopic | ai_service/spiritual_assistant_with_loading.py:98-103 | the loop with its early return yields the first-match topic of the table |
| SpiritualAssistant.FirstMatchSpec | ai_service/spiritual_assistant_with_loading.py:97-100 | when some key occurs, the topic is that of the first key in table order that occurs; when none occurs, it is the default |
| SpiritualAssistant.FallbackIffNoKey | ai_service/spiritual_assistant_with_loading.py:98-103 | over a table with no default entries, the default answer comes back exactly when no key occurs (both directions) |
| SpiritualAssistant.FirstKeyExists | ai_service/spiritual_assistant_with_loading.py:98-100 | if any key occurs, some key is the first one to occur |
| SpiritualAssistant.TopicForSpec | ai_service/spiritual_assistant_with_loading.py:83-103 | on the ten-entry table: the answer is that of the first key in table order occurring in the lowered input, and the default exactly when no key occurs |
| SpiritualAssistant.TableOrderWins | ai_service/spiritual_assistant_with_loading.py:83-100 | "hope and prayer" gets the prayer answer: table order, not position in the sentence, decides |
| SpiritualAssistant.SpeakResponse | ai_service/spiritual_assistant_with_loading.py:105-137 | the method's outcome and filesystem are those of the speak rule |
| SpiritualAssistant.SpeakSpec | ai_service/spiritual_assistant_with_loading.py:107-137 | True exactly when the voice model exists and piper and aplay both succeed; without the model nothing is touched; after success both scratch files are gone; after a tool failure the text file remains; no other path ever changes |
| SpiritualAssistant.Speak | ai_service/spiritual_assistant_with_loading.py:105-137 | True only when piper and aplay both succeed; no path other than the two scratch files changes |
| SpiritualAssistant.ExitIsExact | ai_service/spiritual_assistant_with_loading.py:158 | exit words match the whole lowered input: "STOP" exits, "stop please" does not |
| SpiritualAssistant.ConversationExits | ai_service/spiritual_assistant_with_loading.py:151-160 | the conversation ends exactly when some recognised input is an exit word |
| SpiritualAssistant.ConversationSpeaksInOrder | ai_service/spiritual_assistant_with_loading.py:158-178 | every answer is spoken once, in the order given; after an exit the goodbye is the last thing spoken; skipped inputs speak nothing |
| SpiritualAssistant.ConversationRepliesFromInputs | ai_service/spiritual_assistant_with_loading.py:164-178 | every answer given is the table's answer to one of the recognised inputs |
| SpiritualAssistant.SpiritualAssistant.constructor | ai_service/spiritual_assistant_with_loading.py:17-20 | the assistant owns a fresh, idle loading system |
| SpiritualAssistant.SpiritualAssistant.ProcessWithLoading | ai_service/spiritual_assistant_with_loading.py:139-141 | delegation: the loading system's outcome is returned unchanged, the loading system ends idle, and the playback record gains the default cue exactly when its thread got through before the stop |
| SpiritualAssistant.SpiritualAssistant.TakeTurn | ai_service/spiritual_assistant_with_loading.py:152-178 | one loop pass follows the turn rule: skip on `None`, goodbye on an exit word, otherwise answer and speak, each under its own `process_with_loading`; the turn carries what speaking returned and the filesystem as `speak_response` left it; the loading system's whole new state is `TurnLoading` of the old one: after an answer, the default cue's overlay applied twice (the answer's, then the speech's); after a skipped turn or the goodbye, unchanged |
| SpiritualAssistant.SpiritualAssistant.AnswerAndSpeak | ai_service/spiritual_assistant_with_loading.py:162-178 | the answer is the responder's reply and is never empty, so `if ai_response:` always speaks it; speaking follows the speak rule; the loading system's new state is the overlay step for the answer's call followed by the one for the speech's call |
| SpiritualAssistant.SpiritualAssistant.RunConversation | ai_service/spiritual_assistant_with_loading.py:151-180 | the `while True` loop computes the conversation function over the inputs, with the filesystem as `speak_response` left it; the loading system's whole new state is the passes' steps applied one after the other; the playback record gains the conversation's cue dispatches; two cue threads were started per answer given; if anything was answered no cue is left playing and the last answer's speech cue thread is the current one; otherwise the loading system is untouched |
| SpiritualAssistant.TurnLoadingSpec | ai_service/spiritual_assistant_with_loading.py:152-178 | one pass records its turn's cue dispatches; an answered pass leaves no cue flagged as playing, starts two threads and leaves the speech's cue thread current; a skipped pass or the goodbye changes nothing |
| SpiritualAssistant.AnswersCount | ai_service/spiritual_assistant_with_loading.py:151-178 | a conversation gives exactly one answer per understood input before the exit word, whatever the filesystem and the speech tools do |
| SpiritualAssistant.ConversationLoadingSpec | ai_service/spiritual_assistant_with_loading.py:151-180 | over a conversation the loading system's record gains exactly the conversation's cue dispatches, two threads are started per answer, after the last answer no cue is flagged as playing and that answer's speech cue thread is current, and without answers the loading system is as it was |
| SpiritualAssistant.ConversationCuesSpec | ai_service/spiritual_assistant_with_loading.py:164-178 | every loading cue dispatch recorded in a conversation is "Processing your request...", at most two per answer, and none when no cue thread got through before its stop |
| Common.LowerSpec | ai_service/spiritual_assistant_with_loading.py:97 | `str.lower` leaves no capital letter: each capital becomes the small letter at the same place in the alphabet, and every other character is kept where it was |
| Common.LowerIdempotent | ai_service/piper.py:137 | lowering an already lowered string changes nothing |
| Common.ContainsAt | ai_service/spiritual_assistant_with_loading.py:99 | `key in text` holds when the key occurs at some position |
| Common.NotContainsChar | ai_service/spiritual_assistant_with_loading.py:99 | `key in text` fails when some character of the key never occurs in the text |
| Common.LastSegmentSpec | ai_service/list_all_voices.py:71-72 | `url.split('/')[-1]` is a '/'-free suffix of the URL, preceded by '/' unless it is the whole URL |
| Common.LastSegmentOfJoin | ai_service/list_all_voices.py:71-72 | the last segment of `dir + "/" + file`, for a '/'-free file, is the file |
| Common.JoinSpec | ai_service/cleanup_coqui_voices.py:35 | `os.path.join` returns an absolute second argument unchanged; otherwise the result starts with the directory and ends with the name, with at most one added '/' between them; for a '/'-free name the last segment of the result is the name |
| Common.ReplaceChar | ai_service/debug_voices.py:48 | `str.replace` of one character keeps the length; no replaced character is left (when it differs from its replacement); every other character stays at its position, and each replaced one becomes the replacement |
| Common.ReplaceCharBack | ai_service/debug_voices.py:48 | replacing back undoes a replacement whose new character did not occur in the text |
| Common.DeleteChar | ai_service/piper.py:121 | `str.replace(c, '')` leaves no `c` and never lengthens |
| Common.DeleteCharAppend | ai_service/piper.py:121 | deleting a character distributes over concatenation |
| Common.DeleteCharAbsent | ai_service/piper.py:121 | deleting a character that does not occur changes nothing |
| Common.DeleteCharKeeps | ai_service/piper.py:121 | every other character survives the deletion |
| Common.Filter | ai_service/list_all_voices.py:151 | a comprehension keeps only elements of its input that pass the test, and never lengthens |
| Common.FilterSnoc | ai_service/list_all_voices.py:151 | filtering one more element at the end appends it exactly when it passes |
| Common.FilterAppend | ai_service/list_all_voices.py:151 | filtering distributes over concatenation |
| Common.FilterNone | ai_service/list_all_voices.py:151 | nothing passes when no element passes the test |
| Common.FilterKeepsAll | ai_service/list_all_voices.py:151 | every element that passes the test is kept |
| Common.FilterIsSubsequence | ai_service/list_all_voices.py:151 | a comprehension's result is a subsequence of its input, in input order |
| Common.SumSizesAppend | ai_service/cleanup_coqui_voices.py:139 | the size sum of a concatenation is the sum of the parts' sums |
| Downloads.HostedEntryConsistent | ai_service/Voice_output_test.py:9-39 | a voice hosted as `<dir>/<stem>.onnx` has URLs whose last segments are its declared model and config names |
| Downloads.FetchAllOkIff | ai_service/Voice_output_test.py:46-56 | with distinct file names, the walk succeeds exactly when every file exists already or its URL can be fetched |
| Downloads.FetchAllFiles | ai_service/Voice_output_test.py:46-56 | the walk only adds files, and only files named by its URLs; after success every named file exists |
| Downloads.FetchAllAttempts | ai_service/piper.py:73-82 | wget runs only on missing files, in URL order; every run but the last succeeded; the walk fails exactly when the last run failed |
| Downloads.FetchAll | ai_service/piper.py:73-82 | the walk never removes a file and runs wget at most once per URL |
| Downloads.FetchAllLeavesAttempted | ai_service/Voice_output_test.py:46-53 | every file wget was run for exists afterwards, the one of a failed download included (`-O` created it empty), so a failed walk leaves the failed URL's file behind |
| Synthesis.SanitiseChained | ai_service/piper.py:121 | the one-pass sanitiser equals the three chained `str.replace` calls |
| Synthesis.SanitiseSpec | ai_service/list_all_voices.py:113 | the sanitised name has no space or parenthesis; every other character (except '_') occurs in it exactly when it occurs in the name; a name already free of them is unchanged |
| Synthesis.RemoveIfPresent | ai_service/list_all_voices.py:133-135 | the file is gone afterwards, and only that file was removed |
| Synthesis.SynthesizeAndPlay | ai_service/list_all_voices.py:108-136 | True exactly when piper and aplay both succeed; once both tools could be started, the temp input and output file are gone afterwards and every other path is as it was |
| ListAllVoices.HostedVoice | ai_service/list_all_voices.py:21-67 | each voice's config URL is its model URL with ".json" appended |
| ListAllVoices.HostedVoiceFiles | ai_service/list_all_voices.py:71-72 | a hosted voice's model and config are saved as `<stem>.onnx` and `<stem>.onnx.json` |
| ListAllVoices.RyanUsMediumModelFile | ai_service/list_all_voices.py:33-37 | the third entry downloads `en_US-ryan-medium.onnx` and its config, the model the assistant speaks with |
| ListAllVoices.DownloadVoice | ai_service/list_all_voices.py:69-94 | the two-step download is the shared URL walk over model then config; a failed model download returns False without trying the config, and leaves the empty model file behind |
| ListAllVoices.TestVoice | ai_service/list_all_voices.py:96-136 | without the model: False and nothing touched; otherwise True exactly when both tools succeed, and (once both tools could be started) the temp file and output are gone afterwards |
| ListAllVoices.RyanSpeaker | ai_service/list_all_voices.py:151 | a voice whose speaker is Ryan passes the "Ryan" filter |
| ListAllVoices.AmySpeaker | ai_service/list_all_voices.py:151 | an Amy voice whose variant has no capital R fails the "Ryan" filter |
| ListAllVoices.RyanVoicesOfAll | ai_service/list_all_voices.py:151 | of the eight voices the filter keeps the four Ryan voices, in table order |
| ListAllVoices.SelectionRange | ai_service/list_all_voices.py:178-184 | a reply is accepted exactly when it is an integer from -7 to 8 |
| Menu.TrimStartSpec | ai_service/list_all_voices.py:180 | `int` skips leading whitespace: what is kept is a suffix of the reply, everything dropped is whitespace, and the rest does not start with whitespace |
| Menu.TrimEndSpec | ai_service/list_all_voices.py:180 | `int` skips trailing whitespace: what is kept is a prefix, everything dropped is whitespace, and the rest does not end with whitespace |
| Menu.ParseIntSpec | ai_service/list_all_voices.py:180 | surrounding whitespace does not change what `int` reads; a number is read only from a stripped reply that is a digit or sign followed by digits, and it is negative only after a '-' |
| Menu.ParseIntSigned | ai_service/Voice_output_test.py:139 | a run of digits reads as its decimal value, the same with a leading '+', and negated with a leading '-' |
| Menu.BlankIsNotANumber | ai_service/list_all_voices.py:180 | an empty or all-whitespace reply is a `ValueError` |
| Menu.ParseShow | ai_service/list_all_voices.py:178-180 | reading back a printed number gives the number (`int(str(n)) == n`) |
| Menu.PythonIndex | ai_service/list_all_voices.py:180 | a subscript is valid exactly from `-len` to `len - 1`, and a negative one counts from the end |
| Menu.ChooseAccepts | ai_service/list_all_voices.py:178-184 | a reply is accepted exactly when it is an integer from `1 - len` to `len`; 1 and up pick that position, 0 and below count back from the last |
| Menu.Choose | ai_service/Voice_output_test.py:137-143 | a voice picked by a reply is always one of the listed voices |
| Menu.ChooseListedNumber | ai_service/list_all_voices.py:178-184 | typing a listed number picks the voice printed beside it |
| Menu.ChooseZeroPicksLast | ai_service/list_all_voices.py:180 | "0" picks the last voice |
| VoiceOutputTest.VerifiedVoicesConsistent | ai_service/Voice_output_test.py:9-39 | three verified voices, each with URLs ending in its declared model and config names |
| VoiceOutputTest.DownloadVoice | ai_service/Voice_output_test.py:41-56 | the loop over the URLs computes the shared walk: skip existing files, return False at the first failed download, True at the end |
| VoiceOutputTest.DownloadVoiceOutcome | ai_service/Voice_output_test.py:46-56 | for a consistent voice: success exactly when each file exists or can be fetched; after success both files are in place |
| VoiceOutputTest.TestVoice | ai_service/Voice_output_test.py:58-96 | without the model: False and nothing touched; otherwise True exactly when both tools succeed, and (once both tools could be started) the scratch files are gone afterwards |
| VoiceOutputTest.RyanOfRyans | ai_service/Voice_output_test.py:111 | both Ryan voices pass the filter, in order |
| VoiceOutputTest.RyanOfAmy | ai_service/Voice_output_test.py:111 | the Amy voice fails the filter |
| VoiceOutputTest.RyanVoicesOfVerified | ai_service/Voice_output_test.py:111 | the filter yields the two Ryan voices in declaration order |
| VoiceOutputTest.SelectionRange | ai_service/Voice_output_test.py:137-143 | a reply is accepted exactly when it is an integer from -2 to 3 |
| Piper.InstallPiper | ai_service/piper.py:6-25 | when `which piper` succeeds the answer is True and pip never runs; otherwise pip runs and its outcome is the answer |
| Piper.ComparisonVoicesConsistent | ai_service/piper.py:31-59 | the three comparison voices each name their own model and config in their URLs |
| Piper.DownloadAllVoices | ai_service/piper.py:61-86 | the nested loops with `continue`, `break` and `for ... else` compute the download-pass function |
| Piper.DownloadUrls | ai_service/piper.py:73-84 | the inner loop computes the shared walk; it breaks exactly when the walk fails |
| Piper.DownloadAllSubsequence | ai_service/piper.py:31-86 | the included voices are a subsequence of the declared ones, in declaration order |
| Piper.DownloadAllGrows | ai_service/piper.py:73-82 | the download pass never removes a file |
| Piper.DownloadAllKeepsPresent | ai_service/piper.py:67-70 | a voice complete before the pass is included, whatever happens to the others |
| Piper.DownloadAllNothingMissing | ai_service/piper.py:67-70 | when every voice is complete, all are included, wget never runs and the filesystem is unchanged |
| Piper.DownloadAllFilesPresent | ai_service/piper.py:83-84 | every included voice that names its own files has both files afterwards |
| Piper.IsQuitLower | ai_service/piper.py:137 | the quit test holds exactly when the lowered reply is "q" |
| Piper.TestFromOutcomes | ai_service/piper.py:107-145 | the loop reaches a prefix of the voices, and each outcome says whether piper rendered that voice's model and aplay played its output |
| Piper.TestFromStops | ai_service/piper.py:136-138 | the loop stops early only right after a voice that played and was answered "q"; no earlier voice got that answer after playing |
| Piper.TestFromCleanup | ai_service/piper.py:115-145 | once piper and aplay could be started, the temp file and every reached voice's output are gone, and all other paths are as they were |
| Piper.TestAllVoices | ai_service/piper.py:88-107 | nothing is tested when the download pass yields no voice; otherwise the downloaded voices are tested in order on the filesystem the pass left |
| Piper.TestVoices | ai_service/piper.py:107-145 | the `for voice in voices` loop with its `break` computes the test-loop function |
| Piper.PiperVoiceComparison | ai_service/piper.py:147-158 | the comparison gives up exactly when `which` does not find piper and pip fails; otherwise it is the test-all-voices run on the given filesystem |
| DebugVoices.CheckVoiceFiles | ai_service/debug_voices.py:9-26 | the loop returns the listed files that exist |
| DebugVoices.ExistingSpec | ai_service/debug_voices.py:18-26 | the existing files are a subsequence of the list, in list order, and a file is among them exactly when it is listed and exists |
| DebugVoices.DebugOutputNameSpec | ai_service/debug_voices.py:48 | the debug output name has no spaces, keeps every other character of the voice name (parentheses included) and is a debug scratch file |
| DebugVoices.TestSingleVoice | ai_service/debug_voices.py:28-73 | the model is checked first, then `model + ".json"`; the test passes exactly when both exist and both tools succeed; only debug scratch files ever change |
| DebugVoices.DebugMain | ai_service/debug_voices.py:75-98 | no test runs when none of the six files exists; otherwise the main pass runs |
| DebugVoices.RunDebugPass | ai_service/debug_voices.py:95-98 | the loop computes the main-pass function |
| DebugVoices.DebugPassTestsPresent | ai_service/debug_voices.py:95-98 | when no model is a scratch file, a voice is tested exactly when its model existed before the pass, and only scratch files change |
| DebugVoices.VoicesToTestArePersistent | ai_service/debug_voices.py:87-98 | the main pass tests exactly the three voices whose model exists |
| CleanupVoiceFiles.FindVoiceFiles | ai_service/cleanup_voice_files.py:6-47 | the entries are those of every existing search directory, pattern and regular file; `total_size` is the sum of their sizes |
| CleanupVoiceFiles.SearchAll | ai_service/cleanup_voice_files.py:37-47 | the outer loop computes the search function and keeps `total_size` equal to the sum of the entries |
| CleanupVoiceFiles.AppendFileEntries | ai_service/cleanup_voice_files.py:41-45 | the innermost loop appends one entry per regular file and keeps the total equal to the sum |
| CleanupVoiceFiles.FileEntriesSpec | ai_service/cleanup_voice_files.py:40-44 | an entry comes from a globbed regular file with that file's size; when all matches are regular files there is one entry per match, duplicates kept |
| CleanupVoiceFiles.DirEntriesSpec | ai_service/cleanup_voice_files.py:39-44 | an entry of a directory comes from one of the patterns joined to it |
| CleanupVoiceFiles.FoundSpec | ai_service/cleanup_voice_files.py:37-38 | an entry comes from an existing search directory; a missing directory contributes nothing |
| CleanupVoiceFiles.RemoveVoiceFiles | ai_service/cleanup_voice_files.py:49-66 | the loop computes the removal function; count and freed size grow only on success, so they are at most the entry count and the total size |
| CleanupVoiceFiles.CleanupMain | ai_service/cleanup_voice_files.py:79-114 | nothing found means no prompt; otherwise the sorted list is reported (total, top ten, "more" count); removal happens in sorted order exactly when the reply lowers to "y" |
| Listing.InsertBySizeSpec | ai_service/cleanup_voice_files.py:95 | inserting into a list sorted largest first keeps it sorted and adds exactly the new entry |
| Listing.SortBySizeDescSpec | ai_service/cleanup_voice_files.py:95 | the sort yields a permutation of its input in descending order of size |
| Listing.SortBySizeDesc | ai_service/cleanup_coqui_voices.py:131 | sorting keeps exactly the same entries, with their multiplicities |
| Listing.SortBySizeDescStable | ai_service/cleanup_voice_files.py:95 | the sort is stable: the entries of each size come out in their original order |
| Listing.SortBySizeDescSum | ai_service/cleanup_coqui_voices.py:139 | sorting keeps the total size |
| Listing.ShownSpec | ai_service/cleanup_voice_files.py:96-100 | at most ten entries are shown, the first ones; the "more" count accounts for exactly the rest and appears exactly when entries are left out; on a sorted list every shown entry is at least as large as every entry left out |
| Listing.ShownOfSorted | ai_service/cleanup_coqui_voices.py:131-134 | the entries shown are in descending order and each is one of the listed entries |
| Removals.RemoveEachBounds | ai_service/cleanup_voice_files.py:57-66 | count at most the entry count, freed size at most the total; only listed, removable paths disappear |
| Removals.RemoveEachDistinct | ai_service/cleanup_voice_files.py:57-66 | with every path listed once, count and freed size are exactly those of the entries that existed and were removable, and exactly those paths disappear |
| Removals.RemoveEachDistinctAfter | ai_service/cleanup_voice_files.py:57-61 | with every path listed once, exactly the listed paths that existed and were removable disappear |
| Removals.RemoveEachDistinctTally | ai_service/cleanup_voice_files.py:57-61 | with every path listed once, count and freed size are those of the entries that existed and were removable |
| Removals.RemoveEach | ai_service/cleanup_voice_files.py:57-66 | the number removed is at most the number of entries, and removing only ever takes paths away |
| Removals.WithoutTreeLaws | ai_service/cleanup_coqui_voices.py:63 | after `rmtree` of a directory, removing a tree inside it changes nothing more, and two `rmtree` calls give the same result in either order |
| CleanupCoquiVoices.DirScanCount | ai_service/cleanup_coqui_voices.py:30-41 | the file count is the number of walked files whose size could be read; with no such file the size is zero |
| CleanupCoquiVoices.ScanDir | ai_service/cleanup_coqui_voices.py:33-41 | the walk loop computes the directory scan |
| CleanupCoquiVoices.FindCoquiVoiceModels | ai_service/cleanup_coqui_voices.py:6-51 | the reported directories are those found among the six Coqui places; `total_size` is the sum of their sizes |
| CleanupCoquiVoices.MeasureDirs | ai_service/cleanup_coqui_voices.py:24-51 | the loop over directories computes the reported list and keeps `total_size` equal to its sum |
| CleanupCoquiVoices.FoundModelsSpec | ai_service/cleanup_coqui_voices.py:24-51 | a directory is reported exactly when it is listed, exists and has positive measured size, with its own measurements; at most one report per listed directory |
| CleanupCoquiVoices.RemoveTreesBounds | ai_service/cleanup_coqui_voices.py:61-70 | count at most the directory count, freed size at most the total; nothing outside the listed trees disappears |
| CleanupCoquiVoices.RemoveTreesExact | ai_service/cleanup_coqui_voices.py:61-70 | when no listed directory lies inside another: exactly the listed directories that existed and could be removed are counted, the freed size is the sum of their sizes, and a path disappears exactly when it lies in one of their trees |
| CleanupCoquiVoices.CoquiDirsNotNested | ai_service/cleanup_coqui_voices.py:12-19 | for a home directory outside /tmp, none of the six Coqui places is another one or lies beneath another one |
| CleanupCoquiVoices.FoundModelsNotNested | ai_service/cleanup_coqui_voices.py:24-51 | when no search directory lies beneath another, no reported directory does either |
| CleanupCoquiVoices.RemoveCoquiModels | ai_service/cleanup_coqui_voices.py:53-70 | the loop computes the tree-removal function and counts only successes |
| CleanupCoquiVoices.BackupCopyIsLarge | ai_service/cleanup_coqui_voices.py:97 | the extension test is a substring test: a large "voice.pth.bak" is picked up |
| CleanupCoquiVoices.UpperCaseNameIsLarge | ai_service/cleanup_coqui_voices.py:97 | the test lowers the name: a large "MODEL.ONNX" is picked up |
| CleanupCoquiVoices.LargeVoiceFileRejects | ai_service/cleanup_coqui_voices.py:95-97 | exactly 10 MB is not large, and a large ".wav" file is not a voice model |
| CleanupCoquiVoices.IsLargeVoiceFileSpec | ai_service/cleanup_coqui_voices.py:95-97 | only files over 10 MB are large; a larger file with the same name is large too; the case of the name does not matter |
| CleanupCoquiVoices.NoExtensionInWav | ai_service/cleanup_coqui_voices.py:97 | no extension looked for (a dot followed by anything but 'w') occurs in "voice.wav" |
| CleanupCoquiVoices.LargeInSpec | ai_service/cleanup_coqui_voices.py:89-98 | an entry is a walked file that could be measured and passes the test, at its joined path and measured size; every such file has an entry |
| CleanupCoquiVoices.AppendLargeIn | ai_service/cleanup_coqui_voices.py:89-100 | the walk loop appends exactly the large voice files of the walk |
| CleanupCoquiVoices.FindLargeVoiceFiles | ai_service/cleanup_coqui_voices.py:72-104 | the result is the large voice files under the three search directories that exist |
| CleanupCoquiVoices.SearchLarge | ai_service/cleanup_coqui_voices.py:86-102 | the loop over directories computes the large-file search |
| CleanupCoquiVoices.LargeFilesAreLarge | ai_service/cleanup_coqui_voices.py:95-98 | every entry found is over 10 MB |
| CleanupCoquiVoices.RemoveLargeFiles | ai_service/cleanup_coqui_voices.py:148-155 | the loop computes the removal function; count and freed size are at most the entry count and total |
| CleanupCoquiVoices.ConfirmModelRemoval | ai_service/cleanup_coqui_voices.py:113-124 | no prompt without directories; removal only after "y"; count and freed size are at most the reported count and total; when no reported directory lies beneath another, exactly the present, removable ones are counted with their sizes and exactly their trees disappear |
| CleanupCoquiVoices.ConfirmLargeRemoval | ai_service/cleanup_coqui_voices.py:129-158 | the list is sorted largest first; the top ten and the total are reported; removal in sorted order only after "y"; the shown entries are sorted and come from the list; the counters are bounded |
| CleanupCoquiVoices.CoquiMain | ai_service/cleanup_coqui_voices.py:106-158 | the Coqui phase runs on the original filesystem, the large-file phase on what it left; the counters are bounded, and for a home directory outside /tmp the Coqui removal counts exactly the present, removable places with their sizes; every shown large file is over 10 MB and the shown list is sorted |
| SimpleLoadingTest.SampleRoundTrip | ai_service/simple_loading_test.py:23 | for a 16-bit sample, `sample & 0xFF` and `(sample >> 8) & 0xFF` decode as S16_LE to the sample |
| SimpleLoadingTest.EncodeSpec | ai_service/simple_loading_test.py:20-25 | two bytes per sample, and aplay's S16_LE reading of the bytes gives back the samples when they are in 16-bit range |
| SimpleLoadingTest.GenerateBeep | ai_service/simple_loading_test.py:15-23 | the loop encodes the 22050 wave samples, low byte first |
| SimpleLoadingTest.PlayLoadingSound | ai_service/simple_loading_test.py:10-32 | the buffer is 44100 bytes and decodes to the wave when the wave is in range; the result is aplay's success |

## Left out

- Threads: the `LoadingSoundSystem` thread body is two explicit steps the caller invokes. Three things follow:
  - `join(timeout=1.0)` is not modelled.
  - The race where the thread raises `is_playing` after `stop_loading_sound` checked it is not modelled. `ProcessWithLoading` takes as a parameter how far the cue thread had got when the stop came.
  - A stop lowers the flag but does not end a running aplay.
- `create_loading_sounds` (sox) and the assistant's `_initialize_system`: these only run external tools and print.
- What piper, aplay, sox, wget, pip, `df`, `glob`, `os.walk` and `os.path.getsize` do inside is not modelled; each is an oracle input.
  - A piper run that fails is taken to have written no output file.
  - An `os.walk` that raises is not distinguished from an empty walk.
- Floating point:
  - the sine of the beep, which is a parameter `wave`, with its 16-bit range a hypothesis;
  - the fallback beep's length `int(22050 * duration)`;
  - the MB figures printed by the cleanup scripts;
  - `time.sleep`.
- Printing is left out, and so are the `input("Press Enter ...")` pauses whose reply is ignored.
- Microphone and speech recognition (`listen_for_input`): the recognised inputs are a sequence given to the conversation. A conversation that runs out of inputs is still listening.
- `SpiritualAssistant.RunConversation`: how far each cue thread has got when its `process_with_loading` stops it (not started, running, finished) is a parameter, one per call. A cue thread that is still running is not followed after the stop.
- `SpiritualAssistant.SpiritualAssistant.RunConversation` and `SpiritualAssistant.SpiritualAssistant.TakeTurn`: the filesystem they return is the one `speak_response` left. The spoken default cue's thread body `_play_tts_loading` writes `temp_loading.txt`, renders `temp_loading.wav` with piper, plays it and deletes both (loading_sounds.py:131-149). After an exception in piper or aplay (loading_sounds.py:151) the two files are left behind. These files are not part of the modelled filesystem.
- `test_systems`, the assistant's `main` menu and `test_loading` in simple_loading_test.py: these are interactive drivers with no logic beyond the operations modelled.
- `Common.LowerSpec`: `str.lower` is modelled for ASCII letters only; other characters are kept as they are.
- `Menu.ParseInt`: `int()` is modelled for ASCII whitespace, an optional sign and ASCII digits. Underscores between digits and non-ASCII digits, which Python also accepts, are read as a `ValueError`.
- `os.path.expanduser("~")` is the parameter `home`. A home directory ending in '/' would give different joined paths, and that case is not considered.
- Directory aliasing: two search directories that are the same directory (for example when the script runs in the home directory) are treated as different paths. In cleanup_voice_files.py this means the same file can be listed twice; the model keeps both entries, as the script does, but does not relate their paths.
- list_all_voices.py `main` choice "1" and Voice_output_test.py `main` choices "1" and "2": these download-and-test loops chain `DownloadVoice` and `TestVoice` with an ignored prompt. They are not modelled as loops of their own.
- `list.sort`: Python's sorting algorithm is not modelled. Its guarantees are: descending size, a permutation, and stable order within equal sizes. They are proved about a reference insertion sort, `Listing.SortBySizeDesc`, which stands for it.
- `speak_response` leaves `temp_response.txt` (and, after an aplay failure, the output file) behind when a tool fails. `SpiritualAssistant.Speak` follows the code here, not a design in which speaking always cleans up.
- The "Ryan" filter of list_all_voices.py keeps four of the eight voices (US medium, US low, UK, AU), not three; `ListAllVoices.RyanVoicesOfAll` states four.
- `LoadingSounds.LoadingSoundSystem.ProcessWithLoading`: a cue thread is followed only up to the stop. A thread that had not started finds `is_playing` still False at loading_sounds.py:170, so the stop does nothing; the thread then starts and plays the whole cue after the call returns. A thread already playing keeps its aplay going after the stop, and may finish during `join(timeout=1.0)`. Neither later dispatch is recorded. The record holds dispatches, not what was audible: a spoken cue whose voice model is missing (loading_sounds.py:126-128) is recorded all the same.
- `LoadingSounds.LoadingSoundSystem.ProcessWithLoading`: the show-indicator print and the "Processing complete!" print are left out; any `sound_type` a caller has in mind is ignored, as in the code, because the default cue is always played.
- `Synthesis.SynthesizeAndPlay`: the three voice-test scripts share this step; list_all_voices.py `test_voice` (line 130) catches only `CalledProcessError`. When piper or aplay is not installed, `subprocess.run` raises `FileNotFoundError`, which ends the script and leaves its temp input file behind. That abort is not modelled: a missing tool counts as a tool that failed, so the clean-up stated holds only for runs in which both tools could be started.
- `ListAllVoices.TestVoice`: `test_voice` (list_all_voices.py:130) catches only `CalledProcessError`. When piper or aplay is not installed, `subprocess.run` raises `FileNotFoundError`, which ends the script and leaves `temp_voice_test.txt` behind. That abort is not modelled: a missing tool counts as a tool that failed, so the clean-up stated holds only for runs in which both tools could be started.
- `VoiceOutputTest.TestVoice`: `test_voice` (Voice_output_test.py:90) catches only `CalledProcessError`. When piper or aplay is not installed, `subprocess.run` raises `FileNotFoundError`, which ends the script and leaves `temp_spiritual.txt` behind. That abort is not modelled: a missing tool counts as a tool that failed, so the clean-up stated holds only for runs in which both tools could be started.
- `Piper.TestFromCleanup`: the test loop of piper.py (line 140) catches only `CalledProcessError`. When piper or aplay is not installed, `subprocess.run` raises `FileNotFoundError`, which ends the script and leaves `temp_test.txt` behind. That abort is not modelled: a missing tool counts as a tool that failed, so the clean-up stated holds only for runs in which both tools could be started.
- `DebugVoices.TestSingleVoice`: `test_single_voice` (debug_voices.py:67) catches only `CalledProcessError`. When piper or aplay is not installed, `subprocess.run` raises `FileNotFoundError`, which ends the script and leaves `temp_debug.txt` behind. That abort is not modelled: a missing tool counts as a tool that failed, so the clean-up stated holds only for runs in which both tools could be started.
- `Downloads.FetchAll`: the download loops (list_all_voices.py:81 and 90, Voice_output_test.py:52, piper.py:80) catch only `CalledProcessError`, so a missing wget ends the script with `FileNotFoundError`. That abort is not modelled: a missing wget counts as a failed download.
- `Piper.InstallPiper`: a missing `which` or pip likewise raises `FileNotFoundError` past the `except` at piper.py:23; this abort is not modelled.
- `CleanupCoquiVoices.RemoveTreesExact`: a failed `shutil.rmtree` is taken to remove nothing. In Python, `rmtree` deletes depth first and raises at its first failure, so a tree it could not finish may have lost part of its contents. cleanup_coqui_voices.py:62-68 counts nothing for such a directory, as the model does. The model's `after`, though, keeps the whole tree: the clause "a path disappears exactly when it lies in one of the removed trees" holds only under this all-or-nothing assumption. The same assumption underlies `CleanupCoquiVoices.RemoveTrees` and `CleanupCoquiVoices.RemoveCoquiModels`.
- The Flask application, the `AIManager` supervisor, main.py, voice_recognition.py, audio_output.py and ai_integration.py are not part of this model: their methods are empty stubs.
