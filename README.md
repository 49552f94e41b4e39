# Recording, uploading and processing two videos

A model of the core of a small system in two parts. An iOS app records a video
while background audio plays. It keeps the list of saved videos. It uploads a
recorded video and a second one to a backend as a multipart form, then polls
the backend for the job's status. The app is the class `AudioVideoManager`. There
are two Flask backends. The processing backend (`backend/app.py`) checks the
upload, stores the files and runs the processing in a thread. The stand-in backend
(`backend/test_server.py`) copies the first video as the result. Both keep a
`job_status` dictionary. Both answer `/status/<id>` and `/download/<id>` from it.

Modules:

- `Wrappers`: the `Option` type.
- `Text`: UTF-8 encoding (RFC 3629) and decimal rendering. It also holds the last index of a character and ASCII lower-casing.
- `Paths`: Foundation's `lastPathComponent` and `pathExtension`, and Python's `os.path.join`.
- `Multipart`: the body that `createDataBody` builds (RFC 7578 and section 5.1.1 of RFC 2046). The method is proved equal to a byte-level specification, and lemmas locate each part and each file's bytes in it.
- `StatusPolling`: the checks of the upload's completion handler. It also holds the status poll of `checkProcessingStatus`, written as a loop and proved equal to a recursive definition.
- `AudioTiling`: the loop of `mergeVideoWithAudio` that repeats the audio under the video.
- `Manager`: the class `AudioVideoManager` with its flags, its player and its movie output. It also covers the saved-video filter and the upload and polling state.
- `JobTable`: the replies and the status and download rules that both backends share. It also holds the invariant they keep: a job marked "completed" has its processed video on disk.
- `BackendApp`: `backend/app.py`, with a `Server` class holding `job_status` and the files on disk.
- `MockBackend`: `backend/test_server.py`, with a `MockServer` class.

Parameters stand in for the outside world:

- file contents are a map from URL to bytes, and a missing key is a read that failed;
- the status server is a function from the request number to its response;
- the listing of the videos directory is an optional sequence;
- whether a player could be made for an audio file is a boolean;
- the new job id is an argument;
- the work of the processing thread is whether it raised and which files it wrote.

A Swift dictionary of parameters is a sequence of pairs in the dictionary's
iteration order. Swift does not fix that order.

Behaviour of the code that the model keeps, where a reader might expect otherwise:

- The status poll never looks at the HTTP status code of a status response. Only the transport error and the JSON body decide it.
- A rejected upload leaves `isProcessingOnBackend` as it was. Only the accepted path sets it.
- `process_videos` in the stand-in backend records the job as "uploaded" before checking the request. A refused request therefore leaves a job behind (`MockBackend.RefusedUploadLeavesJob`).
- The stand-in backend stores uploads under the client's file names. A name that starts with '/' is written outside `uploads` (`MockBackend.AbsoluteNameLeavesUploads`).
- `loadSavedVideos` compares extensions exactly, so "MP4" is not a video (`Manager.VideoFilesIsCaseSensitive`). `allowed_file` lower-cases the extension, so "MOV" is allowed (`BackendApp.AllowedFileExamples`).
- `setAudioFile` replaces the player without resetting `isAudioPlaying`. The flag can say "playing" for a new player that is stopped (`Manager.AudioVideoManager.SetAudioFile`).

## Model

| member | source | states |
|---|---|---|
| `Text.Utf8Char` | VideoAudioApp/VideoAudioApp/AudioVideoManager.swift:332-334 | one character becomes one to four bytes, a single byte exactly for ASCII, and the lead byte tells how many |
| `Text.Utf8CharRoundTrip` | VideoAudioApp/VideoAudioApp/AudioVideoManager.swift:332-334 | decoding the UTF-8 bytes of one character gives that character back |
| `Text.Utf8RoundTrip` | VideoAudioApp/VideoAudioApp/AudioVideoManager.swift:332-334 | decoding the UTF-8 bytes of any text, character by character, gives the text back |
| `Text.Utf8Injective` | VideoAudioApp/VideoAudioApp/AudioVideoManager.swift:332-334 | two different texts never give the same bytes |
| `Text.Utf8Append` | VideoAudioApp/VideoAudioApp/AudioVideoManager.swift:332-334 | encoding joined text is encoding the pieces one after another, as appending them to `Data` does |
| `Text.Utf8Ascii` | VideoAudioApp/VideoAudioApp/AudioVideoManager.swift:358 | ASCII text such as the delimiter lines becomes one byte per character, that character's code |
| `Text.DigitsRoundTrip` | VideoAudioApp/VideoAudioApp/AudioVideoManager.swift:177 | the decimal rendering of a status code reads back as that code |
| `Text.LastIndexOf` | backend/app.py:40 | the split point of `rsplit('.', 1)`: an index holding the character with none after it, or None when the character does not occur |
| `Paths.LastPathComponent` | VideoAudioApp/VideoAudioApp/AudioVideoManager.swift:340 | the file name sent for a video has no '/' in it (unless it is the root "/"), and is non-empty for a non-empty path |
| `Paths.PathExtension` | VideoAudioApp/VideoAudioApp/AudioVideoManager.swift:71 | the extension holds neither '.' nor '/'; a name whose only '.' is its first character has none |
| `Paths.FileInDirectory` | VideoAudioApp/VideoAudioApp/AudioVideoManager.swift:339-340 | a file named `name` in a directory has `name` as its last path component |
| `Paths.ExtensionInDirectory` | VideoAudioApp/VideoAudioApp/AudioVideoManager.swift:71 | a file `stem.ext` with a non-empty stem in a directory has the extension `ext` |
| `Paths.HiddenFileHasNoExtension` | VideoAudioApp/VideoAudioApp/AudioVideoManager.swift:71 | a file `.ext` in a directory has no extension, so a file named ".mov" is not a saved video |
| `Paths.Join` | backend/app.py:254 | `os.path.join`: an absolute second part replaces the first; otherwise the result is the first part, then a '/' exactly when the first part is non-empty and does not already end in '/', then the second part |
| `Multipart.FieldStep` | VideoAudioApp/VideoAudioApp/AudioVideoManager.swift:331-334 | one round of the parameter loop appends exactly the bytes of that field's part |
| `Multipart.EntryStep` | VideoAudioApp/VideoAudioApp/AudioVideoManager.swift:338-355 | one round of the video loop appends the delimiter, the disposition with the URL's file name and the "video/mp4" type; the file's bytes and CRLF follow only when the file could be read |
| `Multipart.SkippedEntryStep` | VideoAudioApp/VideoAudioApp/AudioVideoManager.swift:339 | an entry without a String name or a URL adds no part |
| `Multipart.CreateDataBody` | VideoAudioApp/VideoAudioApp/AudioVideoManager.swift:327-361 | the body is the encoding of the field parts, then the file parts of the complete entries in order, then the close delimiter |
| `Multipart.EmptyFormIsCloseDelimiter` | VideoAudioApp/VideoAudioApp/AudioVideoManager.swift:358 | with no parameters and no videos the body is `--<boundary>--` and CRLF alone |
| `Multipart.CompleteEntriesAreFileParts` | VideoAudioApp/VideoAudioApp/AudioVideoManager.swift:338-350 | entries that all have a name and a URL give one file part each, in order, with the entry's name, the URL's last component, "video/mp4" and the file's contents if readable |
| `Multipart.UploadBodyShape` | VideoAudioApp/VideoAudioApp/AudioVideoManager.swift:148-155 | the upload body is a "first_video" part, then a "second_video" part, then the close delimiter |
| `Multipart.ReadFailureIsLocal` | VideoAudioApp/VideoAudioApp/AudioVideoManager.swift:347-353 | a file that cannot be read still has its headers in the body; the other parts are unaffected |
| `Multipart.PartAtOffset` | VideoAudioApp/VideoAudioApp/AudioVideoManager.swift:331-358 | each part's bytes lie in the body at the sum of the lengths of the parts before it |
| `Multipart.FieldValueAtOffset` | VideoAudioApp/VideoAudioApp/AudioVideoManager.swift:331-333 | a field's value starts in the body right after its part's delimiter and disposition header, and the bytes there decode back to the value |
| `Multipart.NameAtOffset` | VideoAudioApp/VideoAudioApp/AudioVideoManager.swift:331-344 | every part's name, field or file, starts in the body right after its delimiter and the 38 bytes of `Content-Disposition: form-data; name="`, and the bytes there decode back to the name |
| `Multipart.FileContentAtOffset` | VideoAudioApp/VideoAudioApp/AudioVideoManager.swift:347-350 | a readable file's bytes appear unchanged in the body right after its part's headers |
| `StatusPolling.StringField` | VideoAudioApp/VideoAudioApp/AudioVideoManager.swift:189-190 | `json[key] as? String` yields a value exactly when the body is an object holding a String under that key |
| `StatusPolling.ClassifyUpload` | VideoAudioApp/VideoAudioApp/AudioVideoManager.swift:161-200 | an upload is accepted exactly when there is no transport error, the status is 200 and the body is an object with a String `video_id`; polling then uses that id; other than for a transport error, the stored error and the reported message are the same text |
| `StatusPolling.UploadCheckOrder` | VideoAudioApp/VideoAudioApp/AudioVideoManager.swift:164-186 | each check wins over all later ones: a transport error whatever else came back, then a response that is not HTTP, then a non-200 code (which reads back from "Server error: <code>"), then no data at all (`data == nil`); an empty body is unparseable data, not a missing one |
| `StatusPolling.Read` | VideoAudioApp/VideoAudioApp/AudioVideoManager.swift:227-302 | a status response ends the poll exactly when it is a parsed object whose `status` is "completed" (success) or "failed" ("Processing failed on server"); every other response is retried |
| `StatusPolling.OtherStatusRetries` | VideoAudioApp/VideoAudioApp/AudioVideoManager.swift:276-288 | any status other than "completed" and "failed" is retried and, at the last attempt, times out |
| `StatusPolling.Cap` | VideoAudioApp/VideoAudioApp/AudioVideoManager.swift:212-213 | the number of requests the poll can send is exactly the larger of `maxAttempts` and 1: one even when `maxAttempts` is below 1, because the count is checked after the first request |
| `StatusPolling.PollFrom` | VideoAudioApp/VideoAudioApp/AudioVideoManager.swift:212-320 | after `sent` retried requests the poll sends at least one more request and never more than the cap |
| `StatusPolling.Poll` | VideoAudioApp/VideoAudioApp/AudioVideoManager.swift:212-222 | a valid status URL means between one request and the cap; an invalid one ends with "Invalid status URL" after none |
| `StatusPolling.PollStatus` | VideoAudioApp/VideoAudioApp/AudioVideoManager.swift:208-324 | the attempt loop ends with the outcome and request count of the recursive definition `Poll` |
| `StatusPolling.PollFromTrace` | VideoAudioApp/VideoAudioApp/AudioVideoManager.swift:227-302 | every response before the last asked for a retry; the last is final or came when no attempts remained, and it decides the outcome |
| `StatusPolling.PollTrace` | VideoAudioApp/VideoAudioApp/AudioVideoManager.swift:208-324 | the same, for the whole poll from the first request |
| `StatusPolling.FirstFinalResponseDecides` | VideoAudioApp/VideoAudioApp/AudioVideoManager.swift:263-275 | the first "completed" or "failed" response ends the poll with its outcome after exactly that many requests |
| `StatusPolling.AllRetriesExhaustAttempts` | VideoAudioApp/VideoAudioApp/AudioVideoManager.swift:229-232 | when every allowed response asks for a retry, all allowed requests are sent and the last response's failure is reported |
| `StatusPolling.PollFromReadsWithinCap` | VideoAudioApp/VideoAudioApp/AudioVideoManager.swift:208-324 | the outcome depends only on the responses to the allowed requests |
| `StatusPolling.CompletesAfterProcessing` | VideoAudioApp/VideoAudioApp/AudioVideoManager.swift:263-288 | `k` "processing" answers followed by "completed" give success after `k + 1` requests |
| `StatusPolling.FailedFirstIsNotRetried` | VideoAudioApp/VideoAudioApp/AudioVideoManager.swift:270-275 | "failed" at the first request ends the poll with "Processing failed on server" after one request |
| `StatusPolling.AlwaysProcessingTimesOut` | VideoAudioApp/VideoAudioApp/AudioVideoManager.swift:276-282 | a job that stays "processing" ends with "Processing timed out" after the maximum number of requests |
| `StatusPolling.UnreachableServerGivesUp` | VideoAudioApp/VideoAudioApp/AudioVideoManager.swift:227-238 | a server that always fails to answer is tried the maximum number of times; the reason is then reported, prefixed by "Status check failed: " in the stored error |
| `AudioTiling.TileAudio` | VideoAudioApp/VideoAudioApp/AudioVideoManager.swift:660-668 | the loop inserts exactly the segments of the tiling and stops with the audio time at the end of the video (at 0 for an empty video) |
| `AudioTiling.TilingEnds` | VideoAudioApp/VideoAudioApp/AudioVideoManager.swift:663-667 | the tiling is empty exactly when the start is at or past the video's end; otherwise it starts there and its last segment ends at the video's end |
| `AudioTiling.TilingSegmentLengths` | VideoAudioApp/VideoAudioApp/AudioVideoManager.swift:664 | every segment is the shorter of the audio and the rest of the video, so it is non-empty and no longer than the audio |
| `AudioTiling.TilingContiguous` | VideoAudioApp/VideoAudioApp/AudioVideoManager.swift:664-667 | each segment starts where the previous one ended, and all but the last are whole copies of the audio |
| `AudioTiling.TilingCount` | VideoAudioApp/VideoAudioApp/AudioVideoManager.swift:663-668 | the audio is inserted ceil(rest of the video / audio length) times |
| `AudioTiling.EmptyAudioNeverFinishes` | VideoAudioApp/VideoAudioApp/AudioVideoManager.swift:661-667 | with an audio track of length zero and a non-empty video, the loop condition still holds after any number of rounds |
| `AudioTiling.TileAudioGuarded` | VideoAudioApp/VideoAudioApp/AudioVideoManager.swift:660-668 | the corrected loop ends on every input, adds nothing for empty audio, and otherwise gives the tiling |
| `JobTable.ProcessedPath` | backend/app.py:254 | the processed video of job `id` is `processed/<id>.mp4` |
| `JobTable.StatusLookup` | backend/app.py:240-244 | `check_status` answers 404 "Job not found" exactly for an unknown job and otherwise the stored status unchanged |
| `JobTable.DownloadRefusal` | backend/app.py:247-257 | each download refusal is sent exactly when its check is the first to fail: unknown job, then not completed, then no processed video; none is sent exactly when the job is completed and its video exists |
| `JobTable.DownloadNeedsOnlyCompletion` | backend/app.py:187-194 | while every "completed" job has its video on disk, "Processed video not found" is never sent and a download succeeds exactly for completed jobs |
| `BackendApp.AllowedFile` | backend/app.py:39-40 | `allowed_file` is true exactly when the name holds a '.' and the text after the last '.', lower-cased, is "mp4" or "mov" |
| `BackendApp.AllowedFileIsSuffixTest` | backend/app.py:39-40 | `allowed_file` accepts exactly the names ending in '.' and "mp4" or "mov" in any letter case |
| `BackendApp.AllowedFileExamples` | backend/app.py:39-40 | "clip.MOV" and "a.b.mp4" are accepted; "mp4", "clip.mp4.txt" and "clip." are not |
| `BackendApp.ValidateUpload` | backend/app.py:209-219 | both files are accepted exactly when both parts are present and both names are allowed; "Missing video files" exactly when a part is absent; "No selected files" exactly when both are present and a name is empty; "Invalid file type" exactly when both names are non-empty and one of them is not allowed |
| `BackendApp.UploadPath` | backend/app.py:223-228 | an upload is stored at `os.path.join("uploads", <id><suffix>)`, which is `uploads/<id><suffix>` for an id that is non-empty and does not start with '/' |
| `BackendApp.UploadPathsOfJob` | backend/app.py:222-228 | a job's two uploads are stored at `uploads/<id>_first.mp4` and `uploads/<id>_second.mp4`, which differ |
| `BackendApp.Server.constructor` | backend/app.py:37 | the server starts with no jobs and no files, which satisfies the invariant |
| `BackendApp.Server.ProcessVideos` | backend/app.py:205-237 | OPTIONS gets 204; a refused upload changes nothing; an accepted one stores both files under the job's names, marks the job "processing" and keeps the invariant; nothing else changes |
| `BackendApp.Server.ProcessVideosReal` | backend/app.py:42-202 | the files written by the processing stay on disk whether or not it raised; the job ends "completed" exactly when the processing did not raise and the processed video exists, and "failed" otherwise, keeping the invariant |
| `BackendApp.Server.CheckStatus` | backend/app.py:240-244 | the reply is the status lookup, and nothing changes |
| `BackendApp.Server.DownloadVideo` | backend/app.py:247-263 | the first refusal that applies, or the processed video's path and its `/video/<id>` URL |
| `MockBackend.MissingUpload` | backend/test_server.py:35-38 | `not first_video or not second_video` holds exactly unless both parts are present with non-empty file names |
| `MockBackend.PlainNameStaysInJobDir` | backend/test_server.py:42-47 | an upload with a plain file name is saved at `uploads/<id>/<name>` and keeps its name |
| `MockBackend.AbsoluteNameLeavesUploads` | backend/test_server.py:46-47 | an upload whose name starts with '/' is saved at that path, outside `uploads` |
| `MockBackend.MockServer.constructor` | backend/test_server.py:11 | the stand-in server starts with no jobs and no files |
| `MockBackend.MockServer.ProcessVideos` | backend/test_server.py:28-68 | the job is "uploaded" whatever follows; a missing or unnamed upload is refused with no file saved; otherwise each is saved at `os.path.join(uploads/<id>, name)` under its own file name |
| `MockBackend.MockServer.BackgroundStart` | backend/test_server.py:53-56 | the background thread first marks the job "processing" |
| `MockBackend.MockServer.BackgroundFinish` | backend/test_server.py:58-63 | copying the first upload creates the processed video and marks the job "completed"; a failed copy changes nothing; the invariant is kept |
| `MockBackend.MockServer.CheckStatus` | backend/test_server.py:71-76 | the reply is the status lookup, and nothing changes |
| `MockBackend.MockServer.DownloadVideo` | backend/test_server.py:79-92 | the first refusal that applies, or the processed video as an attachment named "processed_video.mp4" |
| `MockBackend.RefusedUploadLeavesJob` | backend/test_server.py:31-39 | a refused upload is answered "Missing video files", yet the status of its id is then "uploaded" |
| `Manager.VideoFiles` | VideoAudioApp/VideoAudioApp/AudioVideoManager.swift:71 | the saved videos are exactly the listed URLs whose extension is "mov" or "mp4", and there are no more of them than listed URLs |
| `Manager.VideoFilesAppend` | VideoAudioApp/VideoAudioApp/AudioVideoManager.swift:71 | filtering a listing in two parts filters each part, so the order is kept |
| `Manager.VideoFilesIdempotent` | VideoAudioApp/VideoAudioApp/AudioVideoManager.swift:71 | filtering the saved videos again keeps all of them |
| `Manager.VideoFilesIsCaseSensitive` | VideoAudioApp/VideoAudioApp/AudioVideoManager.swift:71 | of `<stem>.mov` and `<stem>.MP4`, with a non-empty stem, only the first is kept |
| `Manager.AudioVideoManager.constructor` | VideoAudioApp/VideoAudioApp/AudioVideoManager.swift:10-50 | all flags start clear, with no player and no output, and the saved videos are the filtered listing |
| `Manager.AudioVideoManager.SetupCamera` | VideoAudioApp/VideoAudioApp/AudioVideoManager.swift:418-476 | succeeds exactly when both inputs and the output could be added; then a new, idle movie output replaces the old one; otherwise the output is kept; the recording, audio and video-list state is not touched |
| `Manager.AudioVideoManager.LoadSavedVideos` | VideoAudioApp/VideoAudioApp/AudioVideoManager.swift:66-75 | the saved videos become the filtered listing; a failed listing keeps the old list; nothing else changes |
| `Manager.AudioVideoManager.SetAudioFile` | VideoAudioApp/VideoAudioApp/AudioVideoManager.swift:495-510 | the URL is stored; a player that can be made replaces the old one and is stopped; the new player is stopped at time 0; the playing flag and every other field are not touched |
| `Manager.AudioVideoManager.PlayAudio` | VideoAudioApp/VideoAudioApp/AudioVideoManager.swift:512-517 | without a player or while playing nothing changes; otherwise the player plays from where it was and the flag is set; no other field changes |
| `Manager.AudioVideoManager.StopAudio` | VideoAudioApp/VideoAudioApp/AudioVideoManager.swift:519-525 | unless playing nothing changes; otherwise the player stops, rewinds to 0 and the flag clears; no other field changes |
| `Manager.AudioVideoManager.StartRecording` | VideoAudioApp/VideoAudioApp/AudioVideoManager.swift:529-600 | without an output, while recording or without the directory nothing changes; otherwise the audio starts as `playAudio` would and the output records to `temp_<name>` in the videos directory; no other field changes |
| `Manager.AudioVideoManager.StopRecording` | VideoAudioApp/VideoAudioApp/AudioVideoManager.swift:602-607 | unless recording with an output nothing changes; otherwise the output stops and the audio stops as `stopAudio` would, while `isRecording` stays set; no other field changes |
| `Manager.AudioVideoManager.RecordingFinished` | VideoAudioApp/VideoAudioApp/AudioVideoManager.swift:541-595 | recording is over; the saved video, if any, is appended to the list; no other field changes |
| `Manager.AudioVideoManager.ProcessVideosWithBackend` | VideoAudioApp/VideoAudioApp/AudioVideoManager.swift:103-155 | the error is cleared, the upload is marked running and the body holds the two videos as "first_video" and "second_video"; the processing flag, the audio state and the handler log are not touched |
| `Manager.AudioVideoManager.UploadCompleted` | VideoAudioApp/VideoAudioApp/AudioVideoManager.swift:158-202 | the upload is over and the handler is called exactly once: a rejection reports its error with no status request; an acceptance polls and reports the poll's outcome; the audio and recording state is not touched |
| `Manager.AudioVideoManager.CheckProcessingStatus` | VideoAudioApp/VideoAudioApp/AudioVideoManager.swift:208-324 | polls at most 30 times, ends processing, and either shows the video and reports success or stores and reports the poll's failure; the upload flag, the audio and recording state are not touched |

## Left out

- The capture session of `setupCamera` (its preset, devices, connection orientation and mirroring, and starting it): `Manager.AudioVideoManager.SetupCamera` takes whether the inputs and the output could be added as parameters.
- The preview layer, thumbnails, saving to the photo library, the document picker and the choice of the second video: these are platform UI and I/O with no logic to prove.
- The export session and the rest of `mergeVideoWithAudio`, the direct-copy fallback, and the choice between the merged and the moved file after recording. `RecordingFinished` takes the saved file as a parameter.
- The URL session configuration, upload progress, the session delegate callbacks, `downloadProcessedVideo`, `displayProcessedVideo` and `checkVideoStatus`: these are networking only. A call of `displayProcessedVideo` is recorded as its id.
- The "Invalid backend URL" branch of `processVideosWithBackend`: the URL is a constant that always parses, so the branch cannot be taken.
- The two-second pause between status requests, the dispatch queues and the weak self references. Only the order of requests and responses is modelled.
- The time-stamped file name of `startRecording`: it comes from the clock, so it is a parameter.
- Flask routing, CORS, `/video/<id>`, `/`, `/test`, and creating directories: these are framework and file-system plumbing.
- The keypoint extraction, comparison and clip cutting inside `process_videosREAL` (MediaPipe, OpenCV, ffmpeg). The processing is a parameter: whether it raised and which files it wrote before it finished or raised.
- `secure_filename` is modelled only for UUID text, where it changes nothing (`BackendApp.UploadPath`).
- Python's `str.lower` is modelled as ASCII lower-casing. A name whose extension lower-cases to "mp4" or "mov" has an ASCII extension, so the test is the same.
- The interleaving of the background threads with requests. The thread steps are separate methods, and any interleaving of them with requests keeps the invariant.
- The five-second sleep of the stand-in backend's thread.
- `MockBackend.MockServer.ProcessVideos` and `BackendApp.Server.ProcessVideos`: saving an upload is assumed to succeed. When `save` raises (backend/test_server.py:49-50, backend/app.py:229-230) the request ends with a server error, for instance in the stand-in backend for a client file name such as "a/b.mov" whose directory does not exist; the model answers as if the files had been saved.
- `Multipart.PartAtOffset`: only positional recovery is claimed. The body is not parsed back by splitting on the boundary, because a file's bytes may themselves contain the delimiter. Part names and field values are read back at their offsets (`Multipart.NameAtOffset`, `Multipart.FieldValueAtOffset`); file names are not.
- `Manager.AudioVideoManager.RecordingFinished`: the callback also sets `isProcessingVideo` while it merges and `selectedVideoURL` to the resulting file. These belong to the merge and the preview, which are not part of this model, so the class has neither field.
- `CMTime` is modelled as integer ticks, without timescales or rounding.
- `AudioTiling.TileAudio`: every `insertTimeRange` is assumed to succeed. A throw goes to the direct-copy fallback, which is not part of this model.
- `AudioTiling.TileAudio`: it requires the audio to have a length whenever the video has one. Without that the loop as written does not end (see Findings). `AudioTiling.TileAudioGuarded` covers every input.

## Findings

| source | as written | input that shows it | evidently intended | confidence | as-written member | corrected member |
|---|---|---|---|---|---|---|
| VideoAudioApp/VideoAudioApp/AudioVideoManager.swift:660-668 | the audio loop advances by `min(rest of video, audio duration)` with no check that the audio has a length | an audio track of duration 0 under a video of positive duration: if `insertTimeRange` (line 666) accepts the empty range without throwing, the audio time stays at 0 and the loop never ends; if it throws, the catch at line 704 runs the direct-copy fallback instead | an empty audio track is not laid under the video | not executed | `AudioTiling.EmptyAudioNeverFinishes` | `AudioTiling.TileAudioGuarded` |
