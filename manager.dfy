/**
  The state of `AudioVideoManager` (AudioVideoManager.swift) that its
  recording, playback and backend methods change: the playback and recording
  flags, the list of saved videos, and the upload and processing flags with
  the error text shown to the user.

  The audio player and the movie file output are objects of their own whose
  state the manager changes through them. The completion handler passed to
  `processVideosWithBackend` is modelled by the list `completions` of the
  calls it received, and `displayProcessedVideo` by the list `displayed` of
  the ids it was called with.
 */
module Manager {
  import opened Wrappers
  import opened Text
  import opened Paths
  import opened Multipart
  import opened StatusPolling

  /** `AVAudioPlayer`, as far as the manager drives it. */
  class AudioPlayer {
    var playing: bool
    var currentTime: real

    constructor()
      ensures !playing && currentTime == 0.0
    {
      playing := false;
      currentTime := 0.0;
    }
  }

  /** `AVCaptureMovieFileOutput`, as far as the manager drives it. */
  class MovieFileOutput {
    var recording: bool
    var destination: Option<FileUrl>

    constructor()
      ensures !recording && destination == None
    {
      recording := false;
      destination := None;
    }
  }

  /** One call of the completion handler: success, and the message passed with it. */
  datatype Completion = Completion(success: bool, message: Option<string>)

  /** The number of status requests `checkProcessingStatus` is called with. */
  const MaxStatusAttempts: int := 30

  /** `loadSavedVideos`'s filter: the URLs whose extension is "mov" or "mp4", exactly, in their order. */
  function VideoFiles(urls: seq<FileUrl>): (r: seq<FileUrl>)
    ensures |r| <= |urls|
    ensures forall u :: u in r <==> u in urls && PathExtension(u) in {"mov", "mp4"}
  {
    if urls == [] then []
    else
      var rest := VideoFiles(urls[..|urls| - 1]);
      var u := urls[|urls| - 1];
      assert urls == urls[..|urls| - 1] + [u];
      if PathExtension(u) == "mov" || PathExtension(u) == "mp4" then rest + [u] else rest
  }

  /** Filtering a listing made of two parts filters each part. */
  lemma {:induction false} VideoFilesAppend(xs: seq<FileUrl>, ys: seq<FileUrl>)
    ensures VideoFiles(xs + ys) == VideoFiles(xs) + VideoFiles(ys)
    decreases |ys|
  {
    if ys == [] {
      assert xs + ys == xs;
    } else {
      var n := |ys| - 1;
      assert (xs + ys)[..|xs + ys| - 1] == xs + ys[..n];
      assert (xs + ys)[|xs + ys| - 1] == ys[n];
      VideoFilesAppend(xs, ys[..n]);
    }
  }

  /** Filtering twice keeps the same videos as filtering once. */
  lemma {:induction false} VideoFilesIdempotent(urls: seq<FileUrl>)
    ensures VideoFiles(VideoFiles(urls)) == VideoFiles(urls)
  {
    if urls != [] {
      var n := |urls| - 1;
      VideoFilesIdempotent(urls[..n]);
      var rest := VideoFiles(urls[..n]);
      if PathExtension(urls[n]) == "mov" || PathExtension(urls[n]) == "mp4" {
        VideoFilesAppend(rest, [urls[n]]);
        assert [urls[n]][..0] == [];
      }
    }
  }

  /** Of two URLs, only the one with a video extension is kept. */
  lemma VideoFilesOfPair(a: FileUrl, b: FileUrl)
    requires PathExtension(a) in {"mov", "mp4"} && PathExtension(b) !in {"mov", "mp4"}
    ensures VideoFiles([a, b]) == [a]
  {
    assert VideoFiles([a]) == [a] by {
      assert [a][..0] == [];
    }
    assert [a, b][..1] == [a] && [a, b][1] == b;
  }

  /**
    The extension test is exact: of `<stem>.mov` and `<stem>.MP4` in one
    directory, the first is kept and the second dropped.
   */
  lemma VideoFilesIsCaseSensitive(dir: string, stem: string)
    requires stem != []
    requires forall i :: 0 <= i < |stem| ==> stem[i] != '/'
    ensures VideoFiles([FileUrl(dir + "/" + stem + "." + "mov"), FileUrl(dir + "/" + stem + "." + "MP4")])
         == [FileUrl(dir + "/" + stem + "." + "mov")]
  {
    ExtensionInDirectory(dir, stem, "mov");
    ExtensionInDirectory(dir, stem, "MP4");
    assert "MP4" !in {"mov", "mp4"} by {
      assert "MP4"[0] != "mov"[0] && "MP4"[0] != "mp4"[0];
    }
    VideoFilesOfPair(FileUrl(dir + "/" + stem + "." + "mov"), FileUrl(dir + "/" + stem + "." + "MP4"));
  }

  class AudioVideoManager {
    var isRecording: bool
    var audioUrl: Option<FileUrl>
    var audioPlayer: AudioPlayer?
    var isAudioPlaying: bool
    var recordedVideos: seq<FileUrl>
    var videoOutput: MovieFileOutput?
    var isUploadingToBackend: bool
    var isProcessingOnBackend: bool
    var backendError: Option<string>
    /** The calls the upload's completion handler received. */
    var completions: seq<Completion>
    /** The ids `displayProcessedVideo` was called with. */
    var displayed: seq<string>

    /** Audio is marked as playing only while there is a player, and recording only while there is an output. */
    predicate Valid()
      reads this
    {
      (isAudioPlaying ==> audioPlayer != null) && (isRecording ==> videoOutput != null)
    }

    /**
      `init`: all flags clear, then `loadSavedVideos` with the listing of the
      videos directory (None when the directory is unavailable or cannot be read).
     */
    constructor(listing: Option<seq<FileUrl>>)
      ensures Valid()
      ensures !isRecording && !isAudioPlaying && !isUploadingToBackend && !isProcessingOnBackend
      ensures audioPlayer == null && videoOutput == null && audioUrl == None && backendError == None
      ensures recordedVideos == if listing.Some? then VideoFiles(listing.value) else []
      ensures completions == [] && displayed == []
    {
      isRecording := false;
      audioUrl := None;
      audioPlayer := null;
      isAudioPlaying := false;
      videoOutput := null;
      isUploadingToBackend := false;
      isProcessingOnBackend := false;
      backendError := None;
      completions := [];
      displayed := [];
      recordedVideos := [];
      if listing.Some? {
        recordedVideos := VideoFiles(listing.value);
      }
    }

    /** `loadSavedVideos`: replaces the list by the directory's videos, or keeps it when listing failed. */
    method LoadSavedVideos(listing: Option<seq<FileUrl>>)
      modifies this`recordedVideos
      ensures recordedVideos == if listing.Some? then VideoFiles(listing.value) else old(recordedVideos)
      ensures isRecording == old(isRecording) && isAudioPlaying == old(isAudioPlaying)
      ensures audioPlayer == old(audioPlayer) && videoOutput == old(videoOutput)
      ensures audioUrl == old(audioUrl) && backendError == old(backendError)
      ensures isUploadingToBackend == old(isUploadingToBackend)
      ensures isProcessingOnBackend == old(isProcessingOnBackend)
      ensures completions == old(completions) && displayed == old(displayed)
    {
      if listing.Some? {
        recordedVideos := VideoFiles(listing.value);
      }
    }

    /**
      `setupCamera`: a new capture session with the front camera and the
      microphone as inputs and a new movie file output, which becomes the
      manager's only when both inputs and the output could be added. Whether
      the devices exist and the session accepts them is given as `inputsAdded`
      and `outputAdded`; the session itself is not modelled.
     */
    method SetupCamera(inputsAdded: bool, outputAdded: bool) returns (ok: bool)
      requires Valid()
      modifies this`videoOutput
      ensures Valid()
      ensures ok <==> inputsAdded && outputAdded
      ensures ok ==> fresh(videoOutput) && !videoOutput.recording && videoOutput.destination == None
      ensures !ok ==> videoOutput == old(videoOutput)
      ensures isRecording == old(isRecording) && isAudioPlaying == old(isAudioPlaying)
      ensures audioPlayer == old(audioPlayer) && recordedVideos == old(recordedVideos)
    {
      if !inputsAdded {
        return false;
      }
      var movieOutput := new MovieFileOutput();
      if !outputAdded {
        return false;
      }
      videoOutput := movieOutput;
      ok := true;
    }

    /**
      `setAudioFile`, with `prepareAudioPlayer`: remembers the URL and, when a
      player can be made for it, replaces the player by a new, stopped one.
     */
    method SetAudioFile(url: FileUrl, playerCreated: bool)
      requires Valid()
      modifies this`audioUrl, this`audioPlayer
      ensures Valid()
      ensures audioUrl == Some(url)
      ensures playerCreated ==> fresh(audioPlayer) && !audioPlayer.playing && audioPlayer.currentTime == 0.0
      ensures !playerCreated ==> audioPlayer == old(audioPlayer)
      ensures isAudioPlaying == old(isAudioPlaying) && isRecording == old(isRecording)
      ensures videoOutput == old(videoOutput) && recordedVideos == old(recordedVideos)
      ensures backendError == old(backendError) && completions == old(completions)
    {
      audioUrl := Some(url);
      if playerCreated {
        var player := new AudioPlayer();
        audioPlayer := player;
      }
    }

    /** `playAudio`: does nothing without a player or while playing; otherwise starts the player. */
    method PlayAudio()
      requires Valid()
      modifies this`isAudioPlaying, audioPlayer
      ensures Valid()
      ensures audioPlayer == old(audioPlayer)
      ensures old(audioPlayer) == null || old(isAudioPlaying) ==>
        isAudioPlaying == old(isAudioPlaying) && (audioPlayer != null ==> unchanged(audioPlayer))
      ensures old(audioPlayer) != null && !old(isAudioPlaying) ==>
        isAudioPlaying && audioPlayer.playing && audioPlayer.currentTime == old(audioPlayer.currentTime)
      ensures isRecording == old(isRecording) && videoOutput == old(videoOutput)
      ensures recordedVideos == old(recordedVideos) && audioUrl == old(audioUrl)
      ensures backendError == old(backendError) && completions == old(completions)
    {
      var player := audioPlayer;
      if player == null || isAudioPlaying {
        return;
      }
      player.playing := true;
      isAudioPlaying := true;
    }

    /** `stopAudio`: does nothing unless playing; otherwise stops the player and rewinds it. */
    method StopAudio()
      requires Valid()
      modifies this`isAudioPlaying, audioPlayer
      ensures Valid()
      ensures audioPlayer == old(audioPlayer)
      ensures old(audioPlayer) == null || !old(isAudioPlaying) ==>
        isAudioPlaying == old(isAudioPlaying) && (audioPlayer != null ==> unchanged(audioPlayer))
      ensures old(audioPlayer) != null && old(isAudioPlaying) ==>
        !isAudioPlaying && !audioPlayer.playing && audioPlayer.currentTime == 0.0
      ensures isRecording == old(isRecording) && videoOutput == old(videoOutput)
      ensures recordedVideos == old(recordedVideos) && audioUrl == old(audioUrl)
      ensures backendError == old(backendError) && completions == old(completions)
    {
      var player := audioPlayer;
      if player == null || !isAudioPlaying {
        return;
      }
      player.playing := false;
      player.currentTime := 0.0;
      isAudioPlaying := false;
    }

    /**
      `startRecording`: does nothing without an output, while recording, or
      without the videos directory; otherwise starts the audio and records to
      `temp_<fileName>` in that directory.
     */
    method StartRecording(videosDirectory: Option<string>, fileName: string)
      requires Valid()
      modifies this`isRecording, this`isAudioPlaying, audioPlayer, videoOutput
      ensures Valid()
      ensures audioPlayer == old(audioPlayer) && videoOutput == old(videoOutput)
      ensures old(videoOutput) == null || old(isRecording) || videosDirectory.None? ==>
        isRecording == old(isRecording) && isAudioPlaying == old(isAudioPlaying)
        && (videoOutput != null ==> unchanged(videoOutput))
        && (audioPlayer != null ==> unchanged(audioPlayer))
      ensures old(videoOutput) != null && !old(isRecording) && videosDirectory.Some? ==>
        isRecording && videoOutput.recording
        && videoOutput.destination == Some(FileUrl(videosDirectory.value + "/temp_" + fileName))
        && (old(audioPlayer) != null && !old(isAudioPlaying) ==>
              isAudioPlaying && audioPlayer.playing && audioPlayer.currentTime == old(audioPlayer.currentTime))
        && (old(audioPlayer) == null || old(isAudioPlaying) ==>
              isAudioPlaying == old(isAudioPlaying) && (audioPlayer != null ==> unchanged(audioPlayer)))
      ensures recordedVideos == old(recordedVideos) && backendError == old(backendError)
    {
      var output := videoOutput;
      if output == null || isRecording {
        return;
      }
      if videosDirectory.None? {
        return;
      }
      var tempFileUrl := FileUrl(videosDirectory.value + "/temp_" + fileName);
      PlayAudio();
      output.recording := true;
      output.destination := Some(tempFileUrl);
      isRecording := true;
    }

    /**
      `stopRecording`: does nothing without an output or unless recording;
      otherwise stops the output and the audio. `isRecording` stays set until
      the recording delegate reports that the file is finished.
     */
    method StopRecording()
      requires Valid()
      modifies this`isAudioPlaying, audioPlayer, videoOutput
      ensures Valid()
      ensures isRecording == old(isRecording)
      ensures audioPlayer == old(audioPlayer) && videoOutput == old(videoOutput)
      ensures old(videoOutput) == null || !old(isRecording) ==>
        isAudioPlaying == old(isAudioPlaying)
        && (videoOutput != null ==> unchanged(videoOutput))
        && (audioPlayer != null ==> unchanged(audioPlayer))
      ensures old(videoOutput) != null && old(isRecording) ==>
        !videoOutput.recording && videoOutput.destination == old(videoOutput.destination)
        && (old(audioPlayer) != null && old(isAudioPlaying) ==>
              !isAudioPlaying && !audioPlayer.playing && audioPlayer.currentTime == 0.0)
        && (old(audioPlayer) == null || !old(isAudioPlaying) ==>
              isAudioPlaying == old(isAudioPlaying) && (audioPlayer != null ==> unchanged(audioPlayer)))
      ensures recordedVideos == old(recordedVideos) && backendError == old(backendError)
    {
      var output := videoOutput;
      if output == null || !isRecording {
        return;
      }
      output.recording := false;
      StopAudio();
    }

    /**
      The recording delegate's callback: recording is over; the finished video,
      if one was saved, joins the list.
     */
    method RecordingFinished(saved: Option<FileUrl>)
      requires Valid()
      modifies this`isRecording, this`recordedVideos
      ensures Valid()
      ensures !isRecording
      ensures recordedVideos == old(recordedVideos) + (if saved.Some? then [saved.value] else [])
      ensures isAudioPlaying == old(isAudioPlaying) && audioPlayer == old(audioPlayer)
      ensures videoOutput == old(videoOutput) && backendError == old(backendError)
    {
      isRecording := false;
      if saved.Some? {
        recordedVideos := recordedVideos + [saved.value];
      }
    }

    /**
      `processVideosWithBackend` up to sending: clears the error, marks the
      upload as running and builds the body with the two videos.
     */
    method ProcessVideosWithBackend(firstVideo: FileUrl, secondVideo: FileUrl, boundary: string,
                                    files: map<FileUrl, seq<byte>>)
      returns (body: seq<byte>)
      requires Valid()
      modifies this`backendError, this`isUploadingToBackend
      ensures Valid()
      ensures backendError == None && isUploadingToBackend
      ensures body == Encode(boundary, FormParts([], [VideoEntry(Some("first_video"), Some(firstVideo)),
                                                      VideoEntry(Some("second_video"), Some(secondVideo))], files))
      ensures isProcessingOnBackend == old(isProcessingOnBackend)
      ensures completions == old(completions) && displayed == old(displayed)
      ensures isRecording == old(isRecording) && isAudioPlaying == old(isAudioPlaying)
      ensures audioPlayer == old(audioPlayer) && videoOutput == old(videoOutput)
      ensures recordedVideos == old(recordedVideos)
    {
      backendError := None;
      isUploadingToBackend := true;
      body := CreateDataBody([], [VideoEntry(Some("first_video"), Some(firstVideo)),
                                  VideoEntry(Some("second_video"), Some(secondVideo))], boundary, files);
    }

    /**
      The upload task's completion: the upload is over; a rejected upload
      reports its error, an accepted one starts processing and polls its status.
      Either way the completion handler is called exactly once.
     */
    method UploadCompleted(response: UploadResponse, statusUrlValid: bool, server: nat -> StatusResponse)
      returns (requests: nat)
      requires Valid()
      modifies this`isUploadingToBackend, this`isProcessingOnBackend, this`backendError, this`completions, this`displayed
      ensures Valid()
      ensures !isUploadingToBackend
      ensures isProcessingOnBackend == (ClassifyUpload(response).Rejected? && old(isProcessingOnBackend))
      ensures |completions| == |old(completions)| + 1
      ensures completions[..|old(completions)|] == old(completions)
      ensures ClassifyUpload(response).Rejected? ==>
        var v := ClassifyUpload(response);
        completions[|completions| - 1] == Completion(false, Some(v.message))
        && backendError == Some(v.backendError) && requests == 0 && displayed == old(displayed)
      ensures ClassifyUpload(response).Accepted? ==>
        var id := ClassifyUpload(response).videoId;
        var (end, n) := Poll(MaxStatusAttempts, statusUrlValid, server);
        requests == n
        && (end == Completed ==>
              completions[|completions| - 1] == Completion(true, None) && displayed == old(displayed) + [id]
              && backendError == old(backendError))
        && (end.Failed? ==>
              completions[|completions| - 1] == Completion(false, Some(end.message))
              && backendError == Some(end.backendError) && displayed == old(displayed))
      ensures isRecording == old(isRecording) && isAudioPlaying == old(isAudioPlaying)
      ensures audioPlayer == old(audioPlayer) && videoOutput == old(videoOutput)
      ensures recordedVideos == old(recordedVideos)
    {
      isUploadingToBackend := false;
      match ClassifyUpload(response)
      case Rejected(error, message) =>
        backendError := Some(error);
        completions := completions + [Completion(false, Some(message))];
        requests := 0;
      case Accepted(videoId) =>
        isProcessingOnBackend := true;
        requests := CheckProcessingStatus(videoId, statusUrlValid, server);
    }

    /**
      `checkProcessingStatus` with its default of 30 attempts: polls, then
      ends processing; success shows the video, failure reports its error.
     */
    method CheckProcessingStatus(videoId: string, statusUrlValid: bool, server: nat -> StatusResponse)
      returns (requests: nat)
      requires Valid()
      modifies this`isProcessingOnBackend, this`backendError, this`completions, this`displayed
      ensures Valid()
      ensures !isProcessingOnBackend
      ensures var (end, n) := Poll(MaxStatusAttempts, statusUrlValid, server);
        requests == n
        && (end == Completed ==>
              completions == old(completions) + [Completion(true, None)]
              && displayed == old(displayed) + [videoId] && backendError == old(backendError))
        && (end.Failed? ==>
              completions == old(completions) + [Completion(false, Some(end.message))]
              && backendError == Some(end.backendError) && displayed == old(displayed))
      ensures isUploadingToBackend == old(isUploadingToBackend)
      ensures isRecording == old(isRecording) && isAudioPlaying == old(isAudioPlaying)
      ensures audioPlayer == old(audioPlayer) && videoOutput == old(videoOutput)
      ensures recordedVideos == old(recordedVideos)
    {
      var end;
      end, requests := PollStatus(MaxStatusAttempts, statusUrlValid, server);
      isProcessingOnBackend := false;
      match end
      case Completed =>
        displayed := displayed + [videoId];
        completions := completions + [Completion(true, None)];
      case Failed(error, message) =>
        backendError := Some(error);
        completions := completions + [Completion(false, Some(message))];
    }
  }
}
