/**
  The job handling of the processing backend (backend/app.py): the upload
  checks of `process_videos`, the `job_status` dictionary and the way
  `process_videosREAL` moves a job through it, and the `check_status` and
  `download_video` routes.

  `job_status` and the set of existing files are fields of `Server`. The
  background thread is the separate method `ProcessVideosReal`; how its steps
  interleave with requests is not modelled. The video processing itself is
  a parameter: whether it raised, and which files it wrote before it
  finished or raised.
 */
module BackendApp {
  import opened Wrappers
  import opened Text
  import opened Paths
  import opened JobTable

  /** `ALLOWED_EXTENSIONS`. */
  const AllowedExtensions: set<string> := {"mp4", "mov"}

  const StatusFailed: string := "failed"

  /** The values `job_status` ever holds. */
  const JobStatuses: set<string> := {StatusProcessing, StatusCompleted, StatusFailed}

  /**
    `allowed_file`: the name has a '.', and the text after the last '.',
    lower-cased, is an allowed extension.
   */
  function AllowedFile(filename: string): (r: bool)
    ensures r <==> exists i :: 0 <= i < |filename| && filename[i] == '.'
                              && (forall j :: i < j < |filename| ==> filename[j] != '.')
                              && Lower(filename[i + 1..]) in AllowedExtensions
  {
    match LastIndexOf(filename, '.')
    case None => false
    case Some(i) => Lower(filename[i + 1..]) in AllowedExtensions
  }

  /** `allowed_file` accepts exactly the names that end in ".mp4" or ".mov", in any case. */
  lemma AllowedFileIsSuffixTest(filename: string)
    ensures AllowedFile(filename) <==>
      |filename| >= 4 && filename[|filename| - 4] == '.'
      && Lower(filename[|filename| - 3..]) in AllowedExtensions
  {
    var n := |filename|;
    match LastIndexOf(filename, '.')
    case None =>
    case Some(i) =>
      if AllowedFile(filename) {
        assert |Lower(filename[i + 1..])| == 3;
      }
      if n >= 4 && filename[n - 4] == '.' && Lower(filename[n - 3..]) in AllowedExtensions {
        var ext := Lower(filename[n - 3..]);
        forall j | n - 4 < j < n
          ensures filename[j] != '.'
        {
          assert ext[j - (n - 3)] == LowerChar(filename[j]);
        }
        assert i == n - 4;
      }
  }

  /** Upper-case extensions are accepted; a name without a dot, or with another extension, is not. */
  lemma AllowedFileExamples()
    ensures AllowedFile("clip.MOV") && AllowedFile("a.b.mp4")
    ensures !AllowedFile("mp4") && !AllowedFile("clip.mp4.txt") && !AllowedFile("clip.")
  {
    AllowedFileIsSuffixTest("clip.MOV");
    assert "clip.MOV"[5..] == "MOV";
    assert Lower("MOV") == "mov";
    AllowedFileIsSuffixTest("a.b.mp4");
    assert "a.b.mp4"[4..] == "mp4";
    assert Lower("mp4") == "mp4";
    AllowedFileIsSuffixTest("mp4");
    AllowedFileIsSuffixTest("clip.mp4.txt");
    assert "clip.mp4.txt"[9..] == "txt";
    assert Lower("txt")[0] == 't';
    AllowedFileIsSuffixTest("clip.");
  }

  /** A request to `/process_videos`. */
  datatype Request = Options | Post(files: map<string, Upload>)

  const NoSelectedFiles: Reply := ErrorReply(400, "No selected files")
  const InvalidFileType: Reply := ErrorReply(400, "Invalid file type")

  /** The upload checks of `process_videos`, in their order: the refusal, or None when both files are accepted. */
  function ValidateUpload(files: map<string, Upload>): (r: Option<Reply>)
    ensures r.None? <==>
      "first_video" in files && "second_video" in files
      && AllowedFile(files["first_video"].filename) && AllowedFile(files["second_video"].filename)
    ensures r == Some(MissingFiles) <==> "first_video" !in files || "second_video" !in files
    ensures r == Some(NoSelectedFiles) <==>
      "first_video" in files && "second_video" in files
      && (files["first_video"].filename == [] || files["second_video"].filename == [])
    ensures r == Some(InvalidFileType) <==>
      "first_video" in files && "second_video" in files
      && files["first_video"].filename != [] && files["second_video"].filename != []
      && !(AllowedFile(files["first_video"].filename) && AllowedFile(files["second_video"].filename))
  {
    if "first_video" !in files || "second_video" !in files then Some(MissingFiles)
    else if files["first_video"].filename == [] || files["second_video"].filename == [] then Some(NoSelectedFiles)
    else if !(AllowedFile(files["first_video"].filename) && AllowedFile(files["second_video"].filename)) then
      Some(InvalidFileType)
    else None
  }

  /** The text of `str(uuid.uuid4())`: 32 lower-case hex digits in groups of 8-4-4-4-12. */
  predicate IsUuidText(s: string)
  {
    |s| == 36
    && forall i :: 0 <= i < 36 ==>
      if i in {8, 13, 18, 23} then s[i] == '-' else s[i] in "0123456789abcdef"
  }

  /**
    Where an accepted upload is stored: `uploads/<id><suffix>`. The name is
    passed through `secure_filename`, which leaves hex digits, '-', '_' and
    '.' as they are, so for a UUID it is the name itself.
   */
  function UploadPath(id: string, suffix: string): (p: string)
    ensures id != [] && id[0] != '/' ==> p == "uploads/" + id + suffix
  {
    Join(UploadFolder, id + suffix)
  }

  /**
    The two uploads of a job are stored at different places in `uploads`,
    named after the job and ending in ".mp4" whatever the uploaded names were.
   */
  lemma UploadPathsOfJob(id: string)
    requires IsUuidText(id)
    ensures UploadPath(id, "_first.mp4") == "uploads/" + id + "_first.mp4"
    ensures UploadPath(id, "_second.mp4") == "uploads/" + id + "_second.mp4"
    ensures UploadPath(id, "_first.mp4") != UploadPath(id, "_second.mp4")
  {
    assert id[0] in "0123456789abcdef";
    var first, second := UploadPath(id, "_first.mp4"), UploadPath(id, "_second.mp4");
    assert first[8 + 36 + 1] == 'f' && second[8 + 36 + 1] == 's';
  }

  class Server {
    /** `job_status`. */
    var jobStatus: map<string, string>
    /** The paths that exist on disk. */
    var files: set<string>

    predicate Valid()
      reads this
    {
      Consistent(jobStatus, files, JobStatuses)
    }

    constructor()
      ensures Valid()
      ensures jobStatus == map[] && files == {}
    {
      jobStatus := map[];
      files := {};
    }

    /**
      `process_videos`: answers OPTIONS with 204; refuses a bad upload without
      touching `job_status`; otherwise stores both files under names made from
      the new id, whatever their own extension, and marks the job
      "processing".
     */
    method ProcessVideos(request: Request, freshId: string) returns (reply: Reply)
      requires Valid() && IsUuidText(freshId)
      modifies this
      ensures Valid()
      ensures request.Options? ==> reply == NoContent && jobStatus == old(jobStatus) && files == old(files)
      ensures request.Post? && ValidateUpload(request.files).Some? ==>
        reply == ValidateUpload(request.files).value
        && jobStatus == old(jobStatus) && files == old(files)
      ensures request.Post? && ValidateUpload(request.files).None? ==>
        reply == JobAccepted(freshId, StatusProcessing)
        && jobStatus == old(jobStatus)[freshId := StatusProcessing]
        && files == old(files) + {UploadPath(freshId, "_first.mp4"), UploadPath(freshId, "_second.mp4")}
    {
      if request.Options? {
        return NoContent;
      }
      var refusal := ValidateUpload(request.files);
      if refusal.Some? {
        return refusal.value;
      }
      var firstPath := UploadPath(freshId, "_first.mp4");
      var secondPath := UploadPath(freshId, "_second.mp4");
      files := files + {firstPath};
      files := files + {secondPath};
      jobStatus := jobStatus[freshId := StatusProcessing];
      reply := JobAccepted(freshId, StatusProcessing);
    }

    /**
      `process_videosREAL`: marks the job "processing", runs the processing,
      and marks it "completed" when the processed video then exists and
      "failed" when it does not or the processing raised.
     */
    method ProcessVideosReal(id: string, raised: bool, written: set<string>)
      requires Valid()
      modifies this
      ensures Valid()
      ensures files == old(files) + written
      ensures jobStatus == old(jobStatus)[id := if !raised && ProcessedPath(id) in files then StatusCompleted
                                                else StatusFailed]
    {
      jobStatus := jobStatus[id := StatusProcessing];
      files := files + written;
      if raised {
        jobStatus := jobStatus[id := StatusFailed];
        return;
      }
      var outputPath := ProcessedPath(id);
      if outputPath !in files {
        jobStatus := jobStatus[id := StatusFailed];
        return;
      }
      jobStatus := jobStatus[id := StatusCompleted];
    }

    /** `check_status`: reads `job_status` and changes nothing. */
    method CheckStatus(id: string) returns (reply: Reply)
      ensures reply == StatusLookup(jobStatus, id)
    {
      reply := StatusLookup(jobStatus, id);
    }

    /** `download_video`: the first refusal that applies, or where to fetch the processed video. */
    method DownloadVideo(id: string) returns (reply: Reply)
      ensures DownloadRefusal(jobStatus, files, id).Some? ==> reply == DownloadRefusal(jobStatus, files, id).value
      ensures DownloadRefusal(jobStatus, files, id).None? ==>
        reply == VideoLocation(ProcessedPath(id), "/video/" + id)
    {
      match DownloadRefusal(jobStatus, files, id)
      case Some(refusal) =>
        reply := refusal;
      case None =>
        reply := VideoLocation(ProcessedPath(id), "/video/" + id);
    }
  }
}
