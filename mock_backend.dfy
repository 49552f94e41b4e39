/**
  The stand-in backend (backend/test_server.py): `process_videos` records the
  job before looking at the request, stores the uploads under their own file
  names in a directory of the job, and a background thread marks the job
  "processing" and then, once it has copied the first video as the
  processed one, "completed".

  As in the processing backend, `job_status` and the existing files are
  fields, and the background thread's two steps are separate methods whose
  interleaving with requests is not modelled. The five-second sleep is left
  out.
 */
module MockBackend {
  import opened Wrappers
  import opened Paths
  import opened JobTable

  const StatusUploaded: string := "uploaded"

  /** The values `job_status` ever holds here. */
  const JobStatuses: set<string> := {StatusUploaded, StatusProcessing, StatusCompleted}

  /** The name under which every processed video is downloaded. */
  const DownloadName: string := "processed_video.mp4"

  /** `not first_video or not second_video`: a part is missing or has an empty file name. */
  predicate MissingUpload(first: Option<Upload>, second: Option<Upload>)
    ensures !MissingUpload(first, second) <==>
      first.Some? && second.Some? && first.value.filename != [] && second.value.filename != []
  {
    !IsTrue(first) || !IsTrue(second)
  }

  /**
    Whether the value of `request.files.get(...)` is true in a condition: None
    is false, and a file part is false when its file name is empty.
   */
  predicate IsTrue(u: Option<Upload>)
  {
    match u
    case None => false
    case Some(upload) => upload.filename != []
  }

  /** The directory of a job's uploads: `uploads/<id>`. */
  function JobDir(id: string): string
  {
    Join(UploadFolder, id)
  }

  /** Where an upload is saved: its own file name, joined to the job's directory. */
  function SavedPath(id: string, filename: string): string
  {
    Join(JobDir(id), filename)
  }

  /** A plain file name is saved inside the job's directory and keeps its name there. */
  lemma PlainNameStaysInJobDir(id: string, filename: string)
    requires id != [] && id[0] != '/' && id[|id| - 1] != '/'
    requires filename != [] && forall i :: 0 <= i < |filename| ==> filename[i] != '/'
    ensures SavedPath(id, filename) == "uploads/" + id + "/" + filename
    ensures LastPathComponent(FileUrl(SavedPath(id, filename))) == filename
  {
    assert JobDir(id) == "uploads/" + id;
    assert SavedPath(id, filename) == JobDir(id) + "/" + filename;
    FileInDirectory(JobDir(id), filename);
  }

  /**
    The client's file name is used as it comes: one that starts with '/' is
    saved at that path, outside the uploads directory altogether.
   */
  lemma AbsoluteNameLeavesUploads(id: string, filename: string)
    requires filename != [] && filename[0] == '/'
    ensures SavedPath(id, filename) == filename
    ensures !(|filename| >= 8 && filename[..8] == "uploads/")
  {
  }

  class MockServer {
    /** `job_status`. */
    var jobStatus: map<string, string>
    /** The paths that exist on disk. */
    var files: set<string>

    predicate Valid()
      reads this
    {
      Consistent(jobStatus, files, JobStatuses)
    }

    constructor()
      ensures Valid()
      ensures jobStatus == map[] && files == {}
    {
      jobStatus := map[];
      files := {};
    }

    /**
      `process_videos`: records the new job as "uploaded" first, then refuses a
      request without two named uploads, leaving that entry behind, or saves
      both uploads in the job's directory.
     */
    method ProcessVideos(first: Option<Upload>, second: Option<Upload>, freshId: string)
      returns (reply: Reply)
      requires Valid()
      modifies this
      ensures Valid()
      ensures jobStatus == old(jobStatus)[freshId := StatusUploaded]
      ensures MissingUpload(first, second) ==> reply == MissingFiles && files == old(files)
      ensures !MissingUpload(first, second) ==>
        reply == JobAccepted(freshId, StatusUploaded)
        && files == old(files) + {SavedPath(freshId, first.value.filename),
                                  SavedPath(freshId, second.value.filename)}
    {
      jobStatus := jobStatus[freshId := StatusUploaded];
      if MissingUpload(first, second) {
        return MissingFiles;
      }
      var firstPath := SavedPath(freshId, first.value.filename);
      var secondPath := SavedPath(freshId, second.value.filename);
      files := files + {firstPath};
      files := files + {secondPath};
      reply := JobAccepted(freshId, StatusUploaded);
    }

    /** The background thread's first step: the job is "processing". */
    method BackgroundStart(id: string)
      requires Valid()
      modifies this
      ensures Valid()
      ensures jobStatus == old(jobStatus)[id := StatusProcessing] && files == old(files)
    {
      jobStatus := jobStatus[id := StatusProcessing];
    }

    /**
      The background thread's second step: copy the first upload to the
      processed video and mark the job "completed". When the copy fails the
      thread ends there and the job stays as it was.
     */
    method BackgroundFinish(id: string, firstPath: string)
      requires Valid()
      modifies this
      ensures Valid()
      ensures firstPath in old(files) ==>
        files == old(files) + {ProcessedPath(id)} && jobStatus == old(jobStatus)[id := StatusCompleted]
      ensures firstPath !in old(files) ==> files == old(files) && jobStatus == old(jobStatus)
    {
      var outputPath := ProcessedPath(id);
      if firstPath !in files {
        return;
      }
      files := files + {outputPath};
      jobStatus := jobStatus[id := StatusCompleted];
    }

    /** `check_status`: reads `job_status` and changes nothing. */
    method CheckStatus(id: string) returns (reply: Reply)
      ensures reply == StatusLookup(jobStatus, id)
    {
      reply := StatusLookup(jobStatus, id);
    }

    /** `download_video`: the first refusal that applies, or the processed video as an attachment. */
    method DownloadVideo(id: string) returns (reply: Reply)
      ensures DownloadRefusal(jobStatus, files, id).Some? ==> reply == DownloadRefusal(jobStatus, files, id).value
      ensures DownloadRefusal(jobStatus, files, id).None? ==> reply == SendFile(ProcessedPath(id), DownloadName)
    {
      match DownloadRefusal(jobStatus, files, id)
      case Some(refusal) =>
        reply := refusal;
      case None =>
        reply := SendFile(ProcessedPath(id), DownloadName);
    }
  }

  /**
    A refused upload still leaves a job behind: asking for its status
    afterwards answers "uploaded", not "Job not found".
   */
  method RefusedUploadLeavesJob(server: MockServer, freshId: string) returns (refusal: Reply, status: Reply)
    requires server.Valid()
    modifies server
    ensures refusal == MissingFiles
    ensures status == StatusReply(StatusUploaded)
  {
    refusal := server.ProcessVideos(None, None, freshId);
    status := server.CheckStatus(freshId);
  }
}
