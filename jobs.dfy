/**
  What both backends (backend/app.py and backend/test_server.py) share: the
  replies their routes send, the place of a job's processed video, and the
  rules by which `check_status` and `download_video` answer from the
  `job_status` dictionary and the files on disk.

  The file system is the set of paths that exist. A reply is the JSON body or
  file a route returns, with its HTTP status where that is not 200.
 */
module JobTable {
  import opened Wrappers
  import opened Paths

  datatype Reply =
    | NoContent                                          // '', 204
    | ErrorReply(code: int, error: string)               // {'error': ...}, code
    | JobAccepted(videoId: string, status: string)       // {'video_id': ..., 'status': ...}
    | StatusReply(status: string)                        // {'status': ...}
    | VideoLocation(videoPath: string, videoUrl: string) // {'video_path': ..., 'video_url': ...}
    | SendFile(path: string, downloadName: string)       // send_file(path, as_attachment=True, ...)

  /**
    An uploaded file part, as werkzeug gives it in `request.files`. Such an
    object is false in a condition when its file name is empty.
   */
  datatype Upload = Upload(filename: string)

  const StatusProcessing: string := "processing"
  const StatusCompleted: string := "completed"

  const UploadFolder: string := "uploads"
  const ProcessedFolder: string := "processed"

  const JobNotFound: Reply := ErrorReply(404, "Job not found")
  const NotCompleted: Reply := ErrorReply(400, "Video processing not completed")
  const ProcessedMissing: Reply := ErrorReply(404, "Processed video not found")
  const MissingFiles: Reply := ErrorReply(400, "Missing video files")

  /** Where the processed video of job `id` is written and looked for. */
  function ProcessedPath(id: string): (p: string)
    ensures id != [] && id[0] != '/' ==> p == "processed/" + id + ".mp4"
  {
    Join(ProcessedFolder, id + ".mp4")
  }

  /** `check_status`: the stored status, unchanged, or 404 for an unknown job. */
  function StatusLookup(jobs: map<string, string>, id: string): (r: Reply)
    ensures r == JobNotFound <==> id !in jobs
    ensures id in jobs ==> r == StatusReply(jobs[id])
  {
    if id !in jobs then JobNotFound else StatusReply(jobs[id])
  }

  /**
    The checks of `download_video`, in their order: the refusal it sends, or
    None when the processed video may be handed out.
   */
  function DownloadRefusal(jobs: map<string, string>, files: set<string>, id: string): (r: Option<Reply>)
    ensures r.None? <==> id in jobs && jobs[id] == StatusCompleted && ProcessedPath(id) in files
    ensures r == Some(JobNotFound) <==> id !in jobs
    ensures r == Some(NotCompleted) <==> id in jobs && jobs[id] != StatusCompleted
    ensures r == Some(ProcessedMissing) <==> id in jobs && jobs[id] == StatusCompleted && ProcessedPath(id) !in files
  {
    if id !in jobs then Some(JobNotFound)
    else if jobs[id] != StatusCompleted then Some(NotCompleted)
    else if ProcessedPath(id) !in files then Some(ProcessedMissing)
    else None
  }

  /**
    The invariant both backends keep: every stored status is one of
    `statuses`, and a job marked "completed" has its processed video on disk.
   */
  predicate Consistent(jobs: map<string, string>, files: set<string>, statuses: set<string>)
  {
    forall id :: id in jobs ==> jobs[id] in statuses && (jobs[id] == StatusCompleted ==> ProcessedPath(id) in files)
  }

  /**
    While the invariant holds, "Processed video not found" is never sent: a
    download is refused exactly when the job is unknown or not completed.
   */
  lemma DownloadNeedsOnlyCompletion(jobs: map<string, string>, files: set<string>, statuses: set<string>, id: string)
    requires Consistent(jobs, files, statuses)
    ensures DownloadRefusal(jobs, files, id).None? <==> id in jobs && jobs[id] == StatusCompleted
    ensures DownloadRefusal(jobs, files, id) != Some(ProcessedMissing)
  {
    if id in jobs && jobs[id] == StatusCompleted {
      assert ProcessedPath(id) in files;
    }
  }
}
