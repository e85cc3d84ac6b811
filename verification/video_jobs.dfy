/** The detection service (object_detection/app.py): the job table that
    `detect_video`, the background processing task and `get_status` share,
    the temporary, repository and result paths built from a job id and the
    upload's file name, and the guard of `detect_image`. The model, the video
    processing itself and the dataset repository are parameters: how each
    ended. */
module VideoJobs {
  import opened Js
  import opened Text

  const DatasetRepoId := "jeet2004/underwater-video-storage"
  const ResultBase := "https://huggingface.co/datasets/" + DatasetRepoId + "/resolve/main/processed/"

  /** A job's record in the table. */
  datatype JobStatus = Processing | Complete(resultUrl: string) | Failed(error: string)

  // ---------------------------------------------------------------------
  // Paths
  // ---------------------------------------------------------------------

  /** `Path(p).name`: what follows the last `/`, so the whole path when it
      has none. */
  function Name(p: string): (n: string)
    ensures '/' !in n
    ensures |n| <= |p| && n == p[|p| - |n|..]
    ensures |n| == |p| || p[|p| - |n| - 1] == '/'
  {
    match LastIndex(p, '/')
    case None => p
    case Some(i) => p[i + 1..]
  }

  /** The name of a path ending in `/` and a plain name is that name. */
  lemma {:induction false} NameAfterSlash(dir: string, n: string)
    requires '/' !in n
    ensures Name(dir + "/" + n) == n
  {
    var p := dir + "/" + n;
    assert p[|dir|] == '/';
    assert forall k :: |dir| < k < |p| ==> p[k] == n[k - |dir| - 1];
    assert LastIndex(p, '/') == Some(|dir|);
    assert p[|dir| + 1..] == n;
  }

  /** The suffix of a name: from its last `.`, when that `.` is neither its
      first nor its last character; empty otherwise. */
  function Extension(name: string): (ext: string)
    ensures ext == [] || (|ext| >= 2 && ext[0] == '.' && '.' !in ext[1..])
    ensures |ext| <= |name| && ext == name[|name| - |ext|..]
  {
    match LastIndex(name, '.')
    case Some(i) =>
      if 0 < i < |name| - 1 then
        SliceKeepsOut(name, i + 1, '.');
        assert name[i..][1..] == name[i + 1..];
        name[i..]
      else []
    case None => []
  }

  /** `Path(filename).suffix`: the extension of the last path component, so
      a suffix of the file name without `/`. */
  function Suffix(filename: string): (ext: string)
    ensures ext == [] || (|ext| >= 2 && ext[0] == '.' && '.' !in ext[1..])
    ensures '/' !in ext
    ensures |ext| <= |filename| && ext == filename[|filename| - |ext|..]
  {
    var name := Name(filename);
    var ext := Extension(name);
    SuffixOfSuffix(filename, name, ext, '/');
    ext
  }

  /** A suffix of a suffix is a suffix, and lacks what the middle one lacks. */
  lemma {:induction false} SuffixOfSuffix(s: string, m: string, e: string, c: char)
    requires |m| <= |s| && m == s[|s| - |m|..]
    requires |e| <= |m| && e == m[|m| - |e|..]
    ensures e == s[|s| - |e|..]
    ensures c !in m ==> c !in e
  {
    assert forall k :: 0 <= k < |e| ==> e[k] == m[|m| - |e| + k];
  }

  /** Position `i` holds the last `.` of `name`, and it is neither the first
      nor the last character. */
  ghost predicate DotInside(name: string, i: int)
  {
    0 < i < |name| - 1 && name[i] == '.' && '.' !in name[i + 1..]
  }

  /** A name has a suffix exactly when its last `.` lies strictly inside it;
      with the contract of `Extension` this fixes the suffix as the text from
      that `.` on. */
  lemma {:induction false} ExtensionFromLastDot(name: string)
    ensures Extension(name) != [] <==> exists i :: DotInside(name, i)
  {
    match LastIndex(name, '.')
    case None =>
    case Some(j) =>
      if 0 < j < |name| - 1 {
        SliceKeepsOut(name, j + 1, '.');
        assert DotInside(name, j);
      }
  }

  /** The same for a whole file name, over its last component. */
  lemma {:induction false} SuffixFromLastDot(filename: string)
    ensures Suffix(filename) != [] <==> exists i :: DotInside(Name(filename), i)
  {
    ExtensionFromLastDot(Name(filename));
  }

  /** A character missing from a string is missing from each of its
      suffixes; the `.` after the last one is missing from the rest. */
  lemma {:induction false} SliceKeepsOut(s: string, i: nat, c: char)
    requires i <= |s|
    requires forall k :: i <= k < |s| ==> s[k] != c
    ensures c !in s[i..]
  {
  }

  /** Where the upload is written: `/tmp/` + job id + suffix, so a file
      named by the two when they hold no `/`. */
  function LocalTempPath(jobId: string, ext: string): (p: string)
    ensures StartsWith(p, "/tmp/")
    ensures '/' !in jobId + ext ==> Name(p) == jobId + ext
  {
    var n := jobId + ext;
    assert "/tmp/" + jobId + ext == "/tmp" + "/" + n;
    if '/' !in n then NameAfterSlash("/tmp", n); "/tmp/" + jobId + ext
    else "/tmp/" + jobId + ext
  }

  /** Where the upload is stored in the dataset repository: under
      `uploads/`, with the same file name as the local copy. */
  function RepoPath(jobId: string, ext: string): (p: string)
    ensures StartsWith(p, "uploads/")
    ensures '/' !in jobId + ext ==> Name(p) == Name(LocalTempPath(jobId, ext))
  {
    var n := jobId + ext;
    assert "uploads/" + jobId + ext == "uploads" + "/" + n;
    if '/' !in n then NameAfterSlash("uploads", n); "uploads/" + jobId + ext
    else "uploads/" + jobId + ext
  }

  /** The public address of the processed video, which is stored under
      `processed/` + the upload's repository path. */
  function ResultUrl(repoPath: string): (url: string)
    ensures StartsWith(url, ResultBase) && url[|ResultBase|..] == repoPath
  {
    ResultBase + repoPath
  }

  /** Job ids of one length (a UUID's text always has 36 characters) give
      every job its own temporary file, repository path and result address. */
  lemma {:induction false} PathsDistinct(a: string, b: string, extA: string, extB: string)
    requires |a| == |b| && a != b
    ensures LocalTempPath(a, extA) != LocalTempPath(b, extB)
    ensures RepoPath(a, extA) != RepoPath(b, extB)
    ensures ResultUrl(RepoPath(a, extA)) != ResultUrl(RepoPath(b, extB))
  {
    var k :| 0 <= k < |a| && a[k] != b[k];
    assert LocalTempPath(a, extA)[5 + k] == a[k];
    assert LocalTempPath(b, extB)[5 + k] == b[k];
    assert RepoPath(a, extA)[8 + k] == a[k];
    assert RepoPath(b, extB)[8 + k] == b[k];
    assert ResultUrl(RepoPath(a, extA))[|ResultBase| + 8 + k] == a[k];
    assert ResultUrl(RepoPath(b, extB))[|ResultBase| + 8 + k] == b[k];
  }

  /** The background task's output file as the code builds it: `/tmp/` + the
      input's name. */
  function OutputPathAsWritten(localInputPath: string): (out: string)
    ensures StartsWith(out, "/tmp/")
    ensures Name(out) == Name(localInputPath)
  {
    var n := Name(localInputPath);
    assert "/tmp/" + n == "/tmp" + "/" + n;
    NameAfterSlash("/tmp", n);
    "/tmp/" + n
  }

  /** For every job the output file built that way is the input file itself,
      so the video writer truncates the video it is still reading. */
  lemma {:induction false} OutputOverwritesInput(jobId: string, filename: string)
    requires '/' !in jobId
    ensures OutputPathAsWritten(LocalTempPath(jobId, Suffix(filename))) == LocalTempPath(jobId, Suffix(filename))
  {
    var ext := Suffix(filename);
    var n := jobId + ext;
    assert '/' !in n;
    assert LocalTempPath(jobId, ext) == "/tmp/" + n;
    OutputOverwritesName(n);
  }

  /** The same for any plain name under `/tmp/`. */
  lemma {:induction false} OutputOverwritesName(n: string)
    requires '/' !in n
    ensures OutputPathAsWritten("/tmp/" + n) == "/tmp/" + n
  {
    assert "/tmp/" + n == "/tmp" + "/" + n;
    NameAfterSlash("/tmp", n);
  }

  const OutputPrefix := "processed_"

  /** The output file the background task evidently means: a file of its own beside the
      input, `/tmp/processed_` + the input's name. */
  function OutputPath(localInputPath: string): (out: string)
    ensures out != localInputPath
  {
    var n := Name(localInputPath);
    var m := OutputPrefix + n;
    assert '/' !in m by {
      assert forall k :: 0 <= k < |m| ==> m[k] == (if k < |OutputPrefix| then OutputPrefix[k] else n[k - |OutputPrefix|]);
    }
    NameAfterSlash("/tmp", m);
    assert "/tmp/" + m == "/tmp" + "/" + m;
    "/tmp/" + m
  }

  // ---------------------------------------------------------------------
  // The job table
  // ---------------------------------------------------------------------

  /** How writing the upload to `/tmp` and storing it in the dataset
      repository ended. */
  datatype StageOutcome = Staged | StageFailed(error: string)

  /** How the background processing (reading, annotating, writing and
      storing the video) ended. */
  datatype ProcessOutcome = Processed | ProcessFailed(error: string)

  /** The background task `detect_video` schedules. */
  datatype Task = Task(jobId: string, localInputPath: string, repoPath: string)

  /** A JSON reply with its HTTP status. */
  datatype Reply =
    | Started(status: int, message: string, jobId: string)
    | ErrorReply(status: int, error: string)
    | StatusReply(status: int, record: JobStatus)

  /** The background task for a job: its id, and both paths from the upload's suffix. */
  function NewTask(jobId: string, filename: string): (t: Task)
    ensures t.jobId == jobId
    ensures t.localInputPath == LocalTempPath(jobId, Suffix(filename))
    ensures t.repoPath == RepoPath(jobId, Suffix(filename))
  {
    var ext := Suffix(filename);
    Task(jobId, LocalTempPath(jobId, ext), RepoPath(jobId, ext))
  }

  /** `detect_video` as a function of the table before it: the reply, the
      scheduled task (if any) and the table after it. Without the token or
      when staging fails nothing is recorded; otherwise the job is
      `processing`. */
  function DetectVideoSpec(statuses: map<string, JobStatus>, hasToken: bool, jobId: string, filename: string,
                           stage: StageOutcome): (r: (Reply, Option<Task>, map<string, JobStatus>))
    ensures r.1.Some? <==> hasToken && stage.Staged?
    ensures r.1.Some? ==> r.1.value == NewTask(jobId, filename) && r.2 == statuses[jobId := Processing]
    ensures r.1.None? ==> r.2 == statuses
  {
    if !hasToken then (ErrorReply(500, "HF_TOKEN secret not configured."), None, statuses)
    else match stage
      case StageFailed(error) => (ErrorReply(500, error), None, statuses)
      case Staged =>
        (Started(202, "Video processing started.", jobId), Some(NewTask(jobId, filename)), statuses[jobId := Processing])
  }

  /** The record a finished task leaves: the result address, or the error. */
  function Outcome(task: Task, outcome: ProcessOutcome): (s: JobStatus)
    ensures s != Processing
    ensures s.Complete? <==> outcome.Processed?
    ensures s.Complete? ==> s.resultUrl == ResultUrl(task.repoPath)
    ensures s.Failed? ==> s.error == outcome.error
  {
    match outcome
    case Processed => Complete(ResultUrl(task.repoPath))
    case ProcessFailed(error) => Failed(error)
  }

  /** `get_status` as a function of the table. */
  function StatusSpec(statuses: map<string, JobStatus>, jobId: string): (r: Reply)
    ensures jobId !in statuses <==> r == ErrorReply(404, "Job not found.")
    ensures jobId in statuses ==> r == StatusReply(200, statuses[jobId])
  {
    if jobId in statuses then StatusReply(200, statuses[jobId]) else ErrorReply(404, "Job not found.")
  }

  /** A started job is recorded as `processing` and nothing else changes; a
      refused one leaves the table as it was and schedules nothing. */
  lemma {:induction false} DetectVideoEffect(statuses: map<string, JobStatus>, hasToken: bool, jobId: string, filename: string,
                          stage: StageOutcome)
    ensures var (reply, task, after) := DetectVideoSpec(statuses, hasToken, jobId, filename, stage);
      && reply.status in {202, 500}
      && (reply.status == 202 <==> hasToken && stage.Staged?)
      && (reply.status == 202 ==> task == Some(NewTask(jobId, filename)) && after == statuses[jobId := Processing]
                                  && reply.Started? && reply.jobId == jobId)
      && (reply.status == 500 ==> task.None? && after == statuses && reply.ErrorReply?)
      && (forall id :: id != jobId ==> (id in after <==> id in statuses))
      && (forall id :: id in after && id != jobId ==> after[id] == statuses[id])
  {
  }

  /** The whole life of a job whose id was not in use: absent, then
      `processing` once its upload is stored, then exactly one of `complete`
      with the result address of its own upload, or `failed` with the error;
      `get_status` reports each stage. */
  lemma {:induction false} JobLifecycle(statuses: map<string, JobStatus>, jobId: string, filename: string, outcome: ProcessOutcome)
    requires jobId !in statuses
    ensures StatusSpec(statuses, jobId).status == 404
    ensures var (reply, task, started) := DetectVideoSpec(statuses, true, jobId, filename, Staged);
      && StatusSpec(started, jobId) == StatusReply(200, Processing)
      && task.Some?
      && var finished := started[jobId := Outcome(task.value, outcome)];
      && (outcome.Processed? ==>
            StatusSpec(finished, jobId) == StatusReply(200, Complete(ResultUrl(RepoPath(jobId, Suffix(filename))))))
      && (outcome.ProcessFailed? ==>
            StatusSpec(finished, jobId) == StatusReply(200, Failed(outcome.error)))
  {
  }

  /** The table of job records, shared by the endpoints and the background tasks. */
  class JobTable {
    var statuses: map<string, JobStatus>

    constructor()
      ensures statuses == map[]
    {
      statuses := map[];
    }

    /** `detect_video` with a fresh job id; `hasToken` says whether the
        dataset token is configured, `stage` how storing the upload ended. */
    method DetectVideo(hasToken: bool, jobId: string, filename: string, stage: StageOutcome)
      returns (reply: Reply, task: Option<Task>)
      modifies this
      ensures (reply, task, statuses) == DetectVideoSpec(old(statuses), hasToken, jobId, filename, stage)
    {
      if !hasToken {
        return ErrorReply(500, "HF_TOKEN secret not configured."), None;
      }
      var ext := Suffix(filename);
      var localTempPath := LocalTempPath(jobId, ext);
      var repoPath := RepoPath(jobId, ext);
      match stage {
        case StageFailed(error) =>
          return ErrorReply(500, error), None;
        case Staged =>
          statuses := statuses[jobId := Processing];
          return Started(202, "Video processing started.", jobId), Some(Task(jobId, localTempPath, repoPath));
      }
    }

    /** `process_video_in_background`: the job ends `complete` or `failed`,
        and the processed video is written to a file of its own. */
    method ProcessVideoInBackground(task: Task, outcome: ProcessOutcome) returns (outputPath: string)
      modifies this
      ensures statuses == old(statuses)[task.jobId := Outcome(task, outcome)]
      ensures outputPath == OutputPath(task.localInputPath) && outputPath != task.localInputPath
    {
      outputPath := OutputPath(task.localInputPath);
      match outcome {
        case Processed =>
          statuses := statuses[task.jobId := Complete(ResultUrl(task.repoPath))];
        case ProcessFailed(error) =>
          statuses := statuses[task.jobId := Failed(error)];
      }
    }

    /** `get_status`. */
    method GetStatus(jobId: string) returns (reply: Reply)
      ensures reply == StatusSpec(statuses, jobId)
    {
      if jobId !in statuses {
        return ErrorReply(404, "Job not found.");
      }
      return StatusReply(200, statuses[jobId]);
    }
  }

  /** One run of the service for a new job: the status reads `processing`
      between the upload and the end of its background task, then the final record. */
  method RunJob(jobId: string, filename: string, outcome: ProcessOutcome)
    returns (during: Reply, after: Reply)
    ensures during == StatusReply(200, Processing)
    ensures outcome.Processed? ==> after == StatusReply(200, Complete(ResultUrl(RepoPath(jobId, Suffix(filename)))))
    ensures outcome.ProcessFailed? ==> after == StatusReply(200, Failed(outcome.error))
  {
    var table := new JobTable();
    var started, task := table.DetectVideo(true, jobId, filename, Staged);
    during := table.GetStatus(jobId);
    var output := table.ProcessVideoInBackground(task.value, outcome);
    after := table.GetStatus(jobId);
  }

  // ---------------------------------------------------------------------
  // Image detection
  // ---------------------------------------------------------------------

  /** One detection the model reports: class name and box corners (its
      floating-point confidence is not modelled). */
  datatype Detection = Detection(className: string, box: seq<int>)

  datatype ImageReply = ImageReply(status: int, fileRead: bool, detections: seq<Detection>, error: Option<string>)

  /** `detect_image`: without a loaded model, 503 before the upload is read;
      otherwise the model's detections. */
  function DetectImage(modelLoaded: bool, detections: seq<Detection>): (r: ImageReply)
    ensures r.status == 503 <==> !modelLoaded
    ensures !modelLoaded ==> !r.fileRead && r.detections == [] && r.error == Some("Model not loaded.")
    ensures modelLoaded ==> r.status == 200 && r.fileRead && r.detections == detections && r.error.None?
  {
    if !modelLoaded then ImageReply(503, false, [], Some("Model not loaded."))
    else ImageReply(200, true, detections, None)
  }
}
