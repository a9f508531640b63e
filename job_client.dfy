/** The client side of BSP job control (`org.apache.hama.bsp.BSPJobClient`):
    the task-count clamps applied on submission, the job handle
    `NetworkedJob` with its two-second status cache, the memoised system
    directory, and the argument check of the `hama job` command line. The
    BSP master behind `JobSubmissionProtocol` is a stub whose answers are
    fields, and the clock is a `now` parameter in milliseconds. */
module JobClient {
  import opened Wrappers
  import opened DataIO

  /** How old, in milliseconds, a cached job status may be before the
      methods that tolerate a cached status fetch it again. */
  const MAX_JOBPROFILE_AGE: int := 1000 * 2

  /** Job identifiers are opaque here; their printed form stands for them,
      as in `BSPJobID.forName`. */
  type JobId = string

  /** The run states of a job; the command line prints them as 1 to 4 for
      the first four. */
  datatype RunState = Running | Succeeded | Failed | Prep | Killed

  datatype JobStatus = JobStatus(jobId: JobId, runState: RunState, superstepCount: int, progress: int)

  datatype JobProfile = JobProfile(jobId: JobId, jobName: string, jobFile: string)

  datatype ClientError =
    | NullDereference      // a null profile or status dereferenced
    | CouldNotLaunch   // the master answered a submission with no status

  /** `isComplete`'s test on the run state. */
  predicate FinalState(s: RunState)
  {
    s == Succeeded || s == Failed || s == Killed
  }

  /** `isSuccessful`'s test on the run state. */
  predicate SuccessState(s: RunState)
  {
    s == Succeeded
  }

  /** The life cycle of a job: PREP, then RUNNING, then one of the three
      outcomes; a job may be killed while it is still being prepared. */
  predicate Transition(from: RunState, to: RunState)
  {
    match from
    case Prep => to == Running || to == Killed
    case Running => to == Succeeded || to == Failed || to == Killed
    case _ => false
  }

  /** `isComplete` holds exactly in the states the life cycle cannot leave,
      and a successful job is complete. */
  lemma CompleteIffFinal(s: RunState)
    ensures FinalState(s) <==> forall t: RunState :: !Transition(s, t)
    ensures SuccessState(s) ==> FinalState(s)
  {
    if !FinalState(s) {
      assert Transition(s, Killed);
    }
  }

  /** The task count `submitJobInternal` submits: a count that is not
      positive or exceeds the cluster's task capacity is replaced by that
      capacity. */
  function ClampSubmitTasks(tasks: Int32, maxTasks: Int32): (r: Int32)
    ensures 1 <= tasks <= maxTasks ==> r == tasks
    ensures !(1 <= tasks <= maxTasks) ==> r == maxTasks
  {
    if tasks <= 0 || tasks > maxTasks then maxTasks else tasks
  }

  /** The task count `runJob` sets before submitting: 0, or a count above
      the number of groom servers, becomes that number; negative counts are
      left alone. */
  function ClampRunJobTasks(tasks: Int32, groomServers: Int32): (r: Int32)
    ensures tasks == 0 || tasks > groomServers ==> r == groomServers
    ensures tasks != 0 && tasks <= groomServers ==> r == tasks
  {
    if tasks == 0 || tasks > groomServers then groomServers else tasks
  }

  /** On a cluster with capacity for at least one task, a submitted count
      is always within capacity, and clamping again changes nothing. */
  lemma SubmitClampInRange(tasks: Int32, maxTasks: Int32)
    requires maxTasks >= 1
    ensures 1 <= ClampSubmitTasks(tasks, maxTasks) <= maxTasks
    ensures ClampSubmitTasks(ClampSubmitTasks(tasks, maxTasks), maxTasks) == ClampSubmitTasks(tasks, maxTasks)
  {
  }

  /** `runJob` clamps first by groom servers and then submits: a count
      between 1 and both limits goes through unchanged, a negative count
      survives the first clamp but is replaced by the task capacity, 0
      stands for one task per groom server, and whatever is submitted is
      within capacity. */
  lemma RunJobThenSubmit(tasks: Int32, groomServers: Int32, maxTasks: Int32)
    requires maxTasks >= 1
    ensures var r := ClampSubmitTasks(ClampRunJobTasks(tasks, groomServers), maxTasks);
      && 1 <= r <= maxTasks
      && (1 <= tasks <= groomServers && tasks <= maxTasks ==> r == tasks)
      && (tasks < 0 <= groomServers ==> ClampRunJobTasks(tasks, groomServers) == tasks)
      && (tasks < 0 ==> r == maxTasks)
      && (tasks == 0 ==> r == ClampSubmitTasks(groomServers, maxTasks))
  {
    SubmitClampInRange(ClampRunJobTasks(tasks, groomServers), maxTasks);
  }

  /** The BSP master as `JobSubmissionProtocol` presents it: the statuses
      and profiles it knows, its system directory and cluster figures, the
      answer it gives the next submission, and a record of the calls that
      change or observe it. */
  class JobSubmission {
    var statuses: map<JobId, JobStatus>
    var profiles: map<JobId, JobProfile>
    var submitAnswer: Option<JobStatus>
    const systemDir: string
    const maxTasks: Int32
    const groomServers: Int32
    const newJobId: JobId
    var statusQueries: nat
    var systemDirQueries: nat
    var killed: seq<JobId>
    var submitted: seq<(JobId, string)>

    constructor (statuses: map<JobId, JobStatus>, profiles: map<JobId, JobProfile>,
                 submitAnswer: Option<JobStatus>, systemDir: string,
                 maxTasks: Int32, groomServers: Int32, newJobId: JobId)
      ensures this.statuses == statuses && this.profiles == profiles
      ensures this.submitAnswer == submitAnswer && this.systemDir == systemDir
      ensures this.maxTasks == maxTasks && this.groomServers == groomServers && this.newJobId == newJobId
      ensures statusQueries == 0 && systemDirQueries == 0 && killed == [] && submitted == []
    {
      this.statuses := statuses;
      this.profiles := profiles;
      this.submitAnswer := submitAnswer;
      this.systemDir := systemDir;
      this.maxTasks := maxTasks;
      this.groomServers := groomServers;
      this.newJobId := newJobId;
      statusQueries := 0;
      systemDirQueries := 0;
      killed := [];
      submitted := [];
    }

    /** The profile `getJobProfile` answers for `id`; `None` is null. */
    function ProfileOf(id: JobId): Option<JobProfile>
      reads this
    {
      if id in profiles then Some(profiles[id]) else None
    }

    method GetJobStatus(id: JobId) returns (s: Option<JobStatus>)
      modifies this`statusQueries
      ensures s == (if id in statuses then Some(statuses[id]) else None)
      ensures statusQueries == old(statusQueries) + 1
    {
      s := if id in statuses then Some(statuses[id]) else None;
      statusQueries := statusQueries + 1;
    }

    method GetJobProfile(id: JobId) returns (p: Option<JobProfile>)
      ensures p == (if id in profiles then Some(profiles[id]) else None)
    {
      p := if id in profiles then Some(profiles[id]) else None;
    }

    method GetSystemDir() returns (dir: string)
      modifies this`systemDirQueries
      ensures dir == systemDir && systemDirQueries == old(systemDirQueries) + 1
    {
      dir := systemDir;
      systemDirQueries := systemDirQueries + 1;
    }

    method KillJob(id: JobId)
      modifies this`killed
      ensures killed == old(killed) + [id]
    {
      killed := killed + [id];
    }

    method SubmitJob(id: JobId, jobFile: string) returns (s: Option<JobStatus>)
      modifies this`submitted
      ensures s == submitAnswer && submitted == old(submitted) + [(id, jobFile)]
    {
      s := submitAnswer;
      submitted := submitted + [(id, jobFile)];
    }
  }

  /** The handle of a submitted job. `status` is the last status fetched
      and `statustime` when it was fetched. */
  class NetworkedJob {
    var profile: Option<JobProfile>
    var status: Option<JobStatus>
    var statustime: int
    const server: JobSubmission

    constructor (server: JobSubmission, job: JobStatus, now: int)
      ensures this.server == server && status == Some(job) && statustime == now
      ensures profile == server.ProfileOf(job.jobId)
    {
      var p := server.GetJobProfile(job.jobId);
      this.server := server;
      status := Some(job);
      profile := p;
      statustime := now;
    }

    /** The status is fresh at `now` when it was fetched at most
        `MAX_JOBPROFILE_AGE` milliseconds before. */
    predicate Fresh(now: int)
      reads this
    {
      now - statustime <= MAX_JOBPROFILE_AGE
    }

    /** Fetch the status now; a job without a profile fails on the null
        before anything changes. */
    method UpdateStatus(now: int) returns (r: Result<(), ClientError>)
      modifies this`status, this`statustime, server`statusQueries
      ensures old(profile).None? ==> r == Err(NullDereference) && unchanged(this) && unchanged(server)
      ensures old(profile).Some? ==>
        var id := old(profile).value.jobId;
        && r == Ok(())
        && status == (if id in server.statuses then Some(server.statuses[id]) else None)
        && statustime == now
        && server.statusQueries == old(server.statusQueries) + 1
      ensures old(profile).Some? ==> Fresh(now)
    {
      if profile.None? {
        return Err(NullDereference);
      }
      status := server.GetJobStatus(profile.value.jobId);
      statustime := now;
      return Ok(());
    }

    /** Fetch the status only if the cached one is older than
        `MAX_JOBPROFILE_AGE`; either way, a job with a profile ends up with
        a status that is fresh at `now`. */
    method EnsureFreshStatus(now: int) returns (r: Result<(), ClientError>)
      modifies this`status, this`statustime, server`statusQueries
      ensures !(now - old(statustime) > MAX_JOBPROFILE_AGE) ==> r == Ok(()) && unchanged(this) && unchanged(server)
      ensures now - old(statustime) > MAX_JOBPROFILE_AGE && old(profile).None? ==>
        r == Err(NullDereference) && unchanged(this) && unchanged(server)
      ensures now - old(statustime) > MAX_JOBPROFILE_AGE && old(profile).Some? ==>
        var id := old(profile).value.jobId;
        && r == Ok(())
        && status == (if id in server.statuses then Some(server.statuses[id]) else None)
        && statustime == now
        && server.statusQueries == old(server.statusQueries) + 1
      ensures r.Ok? ==> Fresh(now)
    {
      if now - statustime > MAX_JOBPROFILE_AGE {
        r := UpdateStatus(now);
      } else {
        r := Ok(());
      }
    }

    /** Refresh the status, then report whether the job has reached a final
        state. */
    method IsComplete(now: int) returns (r: Result<bool, ClientError>)
      modifies this`status, this`statustime, server`statusQueries
      ensures old(profile).None? ==> r == Err(NullDereference) && unchanged(this) && unchanged(server)
      ensures old(profile).Some? ==>
        var id := old(profile).value.jobId;
        && statustime == now
        && server.statusQueries == old(server.statusQueries) + 1
        && (id !in server.statuses ==> status == None && r == Err(NullDereference))
        && (id in server.statuses ==>
              status == Some(server.statuses[id]) && r == Ok(FinalState(server.statuses[id].runState)))
    {
      var u := UpdateStatus(now);
      if u.Err? {
        return Err(u.error);
      }
      if status.None? {
        return Err(NullDereference);
      }
      var s := status.value.runState;
      return Ok(s == Succeeded || s == Failed || s == Killed);
    }

    /** Refresh the status, then report whether the job succeeded. */
    method IsSuccessful(now: int) returns (r: Result<bool, ClientError>)
      modifies this`status, this`statustime, server`statusQueries
      ensures old(profile).None? ==> r == Err(NullDereference) && unchanged(this) && unchanged(server)
      ensures old(profile).Some? ==>
        var id := old(profile).value.jobId;
        && statustime == now
        && server.statusQueries == old(server.statusQueries) + 1
        && (id !in server.statuses ==> status == None && r == Err(NullDereference))
        && (id in server.statuses ==>
              status == Some(server.statuses[id]) && r == Ok(SuccessState(server.statuses[id].runState)))
    {
      var u := UpdateStatus(now);
      if u.Err? {
        return Err(u.error);
      }
      if status.None? {
        return Err(NullDereference);
      }
      return Ok(status.value.runState == Succeeded);
    }

    /** Refresh the status, then report the run state. */
    method GetJobState(now: int) returns (r: Result<RunState, ClientError>)
      modifies this`status, this`statustime, server`statusQueries
      ensures old(profile).None? ==> r == Err(NullDereference) && unchanged(this) && unchanged(server)
      ensures old(profile).Some? ==>
        var id := old(profile).value.jobId;
        && statustime == now
        && server.statusQueries == old(server.statusQueries) + 1
        && (id !in server.statuses ==> status == None && r == Err(NullDereference))
        && (id in server.statuses ==> status == Some(server.statuses[id]) && r == Ok(server.statuses[id].runState))
    {
      var u := UpdateStatus(now);
      if u.Err? {
        return Err(u.error);
      }
      if status.None? {
        return Err(NullDereference);
      }
      return Ok(status.value.runState);
    }

    /** The superstep count of a status that is fresh at `now`. */
    method GetSuperstepCount(now: int) returns (r: Result<int, ClientError>)
      modifies this`status, this`statustime, server`statusQueries
      ensures r.Ok? ==> Fresh(now) && status.Some? && r.value == status.value.superstepCount
      ensures !(now - old(statustime) > MAX_JOBPROFILE_AGE) ==>
        && unchanged(this) && unchanged(server)
        && r == (if status.Some? then Ok(status.value.superstepCount) else Err(NullDereference))
      ensures now - old(statustime) > MAX_JOBPROFILE_AGE && old(profile).None? ==>
        r == Err(NullDereference) && unchanged(this) && unchanged(server)
      ensures now - old(statustime) > MAX_JOBPROFILE_AGE && old(profile).Some? ==>
        var id := old(profile).value.jobId;
        && statustime == now
        && server.statusQueries == old(server.statusQueries) + 1
        && (id !in server.statuses ==> status == None && r == Err(NullDereference))
        && (id in server.statuses ==> status == Some(server.statuses[id]) && r == Ok(server.statuses[id].superstepCount))
    {
      var u := EnsureFreshStatus(now);
      if u.Err? {
        return Err(u.error);
      }
      if status.None? {
        return Err(NullDereference);
      }
      return Ok(status.value.superstepCount);
    }

    /** The progress of a status that is fresh at `now`. */
    method Progress(now: int) returns (r: Result<int, ClientError>)
      modifies this`status, this`statustime, server`statusQueries
      ensures r.Ok? ==> Fresh(now) && status.Some? && r.value == status.value.progress
      ensures !(now - old(statustime) > MAX_JOBPROFILE_AGE) ==>
        && unchanged(this) && unchanged(server)
        && r == (if status.Some? then Ok(status.value.progress) else Err(NullDereference))
      ensures now - old(statustime) > MAX_JOBPROFILE_AGE && old(profile).None? ==>
        r == Err(NullDereference) && unchanged(this) && unchanged(server)
      ensures now - old(statustime) > MAX_JOBPROFILE_AGE && old(profile).Some? ==>
        var id := old(profile).value.jobId;
        && statustime == now
        && server.statusQueries == old(server.statusQueries) + 1
        && (id !in server.statuses ==> status == None && r == Err(NullDereference))
        && (id in server.statuses ==> status == Some(server.statuses[id]) && r == Ok(server.statuses[id].progress))
    {
      var u := EnsureFreshStatus(now);
      if u.Err? {
        return Err(u.error);
      }
      if status.None? {
        return Err(NullDereference);
      }
      return Ok(status.value.progress);
    }

    /** Ask the master to kill this job. */
    method KillJob() returns (r: Result<(), ClientError>)
      modifies server`killed
      ensures profile.None? ==> r == Err(NullDereference) && unchanged(server)
      ensures profile.Some? ==> r == Ok(()) && server.killed == old(server.killed) + [profile.value.jobId]
    {
      if profile.None? {
        return Err(NullDereference);
      }
      server.KillJob(profile.value.jobId);
      return Ok(());
    }
  }

  /** The job description the client submits; only its task count matters
      here. */
  class BSPJob {
    var numBspTask: Int32

    constructor (numBspTask: Int32)
      ensures this.numBspTask == numBspTask
    {
      this.numBspTask := numBspTask;
    }
  }

  /** What `run` does after checking its arguments. */
  datatype Command =
    | Usage(cmd: string)       // usage printed, nothing done
    | NotImplemented           // one of the announced but missing commands
    | ListJobs
    | ListAllJobs
    | ListActiveGrooms
    | Submit(jobFile: string)
    | Kill(jobId: JobId)
    | Status(jobId: JobId)
    | NoCommand                // an unknown command: nothing is dispatched

  /** The commands `run` knows. */
  predicate Known(cmd: string)
  {
    cmd == "-list" || cmd == "-list-active-grooms" || cmd == "-submit" || cmd == "-kill" ||
    cmd == "-status" || cmd == "-list-attempt-ids" || cmd == "-kill-task" || cmd == "-fail-task"
  }

  class BSPJobClient {
    const server: JobSubmission
    var sysDir: Option<string>

    constructor (server: JobSubmission)
      ensures this.server == server && sysDir == None
    {
      this.server := server;
      sysDir := None;
    }

    /** The master's system directory, asked for on the first call only. */
    method GetSystemDir() returns (dir: string)
      modifies this`sysDir, server`systemDirQueries
      ensures old(sysDir).Some? ==> dir == old(sysDir).value && unchanged(this) && unchanged(server)
      ensures old(sysDir).None? ==>
        dir == server.systemDir && server.systemDirQueries == old(server.systemDirQueries) + 1
      ensures sysDir == Some(dir)
    {
      if sysDir.None? {
        var d := server.GetSystemDir();
        sysDir := Some(d);
      }
      dir := sysDir.value;
    }

    /** A handle on the job `id`, if the master knows it. */
    method GetJob(id: JobId, now: int) returns (r: Option<NetworkedJob>)
      modifies server`statusQueries
      ensures server.statusQueries == old(server.statusQueries) + 1
      ensures r.None? <==> id !in server.statuses
      ensures r.Some? ==>
        && fresh(r.value) && r.value.server == server
        && r.value.status == Some(server.statuses[id]) && r.value.statustime == now
        && r.value.profile == server.ProfileOf(server.statuses[id].jobId)
    {
      var s := server.GetJobStatus(id);
      if s.None? {
        return None;
      }
      var job := new NetworkedJob(server, s.value, now);
      return Some(job);
    }

    /** Submit `job`: take a new job id and the system directory, clamp the
        task count to the cluster's capacity, and hand the job file to the
        master; no status in reply means the job could not be launched.
        `submitDir` stands for the randomly named submission directory. */
    method SubmitJobInternal(job: BSPJob, submitDir: string, now: int) returns (r: Result<NetworkedJob, ClientError>)
      modifies this`sysDir, server`systemDirQueries, server`submitted, job
      ensures job.numBspTask == ClampSubmitTasks(old(job.numBspTask), server.maxTasks)
      ensures old(sysDir).None? ==>
        sysDir == Some(server.systemDir) && server.systemDirQueries == old(server.systemDirQueries) + 1
      ensures old(sysDir).Some? ==>
        sysDir == old(sysDir) && server.systemDirQueries == old(server.systemDirQueries)
      ensures server.submitted == old(server.submitted) + [(server.newJobId, sysDir.value + "/" + submitDir + "/job.xml")]
      ensures server.submitAnswer.None? ==> r == Err(CouldNotLaunch)
      ensures server.submitAnswer.Some? ==>
        && r.Ok? && fresh(r.value) && r.value.server == server
        && r.value.status == server.submitAnswer && r.value.statustime == now
        && r.value.profile == server.ProfileOf(server.submitAnswer.value.jobId)
    {
      var jobId := server.newJobId;
      var dir := GetSystemDir();
      var submitJobFile := dir + "/" + submitDir + "/job.xml";
      var tasks := job.numBspTask;
      var maxTasks := server.maxTasks;
      if tasks <= 0 || tasks > maxTasks {
        job.numBspTask := maxTasks;
      }
      var status := server.SubmitJob(jobId, submitJobFile);
      if status.None? {
        return Err(CouldNotLaunch);
      }
      var handle := new NetworkedJob(server, status.value, now);
      return Ok(handle);
    }

    /** `runJob` up to the submission: a task count of 0, or one above the
        number of groom servers, becomes that number, and the job is then
        submitted with the submission clamp on top. */
    method RunJob(job: BSPJob, submitDir: string, now: int) returns (r: Result<NetworkedJob, ClientError>)
      modifies this`sysDir, server`systemDirQueries, server`submitted, job
      ensures job.numBspTask == ClampSubmitTasks(ClampRunJobTasks(old(job.numBspTask), server.groomServers), server.maxTasks)
      ensures server.maxTasks >= 1 ==> 1 <= job.numBspTask <= server.maxTasks
      ensures old(sysDir).None? ==>
        sysDir == Some(server.systemDir) && server.systemDirQueries == old(server.systemDirQueries) + 1
      ensures old(sysDir).Some? ==>
        sysDir == old(sysDir) && server.systemDirQueries == old(server.systemDirQueries)
      ensures server.submitted == old(server.submitted) + [(server.newJobId, sysDir.value + "/" + submitDir + "/job.xml")]
      ensures server.submitAnswer.None? ==> r == Err(CouldNotLaunch)
      ensures server.submitAnswer.Some? ==>
        && r.Ok? && fresh(r.value) && r.value.server == server
        && r.value.status == server.submitAnswer && r.value.statustime == now
        && r.value.profile == server.ProfileOf(server.submitAnswer.value.jobId)
    {
      if job.numBspTask == 0 || job.numBspTask > server.groomServers {
        job.numBspTask := server.groomServers;
      }
      if server.maxTasks >= 1 {
        RunJobThenSubmit(old(job.numBspTask), server.groomServers, server.maxTasks);
      }
      r := SubmitJobInternal(job, submitDir, now);
    }

    /** The argument check and dispatch choice of `hama job`. */
    method Run(args: seq<string>) returns (exitCode: int, command: Command)
      ensures |args| == 0 ==> command == Usage("")
      ensures command == ListJobs <==> args == ["-list"]
      ensures command == ListAllJobs <==> args == ["-list", "all"]
      ensures command == ListActiveGrooms <==> args == ["-list-active-grooms"]
      ensures command.Submit? <==> |args| >= 2 && args[0] == "-submit"
      ensures command.Submit? ==> command.jobFile == args[1]
      ensures command.Kill? <==> |args| >= 2 && args[0] == "-kill"
      ensures command.Status? <==> |args| == 2 && args[0] == "-status"
      ensures command.Kill? || command.Status? ==> command.jobId == args[1]
      ensures command.NotImplemented? <==>
        |args| >= 1 && (args[0] == "-list-attempt-ids" || args[0] == "-kill-task" || args[0] == "-fail-task")
      ensures command == NoCommand <==> |args| >= 1 && !Known(args[0])
      ensures command.Usage? ==> command.cmd == (if |args| == 0 then "" else args[0])
      ensures exitCode == (if command.Usage? || command.NotImplemented? then -1 else 0)
    {
      exitCode := -1;
      if |args| < 1 {
        return exitCode, Usage("");
      }
      var cmd := args[0];
      var listJobs, listAllJobs, listActiveGrooms, killJob, submitJob, getStatus := false, false, false, false, false, false;
      var submitJobFile, jobid := "", "";
      if cmd == "-list" {
        if |args| != 1 && !(|args| == 2 && args[1] == "all") {
          return exitCode, Usage(cmd);
        }
        if |args| == 2 && args[1] == "all" {
          listAllJobs := true;
        } else {
          listJobs := true;
        }
      } else if cmd == "-list-active-grooms" {
        if |args| != 1 {
          return exitCode, Usage(cmd);
        }
        listActiveGrooms := true;
      } else if cmd == "-submit" {
        if |args| == 1 {
          return exitCode, Usage(cmd);
        }
        submitJob := true;
        submitJobFile := args[1];
      } else if cmd == "-kill" {
        if |args| == 1 {
          return exitCode, Usage(cmd);
        }
        killJob := true;
        jobid := args[1];
      } else if cmd == "-status" {
        if |args| != 2 {
          return exitCode, Usage(cmd);
        }
        jobid := args[1];
        getStatus := true;
      } else if cmd == "-list-attempt-ids" || cmd == "-kill-task" || cmd == "-fail-task" {
        return exitCode, NotImplemented;
      }
      if listJobs {
        command := ListJobs;
      } else if listAllJobs {
        command := ListAllJobs;
      } else if listActiveGrooms {
        command := ListActiveGrooms;
      } else if submitJob {
        command := Submit(submitJobFile);
      } else if killJob {
        command := Kill(jobid);
      } else if getStatus {
        command := Status(jobid);
      } else {
        command := NoCommand;
      }
      return 0, command;
    }
  }
}
