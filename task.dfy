/** The identity part of a BSP task (`org.apache.hama.bsp.Task`): the job it
    belongs to, the job file, its attempt id and its partition, and the
    Writable layout those four fields are stored in. The encoders of the job
    id, of Hadoop `Text` strings and of the attempt id are not part of this
    model; they are parameters, and every property below holds for any
    encoders that are `Sound`. */
module BspTask {
  import opened Wrappers
  import opened DataIO

  /** The value of a task's four Writable fields; `jobFile` is `None` while
      the no-argument constructor's null is in place. */
  datatype TaskFields<J, A> = TaskFields(jobId: J, jobFile: Option<string>, taskId: A, partition: Int32)

  /** The encoders of `BSPJobID`, of `Text` strings and of `TaskAttemptID`. */
  datatype TaskCodecs<!J, !A> = TaskCodecs(job: Codec<J>, text: Codec<string>, attempt: Codec<A>)

  ghost predicate SoundCodecs<J(!new), A(!new)>(cs: TaskCodecs<J, A>)
  {
    Sound(cs.job) && Sound(cs.text) && Sound(cs.attempt)
  }

  datatype TaskError =
    | NullJobFile   // `Text.writeString` on a null job file
    | ReadFailed    // the `IOException` of a truncated or malformed record

  /** The bytes `write` emits: the job id, the job file, the attempt id and
      the partition as a 4-byte int. With a null job file the write stops
      with a null dereference right after the job id. */
  function TaskBytes<J, A>(cs: TaskCodecs<J, A>, f: TaskFields<J, A>): seq<Byte>
  {
    cs.job.write(f.jobId) +
      match f.jobFile
      case None => []
      case Some(file) => cs.text.write(file) + cs.attempt.write(f.taskId) + EncodeInt32(f.partition)
  }

  /** The fields after `readFields`, what is left of the stream, and whether
      all four fields were read. */
  datatype TaskRead<J, A> = TaskRead(fields: TaskFields<J, A>, unread: seq<Byte>, complete: bool)

  /** `readFields` starting from fields `g` on input `s`: the fields are
      assigned one after the other, so a failure keeps the ones already
      decoded and leaves the later ones as they were in `g`. */
  function ReadTask<J, A>(cs: TaskCodecs<J, A>, g: TaskFields<J, A>, s: seq<Byte>): TaskRead<J, A>
  {
    match cs.job.read(s)
    case None => TaskRead(g, [], false)
    case Some((j, s1)) =>
      var g1 := g.(jobId := j);
      match cs.text.read(s1)
      case None => TaskRead(g1, [], false)
      case Some((file, s2)) =>
        var g2 := g1.(jobFile := Some(file));
        match cs.attempt.read(s2)
        case None => TaskRead(g2, [], false)
        case Some((a, s3)) =>
          var g3 := g2.(taskId := a);
          match DecodeInt32(s3)
          case None => TaskRead(g3, [], false)
          case Some((p, s4)) => TaskRead(g3.(partition := p), s4, true)
  }

  /** Reading back what `write` emitted restores all four fields, whatever
      they were before, and leaves the bytes that followed the record. */
  lemma TaskRoundTrip<J(!new), A(!new)>(cs: TaskCodecs<J, A>, f: TaskFields<J, A>, g: TaskFields<J, A>, rest: seq<Byte>)
    requires SoundCodecs(cs)
    requires f.jobFile.Some?
    ensures ReadTask(cs, g, TaskBytes(cs, f) + rest) == TaskRead(f, rest, true)
  {
    Int32CodecSound();
    var ej, et, ea, ep := cs.job.write(f.jobId), cs.text.write(f.jobFile.value), cs.attempt.write(f.taskId), EncodeInt32(f.partition);
    assert TaskBytes(cs, f) + rest == ej + (et + (ea + (ep + rest)));
    assert cs.job.read(ej + (et + (ea + (ep + rest)))) == Some((f.jobId, et + (ea + (ep + rest))));
    assert cs.text.read(et + (ea + (ep + rest))) == Some((f.jobFile.value, ea + (ep + rest)));
    assert cs.attempt.read(ea + (ep + rest)) == Some((f.taskId, ep + rest));
    assert Int32Codec().read(ep + rest) == Some((f.partition, rest));
  }

  /** A cut inside the job id fails the first read: nothing is assigned. */
  lemma TruncatedInJobId<J(!new), A(!new)>(cs: TaskCodecs<J, A>, f: TaskFields<J, A>, g: TaskFields<J, A>, k: nat)
    requires SoundCodecs(cs) && f.jobFile.Some?
    requires k < |cs.job.write(f.jobId)|
    ensures ReadTask(cs, g, TaskBytes(cs, f)[..k]) == TaskRead(g, [], false)
  {
    assert TaskBytes(cs, f)[..k] == cs.job.write(f.jobId)[..k];
  }

  /** A cut inside the job file: only the job id has been assigned. */
  lemma TruncatedInJobFile<J(!new), A(!new)>(cs: TaskCodecs<J, A>, f: TaskFields<J, A>, g: TaskFields<J, A>, k: nat)
    requires SoundCodecs(cs) && f.jobFile.Some?
    requires |cs.job.write(f.jobId)| <= k < |cs.job.write(f.jobId)| + |cs.text.write(f.jobFile.value)|
    ensures ReadTask(cs, g, TaskBytes(cs, f)[..k]) == TaskRead(g.(jobId := f.jobId), [], false)
  {
    var ej, et := cs.job.write(f.jobId), cs.text.write(f.jobFile.value);
    var t := et[..k - |ej|];
    assert TaskBytes(cs, f)[..k] == ej + t;
    assert cs.job.read(ej + t) == Some((f.jobId, t));
    assert cs.text.read(t) == None;
  }

  /** A cut inside the attempt id: the job id and the job file have been
      assigned. */
  lemma TruncatedInAttemptId<J(!new), A(!new)>(cs: TaskCodecs<J, A>, f: TaskFields<J, A>, g: TaskFields<J, A>, k: nat)
    requires SoundCodecs(cs) && f.jobFile.Some?
    requires var nj, nt := |cs.job.write(f.jobId)|, |cs.text.write(f.jobFile.value)|;
      nj + nt <= k < nj + nt + |cs.attempt.write(f.taskId)|
    ensures ReadTask(cs, g, TaskBytes(cs, f)[..k]) == TaskRead(g.(jobId := f.jobId, jobFile := f.jobFile), [], false)
  {
    var ej, et, ea := cs.job.write(f.jobId), cs.text.write(f.jobFile.value), cs.attempt.write(f.taskId);
    var t := ea[..k - |ej| - |et|];
    assert TaskBytes(cs, f)[..k] == ej + (et + t);
    assert cs.job.read(ej + (et + t)) == Some((f.jobId, et + t));
    assert cs.text.read(et + t) == Some((f.jobFile.value, t));
    assert cs.attempt.read(t) == None;
  }

  /** A cut inside the partition: all but the partition have been assigned. */
  lemma TruncatedInPartition<J(!new), A(!new)>(cs: TaskCodecs<J, A>, f: TaskFields<J, A>, g: TaskFields<J, A>, k: nat)
    requires SoundCodecs(cs) && f.jobFile.Some?
    requires var nj, nt, na := |cs.job.write(f.jobId)|, |cs.text.write(f.jobFile.value)|, |cs.attempt.write(f.taskId)|;
      nj + nt + na <= k < |TaskBytes(cs, f)|
    ensures ReadTask(cs, g, TaskBytes(cs, f)[..k]) == TaskRead(g.(jobId := f.jobId, jobFile := f.jobFile, taskId := f.taskId), [], false)
  {
    var ej, et, ea, ep := cs.job.write(f.jobId), cs.text.write(f.jobFile.value), cs.attempt.write(f.taskId), EncodeInt32(f.partition);
    assert TaskBytes(cs, f) == ej + (et + (ea + ep));
    var t := ep[..k - |ej| - |et| - |ea|];
    assert TaskBytes(cs, f)[..k] == ej + (et + (ea + t));
    assert cs.job.read(ej + (et + (ea + t))) == Some((f.jobId, et + (ea + t)));
    assert cs.text.read(et + (ea + t)) == Some((f.jobFile.value, ea + t));
    assert cs.attempt.read(ea + t) == Some((f.taskId, t));
    assert DecodeInt32(t) == None;
  }

  /** A truncated record is rejected, and the fields decoded before the
      point of truncation stay overwritten while the later ones keep their
      previous values. */
  lemma TruncatedTaskRejected<J(!new), A(!new)>(cs: TaskCodecs<J, A>, f: TaskFields<J, A>, g: TaskFields<J, A>, k: nat)
    requires SoundCodecs(cs)
    requires f.jobFile.Some?
    requires k < |TaskBytes(cs, f)|
    ensures !ReadTask(cs, g, TaskBytes(cs, f)[..k]).complete
    ensures ReadTask(cs, g, TaskBytes(cs, f)[..k]).unread == []
    ensures ReadTask(cs, g, TaskBytes(cs, f)[..k]).fields ==
      var nj, nt, na := |cs.job.write(f.jobId)|, |cs.text.write(f.jobFile.value)|, |cs.attempt.write(f.taskId)|;
      TaskFields(
        if k >= nj then f.jobId else g.jobId,
        if k >= nj + nt then f.jobFile else g.jobFile,
        if k >= nj + nt + na then f.taskId else g.taskId,
        g.partition)
  {
    var nj, nt, na := |cs.job.write(f.jobId)|, |cs.text.write(f.jobFile.value)|, |cs.attempt.write(f.taskId)|;
    if k < nj {
      TruncatedInJobId(cs, f, g, k);
    } else if k < nj + nt {
      TruncatedInJobFile(cs, f, g, k);
    } else if k < nj + nt + na {
      TruncatedInAttemptId(cs, f, g, k);
    } else {
      TruncatedInPartition(cs, f, g, k);
    }
  }

  /** The task-side end of `BSPPeerProtocol`: the `done` reports it has
      received, in order. */
  class Umbilical<A> {
    var reports: seq<(A, bool)>

    constructor ()
      ensures reports == []
    {
      reports := [];
    }

    method Done(taskId: A, success: bool)
      modifies this
      ensures reports == old(reports) + [(taskId, success)]
    {
      reports := reports + [(taskId, success)];
    }
  }

  class Task<J, A> {
    var jobId: J
    var jobFile: Option<string>
    var taskId: A
    var partition: Int32

    function Fields(): TaskFields<J, A>
      reads this
    {
      TaskFields(jobId, jobFile, taskId, partition)
    }

    /** The no-argument constructor Writable needs: fresh empty ids (given
        here as `emptyJob` and `emptyAttempt`), a null job file and
        partition 0. */
    constructor Empty(emptyJob: J, emptyAttempt: A)
      ensures Fields() == TaskFields(emptyJob, None, emptyAttempt, 0)
    {
      jobId := emptyJob;
      jobFile := None;
      taskId := emptyAttempt;
      partition := 0;
    }

    /** Stores the four arguments; the job file may be null (`None`). */
    constructor (jobId: J, jobFile: Option<string>, taskId: A, partition: Int32)
      ensures Fields() == TaskFields(jobId, jobFile, taskId, partition)
    {
      this.jobId := jobId;
      this.jobFile := jobFile;
      this.taskId := taskId;
      this.partition := partition;
    }

    method SetJobFile(jobFile: Option<string>)
      modifies this`jobFile
      ensures Fields() == old(Fields()).(jobFile := jobFile)
    {
      this.jobFile := jobFile;
    }

    function GetJobFile(): Option<string>
      reads this
    {
      jobFile
    }

    function GetTaskAttemptId(): A
      reads this
    {
      taskId
    }

    /** The same attempt id under its other name. */
    function GetTaskId(): (id: A)
      reads this
      ensures id == GetTaskAttemptId()
    {
      taskId
    }

    function GetJobId(): J
      reads this
    {
      jobId
    }

    function GetPartition(): Int32
      reads this
    {
      partition
    }

    /** `write`: the fields in their fixed order. */
    method Write(out: DataOutput, cs: TaskCodecs<J, A>) returns (r: Result<(), TaskError>)
      modifies out
      ensures out.written == old(out.written) + TaskBytes(cs, Fields())
      ensures r == if jobFile.None? then Err(NullJobFile) else Ok(())
    {
      out.Write(cs.job, jobId);
      if jobFile.None? {
        return Err(NullJobFile);
      }
      out.Write(cs.text, jobFile.value);
      out.Write(cs.attempt, taskId);
      out.Write(Int32Codec(), partition);
      r := Ok(());
    }

    /** `readFields`: the fields are overwritten in the order they were
        written. */
    method ReadFields(input: DataInput, cs: TaskCodecs<J, A>) returns (r: Result<(), TaskError>)
      modifies this, input
      ensures Fields() == ReadTask(cs, old(Fields()), old(input.unread)).fields
      ensures input.unread == ReadTask(cs, old(Fields()), old(input.unread)).unread
      ensures r == if ReadTask(cs, old(Fields()), old(input.unread)).complete then Ok(()) else Err(ReadFailed)
    {
      var j := input.Read(cs.job);
      if j.None? {
        return Err(ReadFailed);
      }
      jobId := j.value;
      var file := input.Read(cs.text);
      if file.None? {
        return Err(ReadFailed);
      }
      jobFile := Some(file.value);
      var a := input.Read(cs.attempt);
      if a.None? {
        return Err(ReadFailed);
      }
      taskId := a.value;
      var p := input.Read(Int32Codec());
      if p.None? {
        return Err(ReadFailed);
      }
      partition := p.value;
      r := Ok(());
    }

    /** `done`: reports this attempt as finished successfully. */
    method Done(umbilical: Umbilical<A>)
      modifies umbilical
      ensures umbilical.reports == old(umbilical.reports) + [(GetTaskId(), true)]
    {
      umbilical.Done(GetTaskId(), true);
    }
  }
}
