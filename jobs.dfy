/** `IngestionJobManager`: a dictionary of ingestion jobs, each counting the
    files processed against the files announced. Job ids come from the
    caller (fresh by assumption) and times are `now` parameters. */
module Jobs {
  import opened Wrappers

  type JobId = string

  datatype Status = Running | Finished

  /** `{total, processed, status, started_at, finished_at}` */
  datatype Job = Job(total: int, processed: int, status: Status, startedAt: real, finishedAt: Option<real>)

  /** The record `create_job(total_files)` stores. */
  function NewJob(total: int, now: real): (j: Job)
    ensures j.total == total && j.processed == 0 && j.status == Running
    ensures j.startedAt == now && j.finishedAt == None
  {
    Job(total, 0, Running, now, None)
  }

  /** One `update_progress` on an existing job: the counter grows by `delta`;
      when it reaches the total the job is (again) marked finished at `now`,
      otherwise status and finish time stay as they were. */
  function Advance(j: Job, delta: int, now: real): (r: Job)
    ensures r.total == j.total && r.startedAt == j.startedAt
    ensures r.processed == j.processed + delta
    ensures r.processed >= r.total ==> r.status == Finished && r.finishedAt == Some(now)
    ensures r.processed < r.total ==> r.status == j.status && r.finishedAt == j.finishedAt
  {
    var p := j.processed + delta;
    if p >= j.total then j.(processed := p, status := Finished, finishedAt := Some(now))
    else j.(processed := p)
  }

  /** A job carries a finish time exactly when it is finished. */
  predicate Sound(j: Job) {
    j.status == Finished <==> j.finishedAt.Some?
  }

  /** A finished job has processed at least its total. */
  predicate Reached(j: Job) {
    j.status == Finished ==> j.processed >= j.total
  }

  /** Advancing keeps a job sound, and keeps a finished job finished. */
  lemma AdvanceSound(j: Job, delta: int, now: real)
    requires Sound(j)
    ensures Sound(Advance(j, delta, now))
    ensures j.status == Finished ==> Advance(j, delta, now).status == Finished
  {
  }

  /** With a non-negative delta the counter never decreases and a job that
      reached its total stays there. */
  lemma AdvanceMonotone(j: Job, delta: int, now: real)
    requires delta >= 0 && Reached(j)
    ensures Advance(j, delta, now).processed >= j.processed
    ensures Reached(Advance(j, delta, now))
  {
  }

  /** The calls that change the tracker. */
  datatype Op = Create(id: JobId, total: int, now: real) | Update(id: JobId, delta: int, now: real)

  /** The dictionary after one call: a create stores a new record, an update
      of a known id advances it, an update of an unknown id does nothing. */
  function Apply(jobs: map<JobId, Job>, op: Op): (r: map<JobId, Job>)
    ensures op.Create? ==> r == jobs[op.id := NewJob(op.total, op.now)]
    ensures op.Update? && op.id !in jobs ==> r == jobs
    ensures op.Update? && op.id in jobs ==> r == jobs[op.id := Advance(jobs[op.id], op.delta, op.now)]
  {
    match op
    case Create(id, total, now) => jobs[id := NewJob(total, now)]
    case Update(id, delta, now) => if id in jobs then jobs[id := Advance(jobs[id], delta, now)] else jobs
  }

  /** The dictionary after a sequence of calls, first call first. */
  function Replay(jobs: map<JobId, Job>, ops: seq<Op>): map<JobId, Job>
    decreases ops
  {
    if ops == [] then jobs else Replay(Apply(jobs, ops[0]), ops[1..])
  }

  /** Every create uses an id not yet in the dictionary, as `uuid4` ensures. */
  predicate FreshCreates(jobs: map<JobId, Job>, ops: seq<Op>)
    decreases ops
  {
    ops != [] ==>
      (ops[0].Create? ==> ops[0].id !in jobs) && FreshCreates(Apply(jobs, ops[0]), ops[1..])
  }

  /** Every update advances by a non-negative amount. */
  predicate Forward(ops: seq<Op>) {
    forall k :: 0 <= k < |ops| && ops[k].Update? ==> ops[k].delta >= 0
  }

  /** No sequence of calls makes a job's finish time disagree with its status. */
  lemma {:induction false} ReplaySound(jobs: map<JobId, Job>, ops: seq<Op>)
    requires forall id :: id in jobs ==> Sound(jobs[id])
    ensures var r := Replay(jobs, ops); forall id :: id in r ==> Sound(r[id])
    decreases ops
  {
    if ops != [] {
      var next := Apply(jobs, ops[0]);
      forall id | id in next
        ensures Sound(next[id])
      {
        if ops[0].Update? && id == ops[0].id && id in jobs {
          AdvanceSound(jobs[id], ops[0].delta, ops[0].now);
        }
      }
      ReplaySound(next, ops[1..]);
      assert Replay(jobs, ops) == Replay(next, ops[1..]);
    }
  }

  /** Once finished, a job stays finished and stays in the dictionary: only a
      create writes `running`, and creates use fresh ids. */
  lemma {:induction false} FinishedStays(jobs: map<JobId, Job>, ops: seq<Op>, id: JobId)
    requires id in jobs && jobs[id].status == Finished
    requires FreshCreates(jobs, ops)
    ensures id in Replay(jobs, ops) && Replay(jobs, ops)[id].status == Finished
    decreases ops
  {
    if ops != [] {
      var next := Apply(jobs, ops[0]);
      assert id in next && next[id].status == Finished;
      FinishedStays(next, ops[1..], id);
    }
  }

  /** With non-negative deltas a job's counter never decreases, and a
      finished job has processed at least its total. */
  lemma {:induction false} ReplayMonotone(jobs: map<JobId, Job>, ops: seq<Op>, id: JobId)
    requires id in jobs && Reached(jobs[id])
    requires FreshCreates(jobs, ops) && Forward(ops)
    ensures var r := Replay(jobs, ops);
      id in r && r[id].processed >= jobs[id].processed && Reached(r[id])
    decreases ops
  {
    if ops != [] {
      var next := Apply(jobs, ops[0]);
      if ops[0].Update? && ops[0].id == id {
        AdvanceMonotone(jobs[id], ops[0].delta, ops[0].now);
      }
      assert id in next && next[id].processed >= jobs[id].processed && Reached(next[id]);
      assert Forward(ops[1..]) by {
        forall k | 0 <= k < |ops[1..]| && ops[1..][k].Update?
          ensures ops[1..][k].delta >= 0
        {
          assert ops[1..][k] == ops[k + 1];
        }
      }
      ReplayMonotone(next, ops[1..], id);
    }
  }

  /** `n` calls `update_progress(id)` with the default step of one. */
  function UnitUpdates(id: JobId, n: nat, now: real): (r: seq<Op>)
    ensures |r| == n
  {
    if n == 0 then [] else [Update(id, 1, now)] + UnitUpdates(id, n - 1, now)
  }

  /** A running job after `n` unit updates has processed `n` more, and it is
      finished exactly when that reaches its total. */
  lemma {:induction false} AfterUnitUpdates(jobs: map<JobId, Job>, id: JobId, n: nat, now: real)
    requires id in jobs && jobs[id].status == Running
    ensures var r := Replay(jobs, UnitUpdates(id, n, now));
      && id in r
      && r[id].processed == jobs[id].processed + n
      && r[id].total == jobs[id].total
      && (r[id].status == Finished <==> n > 0 && jobs[id].processed + n >= jobs[id].total)
  {
    if n > 0 {
      var next := Apply(jobs, Update(id, 1, now));
      var j := jobs[id];
      if j.processed + 1 >= j.total {
        NoCreates(next, id, n - 1, now);
        FinishedStays(next, UnitUpdates(id, n - 1, now), id);
        UnitCount(next, id, n - 1, now);
      } else {
        AfterUnitUpdates(next, id, n - 1, now);
      }
    }
  }

  /** Unit updates contain no create. */
  lemma {:induction false} NoCreates(jobs: map<JobId, Job>, id: JobId, n: nat, now: real)
    ensures FreshCreates(jobs, UnitUpdates(id, n, now))
  {
    if n > 0 {
      NoCreates(Apply(jobs, Update(id, 1, now)), id, n - 1, now);
    }
  }

  /** Unit updates of a known job add one each. */
  lemma {:induction false} UnitCount(jobs: map<JobId, Job>, id: JobId, n: nat, now: real)
    requires id in jobs
    ensures var r := Replay(jobs, UnitUpdates(id, n, now));
      id in r && r[id].processed == jobs[id].processed + n && r[id].total == jobs[id].total
  {
    if n > 0 {
      UnitCount(Apply(jobs, Update(id, 1, now)), id, n - 1, now);
    }
  }

  /** `create_job(5)` followed by five unit updates: five processed, finished. */
  lemma FiveOfFive(id: JobId, t0: real, t1: real)
    ensures var r := Replay(map[], [Create(id, 5, t0)] + UnitUpdates(id, 5, t1));
      id in r && r[id].processed == 5 && r[id].status == Finished && r[id].finishedAt == Some(t1)
  {
    var start := Apply(map[], Create(id, 5, t0));
    AfterUnitUpdates(start, id, 5, t1);
    ReplaySound(start, UnitUpdates(id, 5, t1));
    assert Replay(map[], [Create(id, 5, t0)] + UnitUpdates(id, 5, t1)) == Replay(start, UnitUpdates(id, 5, t1));
    FinishTime(start, id, 5, t1);
  }

  /** The last of a run of unit updates that finishes a job stamps its finish time. */
  lemma {:induction false} FinishTime(jobs: map<JobId, Job>, id: JobId, n: nat, now: real)
    requires id in jobs && n > 0 && jobs[id].processed + n >= jobs[id].total
    ensures var r := Replay(jobs, UnitUpdates(id, n, now));
      id in r && r[id].finishedAt == Some(now)
  {
    var next := Apply(jobs, Update(id, 1, now));
    if n > 1 {
      FinishTime(next, id, n - 1, now);
    }
  }

  /** `create_job(0)` is not finished until an update arrives. */
  lemma EmptyJobRunning(jobs: map<JobId, Job>, id: JobId, now: real)
    ensures var r := Apply(jobs, Create(id, 0, now));
      r[id].status == Running && r[id].processed >= r[id].total
  {
  }

  /** The tracker: `self.jobs`. */
  class IngestionJobManager {
    var jobs: map<JobId, Job>

    /** Every stored job is sound. */
    ghost predicate Valid()
      reads this
    {
      forall id :: id in jobs ==> Sound(jobs[id])
    }

    constructor ()
      ensures Valid() && jobs == map[]
    {
      jobs := map[];
    }

    /** `create_job(total_files)`: `freshId` stands for `str(uuid.uuid4())`. */
    method CreateJob(total: int, freshId: JobId, now: real) returns (id: JobId)
      requires Valid()
      requires freshId !in jobs
      modifies this
      ensures Valid()
      ensures id == freshId && id !in old(jobs)
      ensures jobs == Apply(old(jobs), Create(id, total, now))
      ensures forall other :: other in old(jobs) ==> other in jobs && jobs[other] == old(jobs)[other]
    {
      id := freshId;
      jobs := jobs[id := NewJob(total, now)];
    }

    /** `update_progress(job_id, processed)` */
    method UpdateProgress(id: JobId, delta: int, now: real)
      requires Valid()
      modifies this
      ensures Valid()
      ensures jobs == Apply(old(jobs), Update(id, delta, now))
      ensures id !in old(jobs) ==> jobs == old(jobs)
      ensures jobs.Keys == old(jobs).Keys
      ensures forall other :: other in jobs && other != id ==> jobs[other] == old(jobs)[other]
    {
      if id in jobs {
        var j := jobs[id];
        AdvanceSound(j, delta, now);
        jobs := jobs[id := Advance(j, delta, now)];
      }
    }

    /** `get_status(job_id)`: the stored record, or nothing for an unknown id. */
    function GetStatus(id: JobId): (r: Option<Job>)
      reads this
      ensures r.Some? <==> id in jobs
      ensures r.Some? ==> r.value == jobs[id]
    {
      if id in jobs then Some(jobs[id]) else None
    }
  }
}
