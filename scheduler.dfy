/**
 * The job scheduler the core-system handlers drive
 * (src/plugins/core_system/scheduler/mod.rs): a table of cron jobs, each
 * sending a fixed message when it fires. Cron strings are opaque; whether the
 * underlying `tokio-cron-scheduler` accepts one, and the uuid it hands out,
 * are parameters of the scheduler.
 */
module CronScheduler {
  import opened Wrappers
  import Json

  /** The message a job sends when it fires: its type and JSON payload. */
  datatype Trigger = Trigger(messageType: string, payload: Json.Value)

  datatype Job = Job(uuid: string, cron: string, trigger: Trigger)

  datatype ScheduleError = BadCron(cron: string)

  /** The jobs whose uuid is not in `ids`, in order. */
  function Drop(jobs: seq<Job>, ids: set<string>): (r: seq<Job>)
    ensures forall j :: j in r <==> j in jobs && j.uuid !in ids
    ensures |r| <= |jobs|
  {
    if jobs == [] then []
    else
      var front := jobs[..|jobs| - 1];
      var last := jobs[|jobs| - 1];
      assert jobs == front + [last];
      if last.uuid in ids then Drop(front, ids) else Drop(front, ids) + [last]
  }

  /** Removing one set of jobs and then another is removing both at once. */
  lemma {:induction false} DropDrop(jobs: seq<Job>, a: set<string>, b: set<string>)
    ensures Drop(Drop(jobs, a), b) == Drop(jobs, a + b)
    decreases |jobs|
  {
    if jobs != [] {
      var front := jobs[..|jobs| - 1];
      DropDrop(front, a, b);
      var last := jobs[|jobs| - 1];
      if last.uuid !in a {
        assert Drop(jobs, a) == Drop(front, a) + [last];
        var d := Drop(jobs, a);
        assert d[..|d| - 1] == Drop(front, a);
      }
    }
  }

  lemma DropNothing(jobs: seq<Job>)
    ensures Drop(jobs, {}) == jobs
  {
    if jobs != [] {
      DropNothing(jobs[..|jobs| - 1]);
      assert jobs == jobs[..|jobs| - 1] + [jobs[|jobs| - 1]];
    }
  }

  /** Removing uuids no job has changes nothing. */
  lemma {:induction false} DropNone(jobs: seq<Job>, ids: set<string>)
    requires forall j :: j in jobs ==> j.uuid !in ids
    ensures Drop(jobs, ids) == jobs
    decreases |jobs|
  {
    if jobs != [] {
      var front := jobs[..|jobs| - 1];
      assert forall j :: j in front ==> j in jobs;
      DropNone(front, ids);
      assert jobs == front + [jobs[|jobs| - 1]];
    }
  }

  /** Removing exactly the uuids of jobs appended after `jobs` restores `jobs`. */
  lemma {:induction false} DropAppended(jobs: seq<Job>, added: seq<Job>, ids: set<string>)
    requires forall j :: j in jobs ==> j.uuid !in ids
    requires forall j :: j in added ==> j.uuid in ids
    ensures Drop(jobs + added, ids) == jobs
    decreases |added|
  {
    if added == [] {
      assert jobs + added == jobs;
      DropNone(jobs, ids);
    } else {
      var front := added[..|added| - 1];
      assert forall j :: j in front ==> j in added;
      DropAppended(jobs, front, ids);
      var all := jobs + added;
      assert all[..|all| - 1] == jobs + front;
      assert all[|all| - 1] == added[|added| - 1];
    }
  }

  class JobScheduler {
    var jobs: seq<Job>
    /** How many jobs have been created; the next one gets `uuidOf(created)`. */
    var created: nat
    /** Whether `Job::new_async` accepts a cron expression. */
    const accepts: string -> bool
    /** The uuid the scheduler gives its n-th job. */
    const uuidOf: nat -> string

    constructor (accepts: string -> bool, uuidOf: nat -> string)
      ensures jobs == [] && created == 0
      ensures this.accepts == accepts && this.uuidOf == uuidOf
    {
      jobs := [];
      created := 0;
      this.accepts := accepts;
      this.uuidOf := uuidOf;
    }

    /** `add_cron_job`: a job for an accepted cron expression, returning its uuid; an error otherwise. */
    method AddCronJob(cron: string, trigger: Trigger) returns (r: Result<string, ScheduleError>)
      modifies this
      ensures r.Ok? <==> accepts(cron)
      ensures r.Ok? ==> r.value == uuidOf(old(created)) && created == old(created) + 1 &&
                        jobs == old(jobs) + [Job(r.value, cron, trigger)]
      ensures r.Err? ==> r.error == BadCron(cron) && jobs == old(jobs) && created == old(created)
    {
      if !accepts(cron) {
        return Err(BadCron(cron));
      }
      var uuid := uuidOf(created);
      jobs := jobs + [Job(uuid, cron, trigger)];
      created := created + 1;
      r := Ok(uuid);
    }

    /** `remove_job`: the jobs with that uuid are gone, the others stay in order. */
    method RemoveJob(uuid: string)
      modifies this
      ensures jobs == Drop(old(jobs), {uuid}) && created == old(created)
    {
      jobs := Drop(jobs, {uuid});
    }
  }
}
