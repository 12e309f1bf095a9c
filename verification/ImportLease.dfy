/** The lease on an imported playlist: preview, queueing, worker claims, failure grace and cleanup. */
module ImportLease {
  import opened Text

  type ImportId = nat
  type JobId = nat

  datatype Status = Ready | Queued | Failed

  datatype Record = Record(user: string, status: Status, job: Option<JobId>, expires: int)

  datatype JobStatus = JobPending | JobRunning | JobDone | JobFailed

  /** Retention periods and the worker's job timeout, in seconds. */
  datatype Settings = Settings(retention: int, queuedRetention: int, failedRetention: int, jobTimeout: int) {
    /** What the settings validator insists on. */
    predicate Valid() {
      retention > 0 && queuedRetention > 0 && failedRetention > 0 && queuedRetention > jobTimeout
    }
  }

  /** `used` are the import ids ever handed out; ids are never reused. */
  datatype State = State(records: map<ImportId, Record>, jobs: map<JobId, JobStatus>, used: set<ImportId>)

  datatype Action =
    | Create(id: ImportId, user: string)
    | Preview(id: ImportId, user: string)
    | Discard(id: ImportId, user: string)
    | Queue(id: ImportId, user: string, job: JobId)
    | Claim(id: ImportId, user: string, job: JobId)
    | MarkFailed(id: ImportId, job: JobId)
    | DeleteForJob(id: ImportId, job: JobId)
    | Cleanup
    | SetJob(job: JobId, status: JobStatus)

  datatype Result = Done | NotFound | Expired | WrongState

  predicate Owned(s: State, id: ImportId, user: string) {
    id in s.records && s.records[id].user == user
  }

  /** The worker that may touch the record. */
  predicate Assigned(s: State, id: ImportId, job: JobId) {
    id in s.records && s.records[id].job == Some(job)
  }

  predicate ExpiredAt(r: Record, now: int) {
    r.expires <= now
  }

  function Delete(s: State, id: ImportId): State {
    s.(records := s.records - {id})
  }

  function Put(s: State, id: ImportId, r: Record): State {
    s.(records := s.records[id := r])
  }

  predicate Claimable(s: State, id: ImportId, user: string, job: JobId, now: int) {
    && Owned(s, id, user)
    && s.records[id].job == Some(job)
    && s.records[id].status != Ready
    && !ExpiredAt(s.records[id], now)
  }

  predicate Live(s: State, j: JobId) {
    j in s.jobs && s.jobs[j] in {JobPending, JobRunning}
  }

  /** The queued imports whose lease ran out hold these jobs. */
  ghost function OrphanedJobs(s: State, now: int): set<JobId> {
    set id |
      id in s.records && ExpiredAt(s.records[id], now) && s.records[id].status == Queued && s.records[id].job.Some? ::
      s.records[id].job.value
  }

  ghost function AfterCleanup(s: State, now: int): State {
    State(map id | id in s.records && !ExpiredAt(s.records[id], now) :: s.records[id],
          map j | j in s.jobs :: if j in OrphanedJobs(s, now) && Live(s, j) then JobFailed else s.jobs[j],
          s.used)
  }

  function AfterQueue(c: Settings, s: State, id: ImportId, user: string, job: JobId, now: int): (State, Result) {
    if !Owned(s, id, user) then (s, NotFound)
    else
      var r := s.records[id];
      if r.status == Ready && !ExpiredAt(r, now) then
        (Put(s, id, r.(status := Queued, job := Some(job), expires := now + c.queuedRetention)), Done)
      else if r.status == Ready then (Delete(s, id), Expired)
      else (s, WrongState)
  }

  ghost function Apply(c: Settings, s: State, a: Action, now: int): State {
    match a
    case Create(id, user) =>
      if id in s.used then s
      else State(s.records[id := Record(user, Ready, None, now + c.retention)], s.jobs, s.used + {id})
    case Preview(id, user) =>
      if Owned(s, id, user) && s.records[id].status == Ready && ExpiredAt(s.records[id], now) then Delete(s, id) else s
    case Discard(id, user) =>
      if Owned(s, id, user) && s.records[id].status == Ready then Delete(s, id) else s
    case Queue(id, user, job) => AfterQueue(c, s, id, user, job, now).0
    case Claim(id, user, job) =>
      if Claimable(s, id, user, job, now)
      then Put(s, id, s.records[id].(status := Queued, expires := now + c.queuedRetention))
      else s
    case MarkFailed(id, job) =>
      if Assigned(s, id, job)
      then Put(s, id, s.records[id].(status := Failed, expires := now + c.failedRetention))
      else s
    case DeleteForJob(id, job) => if Assigned(s, id, job) then Delete(s, id) else s
    case Cleanup => AfterCleanup(s, now)
    case SetJob(job, status) => s.(jobs := s.jobs[job := status])
  }

  // ----- Invariants

  ghost predicate RecordOk(s: State, id: ImportId)
    requires id in s.records
  {
    id in s.used && (s.records[id].status == Ready <==> s.records[id].job.None?)
  }

  ghost predicate Valid(s: State) {
    forall id {:trigger RecordOk(s, id)} :: id in s.records ==> RecordOk(s, id)
  }

  lemma StepValid(c: Settings, s: State, a: Action, now: int)
    requires Valid(s)
    ensures Valid(Apply(c, s, a, now))
  {
    var t := Apply(c, s, a, now);
    forall id | id in t.records ensures RecordOk(t, id) {
      if id in s.records {
        assert RecordOk(s, id);
      }
    }
  }

  /** The import has been given to job `j`, for good. */
  ghost predicate BoundTo(s: State, id: ImportId, j: JobId) {
    id in s.used && (id in s.records ==> s.records[id].job == Some(j))
  }

  lemma StepKeepsBinding(c: Settings, s: State, a: Action, now: int, id: ImportId, j: JobId)
    requires Valid(s) && BoundTo(s, id, j)
    ensures BoundTo(Apply(c, s, a, now), id, j)
  {
    if id in s.records {
      assert RecordOk(s, id);
    }
  }

  // ----- Runs

  /** A step with the clock reading it uses. */
  datatype Timed = Timed(now: int, action: Action)

  ghost function Run(c: Settings, s: State, steps: seq<Timed>): State {
    if steps == [] then s
    else
      var last := steps[|steps| - 1];
      Apply(c, Run(c, s, steps[..|steps| - 1]), last.action, last.now)
  }

  lemma {:induction false} RunValid(c: Settings, s: State, steps: seq<Timed>)
    requires Valid(s)
    ensures Valid(Run(c, s, steps))
  {
    if steps != [] {
      var n := |steps| - 1;
      RunValid(c, s, steps[..n]);
      StepValid(c, Run(c, s, steps[..n]), steps[n].action, steps[n].now);
    }
  }

  lemma {:induction false} RunKeepsBinding(c: Settings, s: State, steps: seq<Timed>, id: ImportId, j: JobId)
    requires Valid(s) && BoundTo(s, id, j)
    ensures Valid(Run(c, s, steps)) && BoundTo(Run(c, s, steps), id, j)
  {
    RunValid(c, s, steps);
    if steps != [] {
      var n := |steps| - 1;
      RunKeepsBinding(c, s, steps[..n], id, j);
      StepKeepsBinding(c, Run(c, s, steps[..n]), steps[n].action, steps[n].now, id, j);
    }
  }

  /** A successful queueing binds the import. */
  lemma QueueBinds(c: Settings, s: State, id: ImportId, user: string, job: JobId, now: int)
    requires Valid(s) && AfterQueue(c, s, id, user, job, now).1 == Done
    ensures var t := AfterQueue(c, s, id, user, job, now).0; Valid(t) && BoundTo(t, id, job)
  {
    assert RecordOk(s, id);
    StepValid(c, s, Queue(id, user, job), now);
  }

  /** From a successful queueing on, the job id never changes and the import never comes back. */
  lemma JobIdIsFinal(c: Settings, s: State, id: ImportId, user: string, job: JobId, queued: int, steps: seq<Timed>)
    requires Valid(s) && AfterQueue(c, s, id, user, job, queued).1 == Done
    ensures BoundTo(Run(c, AfterQueue(c, s, id, user, job, queued).0, steps), id, job)
  {
    QueueBinds(c, s, id, user, job, queued);
    RunKeepsBinding(c, AfterQueue(c, s, id, user, job, queued).0, steps, id, job);
  }

  /** Before it is queued an import has no job, and only a successful queueing gives it one. */
  lemma OnlyQueueingBinds(c: Settings, s: State, a: Action, now: int, id: ImportId)
    requires Valid(s) && id in s.records && s.records[id].job.None?
    ensures var t := Apply(c, s, a, now);
            id in t.records && t.records[id].job.Some? <==>
              a.Queue? && a.id == id && AfterQueue(c, s, id, a.user, a.job, now).1 == Done
  {
    assert RecordOk(s, id);
  }

  /** A preview takes an import away exactly when it was the owner's, ready and expired, and touches nothing else. */
  lemma PreviewExactly(c: Settings, s: State, id: ImportId, user: string, now: int, other: ImportId)
    ensures var t := Apply(c, s, Preview(id, user), now);
            var lapsed := other == id && other in s.records && s.records[id].user == user &&
                          s.records[id].status == Ready && s.records[id].expires <= now;
            && t.jobs == s.jobs && t.used == s.used
            && (other in t.records <==> other in s.records && !lapsed)
            && (other in t.records ==> t.records[other] == s.records[other])
  {
  }

  /** Steps that name an import change no other import, and only cleanup and the jobs' own steps change jobs. */
  lemma OthersUntouched(c: Settings, s: State, a: Action, now: int, other: ImportId)
    requires !a.Cleanup? && !a.SetJob? && other != a.id
    ensures var t := Apply(c, s, a, now);
            && t.jobs == s.jobs
            && (other in t.records <==> other in s.records)
            && (other in t.records ==> t.records[other] == s.records[other])
  {
  }

  /** After a successful queueing, no discard and no second queueing does anything, however many steps later. */
  lemma NoDiscardAfterQueue(c: Settings, s: State, id: ImportId, user: string, job: JobId, queued: int,
                            steps: seq<Timed>, who: string, other: JobId, now: int)
    requires Valid(s) && AfterQueue(c, s, id, user, job, queued).1 == Done
    ensures var t := Run(c, AfterQueue(c, s, id, user, job, queued).0, steps);
            && Apply(c, t, Discard(id, who), now) == t
            && AfterQueue(c, t, id, who, other, now).0 == t
            && AfterQueue(c, t, id, who, other, now).1 != Done
  {
    var t := Run(c, AfterQueue(c, s, id, user, job, queued).0, steps);
    QueueBinds(c, s, id, user, job, queued);
    RunKeepsBinding(c, AfterQueue(c, s, id, user, job, queued).0, steps, id, job);
    if id in t.records {
      assert RecordOk(t, id);
    }
  }

  // ----- A worker's claim outlives its job

  ghost predicate Held(s: State, id: ImportId, user: string, j: JobId, until: int) {
    id in s.records && s.records[id].user == user && s.records[id].job == Some(j)
    && s.records[id].status == Queued && s.records[id].expires > until
  }

  predicate EndsLease(a: Action, id: ImportId, j: JobId) {
    a == MarkFailed(id, j) || a == DeleteForJob(id, j)
  }

  /** A step before `until` renews the lease past it or leaves it alone, if `until` is within one queued retention. */
  lemma StepKeepsHold(c: Settings, s: State, step: Timed, id: ImportId, user: string, j: JobId, start: int, until: int)
    requires Valid(s) && Held(s, id, user, j, until)
    requires start <= step.now <= until < start + c.queuedRetention && !EndsLease(step.action, id, j)
    ensures Held(Apply(c, s, step.action, step.now), id, user, j, until)
  {
    assert RecordOk(s, id);
  }

  /** No step of the run falls outside the period or ends the lease. */
  ghost predicate Undisturbed(steps: seq<Timed>, id: ImportId, j: JobId, start: int, until: int) {
    forall i :: 0 <= i < |steps| ==> start <= steps[i].now <= until && !EndsLease(steps[i].action, id, j)
  }

  lemma {:induction false} RunKeepsHold(c: Settings, s: State, steps: seq<Timed>, id: ImportId, user: string,
                                        j: JobId, start: int, until: int)
    requires Valid(s) && Held(s, id, user, j, until) && until < start + c.queuedRetention
    requires Undisturbed(steps, id, j, start, until)
    ensures Held(Run(c, s, steps), id, user, j, until)
  {
    if steps != [] {
      var n := |steps| - 1;
      RunKeepsHold(c, s, steps[..n], id, user, j, start, until);
      RunValid(c, s, steps[..n]);
      StepKeepsHold(c, Run(c, s, steps[..n]), steps[n], id, user, j, start, until);
    }
  }

  /** A claim by the assigned job succeeds while the lease runs and holds past the job timeout. */
  lemma ClaimHolds(c: Settings, s: State, id: ImportId, user: string, j: JobId, now: int)
    requires c.Valid() && Claimable(s, id, user, j, now)
    ensures Held(Apply(c, s, Claim(id, user, j), now), id, user, j, now + c.jobTimeout)
  {
  }

  /**
   A worker that claims at time t keeps its record through t plus the job timeout, under every
   interleaving of other steps, cleanup included, unless that job itself fails or deletes it.
   */
  lemma ClaimOutlivesJob(c: Settings, s: State, steps: seq<Timed>, id: ImportId, user: string, j: JobId, claimed: int)
    requires c.Valid() && Valid(s) && Claimable(s, id, user, j, claimed)
    requires Undisturbed(steps, id, j, claimed, claimed + c.jobTimeout)
    ensures Held(Run(c, Apply(c, s, Claim(id, user, j), claimed), steps), id, user, j, claimed + c.jobTimeout)
  {
    ClaimHolds(c, s, id, user, j, claimed);
    StepValid(c, s, Claim(id, user, j), claimed);
    RunKeepsHold(c, Apply(c, s, Claim(id, user, j), claimed), steps, id, user, j, claimed, claimed + c.jobTimeout);
  }

  /** A queued import waits for its worker: until the queued retention ends, only that job's claim succeeds. */
  lemma QueuedWaits(c: Settings, s: State, steps: seq<Timed>, id: ImportId, user: string, j: JobId,
                    queued: int, now: int, other: JobId)
    requires c.Valid() && Valid(s) && AfterQueue(c, s, id, user, j, queued).1 == Done
    requires queued <= now < queued + c.queuedRetention && Undisturbed(steps, id, j, queued, now)
    ensures Claimable(Run(c, AfterQueue(c, s, id, user, j, queued).0, steps), id, user, other, now) <==> other == j
  {
    StepValid(c, s, Queue(id, user, j), queued);
    RunKeepsHold(c, AfterQueue(c, s, id, user, j, queued).0, steps, id, user, j, queued, now);
  }

  /** The settings inequality is exactly what a cleanup during the job needs. */
  lemma RetentionMustExceedTimeout(c: Settings, s: State, id: ImportId, user: string, j: JobId, claimed: int)
    requires Claimable(s, id, user, j, claimed)
    ensures c.queuedRetention > c.jobTimeout <==>
              id in Apply(c, Apply(c, s, Claim(id, user, j), claimed), Cleanup, claimed + c.jobTimeout).records
  {
  }

  /** The import is failed with its grace ending at `until`, or gone for good if the clock passed that. */
  ghost predicate InGrace(s: State, id: ImportId, user: string, j: JobId, until: int, passed: bool) {
    && id in s.used
    && (id in s.records ==> s.records[id] == Record(user, Failed, Some(j), until))
    && (id in s.records || passed)
  }

  /** The steps by which the import's own job touches it. */
  predicate TouchesOwn(a: Action, id: ImportId, user: string, j: JobId) {
    a == Claim(id, user, j) || EndsLease(a, id, j)
  }

  ghost predicate LeftAlone(steps: seq<Timed>, id: ImportId, user: string, j: JobId, now: int) {
    forall i :: 0 <= i < |steps| ==> steps[i].now <= now && !TouchesOwn(steps[i].action, id, user, j)
  }

  lemma StepKeepsGrace(c: Settings, s: State, step: Timed, id: ImportId, user: string, j: JobId, until: int, now: int)
    requires Valid(s) && InGrace(s, id, user, j, until, now >= until)
    requires step.now <= now && !TouchesOwn(step.action, id, user, j)
    ensures InGrace(Apply(c, s, step.action, step.now), id, user, j, until, now >= until)
  {
    if id in s.records {
      assert RecordOk(s, id);
    }
  }

  lemma {:induction false} RunKeepsGrace(c: Settings, s: State, steps: seq<Timed>, id: ImportId, user: string,
                                         j: JobId, until: int, now: int)
    requires Valid(s) && InGrace(s, id, user, j, until, now >= until) && LeftAlone(steps, id, user, j, now)
    ensures InGrace(Run(c, s, steps), id, user, j, until, now >= until)
  {
    if steps != [] {
      var n := |steps| - 1;
      RunKeepsGrace(c, s, steps[..n], id, user, j, until, now);
      RunValid(c, s, steps[..n]);
      StepKeepsGrace(c, Run(c, s, steps[..n]), steps[n], id, user, j, until, now);
    }
  }

  /**
   After a failure, under every interleaving in which its own job leaves it alone, a failed import
   can be claimed by that job until the grace period ends, and not after.
   */
  lemma FailureGrace(c: Settings, s: State, id: ImportId, user: string, j: JobId, failed: int, steps: seq<Timed>,
                     now: int)
    requires Valid(s) && Owned(s, id, user) && Assigned(s, id, j)
    requires LeftAlone(steps, id, user, j, now)
    ensures Claimable(Run(c, Apply(c, s, MarkFailed(id, j), failed), steps), id, user, j, now) <==>
            now < failed + c.failedRetention
  {
    assert RecordOk(s, id);
    StepValid(c, s, MarkFailed(id, j), failed);
    RunKeepsGrace(c, Apply(c, s, MarkFailed(id, j), failed), steps, id, user, j, failed + c.failedRetention, now);
  }

  // ----- Cleanup

  /** Cleanup removes exactly the expired imports and fails exactly the live jobs of expired queued ones. */
  lemma CleanupExact(s: State, now: int, id: ImportId, j: JobId)
    ensures var t := AfterCleanup(s, now);
            && (id in t.records <==> id in s.records && s.records[id].expires > now)
            && (id in t.records ==> t.records[id] == s.records[id])
            && (Live(t, j) <==> Live(s, j) && !QueuedAndExpired(s, now, j))
            && (j in t.jobs <==> j in s.jobs)
            && (j in t.jobs && t.jobs[j] != s.jobs[j] ==> Live(s, j) && t.jobs[j] == JobFailed)
  {
    if QueuedAndExpired(s, now, j) {
      assert j in OrphanedJobs(s, now);
    }
  }

  /** Some expired queued import holds this job. */
  ghost predicate QueuedAndExpired(s: State, now: int, j: JobId) {
    exists id :: id in s.records && s.records[id].expires <= now && s.records[id].status == Queued &&
                 s.records[id].job == Some(j)
  }

  /**
   A removed import leaves its job live exactly when it had failed, that job was live, and no expired
   queued import holds the same job.
   */
  lemma LeftLiveExactly(s: State, now: int, id: ImportId, j: JobId)
    requires Valid(s) && Assigned(s, id, j) && ExpiredAt(s.records[id], now)
    ensures Live(AfterCleanup(s, now), j) <==>
            s.records[id].status == Failed && Live(s, j) && !QueuedAndExpired(s, now, j)
  {
    assert RecordOk(s, id);
    CleanupExact(s, now, id, j);
  }

  /** A job that goes on after its import was marked failed is still running when cleanup takes the import away. */
  function FailedThenRunning(c: Settings, user: string): seq<Timed> {
    [Timed(0, Create(1, user)), Timed(0, Queue(1, user, 7)), Timed(0, MarkFailed(1, 7)),
      Timed(0, SetJob(7, JobRunning)), Timed(c.failedRetention, Cleanup)]
  }

  lemma {:induction false} RunSteps(c: Settings, s: State, a: seq<Timed>)
    requires |a| == 5
    ensures var s1 := Apply(c, s, a[0].action, a[0].now);
            var s2 := Apply(c, s1, a[1].action, a[1].now);
            var s3 := Apply(c, s2, a[2].action, a[2].now);
            var s4 := Apply(c, s3, a[3].action, a[3].now);
            Run(c, s, a[..4]) == s4 && Run(c, s, a) == Apply(c, s4, a[4].action, a[4].now)
  {
    var b, d, e, f := a[..4], a[..3], a[..2], a[..1];
    assert b[..3] == d && d[..2] == e && e[..1] == f && f[..0] == [];
    assert Run(c, s, f) == Apply(c, s, a[0].action, a[0].now);
    assert Run(c, s, e) == Apply(c, Run(c, s, f), a[1].action, a[1].now);
    assert Run(c, s, d) == Apply(c, Run(c, s, e), a[2].action, a[2].now);
  }

  /** So cleanup can leave a live job without its import. */
  lemma CleanupCanStrand(c: Settings, user: string)
    requires c.Valid()
    ensures var empty := State(map[], map[], {});
            var before := Run(c, empty, FailedThenRunning(c, user)[..4]);
            var after := Run(c, empty, FailedThenRunning(c, user));
            && Assigned(before, 1, 7) && Live(before, 7)
            && 1 !in after.records && Live(after, 7)
  {
    var empty, a := State(map[], map[], {}), FailedThenRunning(c, user);
    RunSteps(c, empty, a);
    RunValid(c, empty, a[..4]);
    var before := Run(c, empty, a[..4]);
    assert before.records == map[1 := Record(user, Failed, Some(7), c.failedRetention)];
    LeftLiveExactly(before, c.failedRetention, 1, 7);
  }

  // ----- The service's functions over the stored records

  class ImportStore {
    const settings: Settings
    var records: map<ImportId, Record>
    var jobs: map<JobId, JobStatus>
    ghost var used: set<ImportId>

    ghost function Current(): State
      reads this
    {
      State(records, jobs, used)
    }

    constructor (settings: Settings)
      ensures this.settings == settings && Current() == State(map[], map[], {}) && Valid(Current())
    {
      this.settings := settings;
      records, jobs, used := map[], map[], {};
    }

    /** Stores a preview under a fresh id. */
    method CreateImport(id: ImportId, user: string, now: int)
      requires Valid(Current()) && id !in used
      modifies this
      ensures Valid(Current()) && Current() == Apply(settings, old(Current()), Create(id, user), now)
      ensures records == old(records)[id := Record(user, Ready, None, now + settings.retention)] && jobs == old(jobs)
    {
      StepValid(settings, Current(), Create(id, user), now);
      records := records[id := Record(user, Ready, None, now + settings.retention)];
      used := used + {id};
    }

    method LoadPreviewImport(id: ImportId, user: string, now: int) returns (r: Result)
      requires Valid(Current())
      modifies this`records
      ensures Valid(Current()) && Current() == Apply(settings, old(Current()), Preview(id, user), now)
      ensures r == (if !(id in old(records) && old(records)[id].user == user) then NotFound
                    else if old(records)[id].status != Ready then WrongState
                    else if old(records)[id].expires <= now then Expired
                    else Done)
      ensures records == if r == Expired then old(records) - {id} else old(records)
    {
      StepValid(settings, Current(), Preview(id, user), now);
      if id !in records || records[id].user != user {
        return NotFound;
      }
      if records[id].status != Ready {
        return WrongState;
      }
      if records[id].expires <= now {
        records := records - {id};
        return Expired;
      }
      return Done;
    }

    method DiscardImport(id: ImportId, user: string, now: int) returns (r: Result)
      requires Valid(Current())
      modifies this`records
      ensures Valid(Current()) && Current() == Apply(settings, old(Current()), Discard(id, user), now)
      ensures r == (if !(id in old(records) && old(records)[id].user == user) then NotFound
                    else if old(records)[id].status == Ready then Done
                    else WrongState)
      ensures records == if r == Done then old(records) - {id} else old(records)
    {
      StepValid(settings, Current(), Discard(id, user), now);
      if id in records && records[id].user == user && records[id].status == Ready {
        records := records - {id};
        return Done;
      }
      if id !in records || records[id].user != user {
        return NotFound;
      }
      return WrongState;
    }

    /** One conditional update; the outcome of a miss is worked out afterwards. */
    method QueueImport(id: ImportId, user: string, job: JobId, now: int) returns (r: Result)
      requires Valid(Current())
      modifies this`records
      ensures Valid(Current()) && (Current(), r) == AfterQueue(settings, old(Current()), id, user, job, now)
      ensures r == (if !(id in old(records) && old(records)[id].user == user) then NotFound
                    else if old(records)[id].status != Ready then WrongState
                    else if old(records)[id].expires <= now then Expired
                    else Done)
      ensures r == Done ==>
                records == old(records)[id := Record(user, Queued, Some(job), now + settings.queuedRetention)]
      ensures r == Expired ==> records == old(records) - {id}
      ensures r != Done && r != Expired ==> records == old(records)
    {
      StepValid(settings, Current(), Queue(id, user, job), now);
      if id in records && records[id].user == user && records[id].status == Ready && records[id].expires > now {
        var queued := records[id].(status := Queued, job := Some(job), expires := now + settings.queuedRetention);
        records := records[id := queued];
        return Done;
      }
      if id !in records || records[id].user != user {
        return NotFound;
      }
      if records[id].expires <= now && records[id].status == Ready {
        records := records - {id};
        return Expired;
      }
      return WrongState;
    }

    /** The worker's claim: renews the lease of a queued or failed import assigned to this job. */
    method LoadImportForJob(id: ImportId, user: string, job: JobId, now: int) returns (r: Result)
      requires Valid(Current())
      modifies this`records
      ensures Valid(Current()) && Current() == Apply(settings, old(Current()), Claim(id, user, job), now)
      ensures r == (if !(id in old(records) && old(records)[id].user == user) then NotFound
                    else if old(records)[id].expires <= now then Expired
                    else if old(records)[id].job != Some(job) then WrongState
                    else Done)
      ensures r == Done ==> old(records)[id].status in {Queued, Failed}
      ensures r == Done ==>
                records == old(records)[id := Record(user, Queued, Some(job), now + settings.queuedRetention)]
      ensures r != Done ==> records == old(records)
    {
      StepValid(settings, Current(), Claim(id, user, job), now);
      assert id in records ==> RecordOk(Current(), id);
      if id in records && records[id].user == user && records[id].job == Some(job)
         && (records[id].status == Queued || records[id].status == Failed) && records[id].expires > now {
        records := records[id := records[id].(status := Queued, expires := now + settings.queuedRetention)];
        return Done;
      }
      if id !in records || records[id].user != user {
        return NotFound;
      }
      if records[id].expires <= now {
        return Expired;
      }
      return WrongState;
    }

    method MarkImportFailed(id: ImportId, job: JobId, now: int)
      requires Valid(Current())
      modifies this`records
      ensures Valid(Current()) && Current() == Apply(settings, old(Current()), MarkFailed(id, job), now)
      ensures records == if id in old(records) && old(records)[id].job == Some(job)
                         then old(records)[id := Record(old(records)[id].user, Failed, Some(job),
                                                        now + settings.failedRetention)]
                         else old(records)
    {
      StepValid(settings, Current(), MarkFailed(id, job), now);
      if id in records && records[id].job == Some(job) {
        records := records[id := records[id].(status := Failed, expires := now + settings.failedRetention)];
      }
    }

    method DeleteImportForJob(id: ImportId, job: JobId, now: int)
      requires Valid(Current())
      modifies this`records
      ensures Valid(Current()) && Current() == Apply(settings, old(Current()), DeleteForJob(id, job), now)
      ensures records == if id in old(records) && old(records)[id].job == Some(job) then old(records) - {id}
                         else old(records)
    {
      StepValid(settings, Current(), DeleteForJob(id, job), now);
      if id in records && records[id].job == Some(job) {
        records := records - {id};
      }
    }

    /** One turn of the cleanup loop: fails the live job of a queued import, then deletes the import. */
    method CleanRecord(id: ImportId, ghost s: State, now: int, ghost gone: set<ImportId>)
      requires Current() == Cleaned(s, now, gone) && id in s.records && id !in gone
      modifies this`records, this`jobs
      ensures Current() == Cleaned(s, now, gone + {id})
    {
      CleanOne(s, now, gone, id);
      var record := records[id];
      if record.status == Queued && record.job.Some? {
        var job := record.job.value;
        if job in jobs && (jobs[job] == JobPending || jobs[job] == JobRunning) {
          jobs := jobs[job := JobFailed];
        }
      }
      records := records - {id};
    }

    /** Deletes every expired import and counts them. */
    method CleanupExpiredImports(now: int) returns (deleted: nat)
      requires Valid(Current())
      modifies this`records, this`jobs
      ensures Valid(Current()) && Current() == Apply(settings, old(Current()), Cleanup, now)
      ensures deleted == |set id | id in old(records) && ExpiredAt(old(records)[id], now)|
    {
      StepValid(settings, Current(), Cleanup, now);
      ghost var s := Current();
      var expired := set id | id in records && ExpiredAt(records[id], now);
      var pending := expired;
      deleted := 0;
      NothingCleaned(s, now);
      assert expired - pending == {};
      while pending != {}
        invariant pending <= expired && deleted + |pending| == |expired|
        invariant Current() == Cleaned(s, now, expired - pending)
        decreases pending
      {
        var id :| id in pending;
        CleanRecord(id, s, now, expired - pending);
        deleted := deleted + 1;
        assert expired - (pending - {id}) == (expired - pending) + {id};
        pending := pending - {id};
      }
      assert expired - pending == expired;
      CleanedAll(s, now, expired);
    }
  }

  lemma NothingCleaned(s: State, now: int)
    ensures Cleaned(s, now, {}) == s
  {
    assert s.records - {} == s.records;
    assert JobsOf(s, {}) == {};
  }

  ghost function JobsOf(s: State, ids: set<ImportId>): set<JobId> {
    set id | id in ids && id in s.records && s.records[id].status == Queued && s.records[id].job.Some? ::
      s.records[id].job.value
  }

  /** Cleanup part-way: the imports in `gone` are dealt with. */
  ghost function Cleaned(s: State, now: int, gone: set<ImportId>): State {
    State(s.records - gone,
          map j | j in s.jobs :: if j in JobsOf(s, gone) && Live(s, j) then JobFailed else s.jobs[j],
          s.used)
  }

  lemma CleanOne(s: State, now: int, gone: set<ImportId>, id: ImportId)
    requires id in s.records && id !in gone
    ensures var t := Cleaned(s, now, gone);
            var r := s.records[id];
            && id in t.records && t.records[id] == r
            && Cleaned(s, now, gone + {id}).records == t.records - {id}
            && Cleaned(s, now, gone + {id}).jobs ==
               (if r.status == Queued && r.job.Some? && Live(t, r.job.value)
                then t.jobs[r.job.value := JobFailed]
                else t.jobs)
  {
    var t, u := Cleaned(s, now, gone), Cleaned(s, now, gone + {id});
    var r := s.records[id];
    assert u.records == t.records - {id};
    assert JobsOf(s, gone + {id}) == JobsOf(s, gone) + if r.status == Queued && r.job.Some? then {r.job.value} else {};
  }

  lemma CleanedAll(s: State, now: int, expired: set<ImportId>)
    requires expired == set id | id in s.records && ExpiredAt(s.records[id], now)
    ensures Cleaned(s, now, expired) == AfterCleanup(s, now)
  {
    assert JobsOf(s, expired) == OrphanedJobs(s, now);
    assert Cleaned(s, now, expired).records == AfterCleanup(s, now).records;
  }
}
