/** Sync rules and pending migrations of one user, as a state machine whose steps hold the graph lock. */
module SyncGraph {
  import opened Text
  import opened Tracks
  import opened Reachability

  type RuleId = nat
  type JobId = nat

  datatype Endpoint = Endpoint(account: Account, playlist: string)

  datatype RuleStatus = Idle | Paused | ReviewRequired

  /** `running` and `unresolved` are facts the sync worker owns: an active run, an unresolved review. */
  datatype Rule = Rule(source: Endpoint, target: Endpoint, enabled: bool, status: RuleStatus,
                       scheduled: bool, running: bool, unresolved: bool)

  datatype JobStatus = Pending | Running | Done | Failed

  /** The `continuous_sync` part of a job's selection. */
  datatype Intent = NoIntent | Requested | Active(rule: RuleId) | SetupFailed

  datatype Job = Job(manual: bool, source: Account, playlists: seq<string>, partial: bool, target: Account,
                     targetPlaylist: Option<string>, status: JobStatus, intent: Intent, unresolved: bool)

  /**
   What a migration request selects; `live` says the source is a connected account and not a stored
   snapshot, `library` that it names saved albums or followed artists too.
   */
  datatype Selection = Selection(live: bool, playlists: seq<string>, partial: bool, library: bool, continuous: bool)

  /**
   What reading both accounts before a migration found; `acknowledged` is the caller's answer to the
   warnings, and `queued` says that an import the migration reads from could be given to its job.
   */
  datatype Preflight = Preflight(ok: bool, warnings: bool, acknowledged: bool, queued: bool)

  datatype State = State(rules: map<RuleId, Rule>, jobs: map<JobId, Job>)

  const EMPTY := State(map[], map[])

  datatype PendingSync = PendingSync(source: Endpoint, target: Account)

  /** Which jobs reserve an edge before their rule exists. */
  predicate Reserves(job: Job) {
    && job.manual && job.status in {Pending, Running, Done}
    && job.intent != NoIntent
    && |job.playlists| == 1
    && !(job.status == Done && (job.intent.Active? || job.intent.SetupFailed?))
  }

  function Reservation(job: Job): PendingSync
    requires Reserves(job)
  {
    PendingSync(Endpoint(job.source, job.playlists[0]), job.target)
  }

  ghost function PendingSyncs(jobs: map<JobId, Job>): set<PendingSync> {
    set id | id in jobs && Reserves(jobs[id]) :: Reservation(jobs[id])
  }

  ghost function RuleEdges(rules: map<RuleId, Rule>): Graph<Account> {
    set id | id in rules :: (rules[id].source.account, rules[id].target.account)
  }

  ghost function PlaylistEdges(rules: map<RuleId, Rule>): Graph<Endpoint> {
    set id | id in rules :: (rules[id].source, rules[id].target)
  }

  ghost function ReservedEdges(jobs: map<JobId, Job>): Graph<Account> {
    set id | id in jobs && Reserves(jobs[id]) :: (jobs[id].source, jobs[id].target)
  }

  ghost function AccountEdges(s: State): Graph<Account> {
    RuleEdges(s.rules) + ReservedEdges(s.jobs)
  }

  // ----- The two feedback checks

  datatype Verdict = Clear | Malformed | AlreadyPending | MutualPending | AccountLoop | PlaylistLoop
                   | PreflightFailed | Unacknowledged | ImportRefused

  ghost predicate Mutual(s: State, source: Endpoint, target: Endpoint) {
    PendingSync(target, source.account) in PendingSyncs(s.jobs)
  }

  /** What the check before storing or resuming a rule decides. */
  ghost function RuleVerdict(s: State, source: Endpoint, target: Endpoint): Verdict {
    if Mutual(s, source, target) then MutualPending
    else if Reaches(AccountEdges(s), target.account, source.account) then AccountLoop
    else Clear
  }

  /** What the check before requesting a continuous migration decides. */
  ghost function RequestVerdict(s: State, source: Endpoint, target: Account): Verdict {
    if PendingSync(source, target) in PendingSyncs(s.jobs) then AlreadyPending
    else if Reaches(AccountEdges(s), target, source.account) then AccountLoop
    else Clear
  }

  /** A request selects something, and a continuous one exactly one full playlist. */
  predicate WellFormed(selection: Selection) {
    && (selection.playlists != [] || selection.library)
    && (selection.continuous ==>
          selection.live && |selection.playlists| == 1 && !selection.partial && !selection.library)
  }

  /** What requesting a migration of a selection decides; only continuous ones are checked for loops. */
  ghost function MigrationVerdict(s: State, source: Account, selection: Selection, target: Account,
                                  preflight: Preflight): Verdict {
    if !WellFormed(selection) then Malformed
    else if selection.continuous && RequestVerdict(s, Endpoint(source, selection.playlists[0]), target) != Clear then
      RequestVerdict(s, Endpoint(source, selection.playlists[0]), target)
    else if !preflight.ok then PreflightFailed
    else if preflight.warnings && !preflight.acknowledged then Unacknowledged
    else if !preflight.queued then ImportRefused
    else Clear
  }

  /** The mutual-pending test adds nothing to the account search. */
  lemma MutualIsLoop(s: State, source: Endpoint, target: Endpoint)
    requires Mutual(s, source, target)
    ensures Reaches(AccountEdges(s), target.account, source.account)
  {
    var id :| id in s.jobs && Reserves(s.jobs[id]) && Reservation(s.jobs[id]) == PendingSync(target, source.account);
    assert (target.account, source.account) in AccountEdges(s);
    ReachesItself(AccountEdges(s), source.account);
    ReachesStep(AccountEdges(s), target.account, source.account, source.account);
  }

  /** The rule check passes exactly when the target's account does not reach the source's. */
  lemma RuleVerdictExact(s: State, source: Endpoint, target: Endpoint)
    ensures RuleVerdict(s, source, target) == Clear <==> !Reaches(AccountEdges(s), target.account, source.account)
  {
    if Mutual(s, source, target) {
      MutualIsLoop(s, source, target);
    }
  }

  function AccountOf(e: Endpoint): Account {
    e.account
  }

  /** A playlist-level path projects to an account-level path, so the second search never rejects. */
  lemma PlaylistPathProjects(s: State, a: Endpoint, b: Endpoint)
    requires Reaches(PlaylistEdges(s.rules), a, b)
    ensures Reaches(AccountEdges(s), a.account, b.account)
  {
    var p :| PathFromTo(PlaylistEdges(s.rules), p, a, b);
    PathProjects(PlaylistEdges(s.rules), AccountEdges(s), AccountOf, p, a, b);
  }

  /** Once the account search passes, the endpoints are distinct. */
  lemma DistinctEndpoints(s: State, source: Endpoint, target: Endpoint)
    requires !Reaches(AccountEdges(s), target.account, source.account)
    ensures source != target
  {
    if source == target {
      ReachesItself(AccountEdges(s), source.account);
    }
  }

  // ----- Steps

  /** Facts outside the graph that a rule creation consults. */
  datatype Checks = Checks(scheduleOk: bool, providersOk: bool)

  datatype Reason = BadSchedule | NotFound | NotDone | NotOnePlaylist | PartialMigration | UnresolvedItems
                  | NoTarget | SameEndpoint | DuplicateRule | FeedbackLoop | ProviderRefused

  datatype Outcome = Created | Existing(rule: RuleId) | Refused(reason: Reason)

  ghost predicate HasEndpoints(rules: map<RuleId, Rule>, id: RuleId, source: Endpoint, target: Endpoint) {
    id in rules && rules[id].source == source && rules[id].target == target
  }

  /** At most one rule per endpoint pair: the table's uniqueness constraint. */
  ghost predicate UniqueEndpoints(rules: map<RuleId, Rule>) {
    forall a, b ::
      (a in rules && b in rules && rules[a].source == rules[b].source && rules[a].target == rules[b].target) ==> a == b
  }

  function NewRule(source: Endpoint, target: Endpoint): Rule {
    Rule(source, target, true, Idle, true, false, false)
  }

  function SourceOf(job: Job): Endpoint
    requires |job.playlists| == 1
  {
    Endpoint(job.source, job.playlists[0])
  }

  function TargetOf(job: Job): Endpoint
    requires job.targetPlaylist.Some?
  {
    Endpoint(job.target, job.targetPlaylist.value)
  }

  /** The checks of rule creation before the lock is taken, in order. */
  function Precheck(s: State, jobId: JobId, checks: Checks): Option<Reason> {
    if !checks.scheduleOk then Some(BadSchedule)
    else if jobId !in s.jobs || !s.jobs[jobId].manual then Some(NotFound)
    else
      var job := s.jobs[jobId];
      if job.status != Done then Some(NotDone)
      else if |job.playlists| != 1 then Some(NotOnePlaylist)
      else if job.partial then Some(PartialMigration)
      else if job.unresolved then Some(UnresolvedItems)
      else if job.targetPlaylist.None? then Some(NoTarget)
      else if SourceOf(job) == TargetOf(job) then Some(SameEndpoint)
      else None
  }

  ghost function CreateOutcome(s: State, jobId: JobId, checks: Checks, allowExisting: bool): Outcome {
    if Precheck(s, jobId, checks).Some? then Refused(Precheck(s, jobId, checks).value)
    else
      var job := s.jobs[jobId];
      var source, target := SourceOf(job), TargetOf(job);
      if exists id :: HasEndpoints(s.rules, id, source, target) then
        if allowExisting then
          var id :| HasEndpoints(s.rules, id, source, target); Existing(id)
        else Refused(DuplicateRule)
      else if RuleVerdict(s, source, target) != Clear then Refused(FeedbackLoop)
      else if !checks.providersOk then Refused(ProviderRefused)
      else Created
  }

  /** `ruleId` is the fresh id a created rule gets. */
  ghost function AfterCreate(s: State, jobId: JobId, ruleId: RuleId, checks: Checks, allowExisting: bool): State {
    if CreateOutcome(s, jobId, checks, allowExisting).Created? then
      s.(rules := s.rules[ruleId := NewRule(SourceOf(s.jobs[jobId]), TargetOf(s.jobs[jobId]))])
    else s
  }

  /** A finished continuous migration still waiting for its rule. */
  predicate Promotable(s: State, jobId: JobId) {
    && jobId in s.jobs
    && s.jobs[jobId].manual && s.jobs[jobId].status == Done
    && s.jobs[jobId].intent != NoIntent && !s.jobs[jobId].intent.Active?
    && !s.jobs[jobId].unresolved
  }

  function Settle(outcome: Outcome, ruleId: RuleId): Intent {
    match outcome
    case Created => Active(ruleId)
    case Existing(id) => Active(id)
    case Refused(_) => SetupFailed
  }

  ghost function AfterPromote(s: State, jobId: JobId, ruleId: RuleId, checks: Checks): State {
    if Promotable(s, jobId) then
      var outcome := CreateOutcome(s, jobId, checks, true);
      var t := AfterCreate(s, jobId, ruleId, checks, true);
      t.(jobs := t.jobs[jobId := t.jobs[jobId].(intent := Settle(outcome, ruleId))])
    else s
  }

  datatype Action =
    | Request(job: JobId, source: Account, selection: Selection, target: Account, preflight: Preflight)
    | Start(job: JobId)
    | Finish(job: JobId, targetPlaylist: Option<string>, unresolved: bool)
    | Fail(job: JobId)
    | Review(job: JobId, unresolved: bool)
    | ExpireReview(job: JobId)
    | Create(job: JobId, rule: RuleId, checks: Checks)
    | Promote(job: JobId, rule: RuleId, checks: Checks)
    | Pause(rule: RuleId)
    | Resume(rule: RuleId, mirrorOk: bool)
    | Delete(rule: RuleId)
    | WorkerUpdate(rule: RuleId, running: bool, unresolved: bool)

  function RequestedJob(source: Account, selection: Selection, target: Account): Job {
    Job(true, source, selection.playlists, selection.partial, target, None, Pending,
        if selection.continuous then Requested else NoIntent, false)
  }

  ghost function ResumeAllowed(s: State, id: RuleId, mirrorOk: bool): bool
    requires id in s.rules
  {
    var r := s.rules[id];
    && !r.running && !r.unresolved
    && RuleVerdict(s.(rules := s.rules - {id}), r.source, r.target) == Clear
    && mirrorOk
  }

  /** The state after one atomic step; a refused step changes nothing. */
  ghost function Apply(s: State, a: Action): State {
    match a
    case Request(id, source, selection, target, preflight) =>
      if id in s.jobs || MigrationVerdict(s, source, selection, target, preflight) != Clear then s
      else s.(jobs := s.jobs[id := RequestedJob(source, selection, target)])
    case Start(id) =>
      if id in s.jobs then s.(jobs := s.jobs[id := s.jobs[id].(status := Running)]) else s
    case Finish(id, targetPlaylist, unresolved) =>
      if id in s.jobs
      then
        var job := s.jobs[id].(status := Done, targetPlaylist := targetPlaylist, unresolved := unresolved);
        s.(jobs := s.jobs[id := job])
      else s
    case Fail(id) =>
      if id in s.jobs then s.(jobs := s.jobs[id := s.jobs[id].(status := Failed)]) else s
    case Review(id, unresolved) =>
      if id in s.jobs then s.(jobs := s.jobs[id := s.jobs[id].(unresolved := unresolved)]) else s
    case ExpireReview(id) =>
      if id in s.jobs && s.jobs[id].intent.Requested?
      then s.(jobs := s.jobs[id := s.jobs[id].(intent := SetupFailed)])
      else s
    case Create(id, rule, checks) =>
      if rule in s.rules then s else AfterCreate(s, id, rule, checks, false)
    case Promote(id, rule, checks) =>
      if rule in s.rules then s else AfterPromote(s, id, rule, checks)
    case Pause(id) =>
      if id in s.rules
      then
        var status := if s.rules[id].unresolved then ReviewRequired else Paused;
        s.(rules := s.rules[id := s.rules[id].(enabled := false, scheduled := false, status := status)])
      else s
    case Resume(id, mirrorOk) =>
      if id in s.rules && ResumeAllowed(s, id, mirrorOk)
      then s.(rules := s.rules[id := s.rules[id].(enabled := true, status := Idle, scheduled := true)])
      else s
    case Delete(id) =>
      if id in s.rules && !s.rules[id].running then s.(rules := s.rules - {id}) else s
    case WorkerUpdate(id, running, unresolved) =>
      if id in s.rules
      then s.(rules := s.rules[id := s.rules[id].(running := running, unresolved := unresolved)])
      else s
  }

  ghost function Run(s: State, actions: seq<Action>): State {
    if actions == [] then s else Apply(Run(s, actions[..|actions| - 1]), actions[|actions| - 1])
  }

  // ----- How steps move the edges

  lemma RuleChanged(rules: map<RuleId, Rule>, id: RuleId, r: Rule)
    requires id in rules && rules[id].source == r.source && rules[id].target == r.target
    ensures RuleEdges(rules[id := r]) == RuleEdges(rules)
    ensures UniqueEndpoints(rules) ==> UniqueEndpoints(rules[id := r])
  {
    var after := rules[id := r];
    assert forall k :: k in rules ==> after[k].source == rules[k].source && after[k].target == rules[k].target;
    assert forall k :: k in after ==> k in rules;
    assert RuleEdges(after) <= RuleEdges(rules) <= RuleEdges(after);
  }

  lemma RuleAdded(rules: map<RuleId, Rule>, id: RuleId, r: Rule)
    requires id !in rules
    ensures RuleEdges(rules[id := r]) == RuleEdges(rules) + {(r.source.account, r.target.account)}
  {
    var after := rules[id := r];
    assert forall k :: k in rules ==> k in after && after[k] == rules[k];
    assert after[id] == r && forall k :: k in after ==> k == id || k in rules;
    assert RuleEdges(rules) <= RuleEdges(after);
  }

  lemma RuleRemoved(rules: map<RuleId, Rule>, id: RuleId)
    ensures RuleEdges(rules - {id}) <= RuleEdges(rules)
    ensures id in rules ==>
              RuleEdges(rules) == RuleEdges(rules - {id}) + {(rules[id].source.account, rules[id].target.account)}
  {
    var after := rules - {id};
    assert forall k :: k in after <==> k in rules && k != id;
    assert forall k :: k in after ==> after[k] == rules[k];
  }

  /** The edge a job contributes, if any. */
  ghost function JobEdge(job: Job): Graph<Account> {
    if Reserves(job) then {(job.source, job.target)} else {}
  }

  lemma JobChanged(jobs: map<JobId, Job>, id: JobId, job: Job)
    ensures id in jobs ==> ReservedEdges(jobs[id := job]) <= ReservedEdges(jobs) + JobEdge(job)
    ensures id !in jobs ==> ReservedEdges(jobs[id := job]) == ReservedEdges(jobs) + JobEdge(job)
    ensures id in jobs && JobEdge(jobs[id]) <= JobEdge(job) ==>
              ReservedEdges(jobs[id := job]) == ReservedEdges(jobs) + JobEdge(job)
  {
    var after := jobs[id := job];
    assert forall k :: k in after <==> k in jobs || k == id;
    assert forall k :: k in jobs && k != id ==> after[k] == jobs[k];
    assert after[id] == job;
    assert ReservedEdges(after) <= ReservedEdges(jobs) + JobEdge(job);
    if id !in jobs || JobEdge(jobs[id]) <= JobEdge(job) {
      forall e | e in ReservedEdges(jobs) ensures e in ReservedEdges(after) {
        var k :| k in jobs && Reserves(jobs[k]) && e == (jobs[k].source, jobs[k].target);
        if k == id {
          assert e in JobEdge(jobs[id]);
        } else {
          assert after[k] == jobs[k];
        }
      }
      if Reserves(job) {
        assert (after[id].source, after[id].target) in ReservedEdges(after);
      }
    }
  }

  // ----- What every step keeps

  lemma CreateEdges(s: State, jobId: JobId, ruleId: RuleId, checks: Checks, allowExisting: bool)
    requires ruleId !in s.rules
    ensures var t := AfterCreate(s, jobId, ruleId, checks, allowExisting);
            if CreateOutcome(s, jobId, checks, allowExisting).Created? then
              var e := (s.jobs[jobId].source, s.jobs[jobId].target);
              && RuleEdges(t.rules) == RuleEdges(s.rules) + {e}
              && !Reaches(AccountEdges(s), e.1, e.0)
            else t == s
  {
    if CreateOutcome(s, jobId, checks, allowExisting).Created? {
      var source, target := SourceOf(s.jobs[jobId]), TargetOf(s.jobs[jobId]);
      RuleAdded(s.rules, ruleId, NewRule(source, target));
      RuleVerdictExact(s, source, target);
    }
  }

  lemma CreateKeeps(s: State, jobId: JobId, ruleId: RuleId, checks: Checks, allowExisting: bool)
    requires ruleId !in s.rules
    ensures var t := AfterCreate(s, jobId, ruleId, checks, allowExisting);
            && (Acyclic(RuleEdges(s.rules)) ==> Acyclic(RuleEdges(t.rules)))
            && (Acyclic(AccountEdges(s)) ==> Acyclic(AccountEdges(t)))
            && (UniqueEndpoints(s.rules) ==> UniqueEndpoints(t.rules))
  {
    var t := AfterCreate(s, jobId, ruleId, checks, allowExisting);
    CreateEdges(s, jobId, ruleId, checks, allowExisting);
    if CreateOutcome(s, jobId, checks, allowExisting).Created? {
      var source, target := s.jobs[jobId].source, s.jobs[jobId].target;
      if Acyclic(RuleEdges(s.rules)) {
        if Reaches(RuleEdges(s.rules), target, source) {
          ReachesMonotone(RuleEdges(s.rules), AccountEdges(s), target, source);
        }
        AddEdge(RuleEdges(s.rules), source, target);
      }
      if Acyclic(AccountEdges(s)) {
        AddEdge(AccountEdges(s), source, target);
        assert AccountEdges(t) == AccountEdges(s) + {(source, target)};
      }
      if UniqueEndpoints(s.rules) {
        forall a, b | a in t.rules && b in t.rules && t.rules[a].source == t.rules[b].source &&
                t.rules[a].target == t.rules[b].target
          ensures a == b
        {
          assert a in s.rules ==> !HasEndpoints(s.rules, a, SourceOf(s.jobs[jobId]), TargetOf(s.jobs[jobId]));
          assert b in s.rules ==> !HasEndpoints(s.rules, b, SourceOf(s.jobs[jobId]), TargetOf(s.jobs[jobId]));
        }
      }
    }
  }

  /** No step, restarts included, puts a cycle among the stored rules or stores an endpoint pair twice. */
  lemma StepKeepsRules(s: State, a: Action)
    requires Acyclic(RuleEdges(s.rules)) && UniqueEndpoints(s.rules)
    ensures Acyclic(RuleEdges(Apply(s, a).rules)) && UniqueEndpoints(Apply(s, a).rules)
  {
    if Apply(s, a) != s {
      match a
      case Create(id, rule, checks) => CreateKeeps(s, id, rule, checks, false);
      case Promote(id, rule, checks) => CreateKeeps(s, id, rule, checks, true);
      case Delete(id) =>
        RuleRemoved(s.rules, id);
        AcyclicSubgraph(RuleEdges(s.rules - {id}), RuleEdges(s.rules));
      case Pause(id) => RuleTurnedKeeps(s, a);
      case Resume(id, _) => RuleTurnedKeeps(s, a);
      case WorkerUpdate(id, _, _) => RuleTurnedKeeps(s, a);
      case _ =>
    }
  }

  lemma RuleTurnedKeeps(s: State, a: Action)
    requires Acyclic(RuleEdges(s.rules)) && UniqueEndpoints(s.rules)
    requires (a.Pause? || a.Resume? || a.WorkerUpdate?) && Apply(s, a) != s
    ensures Acyclic(RuleEdges(Apply(s, a).rules)) && UniqueEndpoints(Apply(s, a).rules)
  {
    var r := RuleTurned(s, a);
    RuleChanged(s.rules, a.rule, r);
  }

  /** The job whose status a worker step sets, with its new record. */
  ghost function Restarted(s: State, a: Action): Option<(Job, Job)> {
    match a
    case Start(id) => if id in s.jobs then Some((s.jobs[id], s.jobs[id].(status := Running))) else None
    case Finish(id, t, u) =>
      if id in s.jobs
      then Some((s.jobs[id], s.jobs[id].(status := Done, targetPlaylist := t, unresolved := u)))
      else None
    case _ => None
  }

  /** The step gives an edge back to a job that had lost it. */
  ghost predicate Revives(s: State, a: Action) {
    var r := Restarted(s, a);
    r.Some? && !Reserves(r.value.0) && Reserves(r.value.1)
  }

  /** Only a job that already ended can be revived. */
  lemma RevivedWasTerminal(s: State, a: Action)
    requires Revives(s, a)
    ensures var status := Restarted(s, a).value.0.status; status == Done || status == Failed
  {
    var (before, after) := Restarted(s, a).value;
    assert Reserves(after) && !Reserves(before);
    assert before.status == Pending || before.status == Running || before.status == Done || before.status == Failed;
  }

  lemma JobStepEdges(s: State, id: JobId, job: Job)
    requires id in s.jobs && s.jobs[id].source == job.source && s.jobs[id].target == job.target
    ensures var t := s.(jobs := s.jobs[id := job]);
            && (!(Reserves(job) && !Reserves(s.jobs[id])) ==> AccountEdges(t) <= AccountEdges(s))
            && (Reserves(job) ==> AccountEdges(t) == AccountEdges(s) + {(job.source, job.target)})
  {
    JobChanged(s.jobs, id, job);
    if Reserves(s.jobs[id]) {
      assert (s.jobs[id].source, s.jobs[id].target) in ReservedEdges(s.jobs);
    }
  }

  lemma JobStepAcyclic(s: State, id: JobId, job: Job)
    requires Acyclic(AccountEdges(s))
    requires id in s.jobs && s.jobs[id].source == job.source && s.jobs[id].target == job.target
    requires Reserves(job) ==> Reserves(s.jobs[id])
    ensures Acyclic(AccountEdges(s.(jobs := s.jobs[id := job])))
  {
    JobStepEdges(s, id, job);
    AcyclicSubgraph(AccountEdges(s.(jobs := s.jobs[id := job])), AccountEdges(s));
  }

  lemma RequestAcyclic(s: State, id: JobId, source: Account, selection: Selection, target: Account,
                       preflight: Preflight)
    requires Acyclic(AccountEdges(s)) && id !in s.jobs
    requires MigrationVerdict(s, source, selection, target, preflight) == Clear
    ensures Acyclic(AccountEdges(s.(jobs := s.jobs[id := RequestedJob(source, selection, target)])))
  {
    var job := RequestedJob(source, selection, target);
    var t := s.(jobs := s.jobs[id := job]);
    JobChanged(s.jobs, id, job);
    if selection.continuous {
      AddEdge(AccountEdges(s), source, target);
      assert AccountEdges(t) == AccountEdges(s) + {(source, target)};
    } else {
      assert AccountEdges(t) == AccountEdges(s);
    }
  }

  lemma RuleStepAcyclic(s: State, id: RuleId, r: Rule)
    requires Acyclic(AccountEdges(s))
    requires id in s.rules && s.rules[id].source == r.source && s.rules[id].target == r.target
    ensures Acyclic(AccountEdges(s.(rules := s.rules[id := r])))
  {
    RuleChanged(s.rules, id, r);
  }

  lemma PromoteAcyclic(s: State, id: JobId, rule: RuleId, checks: Checks)
    requires Acyclic(AccountEdges(s)) && rule !in s.rules
    ensures Acyclic(AccountEdges(AfterPromote(s, id, rule, checks)))
  {
    if Promotable(s, id) {
      var outcome := CreateOutcome(s, id, checks, true);
      var t := AfterCreate(s, id, rule, checks, true);
      CreateKeeps(s, id, rule, checks, true);
      JobStepAcyclic(t, id, t.jobs[id].(intent := Settle(outcome, rule)));
    }
  }

  /** The steps of a job's life after its request. */
  predicate ChangesJob(a: Action) {
    a.Start? || a.Finish? || a.Fail? || a.Review? || a.ExpireReview?
  }

  lemma JobLifeAcyclic(s: State, a: Action)
    requires Acyclic(AccountEdges(s)) && !Revives(s, a) && ChangesJob(a)
    ensures Acyclic(AccountEdges(Apply(s, a)))
  {
    if Apply(s, a) != s {
      JobStepAcyclic(s, a.job, Apply(s, a).jobs[a.job]);
    }
  }

  lemma RuleTurned(s: State, a: Action) returns (r: Rule)
    requires (a.Pause? || a.Resume? || a.WorkerUpdate?) && Apply(s, a) != s
    ensures a.rule in s.rules && r.source == s.rules[a.rule].source && r.target == s.rules[a.rule].target
    ensures Apply(s, a) == s.(rules := s.rules[a.rule := r])
  {
    r := Apply(s, a).rules[a.rule];
  }

  lemma RuleDeletedAcyclic(s: State, id: RuleId)
    requires Acyclic(AccountEdges(s))
    ensures Acyclic(AccountEdges(s.(rules := s.rules - {id})))
  {
    RuleRemoved(s.rules, id);
    AcyclicSubgraph(AccountEdges(s.(rules := s.rules - {id})), AccountEdges(s));
  }

  lemma RuleTurnedAcyclic(s: State, a: Action)
    requires Acyclic(AccountEdges(s)) && Apply(s, a) != s && (a.Pause? || a.Resume? || a.WorkerUpdate?)
    ensures Acyclic(AccountEdges(Apply(s, a)))
  {
    var r := RuleTurned(s, a);
    RuleStepAcyclic(s, a.rule, r);
  }

  /** Rules and reservations together stay acyclic under every step that does not revive a job. */
  lemma StepKeepsAll(s: State, a: Action)
    requires Acyclic(AccountEdges(s)) && !Revives(s, a)
    ensures Acyclic(AccountEdges(Apply(s, a)))
  {
    if ChangesJob(a) {
      JobLifeAcyclic(s, a);
    } else if Apply(s, a) != s {
      match a
      case Request(id, source, selection, target, preflight) =>
        RequestAcyclic(s, id, source, selection, target, preflight);
      case Create(id, rule, checks) => CreateKeeps(s, id, rule, checks, false);
      case Promote(id, rule, checks) => PromoteAcyclic(s, id, rule, checks);
      case Delete(id) => RuleDeletedAcyclic(s, id);
      case _ => RuleTurnedAcyclic(s, a);
    }
  }

  /** Reviving a job keeps the graph acyclic exactly when its target does not reach its source by then. */
  lemma ReviveExact(s: State, a: Action)
    requires Acyclic(AccountEdges(s)) && Revives(s, a)
    ensures var job := Restarted(s, a).value.1;
            Acyclic(AccountEdges(Apply(s, a))) <==> !Reaches(AccountEdges(s), job.target, job.source)
  {
    var job := Restarted(s, a).value.1;
    JobStepEdges(s, a.job, job);
    AddEdge(AccountEdges(s), job.source, job.target);
  }

  // ----- Whole runs

  /** The step revives no job, or one whose target did not reach its source by then. */
  ghost predicate HarmlessAt(actions: seq<Action>, i: int)
    requires 0 <= i < |actions|
  {
    var s := Run(EMPTY, actions[..i]);
    Revives(s, actions[i]) ==>
      var job := Restarted(s, actions[i]).value.1;
      !Reaches(AccountEdges(s), job.target, job.source)
  }

  ghost predicate RevivalsHarmless(actions: seq<Action>) {
    forall i :: 0 <= i < |actions| ==> HarmlessAt(actions, i)
  }

  /** The steps never start or finish a job that had ended. */
  ghost predicate NeverRestarts(actions: seq<Action>) {
    forall i :: 0 <= i < |actions| && (actions[i].Start? || actions[i].Finish?) ==>
      var jobs := Run(EMPTY, actions[..i]).jobs;
      actions[i].job in jobs ==> jobs[actions[i].job].status in {Pending, Running}
  }

  /** Without restarts there is nothing to revive. */
  lemma NoRestartsHarmless(actions: seq<Action>)
    requires NeverRestarts(actions)
    ensures RevivalsHarmless(actions)
  {
    forall i | 0 <= i < |actions| ensures HarmlessAt(actions, i) {
      var s := Run(EMPTY, actions[..i]);
      if Revives(s, actions[i]) {
        RevivedWasTerminal(s, actions[i]);
      }
    }
  }

  lemma EmptyAcyclic()
    ensures Acyclic(AccountEdges(EMPTY)) && Acyclic(RuleEdges(EMPTY.rules)) && UniqueEndpoints(EMPTY.rules)
  {
  }

  /** Over every run the stored rules have no account cycle and no repeated endpoint pair. */
  lemma {:induction false} RunsKeepRules(actions: seq<Action>)
    ensures Acyclic(RuleEdges(Run(EMPTY, actions).rules)) && UniqueEndpoints(Run(EMPTY, actions).rules)
  {
    if actions == [] {
      EmptyAcyclic();
    } else {
      var n := |actions| - 1;
      RunsKeepRules(actions[..n]);
      StepKeepsRules(Run(EMPTY, actions[..n]), actions[n]);
    }
  }

  /** Every state the run passes through has no account cycle among rules and reservations. */
  ghost predicate AcyclicThroughout(actions: seq<Action>) {
    forall i :: 0 <= i <= |actions| ==> Acyclic(AccountEdges(Run(EMPTY, actions[..i])))
  }

  lemma NextState(actions: seq<Action>, i: nat)
    requires i < |actions|
    ensures Run(EMPTY, actions[..i + 1]) == Apply(Run(EMPTY, actions[..i]), actions[i])
  {
    assert actions[..i + 1][..i] == actions[..i];
  }

  /** A step from an acyclic state stays acyclic exactly when it is harmless. */
  lemma HarmlessExactly(actions: seq<Action>, i: nat)
    requires i < |actions| && Acyclic(AccountEdges(Run(EMPTY, actions[..i])))
    ensures Acyclic(AccountEdges(Run(EMPTY, actions[..i + 1]))) <==> HarmlessAt(actions, i)
  {
    var s := Run(EMPTY, actions[..i]);
    NextState(actions, i);
    if Revives(s, actions[i]) {
      ReviveExact(s, actions[i]);
    } else {
      StepKeepsAll(s, actions[i]);
    }
  }

  lemma {:induction false} HarmlessAcyclic(actions: seq<Action>, n: nat)
    requires RevivalsHarmless(actions) && n <= |actions|
    ensures Acyclic(AccountEdges(Run(EMPTY, actions[..n])))
  {
    if n == 0 {
      EmptyAcyclic();
    } else {
      HarmlessAcyclic(actions, n - 1);
      HarmlessExactly(actions, n - 1);
    }
  }

  /**
   Rules together with reservations have no account cycle anywhere in a run exactly when every job
   revived in it had, by then, no way back from its target to its source.
   */
  lemma RunsKeepAll(actions: seq<Action>)
    ensures AcyclicThroughout(actions) <==> RevivalsHarmless(actions)
  {
    if RevivalsHarmless(actions) {
      forall i | 0 <= i <= |actions| ensures Acyclic(AccountEdges(Run(EMPTY, actions[..i]))) {
        HarmlessAcyclic(actions, i);
      }
    }
    if AcyclicThroughout(actions) {
      forall i | 0 <= i < |actions| ensures HarmlessAt(actions, i) {
        assert Acyclic(AccountEdges(Run(EMPTY, actions[..i + 1])));
        HarmlessExactly(actions, i);
      }
    }
  }

  /** The end of such a run. */
  lemma EndsAcyclic(actions: seq<Action>)
    requires RevivalsHarmless(actions)
    ensures Acyclic(AccountEdges(Run(EMPTY, actions)))
  {
    HarmlessAcyclic(actions, |actions|);
    assert actions[..|actions|] == actions;
  }

  lemma ReservationIsClear(s: State, id: JobId, target: Endpoint)
    requires Acyclic(AccountEdges(s)) && id in s.jobs && Reserves(s.jobs[id]) && target.account == s.jobs[id].target
    ensures RuleVerdict(s, SourceOf(s.jobs[id]), target) == Clear && SourceOf(s.jobs[id]) != target
  {
    var job := s.jobs[id];
    assert (job.source, job.target) in AccountEdges(s);
    RuleVerdictExact(s, SourceOf(job), target);
    DistinctEndpoints(s, SourceOf(job), target);
  }

  /**
   After any run whose revivals were harmless, promoting a reserved edge is never refused as a feedback loop
   or for equal endpoints, although the reservation itself is in the searched graph.
   */
  lemma PromotionNeverLoops(actions: seq<Action>, id: JobId, checks: Checks)
    requires RevivalsHarmless(actions)
    requires var s := Run(EMPTY, actions); id in s.jobs && Reserves(s.jobs[id])
    ensures CreateOutcome(Run(EMPTY, actions), id, checks, true) != Refused(FeedbackLoop)
    ensures CreateOutcome(Run(EMPTY, actions), id, checks, true) != Refused(SameEndpoint)
  {
    var s := Run(EMPTY, actions);
    EndsAcyclic(actions);
    if s.jobs[id].targetPlaylist.Some? {
      ReservationIsClear(s, id, TargetOf(s.jobs[id]));
    }
  }

  /** With its outside checks passing, such a promotion ends with an active rule. */
  lemma PromotionSucceeds(actions: seq<Action>, id: JobId, rule: RuleId)
    requires RevivalsHarmless(actions)
    requires var s := Run(EMPTY, actions);
             && Promotable(s, id) && Reserves(s.jobs[id]) && rule !in s.rules
             && !s.jobs[id].partial && s.jobs[id].targetPlaylist.Some?
    ensures var t := AfterPromote(Run(EMPTY, actions), id, rule, Checks(true, true));
            && t.jobs[id].intent.Active?
            && HasEndpoints(t.rules, t.jobs[id].intent.rule, SourceOf(t.jobs[id]), TargetOf(t.jobs[id]))
  {
    var s := Run(EMPTY, actions);
    EndsAcyclic(actions);
    ReservedPromotion(s, id, rule);
  }

  lemma ReservedPromotion(s: State, id: JobId, rule: RuleId)
    requires Acyclic(AccountEdges(s)) && Promotable(s, id) && Reserves(s.jobs[id]) && rule !in s.rules
    requires !s.jobs[id].partial && s.jobs[id].targetPlaylist.Some?
    ensures var t := AfterPromote(s, id, rule, Checks(true, true));
            && t.jobs[id].intent.Active?
            && HasEndpoints(t.rules, t.jobs[id].intent.rule, SourceOf(t.jobs[id]), TargetOf(t.jobs[id]))
  {
    var source, target := SourceOf(s.jobs[id]), TargetOf(s.jobs[id]);
    ReservationIsClear(s, id, target);
    assert Precheck(s, id, Checks(true, true)).None?;
    var outcome := CreateOutcome(s, id, Checks(true, true), true);
    if outcome.Existing? {
      assert HasEndpoints(s.rules, outcome.rule, source, target);
    } else {
      assert outcome.Created?;
    }
  }

  lemma StoredRuleIsClear(s: State, id: RuleId)
    requires Acyclic(AccountEdges(s)) && id in s.rules
    ensures RuleVerdict(s.(rules := s.rules - {id}), s.rules[id].source, s.rules[id].target) == Clear
  {
    var t := s.(rules := s.rules - {id});
    var r := s.rules[id];
    RuleRemoved(s.rules, id);
    assert AccountEdges(s) == AccountEdges(t) + {(r.source.account, r.target.account)};
    AcyclicSubgraph(AccountEdges(t), AccountEdges(s));
    AddEdge(AccountEdges(t), r.source.account, r.target.account);
    RuleVerdictExact(t, r.source, r.target);
  }

  /** After any such run, resuming a rule is never refused as a feedback loop. */
  lemma ResumeNeverLoops(actions: seq<Action>, id: RuleId)
    requires RevivalsHarmless(actions) && id in Run(EMPTY, actions).rules
    ensures var s := Run(EMPTY, actions);
            RuleVerdict(s.(rules := s.rules - {id}), s.rules[id].source, s.rules[id].target) == Clear
  {
    EndsAcyclic(actions);
    StoredRuleIsClear(Run(EMPTY, actions), id);
  }

  /** In a state such runs reach, pausing an idle rule and resuming it gives the same state back. */
  lemma PauseResume(s: State, id: RuleId)
    requires Acyclic(AccountEdges(s)) && id in s.rules && s.rules[id] == NewRule(s.rules[id].source, s.rules[id].target)
    ensures Apply(Apply(s, Pause(id)), Resume(id, true)) == s
  {
    var t := Apply(s, Pause(id));
    RuleStepAcyclic(s, id, t.rules[id]);
    StoredRuleIsClear(t, id);
    assert t.rules[id := s.rules[id]] == s.rules;
  }

  /** Deleting a rule that was just created gives the stored rules back. */
  lemma CreateDelete(s: State, jobId: JobId, id: RuleId, checks: Checks)
    requires id !in s.rules
    ensures Apply(Apply(s, Create(jobId, id, checks)), Delete(id)) == s
  {
    var t := Apply(s, Create(jobId, id, checks));
    if id in t.rules {
      assert t.rules - {id} == s.rules;
    }
  }

  /** With no account cycle there is no playlist cycle either. */
  lemma PlaylistsAcyclic(rules: map<RuleId, Rule>)
    requires Acyclic(RuleEdges(rules))
    ensures Acyclic(PlaylistEdges(rules))
  {
    forall a, b | (a, b) in PlaylistEdges(rules) ensures !Reaches(PlaylistEdges(rules), b, a) {
      assert (a.account, b.account) in RuleEdges(rules);
      if Reaches(PlaylistEdges(rules), b, a) {
        var p :| PathFromTo(PlaylistEdges(rules), p, b, a);
        PathProjects(PlaylistEdges(rules), RuleEdges(rules), AccountOf, p, b, a);
      }
    }
  }

  // ----- When a reservation holds, and when it ends

  /** A continuous job still on its way to a rule: unfinished, or finished with its setup not yet tried. */
  predicate Open(job: Job) {
    && job.manual && |job.playlists| == 1
    && match job.status
       case Pending => job.intent != NoIntent
       case Running => job.intent != NoIntent
       case Done => job.intent == Requested
       case Failed => false
  }

  lemma ReservesExactly(job: Job)
    ensures Reserves(job) <==> Open(job)
  {
  }

  /** The edges of the open jobs other than `id`. */
  ghost function OpenEdges(jobs: map<JobId, Job>, id: JobId): Graph<Account> {
    set j | j in jobs && j != id && Open(jobs[j]) :: (jobs[j].source, jobs[j].target)
  }

  lemma OthersOpen(jobs: map<JobId, Job>, jobs': map<JobId, Job>, id: JobId)
    requires jobs.Keys == jobs'.Keys && forall j :: j in jobs && j != id ==> jobs[j] == jobs'[j]
    ensures OpenEdges(jobs, id) == OpenEdges(jobs', id)
  {
    forall e ensures e in OpenEdges(jobs, id) <==> e in OpenEdges(jobs', id) {
      if e in OpenEdges(jobs, id) {
        var j :| j in jobs && j != id && Open(jobs[j]) && e == (jobs[j].source, jobs[j].target);
        assert jobs'[j] == jobs[j];
      }
      if e in OpenEdges(jobs', id) {
        var j :| j in jobs' && j != id && Open(jobs'[j]) && e == (jobs'[j].source, jobs'[j].target);
        assert jobs[j] == jobs'[j];
      }
    }
  }

  lemma EdgesWithout(s: State, id: JobId)
    requires id in s.jobs ==> !Open(s.jobs[id])
    ensures AccountEdges(s) == RuleEdges(s.rules) + OpenEdges(s.jobs, id)
  {
    forall j | j in s.jobs ensures Reserves(s.jobs[j]) <==> Open(s.jobs[j]) {
      ReservesExactly(s.jobs[j]);
    }
    forall e | e in ReservedEdges(s.jobs) ensures e in OpenEdges(s.jobs, id) {
      var j :| j in s.jobs && Reserves(s.jobs[j]) && e == (s.jobs[j].source, s.jobs[j].target);
    }
  }

  /** A finished job whose intent is neither missing nor active, with nothing left to review. */
  predicate Finished(s: State, id: JobId) {
    && id in s.jobs && s.jobs[id].manual && s.jobs[id].status == Done && !s.jobs[id].unresolved
    && (s.jobs[id].intent == Requested || s.jobs[id].intent == SetupFailed)
  }

  /**
   Trying the setup of a finished job settles it, for good or ill: its intent becomes active exactly
   when there is a rule for it, and it reserves nothing any more. Any other job is left alone.
   */
  lemma PromotionSettles(s: State, id: JobId, rule: RuleId, checks: Checks)
    requires rule !in s.rules
    ensures var t := AfterPromote(s, id, rule, checks);
            if Finished(s, id) then
              && t.jobs.Keys == s.jobs.Keys && (forall j :: j in s.jobs && j != id ==> t.jobs[j] == s.jobs[j])
              && t.jobs[id] == s.jobs[id].(intent := t.jobs[id].intent)
              && t.jobs[id].intent == (match CreateOutcome(s, id, checks, true)
                                       case Created => Active(rule)
                                       case Existing(other) => Active(other)
                                       case Refused(_) => SetupFailed)
              && AccountEdges(t) == RuleEdges(t.rules) + OpenEdges(s.jobs, id)
            else t == s
  {
    var t := AfterPromote(s, id, rule, checks);
    if Finished(s, id) {
      assert Promotable(s, id);
      EdgesWithout(t, id);
      OthersOpen(s.jobs, t.jobs, id);
    }
  }

  /** Giving up on a finished job's review ends its reservation too. */
  lemma ExpirySettles(s: State, id: JobId)
    requires id in s.jobs && s.jobs[id].intent == Requested
    ensures var t := Apply(s, ExpireReview(id));
            && t.rules == s.rules && t.jobs == s.jobs[id := s.jobs[id].(intent := SetupFailed)]
            && (s.jobs[id].status == Done ==> AccountEdges(t) == RuleEdges(s.rules) + OpenEdges(s.jobs, id))
  {
    var t := Apply(s, ExpireReview(id));
    if s.jobs[id].status == Done {
      EdgesWithout(t, id);
      OthersOpen(s.jobs, t.jobs, id);
    }
  }

  /** A lone job whose setup was refused leaves no edge, so any request is clear. */
  lemma LoneSetupFailed(s: State, source: Endpoint, target: Account)
    requires s.rules == map[] && s.jobs.Keys == {1} && s.jobs[1].status == Done && s.jobs[1].intent == SetupFailed
    requires source.account != target
    ensures RequestVerdict(s, source, target) == Clear
  {
    EdgesWithout(s, 1);
    assert AccountEdges(s) == {};
    NoEdgesNoReach(AccountEdges(s), target, source.account);
    RequestVerdictExact(s, source, target);
  }

  /** The promotion of a lone finished job that a provider refuses. */
  lemma LoneRefused(s: State, rule: RuleId)
    requires s.rules == map[] && s.jobs.Keys == {1} && Finished(s, 1)
    ensures var t := Apply(s, Promote(1, rule, Checks(true, false)));
            t.rules == map[] && t.jobs.Keys == {1} && t.jobs[1].status == Done && t.jobs[1].intent == SetupFailed
  {
    PromotionSettles(s, 1, rule, Checks(true, false));
    CreateExactly(s, 1, rule, Checks(true, false), true);
  }

  /** A migration that finishes, but whose setup is refused by a provider. */
  function RefusedSetupRun(source: Endpoint, target: Endpoint, rule: RuleId): seq<Action> {
    [Request(1, source.account, Continuous(source.playlist), target.account, FINE), Start(1),
      Finish(1, Some(target.playlist), false), Promote(1, rule, Checks(true, false))]
  }

  /** After a refused setup the way back is free again. */
  lemma RefusedSetupFreesWayBack(source: Endpoint, target: Endpoint, rule: RuleId)
    requires source.account != target.account
    ensures var s := Run(EMPTY, RefusedSetupRun(source, target, rule));
            && 1 in s.jobs && s.jobs[1].status == Done && s.jobs[1].intent == SetupFailed
            && RequestVerdict(s, target, source.account) == Clear
  {
    var a := RefusedSetupRun(source, target, rule);
    FourSteps(EMPTY, a);
    FirstRequest(EMPTY, 1, source, target.account);
    var s3 := Apply(Apply(Apply(EMPTY, a[0]), a[1]), a[2]);
    assert s3.jobs.Keys == {1} && s3.rules == map[] && Finished(s3, 1);
    LoneRefused(s3, rule);
    LoneSetupFailed(Apply(s3, a[3]), target, source.account);
  }

  // ----- What is stored, and when

  /** Some open job is on its way from this playlist to this account. */
  ghost predicate OpenBetween(s: State, source: Endpoint, target: Account) {
    exists id :: id in s.jobs && Open(s.jobs[id]) && s.jobs[id].source == source.account &&
                 s.jobs[id].playlists[0] == source.playlist && s.jobs[id].target == target
  }

  lemma RequestVerdictExact(s: State, source: Endpoint, target: Account)
    ensures RequestVerdict(s, source, target) == Clear <==>
            !OpenBetween(s, source, target) && !Reaches(AccountEdges(s), target, source.account)
    ensures RequestVerdict(s, source, target) == AlreadyPending <==> OpenBetween(s, source, target)
  {
    if PendingSync(source, target) in PendingSyncs(s.jobs) {
      var id :| id in s.jobs && Reserves(s.jobs[id]) && Reservation(s.jobs[id]) == PendingSync(source, target);
      ReservesExactly(s.jobs[id]);
    }
    if OpenBetween(s, source, target) {
      var id :| id in s.jobs && Open(s.jobs[id]) && s.jobs[id].source == source.account &&
        s.jobs[id].playlists[0] == source.playlist && s.jobs[id].target == target;
      ReservesExactly(s.jobs[id]);
      assert Reservation(s.jobs[id]) in PendingSyncs(s.jobs);
    }
  }

  /** A request stores a pending job for just what was selected, or nothing. */
  lemma RequestStores(s: State, id: JobId, source: Account, selection: Selection, target: Account, preflight: Preflight)
    requires id !in s.jobs
    ensures var t := Apply(s, Request(id, source, selection, target, preflight));
            var continuous := selection.continuous;
            if (selection.playlists != [] || selection.library)
               && (continuous ==> selection.live && |selection.playlists| == 1)
               && (continuous ==> !selection.partial && !selection.library)
               && (continuous ==> !OpenBetween(s, Endpoint(source, selection.playlists[0]), target)
                                  && !Reaches(AccountEdges(s), target, source))
               && preflight.ok && (preflight.warnings ==> preflight.acknowledged) && preflight.queued
            then t == s.(jobs := s.jobs[id := Job(true, source, selection.playlists, selection.partial, target, None,
                                                  Pending, if continuous then Requested else NoIntent, false)])
            else t == s
  {
    if selection.continuous && |selection.playlists| == 1 {
      RequestVerdictExact(s, Endpoint(source, selection.playlists[0]), target);
    }
  }

  /** Some rule has these endpoints. */
  ghost predicate RuleBetween(s: State, source: Endpoint, target: Endpoint) {
    exists id :: id in s.rules && s.rules[id].source == source && s.rules[id].target == target
  }

  /** A migration a rule can be made from: done, of one whole playlist, nothing unresolved, its target known. */
  predicate Complete(s: State, id: JobId) {
    && id in s.jobs && s.jobs[id].manual && s.jobs[id].status == Done
    && |s.jobs[id].playlists| == 1 && !s.jobs[id].partial && !s.jobs[id].unresolved
    && s.jobs[id].targetPlaylist.Some?
  }

  /**
   A rule is created exactly from a complete migration whose endpoints have no rule yet and whose target
   account does not reach its source account, with the outside checks passing; it is stored enabled, idle
   and scheduled, on the migration's endpoints. Whatever else happens changes nothing.
   */
  lemma CreateExactly(s: State, id: JobId, rule: RuleId, checks: Checks, allowExisting: bool)
    ensures CreateOutcome(s, id, checks, allowExisting) == Created <==>
            && checks.scheduleOk && checks.providersOk && Complete(s, id)
            && var job := s.jobs[id];
            && !RuleBetween(s, Endpoint(job.source, job.playlists[0]), Endpoint(job.target, job.targetPlaylist.value))
            && !Reaches(AccountEdges(s), job.target, job.source)
    ensures var t := AfterCreate(s, id, rule, checks, allowExisting);
            if CreateOutcome(s, id, checks, allowExisting) == Created then
              var job := s.jobs[id];
              t == s.(rules := s.rules[rule := Rule(Endpoint(job.source, job.playlists[0]),
                                                    Endpoint(job.target, job.targetPlaylist.value),
                                                    true, Idle, true, false, false)])
            else t == s
    ensures CreateOutcome(s, id, checks, allowExisting).Existing? ==>
              && allowExisting && Complete(s, id)
              && var job, other := s.jobs[id], CreateOutcome(s, id, checks, allowExisting).rule;
              && other in s.rules && s.rules[other].source == Endpoint(job.source, job.playlists[0])
              && s.rules[other].target == Endpoint(job.target, job.targetPlaylist.value)
  {
    if Complete(s, id) {
      var source, target := SourceOf(s.jobs[id]), TargetOf(s.jobs[id]);
      RuleVerdictExact(s, source, target);
      if !Reaches(AccountEdges(s), target.account, source.account) {
        DistinctEndpoints(s, source, target);
      }
      if id' :| HasEndpoints(s.rules, id', source, target) {
        assert RuleBetween(s, source, target);
      }
      if RuleBetween(s, source, target) {
        var id' :| id' in s.rules && s.rules[id'].source == source && s.rules[id'].target == target;
        assert HasEndpoints(s.rules, id', source, target);
      }
    }
  }

  // ----- Rules run exactly while they are idle

  ghost predicate StatusAt(r: Rule) {
    r.enabled == r.scheduled && (r.enabled <==> r.status == Idle)
  }

  ghost predicate StatusOk(rules: map<RuleId, Rule>) {
    forall id :: id in rules ==> StatusAt(rules[id])
  }

  lemma StepKeepsStatus(s: State, a: Action)
    requires StatusOk(s.rules)
    ensures StatusOk(Apply(s, a).rules)
  {
  }

  /** Over every run a rule is enabled, scheduled and idle, or none of these. */
  lemma {:induction false} RunsKeepStatus(actions: seq<Action>)
    ensures StatusOk(Run(EMPTY, actions).rules)
  {
    if actions != [] {
      var n := |actions| - 1;
      RunsKeepStatus(actions[..n]);
      StepKeepsStatus(Run(EMPTY, actions[..n]), actions[n]);
    }
  }

  // ----- A restarted job can close a cycle

  lemma NoEdgesNoReach(e: Graph<Account>, a: Account, b: Account)
    requires e == {} && a != b
    ensures !Reaches(e, a, b)
  {
    if Reaches(e, a, b) {
      var p :| PathFromTo(e, p, a, b);
      PathStaysInside(e, {a}, p, a, b);
    }
  }

  /** One full playlist, to be kept in sync. */
  function Continuous(playlist: string): Selection {
    Selection(true, [playlist], false, false, true)
  }

  const FINE := Preflight(true, false, false, true)

  /** The way back is requested while the way there has failed; then the failed job is started again. */
  function RestartRun(source: Endpoint, back: Endpoint): seq<Action> {
    [Request(1, source.account, Continuous(source.playlist), back.account, FINE), Start(1), Fail(1),
      Request(2, back.account, Continuous(back.playlist), source.account, FINE), Start(1)]
  }

  /** The restarted job finishes and its promotion is tried, every check outside the graph passing. */
  function LostRuleRun(source: Endpoint, back: Endpoint, rule: RuleId): seq<Action> {
    RestartRun(source, back) + [Finish(1, Some(back.playlist), false), Promote(1, rule, Checks(true, true))]
  }

  lemma {:induction false} FourSteps(s: State, a: seq<Action>)
    requires |a| == 4
    ensures Run(s, a) == Apply(Apply(Apply(Apply(s, a[0]), a[1]), a[2]), a[3])
  {
    var c, d, e := a[..3], a[..2], a[..1];
    assert c[..2] == d && d[..1] == e && e[..0] == [];
    assert Run(s, e) == Apply(s, a[0]);
    assert Run(s, d) == Apply(Run(s, e), a[1]);
    assert Run(s, c) == Apply(Run(s, d), a[2]);
  }

  lemma RunSteps(s: State, a: seq<Action>)
    requires |a| == 5
    ensures Run(s, a) == Apply(Apply(Apply(Apply(Apply(s, a[0]), a[1]), a[2]), a[3]), a[4])
  {
    FourSteps(s, a[..4]);
  }

  /** A request is accepted while no edge exists. */
  lemma FirstRequest(s: State, id: JobId, source: Endpoint, target: Account)
    requires AccountEdges(s) == {} && PendingSyncs(s.jobs) == {} && id !in s.jobs && source.account != target
    ensures var selection := Continuous(source.playlist);
            Apply(s, Request(id, source.account, selection, target, FINE))
            == s.(jobs := s.jobs[id := RequestedJob(source.account, selection, target)])
  {
    NoEdgesNoReach(AccountEdges(s), target, source.account);
  }

  lemma TwoWayLoop(s: State, source: Endpoint, back: Endpoint)
    requires 1 in s.jobs && 2 in s.jobs
    requires s.jobs[1] == RequestedJob(source.account, Continuous(source.playlist), back.account).(status := Running)
    requires s.jobs[2] == RequestedJob(back.account, Continuous(back.playlist), source.account)
    ensures !Acyclic(AccountEdges(s))
    ensures RuleVerdict(s, source, back) == MutualPending
  {
    assert (s.jobs[1].source, s.jobs[1].target) in ReservedEdges(s.jobs);
    assert (s.jobs[2].source, s.jobs[2].target) in ReservedEdges(s.jobs);
    ReachesItself(AccountEdges(s), source.account);
    ReachesStep(AccountEdges(s), back.account, source.account, source.account);
    assert Reservation(s.jobs[2]) in PendingSyncs(s.jobs);
  }

  lemma RestartReaches(source: Endpoint, back: Endpoint)
    requires source.account != back.account
    ensures var s := Run(EMPTY, RestartRun(source, back));
            && s.rules == map[] && s.jobs.Keys == {1, 2}
            && s.jobs[1] == RequestedJob(source.account, Continuous(source.playlist), back.account).(status := Running)
            && s.jobs[2] == RequestedJob(back.account, Continuous(back.playlist), source.account)
  {
    var there := RequestedJob(source.account, Continuous(source.playlist), back.account);
    var a := RestartRun(source, back);
    RunSteps(EMPTY, a);
    FirstRequest(EMPTY, 1, source, back.account);
    var s3 := Apply(Apply(Apply(EMPTY, a[0]), a[1]), a[2]);
    assert s3.jobs == map[1 := there.(status := Failed)] && s3.rules == map[];
    assert AccountEdges(s3) == {};
    FirstRequest(s3, 2, back, source.account);
  }

  lemma LostPromotion(s: State, source: Endpoint, back: Endpoint, rule: RuleId)
    requires source.account != back.account && s.rules == map[] && s.jobs.Keys == {1, 2}
    requires s.jobs[1] == RequestedJob(source.account, Continuous(source.playlist), back.account).(status := Done,
             targetPlaylist := Some(back.playlist))
    requires s.jobs[2] == RequestedJob(back.account, Continuous(back.playlist), source.account)
    ensures var t := AfterPromote(s, 1, rule, Checks(true, true));
            t.jobs[1].intent == SetupFailed && t.rules == map[]
  {
    assert Reservation(s.jobs[2]) in PendingSyncs(s.jobs);
    assert Precheck(s, 1, Checks(true, true)).None?;
    assert CreateOutcome(s, 1, Checks(true, true), true) == Refused(FeedbackLoop);
  }

  /**
   Between any two accounts: request one way, let that job fail, request the way back, restart the
   failed job. The graph now has a cycle; when the job finishes, its promotion is refused and no rule is stored.
   */
  lemma RestartCanLoop(source: Endpoint, back: Endpoint, rule: RuleId)
    requires source.account != back.account
    ensures !Acyclic(AccountEdges(Run(EMPTY, RestartRun(source, back))))
    ensures var t := Run(EMPTY, LostRuleRun(source, back, rule));
            1 in t.jobs && t.jobs[1].intent == SetupFailed && t.rules == map[]
  {
    var a := LostRuleRun(source, back, rule);
    RestartReaches(source, back);
    var s := Run(EMPTY, RestartRun(source, back));
    TwoWayLoop(s, source, back);
    assert a[..6][..5] == RestartRun(source, back) && a[..6][5] == a[5];
    assert Run(EMPTY, a[..6]) == Apply(s, a[5]);
    LostPromotion(Apply(s, a[5]), source, back, rule);
  }
}
