/** The handlers over one user's stored rules and jobs; each method body runs under the graph lock. */
module SyncHandlers {
  import opened Text
  import opened Tracks
  import opened Reachability
  import opened SyncGraph

  function RuleRow(r: Rule): (Endpoint, Endpoint) {
    (r.source, r.target)
  }

  function AccountRow(row: (Endpoint, Endpoint)): (Account, Account) {
    (row.0.account, row.1.account)
  }

  function PendingRow(p: PendingSync): (Account, Account) {
    (p.source.account, p.target)
  }

  function MapRows<A, B>(f: A -> B, rows: seq<A>): (r: seq<B>)
    ensures |r| == |rows| && forall i :: 0 <= i < |rows| ==> r[i] == f(rows[i])
  {
    seq(|rows|, i requires 0 <= i < |rows| => f(rows[i]))
  }

  lemma MappedSet<A, B>(f: A -> B, rows: seq<A>)
    ensures (set y | y in MapRows(f, rows)) == set x | x in rows :: f(x)
  {
    var r := MapRows(f, rows);
    forall x | x in rows ensures f(x) in r {
      var i :| 0 <= i < |rows| && rows[i] == x;
      assert r[i] == f(x);
    }
  }

  class SyncStore {
    var rules: map<RuleId, Rule>
    var jobs: map<JobId, Job>

    ghost function Current(): State
      reads this
    {
      State(rules, jobs)
    }

    ghost predicate Valid()
      reads this
    {
      UniqueEndpoints(rules) && Acyclic(RuleEdges(rules))
    }

    constructor ()
      ensures Valid() && Current() == EMPTY
    {
      rules := map[];
      jobs := map[];
    }

    method PendingContinuousSyncs() returns (edges: seq<PendingSync>)
      ensures (set e | e in edges) == PendingSyncs(jobs)
      ensures forall e :: e in edges <==> OpenBetween(Current(), e.source, e.target)
    {
      edges := [];
      var ids := Enumerate(jobs.Keys);
      for i := 0 to |ids|
        invariant forall e :: e in edges <==>
                exists k :: 0 <= k < i && Reserves(jobs[ids[k]]) && e == Reservation(jobs[ids[k]])
      {
        assert ids[i] in jobs;
        var job := jobs[ids[i]];
        if !job.manual || job.status !in {Pending, Running, Done} { continue; }
        if job.intent == NoIntent { continue; }
        if |job.playlists| != 1 { continue; }
        if job.status == Done && (job.intent.Active? || job.intent.SetupFailed?) { continue; }
        edges := edges + [PendingSync(Endpoint(job.source, job.playlists[0]), job.target)];
      }
      forall e ensures e in edges <==> e in PendingSyncs(jobs) {
        if e in PendingSyncs(jobs) {
          var id :| id in jobs && Reserves(jobs[id]) && e == Reservation(jobs[id]);
          assert id in ids;
        }
      }
      forall e: PendingSync ensures e in PendingSyncs(jobs) <==> OpenBetween(Current(), e.source, e.target) {
        RequestVerdictExact(Current(), e.source, e.target);
      }
    }

    /** The (source, target) columns of all rules but the excluded one. */
    method RuleRows(exclude: Option<RuleId>) returns (rows: seq<(Endpoint, Endpoint)>)
      ensures (set r | r in rows) == PlaylistEdges(if exclude.Some? then rules - {exclude.value} else rules)
    {
      rows := [];
      var ids := Enumerate(rules.Keys);
      for i := 0 to |ids|
        invariant forall r :: r in rows <==>
                exists k :: 0 <= k < i && exclude != Some(ids[k]) && r == RuleRow(rules[ids[k]])
      {
        assert ids[i] in rules;
        if exclude != Some(ids[i]) {
          rows := rows + [RuleRow(rules[ids[i]])];
        }
      }
      var kept := if exclude.Some? then rules - {exclude.value} else rules;
      forall r ensures r in rows <==> r in PlaylistEdges(kept) {
        if r in rows {
          var k :| 0 <= k < |ids| && exclude != Some(ids[k]) && r == RuleRow(rules[ids[k]]);
          assert ids[k] in ids && ids[k] in kept;
        }
        if r in PlaylistEdges(kept) {
          var id :| id in kept && r == (kept[id].source, kept[id].target);
          assert id in ids;
        }
      }
    }

    /** The check before a rule is stored or resumed: pending test, account search, playlist search. */
    method EnsureNoFeedbackLoop(source: Endpoint, target: Endpoint, exclude: Option<RuleId>) returns (v: Verdict)
      ensures v == RuleVerdict(Searched(Current(), exclude), source, target)
    {
      ghost var s := Searched(Current(), exclude);
      var pendingEdges := PendingContinuousSyncs();
      if PendingSync(target, source.account) in pendingEdges {
        return MutualPending;
      }
      var rows := RuleRows(exclude);
      var loop := AccountSearch(s, rows, pendingEdges, target.account, source.account);
      if loop {
        return AccountLoop;
      }
      var playlists := BuildAdjacency(map[], rows);
      assert EdgesOf(playlists) == PlaylistEdges(s.rules);
      var again := Search(playlists, [target], source);
      PlaylistSearchSilent(s, [target], target.account, source);
      v := if again then PlaylistLoop else Clear;
    }

    /** The check before a continuous migration is stored. */
    method EnsureNoContinuousSyncFeedback(source: Endpoint, target: Account) returns (v: Verdict)
      ensures v == RequestVerdict(Current(), source, target)
    {
      var rows := RuleRows(None);
      var pendingEdges := PendingContinuousSyncs();
      if PendingSync(source, target) in pendingEdges {
        return AlreadyPending;
      }
      var loop := AccountSearch(Current(), rows, pendingEdges, target, source.account);
      if loop {
        return AccountLoop;
      }
      var playlists := BuildAdjacency(map[], rows);
      assert EdgesOf(playlists) == PlaylistEdges(rules);
      var starts: seq<Endpoint> := [];
      var keys := Enumerate(playlists.Keys);
      for i := 0 to |keys|
        invariant forall x :: x in starts ==> x.account == target
      {
        if keys[i].account == target {
          starts := starts + [keys[i]];
        }
      }
      var again := Search(playlists, starts, source);
      PlaylistSearchSilent(Current(), starts, target, source);
      v := if again then PlaylistLoop else Clear;
    }

    /** Whether `goal` is reachable from `start` over the rule rows and the pending edges. */
    method AccountSearch(ghost s: State, rows: seq<(Endpoint, Endpoint)>, pendingEdges: seq<PendingSync>,
                         start: Account, goal: Account) returns (found: bool)
      requires (set r | r in rows) == PlaylistEdges(s.rules)
      requires (set e | e in pendingEdges) == PendingSyncs(s.jobs)
      ensures found <==> Reaches(AccountEdges(s), start, goal)
    {
      var accounts := BuildAdjacency(map[], MapRows(AccountRow, rows));
      accounts := BuildAdjacency(accounts, MapRows(PendingRow, pendingEdges));
      AccountRowsCover(s, rows, pendingEdges);
      assert EdgesOf(accounts) == AccountEdges(s);
      found := Search(accounts, [start], goal);
      assert forall x :: x in [start] <==> x == start;
    }

    // ----- Migrations

    /** Stores a new job; a continuous one only after the check, in the same locked step. */
    method CreateMigration(id: JobId, source: Account, selection: Selection, target: Account, preflight: Preflight)
      returns (v: Verdict)
      requires Valid() && id !in jobs
      modifies this
      ensures Valid() && Current() == Apply(old(Current()), Request(id, source, selection, target, preflight))
      ensures v == MigrationVerdict(old(Current()), source, selection, target, preflight)
      ensures v == Clear <==> id in jobs
      ensures rules == old(rules) && forall j :: j in old(jobs) ==> j in jobs && jobs[j] == old(jobs)[j]
    {
      if !WellFormed(selection) {
        return Malformed;
      }
      if selection.continuous {
        v := EnsureNoContinuousSyncFeedback(Endpoint(source, selection.playlists[0]), target);
        if v != Clear {
          return;
        }
      }
      if !preflight.ok {
        return PreflightFailed;
      }
      if preflight.warnings && !preflight.acknowledged {
        return Unacknowledged;
      }
      ghost var before := jobs;
      jobs := jobs[id := RequestedJob(source, selection, target)];
      if !preflight.queued {
        jobs := jobs - {id};
        assert jobs == before;
        return ImportRefused;
      }
      return Clear;
    }

    /** Sets a job running, whatever its status was. */
    method MarkJobStarted(id: JobId)
      requires Valid() && id in jobs
      modifies this`jobs
      ensures Valid() && Current() == Apply(old(Current()), Start(id))
      ensures jobs == old(jobs)[id := old(jobs)[id].(status := Running)]
    {
      jobs := jobs[id := jobs[id].(status := Running)];
    }

    method MarkJobDone(id: JobId, targetPlaylist: Option<string>, unresolved: bool)
      requires Valid() && id in jobs
      modifies this`jobs
      ensures Valid() && Current() == Apply(old(Current()), Finish(id, targetPlaylist, unresolved))
      ensures var job := old(jobs)[id];
              jobs == old(jobs)[id := job.(status := Done, targetPlaylist := targetPlaylist, unresolved := unresolved)]
    {
      jobs := jobs[id := jobs[id].(status := Done, targetPlaylist := targetPlaylist, unresolved := unresolved)];
    }

    method MarkJobFailed(id: JobId)
      requires Valid() && id in jobs
      modifies this`jobs
      ensures Valid() && Current() == Apply(old(Current()), Fail(id))
      ensures jobs == old(jobs)[id := old(jobs)[id].(status := Failed)]
    {
      jobs := jobs[id := jobs[id].(status := Failed)];
    }

    /** Gives up on an intent whose review details expired. */
    method ExpireContinuousSyncReview(id: JobId)
      requires Valid() && id in jobs
      modifies this`jobs
      ensures Valid() && Current() == Apply(old(Current()), ExpireReview(id))
      ensures jobs == if old(jobs)[id].intent == Requested then old(jobs)[id := old(jobs)[id].(intent := SetupFailed)]
                      else old(jobs)
    {
      if jobs[id].intent == NoIntent || jobs[id].intent.Active? || jobs[id].intent.SetupFailed? {
        return;
      }
      jobs := jobs[id := jobs[id].(intent := SetupFailed)];
    }

    // ----- Rules

    method EndpointRule(source: Endpoint, target: Endpoint) returns (r: Option<RuleId>)
      ensures r.Some? ==> HasEndpoints(rules, r.value, source, target)
      ensures r.None? ==> forall id :: !HasEndpoints(rules, id, source, target)
    {
      var ids := Enumerate(rules.Keys);
      for i := 0 to |ids|
        invariant forall k :: 0 <= k < i ==> !HasEndpoints(rules, ids[k], source, target)
      {
        assert ids[i] in rules;
        if rules[ids[i]].source == source && rules[ids[i]].target == target {
          return Some(ids[i]);
        }
      }
      forall id ensures !HasEndpoints(rules, id, source, target) {
        if id in rules {
          assert id in ids;
        }
      }
      return None;
    }

    /** Creates a rule from a finished migration. */
    method CreateSyncRule(jobId: JobId, ruleId: RuleId, checks: Checks, allowExisting: bool) returns (outcome: Outcome)
      requires Valid() && ruleId !in rules
      modifies this`rules
      ensures Valid() && outcome == CreateOutcome(old(Current()), jobId, checks, allowExisting)
      ensures Current() == AfterCreate(old(Current()), jobId, ruleId, checks, allowExisting)
    {
      ghost var s := Current();
      var refusal := Precheck(State(rules, jobs), jobId, checks);
      if refusal.Some? {
        return Refused(refusal.value);
      }
      var source, target := SourceOf(jobs[jobId]), TargetOf(jobs[jobId]);
      var existing := EndpointRule(source, target);
      if existing.Some? {
        OneRule(s, existing.value, source, target);
        return if allowExisting then Existing(existing.value) else Refused(DuplicateRule);
      }
      var verdict := EnsureNoFeedbackLoop(source, target, None);
      if verdict != Clear {
        return Refused(FeedbackLoop);
      }
      if !checks.providersOk {
        return Refused(ProviderRefused);
      }
      CreateKeeps(s, jobId, ruleId, checks, allowExisting);
      rules := rules[ruleId := NewRule(source, target)];
      return Created;
    }

    /** Promotes a finished continuous migration to a rule and records the outcome in its intent. */
    method EnsureContinuousSync(jobId: JobId, ruleId: RuleId, checks: Checks) returns (r: Option<RuleId>)
      requires Valid() && jobId in jobs && ruleId !in rules
      modifies this
      ensures Valid() && Current() == AfterPromote(old(Current()), jobId, ruleId, checks)
      ensures r.Some? <==> jobs[jobId].manual && jobs[jobId].status == Done && jobs[jobId].intent.Active?
      ensures r.Some? ==> jobs[jobId].intent == Active(r.value)
    {
      var job := jobs[jobId];
      if !job.manual || job.status != Done || job.intent == NoIntent {
        return None;
      }
      if job.intent.Active? {
        return Some(job.intent.rule);
      }
      if job.unresolved {
        return None;
      }
      var outcome := CreateSyncRule(jobId, ruleId, checks, true);
      if outcome.Refused? {
        jobs := jobs[jobId := job.(intent := SetupFailed)];
        return None;
      }
      var id := if outcome.Existing? then outcome.rule else ruleId;
      jobs := jobs[jobId := job.(intent := Active(id))];
      return Some(id);
    }

    method PauseSync(id: RuleId)
      requires Valid() && id in rules
      modifies this`rules
      ensures Valid() && Current() == Apply(old(Current()), Pause(id))
      ensures var r := old(rules)[id];
              var status := if r.unresolved then ReviewRequired else Paused;
              rules == old(rules)[id := Rule(r.source, r.target, false, status, false, r.running, r.unresolved)]
    {
      StepKeepsRules(Current(), Pause(id));
      var r := rules[id];
      var status := if r.unresolved then ReviewRequired else Paused;
      rules := rules[id := r.(enabled := false, scheduled := false, status := status)];
    }

    /** Re-checks the graph without the rule itself before enabling it. */
    method ResumeSync(id: RuleId, mirrorOk: bool) returns (resumed: bool)
      requires Valid() && id in rules
      modifies this`rules
      ensures Valid() && Current() == Apply(old(Current()), Resume(id, mirrorOk))
      ensures var r := old(rules)[id];
              resumed <==>
                !r.running && !r.unresolved && mirrorOk &&
                !Reaches(AccountEdges(State(old(rules) - {id}, old(jobs))), r.target.account, r.source.account)
      ensures var r := old(rules)[id];
              rules == if resumed then old(rules)[id := Rule(r.source, r.target, true, Idle, true, false, false)]
                       else old(rules)
    {
      StepKeepsRules(Current(), Resume(id, mirrorOk));
      RuleVerdictExact(State(rules - {id}, jobs), rules[id].source, rules[id].target);
      var r := rules[id];
      if r.running || r.unresolved {
        return false;
      }
      var verdict := EnsureNoFeedbackLoop(r.source, r.target, Some(id));
      if verdict != Clear || !mirrorOk {
        return false;
      }
      rules := rules[id := r.(enabled := true, status := Idle, scheduled := true)];
      return true;
    }

    method DeleteSync(id: RuleId) returns (deleted: bool)
      requires Valid() && id in rules
      modifies this`rules
      ensures Valid() && Current() == Apply(old(Current()), Delete(id))
      ensures deleted == !old(rules)[id].running
      ensures rules == if deleted then old(rules) - {id} else old(rules)
    {
      StepKeepsRules(Current(), Delete(id));
      if rules[id].running {
        return false;
      }
      rules := rules - {id};
      return true;
    }
  }

  // ----- Proof steps of the checks

  /** The state a check searches: without the excluded rule. */
  ghost function Searched(s: State, exclude: Option<RuleId>): State {
    if exclude.Some? then s.(rules := s.rules - {exclude.value}) else s
  }

  lemma AccountRowsCover(s: State, rows: seq<(Endpoint, Endpoint)>, pendingEdges: seq<PendingSync>)
    requires (set r | r in rows) == PlaylistEdges(s.rules)
    requires (set e | e in pendingEdges) == PendingSyncs(s.jobs)
    ensures (set r | r in MapRows(AccountRow, rows)) == RuleEdges(s.rules)
    ensures (set r | r in MapRows(PendingRow, pendingEdges)) == ReservedEdges(s.jobs)
  {
    MappedSet(AccountRow, rows);
    MappedSet(PendingRow, pendingEdges);
    var a, b := set r | r in rows :: AccountRow(r), set e | e in pendingEdges :: PendingRow(e);
    forall x ensures x in a <==> x in RuleEdges(s.rules) {
      if x in RuleEdges(s.rules) {
        var id :| id in s.rules && x == (s.rules[id].source.account, s.rules[id].target.account);
        assert (s.rules[id].source, s.rules[id].target) in PlaylistEdges(s.rules);
      }
      if x in a {
        var r :| r in rows && x == AccountRow(r);
        assert r in PlaylistEdges(s.rules);
      }
    }
    forall x ensures x in b <==> x in ReservedEdges(s.jobs) {
      if x in ReservedEdges(s.jobs) {
        var id :| id in s.jobs && Reserves(s.jobs[id]) && x == (s.jobs[id].source, s.jobs[id].target);
        assert Reservation(s.jobs[id]) in PendingSyncs(s.jobs);
      }
      if x in b {
        var e :| e in pendingEdges && x == PendingRow(e);
        assert e in PendingSyncs(s.jobs);
      }
    }
  }

  /** After a silent account search, no playlist search from the target account finds the source. */
  lemma PlaylistSearchSilent(s: State, starts: seq<Endpoint>, target: Account, source: Endpoint)
    requires forall x :: x in starts ==> x.account == target
    requires !Reaches(AccountEdges(s), target, source.account)
    ensures !FromStarts(PlaylistEdges(s.rules), starts, source)
  {
    if FromStarts(PlaylistEdges(s.rules), starts, source) {
      var x :| x in starts && Reaches(PlaylistEdges(s.rules), x, source);
      PlaylistPathProjects(s, x, source);
    }
  }

  lemma OneRule(s: State, id: RuleId, source: Endpoint, target: Endpoint)
    requires UniqueEndpoints(s.rules) && HasEndpoints(s.rules, id, source, target)
    ensures forall other :: HasEndpoints(s.rules, other, source, target) ==> other == id
  {
  }
}
