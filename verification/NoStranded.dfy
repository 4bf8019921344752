/** A target whose onboarding is under way always has a job that will carry it on. */
module NoStranded {
  import opened Common
  import opened JobModel
  import opened JobSteps
  import opened JobProtocol

  predicate Carries(job: Job, target: int) {
    job.Active() && job.target == target && job.key == Some(OnboardKey(target))
  }

  predicate Served(s: State, target: int) {
    target in s.targets && s.targets[target].step.Unfinished() ==>
      exists j :: j in s.rows && Carries(s.rows[j], target)
  }

  predicate AllServed(s: State) {
    forall t :: t in s.targets ==> Served(s, t)
  }

  lemma OnboardKeyIsNoRange(target: int)
    ensures !StartsWith(OnboardKey(target), BACKFILL_PREFIX)
    ensures StartsWith(OnboardKey(target), ONBOARD_PREFIX)
  {
    assert OnboardKey(target)[0] == 'o';
    assert BACKFILL_PREFIX[0] == 'b';
  }

  /** Asking for an onboarding job leaves an active one, new or old. */
  lemma OnboardEnqueueServes(cfg: Config, s: State, a: Action)
    requires RowsOk(s) && Enabled(cfg, s, a) && IsEnqueue(s, a) && !a.Schedule?
    requires EnqueueAll(cfg.settings, s.rows, s.nextId, EnqueuedParser(a), EnqueuedSpecs(s, a), a.now, a.flush).Some?
    ensures Served(Next(cfg, s, a), a.target)
  {
    var spec := OnboardSpec(a.target);
    var s' := Next(cfg, s, a);
    OnboardKeyIsNoRange(a.target);
    EnqueueKeepsOldRows(cfg, s, a);
    var found := Matches(s.rows, TELEGRAM, spec);
    if found == {} {
      assert EnqueuedSpecs(s, a)[0] == spec;
      var j := EnqueueServes(cfg.settings, s.rows, s.nextId, EnqueuedParser(a), EnqueuedSpecs(s, a), a.now, a.flush, 0);
      assert Carries(s'.rows[j], a.target);
    } else {
      var j := Member(found);
      OnboardKeyInjective(s.rows[j].target, a.target);
      assert Carries(s'.rows[j], a.target);
    }
  }

  lemma EnqueueKeepsServed(cfg: Config, s: State, a: Action, t: int)
    requires RowsOk(s) && AllServed(s) && Enabled(cfg, s, a) && IsEnqueue(s, a)
    ensures Served(Next(cfg, s, a), t)
  {
    var s' := Next(cfg, s, a);
    EnqueueKeepsOldRows(cfg, s, a);
    if EnqueueAll(cfg.settings, s.rows, s.nextId, EnqueuedParser(a), EnqueuedSpecs(s, a), a.now, a.flush).Some?
       && !a.Schedule? && t == a.target {
      OnboardEnqueueServes(cfg, s, a);
    } else if t in s'.targets && s'.targets[t].step.Unfinished() {
      assert Served(s, t);
      var j :| j in s.rows && Carries(s.rows[j], t);
      assert Carries(s'.rows[j], t);
    }
  }

  lemma FinishKeepsServed(cfg: Config, s: State, a: Action, t: int)
    requires RowsOk(s) && AllServed(s) && a.Finish? && Enabled(cfg, s, a)
    ensures Served(DoFinish(cfg, s, a), t)
  {
    var s' := DoFinish(cfg, s, a);
    if t in s'.targets && s'.targets[t].step.Unfinished() {
      var job := s.inflight[a.worker].job;
      assert KeyShape(s.rows[job]);
      OnboardKeyIsNoRange(t);
      if a.outcome.Deferred? && s.rows[job].onboard && s.rows[job].target == t {
        assert Carries(s'.rows[job], t);
      } else {
        assert Served(s, t);
        var j :| j in s.rows && Carries(s.rows[j], t);
        assert Carries(s'.rows[j], t);
      }
    }
  }

  lemma NextKeepsServed(cfg: Config, s: State, a: Action)
    requires RowsOk(s) && AllServed(s) && Enabled(cfg, s, a) && !a.Stop?
    ensures AllServed(Next(cfg, s, a))
  {
    var s' := Next(cfg, s, a);
    forall t | t in s'.targets
      ensures Served(s', t)
    {
      if IsEnqueue(s, a) {
        EnqueueKeepsServed(cfg, s, a, t);
      } else if a.Finish? {
        FinishKeepsServed(cfg, s, a, t);
      } else if s'.targets[t].step.Unfinished() {
        assert Served(s, t);
        var j :| j in s.rows && Carries(s.rows[j], t);
        assert Carries(s'.rows[j], t);
      }
    }
  }

  predicate NoStop(run: seq<Action>) {
    forall i :: 0 <= i < |run| ==> !run[i].Stop?
  }

  /** No stranded onboarding: over every run of onboarding requests, scheduler ticks,
      failovers, claims, outcomes, deferrals, failures, recoveries and manual retries,
      late finishes included, a target in step queued, resolving or joining has an
      active onboarding job of its own. Only the user's stop is left out. */
  lemma {:induction false} NoTargetIsStranded(cfg: Config, run: seq<Action>)
    requires IsRun(cfg, run) && NoStop(run)
    ensures AllServed(After(cfg, run))
  {
    if run != [] {
      NoTargetIsStranded(cfg, run[..|run| - 1]);
      EveryRunKeepsInv(cfg, run[..|run| - 1]);
      NextKeepsServed(cfg, After(cfg, run[..|run| - 1]), run[|run| - 1]);
    }
  }

  /** Exactly when a stop keeps the target served: its onboarding is not under way,
      or some onboarding job of it is out of the stop's reach, because it runs. */
  lemma StopKeepsServedIff(cfg: Config, s: State, a: Action)
    requires AllServed(s) && a.Stop? && Enabled(cfg, s, a)
    ensures AllServed(Next(cfg, s, a)) <==>
              (s.targets[a.target].step.Unfinished() ==>
                 exists j :: j in s.rows && Carries(s.rows[j], a.target) && !Stoppable(s.rows[j], a.parser, a.target))
  {
    var s' := Next(cfg, s, a);
    forall t | t in s'.targets && t != a.target
      ensures Served(s', t)
    {
      assert Served(s, t);
      if s.targets[t].step.Unfinished() {
        var j :| j in s.rows && Carries(s.rows[j], t);
        assert Carries(s'.rows[j], t);
      }
    }
    if s.targets[a.target].step.Unfinished() {
      if j :| j in s.rows && Carries(s.rows[j], a.target) && !Stoppable(s.rows[j], a.parser, a.target) {
        assert Carries(s'.rows[j], a.target);
        assert Served(s', a.target);
      } else {
        assert forall j :: j in s'.rows ==> !Carries(s'.rows[j], a.target);
        assert !Served(s', a.target);
      }
    }
  }

  /** A failover sends an active target of a shared account back to onboarding, with a job
      for it, and any other target to rest, without one. Nothing else happens to it, unless
      the query for its job finds two and the step is given up. */
  lemma FailoverOutcome(cfg: Config, s: State, a: Action)
    requires RowsOk(s) && a.Failover? && Enabled(cfg, s, a)
    ensures var t, s' := a.target, Next(cfg, s, a);
            var again := s.targets[t].active && a.shared;
            && s'.targets[t].active == s.targets[t].active
            && (again && !Ambiguous(s.rows, TELEGRAM, OnboardSpec(t), a.now) ==>
                  s'.targets[t].step == Queued && exists j :: j in s'.rows && Carries(s'.rows[j], t))
            && (!again ==> s'.targets[t].step == Idle && s'.rows == s.rows)
  {
    if s.targets[a.target].active && a.shared && !Ambiguous(s.rows, TELEGRAM, OnboardSpec(a.target), a.now) {
      AbandonedIff(cfg.settings, s.rows, s.nextId, TELEGRAM, EnqueuedSpecs(s, a), a.now, a.flush);
      OnboardEnqueueServes(cfg, s, a);
      assert Served(Next(cfg, s, a), a.target);
    }
  }

  /** A request to onboard makes the target active and queued, and the scheduler queues an
      idle target as it is, each with a job for it; a target that is not idle the scheduler
      leaves alone. */
  lemma OnboardOutcome(cfg: Config, s: State, a: Action)
    requires RowsOk(s) && (a.Onboard? || a.AutoOnboard?) && Enabled(cfg, s, a)
    ensures var t, s' := a.target, Next(cfg, s, a);
            var free := !Ambiguous(s.rows, TELEGRAM, OnboardSpec(t), a.now);
            && (a.Onboard? && free ==>
                  t in s'.targets && s'.targets[t].step == Queued && s'.targets[t].active
                  && exists j :: j in s'.rows && Carries(s'.rows[j], t))
            && (a.AutoOnboard? && s.targets[t].step.Idle? && free ==>
                  s'.targets[t].step == Queued && s'.targets[t].active == s.targets[t].active
                  && exists j :: j in s'.rows && Carries(s'.rows[j], t))
            && (a.AutoOnboard? && !s.targets[t].step.Idle? ==> s'.targets == s.targets && s'.rows == s.rows)
  {
    if IsEnqueue(s, a) && !Ambiguous(s.rows, TELEGRAM, OnboardSpec(a.target), a.now) {
      AbandonedIff(cfg.settings, s.rows, s.nextId, TELEGRAM, EnqueuedSpecs(s, a), a.now, a.flush);
      OnboardEnqueueServes(cfg, s, a);
      assert Served(Next(cfg, s, a), a.target);
    }
  }
}
