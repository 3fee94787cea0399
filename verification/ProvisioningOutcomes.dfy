/** Leases, retries and endings of provisioning jobs, on the times and counters themselves. */
module ProvisioningOutcomes {
  import opened Common
  import opened Provisioning

  /** A job is taken back exactly when it is RUNNING and its lease ran out before now; it is due again at once. */
  lemma RecoveredExactlyWhen(w: World, id: nat)
    requires id in w.jobs
    ensures var j, w' := w.jobs[id], Next(w, Recover(id));
            && w' == w.(jobs := w'.jobs) && w'.jobs.Keys == w.jobs.Keys && w'.jobs - {id} == w.jobs - {id}
            && w'.jobs[id] == if j.status == RUNNING && j.lease.Some? && j.lease.value < w.clock
                              then j.(status := RETRY, nextAttempt := Some(w.clock), lease := None,
                                      recoveries := j.recoveries + 1)
                              else j
  {
  }

  /** A job is claimed exactly when it is PENDING or up for RETRY and due; the lease runs from now and the attempt
      counts. */
  lemma ClaimedExactlyWhen(w: World, worker: nat, id: nat)
    requires worker !in w.workers && id in w.jobs
    ensures var j, w' := w.jobs[id], Next(w, Claim(worker, id));
            if j.status in {PENDING, RETRY} && (j.nextAttempt.Some? ==> j.nextAttempt.value <= w.clock)
            then && w'.jobs == w.jobs[id := j.(status := RUNNING, attempts := j.attempts + 1, nextAttempt := None,
                                               lease := Some(w.clock + w.leaseSeconds))]
                 && w'.workers == w.workers[worker := Verifying(id)] && w'.bots == w.bots && w'.clock == w.clock
            else w' == w
  {
  }

  /** A failure of a RUNNING job is retried after the delay exactly when it may be and attempts are left, and otherwise
      ends it; a job that is no longer RUNNING is left alone. */
  lemma FailedExactlyWhen(w: World, worker: nat, id: nat, retryable: bool, delay: int)
    requires worker in w.workers && w.workers[worker] == Failing(id, retryable) && id in w.jobs
    ensures var j, w' := w.jobs[id], Next(w, MarkFailure(worker, delay));
            && w'.workers == w.workers - {worker} && w'.bots == w.bots && w'.clock == w.clock
            && w'.jobs == w.jobs[id := if j.status != RUNNING then j
                                       else if retryable && j.attempts < j.maxAttempts
                                         then j.(status := RETRY, nextAttempt := Some(w.clock + delay), lease := None)
                                       else j.(status := FAILED, lease := None, endings := j.endings + 1)]
  {
  }

  /** A verified job is READY exactly when it is still RUNNING, its tenant is active, and the identity is its tenant's
      or new and not lost in a race; a conflict raises, for a retry only when the race was lost. */
  lemma ConvergedExactlyWhen(w: World, worker: nat, id: nat, identity: nat, tenantActive: bool, raced: bool)
    requires worker in w.workers && w.workers[worker] == Verifying(id) && id in w.jobs
    ensures var j, w' := w.jobs[id], Next(w, Converge(worker, identity, tenantActive, raced));
            var foreign := identity in w.bots && w.bots[identity] != j.tenant;
            if j.status != RUNNING then w' == w.(workers := w.workers - {worker})
            else if !tenantActive || foreign then w' == w.(workers := w.workers[worker := Failing(id, false)])
            else if identity !in w.bots && raced then w' == w.(workers := w.workers[worker := Failing(id, true)])
            else && w'.bots == w.bots[identity := j.tenant] && w'.workers == w.workers - {worker}
                 && w'.jobs == w.jobs[id := j.(status := READY, bot := Some(identity), lease := None,
                                               endings := j.endings + 1)]
  {
  }

  /** An administrator cancels exactly what waits and retries exactly what FAILED, with the attempts counted anew. */
  lemma AdministratorActsExactlyWhen(w: World, id: nat)
    requires id in w.jobs
    ensures var j := w.jobs[id];
            && Next(w, Cancel(id)).jobs == (if j.status in {PENDING, RETRY}
                                            then w.jobs[id := j.(status := CANCELLED, nextAttempt := None)] else w.jobs)
            && Next(w, AdminRetry(id)).jobs
               == (if j.status == FAILED
                   then w.jobs[id := j.(status := PENDING, attempts := 0, recoveries := 0, nextAttempt := None,
                                        lease := None, retries := j.retries + 1)] else w.jobs)
  {
  }

  /* ---------- leases on every run ---------- */

  ghost predicate Leased(w: World, j: Job) {
    && (j.status == RUNNING <==> j.lease.Some?)
    && (j.lease.Some? ==> j.lease.value <= w.clock + w.leaseSeconds)
  }

  lemma StepLeases(w: World, e: Event)
    requires forall id | id in w.jobs :: Leased(w, w.jobs[id])
    ensures Next(w, e).leaseSeconds == w.leaseSeconds
    ensures forall id | id in Next(w, e).jobs :: Leased(Next(w, e), Next(w, e).jobs[id])
  {
  }

  /** On every run exactly the RUNNING jobs have a lease, and none longer than the lease time from now; so a job that is
      neither finished nor abandoned can always be taken back once that time has passed. */
  lemma {:induction false} RunningIsLeased(leaseSeconds: int, events: seq<Event>)
    ensures var w := Run(Start(leaseSeconds), events);
            && w.leaseSeconds == leaseSeconds
            && forall id | id in w.jobs ::
                 && (w.jobs[id].status == RUNNING <==> w.jobs[id].lease.Some?)
                 && (w.jobs[id].lease.Some? ==> w.jobs[id].lease.value <= w.clock + leaseSeconds)
    decreases |events|
  {
    if events != [] {
      RunningIsLeased(leaseSeconds, events[..|events| - 1]);
      StepLeases(Run(Start(leaseSeconds), events[..|events| - 1]), events[|events| - 1]);
    }
  }

  /** A RUNNING job of any run is free again once more than the lease time has passed, whatever its worker does not. */
  lemma {:induction false} AbandonedIsRecovered(leaseSeconds: int, events: seq<Event>, id: nat, seconds: nat)
    requires id in Run(Start(leaseSeconds), events).jobs && seconds > leaseSeconds
    requires Run(Start(leaseSeconds), events).jobs[id].status == RUNNING
    ensures var w := Next(Next(Run(Start(leaseSeconds), events), Tick(seconds)), Recover(id));
            id in w.jobs && w.jobs[id].status == RETRY && w.jobs[id].nextAttempt == Some(w.clock)
  {
    RunningIsLeased(leaseSeconds, events);
    RecoveredExactlyWhen(Next(Run(Start(leaseSeconds), events), Tick(seconds)), id);
  }
}
