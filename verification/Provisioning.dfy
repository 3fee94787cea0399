/** Leased bot-provisioning jobs under workers that crash, outlive their lease and race for a bot
    identity, and the administrator's cancel and retry. Times are seconds. */
module Provisioning {
  import opened Common

  datatype Status = PENDING | RUNNING | RETRY | READY | FAILED | CANCELLED

  /** `recoveries`, `endings` and `retries` count expired leases since the last retry, moves to READY or FAILED, and
      administrator retries. */
  datatype Job = Job(tenant: nat, created: int, status: Status, attempts: nat, maxAttempts: int,
                     nextAttempt: Option<int>,
                     lease: Option<int>, bot: Option<nat>, recoveries: nat, endings: nat, retries: nat)

  /** A worker on a job; it may no longer hold the lease. */
  datatype Phase = Verifying(job: nat) | Failing(job: nat, retryable: bool)

  /** `bots` maps a Telegram identity to the tenant of its bot. */
  datatype World = World(clock: int, leaseSeconds: int, jobs: map<nat, Job>, bots: map<nat, nat>, workers: map<nat,
                         Phase>)

  datatype Event =
    | Tick(seconds: nat)
    | Submit(job: nat, tenant: nat, maxAttempts: int)
    | Recover(job: nat)
    | Claim(worker: nat, job: nat)
    | Converge(worker: nat, identity: nat, tenantActive: bool, raced: bool)
    | Raise(worker: nat, retryable: bool)
    | MarkFailure(worker: nat, delay: int)
    | Crash(worker: nat)
    | Cancel(job: nat)
    | AdminRetry(job: nat)

  function Start(leaseSeconds: int): World { World(0, leaseSeconds, map[], map[], map[]) }

  function Put(w: World, id: nat, j: Job): World { w.(jobs := w.jobs[id := j]) }
  function At(w: World, worker: nat, p: Phase): World { w.(workers := w.workers[worker := p]) }
  function Idle(w: World, worker: nat): World { w.(workers := w.workers - {worker}) }

  predicate Claimable(j: Job, now: int) {
    (j.status == PENDING || j.status == RETRY) && (j.nextAttempt.None? || j.nextAttempt.value <= now)
  }

  predicate Expired(j: Job, now: int) {
    j.status == RUNNING && j.lease.Some? && j.lease.value < now
  }

  function Recovered(j: Job, now: int): Job {
    if Expired(j, now) then j.(status := RETRY, nextAttempt := Some(now), lease := None, recoveries := j.recoveries + 1)
      else j
  }

  function Claimed(j: Job, now: int, leaseSeconds: int): Job {
    j.(status := RUNNING, attempts := j.attempts + 1, lease := Some(now + leaseSeconds), nextAttempt := None)
  }

  /** Filing a failure: only a RUNNING job moves, and it retries while attempts remain. */
  function Failed(j: Job, retryable: bool, now: int, delay: int): Job {
    if j.status != RUNNING then j
    else if retryable && j.attempts < j.maxAttempts
      then j.(status := RETRY, nextAttempt := Some(now + delay), lease := None)
    else j.(status := FAILED, lease := None, endings := j.endings + 1)
  }

  function Ready(j: Job, identity: nat): Job {
    j.(status := READY, bot := Some(identity), lease := None, endings := j.endings + 1)
  }

  /** The transaction that ends a verification: a bot of another tenant, an inactive tenant or a lost
      race raises; a job that is no longer RUNNING is left alone. */
  function Converged(w: World, worker: nat, id: nat, identity: nat, tenantActive: bool, raced: bool): World {
    if id !in w.jobs || w.jobs[id].status != RUNNING then Idle(w, worker)
    else if !tenantActive then At(w, worker, Failing(id, false))
    else if identity in w.bots && w.bots[identity] != w.jobs[id].tenant then At(w, worker, Failing(id, false))
    else if identity !in w.bots && raced then At(w, worker, Failing(id, true))
    else Idle(Put(w, id, Ready(w.jobs[id], identity)), worker).(bots := w.bots[identity := w.jobs[id].tenant])
  }

  function Next(w: World, e: Event): World {
    match e
    case Tick(seconds) => w.(clock := w.clock + seconds)
    case Submit(job, tenant, maxAttempts) =>
      if job in w.jobs then w
      else Put(w, job, Job(tenant, w.clock, PENDING, 0, maxAttempts, None, None, None, 0, 0, 0))
    case Recover(job) => if job in w.jobs then Put(w, job, Recovered(w.jobs[job], w.clock)) else w
    case Claim(worker, job) =>
      if worker !in w.workers && job in w.jobs && Claimable(w.jobs[job], w.clock)
      then At(Put(w, job, Claimed(w.jobs[job], w.clock, w.leaseSeconds)), worker, Verifying(job)) else w
    case Converge(worker, identity, tenantActive, raced) =>
      if worker in w.workers && w.workers[worker].Verifying?
      then Converged(w, worker, w.workers[worker].job, identity, tenantActive, raced) else w
    case Raise(worker, retryable) =>
      if worker in w.workers && w.workers[worker].Verifying?
        then At(w, worker, Failing(w.workers[worker].job, retryable)) else w
    case MarkFailure(worker, delay) =>
      if worker in w.workers && w.workers[worker].Failing? then
        var p := w.workers[worker];
        if p.job in w.jobs then Idle(Put(w, p.job, Failed(w.jobs[p.job], p.retryable, w.clock, delay)), worker)
          else Idle(w, worker)
      else w
    case Crash(worker) => Idle(w, worker)
    case Cancel(job) =>
      if job in w.jobs && (w.jobs[job].status == PENDING || w.jobs[job].status == RETRY)
      then Put(w, job, w.jobs[job].(status := CANCELLED, nextAttempt := None)) else w
    case AdminRetry(job) =>
      if job in w.jobs && w.jobs[job].status == FAILED
      then Put(w, job, w.jobs[job].(status := PENDING, attempts := 0, recoveries := 0, nextAttempt := None,
                                    lease := None, retries := w.jobs[job].retries + 1)) else w
  }

  function Run(w: World, events: seq<Event>): World
    decreases |events|
  {
    if events == [] then w else Next(Run(w, events[..|events| - 1]), events[|events| - 1])
  }

  /* ---------- every run ---------- */

  predicate Ended(s: Status) { s == READY || s == FAILED }

  function AtLeastOne(n: int): int { if n < 1 then 1 else n }

  ghost predicate JobInv(j: Job) {
    && j.endings == j.retries + (if Ended(j.status) then 1 else 0)
    && j.attempts <= AtLeastOne(j.maxAttempts) + j.recoveries
    && (j.status == PENDING || j.status == RETRY ==> j.attempts < AtLeastOne(j.maxAttempts) + j.recoveries)
  }

  /** A job's bot belongs to the job's tenant. */
  ghost predicate BotInv(w: World, j: Job) {
    && (j.bot.Some? ==> j.bot.value in w.bots && w.bots[j.bot.value] == j.tenant)
    && (j.status == READY ==> j.bot.Some?)
  }

  ghost predicate Inv(w: World) {
    forall id | id in w.jobs :: JobInv(w.jobs[id]) && BotInv(w, w.jobs[id])
  }

  /** What no step takes back. */
  ghost predicate Kept(w: World, w': World) {
    && (forall b | b in w.bots :: b in w'.bots && w'.bots[b] == w.bots[b])
    && (forall id | id in w.jobs :: id in w'.jobs && JobKept(w.jobs[id], w'.jobs[id]))
  }

  ghost predicate JobKept(j: Job, j': Job) {
    && j'.tenant == j.tenant && j'.retries >= j.retries && j'.endings >= j.endings
    && (j.status == READY || j.status == CANCELLED ==> j' == j)
    && (j.status == FAILED && j'.retries == j.retries ==> j' == j)
  }

  /** One job is rewritten within what holds of it. */
  lemma PutKeeps(w: World, id: nat, j: Job)
    requires Inv(w) && JobInv(j) && BotInv(w, j) && (id in w.jobs ==> JobKept(w.jobs[id], j))
    ensures Inv(Put(w, id, j)) && Kept(w, Put(w, id, j))
  {
  }

  /** Only the clock and the workers change. */
  lemma AsideKeeps(w: World, w': World)
    requires Inv(w) && w'.jobs == w.jobs && w'.bots == w.bots
    ensures Inv(w') && Kept(w, w')
  {
  }

  lemma ConvergeKeeps(w: World, worker: nat, id: nat, identity: nat, tenantActive: bool, raced: bool)
    requires Inv(w)
    ensures var w' := Converged(w, worker, id, identity, tenantActive, raced); Inv(w') && Kept(w, w')
  {
    var w' := Converged(w, worker, id, identity, tenantActive, raced);
    if w'.jobs == w.jobs && w'.bots == w.bots {
      AsideKeeps(w, w');
    } else {
      var tenant := w.jobs[id].tenant;
      var v := w.(bots := w.bots[identity := tenant]);
      forall k | k in v.jobs
        ensures JobInv(v.jobs[k]) && BotInv(v, v.jobs[k])
      {
        assert JobInv(w.jobs[k]) && BotInv(w, w.jobs[k]);
      }
      assert JobInv(w.jobs[id]);
      PutKeeps(v, id, Ready(w.jobs[id], identity));
      AsideKeeps(Put(v, id, Ready(w.jobs[id], identity)), w');
    }
  }

  lemma JobStepKeeps(w: World, e: Event, id: nat, j: Job)
    requires Inv(w) && id in w.jobs
    requires || j == Recovered(w.jobs[id], w.clock)
             || (Claimable(w.jobs[id], w.clock) && j == Claimed(w.jobs[id], w.clock, w.leaseSeconds))
             || (e.MarkFailure? && e.worker in w.workers && w.workers[e.worker].Failing?
                 && j == Failed(w.jobs[id], w.workers[e.worker].retryable, w.clock, e.delay))
    ensures Inv(Put(w, id, j)) && Kept(w, Put(w, id, j))
  {
    assert JobInv(w.jobs[id]) && BotInv(w, w.jobs[id]);
    PutKeeps(w, id, j);
  }

  lemma NextKeeps(w: World, e: Event)
    requires Inv(w)
    ensures Inv(Next(w, e)) && Kept(w, Next(w, e))
  {
    var w' := Next(w, e);
    if w'.jobs == w.jobs && w'.bots == w.bots {
      AsideKeeps(w, w');
    } else {
      match e
      case Submit(job, _, _) => PutKeeps(w, job, w'.jobs[job]);
      case Recover(job) => JobStepKeeps(w, e, job, w'.jobs[job]);
      case Claim(worker, job) =>
        JobStepKeeps(w, e, job, w'.jobs[job]);
        AsideKeeps(Put(w, job, w'.jobs[job]), w');
      case Converge(worker, identity, tenantActive, raced) =>
        ConvergeKeeps(w, worker, w.workers[worker].job, identity, tenantActive, raced);
      case MarkFailure(worker, delay) =>
        var id := w.workers[worker].job;
        JobStepKeeps(w, e, id, w'.jobs[id]);
        AsideKeeps(Put(w, id, w'.jobs[id]), w');
      case Cancel(job) => AdminKeeps(w, job, w'.jobs[job]);
      case AdminRetry(job) => AdminKeeps(w, job, w'.jobs[job]);
    }
  }

  lemma AdminKeeps(w: World, id: nat, j: Job)
    requires Inv(w) && id in w.jobs
    requires || ((w.jobs[id].status == PENDING || w.jobs[id].status == RETRY)
                 && j == w.jobs[id].(status := CANCELLED, nextAttempt := None))
             || (w.jobs[id].status == FAILED
                 && j == w.jobs[id].(status := PENDING, attempts := 0, recoveries := 0, nextAttempt := None,
                                     lease := None,
                                     retries := w.jobs[id].retries + 1))
    ensures Inv(Put(w, id, j)) && Kept(w, Put(w, id, j))
  {
  }

  lemma {:induction false} RunKeeps(w: World, events: seq<Event>)
    requires Inv(w)
    ensures Inv(Run(w, events)) && Kept(w, Run(w, events))
    decreases |events|
  {
    if events != [] {
      var n := |events| - 1;
      RunKeeps(w, events[..n]);
      var v := Run(w, events[..n]);
      NextKeeps(v, events[n]);
      KeptCompose(w, v, Next(v, events[n]));
    }
  }

  lemma KeptCompose(a: World, b: World, c: World)
    requires Kept(a, b) && Kept(b, c)
    ensures Kept(a, c)
  {
  }

  /** Whatever workers, zombies and lease recoveries do, a job ends once: its moves to READY or FAILED are
      as many as the administrator's retries, and one more once it has ended. */
  lemma {:induction false} EndsOnce(leaseSeconds: int, events: seq<Event>, id: nat)
    requires id in Run(Start(leaseSeconds), events).jobs
    ensures var j := Run(Start(leaseSeconds), events).jobs[id];
            j.endings == j.retries + (if j.status == READY || j.status == FAILED then 1 else 0)
  {
    RunKeeps(Start(leaseSeconds), events);
    assert JobInv(Run(Start(leaseSeconds), events).jobs[id]);
  }

  /** READY and CANCELLED are final; FAILED is left only through an administrator's retry. */
  lemma EndingIsFinal(leaseSeconds: int, before: seq<Event>, after: seq<Event>, id: nat)
    requires id in Run(Start(leaseSeconds), before).jobs
    ensures var v := Run(Start(leaseSeconds), before);
            var w := Run(v, after);
            && id in w.jobs
            && (v.jobs[id].status == READY || v.jobs[id].status == CANCELLED ==> w.jobs[id] == v.jobs[id])
            && (v.jobs[id].status == FAILED && w.jobs[id].retries == v.jobs[id].retries ==> w.jobs[id] == v.jobs[id])
  {
    RunKeeps(Start(leaseSeconds), before);
    RunKeeps(Run(Start(leaseSeconds), before), after);
    assert JobKept(Run(Start(leaseSeconds), before).jobs[id], Run(Run(Start(leaseSeconds), before), after).jobs[id]);
  }

  /** Attempts since the administrator's last retry stay within the limit plus one for every lease that expired
      since. */
  lemma AttemptsBounded(leaseSeconds: int, events: seq<Event>, id: nat)
    requires id in Run(Start(leaseSeconds), events).jobs
    ensures var j := Run(Start(leaseSeconds), events).jobs[id];
            j.maxAttempts >= 1 ==> j.attempts <= j.maxAttempts + j.recoveries
  {
    RunKeeps(Start(leaseSeconds), events);
    assert JobInv(Run(Start(leaseSeconds), events).jobs[id]);
  }

  /** A Telegram identity never changes tenant, and a READY job names a bot of its own tenant. */
  lemma IdentityStaysWithTenant(leaseSeconds: int, before: seq<Event>, after: seq<Event>, identity: nat, id: nat)
    requires identity in Run(Start(leaseSeconds), before).bots
    ensures var v := Run(Start(leaseSeconds), before);
            var w := Run(v, after);
            && identity in w.bots && w.bots[identity] == v.bots[identity]
            && (id in w.jobs && w.jobs[id].status == READY && w.jobs[id].bot == Some(identity) ==>
                  w.jobs[id].tenant == v.bots[identity])
  {
    RunKeeps(Start(leaseSeconds), before);
    RunKeeps(Run(Start(leaseSeconds), before), after);
    var w := Run(Run(Start(leaseSeconds), before), after);
    assert id in w.jobs ==> BotInv(w, w.jobs[id]);
  }

  /* ---------- an example ---------- */

  /** The example's only job. */
  function Example(status: Status, attempts: nat, lease: Option<int>, bot: Option<nat>, endings: nat,
                   retries: nat): Job {
    Job(1, 0, status, attempts, 5, None, lease, bot, 0, endings, retries)
  }

  function Alone(j: Job, workers: map<nat, Phase>, bots: map<nat,
                 nat>): World { World(0, 60, map[0 := j], bots, workers) }

  lemma {:induction false} RunOf(next: seq<Event>, worlds: seq<World>)
    requires |worlds| == |next| + 1 && worlds[0] == Start(60)
    requires forall i | 0 <= i < |next| :: Next(worlds[i], next[i]) == worlds[i + 1]
    ensures Run(Start(60), next) == worlds[|next|]
    decreases |next|
  {
    if next != [] {
      RunOf(next[..|next| - 1], worlds[..|next|]);
    }
  }

  const REVIVING: seq<Event> :=
    [Submit(0, 1, 5), Claim(0, 0), Raise(0, false), MarkFailure(0, 5), AdminRetry(0), Claim(0, 0),
     Converge(0, 7, true, false)]

  const WORLDS: seq<World> :=
    [Start(60), Alone(Example(PENDING, 0, None, None, 0, 0), map[], map[]),
     Alone(Example(RUNNING, 1, Some(60), None, 0, 0), map[0 := Verifying(0)], map[]),
     Alone(Example(RUNNING, 1, Some(60), None, 0, 0), map[0 := Failing(0, false)], map[]),
     Alone(Example(FAILED, 1, None, None, 1, 0), map[], map[]),
     Alone(Example(PENDING, 0, None, None, 1, 1), map[], map[]),
     Alone(Example(RUNNING, 1, Some(60), None, 1, 1), map[0 := Verifying(0)], map[]),
     Alone(Example(READY, 1, None, Some(7), 2, 1), map[], map[7 := 1])]

  lemma ExampleFails()
    ensures forall i | 0 <= i < 4 :: Next(WORLDS[i], REVIVING[i]) == WORLDS[i + 1]
  {
    assert Next(WORLDS[0], REVIVING[0]) == WORLDS[1];
    assert Next(WORLDS[1], REVIVING[1]) == WORLDS[2];
    assert Next(WORLDS[2], REVIVING[2]) == WORLDS[3];
    assert Next(WORLDS[3], REVIVING[3]).workers == WORLDS[4].workers;
  }

  lemma ExampleRevives()
    ensures forall i | 4 <= i < 7 :: Next(WORLDS[i], REVIVING[i]) == WORLDS[i + 1]
  {
    assert Next(WORLDS[4], REVIVING[4]) == WORLDS[5];
    assert Next(WORLDS[5], REVIVING[5]) == WORLDS[6];
    assert Next(WORLDS[6], REVIVING[6]).workers == WORLDS[7].workers;
  }

  /** A job that failed for good, was retried by an administrator, and is READY. */
  lemma FailedThenReady() returns (before: seq<Event>, after: seq<Event>)
    ensures before <= after
    ensures 0 in Run(Start(60), before).jobs && Run(Start(60), before).jobs[0].status == FAILED
    ensures 0 in Run(Start(60), after).jobs && Run(Start(60), after).jobs[0].status == READY
  {
    before, after := REVIVING[..4], REVIVING;
    ExampleFails();
    ExampleRevives();
    RunOf(after, WORLDS);
    RunOf(before, WORLDS[..5]);
  }

  /* ---------- the service over its tables ---------- */

  class Service {
    var clock: int
    const leaseSeconds: int
    var jobs: map<nat, Job>
    var bots: map<nat, nat>
    ghost var workers: map<nat, Phase>

    ghost function View(): World
      reads this
    {
      World(clock, leaseSeconds, jobs, bots, workers)
    }

    /** Puts every job whose lease has expired up for retry, and says how many. */
    method RecoverStaleJobs() returns (count: nat)
      modifies this`jobs
      ensures jobs.Keys == old(jobs).Keys
      ensures forall id | id in jobs :: jobs[id] == Recovered(old(jobs)[id], clock)
      ensures forall id | id in jobs ::
                var j := old(jobs)[id];
                jobs[id] == if j.status == RUNNING && j.lease.Some? && j.lease.value < clock
                            then j.(status := RETRY, nextAttempt := Some(clock), lease := None,
                                    recoveries := j.recoveries + 1) else j
      ensures count == |set id | id in old(jobs) && Expired(old(jobs)[id], clock)|
    {
      var rest := jobs.Keys;
      ghost var done: set<nat> := {};
      count := 0;
      while rest != {}
        invariant rest <= jobs.Keys && jobs.Keys == old(jobs).Keys
        invariant forall id | id in jobs ::
                    jobs[id] == if id in rest then old(jobs)[id] else Recovered(old(jobs)[id], clock)
        invariant done == set id | id in old(jobs) && id !in rest && Expired(old(jobs)[id], clock)
        invariant count == |done|
        decreases |rest|
      {
        var id :| id in rest;
        rest := rest - {id};
        if Expired(jobs[id], clock) {
          jobs := jobs[id := jobs[id].(status := RETRY, nextAttempt := Some(clock), lease := None,
                                       recoveries := jobs[id].recoveries + 1)];
          done := done + {id};
          count := count + 1;
        }
      }
      assert done == set id | id in old(jobs) && Expired(old(jobs)[id], clock);
    }

    /** Claims the oldest claimable job. */
    method ClaimNextJob(ghost worker: nat) returns (claimed: Option<nat>)
      requires worker !in workers
      modifies this`jobs, this`workers
      ensures claimed.None? ==> View() == old(View()) && forall id | id in jobs :: !Claimable(jobs[id], clock)
      ensures claimed.Some? ==>
                && claimed.value in old(jobs) && Claimable(old(jobs)[claimed.value], clock)
                && (forall id | id in old(jobs) && Claimable(old(jobs)[id], clock) ::
                      old(jobs)[claimed.value].created <= old(jobs)[id].created)
                && View() == Next(old(View()), Claim(worker, claimed.value))
                && old(jobs)[claimed.value].status in {PENDING, RETRY} && jobs[claimed.value].status == RUNNING
                && jobs[claimed.value].attempts == old(jobs)[claimed.value].attempts + 1
                && jobs[claimed.value].lease == Some(clock + leaseSeconds)
    {
      claimed := None;
      var rest := jobs.Keys;
      while rest != {}
        invariant rest <= jobs.Keys && jobs == old(jobs)
        invariant claimed.Some? ==> claimed.value in jobs && Claimable(jobs[claimed.value], clock)
        invariant forall id | id in jobs && id !in rest && Claimable(jobs[id], clock) ::
                    claimed.Some? && jobs[claimed.value].created <= jobs[id].created
        decreases |rest|
      {
        var id :| id in rest;
        rest := rest - {id};
        if Claimable(jobs[id], clock) && (claimed.None? || jobs[id].created < jobs[claimed.value].created) {
          claimed := Some(id);
        }
      }
      if claimed.Some? {
        jobs := jobs[claimed.value := Claimed(jobs[claimed.value], clock, leaseSeconds)];
        workers := workers[worker := Verifying(claimed.value)];
      }
    }

    /** The delay before a retry: doubling with every attempt, up to a limit. */
    method Backoff(attempts: nat, base: nat, limit: nat) returns (delay: nat)
      ensures delay <= limit
      ensures delay == if base * Power(if attempts > 1 then attempts - 1 else 0) < limit
                then base * Power(if attempts > 1 then attempts - 1 else 0) else limit
    {
      var n := if attempts > 1 then attempts - 1 else 0;
      var factor := 1;
      for i := 0 to n
        invariant factor == Power(i)
      {
        factor := factor * 2;
      }
      delay := if base * factor < limit then base * factor else limit;
    }

    /** A worker's last step with a job: verified, or raised and filed as a failure. */
    method FinishJob(ghost worker: nat, id: nat, verified: Option<nat>, retryable: bool, tenantActive: bool,
                     raced: bool, base: nat, limit: nat)
      returns (ok: bool, delay: nat)
      requires worker in workers && workers[worker] == Verifying(id)
      modifies this`jobs, this`bots, this`workers
      ensures View() == if verified.Some?
                        then Next(Next(old(View()), Converge(worker, verified.value, tenantActive, raced)),
                                  MarkFailure(worker, delay))
                        else Next(Next(old(View()), Raise(worker, retryable)), MarkFailure(worker, delay))
      ensures ok <==> id in old(jobs) && old(jobs)[id].status == RUNNING && id in jobs && jobs[id].status == READY
      ensures ok <==> && verified.Some? && id in old(jobs) && old(jobs)[id].status == RUNNING && tenantActive
                      && (if verified.value in old(bots) then old(bots)[verified.value] == old(jobs)[id].tenant
                          else !raced)
      ensures !ok && id in old(jobs) && old(jobs)[id].status == RUNNING ==>
                && id in jobs && bots == old(bots)
                && (jobs[id].status == RETRY <==>
                      && old(jobs)[id].attempts < old(jobs)[id].maxAttempts
                      && if verified.Some? then tenantActive && verified.value !in old(bots) else retryable)
                && (|| jobs[id].status == FAILED
                    || (jobs[id].status == RETRY && jobs[id].nextAttempt == Some(clock + delay)))
    {
      ghost var w := View();
      delay, ok := 0, false;
      var again := retryable;
      if verified.Some? {
        var identity := verified.value;
        if id !in jobs || jobs[id].status != RUNNING {
          workers := workers - {worker};
          return;
        }
        if tenantActive && !(identity in bots && bots[identity] != jobs[id].tenant) && !(identity !in bots && raced) {
          bots := bots[identity := jobs[id].tenant];
          jobs := jobs[id := Ready(jobs[id], identity)];
          workers := workers - {worker};
          ok := true;
          return;
        }
        again := tenantActive && identity !in bots;
      }
      workers := workers[worker := Failing(id, again)];
      assert View() == if verified.Some? then Next(w, Converge(worker, verified.value, tenantActive, raced))
               else Next(w, Raise(worker, retryable));
      if id in jobs {
        delay := Backoff(jobs[id].attempts, base, limit);
        jobs := jobs[id := Failed(jobs[id], again, clock, delay)];
      }
      workers := workers - {worker};
    }
  }

  function Power(n: nat): nat {
    if n == 0 then 1 else 2 * Power(n - 1)
  }
}
