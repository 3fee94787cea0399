/** Announcement delivery by any number of workers. Every database statement that others can see
    is one step; workers interleave, crash and are swept as stale at any point. Times are seconds. */
module Announcements {
  import opened Common

  const STALE: int := 300

  datatype Campaign = DRAFT | OPEN | COMPLETED | NEEDS_REVIEW | WITHDRAWN
  datatype Status = QUEUED | RUNNING | SENT | FAILED | UNKNOWN | CANCELLED

  /** `possible` counts the sends started for this delivery that Telegram has not refused. */
  datatype Delivery = Delivery(campaign: nat, binding: nat, status: Status, nextAttempt: int, updatedAt: int,
                               possible: nat)

  /** How a send ends. A refusal by rate limit or by rejection means that nothing was delivered. */
  datatype Outcome = Accepted | RateLimited(retryAfter: int) | Rejected | Ambiguous

  /** Where a worker is. The first five own a delivery; the others are closing a campaign. */
  datatype Phase =
    | Claimed(id: nat, now: int)
    | Sending(id: nat, now: int)
    | Told(id: nat, status: Status, retryAt: Option<int>)
    | Quiet(id: nat, status: Status, retryAt: Option<int>)
    | Decided(id: nat, status: Status, retryAt: Option<int>, verdict: Option<Campaign>)
    | Swept(campaign: nat)
    | Finalising(campaign: nat)
    | Finalised(campaign: nat, result: Campaign)

  datatype World = World(clock: int, campaigns: map<nat, Campaign>, deliveries: seq<Delivery>, workers: map<nat, Phase>)

  const EMPTY := World(0, map[], [], map[])

  datatype Event =
    | Tick(seconds: nat)
    | Draft(campaign: nat)
    | Queue(campaign: nat, bindings: seq<nat>)
    | Cancel(campaign: nat)
    | Claim(worker: nat, id: nat, now: int)
    | Skip(worker: nat)
    | Start(worker: nat)
    | Answer(worker: nat, outcome: Outcome)
    | CountPending(worker: nat)
    | CountFailed(worker: nat)
    | Record(worker: nat)
    | Sweep(worker: nat, id: nat, now: int)
    | Finalise(worker: nat, campaign: nat)
    | Review(worker: nat)
    | Apply(worker: nat)
    | Crash(worker: nat)

  /** The delivery that a worker owns. */
  function Owned(p: Phase): Option<nat> {
    if p.Claimed? || p.Sending? || p.Told? || p.Quiet? || p.Decided? then Some(p.id) else None
  }

  predicate Unsettled(status: Status) { status == QUEUED || status == RUNNING }
  predicate Bad(status: Status) { status == UNKNOWN || status == FAILED }

  /** Some delivery of the campaign is QUEUED or RUNNING. */
  predicate Pending(deliveries: seq<Delivery>, campaign: nat) {
    exists i | 0 <= i < |deliveries| :: deliveries[i].campaign == campaign && Unsettled(deliveries[i].status)
  }

  predicate AnyBad(deliveries: seq<Delivery>, campaign: nat) {
    exists i | 0 <= i < |deliveries| :: deliveries[i].campaign == campaign && Bad(deliveries[i].status)
  }

  function Verdict(deliveries: seq<Delivery>, campaign: nat): Campaign {
    if AnyBad(deliveries, campaign) then NEEDS_REVIEW else COMPLETED
  }

  function SetStatus(deliveries: seq<Delivery>, id: nat, status: Status): (r: seq<Delivery>)
    requires id < |deliveries|
    ensures |r| == |deliveries| && forall i | 0 <= i < |r| ::
              r[i] == if i == id then deliveries[i].(status := status) else deliveries[i]
  {
    deliveries[id := deliveries[id].(status := status)]
  }

  function At(w: World, worker: nat, p: Phase): World {
    w.(workers := w.workers[worker := p])
  }

  function Idle(w: World, worker: nat): World {
    w.(workers := w.workers - {worker})
  }

  /** The rows created for the recipients of a campaign. */
  function Fresh(campaign: nat, bindings: seq<nat>, now: int): (r: seq<Delivery>)
    ensures |r| == |bindings| && forall i | 0 <= i < |r| :: r[i] == Delivery(campaign, bindings[i], QUEUED, now, now, 0)
  {
    seq(|bindings|, i requires 0 <= i < |bindings| => Delivery(campaign, bindings[i], QUEUED, now, now, 0))
  }

  /** Cancelling a campaign cancels what is still queued. */
  function CancelQueued(deliveries: seq<Delivery>, campaign: nat): (r: seq<Delivery>)
    ensures |r| == |deliveries|
    ensures forall i | 0 <= i < |r| ::
              r[i] == if deliveries[i].campaign == campaign && deliveries[i].status == QUEUED
                then deliveries[i].(status := CANCELLED) else deliveries[i]
  {
    seq(|deliveries|, i requires 0 <= i < |deliveries| =>
      if deliveries[i].campaign == campaign && deliveries[i].status == QUEUED then deliveries[i].(status := CANCELLED)
        else deliveries[i])
  }

  /** A rate limit postpones the queued deliveries of the campaign. */
  function Postpone(deliveries: seq<Delivery>, campaign: nat, until: int): (r: seq<Delivery>)
    ensures |r| == |deliveries|
    ensures forall i | 0 <= i < |r| ::
              r[i] == if deliveries[i].campaign == campaign && deliveries[i].status == QUEUED
                then deliveries[i].(nextAttempt := until) else deliveries[i]
  {
    seq(|deliveries|, i requires 0 <= i < |deliveries| =>
      if deliveries[i].campaign == campaign && deliveries[i].status == QUEUED then deliveries[i].(nextAttempt := until)
        else deliveries[i])
  }

  /** The conditional update of a campaign: only a QUEUED one moves. */
  function Close(campaigns: map<nat, Campaign>, campaign: nat, result: Campaign): map<nat, Campaign> {
    if campaign in campaigns && campaigns[campaign] == OPEN then campaigns[campaign := result] else campaigns
  }

  function Answered(w: World, worker: nat, id: nat, now: int, outcome: Outcome): World
    requires id < |w.deliveries|
  {
    match outcome
    case Accepted => At(w, worker, Told(id, SENT, None))
    case Ambiguous => At(w, worker, Told(id, UNKNOWN, None))
    case Rejected => At(Refused(w, id), worker, Told(id, FAILED, None))
    case RateLimited(retryAfter) =>
      At(Refused(w, id), worker, Told(id, QUEUED, Some(now + if retryAfter < 1 then 1 else retryAfter)))
  }

  function Refused(w: World, id: nat): World
    requires id < |w.deliveries|
  {
    var d := w.deliveries[id];
    w.(deliveries := w.deliveries[id := d.(possible := if d.possible == 0 then 0 else d.possible - 1)])
  }

  /** The commit that ends a delivery: its own status whatever the row says now, the postponement
      of its queued siblings, and the verdict if one was reached. */
  function Recorded(w: World, worker: nat): World
    requires worker in w.workers && w.workers[worker].Decided? && w.workers[worker].id < |w.deliveries|
  {
    var p := w.workers[worker];
    var d := w.deliveries[p.id];
    var postponed := if p.retryAt.Some? then Postpone(w.deliveries, d.campaign, p.retryAt.value) else w.deliveries;
    var d' := d.(status := p.status, updatedAt := w.clock,
                 nextAttempt := if p.retryAt.Some? then p.retryAt.value else d.nextAttempt);
    w.(deliveries := postponed[p.id := d'], workers := w.workers - {worker},
       campaigns := if p.verdict.Some? then Close(w.campaigns, d.campaign, p.verdict.value) else w.campaigns)
  }

  /** The row can be claimed, or swept, by a worker that read the time `now` in the past. */
  predicate Claimable(w: World, id: nat, now: int) {
    id < |w.deliveries| && now <= w.clock && w.deliveries[id].status == QUEUED && w.deliveries[id].nextAttempt <= now
  }

  predicate StaleRow(w: World, id: nat, now: int) {
    id < |w.deliveries| && now <= w.clock && w.deliveries[id].status == RUNNING
    && w.deliveries[id].updatedAt < now - STALE
  }

  /** The sweep of a row that was seen stale; it is written only if it still is. */
  function Interrupted(w: World, id: nat, now: int): seq<Delivery> {
    if StaleRow(w, id, now) then w.deliveries[id := w.deliveries[id].(status := UNKNOWN, updatedAt := w.clock)]
      else w.deliveries
  }

  /** Steps of a worker that owns a delivery. */
  ghost function OwnerStep(w: World, e: Event, p: Phase): World
    requires Owned(p).Some? && p.id < |w.deliveries|
    requires e.Skip? || e.Start? || e.Answer? || e.CountPending? || e.CountFailed? || e.Record?
    requires e.worker in w.workers && w.workers[e.worker] == p
  {
    var d := w.deliveries[p.id];
    match e
    case Skip(worker) => if p.Claimed? then At(w, worker, Told(p.id, CANCELLED, None)) else w
    case Start(worker) =>
      if p.Claimed? && d.campaign in w.campaigns && w.campaigns[d.campaign] != WITHDRAWN
      then At(w.(deliveries := w.deliveries[p.id := d.(possible := d.possible + 1)]), worker, Sending(p.id, p.now))
        else w
    case Answer(worker, outcome) => if p.Sending? then Answered(w, worker, p.id, p.now, outcome) else w
    case CountPending(worker) =>
      if !p.Told? then w
      else if Pending(SetStatus(w.deliveries, p.id, p.status), d.campaign)
        then At(w, worker, Decided(p.id, p.status, p.retryAt, None))
      else At(w, worker, Quiet(p.id, p.status, p.retryAt))
    case CountFailed(worker) =>
      if p.Quiet?
      then At(w, worker, Decided(p.id, p.status, p.retryAt,
                                 Some(Verdict(SetStatus(w.deliveries, p.id, p.status), d.campaign)))) else w
    case Record(worker) => if p.Decided? then Recorded(w, worker) else w
  }

  /** One step; a step whose condition fails changes nothing. */
  ghost function Next(w: World, e: Event): World {
    match e
    case Tick(seconds) => w.(clock := w.clock + seconds)
    case Draft(campaign) => if campaign in w.campaigns then w else w.(campaigns := w.campaigns[campaign := DRAFT])
    case Queue(campaign, bindings) =>
      if campaign in w.campaigns && w.campaigns[campaign] == DRAFT && 1 <= |bindings| <= 10000 && Distinct(bindings)
      then w.(campaigns := w.campaigns[campaign := OPEN],
              deliveries := w.deliveries + Fresh(campaign, bindings, w.clock)) else w
    case Cancel(campaign) =>
      if campaign in w.campaigns && (w.campaigns[campaign] == DRAFT || w.campaigns[campaign] == OPEN)
      then w.(campaigns := w.campaigns[campaign := WITHDRAWN], deliveries := CancelQueued(w.deliveries, campaign))
        else w
    case Claim(worker, id, now) =>
      if worker !in w.workers && Claimable(w, id, now)
      then At(w.(deliveries := w.deliveries[id := w.deliveries[id].(status := RUNNING, updatedAt := now)]), worker,
              Claimed(id, now)) else w
    case Sweep(worker, id, now) =>
      if worker !in w.workers && id < |w.deliveries| && now <= w.clock
      then At(w.(deliveries := Interrupted(w, id, now)), worker, Swept(w.deliveries[id].campaign)) else w
    case Finalise(worker, campaign) =>
      if worker !in w.workers && campaign in w.campaigns && w.campaigns[campaign] == OPEN
      && !Pending(w.deliveries, campaign)
      then At(w, worker, Finalising(campaign)) else w
    case Review(worker) =>
      if worker in w.workers && w.workers[worker].Finalising?
      then At(w, worker, Finalised(w.workers[worker].campaign, Verdict(w.deliveries, w.workers[worker].campaign)))
      else if worker in w.workers && w.workers[worker].Swept?
      then if Pending(w.deliveries, w.workers[worker].campaign) then Idle(w, worker)
           else At(w, worker, Finalised(w.workers[worker].campaign, NEEDS_REVIEW))
      else w
    case Apply(worker) =>
      if worker in w.workers && w.workers[worker].Finalised?
      then Idle(w.(campaigns := Close(w.campaigns, w.workers[worker].campaign, w.workers[worker].result)), worker)
        else w
    case Crash(worker) => Idle(w, worker)
    case _ =>
      if e.worker in w.workers && Owned(w.workers[e.worker]).Some? && w.workers[e.worker].id < |w.deliveries|
      then OwnerStep(w, e, w.workers[e.worker]) else w
  }

  ghost function Run(w: World, events: seq<Event>): World
    decreases |events|
  {
    if events == [] then w else Next(Run(w, events[..|events| - 1]), events[|events| - 1])
  }

  /** Live sends are prompt: no worker is still busy with a delivery five minutes after claiming it. */
  ghost predicate Prompt(w: World) {
    forall k | k in w.workers :: PromptWorker(w, w.workers[k])
  }

  ghost predicate PromptWorker(w: World, p: Phase) {
    Owned(p).Some? && p.id < |w.deliveries| ==> w.clock <= w.deliveries[p.id].updatedAt + STALE
  }

  ghost predicate AlwaysPrompt(events: seq<Event>) {
    forall n | 0 <= n <= |events| :: Prompt(Run(EMPTY, events[..n]))
  }
}
