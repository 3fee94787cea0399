/** What deliveries are recorded as, against what Telegram answered. */
module AnnouncementOutcomes {
  import opened Common
  import opened Announcements
  import opened AnnouncementRuns
  import opened AnnouncementClosing

  /* ---------- single steps ---------- */

  /** A delivery is claimed exactly when it is QUEUED and due, by an idle worker. */
  lemma ClaimedExactlyWhen(w: World, worker: nat, id: nat, now: int)
    requires now <= w.clock
    ensures var w' := Next(w, Claim(worker, id, now));
            if worker !in w.workers && id < |w.deliveries| && w.deliveries[id].status == QUEUED
               && w.deliveries[id].nextAttempt <= now
            then w' == World(w.clock, w.campaigns,
                             w.deliveries[id := w.deliveries[id].(status := RUNNING, updatedAt := now)],
                             w.workers[worker := Claimed(id, now)])
            else w' == w
  {
  }

  /** The sweep gives up exactly the deliveries that have been RUNNING for more than five minutes. */
  lemma SweptExactlyWhen(w: World, worker: nat, id: nat, now: int)
    requires worker !in w.workers && id < |w.deliveries| && now <= w.clock
    ensures var d := w.deliveries[id];
            Next(w, Sweep(worker, id, now)).deliveries
            == if d.status == RUNNING && now - d.updatedAt > 300
               then w.deliveries[id := d.(status := UNKNOWN, updatedAt := w.clock)] else w.deliveries
  {
  }

  /** A campaign is queued exactly from DRAFT with one to ten thousand distinct recipients, and each of them gets one
      delivery that is due at once. */
  lemma QueuedExactlyWhen(w: World, campaign: nat, bindings: seq<nat>)
    ensures var w' := Next(w, Queue(campaign, bindings));
            if campaign in w.campaigns && w.campaigns[campaign] == DRAFT && bindings != [] && |bindings| <= 10000
               && Distinct(bindings)
            then && w'.campaigns == w.campaigns[campaign := OPEN]
                 && |w'.deliveries| == |w.deliveries| + |bindings| && w'.deliveries[..|w.deliveries|] == w.deliveries
                 && (forall i | 0 <= i < |bindings| ::
                       w'.deliveries[|w.deliveries| + i]
                       == Delivery(campaign, bindings[i], QUEUED, w.clock, w.clock, 0))
            else w' == w
  {
  }

  /** A cancelled campaign keeps what was sent or is under way; what was QUEUED is CANCELLED. */
  lemma CancelledExactlyWhen(w: World, campaign: nat)
    ensures var w' := Next(w, Cancel(campaign));
            if campaign in w.campaigns && w.campaigns[campaign] in {DRAFT, OPEN}
            then && w'.campaigns == w.campaigns[campaign := WITHDRAWN] && |w'.deliveries| == |w.deliveries|
                 && (forall i | 0 <= i < |w.deliveries| ::
                       w'.deliveries[i] == if w.deliveries[i].campaign == campaign && w.deliveries[i].status == QUEUED
                                           then w.deliveries[i].(status := CANCELLED) else w.deliveries[i])
            else w' == w
  {
  }

  /** A send starts exactly for a claimed delivery of a campaign that has not been withdrawn. */
  lemma StartedExactlyWhen(w: World, worker: nat, id: nat, now: int)
    requires Inv(w) && worker in w.workers && w.workers[worker] == Claimed(id, now)
    ensures id < |w.deliveries| && w.deliveries[id].campaign in w.campaigns
    ensures var w' := Next(w, Start(worker));
            if w.campaigns[w.deliveries[id].campaign] == WITHDRAWN then w' == w
            else worker in w'.workers && w'.workers[worker] == Sending(id, now)
  {
    assert WorkerSound(w, w.workers[worker]);
    assert RowSound(w.campaigns, w.deliveries[id]);
  }

  /** A worker that counts closes its campaign exactly when no delivery is QUEUED or RUNNING, its own taken as it will
      be recorded, and for review exactly when one of them is UNKNOWN or FAILED. */
  lemma CountedExactly(w: World, worker: nat, p: Phase)
    requires worker in w.workers && w.workers[worker] == p && p.Told? && p.id < |w.deliveries|
    ensures var c := w.deliveries[p.id].campaign;
            var seen := w.deliveries[p.id := w.deliveries[p.id].(status := p.status)];
            var w' := Next(Next(w, CountPending(worker)), CountFailed(worker));
            && worker in w'.workers && w'.workers[worker].Decided? && w'.workers[worker].status == p.status
            && w'.workers[worker].retryAt == p.retryAt
            && w'.workers[worker].verdict
               == if exists i | 0 <= i < |seen| :: seen[i].campaign == c && seen[i].status in {QUEUED, RUNNING}
                    then None
                  else if exists i | 0 <= i < |seen| :: seen[i].campaign == c && seen[i].status in {UNKNOWN, FAILED}
                    then Some(NEEDS_REVIEW)
                  else Some(COMPLETED)
  {
    var c := w.deliveries[p.id].campaign;
    var seen := w.deliveries[p.id := w.deliveries[p.id].(status := p.status)];
    CountsLiterally(seen, c);
  }

  lemma CountsLiterally(deliveries: seq<Delivery>, c: nat)
    ensures Pending(deliveries, c) <==>
            exists i | 0 <= i < |deliveries| ::
              deliveries[i].campaign == c && deliveries[i].status in {QUEUED, RUNNING}
    ensures Verdict(deliveries, c) ==
            if exists i | 0 <= i < |deliveries| ::
                 deliveries[i].campaign == c && deliveries[i].status in {UNKNOWN, FAILED}
            then NEEDS_REVIEW else COMPLETED
  {
    if Pending(deliveries, c) {
      var i :| 0 <= i < |deliveries| && deliveries[i].campaign == c && Unsettled(deliveries[i].status);
      assert deliveries[i].status in {QUEUED, RUNNING};
    }
    if AnyBad(deliveries, c) {
      var i :| 0 <= i < |deliveries| && deliveries[i].campaign == c && Bad(deliveries[i].status);
      assert deliveries[i].status in {UNKNOWN, FAILED};
    }
  }

  /** A worker records its own delivery as decided, and a rate limit also puts off every QUEUED delivery of the
      campaign; no other row changes, and the campaign moves only from its queue and only with a verdict. */
  lemma RecordedExactly(w: World, worker: nat, p: Phase)
    requires Inv(w) && worker in w.workers && w.workers[worker] == p && p.Decided?
    ensures p.id < |w.deliveries|
    ensures var d, w' := w.deliveries[p.id], Next(w, Record(worker));
            && |w'.deliveries| == |w.deliveries| && w'.workers == w.workers - {worker}
            && w'.deliveries[p.id] == d.(status := p.status, updatedAt := w.clock,
                                         nextAttempt := if p.retryAt.Some? then p.retryAt.value else d.nextAttempt)
            && (forall i | 0 <= i < |w.deliveries| && i != p.id ::
                  w'.deliveries[i] == if p.retryAt.Some? && w.deliveries[i].campaign == d.campaign
                                         && w.deliveries[i].status == QUEUED
                                      then w.deliveries[i].(nextAttempt := p.retryAt.value) else w.deliveries[i])
            && w'.campaigns == if p.verdict.Some? && d.campaign in w.campaigns && w.campaigns[d.campaign] == OPEN
                               then w.campaigns[d.campaign := p.verdict.value] else w.campaigns
  {
    assert WorkerSound(w, p);
  }

  /* ---------- what was answered ---------- */

  /** The answer, if the step brings one. */
  ghost predicate Hears(w: World, e: Event) {
    e.Answer? && e.worker in w.workers && w.workers[e.worker].Sending?
  }

  /** The latest answer to each delivery's sends. */
  ghost function Heard(w: World, e: Event, told: map<nat, Outcome>): map<nat, Outcome> {
    if Hears(w, e) then told[w.workers[e.worker].id := e.outcome] else told
  }

  ghost function Answers(events: seq<Event>): map<nat, Outcome>
    decreases |events|
  {
    if events == [] then map[]
    else
      var before := events[..|events| - 1];
      Heard(Run(EMPTY, before), events[|events| - 1], Answers(before))
  }

  /** Nothing was answered, or only that it was too early. */
  ghost predicate Unanswered(told: map<nat, Outcome>, id: nat) {
    id in told ==> told[id].RateLimited?
  }

  /** What a status says about the latest answer. */
  ghost predicate Says(status: Status, told: map<nat, Outcome>, id: nat) {
    match status
    case SENT => id in told && told[id] == Accepted
    case FAILED => id in told && told[id] == Rejected
    case QUEUED => Unanswered(told, id)
    case CANCELLED => Unanswered(told, id)
    case _ => true
  }

  /** What a worker is about to record is what it heard. */
  ghost predicate Repeats(p: Phase, told: map<nat, Outcome>) {
    match p
    case Claimed(id, _) => Unanswered(told, id)
    case Sending(id, _) => Unanswered(told, id)
    case Told(id, status, _) => StatusHeard(status, told, id)
    case Quiet(id, status, _) => StatusHeard(status, told, id)
    case Decided(id, status, _, _) => StatusHeard(status, told, id)
    case _ => true
  }

  ghost predicate StatusHeard(status: Status, told: map<nat, Outcome>, id: nat) {
    match status
    case SENT => id in told && told[id] == Accepted
    case FAILED => id in told && told[id] == Rejected
    case UNKNOWN => id in told && told[id] == Ambiguous
    case QUEUED => id in told && told[id].RateLimited?
    case CANCELLED => Unanswered(told, id)
    case RUNNING => false
  }

  ghost predicate TellsTruth(w: World, told: map<nat, Outcome>) {
    && (forall id: nat | id in told :: id < |w.deliveries|)
    && (forall i | 0 <= i < |w.deliveries| :: Says(w.deliveries[i].status, told, i))
    && (forall k | k in w.workers :: Repeats(w.workers[k], told))
  }

  lemma RowsSay(w: World, e: Event, told: map<nat, Outcome>, i: nat)
    requires Inv(w) && TellsTruth(w, told) && i < |Next(w, e).deliveries|
    ensures Says(Next(w, e).deliveries[i].status, Heard(w, e, told), i)
  {
    if Hears(w, e) || e.Record? {
      if e.worker in w.workers {
        assert WorkerSound(w, w.workers[e.worker]) && Repeats(w.workers[e.worker], told);
      }
    }
  }

  /** Only the sender's own delivery is answered. */
  lemma OthersUnheard(w: World, e: Event, told: map<nat, Outcome>, k: nat)
    requires OneOwner(w.workers) && Hears(w, e) && k in w.workers && k != e.worker && Repeats(w.workers[k], told)
    ensures Repeats(w.workers[k], Heard(w, e, told))
  {
  }

  /** The worker that heard an answer will record it: accepted as SENT, rejected as FAILED, unclear as UNKNOWN, and too
      early as QUEUED, at the time asked for and at least a second later. */
  lemma AnswerIsTaken(w: World, worker: nat, outcome: Outcome, id: nat, now: int)
    requires worker in w.workers && w.workers[worker] == Sending(id, now) && id < |w.deliveries|
    ensures var w' := Next(w, Answer(worker, outcome));
            && worker in w'.workers && w'.workers == w.workers[worker := w'.workers[worker]]
            && w'.workers[worker].Told? && w'.workers[worker].id == id
            && var p := w'.workers[worker];
               match outcome
               case Accepted => p.status == SENT && p.retryAt == None
               case Rejected => p.status == FAILED && p.retryAt == None
               case Ambiguous => p.status == UNKNOWN && p.retryAt == None
               case RateLimited(wait) =>
                 p.status == QUEUED && p.retryAt == Some(if wait <= 1 then now + 1 else now + wait)
  {
  }

  /** No other step changes what an owner will record, except that a claimed delivery can be called off. */
  lemma OwnerKeepsStatus(w: World, e: Event, k: nat)
    requires k in w.workers && k in Next(w, e).workers && Owned(w.workers[k]).Some? && !Hears(w, e)
    ensures var p, p' := w.workers[k], Next(w, e).workers[k];
            || p' == p
            || (&& Owned(p') == Owned(p)
                && if p.Claimed? then p'.Sending? || (p'.Told? && p'.status == CANCELLED)
                   else (p.Told? || p.Quiet?) && (p'.Quiet? || p'.Decided?) && p'.status == p.status)
  {
  }

  /** Whoever owns a delivery and did not before has just claimed it. */
  lemma NewOwnerClaims(w: World, e: Event, k: nat)
    requires k in Next(w, e).workers && Owned(Next(w, e).workers[k]).Some?
    requires k !in w.workers || Owned(w.workers[k]).None?
    ensures e.Claim? && e.id < |w.deliveries| && w.deliveries[e.id].status == QUEUED
    ensures Next(w, e).workers[k] == Claimed(e.id, e.now)
  {
  }

  lemma WorkersRepeat(w: World, e: Event, told: map<nat, Outcome>, k: nat)
    requires Inv(w) && TellsTruth(w, told) && k in Next(w, e).workers
    ensures Repeats(Next(w, e).workers[k], Heard(w, e, told))
  {
    if Owned(Next(w, e).workers[k]).Some? {
      if k !in w.workers || Owned(w.workers[k]).None? {
        NewOwnerClaims(w, e, k);
        assert Says(w.deliveries[e.id].status, told, e.id);
      } else {
        assert Repeats(w.workers[k], told) && WorkerSound(w, w.workers[k]);
        assert Hears(w, e) ==> WorkerSound(w, w.workers[e.worker]);
        OwnersRepeat(w, e, told, k);
      }
    }
  }

  lemma OwnersRepeat(w: World, e: Event, told: map<nat, Outcome>, k: nat)
    requires OneOwner(w.workers) && k in w.workers && k in Next(w, e).workers && Owned(w.workers[k]).Some?
    requires Repeats(w.workers[k], told) && w.workers[k].id < |w.deliveries|
    requires Hears(w, e) ==> w.workers[e.worker].id < |w.deliveries|
    ensures Repeats(Next(w, e).workers[k], Heard(w, e, told))
  {
    if Hears(w, e) {
      var p := w.workers[e.worker];
      AnswerIsTaken(w, e.worker, e.outcome, p.id, p.now);
      if k != e.worker {
        OthersUnheard(w, e, told, k);
      }
    } else {
      OwnerKeepsStatus(w, e, k);
    }
  }

  lemma StepTellsTruth(w: World, e: Event, told: map<nat, Outcome>)
    requires Inv(w) && TellsTruth(w, told)
    ensures TellsTruth(Next(w, e), Heard(w, e, told))
  {
    var w', told' := Next(w, e), Heard(w, e, told);
    assert |w.deliveries| <= |w'.deliveries|;
    if Hears(w, e) {
      assert WorkerSound(w, w.workers[e.worker]);
    }
    forall i | 0 <= i < |w'.deliveries|
      ensures Says(w'.deliveries[i].status, told', i)
    {
      RowsSay(w, e, told, i);
    }
    forall k | k in w'.workers
      ensures Repeats(w'.workers[k], told')
    {
      WorkersRepeat(w, e, told, k);
    }
  }

  /** On every run: SENT means accepted and FAILED means rejected; QUEUED and CANCELLED mean that nothing was answered,
      or only to wait. So a rejected send is never CANCELLED and never sent again. */
  lemma {:induction false} StatusTellsAnswer(events: seq<Event>)
    ensures TellsTruth(Run(EMPTY, events), Answers(events))
    decreases |events|
  {
    if events != [] {
      var before := events[..|events| - 1];
      StatusTellsAnswer(before);
      RunKeeps(before);
      StepTellsTruth(Run(EMPTY, before), events[|events| - 1], Answers(before));
    }
  }

  /** A rejected send is FAILED once recorded, unless its row was given up meanwhile. */
  lemma {:induction false} RejectedNeverCancelled(events: seq<Event>, id: nat)
    requires id in Answers(events) && Answers(events)[id] == Rejected
    ensures var w := Run(EMPTY, events);
            && id < |w.deliveries| && w.deliveries[id].status in {FAILED, RUNNING, UNKNOWN}
            && forall k | k in w.workers && Owned(w.workers[k]) == Some(id) ::
                 (w.workers[k].Told? || w.workers[k].Quiet? || w.workers[k].Decided?) && w.workers[k].status == FAILED
  {
    StatusTellsAnswer(events);
    var w := Run(EMPTY, events);
    assert Says(w.deliveries[id].status, Answers(events), id);
    forall k | k in w.workers && Owned(w.workers[k]) == Some(id)
      ensures (w.workers[k].Told? || w.workers[k].Quiet? || w.workers[k].Decided?) && w.workers[k].status == FAILED
    {
      assert Repeats(w.workers[k], Answers(events));
    }
  }

  /** In a timely run, every delivery of a COMPLETED campaign was accepted by Telegram, or called off without an
      answer; so none was rejected and none has an unknown outcome. */
  lemma {:induction false} CompletedMeansAccepted(events: seq<Event>, campaign: nat, i: nat)
    requires AlwaysTimely(events)
    requires var w := Run(EMPTY, events);
             && campaign in w.campaigns && w.campaigns[campaign] == COMPLETED
             && i < |w.deliveries| && w.deliveries[i].campaign == campaign
    ensures i in Answers(events) ==> Answers(events)[i] != Rejected && Answers(events)[i] != Ambiguous
    ensures Run(EMPTY, events).deliveries[i].status == SENT <==> i in Answers(events) && Answers(events)[i] == Accepted
  {
    ClosedMeansSettled(events, campaign, i);
    StatusTellsAnswer(events);
    assert Says(Run(EMPTY, events).deliveries[i].status, Answers(events), i);
  }
}
