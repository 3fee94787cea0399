/** One cycle of the announcement worker, as a program over the tables. Each method is a run of
    the steps in `Announcements`, so what holds of every run holds of it. */
module AnnouncementWorker {
  import opened Common
  import opened Announcements
  import opened AnnouncementRuns
  import Outcomes = AnnouncementOutcomes

  /** The first candidate that the conditional update still finds claimable. */
  function FirstClaimable(w: World, candidates: seq<nat>, now: int): (r: Option<nat>)
    ensures r.Some? ==> r.value in candidates && Claimable(w, r.value, now)
    ensures r.None? ==> forall i | 0 <= i < |candidates| :: !Claimable(w, candidates[i], now)
  {
    if candidates == [] then None
    else if Claimable(w, candidates[0], now) then Some(candidates[0])
    else FirstClaimable(w, candidates[1..], now)
  }

  lemma {:induction false} FirstClaimableSkips(w: World, candidates: seq<nat>, now: int, n: nat)
    requires n <= |candidates| && forall i | 0 <= i < n :: !Claimable(w, candidates[i], now)
    ensures FirstClaimable(w, candidates, now) == FirstClaimable(w, candidates[n..], now)
    decreases n
  {
    if n > 0 {
      FirstClaimableSkips(w, candidates, now, n - 1);
      assert candidates[n - 1..][0] == candidates[n - 1] && candidates[n - 1..][1..] == candidates[n..];
    }
  }

  lemma {:induction false} FirstClaimableSame(w: World, w': World, candidates: seq<nat>, now: int)
    requires forall i | 0 <= i < |candidates| :: Claimable(w, candidates[i], now) == Claimable(w', candidates[i], now)
    ensures FirstClaimable(w, candidates, now) == FirstClaimable(w', candidates, now)
    decreases |candidates|
  {
    if candidates != [] {
      FirstClaimableSame(w, w', candidates[1..], now);
    }
  }

  lemma {:induction false} RunConcat(w: World, a: seq<Event>, b: seq<Event>)
    ensures Run(w, a + b) == Run(Run(w, a), b)
    decreases |b|
  {
    if b == [] {
      assert a + b == a;
    } else {
      var n := |b| - 1;
      RunConcat(w, a, b[..n]);
      assert (a + b)[..|a + b| - 1] == a + b[..n];
    }
  }

  lemma {:induction false} RunKeepsFrom(w: World, events: seq<Event>)
    requires Inv(w)
    ensures Inv(Run(w, events))
    decreases |events|
  {
    if events != [] {
      RunKeepsFrom(w, events[..|events| - 1]);
      NextKeeps(Run(w, events[..|events| - 1]), events[|events| - 1]);
    }
  }

  lemma RunThree(w: World, e: Event, f: Event, g: Event)
    ensures Run(w, [e, f, g]) == Next(Next(Next(w, e), f), g)
  {
    RunTwo(w, e, f);
    assert [e, f, g][..2] == [e, f];
  }

  /** Selecting, counting and closing one campaign. */
  lemma FinalisePass(w: World, me: nat, c: nat)
    requires me !in w.workers && c in w.campaigns && w.campaigns[c] == OPEN && !Pending(w.deliveries, c)
    ensures Run(w, [Finalise(me, c), Review(me), Apply(me)])
            == w.(campaigns := w.campaigns[c := Verdict(w.deliveries, c)])
  {
    RunThree(w, Finalise(me, c), Review(me), Apply(me));
    assert w.workers[me := Finalising(c)][me := Finalised(c, Verdict(w.deliveries, c))] - {me} == w.workers;
  }

  /** The tables after one row was found stale: the row if it still is, and the campaign if nothing is pending. */
  function AfterSweep(w: World, id: nat, now: int): World
    requires id < |w.deliveries|
  {
    var deliveries := Interrupted(w, id, now);
    var c := w.deliveries[id].campaign;
    w.(deliveries := deliveries,
       campaigns := if Pending(deliveries, c) then w.campaigns else Close(w.campaigns, c, NEEDS_REVIEW))
  }

  lemma ReviewPass(w: World, me: nat, c: nat)
    requires me in w.workers && w.workers[me] == Swept(c)
    ensures Next(Next(w, Review(me)), Apply(me)) ==
            Idle(w, me).(campaigns := if Pending(w.deliveries, c) then w.campaigns
                           else Close(w.campaigns, c, NEEDS_REVIEW))
  {
  }

  lemma SweepPass(w: World, me: nat, id: nat, now: int)
    requires me !in w.workers && id < |w.deliveries| && now <= w.clock
    ensures Run(w, [Sweep(me, id, now), Review(me), Apply(me)]) == AfterSweep(w, id, now)
  {
    RunThree(w, Sweep(me, id, now), Review(me), Apply(me));
    var c := w.deliveries[id].campaign;
    var v := At(w.(deliveries := Interrupted(w, id, now)), me, Swept(c));
    assert Next(w, Sweep(me, id, now)) == v;
    ReviewPass(v, me, c);
    assert v.workers - {me} == w.workers;
  }

  /** What the send was worth: its final status and, when rate limited, the time to retry. */
  function StatusOf(outcome: Outcome): Status {
    match outcome
    case Accepted => SENT
    case Ambiguous => UNKNOWN
    case Rejected => FAILED
    case RateLimited(_) => QUEUED
  }

  function RetryOf(outcome: Outcome, now: int): Option<int> {
    match outcome
    case RateLimited(retryAfter) => Some(now + if retryAfter < 1 then 1 else retryAfter)
    case _ => None
  }

  /** The row once its delivery is over; only a send that may have been accepted counts. */
  function Ended(d: Delivery, status: Status, retryAt: Option<int>, clock: int): Delivery {
    d.(status := status, updatedAt := clock, possible := if Reached(status) then d.possible + 1 else d.possible,
       nextAttempt := if retryAt.Some? then retryAt.value else d.nextAttempt)
  }

  /** The tables after a delivery. */
  function AfterDelivery(w: World, me: nat, id: nat, status: Status, retryAt: Option<int>): World
    requires id < |w.deliveries|
  {
    var c := w.deliveries[id].campaign;
    var rows := if retryAt.Some? then Postpone(w.deliveries, c, retryAt.value) else w.deliveries;
    var ended := rows[id := Ended(w.deliveries[id], status, retryAt, w.clock)];
    World(w.clock, if Pending(ended, c) then w.campaigns else Close(w.campaigns, c, Verdict(ended, c)), ended,
          w.workers - {me})
  }

  /** Sending, or skipping a recipient that is unavailable. */
  function SendSteps(me: nat, send: bool, outcome: Outcome): seq<Event> {
    if send then [Start(me), Answer(me, outcome)] else [Skip(me)]
  }

  /** Counting and recording, once the outcome is known. */
  function RecordSteps(me: nat): seq<Event> {
    [CountPending(me), CountFailed(me), Record(me)]
  }

  /** Rows that agree in campaign and status give the same counts. */
  lemma SameCounts(a: seq<Delivery>, b: seq<Delivery>, campaign: nat)
    requires |a| == |b| && forall i | 0 <= i < |a| :: a[i].campaign == b[i].campaign && a[i].status == b[i].status
    ensures Pending(a, campaign) == Pending(b, campaign) && AnyBad(a, campaign) == AnyBad(b, campaign)
  {
  }

  ghost predicate JustClaimed(w: World, me: nat, id: nat, now: int) {
    me in w.workers && w.workers[me] == Claimed(id, now) && id < |w.deliveries| && w.deliveries[id].possible == 0
  }

  /** The world once the outcome is known. */
  function AfterSend(w: World, me: nat, id: nat, status: Status, retryAt: Option<int>): World
    requires id < |w.deliveries|
  {
    At(w.(deliveries := w.deliveries[id := w.deliveries[id].(possible := if Reached(status) then 1 else 0)]), me,
       Told(id, status, retryAt))
  }

  /** The world while the send is under way. */
  function WhileSending(w: World, me: nat, id: nat, now: int): World
    requires id < |w.deliveries|
  {
    At(w.(deliveries := w.deliveries[id := w.deliveries[id].(possible := 1)]), me, Sending(id, now))
  }

  lemma AnswerPass(w: World, me: nat, id: nat, now: int, outcome: Outcome)
    requires id < |w.deliveries|
    ensures Next(WhileSending(w, me, id, now), Answer(me, outcome))
            == AfterSend(w, me, id, StatusOf(outcome), RetryOf(outcome, now))
  {
  }

  lemma StartPass(w: World, me: nat, id: nat, now: int)
    requires JustClaimed(w, me, id, now)
    requires w.deliveries[id].campaign in w.campaigns && w.campaigns[w.deliveries[id].campaign] != WITHDRAWN
    ensures Next(w, Start(me)) == WhileSending(w, me, id, now)
  {
  }

  lemma SendPass(w: World, me: nat, id: nat, now: int, outcome: Outcome)
    requires JustClaimed(w, me, id, now)
    requires w.deliveries[id].campaign in w.campaigns && w.campaigns[w.deliveries[id].campaign] != WITHDRAWN
    ensures Run(w, SendSteps(me, true, outcome)) == AfterSend(w, me, id, StatusOf(outcome), RetryOf(outcome, now))
  {
    RunTwo(w, Start(me), Answer(me, outcome));
    StartPass(w, me, id, now);
    AnswerPass(w, me, id, now, outcome);
  }

  lemma SkipPass(w: World, me: nat, id: nat, now: int, outcome: Outcome)
    requires JustClaimed(w, me, id, now)
    ensures Run(w, SendSteps(me, false, outcome)) == AfterSend(w, me, id, CANCELLED, None)
  {
  }

  /** The two counts lead to the verdict, if there is one. */
  lemma CountPass(v: World, me: nat, id: nat, status: Status, retryAt: Option<int>)
    requires me in v.workers && v.workers[me] == Told(id, status, retryAt) && id < |v.deliveries|
    ensures var c, view := v.deliveries[id].campaign, SetStatus(v.deliveries, id, status);
            Next(Next(v, CountPending(me)), CountFailed(me)) ==
            At(v, me, Decided(id, status, retryAt, if Pending(view, c) then None else Some(Verdict(view, c))))
  {
  }

  lemma RecordPass(w: World, me: nat, id: nat, now: int, status: Status, retryAt: Option<int>)
    requires JustClaimed(w, me, id, now)
    ensures Run(AfterSend(w, me, id, status, retryAt), RecordSteps(me)) == AfterDelivery(w, me, id, status, retryAt)
  {
    var v := AfterSend(w, me, id, status, retryAt);
    RunThree(v, CountPending(me), CountFailed(me), Record(me));
    CountPass(v, me, id, status, retryAt);
    var c, end := w.deliveries[id].campaign, AfterDelivery(w, me, id, status, retryAt);
    var view := SetStatus(v.deliveries, id, status);
    SameCounts(view, end.deliveries, c);
    var u := At(v, me, Decided(id, status, retryAt, if Pending(view, c) then None else Some(Verdict(view, c))));
    RecordedEnds(w, v, u, me, id, now, status, retryAt);
  }

  lemma RecordedEnds(w: World, v: World, u: World, me: nat, id: nat, now: int, status: Status, retryAt: Option<int>)
    requires JustClaimed(w, me, id, now) && v == AfterSend(w, me, id, status, retryAt)
    requires var ended, c := AfterDelivery(w, me, id, status, retryAt).deliveries, w.deliveries[id].campaign;
             u == At(v, me, Decided(id, status, retryAt, if Pending(ended, c) then None else Some(Verdict(ended, c))))
    ensures Next(u, Record(me)) == AfterDelivery(w, me, id, status, retryAt)
  {
  }

  /** The whole delivery, as steps. */
  lemma DeliveryPass(w: World, me: nat, id: nat, now: int, send: bool, outcome: Outcome)
    requires JustClaimed(w, me, id, now)
    requires send ==> w.deliveries[id].campaign in w.campaigns && w.campaigns[w.deliveries[id].campaign] != WITHDRAWN
    ensures Run(w, SendSteps(me, send, outcome) + RecordSteps(me)) ==
            if send then AfterDelivery(w, me, id, StatusOf(outcome), RetryOf(outcome, now))
              else AfterDelivery(w, me, id, CANCELLED, None)
  {
    RunConcat(w, SendSteps(me, send, outcome), RecordSteps(me));
    if send {
      SendPass(w, me, id, now, outcome);
      RecordPass(w, me, id, now, StatusOf(outcome), RetryOf(outcome, now));
    } else {
      SkipPass(w, me, id, now, outcome);
      RecordPass(w, me, id, now, CANCELLED, None);
    }
  }

  /** Nothing of the campaign is QUEUED or RUNNING, and it goes to review exactly when something is UNKNOWN or
      FAILED. */
  ghost predicate ClosedAs(deliveries: seq<Delivery>, c: nat, result: Campaign) {
    && (forall i | 0 <= i < |deliveries| && deliveries[i].campaign == c :: deliveries[i].status !in {QUEUED, RUNNING})
    && result == if exists i | 0 <= i < |deliveries| ::
                      deliveries[i].campaign == c && deliveries[i].status in {UNKNOWN, FAILED}
                 then NEEDS_REVIEW else COMPLETED
  }

  /** Only this campaign moves, from its queue, and exactly when its counts allow it. */
  ghost predicate Counted(before: map<nat, Campaign>, after: map<nat, Campaign>, deliveries: seq<Delivery>, c: nat) {
    && after.Keys == before.Keys && after - {c} == before - {c}
    && (c in before && before[c] != OPEN ==> after[c] == before[c])
    && (c in before && before[c] == OPEN ==>
          if exists i | 0 <= i < |deliveries| ::
               deliveries[i].campaign == c && deliveries[i].status in {QUEUED, RUNNING}
          then after[c] == OPEN else ClosedAs(deliveries, c, after[c]))
  }

  lemma CloseCounts(before: map<nat, Campaign>, deliveries: seq<Delivery>, c: nat)
    ensures Counted(before, if Pending(deliveries, c) then before else Close(before, c, Verdict(deliveries, c)),
                    deliveries, c)
  {
    Outcomes.CountsLiterally(deliveries, c);
  }

  /** How a delivery is recorded after an answer. */
  predicate RecordedAs(status: Status, outcome: Outcome) {
    match outcome
    case Accepted => status == SENT
    case RateLimited(_) => status == QUEUED
    case Rejected => status == FAILED
    case Ambiguous => status == UNKNOWN
  }

  class Tables {
    var clock: int
    var campaigns: map<nat, Campaign>
    var deliveries: seq<Delivery>
    ghost var workers: map<nat, Phase>

    ghost function View(): World
      reads this
    {
      World(clock, campaigns, deliveries, workers)
    }

    /** Closes the open campaigns with nothing pending, at most a hundred of them. */
    method FinaliseCampaigns(ghost me: nat) returns (ghost events: seq<Event>)
      requires me !in workers
      modifies this`campaigns
      ensures View() == Run(old(View()), events)
      ensures campaigns.Keys == old(campaigns).Keys
      ensures forall c | c in campaigns && campaigns[c] != old(campaigns)[c] ::
                old(campaigns)[c] == OPEN && !Pending(deliveries, c) && campaigns[c] == Verdict(deliveries, c)
      ensures forall c | c in campaigns && campaigns[c] != old(campaigns)[c] :: ClosedAs(deliveries, c, campaigns[c])
    {
      var selected: seq<nat> := [];
      var rest := campaigns.Keys;
      while rest != {} && |selected| < 100
        invariant rest <= campaigns.Keys && Distinct(selected) && forall i | 0 <= i < |selected| :: selected[i] !in rest
        invariant forall i | 0 <= i < |selected| ::
                    selected[i] in campaigns && campaigns[selected[i]] == OPEN && !Pending(deliveries, selected[i])
        decreases |rest|
      {
        var c :| c in rest;
        rest := rest - {c};
        if campaigns[c] == OPEN && !Pending(deliveries, c) {
          selected := selected + [c];
        }
      }
      events := [];
      ghost var start := View();
      for i := 0 to |selected|
        invariant View() == Run(start, events)
        invariant campaigns.Keys == start.campaigns.Keys
        invariant forall j | i <= j < |selected| :: campaigns[selected[j]] == OPEN
        invariant forall c | c in campaigns && campaigns[c] != start.campaigns[c] ::
                    start.campaigns[c] == OPEN && !Pending(deliveries, c) && campaigns[c] == Verdict(deliveries, c)
      {
        var c := selected[i];
        var failed := AnyBad(deliveries, c);
        ghost var w := View();
        if campaigns[c] == OPEN {
          campaigns := campaigns[c := if failed then NEEDS_REVIEW else COMPLETED];
        }
        FinalisePass(w, me, c);
        RunConcat(start, events, [Finalise(me, c), Review(me), Apply(me)]);
        events := events + [Finalise(me, c), Review(me), Apply(me)];
      }
      forall c
        ensures !Pending(deliveries, c) ==> ClosedAs(deliveries, c, Verdict(deliveries, c))
      {
        Outcomes.CountsLiterally(deliveries, c);
      }
    }

    /** Marks what was read as stale UNKNOWN where it still is, and sends its campaigns to review. */
    method SweepStale(ghost me: nat, stale: seq<nat>, now: int) returns (ghost events: seq<Event>)
      requires me !in workers && now <= clock && forall i | 0 <= i < |stale| :: stale[i] < |deliveries|
      modifies this`campaigns, this`deliveries
      ensures View() == Run(old(View()), events)
      ensures |deliveries| == |old(deliveries)|
      ensures forall i: nat | i < |deliveries| ::
                deliveries[i] == if i in stale && StaleRow(old(View()), i, now)
                                 then old(deliveries)[i].(status := UNKNOWN, updatedAt := clock) else old(deliveries)[i]
    {
      events := [];
      ghost var start := View();
      for n := 0 to |stale|
        invariant View() == Run(start, events) && |deliveries| == |start.deliveries|
        invariant forall i: nat | i < |deliveries| ::
                    deliveries[i] == if i in stale[..n] && StaleRow(start, i, now)
                                     then start.deliveries[i].(status := UNKNOWN, updatedAt := clock)
                                       else start.deliveries[i]
      {
        var id := stale[n];
        ghost var w := View();
        if deliveries[id].status == RUNNING && deliveries[id].updatedAt < now - STALE {
          deliveries := deliveries[id := deliveries[id].(status := UNKNOWN, updatedAt := clock)];
        }
        var campaign := deliveries[id].campaign;
        if !Pending(deliveries, campaign) {
          campaigns := Close(campaigns, campaign, NEEDS_REVIEW);
        }
        SweepPass(w, me, id, now);
        RunConcat(start, events, [Sweep(me, id, now), Review(me), Apply(me)]);
        events := events + [Sweep(me, id, now), Review(me), Apply(me)];
        assert stale[..n + 1] == stale[..n] + [id];
      }
      assert stale[..|stale|] == stale;
    }

    /** Claims the first candidate that is still claimable, and nothing else. */
    method ClaimOne(ghost me: nat, candidates: seq<nat>, now: int) returns (claimed: Option<nat>)
      requires me !in workers && now <= clock && forall i | 0 <= i < |candidates| :: candidates[i] < |deliveries|
      modifies this`deliveries, this`workers
      ensures claimed == FirstClaimable(old(View()), candidates, now)
      ensures View() == if claimed.Some? then Next(old(View()), Claim(me, claimed.value, now)) else old(View())
    {
      for i := 0 to |candidates|
        invariant View() == old(View())
        invariant forall j | 0 <= j < i :: !Claimable(old(View()), candidates[j], now)
      {
        var id := candidates[i];
        if deliveries[id].status == QUEUED && deliveries[id].nextAttempt <= now {
          deliveries := deliveries[id := deliveries[id].(status := RUNNING, updatedAt := now)];
          workers := workers[me := Claimed(id, now)];
          FirstClaimableSkips(old(View()), candidates, now, i);
          return Some(id);
        }
      }
      FirstClaimableSkips(old(View()), candidates, now, |candidates|);
      return None;
    }

    /** Sends a claimed delivery, unless its recipient is unavailable, and records how it ended. */
    method Deliver(ghost me: nat, id: nat, now: int, available: bool,
                   outcome: Outcome) returns (ghost events: seq<Event>)
      requires JustClaimed(View(), me, id, now)
      modifies this`campaigns, this`deliveries, this`workers
      ensures View() == Run(old(View()), events)
      ensures me !in workers && |deliveries| == |old(deliveries)|
      ensures var send := available && old(deliveries)[id].campaign in old(campaigns)
              && old(campaigns)[old(deliveries)[id].campaign] != WITHDRAWN;
              && events == SendSteps(me, send, outcome) + RecordSteps(me)
              && (if send then RecordedAs(deliveries[id].status, outcome) else deliveries[id].status == CANCELLED)
              && (send && outcome.RateLimited? ==>
                    deliveries[id].nextAttempt == if outcome.retryAfter <= 1 then now + 1 else now + outcome.retryAfter)
      ensures forall i | 0 <= i < |deliveries| && i != id :: deliveries[i].status == old(deliveries)[i].status
      ensures forall i | 0 <= i < |deliveries| && i != id ::
                deliveries[i] == old(deliveries)[i]
                || (deliveries[i] == old(deliveries)[i].(nextAttempt := deliveries[id].nextAttempt)
                    && deliveries[i].status == QUEUED && deliveries[i].campaign == old(deliveries)[id].campaign)
      ensures deliveries[id].status == QUEUED ==>
                forall i | 0 <= i < |deliveries| && deliveries[i].campaign == old(deliveries)[id].campaign
                           && deliveries[i].status == QUEUED :: deliveries[i].nextAttempt == deliveries[id].nextAttempt
      ensures Counted(old(campaigns), campaigns, deliveries, old(deliveries)[id].campaign)
    {
      ghost var w := View();
      var d := deliveries[id];
      var status, retryAt := CANCELLED, None;
      var send := available && d.campaign in campaigns && campaigns[d.campaign] != WITHDRAWN;
      if send {
        status := StatusOf(outcome);
        if outcome.RateLimited? {
          retryAt := Some(now + if outcome.retryAfter < 1 then 1 else outcome.retryAfter);
          deliveries := Postpone(deliveries, d.campaign, retryAt.value);
        }
      }
      deliveries := deliveries[id := Ended(d, status, retryAt, clock)];
      if !Pending(deliveries, d.campaign) {
        var failed := AnyBad(deliveries, d.campaign);
        campaigns := Close(campaigns, d.campaign, if failed then NEEDS_REVIEW else COMPLETED);
      }
      CloseCounts(w.campaigns, deliveries, d.campaign);
      workers := workers - {me};
      events := SendSteps(me, send, outcome) + RecordSteps(me);
      DeliveryPass(w, me, id, now, send, outcome);
    }

    /** A whole cycle: closes campaigns, sweeps, claims at most one delivery and sees it through. What
        the queries returned, the recipient's availability and the transport's answer are arbitrary. */
    method RunOnce(ghost me: nat, stale: seq<nat>, candidates: seq<nat>, now: int, available: bool, outcome: Outcome)
      returns (claimed: Option<nat>, ghost events: seq<Event>)
      requires Inv(View()) && me !in workers && now <= clock
      requires forall i | 0 <= i < |stale| :: stale[i] < |deliveries|
      requires forall i | 0 <= i < |candidates| :: candidates[i] < |deliveries|
      modifies this`campaigns, this`deliveries, this`workers
      ensures View() == Run(old(View()), events) && Inv(View()) && me !in workers
      ensures claimed == FirstClaimable(old(View()), candidates, now)
      ensures claimed.Some? ==>
                && claimed.value < |deliveries|
                && (|| RecordedAs(deliveries[claimed.value].status, outcome)
                    || deliveries[claimed.value].status == CANCELLED)
    {
      ghost var start := View();
      var closing := FinaliseCampaigns(me);
      var sweeping := SweepStale(me, stale, now);
      RunConcat(start, closing, sweeping);
      ghost var before := closing + sweeping;
      RunKeepsFrom(start, before);
      FirstClaimableSame(start, View(), candidates, now);
      claimed := ClaimOne(me, candidates, now);
      events := before;
      if claimed.Some? {
        var id := claimed.value;
        assert RowSound(Run(start, before).campaigns, Run(start, before).deliveries[id]);
        var sending := Deliver(me, id, now, available, outcome);
        RunOne(Run(start, before), Claim(me, id, now));
        RunConcat(start, before, [Claim(me, id, now)]);
        RunConcat(start, before + [Claim(me, id, now)], sending);
        events := before + [Claim(me, id, now)] + sending;
      }
      RunKeepsFrom(start, events);
    }
  }
}
