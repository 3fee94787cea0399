/** How campaigns close: exactly which step can leave a closed campaign with a delivery still to be sent. */
module AnnouncementClosing {
  import opened Common
  import opened Announcements
  import opened AnnouncementRuns

  /** Every delivery of the campaign, `except` one, is past QUEUED and RUNNING. */
  ghost predicate Settled(deliveries: seq<Delivery>, campaign: nat, except: Option<nat>) {
    forall i | 0 <= i < |deliveries| && deliveries[i].campaign == campaign && except != Some(i) ::
      !Unsettled(deliveries[i].status)
  }

  predicate Fine(status: Status) { status == SENT || status == CANCELLED }

  ghost predicate AllFine(deliveries: seq<Delivery>, campaign: nat, except: Option<nat>) {
    forall i | 0 <= i < |deliveries| && deliveries[i].campaign == campaign && except != Some(i) ::
      Fine(deliveries[i].status)
  }

  /** The worker has counted nothing pending in the campaign and has not acted on it yet. */
  predicate Counts(deliveries: seq<Delivery>, p: Phase, campaign: nat) {
    match p
    case Quiet(id, _, _) => id < |deliveries| && deliveries[id].campaign == campaign
    case Decided(id, _, _, verdict) => id < |deliveries| && deliveries[id].campaign == campaign && verdict.Some?
    case Finalising(c) => c == campaign
    case Finalised(c, _) => c == campaign
    case _ => false
  }

  /** The verdict that a worker holds, if it has counted failures too. */
  function Held(p: Phase): Option<Campaign> {
    match p
    case Decided(_, _, _, verdict) => verdict
    case Finalised(_, result) => Some(result)
    case _ => None
  }

  /** A worker that counts for itself reports a settled status of its own, fine if its verdict is COMPLETED. */
  predicate OwnCounted(p: Phase) {
    && (p.Quiet? ==> !Unsettled(p.status))
    && (p.Decided? && p.verdict.Some? ==> !Unsettled(p.status) && (p.verdict == Some(COMPLETED) ==> Fine(p.status)))
  }

  /** What a worker has counted in an open campaign still holds. */
  ghost predicate Calm(w: World, p: Phase) {
    && OwnCounted(p)
    && forall c | c in w.campaigns && w.campaigns[c] == OPEN && Counts(w.deliveries, p, c) ::
         && Settled(w.deliveries, c, Owned(p))
         && (Held(p) == Some(COMPLETED) ==> AllFine(w.deliveries, c, Owned(p)))
  }

  ghost predicate ClosedRight(w: World, campaign: nat)
    requires campaign in w.campaigns
  {
    && (Closing(w.campaigns[campaign]) ==> Settled(w.deliveries, campaign, None))
    && (w.campaigns[campaign] == COMPLETED ==> AllFine(w.deliveries, campaign, None))
  }

  ghost predicate ClosingInv(w: World) {
    && (forall k | k in w.workers :: Calm(w, w.workers[k]))
    && (forall c | c in w.campaigns :: ClosedRight(w, c))
  }

  /* ---------- the step that goes wrong ---------- */

  /** The step queues delivery `i` again although it was swept. */
  ghost predicate Requeues(w: World, e: Event, i: nat) {
    && e.Record? && e.worker in w.workers && w.workers[e.worker].Decided?
       && w.workers[e.worker].id == i < |w.deliveries|
    && w.workers[e.worker].status == QUEUED && w.deliveries[i].status == UNKNOWN
  }

  /** Someone other than `worker` has counted the campaign and not acted yet. */
  ghost predicate BeingClosed(w: World, worker: nat, campaign: nat) {
    exists k | k in w.workers && k != worker :: Counts(w.deliveries, w.workers[k], campaign)
  }

  /** A rate-limited worker queues its swept delivery again in a campaign that is closed or being closed. */
  ghost predicate Late(w: World, e: Event) {
    && e.Record? && e.worker in w.workers && w.workers[e.worker].Decided? && Requeues(w, e, w.workers[e.worker].id)
    && var c := w.deliveries[w.workers[e.worker].id].campaign;
       c in w.campaigns
       && (Closing(w.campaigns[c]) || (w.campaigns[c] == OPEN && BeingClosed(w, e.worker, c)))
  }

  /* ---------- what a step does to the rows of a campaign ---------- */

  lemma RowStep(w: World, e: Event, i: nat)
    requires Inv(w) && i < |w.deliveries|
    ensures i < |Next(w, e).deliveries| && Next(w, e).deliveries[i].campaign == w.deliveries[i].campaign
    ensures Fine(w.deliveries[i].status) ==> Next(w, e).deliveries[i].status == w.deliveries[i].status
    ensures !Unsettled(w.deliveries[i].status) && Unsettled(Next(w, e).deliveries[i].status) ==> Requeues(w, e, i)
  {
    if e.Record? && e.worker in w.workers {
      assert WorkerSound(w, w.workers[e.worker]);
    }
  }

  lemma NewRows(w: World, e: Event, i: nat)
    requires |w.deliveries| <= i < |Next(w, e).deliveries|
    ensures Next(w, e).deliveries[i].campaign in w.campaigns && w.campaigns[Next(w, e).deliveries[i].campaign] == DRAFT
  {
  }

  /** A campaign in which nothing is queued again stays as settled as it was. */
  lemma SettledKept(w: World, e: Event, campaign: nat, except: Option<nat>)
    requires Inv(w) && campaign in w.campaigns && w.campaigns[campaign] != DRAFT
             && Settled(w.deliveries, campaign, except)
    requires forall i: nat | Requeues(w, e, i) :: w.deliveries[i].campaign != campaign
    ensures Settled(Next(w, e).deliveries, campaign, except)
    ensures AllFine(w.deliveries, campaign, except) ==> AllFine(Next(w, e).deliveries, campaign, except)
  {
    var w' := Next(w, e);
    forall i | 0 <= i < |w'.deliveries| && w'.deliveries[i].campaign == campaign && except != Some(i)
      ensures !Unsettled(w'.deliveries[i].status)
      ensures AllFine(w.deliveries, campaign, except) ==> Fine(w'.deliveries[i].status)
    {
      if i < |w.deliveries| {
        RowStep(w, e, i);
      } else {
        NewRows(w, e, i);
      }
    }
  }

  /* ---------- counting ---------- */

  /** The counts mean what they say. */
  lemma CountsMean(deliveries: seq<Delivery>, id: nat, status: Status)
    requires id < |deliveries|
    ensures !Pending(SetStatus(deliveries, id, status), deliveries[id].campaign) ==>
              Settled(deliveries, deliveries[id].campaign, Some(id)) && !Unsettled(status)
    ensures Settled(deliveries, deliveries[id].campaign, Some(id)) && !Unsettled(status)
            && Verdict(SetStatus(deliveries, id, status), deliveries[id].campaign) == COMPLETED ==>
              AllFine(deliveries, deliveries[id].campaign, Some(id)) && Fine(status)
    ensures !Unsettled(status) && Verdict(SetStatus(deliveries, id, status), deliveries[id].campaign) == COMPLETED ==>
              Fine(status)
  {
    var view, c := SetStatus(deliveries, id, status), deliveries[id].campaign;
    assert view[id].status == status && view[id].campaign == c;
    assert forall i | 0 <= i < |deliveries| && i != id :: view[i] == deliveries[i];
  }

  lemma CountsMeanAll(deliveries: seq<Delivery>, campaign: nat)
    ensures !Pending(deliveries, campaign) <==> Settled(deliveries, campaign, None)
    ensures Settled(deliveries, campaign, None) && Verdict(deliveries, campaign) == COMPLETED ==>
              AllFine(deliveries, campaign, None)
  {
  }

  /* ---------- a step that is not late keeps everything right ---------- */

  /** Campaigns only move forward, so one that is open now was open or a draft before. */
  lemma OpenBefore(w: World, e: Event, c: nat)
    requires Inv(w) && c in Next(w, e).campaigns && Next(w, e).campaigns[c] == OPEN && c in w.campaigns
             && w.campaigns[c] != DRAFT
    ensures w.campaigns[c] == OPEN
  {
    if (e.Record? || e.Apply?) && e.worker in w.workers {
      assert WorkerSound(w, w.workers[e.worker]);
    }
  }

  /** The campaign that a worker counts is not a draft. */
  lemma CountedIsNoDraft(w: World, p: Phase, c: nat)
    requires WorkerSound(w, p) && Counts(w.deliveries, p, c)
    requires forall i | 0 <= i < |w.deliveries| :: RowSound(w.campaigns, w.deliveries[i])
    ensures c in w.campaigns && w.campaigns[c] != DRAFT
  {
    if Owned(p).Some? {
      assert RowSound(w.campaigns, w.deliveries[p.id]);
    }
  }

  lemma CountsKept(w: World, e: Event, p: Phase, c: nat)
    requires Inv(w) && WorkerSound(w, p) && Counts(Next(w, e).deliveries, p, c)
    ensures Counts(w.deliveries, p, c)
  {
    if Owned(p).Some? {
      RowStep(w, e, p.id);
    }
  }

  /** A worker that does not move keeps what it counted. */
  lemma BystanderStaysCalm(w: World, e: Event, k: nat)
    requires Inv(w) && ClosingInv(w) && !Late(w, e)
    requires k in w.workers && k in Next(w, e).workers && Next(w, e).workers[k] == w.workers[k]
    requires e.Record? ==> k != e.worker || Next(w, e) == w
    ensures Calm(Next(w, e), w.workers[k])
  {
    var w', p := Next(w, e), w.workers[k];
    assert Calm(w, p) && WorkerSound(w, p);
    forall c | c in w'.campaigns && w'.campaigns[c] == OPEN && Counts(w'.deliveries, p, c)
      ensures Settled(w'.deliveries, c, Owned(p))
              && (Held(p) == Some(COMPLETED) ==> AllFine(w'.deliveries, c, Owned(p)))
    {
      CountsKept(w, e, p, c);
      CountedIsNoDraft(w, p, c);
      OpenBefore(w, e, c);
      NotRequeued(w, e, k, c);
      SettledKept(w, e, c, Owned(p));
    }
  }

  /** In a campaign that someone else is closing, a step that is not late queues nothing again. */
  lemma NotRequeued(w: World, e: Event, k: nat, c: nat)
    requires !Late(w, e) && k in w.workers && c in w.campaigns && w.campaigns[c] == OPEN
             && Counts(w.deliveries, w.workers[k], c)
    requires e.Record? ==> k != e.worker || Next(w, e) == w
    ensures forall i: nat | Requeues(w, e, i) :: w.deliveries[i].campaign != c
  {
  }

  /** The worker that moves counts right. */
  lemma MoverStaysCalm(w: World, e: Event, k: nat)
    requires Inv(w) && (k in w.workers ==> Calm(w, w.workers[k]))
    requires k in Next(w, e).workers && (k in w.workers ==> w.workers[k] != Next(w, e).workers[k])
    ensures Calm(Next(w, e), Next(w, e).workers[k])
  {
    if k in w.workers && Owned(w.workers[k]).Some? {
      OwnerStaysCalm(w, e, k);
    } else {
      CloserStaysCalm(w, e, k);
    }
  }

  lemma OwnerMoves(w: World, e: Event, k: nat)
    requires k in w.workers && k in Next(w, e).workers && w.workers[k] != Next(w, e).workers[k]
             && Owned(w.workers[k]).Some?
    ensures var p, p' := w.workers[k], Next(w, e).workers[k];
            && Owned(p') == Owned(p)
            && (p'.Quiet? || (p'.Decided? && p'.verdict.Some?) ==>
                  && p.id < |w.deliveries| && Next(w, e) == w.(workers := Next(w, e).workers) && p'.status == p.status
                  && var view, c := SetStatus(w.deliveries, p.id, p.status), w.deliveries[p.id].campaign;
                     && (p'.Quiet? ==> p.Told? && !Pending(view, c))
                     && (p'.Decided? ==> p.Quiet? && p'.verdict == Some(Verdict(view, c))))
  {
  }

  /** An owner counts about its siblings, */
  lemma OwnerStaysCalm(w: World, e: Event, k: nat)
    requires k in w.workers && Owned(w.workers[k]).Some? && Calm(w, w.workers[k])
    requires k in Next(w, e).workers && w.workers[k] != Next(w, e).workers[k]
    ensures Calm(Next(w, e), Next(w, e).workers[k])
  {
    OwnerMoves(w, e, k);
    var p := w.workers[k];
    if (p.Told? || p.Quiet?) && p.id < |w.deliveries| {
      CountsMean(w.deliveries, p.id, p.status);
    }
  }

  lemma CloserMoves(w: World, e: Event, k: nat)
    requires k in Next(w, e).workers
    requires k in w.workers ==> Owned(w.workers[k]).None? && w.workers[k] != Next(w, e).workers[k]
    ensures var p' := Next(w, e).workers[k];
            && (p'.Finalising? || p'.Finalised? ==> Next(w, e) == w.(workers := Next(w, e).workers))
            && (p'.Finalising? ==> k !in w.workers && !Pending(w.deliveries, p'.campaign))
            && (p'.Finalised? ==>
                  && k in w.workers
                  && ((w.workers[k] == Finalising(p'.campaign) && p'.result == Verdict(w.deliveries, p'.campaign))
                      || (w.workers[k] == Swept(p'.campaign) && !Pending(w.deliveries, p'.campaign)
                          && p'.result == NEEDS_REVIEW)))
            && !p'.Quiet? && !p'.Decided?
  {
  }

  /** and a closer about the whole campaign. */
  lemma CloserStaysCalm(w: World, e: Event, k: nat)
    requires k in Next(w, e).workers
    requires k in w.workers ==>
               Owned(w.workers[k]).None? && Calm(w, w.workers[k]) && w.workers[k] != Next(w, e).workers[k]
    ensures Calm(Next(w, e), Next(w, e).workers[k])
  {
    CloserMoves(w, e, k);
    var p' := Next(w, e).workers[k];
    if p'.Finalising? || p'.Finalised? {
      CountsMeanAll(w.deliveries, p'.campaign);
    }
  }

  /** The step that closes a campaign closes it right. */
  lemma CloserIsRight(w: World, e: Event, c: nat)
    requires Inv(w) && ClosingInv(w) && c in Next(w, e).campaigns && Closing(Next(w, e).campaigns[c])
    requires c !in w.campaigns || w.campaigns[c] != Next(w, e).campaigns[c]
    ensures ClosedRight(Next(w, e), c)
  {
    var p := w.workers[e.worker];
    assert Calm(w, p) && Counts(w.deliveries, p, c);
    if e.Record? {
      var w' := Next(w, e);
      forall i | 0 <= i < |w'.deliveries| && w'.deliveries[i].campaign == c
        ensures !Unsettled(w'.deliveries[i].status) && (w'.campaigns[c] == COMPLETED ==> Fine(w'.deliveries[i].status))
      {
        assert i != p.id ==> w.deliveries[i].campaign == c && w.deliveries[i].status == w'.deliveries[i].status;
      }
    }
  }

  lemma ClosedStaysRight(w: World, e: Event, c: nat)
    requires Inv(w) && !Late(w, e) && c in w.campaigns && ClosedRight(w, c) && Closing(w.campaigns[c])
    requires c in Next(w, e).campaigns && Next(w, e).campaigns[c] == w.campaigns[c]
    ensures ClosedRight(Next(w, e), c)
  {
    SettledKept(w, e, c, None);
  }

  lemma TimelyStepCloses(w: World, e: Event)
    requires Inv(w) && ClosingInv(w) && !Late(w, e)
    ensures ClosingInv(Next(w, e))
  {
    var w' := Next(w, e);
    if w' == w {
      return;
    }
    forall k | k in w'.workers
      ensures Calm(w', w'.workers[k])
    {
      assert k in w.workers ==> Calm(w, w.workers[k]);
      if k in w.workers && w.workers[k] == w'.workers[k] {
        RecordLeaves(w, e);
        BystanderStaysCalm(w, e, k);
      } else {
        MoverStaysCalm(w, e, k);
      }
    }
    forall c | c in w'.campaigns
      ensures ClosedRight(w', c)
    {
      if Closing(w'.campaigns[c]) {
        if c in w.campaigns && w.campaigns[c] == w'.campaigns[c] {
          assert ClosedRight(w, c);
          ClosedStaysRight(w, e, c);
        } else {
          CloserIsRight(w, e, c);
        }
      }
    }
  }

  lemma RecordLeaves(w: World, e: Event)
    ensures e.Record? && Next(w, e) != w ==> e.worker !in Next(w, e).workers
  {
  }

  /* ---------- a late step breaks something ---------- */

  /** After a late step a delivery of the campaign is QUEUED and the campaign is as it was. */
  lemma LateQueues(w: World, e: Event)
    requires Inv(w) && ClosingInv(w) && Late(w, e)
    ensures var p, w' := w.workers[e.worker], Next(w, e);
            && p.id < |w'.deliveries| && w'.deliveries[p.id].status == QUEUED
            && w'.deliveries[p.id].campaign == w.deliveries[p.id].campaign
            && w'.campaigns == w.campaigns && w'.workers == w.workers - {e.worker}
            && (forall i | 0 <= i < |w.deliveries| ::
                  i < |w'.deliveries| && w'.deliveries[i].campaign == w.deliveries[i].campaign)
  {
    assert Calm(w, w.workers[e.worker]);
  }

  lemma LateStepBreaks(w: World, e: Event)
    requires Inv(w) && ClosingInv(w) && Late(w, e)
    ensures !ClosingInv(Next(w, e))
  {
    LateQueues(w, e);
    var w', p := Next(w, e), w.workers[e.worker];
    var c := w.deliveries[p.id].campaign;
    if Closing(w.campaigns[c]) {
      assert !ClosedRight(w', c);
    } else {
      var k :| k in w.workers && k != e.worker && Counts(w.deliveries, w.workers[k], c);
      assert WorkerSound(w, w.workers[k]);
      assert Counts(w'.deliveries, w.workers[k], c);
      assert Owned(w.workers[k]) != Some(p.id);
      assert !Settled(w'.deliveries, c, Owned(w.workers[k]));
      assert !Calm(w', w'.workers[k]);
    }
  }

  /** From a state in which everything counted holds, a step leads to such a state exactly when it is not late. */
  lemma StepClosesExactlyWhen(w: World, e: Event)
    requires Inv(w) && ClosingInv(w)
    ensures ClosingInv(Next(w, e)) <==> !Late(w, e)
  {
    if Late(w, e) {
      LateStepBreaks(w, e);
    } else {
      TimelyStepCloses(w, e);
    }
  }

  /** A closed campaign has a delivery still to be sent. */
  ghost predicate Broken(w: World) {
    exists i | 0 <= i < |w.deliveries| ::
      && w.deliveries[i].status == QUEUED && w.deliveries[i].campaign in w.campaigns
      && Closing(w.campaigns[w.deliveries[i].campaign])
  }

  /** What the counting worker does next. */
  function Steps(k: nat, p: Phase): seq<Event> {
    match p
    case Quiet(_, _, _) => [CountFailed(k), Record(k)]
    case Decided(_, _, _, _) => [Record(k)]
    case Finalising(_) => [Review(k), Apply(k)]
    case Finalised(_, _) => [Apply(k)]
    case _ => []
  }

  /** A worker with a verdict closes an open campaign and leaves other rows as they are. */
  lemma ActsOnVerdict(w: World, k: nat, c: nat, i: nat)
    requires k in w.workers && Held(w.workers[k]).Some? && Closing(Held(w.workers[k]).value)
             && Counts(w.deliveries, w.workers[k], c)
    requires c in w.campaigns && w.campaigns[c] == OPEN
    requires i < |w.deliveries| && w.deliveries[i].campaign == c && w.deliveries[i].status == QUEUED
    requires Owned(w.workers[k]) != Some(i)
    ensures var w' := Next(w, if w.workers[k].Decided? then Record(k) else Apply(k)); Broken(w')
  {
    var w' := Next(w, if w.workers[k].Decided? then Record(k) else Apply(k));
    assert i < |w'.deliveries| && w'.deliveries[i].status == QUEUED && w'.deliveries[i].campaign == c;
    assert Closing(w'.campaigns[c]);
  }

  /** A counting worker that goes on closes the campaign over a queued delivery. */
  lemma CountingBreaks(w: World, k: nat, c: nat, i: nat)
    requires k in w.workers && WorkerSound(w, w.workers[k]) && Counts(w.deliveries, w.workers[k], c)
    requires c in w.campaigns && w.campaigns[c] == OPEN
    requires i < |w.deliveries| && w.deliveries[i].campaign == c && w.deliveries[i].status == QUEUED
    requires Owned(w.workers[k]) != Some(i)
    ensures Broken(Run(w, Steps(k, w.workers[k])))
  {
    var p := w.workers[k];
    if Held(p).Some? {
      ActsOnVerdict(w, k, c, i);
      RunOne(w, if p.Decided? then Record(k) else Apply(k));
    } else {
      var first := if p.Quiet? then CountFailed(k) else Review(k);
      var v := Next(w, first);
      assert v.deliveries == w.deliveries && v.campaigns == w.campaigns;
      ActsOnVerdict(v, k, c, i);
      RunTwo(w, first, if p.Quiet? then Record(k) else Apply(k));
    }
  }

  /** After a late step, at most two ordinary steps close a campaign over a delivery that is still to be sent. */
  lemma LateStepIsHarmful(w: World, e: Event) returns (more: seq<Event>)
    requires Inv(w) && ClosingInv(w) && Late(w, e)
    ensures |more| <= 2 && Broken(Run(Next(w, e), more))
  {
    LateQueues(w, e);
    var w', p := Next(w, e), w.workers[e.worker];
    var c := w.deliveries[p.id].campaign;
    more := [];
    if !Closing(w.campaigns[c]) {
      var k :| k in w.workers && k != e.worker && Counts(w.deliveries, w.workers[k], c);
      NextKeeps(w, e);
      assert WorkerSound(w', w'.workers[k]);
      assert WorkerSound(w, w.workers[k]) && WorkerSound(w, p);
      CountingBreaks(w', k, c, p.id);
      more := Steps(k, w'.workers[k]);
    }
  }

  /* ---------- every run ---------- */

  /** No rate-limited worker queues a swept delivery again in a campaign that is closed or being closed. */
  ghost predicate AlwaysTimely(events: seq<Event>) {
    forall n | 0 <= n < |events| :: !Late(Run(EMPTY, events[..n]), events[n])
  }

  lemma {:induction false} TimelyRunCloses(events: seq<Event>)
    requires AlwaysTimely(events)
    ensures ClosingInv(Run(EMPTY, events))
    decreases |events|
  {
    if events != [] {
      var n := |events| - 1;
      TimelyPrefix(events, n);
      TimelyRunCloses(events[..n]);
      RunKeeps(events[..n]);
      TimelyStepCloses(Run(EMPTY, events[..n]), events[n]);
    }
  }

  lemma TimelyPrefix(events: seq<Event>, n: nat)
    requires AlwaysTimely(events) && n < |events|
    ensures AlwaysTimely(events[..n]) && !Late(Run(EMPTY, events[..n]), events[n])
  {
    forall k | 0 <= k < n
      ensures !Late(Run(EMPTY, events[..n][..k]), events[..n][k])
    {
      assert events[..n][..k] == events[..k];
    }
  }

  /** In a timely run a campaign is closed by a worker only when none of its deliveries is QUEUED or RUNNING, and
      COMPLETED means that every one of them was SENT or CANCELLED. */
  lemma {:induction false} ClosedMeansSettled(events: seq<Event>, campaign: nat, i: nat)
    requires AlwaysTimely(events)
    requires var w := Run(EMPTY, events);
             campaign in w.campaigns && i < |w.deliveries| && w.deliveries[i].campaign == campaign
    ensures var w := Run(EMPTY, events);
            && (w.campaigns[campaign] == NEEDS_REVIEW || w.campaigns[campaign] == COMPLETED ==>
                  w.deliveries[i].status != QUEUED && w.deliveries[i].status != RUNNING)
            && (w.campaigns[campaign] == COMPLETED ==>
                  w.deliveries[i].status == SENT || w.deliveries[i].status == CANCELLED)
  {
    TimelyRunCloses(events);
    assert ClosedRight(Run(EMPTY, events), campaign);
  }

  /** The condition is exact: the first late step of a run is at most two steps away from a broken campaign. */
  lemma {:induction false} FirstLateStepIsHarmful(events: seq<Event>, e: Event) returns (more: seq<Event>)
    requires AlwaysTimely(events) && Late(Run(EMPTY, events), e)
    ensures |more| <= 2 && Broken(Run(Next(Run(EMPTY, events), e), more))
  {
    TimelyRunCloses(events);
    RunKeeps(events);
    more := LateStepIsHarmful(Run(EMPTY, events), e);
  }

  /* ---------- prompt sends are timely ---------- */

  /** Owned deliveries are RUNNING: none was swept from under its owner. */
  ghost predicate NoneSwept(w: World) {
    forall k | k in w.workers && Owned(w.workers[k]).Some? ::
      w.workers[k].id < |w.deliveries| && w.deliveries[w.workers[k].id].status == RUNNING
  }

  /** In a prompt state no owned row is stale. */
  lemma SweepSparesOwned(w: World, id: nat, now: int, k: nat)
    requires Prompt(w) && StaleRow(w, id, now) && k in w.workers
    ensures Owned(w.workers[k]) != Some(id)
  {
  }

  /** A RUNNING row is taken from it by the sweep, if stale, or by its owner. */
  lemma RunningStays(w: World, e: Event, i: nat)
    requires i < |w.deliveries| && w.deliveries[i].status == RUNNING
    requires e.Sweep? ==> !StaleRow(w, e.id, e.now) || e.id != i
    requires e.Record? && e.worker in w.workers ==> Owned(w.workers[e.worker]) != Some(i)
    ensures i < |Next(w, e).deliveries| && Next(w, e).deliveries[i].status == RUNNING
  {
  }

  lemma WorkersMove(w: World, e: Event, k: nat)
    requires k in Next(w, e).workers && Owned(Next(w, e).workers[k]).Some?
    ensures k in w.workers ==> Owned(w.workers[k]) == Owned(Next(w, e).workers[k])
    ensures k !in w.workers ==> e.Claim? && e.worker == k && Next(w, e).workers[k].id == e.id && Claimable(w, e.id,
                e.now)
    ensures e.Record? && Next(w, e) != w ==> k != e.worker && k in w.workers
  {
  }

  lemma OwnedStaysRunning(w: World, e: Event, k: nat)
    requires Inv(w) && NoneSwept(w) && Prompt(w)
    requires k in Next(w, e).workers && Owned(Next(w, e).workers[k]).Some?
    ensures var w' := Next(w, e);
            w'.workers[k].id < |w'.deliveries| && w'.deliveries[w'.workers[k].id].status == RUNNING
  {
    WorkersMove(w, e, k);
    if k in w.workers && Next(w, e) != w {
      if e.Sweep? && StaleRow(w, e.id, e.now) {
        SweepSparesOwned(w, e.id, e.now, k);
      }
      RunningStays(w, e, w.workers[k].id);
    }
  }

  lemma {:induction false} PromptRunSweepsNone(events: seq<Event>)
    requires AlwaysPrompt(events)
    ensures NoneSwept(Run(EMPTY, events))
    decreases |events|
  {
    if events != [] {
      var n := |events| - 1;
      var before := events[..n];
      assert forall k | 0 <= k <= n :: before[..k] == events[..k];
      assert before[..n] == before;
      PromptRunSweepsNone(before);
      RunKeeps(before);
      var w := Run(EMPTY, before);
      forall k | k in Next(w, events[n]).workers && Owned(Next(w, events[n]).workers[k]).Some?
        ensures var w' := Next(w, events[n]);
                w'.workers[k].id < |w'.deliveries| && w'.deliveries[w'.workers[k].id].status == RUNNING
      {
        OwnedStaysRunning(w, events[n], k);
      }
    }
  }

  /** Runs in which no worker is busy with a delivery five minutes after claiming it are timely. */
  lemma {:induction false} PromptIsTimely(events: seq<Event>)
    requires AlwaysPrompt(events)
    ensures AlwaysTimely(events)
  {
    forall n | 0 <= n < |events|
      ensures !Late(Run(EMPTY, events[..n]), events[n])
    {
      assert forall k | 0 <= k <= n :: events[..n][..k] == events[..k];
      PromptRunSweepsNone(events[..n]);
    }
  }

  /* ---------- once ---------- */

  /** One step of a campaign's life. */
  ghost predicate Forward(before: Campaign, after: Campaign) {
    || before == after
    || (before == DRAFT && (after == OPEN || after == WITHDRAWN))
    || (before == OPEN && (after == COMPLETED || after == NEEDS_REVIEW || after == WITHDRAWN))
  }

  lemma NextIsForward(w: World, e: Event, campaign: nat)
    requires Inv(w) && campaign in w.campaigns
    ensures campaign in Next(w, e).campaigns && Forward(w.campaigns[campaign], Next(w, e).campaigns[campaign])
  {
    if (e.Record? || e.Apply?) && e.worker in w.workers {
      assert WorkerSound(w, w.workers[e.worker]);
    }
  }

  lemma {:induction false} ClosedStaysFrom(w: World, events: seq<Event>, campaign: nat)
    requires Inv(w) && campaign in w.campaigns && w.campaigns[campaign] != DRAFT
    ensures Inv(Run(w, events)) && campaign in Run(w, events).campaigns && Run(w, events).campaigns[campaign] != DRAFT
    ensures w.campaigns[campaign] != OPEN ==> Run(w, events).campaigns[campaign] == w.campaigns[campaign]
    decreases |events|
  {
    if events != [] {
      var n := |events| - 1;
      ClosedStaysFrom(w, events[..n], campaign);
      NextKeeps(Run(w, events[..n]), events[n]);
      NextIsForward(Run(w, events[..n]), events[n], campaign);
    }
  }

  /** A campaign leaves its queue once: whatever it became then, it stays. */
  lemma {:induction false} ClosedStays(before: seq<Event>, after: seq<Event>, campaign: nat)
    requires var w := Run(EMPTY, before);
             campaign in w.campaigns && w.campaigns[campaign] != DRAFT && w.campaigns[campaign] != OPEN
    ensures var w := Run(Run(EMPTY, before), after);
            campaign in w.campaigns && w.campaigns[campaign] == Run(EMPTY, before).campaigns[campaign]
  {
    RunKeeps(before);
    ClosedStaysFrom(Run(EMPTY, before), after, campaign);
  }
}
