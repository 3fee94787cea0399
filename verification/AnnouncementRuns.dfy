/** What every interleaving of announcement workers keeps. */
module AnnouncementRuns {
  import opened Common
  import opened Announcements

  /** A queued delivery may still be sent because nothing was; a sent one was sent. */
  ghost predicate RowSound(campaigns: map<nat, Campaign>, d: Delivery) {
    && d.campaign in campaigns && campaigns[d.campaign] != DRAFT
    && d.possible <= 1 && (d.status == QUEUED ==> d.possible == 0) && (d.status == SENT ==> d.possible == 1)
  }

  predicate Reached(status: Status) { status == SENT || status == UNKNOWN }

  predicate Closing(c: Campaign) { c == COMPLETED || c == NEEDS_REVIEW }

  /** An owned row is RUNNING, or UNKNOWN once swept, and counts the owner's own send. */
  ghost predicate OwnerSound(deliveries: seq<Delivery>, p: Phase)
    requires Owned(p).Some?
  {
    && p.id < |deliveries|
    && (deliveries[p.id].status == RUNNING || deliveries[p.id].status == UNKNOWN)
    && match p
       case Claimed(_, _) => deliveries[p.id].possible == 0
       case Sending(_, _) => deliveries[p.id].possible == 1
       case _ => p.status != RUNNING && deliveries[p.id].possible == (if Reached(p.status) then 1 else 0)
  }

  ghost predicate WorkerSound(w: World, p: Phase) {
    && (Owned(p).Some? ==> OwnerSound(w.deliveries, p))
    && (Owned(p).None? ==> p.campaign in w.campaigns && w.campaigns[p.campaign] != DRAFT)
    && (p.Finalised? ==> Closing(p.result)) && (p.Decided? && p.verdict.Some? ==> Closing(p.verdict.value))
  }

  ghost predicate OneOwner(workers: map<nat, Phase>) {
    forall j, k | j in workers && k in workers && Owned(workers[j]).Some? && Owned(workers[j]) == Owned(workers[k]) ::
      j == k
  }

  ghost predicate Recipients(deliveries: seq<Delivery>) {
    forall i, j | 0 <= i < j < |deliveries| ::
      !(deliveries[i].campaign == deliveries[j].campaign && deliveries[i].binding == deliveries[j].binding)
  }

  ghost predicate Inv(w: World) {
    && (forall i | 0 <= i < |w.deliveries| :: RowSound(w.campaigns, w.deliveries[i]))
    && (forall k | k in w.workers :: WorkerSound(w, w.workers[k]))
    && OneOwner(w.workers) && Recipients(w.deliveries)
  }

  /* ---------- building blocks of steps ---------- */

  /** A worker moves on, keeping or giving up what it owns. */
  lemma MoveKeeps(w: World, k: nat, p: Phase)
    requires Inv(w) && WorkerSound(w, p)
    requires Owned(p).Some? ==> k in w.workers && Owned(p) == Owned(w.workers[k])
    ensures Inv(At(w, k, p))
  {
  }

  lemma IdleKeeps(w: World, k: nat)
    requires Inv(w)
    ensures Inv(Idle(w, k))
  {
  }

  /** A row that no worker owns is rewritten. */
  lemma RowKeeps(w: World, id: nat, d: Delivery)
    requires Inv(w) && id < |w.deliveries| && RowSound(w.campaigns, d)
    requires d.campaign == w.deliveries[id].campaign && d.binding == w.deliveries[id].binding
    requires forall k | k in w.workers :: Owned(w.workers[k]) != Some(id)
    ensures Inv(w.(deliveries := w.deliveries[id := d]))
  {
  }

  /** Giving a row up leaves it without an owner. */
  lemma IdleFrees(w: World, k: nat, id: nat)
    requires OneOwner(w.workers) && k in w.workers && Owned(w.workers[k]) == Some(id)
    ensures forall j | j in Idle(w, k).workers :: Owned(Idle(w, k).workers[j]) != Some(id)
  {
  }

  /** A free worker takes a row that has no owner. */
  lemma TakeKeeps(w: World, k: nat, p: Phase)
    requires Inv(w) && WorkerSound(w, p) && Owned(p).Some?
    requires forall j | j in w.workers :: Owned(w.workers[j]) != Owned(p)
    ensures Inv(At(w, k, p))
  {
  }

  /** Campaigns only move forward from DRAFT. */
  lemma CampaignKeeps(w: World, campaign: nat, c: Campaign)
    requires Inv(w) && (c == DRAFT ==> campaign !in w.campaigns)
    ensures Inv(w.(campaigns := w.campaigns[campaign := c]))
  {
  }

  lemma CloseKeeps(w: World, campaign: nat, c: Campaign)
    requires Inv(w) && Closing(c)
    ensures Inv(w.(campaigns := Close(w.campaigns, campaign, c)))
  {
  }

  /** Rows change only in ways that matter to nobody: queued ones are postponed or cancelled. */
  lemma QueuedRowsKeep(w: World, rows: seq<Delivery>)
    requires Inv(w) && |rows| == |w.deliveries|
    requires forall i | 0 <= i < |rows| ::
               && rows[i].campaign == w.deliveries[i].campaign && rows[i].binding == w.deliveries[i].binding
               && rows[i].possible == w.deliveries[i].possible
               && (rows[i] == w.deliveries[i]
                   || (w.deliveries[i].status == QUEUED && (rows[i].status == QUEUED || rows[i].status == CANCELLED)))
    ensures Inv(w.(deliveries := rows))
  {
  }

  /* ---------- steps ---------- */

  lemma QueueKeeps(w: World, campaign: nat, bindings: seq<nat>)
    requires Inv(w)
    ensures Inv(Next(w, Queue(campaign, bindings)))
  {
  }

  lemma ClaimKeeps(w: World, e: Event)
    requires Inv(w) && (e.Claim? || e.Sweep?)
    ensures Inv(Next(w, e))
  {
    var w' := Next(w, e);
    if w' != w {
      var d := w.deliveries[e.id];
      assert RowSound(w.campaigns, d);
      if e.Claim? {
        assert forall k | k in w.workers :: WorkerSound(w, w.workers[k]);
        var v := w.(deliveries := w.deliveries[e.id := d.(status := RUNNING, updatedAt := e.now)]);
        RowKeeps(w, e.id, d.(status := RUNNING, updatedAt := e.now));
        TakeKeeps(v, e.worker, Claimed(e.id, e.now));
      } else {
        if StaleRow(w, e.id, e.now) {
          SweepRowKeeps(w, e.id);
        }
        MoveKeeps(w.(deliveries := w'.deliveries), e.worker, Swept(d.campaign));
      }
    }
  }

  /** Sweeping may hit a row whose owner is alive but slow. */
  lemma SweepRowKeeps(w: World, id: nat)
    requires Inv(w) && id < |w.deliveries| && w.deliveries[id].status == RUNNING
    ensures Inv(w.(deliveries := w.deliveries[id := w.deliveries[id].(status := UNKNOWN, updatedAt := w.clock)]))
  {
  }

  /** The owner accounts for a send: its row's count and its own phase move together. */
  lemma AccountKeeps(w: World, k: nat, possible: nat, p: Phase)
    requires Inv(w) && k in w.workers && Owned(w.workers[k]).Some? && Owned(p) == Owned(w.workers[k]) && possible <= 1
    requires p.id < |w.deliveries|
    requires var rows := w.deliveries[p.id := w.deliveries[p.id].(possible := possible)];
             WorkerSound(w.(deliveries := rows), p)
    ensures Inv(At(w.(deliveries := w.deliveries[p.id := w.deliveries[p.id].(possible := possible)]), k, p))
  {
  }

  lemma SendKeeps(w: World, e: Event)
    requires Inv(w) && (e.Start? || e.Answer?)
    ensures Inv(Next(w, e))
  {
    var w' := Next(w, e);
    if w' != w {
      var p := w.workers[e.worker];
      assert WorkerSound(w, p);
      var p' := w'.workers[e.worker];
      var possible := w'.deliveries[p.id].possible;
      AccountKeeps(w, e.worker, possible, p');
      assert w'.deliveries == w.deliveries[p.id := w.deliveries[p.id].(possible := possible)];
    }
  }

  lemma PhaseKeeps(w: World, e: Event)
    requires Inv(w) && (e.Skip? || e.CountPending? || e.CountFailed?)
    ensures Inv(Next(w, e))
  {
    var w' := Next(w, e);
    if w' != w {
      assert WorkerSound(w, w.workers[e.worker]);
      MoveKeeps(w, e.worker, w'.workers[e.worker]);
    }
  }

  lemma RecordKeeps(w: World, worker: nat)
    requires Inv(w) && worker in w.workers && w.workers[worker].Decided?
    requires w.workers[worker].id < |w.deliveries|
    ensures Inv(Recorded(w, worker))
  {
    var p := w.workers[worker];
    var w' := Recorded(w, worker);
    var d := w.deliveries[p.id];
    assert WorkerSound(w, p) && RowSound(w.campaigns, d);
    IdleKeeps(w, worker);
    IdleFrees(w, worker, p.id);
    var v := Idle(w, worker);
    var rows := if p.retryAt.Some? then Postpone(w.deliveries, d.campaign, p.retryAt.value) else w.deliveries;
    QueuedRowsKeep(v, rows);
    var u := v.(deliveries := rows);
    RowKeeps(u, p.id, w'.deliveries[p.id]);
    if p.verdict.Some? {
      CloseKeeps(u.(deliveries := rows[p.id := w'.deliveries[p.id]]), d.campaign, p.verdict.value);
    }
  }

  lemma NextKeeps(w: World, e: Event)
    requires Inv(w)
    ensures Inv(Next(w, e))
  {
    var w' := Next(w, e);
    match e
    case Tick(_) => assert forall k | k in w.workers :: WorkerSound(w, w.workers[k]);
    case Draft(campaign) => if w' != w { CampaignKeeps(w, campaign, DRAFT); }
    case Queue(campaign, bindings) => QueueKeeps(w, campaign, bindings);
    case Cancel(campaign) =>
      if w' != w {
        QueuedRowsKeep(w, CancelQueued(w.deliveries, campaign));
        CampaignKeeps(w.(deliveries := CancelQueued(w.deliveries, campaign)), campaign, WITHDRAWN);
      }
    case Claim(_, _, _) => ClaimKeeps(w, e);
    case Sweep(_, _, _) => ClaimKeeps(w, e);
    case Start(_) => SendKeeps(w, e);
    case Answer(_, _) => SendKeeps(w, e);
    case Record(worker) => if w' != w { RecordKeeps(w, worker); }
    case Finalise(worker, campaign) => if w' != w { MoveKeeps(w, worker, Finalising(campaign)); }
    case Review(worker) => if w' != w { ReviewKeeps(w, worker); }
    case Apply(worker) => if w' != w { ApplyKeeps(w, worker); }
    case Crash(worker) => IdleKeeps(w, worker);
    case _ => PhaseKeeps(w, e);
  }

  lemma ReviewKeeps(w: World, worker: nat)
    requires Inv(w) && worker in w.workers && (w.workers[worker].Finalising? || w.workers[worker].Swept?)
    ensures Inv(Next(w, Review(worker)))
  {
  }

  lemma ApplyKeeps(w: World, worker: nat)
    requires Inv(w) && worker in w.workers && w.workers[worker].Finalised?
    ensures Inv(Next(w, Apply(worker)))
  {
  }

  lemma RunOne(w: World, e: Event)
    ensures Run(w, [e]) == Next(w, e)
  {
    assert [e][..0] == [];
  }

  lemma RunTwo(w: World, e: Event, f: Event)
    ensures Run(w, [e, f]) == Next(Next(w, e), f)
  {
    RunOne(w, e);
    assert [e, f][..1] == [e];
  }

  lemma {:induction false} RunKeeps(events: seq<Event>)
    ensures Inv(Run(EMPTY, events))
    decreases |events|
  {
    if events != [] {
      RunKeeps(events[..|events| - 1]);
      NextKeeps(Run(EMPTY, events[..|events| - 1]), events[|events| - 1]);
    }
  }

  /** However workers interleave, crash, are rate limited or swept: a delivery has at most one live
      owner, and a recipient of a campaign gets at most one send that Telegram could have accepted. */
  lemma AtMostOneSend(events: seq<Event>)
    ensures var w := Run(EMPTY, events);
            && (forall i | 0 <= i < |w.deliveries| :: w.deliveries[i].possible <= 1)
            && (forall i, j | 0 <= i < j < |w.deliveries| ::
                  !(w.deliveries[i].campaign == w.deliveries[j].campaign
                    && w.deliveries[i].binding == w.deliveries[j].binding))
            && (forall j, k | j in w.workers && k in w.workers && Owned(w.workers[j]).Some?
                && Owned(w.workers[j]) == Owned(w.workers[k]) :: j == k)
  {
    RunKeeps(events);
    var w := Run(EMPTY, events);
    assert forall i | 0 <= i < |w.deliveries| :: RowSound(w.campaigns, w.deliveries[i]);
  }

  /** An ambiguous send is never replayed: no send starts for a delivery that may have been sent. */
  lemma NeverReplayed(events: seq<Event>, worker: nat, id: nat)
    requires var w := Run(EMPTY, events);
             && id < |w.deliveries| && w.deliveries[id].possible == 1
             && !(worker in w.workers && w.workers[worker].Sending? && w.workers[worker].id == id)
    ensures var w' := Next(Run(EMPTY, events), Start(worker));
            && id < |w'.deliveries| && w'.deliveries[id].possible == 1
            && !(worker in w'.workers && w'.workers[worker].Sending? && w'.workers[worker].id == id)
  {
    RunKeeps(events);
    var w := Run(EMPTY, events);
    assert worker in w.workers ==> WorkerSound(w, w.workers[worker]);
  }
}
