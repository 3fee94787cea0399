/** Why sends have to be prompt: a worker that outlives the stale sweep and is then rate limited
    queues its delivery again while another worker is between its two counts. */
module AnnouncementExample {
  import opened Common
  import opened Announcements

  const OPENED := map[0 := OPEN]

  /** The two deliveries; the slow worker 0 owns the first, worker 2 the second. */
  function Slow(status: Status, next: int, updated: int,
                possible: nat): Delivery { Delivery(0, 10, status, next, updated, possible) }
  function Quick(status: Status, updated: int,
                 possible: nat): Delivery { Delivery(0, 11, status, 0, updated, possible) }

  function Before(first: Delivery, second: Delivery, clock: int, workers: map<nat, Phase>): World {
    World(clock, OPENED, [first, second], workers)
  }

  const STEPS: seq<Event> :=
    [Draft(0), Queue(0, [10, 11]), Claim(0, 0, 0), Start(0), Tick(301), Sweep(1, 0, 301), Review(1), Claim(2, 1, 301),
     Start(2), Answer(2, Accepted), CountPending(2), Answer(0, RateLimited(1)), CountPending(0), Record(0),
     CountFailed(2), Record(2)]

  const SWEPT := Slow(UNKNOWN, 0, 301, 1)

  const WORLDS: seq<World> :=
    [EMPTY,
     World(0, map[0 := DRAFT], [], map[]),
     Before(Slow(QUEUED, 0, 0, 0), Quick(QUEUED, 0, 0), 0, map[]),
     Before(Slow(RUNNING, 0, 0, 0), Quick(QUEUED, 0, 0), 0, map[0 := Claimed(0, 0)]),
     Before(Slow(RUNNING, 0, 0, 1), Quick(QUEUED, 0, 0), 0, map[0 := Sending(0, 0)]),
     Before(Slow(RUNNING, 0, 0, 1), Quick(QUEUED, 0, 0), 301, map[0 := Sending(0, 0)]),
     Before(SWEPT, Quick(QUEUED, 0, 0), 301, map[0 := Sending(0, 0), 1 := Swept(0)]),
     Before(SWEPT, Quick(QUEUED, 0, 0), 301, map[0 := Sending(0, 0)]),
     Before(SWEPT, Quick(RUNNING, 301, 0), 301, map[0 := Sending(0, 0), 2 := Claimed(1, 301)]),
     Before(SWEPT, Quick(RUNNING, 301, 1), 301, map[0 := Sending(0, 0), 2 := Sending(1, 301)]),
     Before(SWEPT, Quick(RUNNING, 301, 1), 301, map[0 := Sending(0, 0), 2 := Told(1, SENT, None)]),
     Before(SWEPT, Quick(RUNNING, 301, 1), 301, map[0 := Sending(0, 0), 2 := Quiet(1, SENT, None)]),
     Before(Slow(UNKNOWN, 0, 301, 0), Quick(RUNNING, 301, 1), 301,
            map[0 := Told(0, QUEUED, Some(1)), 2 := Quiet(1, SENT, None)]),
     Before(Slow(UNKNOWN, 0, 301, 0), Quick(RUNNING, 301, 1), 301,
            map[0 := Decided(0, QUEUED, Some(1), None), 2 := Quiet(1, SENT, None)]),
     Before(Slow(QUEUED, 1, 301, 0), Quick(RUNNING, 301, 1), 301, map[2 := Quiet(1, SENT, None)]),
     Before(Slow(QUEUED, 1, 301, 0), Quick(RUNNING, 301, 1), 301, map[2 := Decided(1, SENT, None, Some(COMPLETED))]),
     World(301, map[0 := COMPLETED], [Slow(QUEUED, 1, 301, 0), Quick(SENT, 301, 1)], map[])]

  /** A campaign of two, */
  lemma CampaignOpens()
    ensures Next(WORLDS[0], STEPS[0]) == WORLDS[1]
    ensures Next(WORLDS[1], STEPS[1]) == WORLDS[2]
  {
  }

  /** a slow send starts, */
  lemma SlowSendStarts()
    ensures Next(WORLDS[2], STEPS[2]) == WORLDS[3]
    ensures Next(WORLDS[3], STEPS[3]) == WORLDS[4]
    ensures Next(WORLDS[4], STEPS[4]) == WORLDS[5]
  {
  }

  /** is swept as stale, */
  lemma SlowSendIsSwept()
    ensures Next(WORLDS[5], STEPS[5]) == WORLDS[6]
  {
  }

  /** which leaves the other one pending, */
  lemma OtherStillPending()
    ensures Next(WORLDS[6], STEPS[6]) == WORLDS[7]
    ensures Next(WORLDS[7], STEPS[7]) == WORLDS[8]
  {
    assert Unsettled(WORLDS[6].deliveries[1].status);
    assert Next(WORLDS[6], STEPS[6]).deliveries == WORLDS[7].deliveries;
    assert Next(WORLDS[6], STEPS[6]).workers == WORLDS[7].workers;
    assert Next(WORLDS[7], STEPS[7]).deliveries == WORLDS[8].deliveries;
    assert Next(WORLDS[7], STEPS[7]).workers == WORLDS[8].workers;
  }

  /** that one is sent and counts nothing pending, */
  lemma QuickSendEnds()
    ensures Next(WORLDS[8], STEPS[8]) == WORLDS[9]
    ensures Next(WORLDS[9], STEPS[9]) == WORLDS[10]
    ensures Next(WORLDS[10], STEPS[10]) == WORLDS[11]
  {
    assert Next(WORLDS[8], STEPS[8]).deliveries == WORLDS[9].deliveries;
    assert Next(WORLDS[8], STEPS[8]).workers == WORLDS[9].workers;
    assert Next(WORLDS[9], STEPS[9]).deliveries == WORLDS[10].deliveries;
    assert Next(WORLDS[9], STEPS[9]).workers == WORLDS[10].workers;
    assert Next(WORLDS[10], STEPS[10]).deliveries == WORLDS[11].deliveries;
    assert Next(WORLDS[10], STEPS[10]).workers == WORLDS[11].workers;
  }

  /** the slow one is rate limited */
  lemma SlowSendIsRefused()
    ensures Next(WORLDS[11], STEPS[11]) == WORLDS[12]
    ensures Next(WORLDS[12], STEPS[12]) == WORLDS[13]
  {
    assert Next(WORLDS[11], STEPS[11]).deliveries == WORLDS[12].deliveries;
    assert Next(WORLDS[11], STEPS[11]).workers == WORLDS[12].workers;
    assert Next(WORLDS[12], STEPS[12]).deliveries == WORLDS[13].deliveries;
    assert Next(WORLDS[12], STEPS[12]).workers == WORLDS[13].workers;
  }

  /** and queued again, */
  lemma SlowSendIsQueuedAgain()
    ensures Next(WORLDS[13], STEPS[13]) == WORLDS[14]
  {
  }

  /** and the quick worker counts no failure. */
  lemma CampaignCompletes()
    ensures Next(WORLDS[14], STEPS[14]) == WORLDS[15]
    ensures Next(WORLDS[15], STEPS[15]) == WORLDS[16]
  {
    assert Next(WORLDS[14], STEPS[14]).deliveries == WORLDS[15].deliveries;
    assert Next(WORLDS[14], STEPS[14]).workers == WORLDS[15].workers;
    assert Next(WORLDS[15], STEPS[15]).deliveries == WORLDS[16].deliveries;
    assert Next(WORLDS[15], STEPS[15]).workers == WORLDS[16].workers;
  }

  lemma {:induction false} RunOf(next: seq<Event>, worlds: seq<World>)
    requires |worlds| == |next| + 1 && worlds[0] == EMPTY
    requires forall i | 0 <= i < |next| :: Next(worlds[i], next[i]) == worlds[i + 1]
    ensures Run(EMPTY, next) == worlds[|next|]
    decreases |next|
  {
    if next != [] {
      RunOf(next[..|next| - 1], worlds[..|next|]);
    }
  }

  /** Without promptness a COMPLETED campaign can hold a delivery that is still to be sent. */
  lemma CompletedWithQueuedDelivery() returns (events: seq<Event>)
    ensures var w := Run(EMPTY, events);
            0 in w.campaigns && w.campaigns[0] == COMPLETED && |w.deliveries| == 2 && w.deliveries[0].campaign == 0
            && w.deliveries[0].status == QUEUED && w.workers == map[]
  {
    CampaignOpens();
    SlowSendStarts();
    SlowSendIsSwept();
    OtherStillPending();
    QuickSendEnds();
    SlowSendIsRefused();
    SlowSendIsQueuedAgain();
    CampaignCompletes();
    events := STEPS;
    RunOf(events, WORLDS);
  }
}
