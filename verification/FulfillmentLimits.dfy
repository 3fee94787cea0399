/** Where fulfillment stops being safe: exactly which executions and reconciliations break the
    link between FAILED and refunded, and for which retry limits a refunded order is dispatched again. */
module FulfillmentLimits {
  import opened Common
  import opened Fulfillment
  import opened FulfillmentRuns

  /** The execution reaches the FULFILLED commit. */
  ghost predicate Delivers(w: World, k: nat, s: Script) {
    && !(k in w.attempts && w.attempts[k].status == Succeeded) && w.items > 0 && w.status != FAILED
    && Scan(s.results, w.items).Accepted? && AllDone(Scan(s.results, w.items).responses)
  }

  lemma LateFaultMattersOnlyThen(w: World, k: nat, s: Script)
    requires !Delivers(w, k, s) && (w.status == PAID || w.status == PROCESSING || w.status == FAILED)
    ensures Serve(w, k, s) == Serve(w, k, s.(lateFault := false))
  {
  }

  lemma LateFaultThen(w: World, k: nat, s: Script)
    requires Delivers(w, k, s) && s.lateFault && s.refundOk && w.total > 0 && w.refunds == []
             && (w.status == PAID || w.status == PROCESSING)
    ensures Serve(w, k, s).world.status == FULFILLED && Serve(w, k, s).world.refunds == [w.total]
    ensures Serve(w, k, s).world.total == w.total
  {
  }

  /** An execution that can refund leaves the money right exactly when nothing raises after its FULFILLED
      commit; if something does, the order is both FULFILLED and refunded. */
  lemma {:induction false} LateFaultRefundsFulfilled(w: World, k: nat, s: Script)
    requires Inv(w) && !Completing(w.job) && !Dying(w.job) && s.refundOk
    ensures Settled(Serve(w, k, s).world) <==> !(s.lateFault && Delivers(w, k, s))
    ensures s.lateFault && Delivers(w, k, s) ==>
              Serve(w, k, s).world.status == FULFILLED && Serve(w, k, s).world.refunds == [w.total]
  {
    if s.lateFault && Delivers(w, k, s) {
      LateFaultThen(w, k, s);
    } else {
      ServeKeeps(w, k, s.(lateFault := false));
      if s.lateFault {
        LateFaultMattersOnlyThen(w, k, s);
      } else {
        assert s.(lateFault := false) == s;
      }
    }
  }

  /** The query reports an end without success. */
  predicate ReportsFailure(q: Query) {
    && q.Seen? && !q.completed && q.state != DONE
    && (q.failed || Refusing(q.state) || (q.expired && (q.state == UPSTREAM_PROCESSING || q.state == UPSTREAM_PENDING)))
  }

  /** Reconciliation closes the order before it refunds, so it leaves the money right exactly unless the
      refund of an open order fails and the session is committed later all the same. */
  lemma ReconcileUnsettlesExactlyWhen(w: World, n: nat, q: Query)
    requires Inv(w) && n in w.attempts && Active(w.attempts[n].status) && w.attempts[n].provider
    ensures Settled(ReconcileAttempt(w, n, q)) <==>
            !(ReportsFailure(q) && w.status == PROCESSING && !q.refundOk && q.committedLater)
  {
  }

  /** A refund that fails inside an execution is harmless: the order is not closed and nothing is paid. */
  lemma FailedRefundIsHarmless(w: World, k: nat, s: Script)
    requires !s.refundOk
    ensures Serve(w, k, s).world.refunds == w.refunds
    ensures w.status != FAILED ==> Serve(w, k, s).world.status != FAILED
  {
  }

  /* ---------- over every run ---------- */

  /** The four statuses that fulfillment moves between. */
  predicate Known(w: World) {
    w.total > 0 && (w.status == PAID || w.status == PROCESSING || w.status == FULFILLED || w.status == FAILED)
  }

  /** A failure that is not retried. */
  predicate Permanent(fault: Fault, k: nat) { !((fault.retryable || fault.causeRetryable) && k < 3) }

  /** The execution refunds an order that is FULFILLED: it was so before and its dispatch fails for good, or it becomes
      so and something raises after the commit. */
  ghost predicate RefundsFulfilled(w: World, k: nat, s: Script) {
    && s.refundOk && !(k in w.attempts && w.attempts[k].status == Succeeded) && w.items > 0
    && match Scan(s.results, w.items)
       case Halted(fault, _) => w.status == FULFILLED && Permanent(fault, k)
       case Accepted(responses) => w.status != FAILED && AllDone(responses) && s.lateFault
  }

  /** The reconciliation closes an open order whose refund fails, and the session is committed all the same. */
  ghost predicate ClosesUnrefunded(w: World, n: nat, q: Query) {
    && n in w.attempts && Active(w.attempts[n].status) && w.attempts[n].provider
    && ReportsFailure(q) && w.status != FAILED && w.status != FULFILLED && !q.refundOk && q.committedLater
  }

  /** The two kinds of steps that part the status from the refund. */
  ghost predicate Unsettles(w: World, e: Event) {
    || (e.Execute? && Ready(w.job) && RefundsFulfilled(w, w.job.task.value.number, e.script))
    || (e.Reconcile? && ClosesUnrefunded(w, e.number, e.query))
  }

  /** The failure flow parts them exactly when it refunds a FULFILLED order. */
  lemma FailUnsettles(w: World, k: nat, fault: Fault, refundOk: bool)
    requires k in w.attempts && Known(w) && Settled(w)
    ensures Known(Fail(w, k, fault, refundOk).world)
    ensures Settled(Fail(w, k, fault, refundOk).world) <==> !(refundOk && w.status == FULFILLED && Permanent(fault, k))
  {
  }

  lemma ConcludeUnsettles(w: World, k: nat, responses: seq<Response>, s: Script)
    requires k in w.attempts && responses != [] && Known(w) && Settled(w) && w.status != PAID
    ensures Known(Conclude(w, k, responses, s).world)
    ensures Settled(Conclude(w, k, responses, s).world) <==>
            !(s.refundOk && w.status != FAILED && AllDone(responses) && s.lateFault)
  {
    var a := Recorded(w.attempts[k], responses);
    if AllDone(responses) {
      if CanMove(w.status, FULFILLED) {
        FailUnsettles(With(w, k, a.(status := Succeeded)).(status := FULFILLED), k, UNEXPECTED, s.refundOk);
      } else {
        FailUnsettles(With(w, k, a), k, UNEXPECTED, s.refundOk);
      }
    }
  }

  lemma ServeUnsettles(w: World, k: nat, s: Script)
    requires Known(w) && Settled(w)
    ensures Known(Serve(w, k, s).world) && (Settled(Serve(w, k, s).world) <==> !RefundsFulfilled(w, k, s))
  {
    if !(k in w.attempts && w.attempts[k].status == Succeeded) && w.items > 0 {
      var w1 := Started(w, k);
      match Scan(s.results, w.items)
      case Halted(fault, None) => FailUnsettles(w1, k, fault, s.refundOk);
      case Halted(fault, Some(r)) =>
        FailUnsettles(With(w1, k, w1.attempts[k].(provider := true, external := r.external)), k, fault, s.refundOk);
      case Accepted(responses) => ConcludeUnsettles(w1, k, responses, s);
    }
  }

  lemma StepUnsettles(w: World, e: Event)
    requires Known(w) && Settled(w)
    ensures Known(Next(w, e)) && (Settled(Next(w, e)) <==> !Unsettles(w, e))
  {
    if e.Execute? && Ready(w.job) {
      ServeUnsettles(w, w.job.task.value.number, e.script);
    }
  }

  lemma RunPrefix(start: World, events: seq<Event>, n: nat)
    requires n < |events|
    ensures Run(start, events[..n + 1]) == Next(Run(start, events[..n]), events[n])
  {
    assert events[..n + 1][..n] == events[..n];
  }

  ghost predicate SettledAt(start: World, events: seq<Event>, n: int) {
    0 <= n <= |events| && Settled(Run(start, events[..n]))
  }

  ghost predicate UnsettledBy(start: World, events: seq<Event>, n: int) {
    0 <= n < |events| && Unsettles(Run(start, events[..n]), events[n])
  }

  /** As long as no step parts them, and as long as they agree, the order is one that fulfillment knows. */
  lemma {:induction false} UpTo(start: World, events: seq<Event>, n: nat)
    requires n <= |events| && Known(start) && Settled(start)
    requires || (forall m | 0 <= m < n :: !UnsettledBy(start, events, m))
             || (forall m | 0 <= m < n :: SettledAt(start, events, m))
    ensures Known(Run(start, events[..n]))
    ensures (forall m | 0 <= m < n :: !UnsettledBy(start, events, m)) ==> SettledAt(start, events, n)
    decreases n
  {
    if n > 0 {
      UpTo(start, events, n - 1);
      RunPrefix(start, events, n - 1);
      assert UnsettledBy(start, events, n - 1) <==> Unsettles(Run(start, events[..n - 1]), events[n - 1]);
      assert SettledAt(start, events, n - 1) <==> Settled(Run(start, events[..n - 1]));
      assert SettledAt(start, events, n - 1);
      StepUnsettles(Run(start, events[..n - 1]), events[n - 1]);
    } else {
      assert events[..0] == [];
    }
  }

  /** Over every run of a paid order, with whatever faults, the order stays FAILED exactly when refunded if and only if
      no execution refunds it while FULFILLED and no reconciliation closes it over a failed refund. */
  lemma {:induction false} StaysSettledExactlyWhen(total: int, items: nat, currency: string, maxRetries: int,
                                                   events: seq<Event>)
    requires total > 0
    ensures var start := Paid(total, items, currency, maxRetries);
            (forall n | 0 <= n <= |events| :: SettledAt(start, events, n)) <==>
            (forall n | 0 <= n < |events| :: !UnsettledBy(start, events, n))
  {
    var start := Paid(total, items, currency, maxRetries);
    if forall n | 0 <= n < |events| :: !UnsettledBy(start, events, n) {
      forall n | 0 <= n <= |events|
        ensures SettledAt(start, events, n)
      {
        UpTo(start, events, n);
      }
    }
    if forall n | 0 <= n <= |events| :: SettledAt(start, events, n) {
      forall n | 0 <= n < |events|
        ensures !UnsettledBy(start, events, n)
      {
        UpTo(start, events, n);
        RunPrefix(start, events, n);
        assert SettledAt(start, events, n) && SettledAt(start, events, n + 1);
        StepUnsettles(Run(start, events[..n]), events[n]);
      }
    }
  }

  const DONE_ITEM := Answered(Response(DONE, 10, "USD", true))
  const PENDING_ITEM := Answered(Response(UPSTREAM_PENDING, 10, "USD", true))
  const BUSY := Threw(Fault(true, false, false, true))

  lemma RunSnoc(w: World, events: seq<Event>, e: Event)
    ensures Run(w, events + [e]) == Next(Run(w, events), e)
  {
  }

  /** A delivered order that was refunded: the message to the customer could not be built. */
  lemma DeliveredAndRefunded() returns (events: seq<Event>)
    ensures var w := Run(Paid(100, 1, "USD", 3), events); w.status == FULFILLED && w.refunds == [100]
  {
    var s := Script([DONE_ITEM], true, true);
    events := [] + [Claim(1)] + [Execute(s)];
    var w := Paid(100, 1, "USD", 3);
    RunSnoc(w, [], Claim(1));
    RunSnoc(w, [] + [Claim(1)], Execute(s));
    assert Scan(s.results, 0) == Accepted([]);
    assert Scan(s.results, 1).Accepted?;
  }

  /** An order whose one item is pending upstream. */
  lemma PendingUpstream() returns (events: seq<Event>)
    ensures var w := Run(Paid(100, 1, "USD", 3), events);
            && w.status == PROCESSING && 1 in w.attempts && w.attempts[1].status == Processing && w.attempts[1].provider
            && w.refunds == [] && w.total == 100
  {
    var s := Script([PENDING_ITEM], true, false);
    events := [] + [Claim(1)] + [Execute(s)];
    var w := Paid(100, 1, "USD", 3);
    RunSnoc(w, [], Claim(1));
    RunSnoc(w, [] + [Claim(1)], Execute(s));
    assert Scan(s.results, 0) == Accepted([]);
    var r := Scan(s.results, 1);
    assert r.Accepted? && r.responses[0].state == UPSTREAM_PENDING;
  }

  /** A closed order without its money: the refund failed during reconciliation. */
  lemma FailedAndNotRefunded() returns (events: seq<Event>)
    ensures var w := Run(Paid(100, 1, "USD", 3), events); w.status == FAILED && w.refunds == []
  {
    var before := PendingUpstream();
    var q := Seen(false, true, UPSTREAM_FAILED, true, false, false, true, true);
    events := before + [Reconcile(1, q)];
    RunSnoc(Paid(100, 1, "USD", 3), before, Reconcile(1, q));
  }

  /* ---------- dispatch after a refund ---------- */

  /** The refund was paid and the job is about to dispatch again. */
  predicate AboutToRedispatch(w: World) {
    w.refunds != [] && Ready(w.job)
  }

  ghost predicate CanRedispatch(maxRetries: int) {
    exists total, items, currency, events | total > 0 && AllSmooth(events) ::
      AboutToRedispatch(Run(Paid(total, items, currency, maxRetries), events))
  }

  /** One round of a job that fails with a transient error. */
  lemma RoundRuns(w: World, k: nat)
    requires w.job == Job(QUEUED, k, None) && w.items == 1 && w.total == 100 && w.refunds == [] && k !in w.attempts
    requires (w.status == PAID || w.status == PROCESSING) && k < w.maxRetries
    ensures var w' := Next(Next(Next(w, Claim(k)), Execute(Script([BUSY], true, false))), File);
            && w'.job == Job(QUEUED, k + 1, None) && w'.items == 1 && w'.total == 100 && w'.maxRetries == w.maxRetries
            && w'.attempts.Keys == w.attempts.Keys + {k}
            && (if k < 3 then w'.refunds == [] && w'.status == PROCESSING
                  else w'.refunds == [100] && w'.status == FAILED)
  {
    var s := Script([BUSY], true, false);
    assert Scan(s.results, 0) == Accepted([]);
    assert Scan(s.results, 1) == Halted(Fault(true, false, false, true), None);
  }

  lemma {:induction false} RoundsRun(k: nat, maxRetries: int) returns (events: seq<Event>)
    requires 1 <= k <= 4 <= maxRetries
    ensures AllSmooth(events)
    ensures var w := Run(Paid(100, 1, "USD", maxRetries), events);
            && w.job == Job(QUEUED, k, None) && w.items == 1 && w.total == 100 && w.maxRetries == maxRetries
            && (forall n | n in w.attempts :: n < k)
            && (if k < 4 then w.refunds == [] && (w.status == PAID || w.status == PROCESSING) else w.refunds == [100])
    decreases k
  {
    events := [];
    if k > 1 {
      var w := Paid(100, 1, "USD", maxRetries);
      events := RoundsRun(k - 1, maxRetries);
      RoundRuns(Run(w, events), k - 1);
      var s := Script([BUSY], true, false);
      RunSnoc(w, events, Claim(k - 1));
      RunSnoc(w, events + [Claim(k - 1)], Execute(s));
      RunSnoc(w, events + [Claim(k - 1)] + [Execute(s)], File);
      events := events + [Claim(k - 1)] + [Execute(s)] + [File];
    }
  }

  /** A refunded order can be dispatched again exactly when the worker retries more often than the
      three attempts after which the service refunds. */
  lemma RedispatchExactlyWhen(maxRetries: int)
    ensures CanRedispatch(maxRetries) <==> maxRetries > 3
  {
    if maxRetries > 3 {
      var events := RoundsRun(4, maxRetries);
      var w := Paid(100, 1, "USD", maxRetries);
      RunSnoc(w, events, Claim(4));
      assert AllSmooth(events + [Claim(4)]);
      assert AboutToRedispatch(Run(w, events + [Claim(4)]));
    } else {
      forall total, items, currency, events | total > 0 && AllSmooth(events)
        ensures !AboutToRedispatch(Run(Paid(total, items, currency, maxRetries), events))
      {
        RefundIsTheEnd(Paid(total, items, currency, maxRetries), events);
      }
    }
  }
}
