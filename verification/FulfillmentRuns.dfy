/** Refund and fulfillment exclude each other over every run of execute, retry, reconcile and requeue. */
module FulfillmentRuns {
  import opened Common
  import opened Fulfillment

  /** Refund calls succeed and nothing raises after the FULFILLED commit. */
  ghost predicate Smooth(e: Event) {
    && (e.Execute? ==> e.script.refundOk && !e.script.lateFault)
    && (e.Reconcile? && e.query.Seen? ==> e.query.refundOk)
  }

  ghost predicate AllSmooth(events: seq<Event>) {
    forall i | 0 <= i < |events| :: Smooth(events[i])
  }

  /** The money: FAILED means refunded in full, once, and only FAILED does. */
  ghost predicate Settled(w: World) {
    w.refunds == if w.status == FAILED then [w.total] else []
  }

  predicate HasProvider(attempts: map<nat, Attempt>) {
    exists n | n in attempts :: attempts[n].provider
  }

  /** The job is done, or about to be filed as done: nothing will be dispatched any more. */
  predicate Completing(job: Job) {
    job.status == COMPLETED || (job.status == RUNNING && job.task.Some? && job.task.value.ending == Some(Returned))
  }

  /** The job is dead, or about to be. */
  predicate Dying(job: Job) {
    job.status == DEAD_LETTER
    || (job.status == RUNNING && job.task.Some? && job.task.value.ending == Some(Raised(false)))
  }

  ghost predicate Inv(w: World) {
    && w.total > 0 && Settled(w)
    && (w.status == PAID || w.status == PROCESSING || w.status == FULFILLED || w.status == FAILED)
    && (w.status == PAID ==> w.attempts == map[])
    && (w.status == FULFILLED ==> Completing(w.job))
    && (HasProvider(w.attempts) ==> Completing(w.job) || (w.status == FAILED && Dying(w.job)))
  }

  /** An execution that is about to start finds nothing dispatched and nothing fulfilled. */
  predicate Ready(job: Job) {
    job.status == RUNNING && job.task.Some? && job.task.value.ending.None?
  }

  /** The failure flow from an order that is not FULFILLED. */
  lemma FailSettles(w: World, k: nat, fault: Fault)
    requires k in w.attempts && w.total > 0 && Settled(w) && (w.status == PROCESSING || w.status == FAILED)
    ensures var w' := Fail(w, k, fault, true).world;
            && Settled(w') && (w'.status == PROCESSING || w'.status == FAILED) && w'.total == w.total
            && w'.attempts.Keys == w.attempts.Keys
            && (forall n | n in w.attempts :: w'.attempts[n].provider == w.attempts[n].provider)
    ensures !(fault.retryable || fault.causeRetryable) ==> Fail(w, k, fault, true).world.status == FAILED
    ensures Fail(w, k, fault, true).ending == Raised(fault.retryable && fault.provider)
  {
  }

  lemma ServeKeeps(w: World, k: nat, s: Script)
    requires Inv(w) && !Completing(w.job) && !Dying(w.job) && s.refundOk && !s.lateFault
    ensures var r := Serve(w, k, s);
            && Settled(r.world) && r.world.total == w.total
            && (r.world.status == PROCESSING || r.world.status == FAILED
                || (r.world.status == FULFILLED && r.ending == Returned))
            && (HasProvider(r.world.attempts) ==>
                  r.ending == Returned || (r.world.status == FAILED && r.ending == Raised(false)))
  {
    assert !HasProvider(w.attempts);
    var w1 := Started(w, k);
    assert forall n | n in w1.attempts :: !w1.attempts[n].provider;
    if !(k in w.attempts && w.attempts[k].status == Succeeded) && w.items > 0 {
      match Scan(s.results, w.items)
      case Halted(fault, None) =>
        FailSettles(w1, k, fault);
      case Halted(fault, Some(r)) =>
        FailSettles(With(w1, k, w1.attempts[k].(provider := true, external := r.external)), k, fault);
      case Accepted(responses) =>
        ConcludeKeeps(w1, k, responses, s);
    }
  }

  lemma ConcludeKeeps(w: World, k: nat, responses: seq<Response>, s: Script)
    requires k in w.attempts && responses != [] && w.total > 0 && Settled(w)
             && (w.status == PROCESSING || w.status == FAILED)
    requires s.refundOk && !s.lateFault
    ensures var r := Conclude(w, k, responses, s);
            && Settled(r.world) && r.world.total == w.total
            && (r.world.status == PROCESSING || r.world.status == FAILED
                || (r.world.status == FULFILLED && r.ending == Returned))
            && (r.ending == Returned || (r.world.status == FAILED && r.ending == Raised(false)))
  {
  }

  lemma ReconcileKeeps(w: World, n: nat, q: Query)
    requires Inv(w) && (q.Seen? ==> q.refundOk)
    ensures Inv(ReconcileAttempt(w, n, q))
  {
  }

  lemma NextKeeps(w: World, e: Event)
    requires Inv(w) && Smooth(e)
    ensures Inv(Next(w, e))
  {
    match e
    case Execute(script) =>
      if Ready(w.job) {
        var r := Serve(w, w.job.task.value.number, script);
        ServeKeeps(w, w.job.task.value.number, script);
        assert Next(w, e).attempts == r.world.attempts;
      }
    case Reconcile(number, query) => ReconcileKeeps(w, number, query);
    case _ =>
  }

  lemma {:induction false} RunKeeps(w: World, events: seq<Event>)
    requires Inv(w) && AllSmooth(events)
    ensures Inv(Run(w, events))
    decreases |events|
  {
    if events != [] {
      var n := |events| - 1;
      assert forall i | 0 <= i < n :: events[..n][i] == events[i];
      RunKeeps(w, events[..n]);
      NextKeeps(Run(w, events[..n]), events[n]);
    }
  }

  /** From payment on, an order is FAILED exactly when it has one refund, of its total, and otherwise
      has none; in particular a FULFILLED order has none. */
  lemma FailedExactlyWhenRefunded(total: int, items: nat, currency: string, maxRetries: int, events: seq<Event>)
    requires total > 0 && AllSmooth(events)
    ensures var w := Run(Paid(total, items, currency, maxRetries), events);
            && (w.status == FAILED <==> w.refunds == [total])
            && (w.status != FAILED <==> w.refunds == [])
  {
    RunKeeps(Paid(total, items, currency, maxRetries), events);
    RunKeepsTotal(Paid(total, items, currency, maxRetries), events);
  }

  lemma ServeKeepsTotal(w: World, k: nat, s: Script)
    ensures Serve(w, k, s).world.total == w.total && Serve(w, k, s).world.maxRetries == w.maxRetries
  {
  }

  lemma NextKeepsTotal(w: World, e: Event)
    ensures Next(w, e).total == w.total && Next(w, e).maxRetries == w.maxRetries
  {
    if e.Execute? && Ready(w.job) {
      ServeKeepsTotal(w, w.job.task.value.number, e.script);
    }
  }

  lemma {:induction false} RunKeepsTotal(w: World, events: seq<Event>)
    ensures Run(w, events).total == w.total && Run(w, events).maxRetries == w.maxRetries
    decreases |events|
  {
    if events != [] {
      RunKeepsTotal(w, events[..|events| - 1]);
      NextKeepsTotal(Run(w, events[..|events| - 1]), events[|events| - 1]);
    }
  }

  /* ---------- every step obeys the status machine ---------- */

  /** Each status is reached from the one before by the table. */
  ghost predicate Path(statuses: seq<OrderStatus>) {
    |statuses| > 0 && forall i | 0 <= i < |statuses| - 1 :: CanMove(statuses[i], statuses[i + 1])
  }

  lemma FailFollows(w: World, k: nat, fault: Fault, refundOk: bool)
    requires k in w.attempts
    ensures CanMove(w.status, Fail(w, k, fault, refundOk).world.status)
  {
  }

  lemma ConcludeFollows(w: World, k: nat, responses: seq<Response>, s: Script)
    requires k in w.attempts && responses != []
    ensures CanMove(w.status, Conclude(w, k, responses, s).world.status)
  {
    var w1 := With(w, k, Recorded(w.attempts[k], responses).(status := Succeeded)).(status := FULFILLED);
    FailFollows(w1, k, UNEXPECTED, s.refundOk);
    FailFollows(With(w, k, Recorded(w.attempts[k], responses)), k, UNEXPECTED, s.refundOk);
  }

  lemma ServeFollows(w: World, k: nat, s: Script)
    ensures CanMove(Started(w, k).status, Serve(w, k, s).world.status) || Serve(w, k, s).world.status == w.status
  {
    if !(k in w.attempts && w.attempts[k].status == Succeeded) && w.items > 0 {
      var w1 := Started(w, k);
      match Scan(s.results, w.items)
      case Halted(fault, None) => FailFollows(w1, k, fault, s.refundOk);
      case Halted(fault, Some(r)) =>
        FailFollows(With(w1, k, w1.attempts[k].(provider := true, external := r.external)), k, fault, s.refundOk);
      case Accepted(responses) => ConcludeFollows(w1, k, responses, s);
    }
  }

  /** A step makes at most two moves: an execution may both start and end the processing of an order. */
  lemma StepFollowsTheTable(w: World, e: Event) returns (mid: OrderStatus)
    ensures CanMove(w.status, mid) && CanMove(mid, Next(w, e).status)
  {
    mid := w.status;
    if e.Execute? && Ready(w.job) {
      ServeFollows(w, w.job.task.value.number, e.script);
      if Next(w, e).status != w.status {
        mid := Started(w, w.job.task.value.number).status;
      }
    }
  }

  lemma PathExtends(path: seq<OrderStatus>, mid: OrderStatus, end: OrderStatus)
    requires Path(path) && CanMove(path[|path| - 1], mid) && CanMove(mid, end)
    ensures Path(path + [mid, end])
  {
    var longer := path + [mid, end];
    forall i | 0 <= i < |longer| - 1
      ensures CanMove(longer[i], longer[i + 1])
    {
      assert i < |path| - 1 ==> longer[i] == path[i] && longer[i + 1] == path[i + 1];
    }
  }

  /** Whatever is executed, reconciled and requeued, smooth or not, an order's statuses are a path in the table. */
  lemma {:induction false} RunFollowsTheTable(w: World, events: seq<Event>) returns (path: seq<OrderStatus>)
    ensures Path(path) && path[0] == w.status && path[|path| - 1] == Run(w, events).status
    decreases |events|
  {
    path := [w.status];
    if events != [] {
      var n := |events| - 1;
      path := RunFollowsTheTable(w, events[..n]);
      var mid := StepFollowsTheTable(Run(w, events[..n]), events[n]);
      PathExtends(path, mid, Run(w, events).status);
      path := path + [mid, Run(w, events).status];
    }
  }

  lemma FailKeepsTerminal(w: World, k: nat, fault: Fault, refundOk: bool)
    requires k in w.attempts && (w.status == FAILED || w.status == CANCELLED || w.status == REFUNDED
                                 || w.status == FULFILLED)
    ensures Fail(w, k, fault, refundOk).world.status == w.status
  {
  }

  lemma ConcludeKeepsTerminal(w: World, k: nat, responses: seq<Response>, s: Script)
    requires k in w.attempts && responses != []
    requires w.status == FAILED || w.status == CANCELLED || w.status == REFUNDED || w.status == FULFILLED
    ensures Conclude(w, k, responses, s).world.status == w.status
  {
  }

  lemma ServeKeepsTerminal(w: World, k: nat, s: Script)
    requires w.status == FAILED || w.status == CANCELLED || w.status == REFUNDED || w.status == FULFILLED
    ensures Serve(w, k, s).world.status == w.status
  {
    if !(k in w.attempts && w.attempts[k].status == Succeeded) && w.items > 0 {
      var w1 := Started(w, k);
      match Scan(s.results, w.items)
      case Halted(fault, None) => FailKeepsTerminal(w1, k, fault, s.refundOk);
      case Halted(fault, Some(r)) =>
        FailKeepsTerminal(With(w1, k, w1.attempts[k].(provider := true, external := r.external)), k, fault, s.refundOk);
      case Accepted(responses) => ConcludeKeepsTerminal(w1, k, responses, s);
    }
  }

  lemma NextKeepsTerminal(w: World, e: Event)
    requires w.status == FAILED || w.status == CANCELLED || w.status == REFUNDED || w.status == FULFILLED
    ensures Next(w, e).status == w.status
  {
    if e.Execute? && Ready(w.job) {
      ServeKeepsTerminal(w, w.job.task.value.number, e.script);
    }
  }

  /** FAILED, CANCELLED and REFUNDED are never left, and FULFILLED never falls back to FAILED. */
  lemma {:induction false} TerminalStays(w: World, events: seq<Event>)
    requires w.status == FAILED || w.status == CANCELLED || w.status == REFUNDED || w.status == FULFILLED
    ensures Run(w, events).status == w.status
    decreases |events|
  {
    if events != [] {
      TerminalStays(w, events[..|events| - 1]);
      NextKeepsTerminal(Run(w, events[..|events| - 1]), events[|events| - 1]);
    }
  }

  /* ---------- dispatch after a refund ---------- */

  /** Nothing will run for this job again without an operator. */
  predicate Over(w: World) {
    || w.job.status == COMPLETED || w.job.status == DEAD_LETTER
    || (w.job.status == RUNNING && w.job.task.Some? && w.job.task.value.ending.Some?
        && Filed(w, w.job.task.value).status != QUEUED)
  }

  lemma ServeRefundEnds(w: World, k: nat, s: Script)
    requires w.refunds == [] && w.maxRetries <= 3 && !s.lateFault
    ensures var r := Serve(w, k, s);
            r.world.refunds != [] ==> r.ending.Raised? && !(r.ending.retryable && k < w.maxRetries)
  {
  }

  lemma {:induction false} RefundIsTheEnd(w: World, events: seq<Event>)
    requires Inv(w) && AllSmooth(events) && w.maxRetries <= 3 && (w.refunds != [] ==> Over(w))
    ensures Run(w, events).refunds != [] ==> Over(Run(w, events))
    decreases |events|
  {
    if events != [] {
      var n := |events| - 1;
      assert forall i | 0 <= i < n :: events[..n][i] == events[i];
      RefundIsTheEnd(w, events[..n]);
      RunKeeps(w, events[..n]);
      RunKeepsTotal(w, events[..n]);
      RefundEndsStep(Run(w, events[..n]), events[n]);
    }
  }

  lemma RefundEndsStep(w: World, e: Event)
    requires Inv(w) && Smooth(e) && w.maxRetries <= 3 && (w.refunds != [] ==> Over(w))
    ensures Next(w, e).refunds != [] ==> Over(Next(w, e))
  {
    match e
    case Execute(script) =>
      if Ready(w.job) {
        ServeRefundEnds(w, w.job.task.value.number, script);
      }
    case Reconcile(n, q) =>
      if Next(w, e) != w {
        assert w.attempts[n].provider;
        assert HasProvider(w.attempts);
      }
    case _ =>
  }
}
