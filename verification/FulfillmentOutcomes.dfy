/** How each operation on an order ends, on its own inputs, and what an operator can never replay. */
module FulfillmentOutcomes {
  import opened Common
  import opened Fulfillment

  /* ---------- requeue ---------- */

  /** Retrying this attempt may buy a second time, or is known to be pointless: it has an upstream order, or it is
      anything but Retrying or Failed in a way that may be tried again. */
  predicate Blocked(a: Attempt) {
    a.external || a.status in {Unknown, Processing, Succeeded} || (a.status == Failed && !a.retryable)
  }

  /** A dead-letter job of an unrefunded PAID or PROCESSING order whose latest attempt, if any, is not blocked. */
  ghost predicate Replayable(w: World) {
    && w.job.status == DEAD_LETTER && w.status in {PAID, PROCESSING} && w.refunds == []
    && forall n | n in w.attempts && (forall m | m in w.attempts :: m <= n) :: !Blocked(w.attempts[n])
  }

  lemma ReplayableByLatest(w: World, latest: nat)
    requires latest in w.attempts && forall m | m in w.attempts :: m <= latest
    ensures Replayable(w) <==>
            && w.job.status == DEAD_LETTER && w.status in {PAID, PROCESSING} && w.refunds == []
            && !Blocked(w.attempts[latest])
  {
    assert forall n | n in w.attempts && (forall m | m in w.attempts :: m <= n) :: n == latest;
  }

  /** A requeue goes through exactly then, and the job gets a number above every attempt; otherwise nothing changes. */
  lemma RequeuedExactlyWhen(w: World, latest: nat)
    requires w.attempts != map[] ==> latest in w.attempts && forall m | m in w.attempts :: m <= latest
    ensures var w' := Next(w, Requeue(latest));
            && (w'.job.status == QUEUED && w.job.status == DEAD_LETTER <==> Replayable(w))
            && (Replayable(w) ==>
                  && w' == w.(job := w'.job) && w'.job.task == None
                  && w'.job.attempt == 1 + if w.attempts != map[] && latest > w.job.attempt then latest
                                           else w.job.attempt)
            && (!Replayable(w) ==> w' == w)
  {
    if w.attempts != map[] {
      ReplayableByLatest(w, latest);
    }
  }

  /** The latest attempt is blocked and only an operator could start another. */
  ghost predicate Stranded(w: World, latest: nat) {
    && w.job.status == DEAD_LETTER && latest in w.attempts && (forall m | m in w.attempts :: m <= latest)
    && Blocked(w.attempts[latest])
  }

  /** Reconciling never unblocks an attempt and never adds one. */
  lemma ReconcileKeepsBlocked(w: World, n: nat, q: Query, latest: nat)
    requires latest in w.attempts && Blocked(w.attempts[latest])
    ensures var w' := ReconcileAttempt(w, n, q);
            w'.attempts.Keys == w.attempts.Keys && Blocked(w'.attempts[latest]) && w'.job == w.job
  {
  }

  lemma StrandedStep(w: World, e: Event, latest: nat)
    requires Stranded(w, latest)
    ensures Stranded(Next(w, e), latest) && Next(w, e).attempts.Keys == w.attempts.Keys
  {
    match e
    case Reconcile(n, q) => ReconcileKeepsBlocked(w, n, q, latest);
    case Requeue(n) =>
      if Latest(w.attempts, n) {
        assert n == latest;
      }
    case _ =>
  }

  /** Over every run: once the job is dead and the latest attempt is UNKNOWN, has an upstream order, is under way, done
      or failed for good, the job stays dead and no attempt is ever added, whatever is reconciled and asked for. */
  lemma {:induction false} BlockedNeverReplayed(w: World, events: seq<Event>, latest: nat)
    requires Stranded(w, latest)
    ensures Stranded(Run(w, events), latest) && Run(w, events).attempts.Keys == w.attempts.Keys
    decreases |events|
  {
    if events != [] {
      BlockedNeverReplayed(w, events[..|events| - 1], latest);
      StrandedStep(Run(w, events[..|events| - 1]), events[|events| - 1], latest);
    }
  }

  /** Over every run, each step by which a job leaves the dead letters is a requeue of a replayable one. */
  lemma {:induction false} DeadLettersLeftSafely(w: World, events: seq<Event>, n: nat)
    requires n < |events|
    requires Run(w, events[..n]).job.status == DEAD_LETTER && Run(w, events[..n + 1]).job.status != DEAD_LETTER
    ensures events[n].Requeue? && Replayable(Run(w, events[..n]))
  {
    var before := Run(w, events[..n]);
    assert events[..n + 1][..n] == events[..n];
    assert Run(w, events[..n + 1]) == Next(before, events[n]);
    match events[n]
    case Requeue(latest) =>
      if before.attempts == map[] || Latest(before.attempts, latest) {
        RequeuedExactlyWhen(before, latest);
      }
    case _ =>
  }

  /* ---------- the job ---------- */

  /** A call that returned completes the job; one that raised is retried under the next number exactly when the error
      may be retried and the limit is not reached, and otherwise the job is dead. */
  lemma FiledExactly(w: World, number: nat, ending: Ending)
    requires w.job.status == RUNNING && w.job.task == Some(Task(number, Some(ending)))
    ensures var w' := Next(w, File);
            && w' == w.(job := w'.job) && w'.job.task == None
            && (w'.job.status == COMPLETED <==> ending == Returned)
            && (w'.job.status == QUEUED <==> ending == Raised(true) && number < w.maxRetries)
            && (w'.job.status == DEAD_LETTER <==> ending.Raised? && !(ending.retryable && number < w.maxRetries))
            && w'.job.attempt == if w'.job.status == QUEUED then number + 1 else w.job.attempt
  {
  }

  /* ---------- execution ---------- */

  /** The provider took the item and did not refuse it. */
  predicate Taken(s: Script, i: nat) {
    i < |s.results| && s.results[i].Answered?
    && s.results[i].response.state !in {UPSTREAM_FAILED, UPSTREAM_CANCELLED, EXPIRED, UPSTREAM_REFUNDED}
  }

  predicate Delivered(s: Script, i: nat) {
    Taken(s, i) && s.results[i].response.state == DONE
  }

  lemma {:induction false} ScanTakes(s: Script, n: nat)
    requires forall i: nat | i < n :: Taken(s, i)
    ensures Scan(s.results, n).Accepted?
  {
    if n > 0 {
      ScanTakes(s, n - 1);
      assert Taken(s, n - 1);
    }
  }

  /** Item `i` is the first that was not taken. */
  ghost predicate StopsAt(s: Script, i: nat, items: nat) {
    i < items && !Taken(s, i) && forall j: nat | j < i :: Taken(s, j)
  }

  lemma {:induction false} ScanStops(s: Script, i: nat, n: nat)
    requires StopsAt(s, i, n)
    ensures Scan(s.results, n) ==
            match ResultAt(s.results, i)
            case Threw(fault) => Halted(fault, None)
            case Answered(response) => Halted(REFUSED, Some(response))
    decreases n
  {
    if i + 1 < n {
      ScanStops(s, i, n - 1);
    } else {
      ScanTakes(s, i);
    }
  }

  predicate Fresh(w: World, k: nat) {
    w.items > 0 && !(k in w.attempts && w.attempts[k].status == Succeeded)
  }

  /** The order's status once work on it has begun. */
  function Begun(status: OrderStatus): OrderStatus {
    if status == PAID then PROCESSING else status
  }

  /** A failure that is not retried: the attempt is Failed, an order that may still fail is FAILED with one refund of
      its total, and without a refund it stays where it was. */
  ghost predicate GaveUp(w: World, k: nat, refundOk: bool, w': World) {
    && k in w'.attempts && w'.attempts[k].status == Failed
    && (refundOk && w.total > 0 ==>
          && w'.refunds == (if w.refunds == [] then [w.total] else w.refunds)
          && w'.status == if w.status in {PENDING, PAYMENT_PENDING, PAID, PROCESSING, PARTIALLY_FULFILLED} then FAILED
                          else w.status)
    && (!(refundOk && w.total > 0) ==> w'.refunds == w.refunds && w'.status == Begun(w.status))
  }

  /** An item threw: the attempt is retried exactly when the error or its cause may be and this is one of the first two
      attempts, as UNKNOWN after a timeout; otherwise it is given up. */
  lemma ThrownExactly(w: World, k: nat, s: Script, i: nat)
    requires Fresh(w, k) && StopsAt(s, i, w.items) && ResultAt(s.results, i).Threw?
    ensures var fault, r := ResultAt(s.results, i).fault, Serve(w, k, s);
            && k in r.world.attempts && r.ending == Raised(fault.retryable && fault.provider)
            && r.world.attempts[k].retryable == (fault.retryable || fault.causeRetryable)
            && (if (fault.retryable || fault.causeRetryable) && k <= 2
                then && r.world.attempts[k].status == (if fault.timeout then Unknown else Retrying)
                     && r.world.refunds == w.refunds && r.world.status == Begun(w.status)
                else GaveUp(w, k, s.refundOk, r.world))
  {
    ScanStops(s, i, w.items);
  }

  /** An item was refused: its upstream order is on record and the attempt is given up, never retried. */
  lemma RefusedExactly(w: World, k: nat, s: Script, i: nat)
    requires Fresh(w, k) && StopsAt(s, i, w.items) && ResultAt(s.results, i).Answered?
    ensures var r := Serve(w, k, s);
            && r.ending == Raised(false) && GaveUp(w, k, s.refundOk, r.world)
            && r.world.attempts[k].provider && !r.world.attempts[k].retryable
            && r.world.attempts[k].external == ResultAt(s.results, i).response.external
  {
    ScanStops(s, i, w.items);
  }

  /** Every item was taken and at least one is still open: the attempt waits, as UNKNOWN unless it is a single item with
      a clear state; the order neither ends nor is refunded. */
  lemma OpenExactly(w: World, k: nat, s: Script)
    requires Fresh(w, k) && (forall i: nat | i < w.items :: Taken(s, i)) && Taken(s, 0)
    requires exists i: nat | i < w.items :: !Delivered(s, i)
    ensures var r := Serve(w, k, s);
            && r.ending == Returned && r.world.refunds == w.refunds && r.world.status == Begun(w.status)
            && k in r.world.attempts && r.world.attempts[k].provider
            && r.world.attempts[k].external == s.results[0].response.external
            && (r.world.attempts[k].status == Processing <==>
                  w.items == 1 && s.results[0].response.state != UNCLEAR)
            && (r.world.attempts[k].status == Unknown <==>
                  w.items > 1 || s.results[0].response.state == UNCLEAR)
  {
    ScanTakes(s, w.items);
    var responses := Scan(s.results, w.items).responses;
    var i: nat :| i < w.items && !Delivered(s, i);
    assert Taken(s, i);
    assert ResultAt(s.results, i) == Answered(responses[i]) && ResultAt(s.results, 0) == Answered(responses[0]);
    assert !AllDone(responses);
    if w.items == 1 {
      assert FirstOpen(responses) == responses[0];
    }
  }

  /** What is left of a delivered order: fulfilled if the table allows it, given up if not. */
  ghost predicate DeliveredTo(w: World, k: nat, s: Script, r: Served) {
    && k in r.world.attempts && r.world.attempts[k].provider
    && (w.status in {PAID, PROCESSING, PARTIALLY_FULFILLED, FULFILLED} ==>
          && r.world.status == FULFILLED
          && (!s.lateFault ==>
                r.ending == Returned && r.world.refunds == w.refunds && r.world.attempts[k].status == Succeeded))
    && (w.status !in {PAID, PROCESSING, PARTIALLY_FULFILLED, FULFILLED} ==>
          r.ending == Raised(false) && GaveUp(w, k, s.refundOk, r.world))
  }

  lemma ConcludesDelivered(w: World, k: nat, responses: seq<Response>, s: Script)
    requires k in w.attempts && responses != [] && AllDone(responses) && w.status != PAID
    ensures DeliveredTo(w, k, s, Conclude(w, k, responses, s))
  {
  }

  lemma ScanDelivers(s: Script, n: nat)
    requires forall i: nat | i < n :: Delivered(s, i)
    ensures Scan(s.results, n).Accepted? && AllDone(Scan(s.results, n).responses)
  {
    forall i: nat | i < n
      ensures Taken(s, i)
    {
      assert Delivered(s, i);
    }
    ScanTakes(s, n);
    var responses := Scan(s.results, n).responses;
    forall i | 0 <= i < |responses|
      ensures responses[i].state == DONE
    {
      assert Delivered(s, i) && ResultAt(s.results, i) == Answered(responses[i]);
    }
  }

  /** Every item was delivered: an order that may be fulfilled is, and the attempt Succeeded, if nothing raises after
      that. */
  lemma DeliveredExactly(w: World, k: nat, s: Script)
    requires Fresh(w, k) && (forall i: nat | i < w.items :: Delivered(s, i))
    ensures DeliveredTo(w, k, s, Serve(w, k, s))
  {
    ScanDelivers(s, w.items);
    ConcludesDelivered(Started(w, k), k, Scan(s.results, w.items).responses, s);
  }

  /* ---------- reconciliation ---------- */

  /** An attempt that is under way with a known provider, and a provider that answers. */
  predicate Queried(w: World, n: nat, q: Query) {
    n in w.attempts && w.attempts[n].status in {Processing, Retrying, Unknown} && w.attempts[n].provider && q.Seen?
  }

  predicate SaysDone(q: Query)
    requires q.Seen?
  {
    q.completed || q.state == DONE
  }

  predicate SaysFailed(q: Query)
    requires q.Seen?
  {
    !SaysDone(q) && (|| q.failed || q.state in {UPSTREAM_FAILED, UPSTREAM_CANCELLED, EXPIRED, UPSTREAM_REFUNDED}
                     || (q.expired && q.state in {UPSTREAM_PROCESSING, UPSTREAM_PENDING}))
  }

  lemma UnqueriedStays(w: World, n: nat, q: Query)
    requires !Queried(w, n, q)
    ensures ReconcileAttempt(w, n, q) == w
  {
  }

  /** A report of success fulfils the order exactly when it is PROCESSING or partly fulfilled, or already FULFILLED, and
      the cost can be recorded or the session is committed anyway. The attempt Succeeded along with it. */
  lemma SuccessReported(w: World, n: nat, q: Query)
    requires Queried(w, n, q) && SaysDone(q)
    ensures var w' := ReconcileAttempt(w, n, q);
            && n in w'.attempts && w'.refunds == w.refunds
            && (w'.status == FULFILLED <==>
                  || w.status == FULFILLED
                  || (w.status in {PROCESSING, PARTIALLY_FULFILLED} && (q.costOk || q.committedLater)))
            && (w'.status != FULFILLED ==> w'.status == w.status)
            && (w'.attempts[n].status == Succeeded <==>
                  || q.committedLater
                  || (w.status in {PROCESSING, PARTIALLY_FULFILLED, FULFILLED} && q.costOk))
            && (w'.attempts[n].status != Succeeded ==> w' == w)
            && (w'.attempts[n].status == Succeeded && q.external ==> w'.attempts[n].external)
  {
  }

  /** A report of failure fails the order exactly when it has not ended and its refund works, with that refund, or
      without it when the session is committed anyway. */
  lemma FailureReported(w: World, n: nat, q: Query)
    requires Queried(w, n, q) && SaysFailed(q)
    ensures var w' := ReconcileAttempt(w, n, q);
            var mayFail := w.status in {PENDING, PAYMENT_PENDING, PAID, PROCESSING, PARTIALLY_FULFILLED, FAILED};
            var pays := q.refundOk && w.total > 0;
            && n in w'.attempts
            && w'.status == (if mayFail && (pays || q.committedLater) then FAILED else w.status)
            && w'.refunds == (if mayFail && pays && w.refunds == [] then [w.total] else w.refunds)
            && (w'.attempts[n].status == Failed <==> (mayFail && pays) || q.committedLater)
            && (w'.attempts[n].status != Failed ==> w' == w)
            && (w'.attempts[n].status == Failed ==> !w'.attempts[n].retryable)
  {
  }

  /** Any other report leaves the order alone; the attempt is UNKNOWN if the state is unclear and Processing if not. */
  lemma NothingReported(w: World, n: nat, q: Query)
    requires Queried(w, n, q) && !SaysDone(q) && !SaysFailed(q)
    ensures var w' := ReconcileAttempt(w, n, q);
            && w' == w.(attempts := w'.attempts) && w'.attempts - {n} == w.attempts - {n} && n in w'.attempts
            && w'.attempts[n].status == (if q.state == UNCLEAR then Unknown else Processing)
            && w'.attempts[n].external == w.attempts[n].external && !w'.attempts[n].retryable
  {
  }
}
