/** Fulfillment as a program over the rows of one order; each method is one of the steps in
    `Fulfillment`, so what holds of every run holds of it. */
module FulfillmentDesk {
  import opened Common
  import opened Fulfillment
  import Outcomes = FulfillmentOutcomes

  lemma CostSnoc(responses: seq<Response>, r: Response)
    ensures CostSum(responses + [r]) == CostSum(responses) + r.cost
  {
  }

  function Currencies(responses: seq<Response>): (r: set<string>)
    ensures forall i | 0 <= i < |responses| :: responses[i].currency in r
    ensures forall c | c in r :: exists i | 0 <= i < |responses| :: responses[i].currency == c
  {
    set i | 0 <= i < |responses| :: responses[i].currency
  }

  lemma OneCurrencyCounts(responses: seq<Response>)
    requires responses != []
    ensures |Currencies(responses)| == 1 <==> OneCurrency(responses)
  {
    var c := responses[0].currency;
    assert c in Currencies(responses);
    if OneCurrency(responses) {
      assert Currencies(responses) == {c};
    } else if |Currencies(responses)| == 1 {
      var i :| 0 <= i < |responses| && responses[i].currency != c;
      assert {c, responses[i].currency} <= Currencies(responses);
      assert |{c, responses[i].currency}| == 2;
      CardinalityMonotone({c, responses[i].currency}, Currencies(responses));
    }
  }

  lemma CardinalityMonotone<T>(a: set<T>, b: set<T>)
    requires a <= b
    ensures |a| <= |b|
  {
    assert b == a + (b - a);
  }

  /** A prefix of one that is not of one currency is not either. */
  lemma OneCurrencyPrefix(responses: seq<Response>, r: Response)
    requires OneCurrency(responses + [r])
    ensures OneCurrency(responses)
  {
    forall i | 0 <= i < |responses|
      ensures responses[i].currency == responses[0].currency
    {
      assert (responses + [r])[i] == responses[i] && (responses + [r])[0] == responses[0];
    }
  }

  /** Adding one response: the set of currencies, and the sum while there is one. */
  lemma AddResponse(responses: seq<Response>, r: Response)
    ensures Currencies(responses + [r]) == Currencies(responses) + {r.currency}
    ensures |Currencies(responses) + {r.currency}| == 1 <==> OneCurrency(responses + [r])
    ensures CostSum(responses + [r]) == CostSum(responses) + r.cost
    ensures OneCurrency(responses + [r]) ==> OneCurrency(responses)
  {
    var all := responses + [r];
    assert all[|responses|] == r;
    forall c | c in Currencies(responses)
      ensures c in Currencies(all)
    {
      var i :| 0 <= i < |responses| && responses[i].currency == c;
      assert all[i] == responses[i];
    }
    OneCurrencyCounts(all);
    CostSnoc(responses, r);
    if OneCurrency(all) {
      OneCurrencyPrefix(responses, r);
    }
  }

  /** Dispatches the items in order, adding up costs while they share a currency. */
  method DispatchItems(results: seq<ItemResult>, items: nat) returns (d: Dispatch, cost: int, currency: string)
    ensures d == Scan(results, items)
    ensures d.Accepted? && items > 0 ==> (cost, currency) == CostOf(d.responses)
  {
    var responses: seq<Response> := [];
    var currencies: set<string> := {};
    cost, currency := 0, "MIX";
    var i := 0;
    while i < items
      invariant i <= items && Scan(results, i) == Accepted(responses) && currencies == Currencies(responses)
      invariant i > 0 && OneCurrency(responses) ==> cost == CostSum(responses)
      invariant i == 0 ==> cost == 0
    {
      var result := ResultAt(results, i);
      if result.Threw? {
        HaltsHere(results, i, items);
        return Halted(result.fault, None), cost, currency;
      }
      var response := result.response;
      if !Refusing(response.state) {
        AddResponse(responses, response);
        currencies := currencies + {response.currency};
        if |currencies| == 1 {
          cost := cost + response.cost;
        }
        responses := responses + [response];
      } else {
        HaltsHere(results, i, items);
        return Halted(REFUSED, Some(response)), cost, currency;
      }
      i := i + 1;
    }
    d := Accepted(responses);
    if items > 0 {
      OneCurrencyCounts(responses);
      if |currencies| == 1 {
        currency := responses[0].currency;
      } else {
        cost := 0;
      }
    }
  }

  /** Once an item halts the dispatch, later ones do not matter. */
  lemma {:induction false} HaltsHere(results: seq<ItemResult>, i: nat, n: nat)
    requires i < n && Scan(results, i).Accepted? && Scan(results, i + 1).Halted?
    ensures Scan(results, n) == Scan(results, i + 1)
    decreases n
  {
    if i + 1 < n {
      HaltsHere(results, i, n - 1);
    }
  }

  /** What a reconciliation may do. An order is fulfilled only on a report of success and failed only on one of failure;
      a refund is written at most once, of the total, and never for a FULFILLED order; and an order that fails has its
      refund unless the refund call failed and the session was committed later. */
  ghost predicate ReconciledRight(w: World, w': World, n: nat, q: Query) {
    && (w'.refunds == w.refunds || (w.refunds == [] && w'.refunds == [w.total] && w'.status == FAILED))
    && (w'.status != w.status ==>
          && q.Seen? && n in w.attempts && Active(w.attempts[n].status)
          && w'.status == if q.completed || q.state == DONE then FULFILLED else FAILED)
    && (w.status == FULFILLED ==> w'.status == FULFILLED && w'.refunds == w.refunds)
    && (w'.status == FAILED && w.status != FAILED && w'.refunds == [] ==>
          !(q.refundOk && w.total > 0) && q.committedLater)
    && w'.attempts - {n} == w.attempts - {n}
    && (w'.status == FULFILLED <==>
          || w.status == FULFILLED
          || (&& Outcomes.Queried(w, n, q) && (q.completed || q.state == DONE)
              && w.status in {PROCESSING, PARTIALLY_FULFILLED} && (q.costOk || q.committedLater)))
  }

  lemma ReconcileIsRight(w: World, n: nat, q: Query)
    ensures ReconciledRight(w, ReconcileAttempt(w, n, q), n, q)
  {
    if Outcomes.Queried(w, n, q) {
      if Outcomes.SaysDone(q) {
        Outcomes.SuccessReported(w, n, q);
      } else if Outcomes.SaysFailed(q) {
        Outcomes.FailureReported(w, n, q);
      } else {
        Outcomes.NothingReported(w, n, q);
      }
    }
  }

  class Desk {
    const total: int
    const items: nat
    const currency: string
    const maxRetries: int
    var status: OrderStatus
    var attempts: map<nat, Attempt>
    var refunds: seq<int>
    var job: Job

    ghost function View(): World
      reads this
    {
      World(status, total, items, currency, maxRetries, attempts, refunds, job)
    }

    constructor (total: int, items: nat, currency: string, maxRetries: int)
      ensures View() == Paid(total, items, currency, maxRetries)
    {
      this.total, this.items, this.currency, this.maxRetries := total, items, currency, maxRetries;
      status, attempts, refunds, job := PAID, map[], [], Job(QUEUED, 1, None);
    }

    /** Moves the order if the table allows it; otherwise an error, and the order stays. */
    method TransitionTo(target: OrderStatus) returns (ok: bool)
      modifies this`status
      ensures ok <==> CanMove(old(status), target)
      ensures status == if ok then target else old(status)
    {
      ok := target == status || target in Legal(status);
      if ok {
        status := target;
      }
    }

    /** The ledger's refund of this order, absorbed when there already is one. */
    method Refund(works: bool) returns (ok: bool)
      modifies this`refunds
      ensures ok <==> works && total > 0
      ensures refunds == if ok then Refunded(old(refunds), total) else old(refunds)
    {
      ok := works && total > 0;
      if ok && refunds == [] {
        refunds := [total];
      }
    }

    /** The failure flow. A refund is written at most once, of the order's total, and only for a failure that is not
        retried; the order closes only with a refund on record, and only this attempt changes. */
    method HandleFailure(k: nat, fault: Fault, refundOk: bool) returns (ending: Ending)
      requires k in attempts
      modifies this`status, this`attempts, this`refunds
      ensures Served(View(), ending) == Fail(old(View()), k, fault, refundOk)
      ensures refunds == old(refunds) || (old(refunds) == [] && refunds == [total] && total > 0 && refundOk)
      ensures status == old(status) || (status == FAILED && refunds != [])
      ensures Active(attempts[k].status) ==> refunds == old(refunds) && status == old(status)
      ensures Active(attempts[k].status) <==> (fault.retryable || fault.causeRetryable) && k < 3
      ensures !Active(attempts[k].status) && refundOk && total > 0 && CanMove(old(status), FAILED) ==>
                status == FAILED && |refunds| >= 1 && (old(refunds) == [] ==> refunds == [total])
      ensures attempts - {k} == old(attempts) - {k}
      ensures var retry := fault.retryable || fault.causeRetryable;
              && attempts[k].retryable == retry
              && attempts[k].status == if !retry || k > 2 then Failed else if fault.timeout then Unknown else Retrying
    {
      var retryable := fault.retryable || fault.causeRetryable;
      var a := attempts[k].(retryable := retryable);
      if retryable && k < 3 {
        attempts := attempts[k := a.(status := if fault.timeout then Unknown else Retrying)];
      } else {
        attempts := attempts[k := a.(status := Failed)];
        var ok := Refund(refundOk);
        if ok {
          var _ := TransitionTo(FAILED);
        }
      }
      ending := Raised(fault.retryable && fault.provider);
    }

    /** Opens or reuses attempt `k`. */
    method OpenAttempt(k: nat)
      modifies this`status, this`attempts
      ensures View() == Started(old(View()), k)
    {
      if k in attempts {
        attempts := attempts[k := attempts[k].(status := Processing)];
      } else {
        attempts := attempts[k := Attempt(Processing, false, false, false, 0, currency)];
      }
      if status == PAID {
        var _ := TransitionTo(PROCESSING);
      }
    }

    /** Every item was accepted: still open upstream, or fulfilled. */
    method FinishAccepted(k: nat, responses: seq<Response>, cost: int, costCurrency: string,
                          s: Script) returns (ending: Ending)
      requires k in attempts && responses != [] && (cost, costCurrency) == CostOf(responses)
      modifies this`status, this`attempts, this`refunds
      ensures Served(View(), ending) == Conclude(old(View()), k, responses, s)
    {
      var a := attempts[k].(provider := true, external := responses[0].external, retryable := false,
                            cost := cost, currency := costCurrency);
      if !AllDone(responses) {
        var unknown := |responses| > 1 || FirstOpen(responses).state == UNCLEAR;
        attempts := attempts[k := a.(status := if unknown then Unknown else Processing)];
        return Returned;
      }
      var ok := TransitionTo(FULFILLED);
      attempts := attempts[k := if ok then a.(status := Succeeded) else a];
      if ok && !s.lateFault {
        return Returned;
      }
      ending := HandleFailure(k, UNEXPECTED, s.refundOk);
    }

    /** One execution of attempt `k`. */
    method ExecuteOrderFulfillment(k: nat, s: Script) returns (ending: Ending)
      modifies this`status, this`attempts, this`refunds
      ensures Served(View(), ending) == Serve(old(View()), k, s)
    {
      if k in attempts && attempts[k].status == Succeeded {
        return Returned;
      }
      OpenAttempt(k);
      if items == 0 {
        attempts := attempts[k := attempts[k].(status := Failed)];
        return Returned;
      }
      var dispatch, cost, costCurrency := DispatchItems(s.results, items);
      if dispatch.Accepted? {
        ending := FinishAccepted(k, dispatch.responses, cost, costCurrency, s);
      } else {
        if dispatch.refused.Some? {
          attempts := attempts[k := attempts[k].(provider := true, external := dispatch.refused.value.external)];
        }
        ending := HandleFailure(k, dispatch.fault, s.refundOk);
      }
    }

    /** Reconciliation of attempt `n` with what the provider reports. */
    method Reconcile(n: nat, q: Query)
      modifies this`status, this`attempts, this`refunds
      ensures View() == ReconcileAttempt(old(View()), n, q)
      ensures ReconciledRight(old(View()), View(), n, q)
    {
      ReconcileIsRight(View(), n, q);
      if n !in attempts || !Active(attempts[n].status) || !attempts[n].provider || q.Unreachable? {
        return;
      }
      var kept, keptStatus, ok := attempts, status, true;
      if q.completed || q.state == DONE {
        attempts := attempts[n := attempts[n].(status := Succeeded, retryable := false,
                                               external := attempts[n].external || q.external)];
        ok := TransitionTo(FULFILLED);
        ok := ok && q.costOk;
      } else if q.failed || Refusing(q.state)
      || (q.expired && (q.state == UPSTREAM_PROCESSING || q.state == UPSTREAM_PENDING)) {
        attempts := attempts[n := attempts[n].(status := Failed, retryable := false)];
        ok := TransitionTo(FAILED);
        if ok {
          ok := Refund(q.refundOk);
        }
      } else {
        attempts := attempts[n := attempts[n].(status := if q.state == UNCLEAR then Unknown else Processing,
                                               retryable := false)];
      }
      if !ok && !q.committedLater {
        attempts, status := kept, keptStatus;
      }
    }

    /** A wake-up with number `k`: claim the durable job if it is queued, run it, file the result. */
    method ProcessJob(k: nat, s: Script) returns (claimed: bool)
      modifies this
      ensures claimed <==> old(job).status == QUEUED
      ensures View() == if claimed then Next(Next(Next(old(View()), Claim(k)), Execute(s)), File) else old(View())
      ensures claimed ==>
                && job.task == None && job.status in {COMPLETED, QUEUED, DEAD_LETTER}
                && (job.status == QUEUED ==> k < maxRetries && job.attempt == k + 1)
    {
      claimed := job.status == QUEUED;
      if !claimed {
        return;
      }
      job := job.(status := RUNNING, task := Some(Task(k, None)));
      ghost var w := View();
      var ending := ExecuteOrderFulfillment(k, s);
      job := job.(task := Some(Task(k, Some(ending))));
      assert View() == Next(w, Execute(s));
      if ending.Returned? {
        job := job.(status := COMPLETED, task := None);
      } else if ending.retryable && k < maxRetries {
        job := Job(QUEUED, k + 1, None);
      } else {
        job := job.(status := DEAD_LETTER, task := None);
      }
    }

    /** The operator's requeue of a dead-letter job; an error says why not. */
    method RequeueDeadLetter() returns (refusal: Option<Refusal>, ghost latest: nat)
      modifies this`job
      ensures attempts != map[] ==> Latest(attempts, latest)
      ensures refusal == RequeueRefusal(old(View()), if attempts == map[] then None else Some(attempts[latest]))
      ensures refusal.None? <==> Outcomes.Replayable(old(View()))
      ensures refusal.Some? ==> job == old(job)
      ensures View() == Next(old(View()), Requeue(latest))
      ensures refusal.None? ==> job.status == QUEUED && job.attempt > old(job).attempt && forall n | n in attempts ::
                n < job.attempt
    {
      var top := 0;
      var rest := attempts.Keys;
      while rest != {}
        invariant rest <= attempts.Keys
        invariant forall n | n in attempts && n !in rest :: n <= top
        invariant top in attempts || (top == 0 && rest == attempts.Keys)
        decreases |rest|
      {
        var n :| n in rest;
        rest := rest - {n};
        if top < n || top !in attempts {
          top := n;
        }
      }
      latest := top;
      Outcomes.RequeuedExactlyWhen(View(), latest);
      var found := if top in attempts then Some(attempts[top]) else None;
      assert top in attempts <==> attempts != map[];
      if job.status != DEAD_LETTER { return Some(NotDeadLetter), latest; }
      if status != PAID && status != PROCESSING { return Some(UnsafeOrder), latest; }
      if refunds != [] { return Some(AlreadyRefunded), latest; }
      if found.Some? {
        var a := found.value;
        if a.external { return Some(UpstreamOrderExists), latest; }
        if a.status == Unknown { return Some(OutcomeUnknown), latest; }
        if a.status == Succeeded || a.status == Processing { return Some(ActiveOrSucceeded), latest; }
        if a.status == Failed && !a.retryable { return Some(Permanent), latest; }
      }
      job := Job(QUEUED, (if job.attempt < top then top else job.attempt) + 1, None);
      refusal := None;
    }
  }
}
