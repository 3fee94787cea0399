/** Fulfillment of one order: its status machine, numbered attempts, the durable job, refunds,
    reconciliation with the provider and the operator's requeue. Amounts count cents. */
module Fulfillment {
  import opened Common

  /* ---------- the order's status machine ---------- */

  datatype OrderStatus =
    | PENDING | PAYMENT_PENDING | PAID | PROCESSING | PARTIALLY_FULFILLED | FULFILLED | CANCELLED | FAILED | REFUNDED

  function Legal(from: OrderStatus): set<OrderStatus> {
    match from
    case PENDING => {PAYMENT_PENDING, CANCELLED, FAILED}
    case PAYMENT_PENDING => {PAID, CANCELLED, FAILED}
    case PAID => {PROCESSING, REFUNDED, CANCELLED, FAILED}
    case PROCESSING => {PARTIALLY_FULFILLED, FULFILLED, FAILED, CANCELLED, REFUNDED}
    case PARTIALLY_FULFILLED => {FULFILLED, FAILED}
    case FULFILLED => {REFUNDED}
    case _ => {}
  }

  predicate CanMove(from: OrderStatus, target: OrderStatus) {
    from == target || target in Legal(from)
  }

  /* ---------- rows ---------- */

  datatype AttemptStatus = Processing | Succeeded | Retrying | Unknown | Failed

  predicate Active(s: AttemptStatus) { s == Processing || s == Retrying || s == Unknown }

  /** `provider`, `external`: a provider and an upstream order id are on record; `retryable`: the flag
      kept with the last response. */
  datatype Attempt = Attempt(status: AttemptStatus, provider: bool, external: bool, retryable: bool, cost: int,
                             currency: string)

  datatype JobStatus = QUEUED | RUNNING | COMPLETED | DEAD_LETTER

  /** How the service call of a running job ended: normally, or with a provider error. */
  datatype Ending = Returned | Raised(retryable: bool)
  datatype Task = Task(number: nat, ending: Option<Ending>)
  datatype Job = Job(status: JobStatus, attempt: nat, task: Option<Task>)

  datatype World = World(status: OrderStatus, total: int, items: nat, currency: string, maxRetries: int,
                         attempts: map<nat, Attempt>, refunds: seq<int>, job: Job)

  /** A paid order with its one job. */
  function Paid(total: int, items: nat, currency: string, maxRetries: int): World {
    World(PAID, total, items, currency, maxRetries, map[], [], Job(QUEUED, 1, None))
  }

  /* ---------- what the outside answers ---------- */

  datatype UpstreamState = DONE | UPSTREAM_FAILED | UPSTREAM_CANCELLED | EXPIRED | UPSTREAM_REFUNDED | UNCLEAR
                         | UPSTREAM_CREATED | UPSTREAM_PENDING | UPSTREAM_PROCESSING | WAITING_DELIVERY

  predicate Refusing(s: UpstreamState) {
    s == UPSTREAM_FAILED || s == UPSTREAM_CANCELLED || s == EXPIRED || s == UPSTREAM_REFUNDED
  }

  datatype Response = Response(state: UpstreamState, cost: int, currency: string, external: bool)

  /** An exception: whether it, or its cause, is retryable, and whether it is a timeout or a provider error. */
  datatype Fault = Fault(retryable: bool, causeRetryable: bool, timeout: bool, provider: bool)

  const REFUSED := Fault(false, false, false, true)
  const UNEXPECTED := Fault(false, false, false, false)

  datatype ItemResult = Answered(response: Response) | Threw(fault: Fault)

  /** What one execution meets: an answer per item, whether the refund call works, and whether something
      raises after the success was committed. */
  datatype Script = Script(results: seq<ItemResult>, refundOk: bool, lateFault: bool)

  /** What a reconciliation meets. `committedLater`: after an exception, another commit of the same
      session writes what was left in it. */
  datatype Query =
    | Unreachable
    | Seen(completed: bool, failed: bool, state: UpstreamState, external: bool, expired: bool, refundOk: bool,
           costOk: bool, committedLater: bool)

  /* ---------- execution ---------- */

  datatype Dispatch = Halted(fault: Fault, refused: Option<Response>) | Accepted(responses: seq<Response>)

  function ResultAt(results: seq<ItemResult>, i: nat): ItemResult {
    if i < |results| then results[i] else Threw(UNEXPECTED)
  }

  /** The items in order, up to the first that raises or is refused. */
  function Scan(results: seq<ItemResult>, n: nat): (r: Dispatch)
    ensures r.Accepted? ==> |r.responses| == n && forall i | 0 <= i < n ::
              ResultAt(results, i) == Answered(r.responses[i]) && !Refusing(r.responses[i].state)
    ensures r.Halted? && r.refused.Some? ==> r.fault == REFUSED
  {
    if n == 0 then Accepted([])
    else
      var before := Scan(results, n - 1);
      if before.Halted? then before
      else
        match ResultAt(results, n - 1)
        case Threw(fault) => Halted(fault, None)
        case Answered(response) =>
          if Refusing(response.state) then Halted(REFUSED, Some(response)) else Accepted(before.responses + [response])
  }

  function CostSum(responses: seq<Response>): int {
    if responses == [] then 0 else CostSum(responses[..|responses| - 1]) + responses[|responses| - 1].cost
  }

  predicate OneCurrency(responses: seq<Response>) {
    forall i | 0 <= i < |responses| :: responses[i].currency == responses[0].currency
  }

  /** Costs are added only within one currency. */
  function CostOf(responses: seq<Response>): (r: (int, string))
    requires responses != []
  {
    if OneCurrency(responses) then (CostSum(responses), responses[0].currency) else (0, "MIX")
  }

  predicate AllDone(responses: seq<Response>) {
    forall i | 0 <= i < |responses| :: responses[i].state == DONE
  }

  function FirstOpen(responses: seq<Response>): (r: Response)
    requires !AllDone(responses)
    ensures r.state != DONE && r in responses
  {
    if responses[0].state != DONE then responses[0]
    else
      assert exists i | 0 <= i < |responses[1..]| :: responses[1..][i].state != DONE by {
        var i :| 0 <= i < |responses| && responses[i].state != DONE;
        assert responses[1..][i - 1] == responses[i];
      }
      FirstOpen(responses[1..])
  }

  function With(w: World, k: nat, a: Attempt): World {
    w.(attempts := w.attempts[k := a])
  }

  /** The attempt is opened or reused, and a PAID order starts PROCESSING. */
  function Started(w: World, k: nat): World {
    var a := if k in w.attempts then w.attempts[k].(status := Processing)
             else Attempt(Processing, false, false, false, 0, w.currency);
    With(w, k, a).(status := if w.status == PAID then PROCESSING else w.status)
  }

  /** The ledger absorbs a repeated refund of one order and refuses one that is not positive. */
  function Refunded(refunds: seq<int>, total: int): seq<int> {
    if refunds == [] then [total] else refunds
  }

  datatype Served = Served(world: World, ending: Ending)

  /** The failure flow: retry, or refund first and close the order second. */
  function Fail(w: World, k: nat, fault: Fault, refundOk: bool): Served
    requires k in w.attempts
  {
    var retryable := fault.retryable || fault.causeRetryable;
    var a := w.attempts[k].(retryable := retryable);
    var raised := Raised(fault.retryable && fault.provider);
    if retryable && k < 3 then
      Served(With(w, k, a.(status := if fault.timeout then Unknown else Retrying)), raised)
    else
      var w1 := With(w, k, a.(status := Failed));
      if !refundOk || w.total <= 0 then Served(w1, raised)
      else
        var w2 := w1.(refunds := Refunded(w.refunds, w.total));
        Served(if CanMove(w2.status, FAILED) then w2.(status := FAILED) else w2, raised)
  }

  /** What the attempt knows once every item was accepted. */
  function Recorded(a: Attempt, responses: seq<Response>): Attempt
    requires responses != []
  {
    a.(provider := true, external := responses[0].external, retryable := false,
       cost := CostOf(responses).0, currency := CostOf(responses).1)
  }

  function OpenStatus(responses: seq<Response>): AttemptStatus
    requires !AllDone(responses)
  {
    if |responses| > 1 || FirstOpen(responses).state == UNCLEAR then Unknown else Processing
  }

  function Conclude(w: World, k: nat, responses: seq<Response>, s: Script): Served
    requires k in w.attempts && responses != []
  {
    var a := Recorded(w.attempts[k], responses);
    if !AllDone(responses) then Served(With(w, k, a.(status := OpenStatus(responses))), Returned)
    else if !CanMove(w.status, FULFILLED) then Fail(With(w, k, a), k, UNEXPECTED, s.refundOk)
    else
      var w1 := With(w, k, a.(status := Succeeded)).(status := FULFILLED);
      if s.lateFault then Fail(w1, k, UNEXPECTED, s.refundOk) else Served(w1, Returned)
  }

  /** One execution of attempt `k`. */
  function Serve(w: World, k: nat, s: Script): Served {
    if k in w.attempts && w.attempts[k].status == Succeeded then Served(w, Returned)
    else
      var w1 := Started(w, k);
      if w.items == 0 then Served(With(w1, k, w1.attempts[k].(status := Failed)), Returned)
      else
        match Scan(s.results, w.items)
        case Halted(fault, None) => Fail(w1, k, fault, s.refundOk)
        case Halted(fault, Some(r)) => Fail(With(w1, k, w1.attempts[k].(provider := true, external := r.external)), k,
                                            fault, s.refundOk)
        case Accepted(responses) => Conclude(w1, k, responses, s)
  }

  /* ---------- reconciliation ---------- */

  function ReconcileFailure(w: World, n: nat, q: Query): World
    requires n in w.attempts && q.Seen?
  {
    var w1 := With(w, n, w.attempts[n].(status := Failed, retryable := false));
    if !CanMove(w.status, FAILED) then if q.committedLater then w1 else w
    else
      var w2 := w1.(status := FAILED);
      if !q.refundOk || w.total <= 0 then if q.committedLater then w2 else w
      else w2.(refunds := Refunded(w.refunds, w.total))
  }

  function ReconcileSuccess(w: World, n: nat, q: Query): World
    requires n in w.attempts && q.Seen?
  {
    var w1 := With(w, n, w.attempts[n].(status := Succeeded, retryable := false,
                                        external := w.attempts[n].external || q.external));
    if !CanMove(w.status, FULFILLED) then if q.committedLater then w1 else w
    else
      var w2 := w1.(status := FULFILLED);
      if q.costOk || q.committedLater then w2 else w
  }

  /** Reconciling attempt `n`; only an active attempt with a provider can be queried. */
  function ReconcileAttempt(w: World, n: nat, q: Query): World {
    if n !in w.attempts || !Active(w.attempts[n].status) || !w.attempts[n].provider || q.Unreachable? then w
    else if q.completed || q.state == DONE then ReconcileSuccess(w, n, q)
    else if q.failed || Refusing(q.state) then ReconcileFailure(w, n, q)
    else if q.expired && (q.state == UPSTREAM_PROCESSING || q.state == UPSTREAM_PENDING) then ReconcileFailure(w, n, q)
    else With(w, n, w.attempts[n].(status := if q.state == UNCLEAR then Unknown else Processing, retryable := false))
  }

  /* ---------- the job ---------- */

  /** `n` is the highest attempt number. */
  predicate Latest(attempts: map<nat, Attempt>, n: nat) {
    n in attempts && forall m | m in attempts :: m <= n
  }

  datatype Refusal = NotDeadLetter | UnsafeOrder | AlreadyRefunded | UpstreamOrderExists | OutcomeUnknown
                   | ActiveOrSucceeded | Permanent

  /** Why the operator may not requeue, given the latest attempt; `None` allows it. */
  function RequeueRefusal(w: World, latest: Option<Attempt>): Option<Refusal> {
    if w.job.status != DEAD_LETTER then Some(NotDeadLetter)
    else if w.status != PAID && w.status != PROCESSING then Some(UnsafeOrder)
    else if w.refunds != [] then Some(AlreadyRefunded)
    else if latest.None? then None
    else if latest.value.external then Some(UpstreamOrderExists)
    else if latest.value.status == Unknown then Some(OutcomeUnknown)
    else if latest.value.status == Succeeded || latest.value.status == Processing then Some(ActiveOrSucceeded)
    else if latest.value.status == Failed && !latest.value.retryable then Some(Permanent)
    else None
  }

  function Requeued(w: World, latest: nat): World {
    w.(job := Job(QUEUED, (if w.job.attempt < latest then latest else w.job.attempt) + 1, None))
  }

  /** How the worker files a job whose service call has ended. */
  function Filed(w: World, task: Task): Job
    requires task.ending.Some?
  {
    match task.ending.value
    case Returned => w.job.(status := COMPLETED, task := None)
    case Raised(retryable) =>
      if retryable && task.number < w.maxRetries then Job(QUEUED, task.number + 1, None)
      else w.job.(status := DEAD_LETTER, task := None)
  }

  datatype Event =
    | Claim(number: nat)
    | Execute(script: Script)
    | File
    | Reconcile(number: nat, query: Query)
    | Requeue(latest: nat)

  /** One step. A wake-up may carry any attempt number, since in-memory wake-ups can be stale. */
  function Next(w: World, e: Event): World {
    match e
    case Claim(number) =>
      if w.job.status == QUEUED then w.(job := w.job.(status := RUNNING, task := Some(Task(number, None)))) else w
    case Execute(script) =>
      if w.job.status == RUNNING && w.job.task.Some? && w.job.task.value.ending.None? then
        var served := Serve(w, w.job.task.value.number, script);
        served.world.(job := w.job.(task := Some(Task(w.job.task.value.number, Some(served.ending)))))
      else w
    case File =>
      if w.job.status == RUNNING && w.job.task.Some? && w.job.task.value.ending.Some?
        then w.(job := Filed(w, w.job.task.value)) else w
    case Reconcile(number, query) => ReconcileAttempt(w, number, query)
    case Requeue(latest) =>
      if w.attempts == map[] then
        if RequeueRefusal(w, None).None? then Requeued(w, 0) else w
      else if Latest(w.attempts, latest) && RequeueRefusal(w, Some(w.attempts[latest])).None? then Requeued(w, latest)
        else w
  }

  function Run(w: World, events: seq<Event>): World
    decreases |events|
  {
    if events == [] then w else Next(Run(w, events[..|events| - 1]), events[|events| - 1])
  }
}
