/** Concurrent creations of deposits: the lookup of the key and the insert are separate steps, with anything
    in between, and a lost race is answered with the winner. */
module DepositCreation {
  import opened Common
  import Identifiers
  import D = Deposits
  import Runs = DepositRuns
  import Credits = DepositCredits
  import Outcomes = DepositOutcomes

  type Request = D.Request
  type Evidence = D.Evidence
  type Book = D.Book

  /** A call that found nothing and is waiting for its provider, or that has ended. */
  datatype Phase = Asking(request: Request) | Answered(request: Request, id: nat) | Refused

  datatype World = World(book: Book, calls: map<nat, Phase>)

  const START := World(D.EMPTY, map[])

  datatype Step =
    | Ask(call: nat, request: Request)
    | Insert(call: nat, id: nat, evidence: Evidence)
    | Other(event: D.Event)

  /** The idempotency key as stored. */
  function Keyed(r: Request): Request { r.(key := Identifiers.Strip(r.key)) }

  predicate Holds(book: Book, id: nat, r: Request) {
    id in book.deposits && book.deposits[id].tenant == r.tenant && book.deposits[id].key == r.key
  }

  /** The deposit that the unique index on (tenant, key) leads to. */
  ghost function Holder(book: Book, r: Request): (x: Option<nat>)
    ensures x.Some? ==> Holds(book, x.value, r)
    ensures x.None? ==> !D.KeyTaken(book, r.tenant, r.key)
  {
    if D.KeyTaken(book, r.tenant, r.key) then
      var id :| id in book.deposits && book.deposits[id].tenant == r.tenant && book.deposits[id].key == r.key;
      Option.Some(id)
    else Option.None
  }

  /** The deposit is for the caller's user and payment method. */
  predicate Mine(d: D.Deposit, r: Request) {
    d.user == r.user && d.paymentMethod == r.paymentMethod
  }

  predicate Admissible(r: Request, e: Evidence) {
    e.providerId != "" && D.Assess(D.Fresh(r, e), e) == D.Normal
  }

  ghost function AfterAsk(book: Book, r: Request): Phase {
    if !(8 <= |r.key| <= 100) then Refused
    else
      var found := Holder(book, r);
      if found.None? then Asking(r)
      else if Mine(book.deposits[found.value], r) then Answered(r, found.value) else Refused
  }

  /** What an insert is answered: its own deposit, or the winner of the race if that has the same invoice. */
  ghost function AfterInsert(book: Book, r: Request, id: nat, e: Evidence): Phase {
    if !Admissible(r, e) then Refused
    else if !D.KeyTaken(book, r.tenant, r.key) && !D.InvoiceTaken(book, r.tenant, r.provider, e.providerId)
      then Answered(r, id)
    else
      var winner := Holder(book, r);
      if winner.None? || book.deposits[winner.value].providerId != e.providerId then Refused
        else Answered(r, winner.value)
  }

  ghost function Next(w: World, s: Step): World {
    match s
    case Ask(call, r) => if call in w.calls then w else w.(calls := w.calls[call := AfterAsk(w.book, Keyed(r))])
    case Insert(call, id, e) =>
      if call in w.calls && w.calls[call].Asking? && id !in w.book.deposits then
        var r := w.calls[call].request;
        World(D.Create(w.book, id, r, e), w.calls[call := AfterInsert(w.book, r, id, e)])
      else w
    case Other(event) => if event.Creation? then w else w.(book := D.Next(w.book, event))
  }

  ghost function Run(w: World, steps: seq<Step>): World
    decreases |steps|
  {
    if steps == [] then w else Next(Run(w, steps[..|steps| - 1]), steps[|steps| - 1])
  }

  /* ---------- the book is one of the runs ---------- */

  lemma {:induction false} BookIsARun(steps: seq<Step>) returns (events: seq<D.Event>)
    ensures Run(START, steps).book == D.Run(D.EMPTY, events)
    decreases |steps|
  {
    events := [];
    if steps != [] {
      var last := |steps| - 1;
      var before := BookIsARun(steps[..last]);
      var w := Run(START, steps[..last]);
      events := before;
      if Next(w, steps[last]).book != w.book {
        var event := if steps[last].Insert?
          then D.Creation(steps[last].id, w.calls[steps[last].call].request, steps[last].evidence)
                     else steps[last].event;
        events := before + [event];
        assert events[..|before|] == before;
      }
    }
  }

  /* ---------- when a call is answered ---------- */

  /** On every run, a call whose trimmed key a deposit of its tenant already has is answered with that deposit exactly
      when user and payment method are the same, and refused otherwise. */
  lemma {:induction false} RepeatAnsweredExactlyWhen(steps: seq<Step>, call: nat, r: Request, id: nat)
    requires call !in Run(START, steps).calls && id in Run(START, steps).book.deposits
    requires var d := Run(START, steps).book.deposits[id]; d.tenant == r.tenant && d.key == Identifiers.Strip(r.key)
    ensures var w := Run(START, steps);
            var d, w' := w.book.deposits[id], Next(w, Ask(call, r));
            && w'.book == w.book && call in w'.calls
            && w'.calls[call] == if 8 <= |d.key| <= 100 && d.user == r.user && d.paymentMethod == r.paymentMethod
                                 then Answered(Keyed(r), id) else Refused
  {
    var events := BookIsARun(steps);
    Runs.RunKeeps(events);
    HolderIsOnly(Run(START, steps).book, Keyed(r), id);
  }

  /** A call whose key nobody has goes on to its provider, unless the key is shorter than 8 or longer than 100. */
  lemma FirstCallAsks(w: World, call: nat, r: Request)
    requires call !in w.calls
    requires forall id | id in w.book.deposits ::
               !(w.book.deposits[id].tenant == r.tenant && w.book.deposits[id].key == Identifiers.Strip(r.key))
    ensures Next(w, Ask(call, r)) == w.(calls := w.calls[call :=
              if 8 <= |Identifiers.Strip(r.key)| <= 100 then Asking(Keyed(r)) else Refused])
  {
  }

  /** An insert is refused for an empty invoice or names outside the policy. Otherwise it stores its deposit exactly
      when neither the key nor the invoice is taken; and with the key taken it is answered with the winner exactly when
      the invoices agree. */
  lemma InsertedExactlyWhen(w: World, call: nat, r: Request, id: nat, e: Evidence)
    requires Runs.Unique(w.book) && call in w.calls && w.calls[call] == Asking(r) && id !in w.book.deposits
    ensures var w' := Next(w, Insert(call, id, e));
            var fits := e.providerId != "" && Outcomes.NamesFit(D.Fresh(r, e), e);
            var free := forall x | x in w.book.deposits && w.book.deposits[x].tenant == r.tenant ::
                          && w.book.deposits[x].key != r.key
                          && !(w.book.deposits[x].provider == r.provider
                               && w.book.deposits[x].providerId == e.providerId);
            && call in w'.calls
            && (fits && free ==> w'.book == D.WithDeposit(w.book, id, D.Fresh(r, e))
                                 && w'.calls[call] == Answered(r, id))
            && (!(fits && free) ==> w'.book == w.book)
            && (!fits ==> w'.calls[call] == Refused)
            && (fits && !free ==>
                  && (forall x: nat | Holds(w.book, x, r) ::
                        w'.calls[call] == if w.book.deposits[x].providerId == e.providerId then Answered(r, x)
                                          else Refused)
                  && ((forall x: nat :: !Holds(w.book, x, r)) ==> w'.calls[call] == Refused))
  {
    Outcomes.AssessExactlyWhen(D.Fresh(r, e), e);
    forall x: nat | Holds(w.book, x, r)
      ensures Holder(w.book, r) == Option.Some(x)
    {
      HolderIsOnly(w.book, r, x);
    }
  }

  /* ---------- whose deposit an answer is ---------- */

  /** An answer holds the key of its request. */
  ghost predicate AnswersSound(w: World) {
    forall call | call in w.calls ::
      && (w.calls[call].Answered? ==> Holds(w.book, w.calls[call].id, w.calls[call].request))
      && (!w.calls[call].Refused? ==> 8 <= |w.calls[call].request.key| <= 100)
  }

  /** The call was answered with a deposit of another user or payment method. */
  ghost predicate Misled(w: World, call: nat) {
    && call in w.calls && w.calls[call].Answered? && w.calls[call].id in w.book.deposits
    && !Mine(w.book.deposits[w.calls[call].id], w.calls[call].request)
  }

  /** The call inserts after someone else's deposit took its key, and its provider gave it the same invoice. */
  ghost predicate LosesRace(w: World, s: Step, call: nat) {
    && s.Insert? && s.call == call && call in w.calls && w.calls[call].Asking? && s.id !in w.book.deposits
    && var r := w.calls[call].request;
       Admissible(r, s.evidence)
       && exists x ::
            && Holds(w.book, x, r) && w.book.deposits[x].providerId == s.evidence.providerId
            && !Mine(w.book.deposits[x], r)
  }

  lemma StepEvolves(w: World, s: Step)
    requires Runs.Inv(w.book)
    ensures Runs.Inv(Next(w, s).book) && Runs.AllEvolve(w.book, Next(w, s).book)
  {
    match s
    case Ask(_, _) =>
    case Insert(call, id, e) =>
      if Next(w, s) != w {
        Runs.CreateKeeps(w.book, id, w.calls[call].request, e);
      }
    case Other(event) =>
      if !event.Creation? {
        Runs.NextKeeps(w.book, event);
      }
  }

  lemma HolderIsOnly(book: Book, r: Request, x: nat)
    requires Runs.Unique(book) && Holds(book, x, r)
    ensures Holder(book, r) == Option.Some(x)
  {
    assert D.KeyTaken(book, r.tenant, r.key);
  }

  lemma InsertMisleads(w: World, call: nat, id: nat, e: Evidence)
    requires Runs.Unique(w.book) && call in w.calls && w.calls[call].Asking? && id !in w.book.deposits
    ensures Misled(Next(w, Insert(call, id, e)), call) <==> LosesRace(w, Insert(call, id, e), call)
    ensures var w' := Next(w, Insert(call, id, e));
            w'.calls[call].Answered? ==> Holds(w'.book, w'.calls[call].id, w.calls[call].request)
  {
    var r := w.calls[call].request;
    if x :| Holds(w.book, x, r) {
      HolderIsOnly(w.book, r, x);
    }
  }

  /** Answers keep what they hold while the book evolves. */
  lemma AnswersStay(w: World, w': World, call: nat)
    requires AnswersSound(w) && Runs.AllEvolve(w.book, w'.book)
    requires call in w.calls && call in w'.calls && w'.calls[call] == w.calls[call] && w.calls[call].Answered?
    ensures Holds(w'.book, w'.calls[call].id, w'.calls[call].request) && (Misled(w', call) <==> Misled(w, call))
  {
    assert Runs.Evolves(w.book.deposits[w.calls[call].id], w'.book.deposits[w.calls[call].id]);
  }

  /** What a call becomes at its own steps. */
  lemma OwnStep(w: World, s: Step, call: nat)
    requires Runs.Unique(w.book) && AnswersSound(w)
    requires call in Next(w, s).calls && (call in w.calls ==> Next(w, s).calls[call] != w.calls[call])
    ensures Misled(Next(w, s), call) <==> LosesRace(w, s, call)
    ensures call in w.calls ==> !w.calls[call].Answered?
    ensures var p := Next(w, s).calls[call];
            && (p.Answered? ==> Holds(Next(w, s).book, p.id, p.request))
               && (!p.Refused? ==> 8 <= |p.request.key| <= 100)
  {
    if s.Insert? {
      InsertMisleads(w, call, s.id, s.evidence);
    }
  }

  lemma NextMisleads(w: World, s: Step, call: nat)
    requires Runs.Inv(w.book) && AnswersSound(w)
    ensures AnswersSound(Next(w, s))
    ensures Misled(Next(w, s), call) <==> Misled(w, call) || LosesRace(w, s, call)
  {
    StepEvolves(w, s);
    var w' := Next(w, s);
    forall c | c in w'.calls
      ensures w'.calls[c].Answered? ==> Holds(w'.book, w'.calls[c].id, w'.calls[c].request)
      ensures !w'.calls[c].Refused? ==> 8 <= |w'.calls[c].request.key| <= 100
      ensures Misled(w', c) <==> Misled(w, c) || LosesRace(w, s, c)
    {
      if c !in w.calls || w'.calls[c] != w.calls[c] {
        OwnStep(w, s, c);
      } else if w.calls[c].Answered? {
        AnswersStay(w, w', c);
      }
    }
  }

  lemma {:induction false} RunKeeps(steps: seq<Step>)
    ensures Runs.Inv(Run(START, steps).book) && AnswersSound(Run(START, steps))
    decreases |steps|
  {
    if steps != [] {
      RunKeeps(steps[..|steps| - 1]);
      StepEvolves(Run(START, steps[..|steps| - 1]), steps[|steps| - 1]);
      NextMisleads(Run(START, steps[..|steps| - 1]), steps[|steps| - 1], 0);
    }
  }

  /** The call lost its race at step `n`. */
  ghost predicate LostAt(steps: seq<Step>, call: nat, n: int) {
    0 <= n < |steps| && LosesRace(Run(START, steps[..n]), steps[n], call)
  }

  lemma LostAtPrefix(steps: seq<Step>, call: nat, last: nat)
    requires last + 1 == |steps|
    ensures (exists n :: LostAt(steps, call, n)) <==> LostAt(steps, call, last) || exists n ::
              LostAt(steps[..last], call, n)
  {
    forall n | 0 <= n < last
      ensures LostAt(steps, call, n) == LostAt(steps[..last], call, n)
    {
      assert steps[..last][..n] == steps[..n];
    }
    if n :| LostAt(steps, call, n) && n < last {
      assert LostAt(steps[..last], call, n);
    }
    if n :| LostAt(steps[..last], call, n) {
      assert LostAt(steps, call, n);
    }
  }

  /** Over every interleaving of creations and reconciliations, an answer is another caller's deposit if and only if
      the call lost the race for its key to a deposit with the same invoice. */
  lemma {:induction false} MisledExactlyWhen(steps: seq<Step>, call: nat)
    ensures Misled(Run(START, steps), call) <==> exists n :: LostAt(steps, call, n)
    decreases |steps|
  {
    if steps != [] {
      var last := |steps| - 1;
      MisledExactlyWhen(steps[..last], call);
      RunKeeps(steps[..last]);
      NextMisleads(Run(START, steps[..last]), steps[last], call);
      LostAtPrefix(steps, call, last);
    }
  }

  /** Whatever happens, an answer is a deposit of the caller's tenant under the caller's key. */
  lemma AnswerHoldsKey(steps: seq<Step>, call: nat)
    requires var w := Run(START, steps); call in w.calls && w.calls[call].Answered?
    ensures var w := Run(START, steps);
            && w.calls[call].id in w.book.deposits
            && w.book.deposits[w.calls[call].id].tenant == w.calls[call].request.tenant
            && w.book.deposits[w.calls[call].id].key == w.calls[call].request.key
  {
    RunKeeps(steps);
  }

  /* ---------- keys that are not shared ---------- */

  /** Some call asked for exactly this tenant, key, user and payment method. */
  ghost predicate Asked(steps: seq<Step>, r: Request) {
    exists n | 0 <= n < |steps| :: steps[n].Ask? && SameCaller(Keyed(steps[n].request), r)
  }

  predicate SameCaller(a: Request, b: Request) {
    a.tenant == b.tenant && a.key == b.key && a.user == b.user && a.paymentMethod == b.paymentMethod
  }

  /** The caller of a deposit, as a request. */
  function CallerOf(d: D.Deposit): Request {
    D.Request(d.tenant, d.user, d.paymentMethod, d.provider, d.key, d.terms, d.fxPolicy)
  }

  ghost predicate Traced(w: World, steps: seq<Step>) {
    && (forall id | id in w.book.deposits :: Asked(steps, CallerOf(w.book.deposits[id])))
    && (forall call | call in w.calls && !w.calls[call].Refused? :: Asked(steps, w.calls[call].request))
  }

  lemma AskedGrows(steps: seq<Step>, last: nat, r: Request)
    requires last < |steps| && Asked(steps[..last], r)
    ensures Asked(steps, r)
  {
    var n :| 0 <= n < last && steps[..last][n].Ask? && SameCaller(Keyed(steps[..last][n].request), r);
    assert steps[n] == steps[..last][n];
  }

  lemma SameAsked(steps: seq<Step>, a: Request, b: Request)
    requires Asked(steps, a) && SameCaller(a, b)
    ensures Asked(steps, b)
  {
    var n :| 0 <= n < |steps| && steps[n].Ask? && SameCaller(Keyed(steps[n].request), a);
    assert SameCaller(Keyed(steps[n].request), b);
  }

  lemma {:induction false} RunIsTraced(steps: seq<Step>)
    ensures Traced(Run(START, steps), steps)
    decreases |steps|
  {
    if steps != [] {
      var last := |steps| - 1;
      var w, w' := Run(START, steps[..last]), Run(START, steps);
      RunIsTraced(steps[..last]);
      RunKeeps(steps[..last]);
      StepEvolves(w, steps[last]);
      forall id | id in w'.book.deposits
        ensures Asked(steps, CallerOf(w'.book.deposits[id]))
      {
        DepositIsTraced(w, steps, last, id);
      }
      forall call | call in w'.calls && !w'.calls[call].Refused?
        ensures Asked(steps, w'.calls[call].request)
      {
        CallIsTraced(w, steps, last, call);
      }
    }
  }

  lemma CallIsTraced(w: World, steps: seq<Step>, last: nat, call: nat)
    requires last < |steps| && Traced(w, steps[..last])
    requires call in Next(w, steps[last]).calls && !Next(w, steps[last]).calls[call].Refused?
    ensures Asked(steps, Next(w, steps[last]).calls[call].request)
  {
    if call in w.calls && !w.calls[call].Refused? {
      AskedGrows(steps, last, w.calls[call].request);
    } else {
      assert SameCaller(Keyed(steps[last].request), Next(w, steps[last]).calls[call].request);
    }
  }

  lemma DepositIsTraced(w: World, steps: seq<Step>, last: nat, id: nat)
    requires last < |steps| && Traced(w, steps[..last]) && Runs.AllEvolve(w.book, Next(w, steps[last]).book)
             && Runs.Inv(w.book)
    requires id in Next(w, steps[last]).book.deposits
    ensures Asked(steps, CallerOf(Next(w, steps[last]).book.deposits[id]))
  {
    var d := Next(w, steps[last]).book.deposits[id];
    if id in w.book.deposits {
      AskedGrows(steps, last, CallerOf(w.book.deposits[id]));
      SameAsked(steps, CallerOf(w.book.deposits[id]), CallerOf(d));
    } else {
      NewDeposit(w, steps[last], id);
      var r := w.calls[steps[last].call].request;
      AskedGrows(steps, last, r);
      SameAsked(steps, r, CallerOf(d));
    }
  }

  lemma NewDeposit(w: World, s: Step, id: nat)
    requires Runs.Inv(w.book) && id !in w.book.deposits && id in Next(w, s).book.deposits
    ensures s.Insert? && s.call in w.calls && w.calls[s.call].Asking?
    ensures Next(w, s).book.deposits[id] == D.Fresh(w.calls[s.call].request, s.evidence)
  {
    if s.Other? && !s.event.Creation? {
      Credits.NextTouches(w.book, s.event, id);
    }
  }

  /** Callers that share no key, up to blanks around it, always get their own deposit. */
  lemma {:induction false} UnsharedKeysNeverMislead(steps: seq<Step>, call: nat)
    requires forall m, n | 0 <= m < |steps| && 0 <= n < |steps| && steps[m].Ask? && steps[n].Ask?
                           && Keyed(steps[m].request).tenant == Keyed(steps[n].request).tenant
                           && Keyed(steps[m].request).key == Keyed(steps[n].request).key ::
               SameCaller(Keyed(steps[m].request), Keyed(steps[n].request))
    ensures !Misled(Run(START, steps), call)
  {
    RunIsTraced(steps);
    RunKeeps(steps);
    var w := Run(START, steps);
    if call in w.calls && w.calls[call].Answered? {
      var r, d := w.calls[call].request, w.book.deposits[w.calls[call].id];
      assert Holds(w.book, w.calls[call].id, r);
      var m :| 0 <= m < |steps| && steps[m].Ask? && SameCaller(Keyed(steps[m].request), r);
      assert Asked(steps, CallerOf(d));
      var n :| 0 <= n < |steps| && steps[n].Ask? && SameCaller(Keyed(steps[n].request), CallerOf(d));
    }
  }

  /* ---------- an example ---------- */

  const TERMS := D.Terms(true, D.AssetTarget, D.NetAfterFee, Option.None, {}, {})
  const INVOICE := D.Evidence("x", D.PENDING, Option.None, Option.None, Option.None, Option.None)

  function ByMethod(m: nat): Request { D.Request(1, 1, m, "p", "key-0001", TERMS, Option.None) }

  lemma KeyedSame(m: nat)
    ensures Keyed(ByMethod(m)) == ByMethod(m)
  {
    Identifiers.StripTrims("key-0001");
  }

  const ASKED := World(D.EMPTY, map[0 := Asking(ByMethod(1)), 1 := Asking(ByMethod(2))])

  lemma BothAsk()
    ensures Next(Next(START, Ask(0, ByMethod(1))), Ask(1, ByMethod(2))) == ASKED
  {
    KeyedSame(1);
    KeyedSame(2);
    assert Next(START, Ask(0, ByMethod(1))) == World(D.EMPTY, map[0 := Asking(ByMethod(1))]);
  }

  const CREATED := World(D.EMPTY.(deposits := map[0 := D.Fresh(ByMethod(1), INVOICE)]),
                         map[0 := Answered(ByMethod(1), 0), 1 := Asking(ByMethod(2))])

  lemma FirstInserts()
    ensures Next(ASKED, Insert(0, 0, INVOICE)) == CREATED
  {
    assert Admissible(ByMethod(1), INVOICE);
  }

  lemma SecondLoses()
    ensures LosesRace(CREATED, Insert(1, 1, INVOICE), 1)
  {
    assert Admissible(ByMethod(2), INVOICE);
    assert Holds(CREATED.book, 0, ByMethod(2));
  }

  /** Two calls with one key and different payment methods: the second gets the first one's deposit. */
  lemma SecondCallerIsMisled() returns (steps: seq<Step>)
    ensures Misled(Run(START, steps), 1)
  {
    steps := [Ask(0, ByMethod(1)), Ask(1, ByMethod(2)), Insert(0, 0, INVOICE), Insert(1, 1, INVOICE)];
    assert steps[..3][..2] == steps[..2] && steps[..2][..1] == steps[..1] && steps[..1][..0] == [];
    BothAsk();
    FirstInserts();
    SecondLoses();
    assert Run(START, steps[..1]) == Next(START, steps[0]);
    assert Run(START, steps[..2]) == ASKED;
    assert Run(START, steps[..3]) == CREATED;
    assert LostAt(steps, 1, 3);
    MisledExactlyWhen(steps, 1);
  }
}
