/** The status CREDITED without a credit: which evidence leads to it, over every run. */
module DepositClaims {
  import opened Common
  import opened Identifiers
  import opened Deposits
  import opened DepositRuns
  import opened DepositCredits
  import opened DepositOutcomes

  /** The deposit says CREDITED and is not. */
  predicate Claimed(book: Book, id: nat) {
    id in book.deposits && book.deposits[id].status == CREDITED && !book.deposits[id].credited
  }

  /* ---------- one step ---------- */

  /** The event carries evidence for a deposit that is open and not credited. */
  predicate Polls(book: Book, event: Event, id: nat) {
    && event.Reconciliation? && event.id == id && id in book.deposits && book.deposits[id].tenant == event.tenant
    && !Closed(book.deposits[id].status) && !book.deposits[id].credited
  }

  /** A creation that goes through. */
  predicate Creates(book: Book, event: Event, id: nat) {
    && event.Creation? && event.id == id && id !in book.deposits
    && var r, e := event.request, event.evidence;
       && e.providerId != "" && NamesFit(Fresh(r, e), e)
       && !KeyTaken(book, r.tenant, r.key) && !InvoiceTaken(book, r.tenant, r.provider, e.providerId)
  }

  /** The provider says CREDITED, and is believed. */
  predicate Claims(book: Book, event: Event, id: nat) {
    || (Creates(book, event, id) && event.evidence.status == CREDITED)
    || (&& Polls(book, event, id) && event.answer.Observed?
        && Accepts(book.deposits[id], event.answer.evidence) && event.answer.evidence.status == CREDITED)
  }

  /** The event leaves the deposit as it is: it is about another one, brings no answer, or is rolled back. */
  predicate Silent(book: Book, event: Event, id: nat) {
    || !Polls(book, event, id) || event.answer.Unavailable?
    || (&& event.answer.Observed? && event.answer.evidence.providerId == book.deposits[id].providerId
        && var e := event.answer.evidence;
           || !UsableNames(e)
           || (&& Accepts(book.deposits[id], e) && e.status == SETTLED_REVIEW
               && Unpayable(book, Observe(book.deposits[id], e).deposit)))
  }

  lemma SettleNeverClaims(book: Book, posted: Posted, id: nat)
    requires id in book.deposits && SettledExactly(book, posted, id)
    ensures posted.ending != RolledBack && book.deposits[id].status == SETTLED_REVIEW ==>
              !Claimed(Conclude(book, posted, id), id)
  {
  }

  /** An accepted observation that asks for settlement. */
  lemma ReviewClaims(book: Book, id: nat, e: Evidence)
    requires id in book.deposits && !book.deposits[id].credited && !Closed(book.deposits[id].status)
    requires Untouched(book, id) && Named(book.deposits[id]) && Accepts(book.deposits[id], e)
             && e.status == SETTLED_REVIEW
    ensures Claimed(Conclude(book, BeforeCredit(book, id, e), id), id)
            <==> Claimed(book, id) && Unpayable(book, Observe(book.deposits[id], e).deposit)
  {
    var d := book.deposits[id];
    ObservedExactly(d, e);
    ObserveShape(d, e);
    ObserveKeeps(d, e);
    var b1 := WithDeposit(book, id, Observe(d, e).deposit);
    ObservedUntouched(book, id, Observe(d, e).deposit);
    SettlesExactlyWhen(b1, id);
    SettleNeverClaims(b1, Settle(b1, id), id);
    SamePolicies(book, b1, Observe(d, e).deposit);
  }

  /** Any other observation. */
  lemma OtherObservationClaims(book: Book, id: nat, e: Evidence)
    requires id in book.deposits && !book.deposits[id].credited && e.providerId == book.deposits[id].providerId
    requires !(Accepts(book.deposits[id], e) && e.status == SETTLED_REVIEW)
    ensures Claimed(Conclude(book, BeforeCredit(book, id, e), id), id)
            <==> (Accepts(book.deposits[id], e) && e.status == CREDITED) || (Claimed(book, id) && !UsableNames(e))
  {
    ObservedExactly(book.deposits[id], e);
    ObserveShape(book.deposits[id], e);
  }

  lemma PollClaims(book: Book, event: Event, id: nat)
    requires Polls(book, event, id) && Untouched(book, id) && Named(book.deposits[id])
    ensures Claimed(Next(book, event), id)
            <==> Claims(book, event, id) || (Claimed(book, id) && Silent(book, event, id))
  {
    if event.answer.Observed? && event.answer.evidence.providerId == book.deposits[id].providerId {
      var e := event.answer.evidence;
      if Accepts(book.deposits[id], e) && e.status == SETTLED_REVIEW {
        ReviewClaims(book, id, e);
      } else {
        OtherObservationClaims(book, id, e);
      }
    }
  }

  lemma StepClaims(book: Book, event: Event, id: nat)
    requires Inv(book)
    ensures Claimed(Next(book, event), id)
            <==> Claims(book, event, id) || (Claimed(book, id) && Silent(book, event, id))
  {
    if Polls(book, event, id) {
      assert Coherent(book, id);
      PollClaims(book, event, id);
    } else {
      OtherClaims(book, event, id);
    }
  }

  lemma OtherClaims(book: Book, event: Event, id: nat)
    requires Inv(book) && !Polls(book, event, id)
    ensures Claimed(Next(book, event), id) <==> Claims(book, event, id) || Claimed(book, id)
  {
    if event.Creation? {
      CreationClaims(book, event, id);
    } else if event.Reconciliation? {
      assert event.id in book.deposits ==> Coherent(book, event.id) && Named(book.deposits[event.id]);
      ReconcileElsewhere(book, event.tenant, event.id, event.answer, id);
      if event.id == id && id in book.deposits && book.deposits[id].credited {
        NextKeeps(book, event);
      }
    }
  }

  lemma CreationClaims(book: Book, event: Event, id: nat)
    requires event.Creation?
    ensures Claimed(Next(book, event), id) <==> Claims(book, event, id) || Claimed(book, id)
  {
    ObservedExactly(Fresh(event.request, event.evidence), event.evidence);
  }

  /* ---------- every run ---------- */

  ghost predicate ClaimStep(events: seq<Event>, id: nat, n: int) {
    0 <= n < |events| && Claims(Run(EMPTY, events[..n]), events[n], id)
  }

  ghost predicate SilentStep(events: seq<Event>, id: nat, n: int) {
    0 <= n < |events| && Silent(Run(EMPTY, events[..n]), events[n], id)
  }

  /** Step `n` of the run made the claim and nothing since has touched the deposit. */
  ghost predicate ClaimedAt(events: seq<Event>, id: nat, n: int) {
    ClaimStep(events, id, n) && forall m | n < m < |events| :: SilentStep(events, id, m)
  }

  lemma StepsOfPrefix(events: seq<Event>, id: nat, last: nat, n: int)
    requires last < |events| && 0 <= n < last
    ensures ClaimStep(events[..last], id, n) == ClaimStep(events, id, n)
    ensures SilentStep(events[..last], id, n) == SilentStep(events, id, n)
  {
    assert events[..last][..n] == events[..n];
  }

  lemma ClaimedAtPrefix(events: seq<Event>, id: nat, last: nat, n: int)
    requires last + 1 == |events| && 0 <= n < last
    ensures ClaimedAt(events, id, n) <==> ClaimedAt(events[..last], id, n) && SilentStep(events, id, last)
  {
    StepsOfPrefix(events, id, last, n);
    forall m | n < m < last
      ensures SilentStep(events[..last], id, m) == SilentStep(events, id, m)
    {
      StepsOfPrefix(events, id, last, m);
    }
  }

  lemma ClaimedAtLast(events: seq<Event>, id: nat, last: nat)
    requires last + 1 == |events|
    ensures (exists n :: ClaimedAt(events, id, n)) <==>
            ClaimStep(events, id, last)
            || ((exists n :: ClaimedAt(events[..last], id, n)) && SilentStep(events, id, last))
  {
    if n :| ClaimedAt(events, id, n) && n < last {
      ClaimedAtPrefix(events, id, last, n);
    }
    if n :| ClaimedAt(events[..last], id, n) {
      ClaimedAtPrefix(events, id, last, n);
    }
    if ClaimStep(events, id, last) {
      assert ClaimedAt(events, id, last);
    }
  }

  /** At the end of every run a deposit says CREDITED without a credit if and only if its creation, or an accepted
      answer to a poll, had the provider say so, and every event since then left the deposit alone. */
  lemma {:induction false} ClaimedExactlyWhen(events: seq<Event>, id: nat)
    ensures Claimed(Run(EMPTY, events), id) <==> exists n :: ClaimedAt(events, id, n)
    decreases |events|
  {
    if events != [] {
      var last := |events| - 1;
      ClaimedAtLast(events, id, last);
      ClaimedExactlyWhen(events[..last], id);
      RunClaims(events, id, last);
    }
  }

  lemma RunClaims(events: seq<Event>, id: nat, last: nat)
    requires last + 1 == |events|
    ensures Claimed(Run(EMPTY, events), id) <==>
            ClaimStep(events, id, last) || (Claimed(Run(EMPTY, events[..last]), id) && SilentStep(events, id, last))
  {
    RunKeeps(events[..last]);
    StepClaims(Run(EMPTY, events[..last]), events[last], id);
  }

  /* ---------- examples ---------- */

  const TERMS := Terms(true, AssetTarget, NetAfterFee, Option.None, {}, {})
  const REQUEST := Request(1, 1, 1, "p", "key-0001", TERMS, Option.None)

  lemma OneLetterName(s: string, limit: nat)
    requires |s| == 1 && 'A' <= s[0] <= 'Z' && limit >= 1
    ensures Identifiers.Normal(s, limit) == Option.Some(s)
  {
    StripTrims(s);
    assert Upper(s) == s;
  }

  /** The provider says CREDITED when the deposit is created: nothing was received, nothing was credited. */
  lemma ClaimedAtCreation() returns (events: seq<Event>)
    ensures Claimed(Run(EMPTY, events), 0)
    ensures Run(EMPTY, events).deposits[0].received.None? && Run(EMPTY, events).assetRows == []
            && Run(EMPTY, events).rows == []
  {
    var e := Evidence("x", CREDITED, Option.None, Option.None, Option.None, Option.None);
    events := [Creation(0, REQUEST, e)];
    assert events[..0] == [];
    assert Creates(EMPTY, events[0], 0);
  }

  const CHEAP := Evidence("x", PENDING, Option.None, Option.None, Option.None, Option.Some(-5))
  const PAID := Evidence("x", SETTLED_REVIEW, Option.Some("A"), Option.Some("N"), Option.Some(10), Option.None)

  lemma CreatedCheap(events: seq<Event>)
    requires events == [Creation(0, REQUEST, CHEAP)]
    ensures Run(EMPTY, events) == WithDeposit(EMPTY, 0, Fresh(REQUEST, CHEAP))
  {
    assert events[..0] == [];
    assert Creates(EMPTY, events[0], 0);
    ObservedExactly(Fresh(REQUEST, CHEAP), CHEAP);
  }

  lemma SettledCheap(book: Book)
    requires 0 in book.deposits && AssetFor(book.assetRows, 0) == []
    requires book.deposits[0] == Fresh(REQUEST, CHEAP).(asset := Option.Some("A"), network := Option.Some("N"),
                                                        received := Option.Some(10), status := SETTLED_REVIEW)
    ensures var posted := Settle(book, 0);
            && posted.ending == Normal && 0 in posted.book.deposits && posted.book.deposits[0].credited
            && posted.book.deposits[0].received == Option.Some(10)
               && posted.book.deposits[0].creditedAmount == Option.Some(15)
  {
    OneLetterName("A", 24);
    OneLetterName("N", 64);
    PostAssetFacts(book, 0, AssetKey(1, 1, "A", "N"), 15);
  }

  lemma ObservedCheap()
    ensures var d := Fresh(REQUEST, CHEAP);
            Observe(d, PAID) == Applied(d.(asset := Option.Some("A"), network := Option.Some("N"),
                                           received := Option.Some(10),
                                           status := SETTLED_REVIEW), Normal)
  {
    OneLetterName("A", 24);
    OneLetterName("N", 64);
    ObservedExactly(Fresh(REQUEST, CHEAP), PAID);
  }

  /** A fee of minus five at creation: ten units received, fifteen credited. */
  lemma CreditedAboveReceived() returns (events: seq<Event>)
    ensures var book := Run(EMPTY, events);
            && 0 in book.deposits && book.deposits[0].credited && book.deposits[0].received == Option.Some(10)
            && book.deposits[0].creditedAmount == Option.Some(15)
  {
    var first := [Creation(0, REQUEST, CHEAP)];
    events := first + [Reconciliation(1, 0, Observed(PAID))];
    assert events[..1] == first;
    CreatedCheap(first);
    ObservedCheap();
    SettledCheap(WithDeposit(Run(EMPTY, first), 0, Observe(Fresh(REQUEST, CHEAP), PAID).deposit));
  }
}
