/** The price decision: which rule and which supplier offer apply, and the marked-up, rounded price.
    Amounts are exact. */
module Pricing {
  import opened Common

  datatype Scope = ForVariant(variant: nat) | ForProduct(product: nat) | ForCategory(category: nat) | Global
  datatype Mode = PERCENT | FIXED | MIXED

  datatype Rule = Rule(id: nat, tenant: nat, scope: Scope, tier: Option<nat>, priority: int, active: bool,
                       mode: Mode, percent: real, fixed: real, margin: real, increment: real)

  datatype Offer = Offer(id: nat, tenant: nat, provider: nat, product: nat, variant: Option<nat>, cost: real,
                         currency: string,
                         available: bool, expiresAt: int)

  /** The variant being priced, with its catalog price. */
  datatype Variant = Variant(id: nat, product: nat, category: Option<nat>, price: real, currency: string)

  datatype Context = Context(tenant: nat, variant: Variant, tier: Option<nat>, now: int)

  /* ---------- selection ---------- */

  predicate InScope(s: Scope, v: Variant) {
    match s
    case ForVariant(id) => id == v.id
    case ForProduct(id) => id == v.product
    case ForCategory(id) => v.category == Some(id)
    case Global => true
  }

  predicate Applies(r: Rule, c: Context) {
    r.tenant == c.tenant && r.active && (r.tier == c.tier || r.tier.None?) && InScope(r.scope, c.variant)
  }

  function Specificity(s: Scope): int {
    match s
    case ForVariant(_) => 0
    case ForProduct(_) => 1
    case ForCategory(_) => 2
    case Global => 3
  }

  function TierRank(r: Rule): int { if r.tier.None? then 1 else 0 }

  /** `a` comes before `b`: the narrower scope, then a tier of its own, then priority, then id. */
  predicate RuleBefore(a: Rule, b: Rule) {
    var sa, sb := Specificity(a.scope), Specificity(b.scope);
    || sa < sb
    || (sa == sb && (|| TierRank(a) < TierRank(b)
                     || (TierRank(a) == TierRank(b)
                         && (a.priority < b.priority || (a.priority == b.priority && a.id < b.id)))))
  }

  /** The first applicable rule in that order; earlier rows win ties. */
  function ResolveRule(rules: seq<Rule>, c: Context): (r: Option<Rule>)
    ensures r.Some? ==> r.value in rules && Applies(r.value, c)
    ensures r.None? ==> forall i | 0 <= i < |rules| :: !Applies(rules[i], c)
    ensures r.Some? ==> forall i | 0 <= i < |rules| && Applies(rules[i], c) :: !RuleBefore(rules[i], r.value)
  {
    if rules == [] then None
    else
      var best, last := ResolveRule(rules[..|rules| - 1], c), rules[|rules| - 1];
      if !Applies(last, c) then best
      else if best.None? || RuleBefore(last, best.value) then Some(last)
      else best
  }

  predicate Fresh(o: Offer, c: Context) {
    && o.tenant == c.tenant && o.product == c.variant.product && (o.variant.None? || o.variant == Some(c.variant.id))
    && o.available && o.expiresAt > c.now && o.currency == c.variant.currency
  }

  predicate OfferBefore(a: Offer, b: Offer) {
    a.cost < b.cost || (a.cost == b.cost && a.provider < b.provider)
  }

  function BestOffer(offers: seq<Offer>, c: Context): (r: Option<Offer>)
    ensures r.Some? ==> r.value in offers && Fresh(r.value, c)
    ensures r.None? ==> forall i | 0 <= i < |offers| :: !Fresh(offers[i], c)
    ensures r.Some? ==> forall i | 0 <= i < |offers| && Fresh(offers[i], c) :: r.value.cost <= offers[i].cost
  {
    if offers == [] then None
    else
      var best, last := BestOffer(offers[..|offers| - 1], c), offers[|offers| - 1];
      if !Fresh(last, c) then best
      else if best.None? || OfferBefore(last, best.value) then Some(last)
      else best
  }

  /* ---------- arithmetic ---------- */

  function Ceiling(x: real): (n: int)
    ensures n as real >= x > n as real - 1.0
  {
    -((-x).Floor)
  }

  function RoundUp(value: real, increment: real): real
    requires increment > 0.0
  {
    Ceiling(value / increment) as real * increment
  }

  function MarkedUp(cost: real, r: Rule): real {
    match r.mode
    case PERCENT => cost + cost * (r.percent / 100.0)
    case FIXED => cost + r.fixed
    case MIXED => cost + cost * (r.percent / 100.0) + r.fixed
  }

  function Target(cost: real, r: Rule): real {
    if MarkedUp(cost, r) < cost + r.margin then cost + r.margin else MarkedUp(cost, r)
  }

  /** The price a rule gives; `None` is a value error. */
  function ApplyRule(cost: real, r: Rule): Option<real> {
    if cost < 0.0 || r.increment <= 0.0 then None else Some(RoundUp(Target(cost, r), r.increment))
  }

  /** The decided price: the rule's, or the catalog's when there is no rule or no offer. */
  function Decide(rules: seq<Rule>, offers: seq<Offer>, c: Context): Option<real> {
    var rule, offer := ResolveRule(rules, c), BestOffer(offers, c);
    if rule.None? || offer.None? then Some(c.variant.price) else ApplyRule(offer.value.cost, rule.value)
  }

  /* ---------- rows in any order ---------- */

  ghost predicate SameRows<T(!new)>(a: seq<T>, b: seq<T>) {
    forall x :: x in a <==> x in b
  }

  ghost predicate UniqueIds(rules: seq<Rule>) {
    forall i, j | 0 <= i < |rules| && 0 <= j < |rules| && rules[i].id == rules[j].id :: rules[i] == rules[j]
  }

  lemma ResolveOrderFree(a: seq<Rule>, b: seq<Rule>, c: Context)
    requires SameRows(a, b) && UniqueIds(a)
    ensures ResolveRule(a, c) == ResolveRule(b, c)
  {
  }

  lemma BestCostOrderFree(a: seq<Offer>, b: seq<Offer>, c: Context)
    requires SameRows(a, b)
    ensures BestOffer(a, c).Some? <==> BestOffer(b, c).Some?
    ensures BestOffer(a, c).Some? ==> BestOffer(a, c).value.cost == BestOffer(b, c).value.cost
  {
  }

  /** The decided price depends on which rules and offers there are, not on the order of their rows. */
  lemma {:induction false} PriceIsOrderFree(rules: seq<Rule>, rules': seq<Rule>, offers: seq<Offer>,
                                            offers': seq<Offer>, c: Context)
    requires SameRows(rules, rules') && UniqueIds(rules) && SameRows(offers, offers')
    ensures Decide(rules, offers, c) == Decide(rules', offers', c)
  {
    ResolveOrderFree(rules, rules', c);
    BestCostOrderFree(offers, offers', c);
  }

  /* ---------- the price ---------- */

  function Multiple(n: int, increment: real): real { n as real * increment }

  ghost predicate MultipleOf(x: real, increment: real) {
    exists n: int :: x == Multiple(n, increment)
  }

  lemma DivideTimes(value: real, increment: real)
    requires increment > 0.0
    ensures (value / increment) * increment == value
  {
  }

  lemma TimesMonotone(a: real, b: real, c: real)
    requires a <= b && c >= 0.0
    ensures a * c <= b * c
  {
  }

  /** A multiple below the rounded number of increments does not reach the value. */
  lemma Below(value: real, increment: real, n: int)
    requires increment > 0.0 && n < Ceiling(value / increment)
    ensures Multiple(n, increment) < value
  {
    var gap := value / increment - n as real;
    DivideTimes(value, increment);
    assert gap > 0.0;
    assert gap * increment > 0.0;
    assert gap * increment == value - Multiple(n, increment);
  }

  lemma RoundUpIsLeast(value: real, increment: real, n: int)
    requires increment > 0.0
    ensures RoundUp(value, increment) >= value
    ensures Multiple(n, increment) >= value ==> RoundUp(value, increment) <= Multiple(n, increment)
  {
    var k := Ceiling(value / increment);
    DivideTimes(value, increment);
    TimesMonotone(value / increment, k as real, increment);
    if n >= k {
      TimesMonotone(k as real, n as real, increment);
    } else {
      Below(value, increment, n);
    }
  }

  /** A price covers the cost with the rule's margin, and with its markup: the percentage of the cost unless the mode is
      FIXED, and the fixed amount unless it is PERCENT. */
  predicate Covers(price: real, cost: real, r: Rule) {
    && price >= cost + r.margin
    && price >= cost + (if r.mode == FIXED then 0.0 else cost * (r.percent / 100.0))
                + (if r.mode == PERCENT then 0.0 else r.fixed)
  }

  lemma TargetCovers(price: real, cost: real, r: Rule)
    ensures Covers(price, cost, r) <==> price >= Target(cost, r)
  {
  }

  /** A rule's price is the least multiple of its increment that covers the cost, the margin and the markup. */
  lemma PriceIsLeastMultiple(cost: real, r: Rule)
    ensures ApplyRule(cost, r).Some? <==> cost >= 0.0 && r.increment > 0.0
    ensures ApplyRule(cost, r).Some? ==>
              var p := ApplyRule(cost, r).value;
              && MultipleOf(p, r.increment) && Covers(p, cost, r)
              && forall q | MultipleOf(q, r.increment) && Covers(q, cost, r) :: p <= q
  {
    if cost >= 0.0 && r.increment > 0.0 {
      var p := ApplyRule(cost, r).value;
      RoundUpIsLeast(Target(cost, r), r.increment, 0);
      TargetCovers(p, cost, r);
      assert p == Multiple(Ceiling(Target(cost, r) / r.increment), r.increment);
      forall q | MultipleOf(q, r.increment) && Covers(q, cost, r)
        ensures p <= q
      {
        TargetCovers(q, cost, r);
        var n: int :| q == Multiple(n, r.increment);
        RoundUpIsLeast(Target(cost, r), r.increment, n);
      }
    }
  }

  /* ---------- which rule and which offer ---------- */

  /** The rule is the tenant's, switched on, for every tier or this one, and for this variant, its product, its category
      or everything. */
  predicate Eligible(r: Rule, c: Context) {
    && r.tenant == c.tenant && r.active && (r.tier.None? || r.tier == c.tier)
    && (r.scope.ForVariant? ==> r.scope.variant == c.variant.id)
    && (r.scope.ForProduct? ==> r.scope.product == c.variant.product)
    && (r.scope.ForCategory? ==> c.variant.category == Some(r.scope.category))
  }

  /** Not behind the other: the scope is at least as narrow; in one scope, a rule for a tier goes before one for all;
      and then the lower priority number, and then the lower id. */
  predicate Leads(r: Rule, other: Rule) {
    && (other.scope.ForVariant? ==> r.scope.ForVariant?)
    && (other.scope.ForProduct? ==> r.scope.ForVariant? || r.scope.ForProduct?)
    && (other.scope.ForCategory? ==> !r.scope.Global?)
    && (SameKind(r.scope, other.scope) ==>
          && (other.tier.Some? ==> r.tier.Some?)
          && (r.tier.Some? == other.tier.Some? ==>
                r.priority < other.priority || (r.priority == other.priority && r.id <= other.id)))
  }

  predicate SameKind(a: Scope, b: Scope) {
    a.ForVariant? == b.ForVariant? && a.ForProduct? == b.ForProduct? && a.ForCategory? == b.ForCategory?
  }

  lemma LeadsExactly(a: Rule, b: Rule)
    ensures Leads(a, b) <==> !RuleBefore(b, a)
  {
  }

  /** The rule used leads every eligible rule; none is used exactly when none is eligible. */
  lemma RuleChosen(rules: seq<Rule>, c: Context)
    ensures var r := ResolveRule(rules, c);
            && (r.None? <==> forall i | 0 <= i < |rules| :: !Eligible(rules[i], c))
            && (r.Some? ==> r.value in rules && Eligible(r.value, c)
                            && forall i | 0 <= i < |rules| && Eligible(rules[i], c) :: Leads(r.value, rules[i]))
  {
    var r := ResolveRule(rules, c);
    forall i | 0 <= i < |rules|
      ensures Eligible(rules[i], c) <==> Applies(rules[i], c)
      ensures r.Some? ==> (Leads(r.value, rules[i]) <==> !RuleBefore(rules[i], r.value))
    {
      if r.Some? {
        LeadsExactly(r.value, rules[i]);
      }
    }
  }

  /** The offer is the tenant's, available, not expired, in the variant's currency, and for its product as a whole or
      for this variant. */
  predicate Usable(o: Offer, c: Context) {
    && o.tenant == c.tenant && o.available && c.now < o.expiresAt && o.currency == c.variant.currency
    && o.product == c.variant.product && (o.variant.Some? ==> o.variant.value == c.variant.id)
  }

  /** The price is the catalog's exactly when no rule is eligible or no offer usable, and otherwise the rule that leads
      applied to the cheapest usable cost. */
  lemma DecidedExactly(rules: seq<Rule>, offers: seq<Offer>, c: Context)
    ensures (forall i | 0 <= i < |rules| :: !Eligible(rules[i], c))
            || (forall i | 0 <= i < |offers| :: !Usable(offers[i], c)) ==>
              Decide(rules, offers, c) == Some(c.variant.price)
    ensures forall i, j | 0 <= i < |rules| && 0 <= j < |offers| && Chosen(rules, offers, c, i, j) ::
              Decide(rules, offers, c) == ApplyRule(offers[j].cost, rules[i])
  {
    RuleChosen(rules, c);
    OfferChosen(offers, c);
    forall i, j | 0 <= i < |rules| && 0 <= j < |offers| && Chosen(rules, offers, c, i, j)
      ensures Decide(rules, offers, c) == ApplyRule(offers[j].cost, rules[i])
    {
      var r := ResolveRule(rules, c).value;
      LeadsExactly(r, rules[i]);
      LeadsExactly(rules[i], r);
      var k :| 0 <= k < |rules| && rules[k] == r;
      assert Leads(rules[i], rules[k]);
    }
  }

  /** Rule `i` leads every eligible rule, of which none other has its id, and offer `j` is a cheapest usable one. */
  ghost predicate Chosen(rules: seq<Rule>, offers: seq<Offer>, c: Context, i: nat, j: nat)
    requires i < |rules| && j < |offers|
  {
    && UniqueIds(rules) && Eligible(rules[i], c) && Usable(offers[j], c)
    && (forall k | 0 <= k < |rules| && Eligible(rules[k], c) :: Leads(rules[i], rules[k]))
    && (forall k | 0 <= k < |offers| && Usable(offers[k], c) :: offers[j].cost <= offers[k].cost)
  }

  lemma OfferChosen(offers: seq<Offer>, c: Context)
    ensures var o := BestOffer(offers, c);
            && (o.None? <==> forall i | 0 <= i < |offers| :: !Usable(offers[i], c))
            && (o.Some? ==> o.value in offers && Usable(o.value, c)
                            && forall i | 0 <= i < |offers| && Usable(offers[i], c) :: o.value.cost <= offers[i].cost)
  {
    assert forall o | o in offers :: Usable(o, c) <==> Fresh(o, c);
    assert forall i | 0 <= i < |offers| :: Usable(offers[i], c) <==> Fresh(offers[i], c);
  }

  lemma RoundUpMonotone(a: real, b: real, increment: real)
    requires increment > 0.0 && a <= b
    ensures RoundUp(a, increment) <= RoundUp(b, increment)
  {
    RoundUpIsLeast(b, increment, 0);
    RoundUpIsLeast(a, increment, Ceiling(b / increment));
  }

  lemma TargetMonotone(a: real, b: real, r: Rule)
    requires 0.0 <= a <= b && r.percent >= -100.0
    ensures Target(a, r) <= Target(b, r)
  {
    var factor := 1.0 + r.percent / 100.0;
    TimesMonotone(a, b, factor);
    assert a * factor == a + a * (r.percent / 100.0);
    assert b * factor == b + b * (r.percent / 100.0);
    assert MarkedUp(a, r) <= MarkedUp(b, r);
  }

  /** A dearer supplier never makes a lower price, as long as the percentage takes away at most all of the cost. */
  lemma PriceGrowsWithCost(a: real, b: real, r: Rule)
    requires 0.0 <= a <= b && r.increment > 0.0 && r.percent >= -100.0
    ensures ApplyRule(a, r).value <= ApplyRule(b, r).value
  {
    TargetMonotone(a, b, r);
    RoundUpMonotone(Target(a, r), Target(b, r), r.increment);
  }
}
