/** What a checkout asks for: the merged cart and the canonical request that its hash stands for. */
module CheckoutRequests {
  import opened Common
  import Identifiers

  datatype Line = Line(variant: nat, quantity: int)

  datatype Raw = Raw(lines: seq<Line>, recipient: string, coupon: Option<string>, key: Option<string>)

  /** How many of `variant` the lines ask for. */
  function Quantity(lines: seq<Line>, variant: nat): int
    decreases |lines|
  {
    if lines == [] then 0
    else
      var last := lines[|lines| - 1];
      Quantity(lines[..|lines| - 1], variant) + if last.variant == variant then last.quantity else 0
  }

  predicate Asks(lines: seq<Line>, variant: nat) {
    exists i | 0 <= i < |lines| :: lines[i].variant == variant
  }

  predicate AllPositive(lines: seq<Line>) {
    forall i | 0 <= i < |lines| :: lines[i].quantity > 0
  }

  /** `cart` holds exactly the variants asked for, each with its quantity summed over the lines. */
  ghost predicate Merges(lines: seq<Line>, cart: map<nat, int>) {
    && (forall v: nat | v in cart :: Asks(lines, v) && cart[v] == Quantity(lines, v))
    && (forall i | 0 <= i < |lines| :: lines[i].variant in cart)
  }

  lemma QuantityAppend(lines: seq<Line>, line: Line, v: nat)
    ensures Quantity(lines + [line], v) == Quantity(lines, v) + if line.variant == v then line.quantity else 0
  {
  }

  lemma {:induction false} NotAskedIsZero(lines: seq<Line>, v: nat)
    requires !Asks(lines, v)
    ensures Quantity(lines, v) == 0
    decreases |lines|
  {
    if lines != [] {
      var front := lines[..|lines| - 1];
      assert lines[|lines| - 1].variant != v;
      assert forall i | 0 <= i < |front| :: front[i] == lines[i];
      NotAskedIsZero(front, v);
    }
  }

  lemma MergeOne(lines: seq<Line>, n: nat, cart: map<nat, int>)
    requires n < |lines| && Merges(lines[..n], cart)
    ensures var line := lines[n];
            Merges(lines[..n + 1], cart[line.variant := (if line.variant in cart then cart[line.variant] else 0)
                                        + line.quantity])
  {
    var line := lines[n];
    var cart' := cart[line.variant := (if line.variant in cart then cart[line.variant] else 0) + line.quantity];
    assert lines[..n + 1] == lines[..n] + [line];
    assert lines[..n + 1][n] == line;
    forall v: nat | v in cart'
      ensures Asks(lines[..n + 1], v) && cart'[v] == Quantity(lines[..n + 1], v)
    {
      QuantityAppend(lines[..n], line, v);
      if v in cart {
        var i :| 0 <= i < n && lines[..n][i].variant == v;
        assert lines[..n + 1][i].variant == v;
      } else {
        assert !Asks(lines[..n], v);
        NotAskedIsZero(lines[..n], v);
      }
    }
    forall i {:trigger lines[..n + 1][i]} | 0 <= i < n + 1
      ensures lines[..n + 1][i].variant in cart'
    {
      assert i < n ==> lines[..n][i] == lines[..n + 1][i];
    }
  }

  /** Merges the lines of a cart; `None` when a quantity is not positive. */
  method MergeCart(lines: seq<Line>) returns (cart: Option<map<nat, int>>)
    ensures cart.Some? <==> AllPositive(lines)
    ensures cart.Some? ==> Merges(lines, cart.value)
  {
    var quantities: map<nat, int> := map[];
    for n := 0 to |lines|
      invariant AllPositive(lines[..n]) && Merges(lines[..n], quantities)
    {
      var line := lines[n];
      if line.quantity <= 0 {
        return None;
      }
      MergeOne(lines, n, quantities);
      quantities := quantities[line.variant := (if line.variant in quantities then quantities[line.variant] else 0)
                               + line.quantity];
    }
    assert lines[..|lines|] == lines;
    return Some(quantities);
  }

  /** A cart is determined by its lines. */
  lemma MergedOnce(lines: seq<Line>, a: map<nat, int>, b: map<nat, int>)
    requires Merges(lines, a) && Merges(lines, b)
    ensures a == b
  {
  }

  /* ---------- order and splitting of lines do not matter ---------- */

  lemma {:induction false} QuantityConcat(a: seq<Line>, b: seq<Line>, v: nat)
    ensures Quantity(a + b, v) == Quantity(a, v) + Quantity(b, v)
    decreases |b|
  {
    if b == [] {
      assert a + b == a;
    } else {
      var n := |b| - 1;
      QuantityConcat(a, b[..n], v);
      QuantityAppend(a + b[..n], b[n], v);
      QuantityAppend(b[..n], b[n], v);
      assert a + b == (a + b[..n]) + [b[n]] && b == b[..n] + [b[n]];
    }
  }

  lemma {:induction false} QuantityPermuted(a: seq<Line>, b: seq<Line>, v: nat)
    requires multiset(a) == multiset(b)
    ensures Quantity(a, v) == Quantity(b, v)
    decreases |a|
  {
    if a == [] {
      assert |b| == |multiset(b)| == 0;
    } else {
      var last := a[|a| - 1];
      var front := a[..|a| - 1];
      assert a == front + [last];
      assert last in multiset(b);
      var i :| 0 <= i < |b| && b[i] == last;
      var rest := b[..i] + b[i + 1..];
      assert b == b[..i] + [last] + b[i + 1..];
      assert multiset(front) == multiset(a) - multiset{last} == multiset(b) - multiset{last} == multiset(rest);
      QuantityPermuted(front, rest, v);
      QuantityAppend(front, last, v);
      QuantityConcat(b[..i], b[i + 1..], v);
      QuantityConcat(b[..i] + [last], b[i + 1..], v);
      QuantityAppend(b[..i], last, v);
    }
  }

  lemma AsksPermuted(a: seq<Line>, b: seq<Line>, v: nat)
    requires multiset(a) == multiset(b)
    ensures Asks(a, v) ==> Asks(b, v)
  {
    if Asks(a, v) {
      var i :| 0 <= i < |a| && a[i].variant == v;
      assert a[i] in multiset(b);
      var j :| 0 <= j < |b| && b[j] == a[i];
    }
  }

  /** Reordering lines leaves the cart as it is. */
  lemma MergePermuted(a: seq<Line>, b: seq<Line>, cart: map<nat, int>)
    requires multiset(a) == multiset(b) && Merges(a, cart)
    ensures Merges(b, cart)
  {
    forall v: nat | v in cart
      ensures Asks(b, v) && cart[v] == Quantity(b, v)
    {
      AsksPermuted(a, b, v);
      QuantityPermuted(a, b, v);
    }
    forall i | 0 <= i < |b|
      ensures b[i].variant in cart
    {
      assert b[i] in multiset(a);
      var j :| 0 <= j < |a| && a[j] == b[i];
    }
  }

  /** Splitting a line in two leaves the cart as it is. */
  lemma MergeSplit(before: seq<Line>, v: nat, p: int, q: int, after: seq<Line>, cart: map<nat, int>)
    requires Merges(before + [Line(v, p + q)] + after, cart)
    ensures Merges(before + [Line(v, p), Line(v, q)] + after, cart)
  {
    var a, b := before + [Line(v, p + q)] + after, before + [Line(v, p), Line(v, q)] + after;
    assert a[|before|].variant == v;
    forall u: nat | u in cart
      ensures Asks(b, u) && cart[u] == Quantity(b, u)
    {
      QuantityConcat(before + [Line(v, p + q)], after, u);
      QuantityConcat(before + [Line(v, p), Line(v, q)], after, u);
      QuantityAppend(before, Line(v, p + q), u);
      QuantityAppend(before, Line(v, p), u);
      QuantityAppend(before + [Line(v, p)], Line(v, q), u);
      assert before + [Line(v, p), Line(v, q)] == before + [Line(v, p)] + [Line(v, q)];
      var i :| 0 <= i < |a| && a[i].variant == u;
      assert b[if i <= |before| then i else i + 1].variant == u;
    }
    forall i | 0 <= i < |b|
      ensures b[i].variant in cart
    {
      assert i <= |before| + 1 || b[i] == a[i - 1];
      assert i < |before| ==> b[i] == a[i];
    }
  }

  /* ---------- the canonical request ---------- */

  /** What is hashed: items sorted by variant, the trimmed recipient, and the coupon if there is one. */
  datatype Payload = Payload(items: seq<(nat, int)>, recipient: string, coupon: Option<string>)

  predicate IsLeast(s: set<nat>, m: nat) {
    m in s && forall x | x in s :: m <= x
  }

  function Least(s: set<nat>): (m: nat)
    requires s != {}
    ensures IsLeast(s, m)
  {
    LeastIsThere(s);
    var m :| IsLeast(s, m);
    m
  }

  lemma {:induction false} LeastExists(s: set<nat>) returns (m: nat)
    requires s != {}
    ensures IsLeast(s, m)
    decreases |s|
  {
    var picked :| picked in s;
    var rest := s - {picked};
    m := picked;
    if rest != {} {
      var least := LeastExists(rest);
      m := if least < picked then least else picked;
    }
    forall x | x in s
      ensures m <= x
    {
      assert x == picked || x in rest;
    }
  }

  lemma LeastIsThere(s: set<nat>)
    requires s != {}
    ensures exists m :: IsLeast(s, m)
  {
    var m := LeastExists(s);
  }

  function SortedItems(cart: map<nat, int>, keys: set<nat>): (r: seq<(nat, int)>)
    requires keys <= cart.Keys
    ensures forall i | 0 <= i < |r| :: r[i].0 in keys && r[i].1 == cart[r[i].0]
    ensures forall k | k in keys :: (k, cart[k]) in r
    ensures forall i, j | 0 <= i < j < |r| :: r[i].0 < r[j].0
    decreases |keys|
  {
    if keys == {} then []
    else
      var k := Least(keys);
      [(k, cart[k])] + SortedItems(cart, keys - {k})
  }

  /** A blank coupon is no coupon. */
  function CanonicalCoupon(coupon: Option<string>): Option<string> {
    if coupon.None? then None
    else
      var t := Identifiers.Upper(Identifiers.Strip(coupon.value));
      if t == "" then None else Some(t)
  }

  function Canonical(cart: map<nat, int>, recipient: string, coupon: Option<string>): Payload {
    Payload(SortedItems(cart, cart.Keys), Identifiers.Strip(recipient), CanonicalCoupon(coupon))
  }

  /** The sorted items stand for their cart. */
  lemma {:induction false} SortedItemsInjective(a: map<nat, int>, b: map<nat, int>)
    requires SortedItems(a, a.Keys) == SortedItems(b, b.Keys)
    ensures a == b
  {
    var items := SortedItems(a, a.Keys);
    forall k | k in a
      ensures k in b && b[k] == a[k]
    {
      assert (k, a[k]) in items;
    }
    forall k | k in b
      ensures k in a
    {
      assert (k, b[k]) in items;
    }
  }

  /** The lines ask for the same variants in the same quantities. */
  ghost predicate SameLines(a: seq<Line>, b: seq<Line>) {
    forall v: nat :: Quantity(a, v) == Quantity(b, v) && (Asks(a, v) <==> Asks(b, v))
  }

  lemma CartKeys(lines: seq<Line>, cart: map<nat, int>, v: nat)
    requires Merges(lines, cart)
    ensures v in cart <==> Asks(lines, v)
    ensures Quantity(lines, v) == if v in cart then cart[v] else 0
  {
    if !Asks(lines, v) {
      NotAskedIsZero(lines, v);
    }
  }

  lemma SameCartExactlyWhen(a: seq<Line>, b: seq<Line>, cartA: map<nat, int>, cartB: map<nat, int>)
    requires Merges(a, cartA) && Merges(b, cartB)
    ensures cartA == cartB <==> SameLines(a, b)
  {
    forall v: nat
      ensures v in cartA <==> Asks(a, v)
      ensures v in cartB <==> Asks(b, v)
      ensures Quantity(a, v) == if v in cartA then cartA[v] else 0
      ensures Quantity(b, v) == if v in cartB then cartB[v] else 0
    {
      CartKeys(a, cartA, v);
      CartKeys(b, cartB, v);
    }
    if SameLines(a, b) {
      assert cartA.Keys == cartB.Keys;
    }
  }

  /** Two requests are taken for the same exactly when their merged carts, trimmed recipients and
      upper-cased coupons agree. */
  lemma {:induction false} SameRequestExactlyWhen(a: Raw, b: Raw, cartA: map<nat, int>, cartB: map<nat, int>)
    requires Merges(a.lines, cartA) && Merges(b.lines, cartB)
    ensures Canonical(cartA, a.recipient, a.coupon) == Canonical(cartB, b.recipient, b.coupon) <==>
            && SameLines(a.lines, b.lines)
            && Identifiers.Strip(a.recipient) == Identifiers.Strip(b.recipient)
            && CanonicalCoupon(a.coupon) == CanonicalCoupon(b.coupon)
  {
    SameCartExactlyWhen(a.lines, b.lines, cartA, cartB);
    if SortedItems(cartA, cartA.Keys) == SortedItems(cartB, cartB.Keys) {
      SortedItemsInjective(cartA, cartB);
    }
  }
}
