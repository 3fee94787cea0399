/** Trimming and upper-casing of identifiers, over the ASCII letters and blanks. */
module Identifiers {
  import opened Common

  predicate IsBlank(c: char) {
    c == ' ' || c == '\t' || c == '\n' || c == '\r'
  }

  function UpperChar(c: char): char {
    if 'a' <= c <= 'z' then (c as int - 32) as char else c
  }

  function Upper(s: string): (r: string)
    ensures |r| == |s| && forall i | 0 <= i < |s| :: r[i] == UpperChar(s[i])
  {
    seq(|s|, i requires 0 <= i < |s| => UpperChar(s[i]))
  }

  function Strip(s: string): string {
    if s == "" then ""
    else if IsBlank(s[0]) then Strip(s[1..])
    else if IsBlank(s[|s| - 1]) then Strip(s[..|s| - 1])
    else s
  }

  /** Nothing left to trim. */
  predicate Trimmed(s: string) {
    s != "" ==> !IsBlank(s[0]) && !IsBlank(s[|s| - 1])
  }

  lemma {:induction false} StripTrims(s: string)
    ensures Trimmed(Strip(s))
    ensures Trimmed(s) ==> Strip(s) == s
    decreases |s|
  {
    if s != "" && IsBlank(s[0]) {
      StripTrims(s[1..]);
    } else if s != "" && IsBlank(s[|s| - 1]) {
      StripTrims(s[..|s| - 1]);
    }
  }

  /** Trimming drops blanks at both ends and nothing else. */
  lemma {:induction false} StripOnlyBlanks(s: string) returns (a: nat, b: nat)
    ensures a <= b <= |s| && Strip(s) == s[a..b]
    ensures forall i | 0 <= i < a || b <= i < |s| :: IsBlank(s[i])
    decreases |s|
  {
    a, b := 0, |s|;
    if s != "" && IsBlank(s[0]) {
      a, b := StripOnlyBlanks(s[1..]);
      a, b := a + 1, b + 1;
    } else if s != "" && IsBlank(s[|s| - 1]) {
      a, b := StripOnlyBlanks(s[..|s| - 1]);
    }
  }

  lemma StripEmpty(s: string)
    ensures Strip(s) == "" <==> forall i | 0 <= i < |s| :: IsBlank(s[i])
  {
    var a, b := StripOnlyBlanks(s);
    StripTrims(s);
    if Strip(s) != "" {
      assert !IsBlank(s[a]);
    }
  }

  /** The canonical form of an identifier of at most `limit` characters; `None` is a value error. */
  function Normal(s: string, limit: nat): (r: Option<string>)
    ensures r.Some? ==> 1 <= |r.value| <= limit
  {
    var t := Upper(Strip(s));
    if t == "" || |t| > limit then None else Some(t)
  }

  /** A canonical identifier is its own canonical form. */
  lemma NormalIsFixed(s: string, limit: nat)
    ensures Normal(s, limit).Some? ==> Normal(Normal(s, limit).value, limit) == Normal(s, limit)
  {
    var t := Upper(Strip(s));
    StripTrims(s);
    assert Trimmed(t);
    StripTrims(t);
    assert Upper(t) == t;
  }
}
