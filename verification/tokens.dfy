/** The source of unique tokens behind component identifiers. The exporter
    asks a process-wide generator for a fresh token each time it anchors a
    component; here the generator is a counter handed in by the caller, and a
    token is written in decimal. All that matters downstream is that distinct
    tokens give distinct identifiers, which IdentifierInjective proves. */
module Tokens {

  const IdentifierPrefix: string := "component-"

  function Digit(d: nat): (ch: char)
    requires d < 10
    ensures '0' <= ch <= '9'
  {
    (48 + d) as char
  }

  /** The decimal spelling of n, most significant digit first. */
  function Decimal(n: nat): (s: string)
    ensures |s| >= 1
    ensures n < 10 <==> |s| == 1
    ensures forall i :: 0 <= i < |s| ==> '0' <= s[i] <= '9'
  {
    if n < 10 then [Digit(n)] else Decimal(n / 10) + [Digit(n % 10)]
  }

  /** Different numbers have different decimal spellings. */
  lemma {:induction false} DecimalInjective(m: nat, n: nat)
    requires Decimal(m) == Decimal(n)
    ensures m == n
  {
    if m >= 10 && n >= 10 {
      var sm, sn := Decimal(m), Decimal(n);
      assert Decimal(m / 10) == sm[..|sm| - 1];
      assert Decimal(n / 10) == sn[..|sn| - 1];
      DecimalInjective(m / 10, n / 10);
      assert Digit(m % 10) == sm[|sm| - 1] == sn[|sn| - 1] == Digit(n % 10);
    }
  }

  /** The identifier given to the target of an anchor: "component-" followed
      by the token. */
  function Identifier(token: nat): (id: string)
    ensures |id| > |IdentifierPrefix|
    ensures id[..|IdentifierPrefix|] == IdentifierPrefix
    ensures id[|IdentifierPrefix|..] == Decimal(token)
  {
    IdentifierPrefix + Decimal(token)
  }

  /** Distinct tokens never collide as identifiers. */
  lemma IdentifierInjective(a: nat, b: nat)
    requires Identifier(a) == Identifier(b)
    ensures a == b
  {
    assert Decimal(a) == Identifier(a)[|IdentifierPrefix|..];
    DecimalInjective(a, b);
  }

  /** The contrapositive, in the form callers use it. */
  lemma IdentifiersDistinct(a: nat, b: nat)
    requires a != b
    ensures Identifier(a) != Identifier(b)
  {
    if Identifier(a) == Identifier(b) {
      IdentifierInjective(a, b);
    }
  }
}
