/** The identifiers the writer synthesises: the prefix "FB2E" followed by the
    decimal form of the counter. */
module Ids {

  const Prefix := "FB2E"

  function DigitChar(d: nat): char
    requires d < 10
  {
    (d + '0' as int) as char
  }

  /** Decimal digits of `n`, most significant first, no leading zeros. */
  function Decimal(n: nat): (s: string)
    ensures |s| >= 1
    ensures forall i :: 0 <= i < |s| ==> '0' <= s[i] <= '9'
  {
    if n < 10 then [DigitChar(n)] else Decimal(n / 10) + [DigitChar(n % 10)]
  }

  /** Reads a string of decimal digits back as a number. */
  function ParseDecimal(s: string): nat
    requires forall i :: 0 <= i < |s| ==> '0' <= s[i] <= '9'
  {
    if s == [] then 0
    else ParseDecimal(s[..|s| - 1]) * 10 + (s[|s| - 1] as int - '0' as int)
  }

  lemma {:induction false} DecimalRoundTrip(n: nat)
    ensures ParseDecimal(Decimal(n)) == n
  {
    if n >= 10 {
      var s := Decimal(n);
      assert s[..|s| - 1] == Decimal(n / 10);
      DecimalRoundTrip(n / 10);
    }
  }

  /** The id produced by the `n`-th call of the writer's id generator. */
  function IdOf(n: nat): string {
    Prefix + Decimal(n)
  }

  lemma IdOfInjective(a: nat, b: nat)
    ensures IdOf(a) == IdOf(b) <==> a == b
  {
    if IdOf(a) == IdOf(b) {
      assert Decimal(a) == IdOf(a)[|Prefix|..];
      assert Decimal(b) == IdOf(b)[|Prefix|..];
      DecimalRoundTrip(a);
      DecimalRoundTrip(b);
    }
  }

  /** The ids a writer has handed out after `n` calls, in order. */
  function IdsUpTo(n: nat): (ids: seq<string>)
    ensures |ids| == n
  {
    if n == 0 then [] else IdsUpTo(n - 1) + [IdOf(n)]
  }

  lemma {:induction false} IdsUpToAt(n: nat, i: nat)
    requires i < n
    ensures IdsUpTo(n)[i] == IdOf(i + 1)
  {
    if i < n - 1 { IdsUpToAt(n - 1, i); }
  }

  /** No two calls of the generator return the same id. */
  lemma IdsDistinct(n: nat)
    ensures forall i, j :: 0 <= i < j < n ==> IdsUpTo(n)[i] != IdsUpTo(n)[j]
  {
    forall i, j | 0 <= i < j < n ensures IdsUpTo(n)[i] != IdsUpTo(n)[j] {
      IdsUpToAt(n, i);
      IdsUpToAt(n, j);
      IdOfInjective(i + 1, j + 1);
    }
  }

  /** The next id is not among those already handed out. */
  lemma NextIdFresh(n: nat)
    ensures IdOf(n + 1) !in IdsUpTo(n)
  {
    forall i | 0 <= i < n ensures IdsUpTo(n)[i] != IdOf(n + 1) {
      IdsUpToAt(n, i);
      IdOfInjective(i + 1, n + 1);
    }
  }
}
