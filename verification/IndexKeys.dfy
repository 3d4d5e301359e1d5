/** Keys made of a name, a `#` and an index in decimal. */
module IndexKeys {

  function Digits(n: nat): string {
    var last := ["0123456789"[n % 10]];
    if n < 10 then last else Digits(n / 10) + last
  }

  function Keyed(name: string, index: nat): string {
    name + "#" + Digits(index)
  }

  lemma {:induction false} DigitsOnly(n: nat)
    ensures |Digits(n)| > 0 && forall i :: 0 <= i < |Digits(n)| ==> Digits(n)[i] in "0123456789"
  {
    if n >= 10 {
      DigitsOnly(n / 10);
    }
  }

  lemma {:induction false} DigitsInjective(a: nat, b: nat)
    requires Digits(a) == Digits(b)
    ensures a == b
  {
    DigitsOnly(a / 10);
    DigitsOnly(b / 10);
    assert Digits(a)[|Digits(a)| - 1] == "0123456789"[a % 10];
    assert Digits(b)[|Digits(b)| - 1] == "0123456789"[b % 10];
    if a >= 10 && b >= 10 {
      assert Digits(a / 10) == Digits(a)[..|Digits(a)| - 1] == Digits(b)[..|Digits(b)| - 1] == Digits(b / 10);
      DigitsInjective(a / 10, b / 10);
    }
  }

  /** The position of the last `#`; the length of the text when there is none. */
  function LastHash(s: string): nat {
    if s == "" then 0
    else if s[|s| - 1] == '#' then |s| - 1
    else
      var at := LastHash(s[..|s| - 1]);
      if at == |s| - 1 then |s| else at
  }

  lemma {:induction false} LastHashBeforeDigits(a: string, digits: string)
    requires forall i :: 0 <= i < |digits| ==> digits[i] in "0123456789"
    ensures LastHash(a + "#" + digits) == |a|
  {
    var s := a + "#" + digits;
    if digits == "" {
      assert s[|s| - 1] == '#';
    } else {
      var init := digits[..|digits| - 1];
      assert s[..|s| - 1] == a + "#" + init;
      assert s[|s| - 1] == digits[|digits| - 1];
      LastHashBeforeDigits(a, init);
    }
  }

  /** Different positions never share a key, whatever characters the names contain. */
  lemma KeysDistinct(a: string, i: nat, b: string, j: nat)
    requires Keyed(a, i) == Keyed(b, j)
    ensures a == b && i == j
  {
    var key := Keyed(a, i);
    DigitsOnly(i);
    DigitsOnly(j);
    LastHashBeforeDigits(a, Digits(i));
    LastHashBeforeDigits(b, Digits(j));
    assert a == key[..|a|] && b == key[..|b|];
    assert Digits(i) == key[|a| + 1..] && Digits(j) == key[|b| + 1..];
    DigitsInjective(i, j);
  }
}
