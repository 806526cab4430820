/** Memory ids, `{user_id}_{n}` or `mem_{n}` (tsm/memory.py `Memory._next_id`). */
module Ids {
  import opened Wrappers

  const DIGITS: string := "0123456789"

  /** `str(n)`. */
  function Decimal(n: nat): (s: string)
    ensures s != [] && '_' !in s
  {
    if n < 10 then [DIGITS[n]] else Decimal(n / 10) + [DIGITS[n % 10]]
  }

  function IdOf(user: Option<string>, n: nat): (id: string)
  {
    (if user.Some? && user.value != "" then user.value else "mem") + "_" + Decimal(n)
  }

  lemma {:induction false} DigitsDiffer(a: nat, b: nat)
    requires a < 10 && b < 10 && DIGITS[a] == DIGITS[b]
    ensures a == b
  {
  }

  lemma {:induction false} DecimalInjective(m: nat, n: nat)
    requires Decimal(m) == Decimal(n)
    ensures m == n
  {
    var a, b := Decimal(m), Decimal(n);
    assert a[|a| - 1] == DIGITS[m % 10] && b[|b| - 1] == DIGITS[n % 10];
    DigitsDiffer(m % 10, n % 10);
    if m >= 10 && n >= 10 {
      assert a[..|a| - 1] == Decimal(m / 10) && b[..|b| - 1] == Decimal(n / 10);
      DecimalInjective(m / 10, n / 10);
    }
  }

  /** Reading a string of digits. */
  function ValueOf(s: string): (n: int)
  {
    if s == [] then 0 else 10 * ValueOf(s[..|s| - 1]) + (s[|s| - 1] as int - '0' as int)
  }

  /** The number behind the last mark of an id is read back from it; no user, or an empty one, is `mem`. */
  lemma {:induction false} DecimalReads(n: nat)
    ensures ValueOf(Decimal(n)) == n
    ensures IdOf(None, n) == IdOf(Some(""), n) == "mem_" + Decimal(n)
  {
    var s := Decimal(n);
    DigitIs(n % 10);
    if n >= 10 {
      DecimalReads(n / 10);
      assert s[..|s| - 1] == Decimal(n / 10);
    } else {
      assert s[..|s| - 1] == [];
    }
    assert "mem" + "_" == "mem_";
  }

  lemma {:induction false} DigitIs(d: nat)
    requires d < 10
    ensures DIGITS[d] as int - '0' as int == d
  {
  }

  /** Two ids that are equal carry the same number, whoever the users are. */
  lemma {:induction false} IdsCarryNumber(u: Option<string>, v: Option<string>, m: nat, n: nat)
    requires IdOf(u, m) == IdOf(v, n)
    ensures m == n
  {
    hide Decimal;
    var s := IdOf(u, m);
    var a, b := Decimal(m), Decimal(n);
    SuffixAfterMark(s, a);
    SuffixAfterMark(s, b);
    SameTail(s, a, b);
    DecimalInjective(m, n);
  }

  /** Two mark-free suffixes that both follow a mark are one suffix. */
  lemma {:induction false} SameTail(s: string, a: string, b: string)
    requires |s| > |a| && s[|s| - |a| - 1] == '_' && s[|s| - |a|..] == a && '_' !in a
    requires |s| > |b| && s[|s| - |b| - 1] == '_' && s[|s| - |b|..] == b && '_' !in b
    ensures a == b
  {
    MarkIsOutside(s, a, |b|);
    MarkIsOutside(s, b, |a|);
  }

  lemma {:induction false} MarkIsOutside(s: string, a: string, k: nat)
    requires |s| > |a| && s[|s| - |a|..] == a && '_' !in a
    requires k < |s| && s[|s| - k - 1] == '_'
    ensures k >= |a|
  {
    forall j | |s| - |a| <= j < |s|
      ensures s[j] != '_'
    {
      assert s[|s| - |a|..][j - (|s| - |a|)] == s[j];
    }
  }

  lemma {:induction false} SuffixAfterMark(s: string, d: string)
    requires exists p: string :: s == p + "_" + d
    ensures |s| > |d| && s[|s| - |d| - 1] == '_' && s[|s| - |d|..] == d
  {
  }
}
