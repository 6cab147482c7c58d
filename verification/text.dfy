/** String operations the product code relies on: Python's substring test
    `t in s`, decimal formatting of an integer inside an f-string, and
    `s.split('@')[0]`. */
module Text {

  /** `t` occurs in `s` starting at index `i`. */
  ghost predicate OccursAt(s: string, t: string, i: int) {
    0 <= i && i + |t| <= |s| && s[i..i + |t|] == t
  }

  /** Python's `t in s` for two strings (the empty string occurs everywhere).
      A string never contains a longer one, and contains each of its suffixes. */
  predicate Contains(s: string, t: string)
    ensures Contains(s, t) ==> |t| <= |s|
    ensures |t| <= |s| && s[|s| - |t|..] == t ==> Contains(s, t)
    decreases |s|
  {
    if t <= s then true
    else if |s| == 0 then false
    else
      assert |t| < |s| && s[|s| - |t|..] == t ==> s[1..][|s| - 1 - |t|..] == t;
      Contains(s[1..], t)
  }

  /** A positional occurrence is found by the scan. */
  lemma {:induction false} OccursAtContains(s: string, t: string, i: int)
    requires OccursAt(s, t, i)
    ensures Contains(s, t)
    decreases i
  {
    if i == 0 {
      assert s[..|t|] == t;
    } else {
      assert s[1..][i - 1..i - 1 + |t|] == s[i..i + |t|];
      OccursAtContains(s[1..], t, i - 1);
    }
  }

  /** The scanning definition of `Contains` agrees with the positional one. */
  lemma {:induction false} ContainsIff(s: string, t: string)
    ensures Contains(s, t) <==> exists i :: OccursAt(s, t, i)
    decreases |s|
  {
    if exists i :: OccursAt(s, t, i) {
      var i :| OccursAt(s, t, i);
      OccursAtContains(s, t, i);
    }
    if Contains(s, t) {
      if t <= s {
        assert s[0..|t|] == t;
        assert OccursAt(s, t, 0);
      } else {
        ContainsIff(s[1..], t);
        var i :| OccursAt(s[1..], t, i);
        assert s[1..][i..i + |t|] == s[i + 1..i + 1 + |t|];
        assert OccursAt(s, t, i + 1);
      }
    }
  }

  /** The middle part of a concatenation is recovered by slicing. */
  lemma SliceOfConcat(a: string, b: string, c: string)
    ensures (a + b + c)[|a|..|a| + |b|] == b
  {
  }

  /** The character for a decimal digit. */
  function DigitChar(d: nat): (c: char)
    requires d < 10
    ensures '0' <= c <= '9' && (c as int) - ('0' as int) == d
  {
    "0123456789"[d]
  }

  /** Python's `str(n)` (and `f"{n}"`) for a non-negative integer. */
  function NatToString(n: nat): (s: string)
    ensures |s| >= 1
    ensures forall i :: 0 <= i < |s| ==> '0' <= s[i] <= '9'
    ensures |s| == 1 <==> n < 10
    ensures n >= 10 ==> s[0] != '0'
    decreases n
  {
    if n < 10 then [DigitChar(n)] else NatToString(n / 10) + [DigitChar(n % 10)]
  }

  /** Reads back a string of decimal digits (Python's `int(s)` on digits). */
  function ParseDigits(s: string): int
    decreases |s|
  {
    if s == [] then 0
    else 10 * ParseDigits(s[..|s| - 1]) + ((s[|s| - 1] as int) - ('0' as int))
  }

  /** Formatting a dimension into a message loses nothing: it reads back. */
  lemma {:induction false} NatToStringRoundTrip(n: nat)
    ensures ParseDigits(NatToString(n)) == n
    decreases n
  {
    if n >= 10 {
      var p := NatToString(n / 10);
      var s := p + [DigitChar(n % 10)];
      assert s[..|s| - 1] == p;
      NatToStringRoundTrip(n / 10);
    }
  }

  /** Python's `email.split('@')[0]`: the text before the first '@', or the
      whole string when it has no '@'. */
  function LocalPart(email: string): (p: string)
    ensures p <= email
    ensures '@' !in p
    ensures |p| < |email| ==> email[|p|] == '@'
    decreases |email|
  {
    if email == [] || email[0] == '@' then [] else [email[0]] + LocalPart(email[1..])
  }

  /** An address with an '@' is its local part, the first '@', and the rest. */
  lemma LocalPartSplits(email: string)
    requires '@' in email
    ensures |LocalPart(email)| < |email|
    ensures email == LocalPart(email) + "@" + email[|LocalPart(email)| + 1..]
  {
    var name := LocalPart(email);
    assert email == email[..|name|] + [email[|name|]] + email[|name| + 1..];
  }
}
