/** String helpers: suffix and substring tests, ASCII lower-casing, and the
    "first run of digits" number parser used on premium texts. */
module Text {
  import opened Wrappers

  predicate EndsWith(s: string, suffix: string) {
    |suffix| <= |s| && s[|s| - |suffix|..] == suffix
  }

  predicate StartsWith(s: string, prefix: string) {
    |prefix| <= |s| && s[..|prefix|] == prefix
  }

  /** Python's `sub in s`. */
  predicate Contains(s: string, sub: string)
    decreases |s|
  {
    StartsWith(s, sub) || (|s| > 0 && Contains(s[1..], sub))
  }

  lemma {:induction false} ContainsAt(s: string, sub: string, i: nat)
    requires i + |sub| <= |s| && s[i..i + |sub|] == sub
    ensures Contains(s, sub)
    decreases i
  {
    if i > 0 {
      assert s[1..][i - 1..i - 1 + |sub|] == sub;
      ContainsAt(s[1..], sub, i - 1);
    }
  }

  function LowerChar(c: char): char {
    if 'A' <= c <= 'Z' then (c as int + 32) as char else c
  }

  /** `str.lower()` restricted to ASCII letters. */
  function Lower(s: string): (r: string)
    ensures |r| == |s|
    ensures forall i :: 0 <= i < |s| ==> r[i] == LowerChar(s[i])
  {
    seq(|s|, i requires 0 <= i < |s| => LowerChar(s[i]))
  }

  lemma LowerIdempotent(s: string)
    ensures Lower(Lower(s)) == Lower(s)
  {
  }

  // ---------------------------------------------------------------------
  // Digits

  predicate IsDigit(c: char) {
    '0' <= c <= '9'
  }

  predicate AllDigits(s: string) {
    forall i :: 0 <= i < |s| ==> IsDigit(s[i])
  }

  predicate NoDigits(s: string) {
    forall i :: 0 <= i < |s| ==> !IsDigit(s[i])
  }

  function DigitChar(d: nat): (c: char)
    requires d < 10
    ensures IsDigit(c)
  {
    ('0' as int + d) as char
  }

  function DigitValue(c: char): (d: nat)
    requires IsDigit(c)
    ensures d < 10 && DigitChar(d) == c
  {
    c as int - '0' as int
  }

  /** The decimal numeral of `ds`, most significant digit first. */
  function DigitsValue(ds: string): nat
    requires AllDigits(ds)
  {
    if |ds| == 0 then 0 else DigitsValue(ds[..|ds| - 1]) * 10 + DigitValue(ds[|ds| - 1])
  }

  /** Python's `str(n)` for a non-negative integer. */
  function DecimalString(n: nat): (s: string)
    ensures |s| > 0 && AllDigits(s)
  {
    (if n < 10 then "" else DecimalString(n / 10)) + [DigitChar(n % 10)]
  }

  /** `s.replace(',', '')`. */
  function DropCommas(s: string): (r: string)
    ensures ',' !in r
    ensures |r| <= |s|
  {
    if |s| == 0 then ""
    else if s[0] == ',' then DropCommas(s[1..])
    else [s[0]] + DropCommas(s[1..])
  }

  /** What is left of `s` from its first digit on (empty when it has none). */
  function FromFirstDigit(s: string): (r: string)
    ensures |r| <= |s| && r == s[|s| - |r|..]
    ensures |r| > 0 ==> IsDigit(r[0])
    ensures NoDigits(s[..|s| - |r|])
  {
    if |s| == 0 || IsDigit(s[0]) then s else FromFirstDigit(s[1..])
  }

  /** The longest prefix of `s` made of digits. */
  function LeadingDigits(s: string): (r: string)
    ensures StartsWith(s, r) && AllDigits(r)
    ensures |r| < |s| ==> !IsDigit(s[|r|])
  {
    if |s| == 0 || !IsDigit(s[0]) then "" else [s[0]] + LeadingDigits(s[1..])
  }

  /** `re.findall(r'\d+', s.replace(',', ''))[0]` read as an integer, or None
      when the text holds no digit at all. */
  function FirstNumber(s: string): (r: Option<nat>)
    ensures r.None? <==> NoDigits(DropCommas(s))
  {
    var t := FromFirstDigit(DropCommas(s));
    if |t| == 0 then None else Some(DigitsValue(LeadingDigits(t)))
  }

  // ---------------------------------------------------------------------
  // Lemmas for the parser

  lemma {:induction false} DigitsValueOfDecimal(n: nat)
    ensures DigitsValue(DecimalString(n)) == n
  {
    var s := DecimalString(n);
    var last := DigitChar(n % 10);
    assert s[|s| - 1] == last;
    assert DigitValue(last) == n % 10;
    if n >= 10 {
      assert s[..|s| - 1] == DecimalString(n / 10);
      DigitsValueOfDecimal(n / 10);
      assert DigitsValue(s) == (n / 10) * 10 + n % 10;
    } else {
      assert s[..|s| - 1] == "";
    }
  }

  lemma {:induction false} DropCommasAppend(a: string, b: string)
    ensures DropCommas(a + b) == DropCommas(a) + DropCommas(b)
    decreases |a|
  {
    if |a| > 0 {
      assert (a + b)[1..] == a[1..] + b;
      DropCommasAppend(a[1..], b);
    } else {
      assert a + b == b;
    }
  }

  lemma {:induction false} DropCommasNoop(s: string)
    requires ',' !in s
    ensures DropCommas(s) == s
    decreases |s|
  {
    if |s| > 0 {
      assert ',' !in s[1..] by {
        forall i | 0 <= i < |s[1..]| ensures s[1..][i] != ',' {
          assert s[1..][i] == s[i + 1];
        }
      }
      DropCommasNoop(s[1..]);
    }
  }

  /** Commas are invisible to the parser. */
  lemma FirstNumberIgnoresCommas(s: string)
    ensures FirstNumber(s) == FirstNumber(DropCommas(s))
  {
    DropCommasNoop(DropCommas(s));
  }

  lemma {:induction false} FromFirstDigitSkips(pre: string, rest: string)
    requires NoDigits(pre)
    requires |rest| > 0 && IsDigit(rest[0])
    ensures FromFirstDigit(pre + rest) == rest
    decreases |pre|
  {
    if |pre| > 0 {
      assert (pre + rest)[1..] == pre[1..] + rest;
      FromFirstDigitSkips(pre[1..], rest);
    } else {
      assert pre + rest == rest;
    }
  }

  lemma {:induction false} LeadingDigitsStops(ds: string, post: string)
    requires AllDigits(ds)
    requires |post| == 0 || !IsDigit(post[0])
    ensures LeadingDigits(ds + post) == ds
    decreases |ds|
  {
    if |ds| > 0 {
      assert (ds + post)[1..] == ds[1..] + post;
      LeadingDigitsStops(ds[1..], post);
    } else {
      assert ds + post == post;
    }
  }

  /** Round trip: a numeral written between a digit-free, comma-free prefix and a
      comma-free suffix that does not continue the numeral parses back to itself. */
  lemma {:induction false} FirstNumberOfEmbedded(pre: string, n: nat, post: string)
    requires NoDigits(pre) && ',' !in pre && ',' !in post
    requires |post| == 0 || !IsDigit(post[0])
    ensures FirstNumber(pre + DecimalString(n) + post) == Some(n)
  {
    var ds := DecimalString(n);
    var s := pre + ds + post;
    assert ',' !in ds by {
      forall i | 0 <= i < |ds| ensures ds[i] != ',' {
        assert IsDigit(ds[i]);
      }
    }
    assert ',' !in s by {
      forall i | 0 <= i < |s| ensures s[i] != ',' {
        if i < |pre| { assert s[i] == pre[i]; }
        else if i < |pre| + |ds| { assert s[i] == ds[i - |pre|]; }
        else { assert s[i] == post[i - |pre| - |ds|]; }
      }
    }
    DropCommasNoop(s);
    assert s == pre + (ds + post);
    FromFirstDigitSkips(pre, ds + post);
    LeadingDigitsStops(ds, post);
    DigitsValueOfDecimal(n);
  }
}
