/** Numbers in a base and lists in a string: the forms of strconv.FormatUint, strconv.ParseUint,
    strings.Split and strings.Join that names, labels and CIDR ranges are made of. */
module Text {
  import opened Common

  const UINT64: nat := 0x1_0000_0000_0000_0000

  // ---------------------------------------------------------------- digits

  function DigitChar(d: nat): char
    requires d < 36
  {
    if d < 10 then '0' + d as char else 'a' + (d - 10) as char
  }

  /** The value of a digit, in either case; 36 for any other character. */
  function DigitValue(c: char): (d: nat)
    ensures d <= 36
  {
    if '0' <= c <= '9' then (c - '0') as nat
    else if 'a' <= c <= 'z' then (c - 'a') as nat + 10
    else if 'A' <= c <= 'Z' then (c - 'A') as nat + 10
    else 36
  }

  predicate Digits(s: string, b: nat) {
    forall i :: 0 <= i < |s| ==> DigitValue(s[i]) < b
  }

  function Value(s: string, b: nat): nat {
    if s == "" then 0 else Value(s[..|s| - 1], b) * b + DigitValue(s[|s| - 1])
  }

  function FormatUint(n: nat, b: nat): string
    requires 2 <= b <= 36
    decreases n
  {
    if n < b then [DigitChar(n)] else
    Smaller(n, b);
    FormatUint(n / b, b) + [DigitChar(n % b)]
  }

  /** Fails on the empty string, on a character that is no digit and beyond 64 bits. */
  function ParseUint(s: string, b: nat): Option<nat> {
    if s == "" || !Digits(s, b) || Value(s, b) >= UINT64 then None else Some(Value(s, b))
  }

  lemma Smaller(n: nat, b: nat)
    requires 2 <= b <= n
    ensures 0 < n / b < n
  {
    DivMod(n, b);
  }

  lemma DigitRoundTrip(d: nat)
    requires d < 36
    ensures DigitValue(DigitChar(d)) == d
  {}

  lemma AppendDigit(s: string, c: char, b: nat)
    ensures Value(s + [c], b) == Value(s, b) * b + DigitValue(c)
    ensures Digits(s, b) && DigitValue(c) < b ==> Digits(s + [c], b)
  {
    assert (s + [c])[..|s|] == s;
    hide DigitValue;
  }

  lemma DivMod(n: nat, b: nat)
    requires 2 <= b
    ensures n == n / b * b + n % b && n % b < b
  {}

  /** One digit more. */
  lemma NumeralStep(s: string, n: nat, b: nat)
    requires 2 <= b <= 36 && Digits(s, b) && Value(s, b) == n / b
    ensures var r := s + [DigitChar(n % b)]; Digits(r, b) && Value(r, b) == n
  {
    hide Value, Digits, DigitChar, DigitValue;
    DigitRoundTrip(n % b);
    AppendDigit(s, DigitChar(n % b), b);
    DivMod(n, b);
  }

  lemma OneDigit(n: nat, b: nat)
    requires 2 <= b <= 36 && n < b
    ensures var s := [DigitChar(n)]; Digits(s, b) && Value(s, b) == n
  {
    DigitRoundTrip(n);
    AppendDigit("", DigitChar(n), b);
    assert "" + [DigitChar(n)] == [DigitChar(n)];
    assert Value("", b) * b == 0;
    hide DigitValue, DigitChar;
  }

  /** The numeral of a number is made of digits of the base and has the number as its value. */
  lemma {:induction false} FormatIsNumeral(n: nat, b: nat)
    requires 2 <= b <= 36
    ensures var s := FormatUint(n, b); s != "" && Digits(s, b) && Value(s, b) == n
    decreases n
  {
    hide DigitValue, DigitChar, Value, Digits, Power;
    if n < b {
      OneDigit(n, b);
    } else {
      Smaller(n, b);
      FormatIsNumeral(n / b, b);
      NumeralStep(FormatUint(n / b, b), n, b);
    }
  }

  lemma {:induction false} NoLeadingZero(n: nat, b: nat)
    requires 2 <= b <= 36 && 0 < n
    ensures var s := FormatUint(n, b); s != "" && s[0] != '0'
    decreases n
  {
    if n >= b {
      Smaller(n, b);
      NoLeadingZero(n / b, b);
    }
  }

  lemma {:induction false} LeadingZero(s: string, b: nat)
    ensures Value("0" + s, b) == Value(s, b)
  {
    if s == "" {
      assert "0"[..0] == "";
      assert Value("", b) * b == 0;
    } else {
      LeadingZero(s[..|s| - 1], b);
      assert ("0" + s)[..|s|] == "0" + s[..|s| - 1];
    }
  }

  function Power(b: nat, k: nat): nat {
    if k == 0 then 1 else b * Power(b, k - 1)
  }

  /** A numeral is as long as its number is large. */
  lemma {:induction false} FormatLength(n: nat, b: nat, k: nat)
    requires 2 <= b <= 36 && 0 < k
    ensures |FormatUint(n, b)| <= k <==> n < Power(b, k)
  {
    if n < b {
      AtLeastBase(b, k);
    } else if k == 1 {
      assert Power(b, 1) == b * Power(b, 0) == b;
      Smaller(n, b);
      FormatIsNumeral(n / b, b);
    } else {
      Smaller(n, b);
      FormatLength(n / b, b, k - 1);
      DivBelow(n, b, Power(b, k - 1));
    }
  }

  lemma {:induction false} AtLeastBase(b: nat, k: nat)
    requires 2 <= b && 0 < k
    ensures b <= Power(b, k)
  {
    if k == 1 {
      assert Power(b, 0) == 1;
    } else {
      AtLeastBase(b, k - 1);
      assert b * Power(b, k - 1) >= b * 1;
    }
  }

  lemma DivBelow(n: nat, b: nat, p: nat)
    requires 2 <= b
    ensures n / b < p <==> n < b * p
  {
    assert n == n / b * b + n % b;
    if n / b < p {
      assert n / b + 1 <= p;
      assert (n / b + 1) * b <= p * b;
    } else {
      assert n / b * b >= p * b;
    }
  }

  /** Formatting is injective and parsing undoes it, up to 64 bits. */
  lemma UintRoundTrip(n: nat, b: nat)
    requires 2 <= b <= 36 && n < UINT64
    ensures ParseUint(FormatUint(n, b), b) == Some(n)
  {
    FormatIsNumeral(n, b);
  }

  // ---------------------------------------------------------------- lists in a string

  function IndexOf(s: string, c: char): (i: nat)
    ensures i <= |s| && (i < |s| ==> s[i] == c) && forall j :: 0 <= j < i ==> s[j] != c
  {
    if s == "" || s[0] == c then 0 else 1 + IndexOf(s[1..], c)
  }

  /** The parts between the separators; there is always at least one. */
  function Split(s: string, c: char): (r: seq<string>)
    ensures r != []
    decreases |s|
  {
    var i := IndexOf(s, c);
    if i == |s| then [s] else [s[..i]] + Split(s[i + 1..], c)
  }

  function Join(parts: seq<string>, c: char): string {
    if parts == [] then ""
    else if |parts| == 1 then parts[0]
    else parts[0] + [c] + Join(parts[1..], c)
  }

  lemma {:induction false} JoinSplit(s: string, c: char)
    ensures Join(Split(s, c), c) == s
    ensures forall p <- Split(s, c) :: c !in p
    decreases |s|
  {
    var i := IndexOf(s, c);
    if i < |s| {
      JoinSplit(s[i + 1..], c);
      assert Split(s, c)[1..] == Split(s[i + 1..], c);
      assert s == s[..i] + [c] + s[i + 1..];
    }
  }

  lemma {:induction false} SplitJoin(parts: seq<string>, c: char)
    requires parts != [] && forall p <- parts :: c !in p
    ensures Split(Join(parts, c), c) == parts
  {
    if |parts| > 1 {
      SplitJoin(parts[1..], c);
      SplitPrefix(parts[0], Join(parts[1..], c), c);
    } else {
      NoSeparator(parts[0], c);
    }
  }

  lemma NoSeparator(s: string, c: char)
    requires c !in s
    ensures Split(s, c) == [s]
  {
    assert forall j :: 0 <= j < |s| ==> s[j] in s;
  }

  lemma FirstIndex(s: string, c: char, n: nat)
    requires n < |s| && s[n] == c && forall j :: 0 <= j < n ==> s[j] != c
    ensures IndexOf(s, c) == n
  {}

  lemma SplitPrefix(a: string, rest: string, c: char)
    requires c !in a
    ensures Split(a + [c] + rest, c) == [a] + Split(rest, c)
  {
    var s := a + [c] + rest;
    forall j | 0 <= j < |a| ensures s[j] != c {
      assert s[j] == a[j];
    }
    hide IndexOf;
    FirstIndex(s, c, |a|);
    assert s[..|a|] == a && s[|a| + 1..] == rest;
  }
}
