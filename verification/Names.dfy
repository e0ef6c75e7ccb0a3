/** Names of node pool instances (service/controller/key). */
module Names {
  import opened Common
  import opened Text

  /** Base 36, as the scale set numbers its machines; the id must be a decimal 64-bit number. */
  function InstanceIdBase36(id: string): Option<string> {
    var n := ParseUint(id, 10);
    if n.None? then None else Some(FormatUint(n.value, 36))
  }

  /** The string padded with zeros to a width. */
  function ZeroPad(s: string, width: nat): (r: string)
    ensures |r| == if |s| < width then width else |s|
    decreases if |s| < width then width - |s| else 0
  {
    if |s| < width then ZeroPad("0" + s, width) else s
  }

  /** None stands for the panic on an id that is not a number. */
  function NodePoolInstanceName(pool: string, id: string): Option<string> {
    var b36 := InstanceIdBase36(id);
    if b36.None? then None else Some("nodepool-" + pool + "-" + ZeroPad(b36.value, 6))
  }

  /** What the expression of a dash and six other characters at the end finds. */
  function Suffix(name: string): Option<string> {
    if |name| < 7 || name[|name| - 7] != '-' || '-' in name[|name| - 6..] then None
    else Some(name[|name| - 6..])
  }

  function InstanceIDFromNode(name: string): Option<string> {
    var suffix := Suffix(name);
    if suffix.None? then None else
    var n := ParseUint(suffix.value, 36);
    if n.None? then None else Some(FormatUint(n.value, 10))
  }

  lemma {:induction false} ZeroPadValue(s: string, width: nat)
    requires s != "" && Digits(s, 36)
    ensures var r := ZeroPad(s, width);
      && Value(r, 36) == Value(s, 36) && Digits(r, 36) && r != "" && ('-' in r ==> '-' in s)
      && (|s| >= width ==> r == s)
    decreases if |s| < width then width - |s| else 0
  {
    if |s| < width {
      LeadingZero(s, 36);
      ZeroPadValue("0" + s, width);
    }
  }

  /** Reading the id back from a name gives its canonical decimal exactly when it has at most six digits
      in base 36, and fails otherwise. */
  lemma InstanceNameRoundTrip(pool: string, id: string)
    requires ParseUint(id, 10).Some?
    ensures var n := ParseUint(id, 10).value; var name := NodePoolInstanceName(pool, id);
      && name.Some?
      && HasPrefix(name.value, "nodepool-" + pool + "-")
      && InstanceIDFromNode(name.value) == (if n < Power(36, 6) then Some(FormatUint(n, 10)) else None)
  {
    hide FormatUint, Value, Power, ZeroPad, Digits, ParseUint, Suffix;
    var n := ParseUint(id, 10).value;
    var b36 := FormatUint(n, 36);
    FormatIsNumeral(n, 36);
    FormatLength(n, 36, 6);
    ZeroPadValue(b36, 6);
    SuffixOfName("nodepool-" + pool + "-", ZeroPad(b36, 6), b36);
    if |b36| <= 6 { ParsedPadding(ZeroPad(b36, 6), n, id); }
    var p := "nodepool-" + pool + "-";
    assert (p + ZeroPad(b36, 6))[..|p|] == p;
  }

  lemma ParsedPadding(s: string, n: nat, id: string)
    requires s != "" && Digits(s, 36) && Value(s, 36) == n && ParseUint(id, 10) == Some(n)
    ensures ParseUint(s, 36) == Some(n)
  {
    hide Value, Digits;
  }

  /** Six padded digits are found behind the dash; more than six are not, as there is no dash before the last six. */
  lemma SuffixOfName(prefix: string, padded: string, digits: string)
    requires prefix != "" && prefix[|prefix| - 1] == '-' && Digits(digits, 36)
    requires |padded| == if |digits| < 6 then 6 else |digits|
    requires |digits| >= 6 ==> padded == digits
    requires '-' in padded ==> '-' in digits
    ensures Suffix(prefix + padded) == if |digits| <= 6 then Some(padded) else None
  {
    var name := prefix + padded;
    assert DigitValue('-') == 36;
    assert forall i :: 0 <= i < |digits| ==> digits[i] != '-';
    if |digits| <= 6 {
      assert name[|name| - 6..] == padded && name[|name| - 7] == '-';
    } else {
      assert name[|name| - 7] == padded[|padded| - 7];
    }
  }

  /** Within a pool, instances with different numbers have different names, however large the numbers. */
  lemma InstanceNameInjective(pool: string, a: string, b: string)
    requires ParseUint(a, 10).Some? && ParseUint(b, 10).Some?
    ensures NodePoolInstanceName(pool, a) == NodePoolInstanceName(pool, b) <==> ParseUint(a, 10) == ParseUint(b, 10)
  {
    var n, m := ParseUint(a, 10).value, ParseUint(b, 10).value;
    FormatIsNumeral(n, 36);
    FormatIsNumeral(m, 36);
    ZeroPadValue(FormatUint(n, 36), 6);
    ZeroPadValue(FormatUint(m, 36), 6);
    var p := "nodepool-" + pool + "-";
    var x, y := ZeroPad(FormatUint(n, 36), 6), ZeroPad(FormatUint(m, 36), 6);
    assert (p + x)[|p|..] == x && (p + y)[|p|..] == y;
  }
}
