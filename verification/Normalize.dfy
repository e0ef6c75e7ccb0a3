/** Normalisation to DNS label names (pkg/normalize).

    `lower` and `digit` are the Unicode tables the program uses for lower case and for decimal digits. */
module Normalize {
  const MAX_LABEL: nat := 63

  datatype Tables = Tables(lower: char -> char, digit: char -> bool)

  predicate Letter(x: char) { 'a' <= x <= 'z' }

  predicate Allowed(x: char, t: Tables) { x == '-' || t.digit(x) || Letter(x) }

  /** Lower case letters, digits and the dash are in lower case already; the dash is no digit. */
  ghost predicate Sound(t: Tables) {
    (forall x :: Allowed(x, t) ==> t.lower(x) == x) && !t.digit('-')
  }

  function Lower(v: string, t: Tables): (r: string)
    ensures |r| == |v| && forall i :: 0 <= i < |v| ==> r[i] == t.lower(v[i])
  {
    seq(|v|, i requires 0 <= i < |v| => t.lower(v[i]))
  }

  /** Runs of other characters become one dash, except at the start and after a dash. */
  function Collapse(v: string, t: Tables): string {
    if v == "" then "" else
    var xs, x := Collapse(v[..|v| - 1], t), v[|v| - 1];
    if Allowed(x, t) then xs + [x]
    else if xs != "" && xs[|xs| - 1] != '-' then xs + ['-']
    else xs
  }

  function Trim(xs: string): string {
    if xs == "" then ""
    else if xs[0] == '-' then Trim(xs[1..])
    else if xs[|xs| - 1] == '-' then Trim(xs[..|xs| - 1])
    else xs
  }

  function Truncate(xs: string): string {
    if |xs| > MAX_LABEL then xs[..MAX_LABEL] else xs
  }

  function LabelName(v: string, t: Tables): string {
    Truncate(Trim(Collapse(Lower(v, t), t)))
  }

  method AsDNSLabelName(v: string, t: Tables) returns (xs: string)
    ensures xs == LabelName(v, t)
  {
    xs := "";
    var low := Lower(v, t);
    for i := 0 to |low|
      invariant xs == Collapse(low[..i], t)
    {
      assert low[..i + 1][..i] == low[..i];
      var x := low[i];
      if x == '-' || t.digit(x) || ('a' <= x <= 'z') {
        xs := xs + [x];
      } else if |xs| > 0 && xs[|xs| - 1] != '-' {
        xs := xs + ['-'];
      }
    }
    assert low[..|low|] == low;
    while |xs| > 0
      invariant Trim(xs) == Trim(Collapse(low, t))
      decreases |xs|
    {
      if xs[0] == '-' {
        xs := xs[1..];
        continue;
      }
      if xs[|xs| - 1] == '-' {
        xs := xs[..|xs| - 1];
        continue;
      }
      break;
    }
    if |xs| > MAX_LABEL {
      xs := xs[..MAX_LABEL];
    }
  }

  predicate AllAllowed(s: string, t: Tables) {
    forall i :: 0 <= i < |s| ==> Allowed(s[i], t)
  }

  predicate Clean(s: string) {
    s != "" ==> s[0] != '-' && s[|s| - 1] != '-'
  }

  lemma {:induction false} CollapseAllowed(v: string, t: Tables)
    ensures AllAllowed(Collapse(v, t), t)
    ensures AllAllowed(v, t) ==> Collapse(v, t) == v
  {
    if v != "" {
      CollapseAllowed(v[..|v| - 1], t);
      assert v == v[..|v| - 1] + [v[|v| - 1]];
    }
  }

  lemma {:induction false} TrimIsClean(s: string)
    ensures Clean(Trim(s)) && |Trim(s)| <= |s| && (Clean(s) ==> Trim(s) == s)
    decreases |s|
  {
    if s != "" {
      if s[0] == '-' {
        TrimIsClean(s[1..]);
      } else if s[|s| - 1] == '-' {
        TrimIsClean(s[..|s| - 1]);
      }
    }
  }

  predicate Slice(t: string, s: string) { exists i, j :: 0 <= i <= j <= |s| && t == s[i..j] }

  lemma SliceOfSlice(t: string, s: string, a: nat, b: nat)
    requires a <= b <= |s| && Slice(t, s[a..b])
    ensures Slice(t, s)
  {
    var i, j :| 0 <= i <= j <= b - a && t == s[a..b][i..j];
    forall k | 0 <= k < |t| ensures t[k] == s[a + i..a + j][k] {}
    assert t == s[a + i..a + j];
  }

  lemma {:induction false} TrimIsSlice(s: string)
    ensures Slice(Trim(s), s)
    decreases |s|
  {
    hide Slice;
    if s == "" || (s[0] != '-' && s[|s| - 1] != '-') {
      WholeSlice(s);
    } else if s[0] == '-' {
      TrimIsSlice(s[1..]);
      assert s[1..] == s[1..|s|];
      SliceOfSlice(Trim(s[1..]), s, 1, |s|);
    } else {
      TrimIsSlice(s[..|s| - 1]);
      assert s[..|s| - 1] == s[0..|s| - 1];
      SliceOfSlice(Trim(s[..|s| - 1]), s, 0, |s| - 1);
    }
  }

  lemma WholeSlice(s: string)
    ensures Slice(s, s)
  {
    assert s == s[0..|s|];
  }

  /** The name before truncation. */
  function Full(v: string, t: Tables): string { Trim(Collapse(Lower(v, t), t)) }

  lemma FullIsClean(v: string, t: Tables)
    ensures AllAllowed(Full(v, t), t) && Clean(Full(v, t))
  {
    var c := Collapse(Lower(v, t), t);
    CollapseAllowed(Lower(v, t), t);
    TrimIsClean(c);
    TrimIsSlice(c);
    var i, j :| 0 <= i <= j <= |c| && Trim(c) == c[i..j];
  }

  /** The letters and digits of a string, in order. */
  function Solid(s: string, t: Tables): string {
    if s == "" then "" else
    var rest, x := Solid(s[..|s| - 1], t), s[|s| - 1];
    if x != '-' && Allowed(x, t) then rest + [x] else rest
  }

  predicate DoubleDash(s: string) { exists i :: 0 <= i < |s| - 1 && s[i] == '-' && s[i + 1] == '-' }

  lemma {:induction false} CollapseContent(v: string, t: Tables)
    requires !t.digit('-')
    ensures Solid(Collapse(v, t), t) == Solid(v, t)
    ensures '-' !in v ==> !DoubleDash(Collapse(v, t))
  {
    if v != "" {
      var w := v[..|v| - 1];
      CollapseContent(w, t);
      assert forall i :: 0 <= i < |w| ==> w[i] == v[i] && v[i] in v;
      assert v[|v| - 1] in v;
      var c := Collapse(v, t);
      if c != Collapse(w, t) { assert c[..|c| - 1] == Collapse(w, t); }
    }
  }

  lemma {:induction false} SolidTail(s: string, t: Tables)
    requires s != "" && s[0] == '-'
    ensures Solid(s[1..], t) == Solid(s, t)
  {
    if |s| > 1 {
      SolidTail(s[..|s| - 1], t);
      assert s[1..][..|s| - 2] == s[..|s| - 1][1..];
    } else {
      assert s[..0] == s[1..] == "";
    }
  }

  lemma {:induction false} TrimContent(s: string, t: Tables)
    ensures Solid(Trim(s), t) == Solid(s, t)
    decreases |s|
  {
    if s != "" {
      if s[0] == '-' {
        SolidTail(s, t);
        TrimContent(s[1..], t);
      } else if s[|s| - 1] == '-' {
        TrimContent(s[..|s| - 1], t);
      }
    }
  }

  /** Before truncation, normalisation loses no letter or digit and keeps their order; without dashes in
      the input it leaves no two dashes in a row. */
  lemma KeepsContent(v: string, t: Tables)
    requires !t.digit('-')
    ensures Solid(Full(v, t), t) == Solid(Lower(v, t), t)
    ensures '-' !in Lower(v, t) ==> !DoubleDash(Full(v, t))
  {
    var c := Collapse(Lower(v, t), t);
    CollapseContent(Lower(v, t), t);
    TrimContent(c, t);
    TrimIsClean(c);
    TrimIsSlice(c);
    var i, j :| 0 <= i <= j <= |c| && Trim(c) == c[i..j];
    assert forall k :: 0 <= k < j - i ==> c[i..j][k] == c[i + k];
  }

  predicate NoneAllowed(s: string, t: Tables) { forall i :: 0 <= i < |s| ==> !Allowed(s[i], t) }

  /** Other characters between letters and digits become one dash. */
  lemma {:induction false} RunBecomesDash(a: string, run: string, t: Tables)
    requires a != "" && Allowed(a[|a| - 1], t) && a[|a| - 1] != '-' && run != "" && NoneAllowed(run, t)
    ensures Collapse(a + run, t) == Collapse(a, t) + "-"
  {
    var n := |run| - 1;
    assert (a + run)[..|a + run| - 1] == a + run[..n] && (a + run)[|a + run| - 1] == run[n];
    if n == 0 {
      assert a + run[..0] == a;
    } else {
      RunBecomesDash(a, run[..n], t);
    }
  }

  /** And at the start they are dropped, as are those behind a dash. */
  lemma {:induction false} RunIsDropped(a: string, run: string, t: Tables)
    requires a == "" || a[|a| - 1] == '-'
    requires NoneAllowed(run, t)
    ensures Collapse(a + run, t) == Collapse(a, t)
  {
    if run == "" {
      assert a + run == a;
    } else {
      var n := |run| - 1;
      assert (a + run)[..|a + run| - 1] == a + run[..n] && (a + run)[|a + run| - 1] == run[n];
      RunIsDropped(a, run[..n], t);
    }
  }

  /** So two words with anything else between them keep one dash between them. */
  lemma WordsStayApart(a: string, run: string, b: char, t: Tables)
    requires a != "" && Allowed(a[|a| - 1], t) && a[|a| - 1] != '-' && run != "" && NoneAllowed(run, t)
    requires Allowed(b, t)
    ensures Collapse(a + run + [b], t) == Collapse(a, t) + "-" + [b]
  {
    RunBecomesDash(a, run, t);
    assert (a + run + [b])[..|a + run|] == a + run;
  }

  /** The form of a normalised name. It ends in a dash exactly when truncation cut it behind one. */
  lemma LabelForm(v: string, t: Tables)
    ensures var s := LabelName(v, t); var f := Full(v, t);
      && |s| <= MAX_LABEL && AllAllowed(s, t) && (s != "" ==> s[0] != '-')
      && (s != "" && s[|s| - 1] == '-' <==> |f| > MAX_LABEL && f[MAX_LABEL - 1] == '-')
  {
    FullIsClean(v, t);
  }

  lemma OnAllowed(s: string, t: Tables)
    requires Sound(t) && AllAllowed(s, t)
    ensures LabelName(s, t) == Truncate(Trim(s))
  {
    assert Lower(s, t) == s;
    CollapseAllowed(s, t);
  }

  /** A second application drops the dashes a truncation left at the end; a third changes nothing, and a
      second one changes nothing exactly when there is no such dash. */
  lemma ThriceIsTwice(v: string, t: Tables)
    requires Sound(t)
    ensures var once := LabelName(v, t); var twice := LabelName(once, t);
      && LabelName(twice, t) == twice && Clean(twice)
      && (twice == once <==> Clean(once))
      && twice <= once
  {
    var once := LabelName(v, t);
    LabelForm(v, t);
    OnAllowed(once, t);
    TrimIsClean(once);
    TrimIsPrefix(once);
    var twice := LabelName(once, t);
    assert twice == Trim(once);
    OnAllowed(twice, t);
    TrimIsClean(twice);
  }

  lemma {:induction false} TrimIsPrefix(s: string)
    requires s != "" ==> s[0] != '-'
    ensures Trim(s) <= s
  {
    if s != "" && s[|s| - 1] == '-' { TrimIsPrefix(s[..|s| - 1]); }
  }

  /** The promise of a valid label (a to z, 0 to 9 and dashes, none at either end) fails for other
      decimal digits and for a dash in position 63. */
  lemma NotAlwaysALabel(t: Tables)
    requires Sound(t) && t.digit('\U{0663}') && !t.digit('.')
    ensures LabelName("\U{0663}", t) == "\U{0663}"
    ensures var v := seq(62, _ => 'a') + "-a"; LabelName(v, t) == seq(62, _ => 'a') + "-"
  {
    OnAllowed("\U{0663}", t);
    var v := seq(62, _ => 'a') + "-a";
    OnAllowed(v, t);
    TrimIsClean(v);
    assert Truncate(v) == seq(62, _ => 'a') + "-";
  }

  /** The letters and digits of a DNS label. */
  predicate Ascii(x: char) { '0' <= x <= '9' || Letter(x) }

  /** What is promised: a to z, 0 to 9 and dashes, none at either end, or nothing at all. */
  predicate IsLabelOrEmpty(s: string) {
    Clean(s) && forall i :: 0 <= i < |s| ==> s[i] == '-' || Ascii(s[i])
  }

  /** All decimal digits of the string are ASCII ones. */
  predicate AsciiDigits(s: string, t: Tables) {
    forall i :: 0 <= i < |s| && t.digit(s[i]) ==> Ascii(s[i])
  }

  /** Main result on the promise, for the tables the program uses: the name is a valid label or empty exactly when no
      cut is made behind a dash and every decimal digit before the cut is an ASCII one. */
  lemma LabelIff(v: string, t: Tables)
    requires Sound(t)
    ensures var f := Full(v, t);
      IsLabelOrEmpty(LabelName(v, t)) <==> !(|f| > MAX_LABEL && f[MAX_LABEL - 1] == '-') && AsciiDigits(Truncate(f), t)
  {
    LabelForm(v, t);
    FullIsClean(v, t);
    assert LabelName(v, t) == Truncate(Full(v, t));
    hide Full, LabelName;
  }

  lemma {:induction false} SolidDigits(s: string, t: Tables)
    requires !t.digit('-')
    ensures AsciiDigits(Solid(s, t), t) <==> AsciiDigits(s, t)
  {
    if s != "" {
      var n := |s| - 1;
      SolidDigits(s[..n], t);
      var rest := Solid(s[..n], t);
      AppendDigits(s[..n], s[n], t);
      AppendDigits(rest, s[n], t);
      assert s == s[..n] + [s[n]];
      hide AsciiDigits;
    }
  }

  lemma AppendDigits(s: string, x: char, t: Tables)
    ensures AsciiDigits(s + [x], t) <==> AsciiDigits(s, t) && (t.digit(x) ==> Ascii(x))
  {
    var r := s + [x];
    assert r[|s|] == x;
    assert forall i :: 0 <= i < |s| ==> r[i] == s[i];
  }

  /** The same from the input alone: as long as nothing is cut, the name is a label or empty exactly when the input
      in lower case has no decimal digit outside ASCII. */
  lemma ShortLabelIff(v: string, t: Tables)
    requires Sound(t) && |Full(v, t)| <= MAX_LABEL
    ensures IsLabelOrEmpty(LabelName(v, t)) <==> AsciiDigits(Lower(v, t), t)
  {
    LabelIff(v, t);
    KeepsContent(v, t);
    SolidDigits(Full(v, t), t);
    SolidDigits(Lower(v, t), t);
    hide Full, AsciiDigits, Solid, LabelName;
  }

  lemma {:induction false} CollapseShortens(v: string, t: Tables)
    ensures |Collapse(v, t)| <= |v|
  {
    if v != "" { CollapseShortens(v[..|v| - 1], t); }
  }

  /** So it is, in particular, for every input of at most 63 characters. */
  lemma ShortInputIff(v: string, t: Tables)
    requires Sound(t) && |v| <= MAX_LABEL
    ensures IsLabelOrEmpty(LabelName(v, t)) <==> AsciiDigits(Lower(v, t), t)
  {
    CollapseShortens(Lower(v, t), t);
    TrimIsClean(Collapse(Lower(v, t), t));
    ShortLabelIff(v, t);
  }
}
