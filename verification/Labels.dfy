/** Kubelet label lists such as "a=1,b=2" (ensureLabel in service/controller/key). */
module Labels {
  import opened Common
  import opened Text

  predicate HasKey(part: string, key: string) {
    HasPrefix(part, key + "=")
  }

  function Assignment(key: string, value: string): string { key + "=" + value }

  function Replace(parts: seq<string>, key: string, value: string): (r: seq<string>)
    ensures |r| == |parts|
    ensures forall i :: 0 <= i < |r| ==> r[i] == if HasKey(parts[i], key) then Assignment(key, value) else parts[i]
  {
    seq(|parts|, i requires 0 <= i < |parts| => if HasKey(parts[i], key) then Assignment(key, value) else parts[i])
  }

  function Parts(labels: string): seq<string> {
    if labels == "" then [] else Split(labels, ',')
  }

  function NewParts(parts: seq<string>, key: string, value: string): seq<string> {
    if exists i :: 0 <= i < |parts| && HasKey(parts[i], key) then Replace(parts, key, value)
    else parts + [Assignment(key, value)]
  }

  function EnsureLabelSpec(labels: string, key: string, value: string): string {
    if key == "" || value == "" then labels
    else Join(NewParts(Parts(labels), key, value), ',')
  }

  method EnsureLabel(labels: string, key: string, value: string) returns (joined: string)
    ensures joined == EnsureLabelSpec(labels, key, value)
    ensures key == "" || value == "" ==> joined == labels
  {
    if key == "" { return labels; }
    if value == "" { return labels; }
    var split: seq<string> := [];
    if labels != "" {
      split := Split(labels, ',');
    }
    ghost var parts := split;
    hide Split, Join, Parts, IndexOf, HasKey, Assignment, Replace;
    var found := false;
    for i := 0 to |split|
      invariant |split| == |parts|
      invariant found <==> exists j :: 0 <= j < i && HasKey(parts[j], key)
      invariant forall j :: 0 <= j < i ==>
          split[j] == if HasKey(parts[j], key) then Assignment(key, value) else parts[j]
      invariant forall j :: i <= j < |split| ==> split[j] == parts[j]
    {
      if !HasKey(split[i], key) { continue; }
      found := true;
      split := split[i := Assignment(key, value)];
    }
    if found {
      assert split == Replace(parts, key, value);
    } else {
      assert split == parts;
      split := split + [Assignment(key, value)];
    }
    return Join(split, ',');
  }

  // ---------------------------------------------------------------- the map behind the list

  /** The value a key has: that of its first assignment. */
  function Lookup(parts: seq<string>, key: string): Option<string> {
    if parts == [] then None
    else if HasKey(parts[0], key) then Some(parts[0][|key| + 1..])
    else Lookup(parts[1..], key)
  }

  predicate Plain(s: string) { s != "" && ',' !in s && '=' !in s }

  lemma AssignmentKey(key: string, value: string, other: string)
    requires Plain(key) && Plain(other)
    ensures HasKey(Assignment(key, value), other) <==> other == key
    ensures Assignment(key, value)[|key| + 1..] == value
  {
    var a := Assignment(key, value);
    assert a[..|key| + 1] == key + "=";
    assert a[|key|] == '=';
    if HasKey(a, other) {
      assert a[..|other| + 1] == other + "=";
      assert forall i :: 0 <= i < |other| ==> other[i] in other && other[i] == (other + "=")[i] == a[i];
      assert forall i :: 0 <= i < |key| ==> key[i] in key && key[i] == a[i];
      assert a[|other|] == (other + "=")[|other|] == '=';
      assert |other| == |key|;
      assert other == a[..|other|] == key;
    }
  }

  lemma OneKey(part: string, key: string, other: string)
    requires Plain(key) && Plain(other) && HasKey(part, key) && HasKey(part, other)
    ensures other == key
  {
    AssignmentKey(key, part[|key| + 1..], other);
    assert part == Assignment(key, part[|key| + 1..]);
  }

  lemma {:induction false} LookupNewParts(parts: seq<string>, key: string, value: string, k: string)
    requires Plain(key) && Plain(k)
    ensures Lookup(NewParts(parts, key, value), k) == if k == key then Some(value) else Lookup(parts, k)
  {
    AssignmentKey(key, value, k);
    var r := NewParts(parts, key, value);
    if parts == [] {
      assert r == [Assignment(key, value)];
      assert r[1..] == [];
    } else {
      var rest := parts[1..];
      if HasKey(parts[0], key) {
        if k != key {
          if HasKey(parts[0], k) { OneKey(parts[0], key, k); }
          LookupReplace(rest, key, value, k);
          assert r[1..] == Replace(rest, key, value);
        }
      } else {
        LookupNewParts(rest, key, value, k);
        if exists i :: 0 <= i < |parts| && HasKey(parts[i], key) {
          var i :| 0 <= i < |parts| && HasKey(parts[i], key);
          assert HasKey(rest[i - 1], key);
          assert r[1..] == Replace(rest, key, value);
        } else {
          assert forall i :: 0 <= i < |rest| ==> rest[i] == parts[i + 1];
          assert r[1..] == rest + [Assignment(key, value)];
        }
      }
    }
  }

  lemma {:induction false} LookupReplace(parts: seq<string>, key: string, value: string, k: string)
    requires Plain(key) && Plain(k) && k != key
    ensures Lookup(Replace(parts, key, value), k) == Lookup(parts, k)
  {
    if parts != [] {
      AssignmentKey(key, value, k);
      if HasKey(parts[0], key) && HasKey(parts[0], k) { OneKey(parts[0], key, k); }
      LookupReplace(parts[1..], key, value, k);
      assert Replace(parts, key, value)[1..] == Replace(parts[1..], key, value);
    }
  }

  /** The list that comes out reads back as the parts that went in. */
  lemma PartsOfResult(labels: string, key: string, value: string)
    requires Plain(key) && value != "" && ',' !in value
    ensures Parts(EnsureLabelSpec(labels, key, value)) == NewParts(Parts(labels), key, value)
  {
    var parts, r := Parts(labels), NewParts(Parts(labels), key, value);
    if labels != "" { JoinSplit(labels, ','); }
    assert ',' !in Assignment(key, value);
    forall p <- r ensures ',' !in p {
      if p != Assignment(key, value) { assert p in parts; }
    }
    SplitJoin(r, ',');
    JoinNotEmpty(r);
  }

  lemma JoinNotEmpty(r: seq<string>)
    requires r != [] && (|r| == 1 ==> r[0] != "")
    ensures Join(r, ',') != ""
  {
    if |r| > 1 {
      var rest := Join(r[1..], ',');
      assert Join(r, ',') == r[0] + [','] + rest;
    }
  }

  /** Main result on labels: ensuring a label updates the map behind the list and nothing else. */
  lemma EnsureLabelIsMapUpdate(labels: string, key: string, value: string, k: string)
    requires Plain(key) && Plain(k) && value != "" && ',' !in value
    ensures Lookup(Parts(EnsureLabelSpec(labels, key, value)), k) ==
            if k == key then Some(value) else Lookup(Parts(labels), k)
  {
    PartsOfResult(labels, key, value);
    LookupNewParts(Parts(labels), key, value, k);
  }

  /** Every other part keeps its place; a second time changes nothing; the last value wins. */
  lemma EnsureLabelKeepsOrder(labels: string, key: string, value: string, other: string)
    requires Plain(key) && value != "" && ',' !in value && other != "" && ',' !in other
    ensures var before, after := Parts(labels), Parts(EnsureLabelSpec(labels, key, value));
      && |before| <= |after| <= |before| + 1
      && (forall i :: 0 <= i < |before| && !HasKey(before[i], key) ==> after[i] == before[i])
      && (exists i :: 0 <= i < |after| && after[i] == Assignment(key, value))
    ensures EnsureLabelSpec(EnsureLabelSpec(labels, key, value), key, other) == EnsureLabelSpec(labels, key, other)
    ensures EnsureLabelSpec(EnsureLabelSpec(labels, key, value), key, value) == EnsureLabelSpec(labels, key, value)
  {
    PartsOfResult(labels, key, value);
    Overwrite(Parts(labels), key, value, other);
    Overwrite(Parts(labels), key, value, value);
    var parts, r := Parts(labels), NewParts(Parts(labels), key, value);
    if i :| 0 <= i < |parts| && HasKey(parts[i], key) {
      assert r[i] == Assignment(key, value);
    } else {
      assert r[|parts|] == Assignment(key, value);
    }
  }

  lemma Overwrite(parts: seq<string>, key: string, value: string, other: string)
    requires Plain(key)
    ensures NewParts(NewParts(parts, key, value), key, other) == NewParts(parts, key, other)
  {
    AssignmentKey(key, value, key);
    var r := NewParts(parts, key, value);
    if i :| 0 <= i < |parts| && HasKey(parts[i], key) {
      assert HasKey(r[i], key);
    } else {
      assert HasKey(r[|parts|], key);
      assert forall i :: 0 <= i < |parts| ==> r[i] == parts[i];
    }
    assert NewParts(r, key, other) == NewParts(parts, key, other);
  }

  /** Labels with different keys commute in the map view. */
  lemma EnsureLabelsCommute(labels: string, a: string, x: string, b: string, y: string, k: string)
    requires Plain(a) && Plain(b) && a != b && Plain(k)
    requires x != "" && ',' !in x && y != "" && ',' !in y
    ensures Lookup(Parts(EnsureLabelSpec(EnsureLabelSpec(labels, a, x), b, y)), k) ==
            Lookup(Parts(EnsureLabelSpec(EnsureLabelSpec(labels, b, y), a, x)), k)
  {
    EnsureLabelIsMapUpdate(labels, a, x, k);
    EnsureLabelIsMapUpdate(labels, b, y, k);
    EnsureLabelIsMapUpdate(EnsureLabelSpec(labels, a, x), b, y, k);
    EnsureLabelIsMapUpdate(EnsureLabelSpec(labels, b, y), a, x, k);
  }
}
