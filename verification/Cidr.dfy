/** IPv4 address blocks (section 3.1 of RFC 4632), their notation, and the three functions of the IPAM library
    that the operator calls. The library is not part of the repository: Free is a first-fit search, Half and
    Canonicalize are direct, and their contracts are what everything else relies on. */
module Cidr {
  import opened Common
  import opened Text

  /** A block: its first address and the length of its prefix. */
  datatype Net = Net(base: nat, bits: nat) {
    function End(): nat
      requires bits <= 32
    {
      base + Size(bits)
    }

    predicate Valid() { bits <= 32 && base % Size(bits) == 0 && End() <= Size(0) }
  }

  /** The number of addresses behind a prefix. */
  function Size(bits: nat): (n: nat)
    requires bits <= 32
    ensures n > 0
  {
    Positive(32 - bits);
    Power(2, 32 - bits)
  }

  lemma {:induction false} Positive(k: nat)
    ensures Power(2, k) > 0
  {
    if k > 0 { Positive(k - 1); }
  }

  lemma {:induction false} SizeShrinks(a: nat, b: nat)
    requires a <= b <= 32
    ensures Size(a) >= Size(b)
    decreases b - a
  {
    if a < b {
      assert Size(a) == 2 * Size(a + 1);
      SizeShrinks(a + 1, b);
    }
  }

  predicate Contains(n: Net, address: nat)
    requires n.bits <= 32
  {
    n.base <= address < n.End()
  }

  predicate Inside(a: Net, b: Net)
    requires a.bits <= 32 && b.bits <= 32
  {
    b.base <= a.base && a.End() <= b.End()
  }

  predicate Disjoint(a: Net, b: Net)
    requires a.bits <= 32 && b.bits <= 32
  {
    a.End() <= b.base || b.End() <= a.base
  }

  /** Disjoint blocks are the ones without a common address. */
  lemma DisjointMeans(a: Net, b: Net)
    requires a.Valid() && b.Valid()
    ensures Disjoint(a, b) <==> !exists address: nat :: Contains(a, address) && Contains(b, address)
  {
    hide Size;
    if !Disjoint(a, b) {
      var common := if a.base < b.base then b.base else a.base;
      assert Contains(a, common) && Contains(b, common);
    }
  }

  // ---------------------------------------------------------------- alignment

  lemma {:induction false} PowerSum(i: nat, j: nat)
    ensures Power(2, i + j) == Power(2, i) * Power(2, j)
  {
    if i > 0 {
      PowerSum(i - 1, j);
      assert 2 * Power(2, i - 1) * Power(2, j) == 2 * (Power(2, i - 1) * Power(2, j));
    }
  }

  lemma Order(s: int, i: int, j: int)
    requires s > 0
    ensures i < j ==> s * i + s <= s * j
    ensures i <= j ==> s * i <= s * j
  {
    Distribute(s, i, j - i);
    if i < j { AtLeastOnce(s, j - i); }
  }

  lemma Distribute(s: int, i: int, d: int)
    ensures s * (i + d) == s * i + s * d
  {}

  lemma {:induction false} AtLeastOnce(s: int, d: int)
    requires s > 0 && d > 0
    ensures s * d >= s
    decreases d
  {
    if d > 1 {
      AtLeastOnce(s, d - 1);
      Distribute(s, d - 1, 1);
    }
  }

  lemma MultipleOf(x: int, s: int, q: int)
    requires s > 0 && x == s * q
    ensures x % s == 0
  {
    var d := x / s;
    Order(s, q, d);
    Order(s, d, q);
    assert x == s * d + x % s;
  }

  lemma Quotient(x: int, s: int) returns (q: int)
    requires s > 0 && x % s == 0
    ensures x == s * q
  {
    q := x / s;
  }

  lemma Product(k: int, s: int, q: int)
    ensures (k * s) * q == s * (k * q) && s * (k * q + k) == s * (k * q) + k * s
  {}

  /** A block starts on the grid of every longer prefix, and so does its end. */
  lemma OnFinerGrid(n: Net, bits: nat)
    requires n.Valid() && n.bits <= bits <= 32
    ensures n.base % Size(bits) == 0 && n.End() % Size(bits) == 0
  {
    var s, k := Size(bits), Power(2, bits - n.bits);
    PowerSum(bits - n.bits, 32 - bits);
    assert Size(n.bits) == k * s;
    hide Size;
    var q := Quotient(n.base, k * s);
    Product(k, s, q);
    MultipleOf(n.base, s, k * q);
    MultipleOf(n.End(), s, k * q + k);
  }

  /** A cell of a grid lies before, behind or in any stretch of the grid. */
  lemma CellAndStretch(x: int, lo: int, hi: int, s: int)
    requires s > 0 && x % s == 0 && lo % s == 0 && hi % s == 0
    ensures x + s <= lo || hi <= x || (lo <= x && x + s <= hi)
  {
    var i := Quotient(x, s);
    var j := Quotient(lo, s);
    var k := Quotient(hi, s);
    Order(s, i, j);
    Order(s, j, i);
    Order(s, i, k);
    Order(s, k, i);
  }

  /** Two blocks are disjoint or the one with the longer prefix lies in the other. */
  lemma NestedOrDisjoint(a: Net, b: Net)
    requires a.Valid() && b.Valid() && a.bits >= b.bits
    ensures Inside(a, b) || Disjoint(a, b)
  {
    OnFinerGrid(b, a.bits);
    hide Size;
    CellAndStretch(a.base, b.base, b.End(), Size(a.bits));
  }

  // ---------------------------------------------------------------- notation

  function Octets(address: nat): seq<nat> {
    var high := address / 0x100;
    var higher := high / 0x100;
    [higher / 0x100, higher % 0x100, high % 0x100, address % 0x100]
  }

  function FormatAddress(address: nat): string {
    var o := Octets(address);
    Join([FormatUint(o[0], 10), FormatUint(o[1], 10), FormatUint(o[2], 10), FormatUint(o[3], 10)], '.')
  }

  function Format(n: Net): string { Join([FormatAddress(n.base), FormatUint(n.bits, 10)], '/') }

  /** One part of an address: at most 255 and without leading zeros. */
  function ParseOctet(s: string): Option<nat> {
    var n := ParseUint(s, 10);
    if n.None? || n.value > 255 || (|s| > 1 && s[0] == '0') then None else n
  }

  function ParseAddress(s: string): Option<nat> {
    var parts := Split(s, '.');
    if |parts| != 4 then None else
    var a, b, c, d := ParseOctet(parts[0]), ParseOctet(parts[1]), ParseOctet(parts[2]), ParseOctet(parts[3]);
    if a.None? || b.None? || c.None? || d.None? then None
    else Some(a.value * 0x100_0000 + b.value * 0x1_0000 + c.value * 0x100 + d.value)
  }

  /** The block with this prefix that holds the address: the bits behind the prefix are cut off. */
  function Masked(address: nat, bits: nat): (n: Net)
    requires bits <= 32 && address < Size(0)
    ensures n.Valid() && n.bits == bits && Contains(n, address)
    ensures address % Size(bits) == 0 ==> n.base == address
  {
    MaskIsValid(address, bits);
    Net(address - address % Size(bits), bits)
  }

  function Parse(s: string): (r: Option<Net>)
    ensures r.Some? ==> r.value.Valid()
  {
    var parts := Split(s, '/');
    if |parts| != 2 then None else
    var address, bits := ParseAddress(parts[0]), ParseUint(parts[1], 10);
    if address.None? || bits.None? || bits.value > 32 || address.value >= Size(0) then None
    else Some(Masked(address.value, bits.value))
  }

  lemma Cells(bits: nat)
    requires bits <= 32
    ensures Size(0) == Size(bits) * Power(2, bits)
  {
    PowerSum(32 - bits, bits);
  }

  lemma MaskIsValid(address: nat, bits: nat)
    requires bits <= 32 && address < Size(0)
    ensures var base := address - address % Size(bits);
      0 <= base && base % Size(bits) == 0 && base <= address < base + Size(bits) <= Size(0)
  {
    var s, k := Size(bits), Power(2, bits);
    Cells(bits);
    hide Size, Power;
    MaskArithmetic(address, s, k);
  }

  lemma MaskArithmetic(address: nat, s: nat, k: nat)
    requires s > 0 && address < s * k
    ensures var base := address - address % s; 0 <= base && base % s == 0 && base + s <= s * k
  {
    var q := address / s;
    assert address == s * q + address % s;
    MultipleOf(s * q, s, q);
    Order(s, k, q);
    Order(s, q, k);
  }

  lemma AddressSpace()
    ensures Size(0) == 0x1_0000_0000 && Size(24) == 256
  {
    PowerSum(16, 16);
    PowerSum(8, 8);
    assert Power(2, 8) == 256 by { assert Power(2, 4) == 16; PowerSum(4, 4); }
  }

  lemma OctetRoundTrip(n: nat)
    requires n < 0x100
    ensures var s := FormatUint(n, 10); ParseOctet(s) == Some(n) && '.' !in s && '/' !in s
  {
    UintRoundTrip(n, 10);
    FormatIsNumeral(n, 10);
    if n >= 10 { NoLeadingZero(n, 10); }
    hide FormatUint, Value;
  }

  lemma OctetsOfAddress(address: nat)
    requires address < 0x1_0000_0000
    ensures var o := Octets(address);
      && o[0] < 0x100 && o[1] < 0x100 && o[2] < 0x100 && o[3] < 0x100
      && o[0] * 0x100_0000 + o[1] * 0x1_0000 + o[2] * 0x100 + o[3] == address
  {}

  lemma AddressRoundTrip(address: nat)
    requires address < 0x1_0000_0000
    ensures var s := FormatAddress(address); ParseAddress(s) == Some(address) && '/' !in s
  {
    var o := Octets(address);
    OctetsOfAddress(address);
    OctetRoundTrip(o[0]);
    OctetRoundTrip(o[1]);
    OctetRoundTrip(o[2]);
    OctetRoundTrip(o[3]);
    hide FormatUint, ParseOctet, Octets;
    var parts := [FormatUint(o[0], 10), FormatUint(o[1], 10), FormatUint(o[2], 10), FormatUint(o[3], 10)];
    SplitJoin(parts, '.');
    NotInJoin(parts, '.', '/');
    hide Join, Split;
  }

  lemma {:induction false} NotInJoin(parts: seq<string>, c: char, d: char)
    requires c != d && forall p <- parts :: d !in p
    ensures d !in Join(parts, c)
  {
    if |parts| > 1 { NotInJoin(parts[1..], c, d); }
  }

  /** A block is read back as it was written; so persisted blocks may be handled as blocks. */
  lemma CidrRoundTrip(n: Net)
    requires n.Valid()
    ensures Parse(Format(n)) == Some(n)
  {
    AddressSpace();
    AddressRoundTrip(n.base);
    UintRoundTrip(n.bits, 10);
    FormatIsNumeral(n.bits, 10);
    hide FormatAddress, FormatUint, ParseAddress, ParseUint, Size, Value, Power, Masked;
    SplitJoin([FormatAddress(n.base), FormatUint(n.bits, 10)], '/');
  }

  // ---------------------------------------------------------------- the library

  datatype Result<+T> = Ok(value: T) | MaskTooBig | NotContained | Exhausted

  predicate AllValid(s: seq<Net>) { forall i :: 0 <= i < |s| ==> s[i].Valid() }

  predicate DisjointFromAll(n: Net, s: seq<Net>)
    requires n.bits <= 32 && AllValid(s)
  {
    forall i :: 0 <= i < |s| ==> Disjoint(n, s[i])
  }

  /** A block of the parent with this prefix that no taken one touches. */
  predicate Available(n: Net, parent: Net, bits: nat, taken: seq<Net>)
    requires parent.Valid() && AllValid(taken)
  {
    n.Valid() && n.bits == bits && Inside(n, parent) && DisjointFromAll(n, taken)
  }

  /** First fit from `base` on. */
  function Search(parent: Net, bits: nat, taken: seq<Net>, base: nat): (r: Result<Net>)
    requires parent.Valid() && parent.bits <= bits <= 32 && AllValid(taken)
    requires parent.base <= base && base % Size(bits) == 0
    ensures r.Ok? ==> Available(r.value, parent, bits, taken) && base <= r.value.base
    ensures r.Ok? || r.Exhausted?
    decreases parent.End() - base
  {
    if base + Size(bits) > parent.End() then Exhausted
    else if DisjointFromAll(Net(base, bits), taken) then Ok(Net(base, bits))
    else
      NextCell(base, Size(bits));
      Search(parent, bits, taken, base + Size(bits))
  }

  lemma NextCell(base: nat, s: nat)
    requires s > 0 && base % s == 0
    ensures (base + s) % s == 0
  {
    assert base + s == s * (base / s + 1);
    MultipleOf(base + s, s, base / s + 1);
  }

  lemma {:induction false} SearchFindsTheFirst(parent: Net, bits: nat, taken: seq<Net>, base: nat, n: Net)
    requires parent.Valid() && parent.bits <= bits <= 32 && AllValid(taken)
    requires parent.base <= base && base % Size(bits) == 0
    requires Available(n, parent, bits, taken) && base <= n.base
    ensures var r := Search(parent, bits, taken, base); r.Ok? && r.value.base <= n.base
    decreases n.base - base
  {
    hide Size;
    if n.base > base {
      NextCell(base, Size(bits));
      CellAndStretch(n.base, base, base + Size(bits), Size(bits));
      if !DisjointFromAll(Net(base, bits), taken) {
        SearchFindsTheFirst(parent, bits, taken, base + Size(bits), n);
      }
    }
  }

  /** ipam.Free: the first free block with this prefix. */
  function Free(parent: Net, bits: nat, taken: seq<Net>): (r: Result<Net>)
    requires parent.Valid() && bits <= 32 && AllValid(taken)
  {
    if bits < parent.bits then MaskTooBig
    else if exists i :: 0 <= i < |taken| && !Contains(parent, taken[i].base) then NotContained
    else
      OnFinerGrid(parent, bits);
      Search(parent, bits, taken, parent.base)
  }

  /** The contract of Free: what it returns is available and the least such block, and, for a prefix that is
      not shorter than the parent's and taken blocks that start in the parent, it fails only when there is
      none. */
  lemma FreeIsFirstFit(parent: Net, bits: nat, taken: seq<Net>)
    requires parent.Valid() && bits <= 32 && AllValid(taken)
    ensures var r := Free(parent, bits, taken);
      && (r.MaskTooBig? <==> bits < parent.bits)
      && (r.NotContained? <==> bits >= parent.bits && exists i :: 0 <= i < |taken| && !Contains(parent, taken[i].base))
      && (r.Exhausted? ==> forall n :: !Available(n, parent, bits, taken))
      && (r.Ok? ==> Available(r.value, parent, bits, taken)
                    && forall n :: Available(n, parent, bits, taken) ==> r.value.base <= n.base)
  {
    if bits >= parent.bits && forall i :: 0 <= i < |taken| ==> Contains(parent, taken[i].base) {
      OnFinerGrid(parent, bits);
      hide Size, Search, Contains;
      forall n | Available(n, parent, bits, taken)
        ensures var r := Free(parent, bits, taken); r.Ok? && r.value.base <= n.base
      {
        SearchFindsTheFirst(parent, bits, taken, parent.base, n);
      }
    }
  }

  lemma FirstBlockIsFree(parent: Net, bits: nat)
    requires parent.Valid() && parent.bits <= bits <= 32
    ensures var r := Net(parent.base, bits); r.Valid() && Inside(r, parent) && Free(parent, bits, []) == Ok(r)
  {
    OnFinerGrid(parent, bits);
    SizeShrinks(parent.bits, bits);
    hide Size;
  }

  /** ipam.Half: the two halves of a block of more than one address. */
  function Half(n: Net): (r: Result<(Net, Net)>)
    requires n.Valid()
  {
    if n.bits == 32 then MaskTooBig else Ok((Net(n.base, n.bits + 1), Net(n.base + Size(n.bits + 1), n.bits + 1)))
  }

  /** The halves are blocks, they are disjoint, and together they are the whole. */
  lemma HalvesPartition(n: Net)
    requires n.Valid() && n.bits < 32
    ensures var (a, b) := Half(n).value;
      a.Valid() && b.Valid() && a.base == n.base && a.End() == b.base && b.End() == n.End() && Disjoint(a, b)
  {
    var s := Size(n.bits + 1);
    assert Size(n.bits) == 2 * s;
    OnFinerGrid(n, n.bits + 1);
    hide Size;
    NextCell(n.base, s);
  }

  /** ipam.CanonicalizeSubnets: the blocks that start in the network, once each. An unset block, as a slice made
      with a length begins with, starts nowhere. */
  function Canonicalize(network: Net, s: seq<Option<Net>>): (r: seq<Net>)
    requires network.Valid()
    ensures forall n :: n in r <==> Some(n) in s && Contains(network, n.base)
    ensures forall i, j :: 0 <= i < j < |r| ==> r[i] != r[j]
  {
    if s == [] then [] else
    var init, last := s[..|s| - 1], s[|s| - 1];
    var rest := Canonicalize(network, init);
    assert s == init + [last];
    if last.None? || !Contains(network, last.value.base) || last.value in rest then rest else rest + [last.value]
  }
}
