/** The 64-bit perceptual hash of the scene-change detector, from the 8x8 block of DCT
    coefficients on. The DCT itself is an input: `c[8 * row + col]` is a coefficient. */
module PerceptualHash {
  import opened Words

  // ---- order statistics -------------------------------------------------------------

  /** How many elements lie below `m` (or at it, when `orEqual`). */
  function CountBelow(s: seq<real>, m: real, orEqual: bool): (n: nat)
    ensures n <= |s|
  {
    if s == [] then 0
    else (if s[0] < m || (orEqual && s[0] == m) then 1 else 0) + CountBelow(s[1..], m, orEqual)
  }

  ghost predicate Ascending(s: seq<real>) {
    forall i, j :: 0 <= i < j < |s| ==> s[i] <= s[j]
  }

  ghost predicate Distinct(s: seq<real>) {
    forall i, j :: 0 <= i < j < |s| ==> s[i] != s[j]
  }

  function Insert(x: real, s: seq<real>): seq<real> {
    if s == [] || x <= s[0] then [x] + s else [s[0]] + Insert(x, s[1..])
  }

  function Sort(s: seq<real>): seq<real> {
    if s == [] then [] else Insert(s[0], Sort(s[1..]))
  }

  /** `m` is the element that sorting would put at position `n`. */
  ghost predicate IsNth(s: seq<real>, n: nat, m: real) {
    m in s && CountBelow(s, m, false) <= n < CountBelow(s, m, true)
  }

  lemma {:induction false} CountConcat(a: seq<real>, b: seq<real>, m: real, e: bool)
    ensures CountBelow(a + b, m, e) == CountBelow(a, m, e) + CountBelow(b, m, e)
  {
    if a == [] {
      assert a + b == b;
    } else {
      assert (a + b)[1..] == a[1..] + b;
      CountConcat(a[1..], b, m, e);
    }
  }

  lemma {:induction false} CountMonotone(s: seq<real>, x: real, y: real)
    requires x < y
    ensures CountBelow(s, x, false) <= CountBelow(s, x, true) <= CountBelow(s, y, false)
  {
    if s != [] {
      CountMonotone(s[1..], x, y);
    }
  }

  function Without(s: seq<real>, j: nat): seq<real>
    requires j < |s|
  {
    s[..j] + s[j + 1..]
  }

  lemma CountWithout(s: seq<real>, j: nat, m: real, e: bool)
    requires j < |s|
    ensures CountBelow(s, m, e) == CountBelow([s[j]], m, e) + CountBelow(Without(s, j), m, e)
    ensures multiset(Without(s, j)) == multiset(s) - multiset{s[j]}
  {
    assert s == s[..j] + ([s[j]] + s[j + 1..]);
    CountConcat(s[..j], [s[j]] + s[j + 1..], m, e);
    CountConcat([s[j]], s[j + 1..], m, e);
    CountConcat(s[..j], s[j + 1..], m, e);
    assert multiset(s) == multiset(Without(s, j)) + multiset{s[j]};
  }

  lemma {:induction false} CountOfPermutation(a: seq<real>, b: seq<real>, m: real, e: bool)
    requires multiset(a) == multiset(b)
    ensures CountBelow(a, m, e) == CountBelow(b, m, e)
    decreases |a|
  {
    if a == [] {
      assert |multiset(b)| == |b| == 0;
    } else {
      assert a[0] in multiset(b);
      var j :| 0 <= j < |b| && b[j] == a[0];
      CountWithout(a, 0, m, e);
      CountWithout(b, j, m, e);
      CountOfPermutation(Without(a, 0), Without(b, j), m, e);
    }
  }

  /** An order statistic is a single value. */
  lemma NthUnique(s: seq<real>, n: nat, x: real, y: real)
    requires IsNth(s, n, x) && IsNth(s, n, y)
    ensures x == y
  {
    if x < y {
      CountMonotone(s, x, y);
    } else if y < x {
      CountMonotone(s, y, x);
    }
  }

  lemma {:induction false} InsertAdds(x: real, s: seq<real>)
    ensures multiset(Insert(x, s)) == multiset{x} + multiset(s) && |Insert(x, s)| == |s| + 1
  {
    if s != [] && s[0] < x {
      InsertAdds(x, s[1..]);
      assert s == [s[0]] + s[1..];
    }
  }

  lemma AscendingCons(x: real, s: seq<real>)
    requires Ascending(s) && forall y :: y in s ==> x <= y
    ensures Ascending([x] + s)
  {
    forall i, j | 0 <= i < j < |[x] + s| ensures ([x] + s)[i] <= ([x] + s)[j] {
      assert ([x] + s)[j] == s[j - 1] && s[j - 1] in s;
    }
  }

  lemma {:induction false} InsertAscends(x: real, s: seq<real>)
    requires Ascending(s)
    ensures Ascending(Insert(x, s))
  {
    if s == [] || x <= s[0] {
      AscendingCons(x, s);
    } else {
      InsertAscends(x, s[1..]);
      InsertAdds(x, s[1..]);
      forall y | y in Insert(x, s[1..]) ensures s[0] <= y {
        assert y in multiset(Insert(x, s[1..]));
        assert y == x || y in s[1..];
      }
      AscendingCons(s[0], Insert(x, s[1..]));
    }
  }

  lemma {:induction false} SortSorts(s: seq<real>)
    ensures Ascending(Sort(s)) && multiset(Sort(s)) == multiset(s) && |Sort(s)| == |s|
  {
    if s != [] {
      SortSorts(s[1..]);
      InsertAdds(s[0], Sort(s[1..]));
      InsertAscends(s[0], Sort(s[1..]));
      assert s == [s[0]] + s[1..];
    }
  }

  lemma {:induction false} CountAll(s: seq<real>, m: real, e: bool)
    ensures (forall x :: x in s ==> x < m || (e && x == m)) ==> CountBelow(s, m, e) == |s|
    ensures (forall x :: x in s ==> !(x < m || (e && x == m))) ==> CountBelow(s, m, e) == 0
  {
    if s != [] {
      assert forall x :: x in s[1..] ==> x in s;
      assert s[0] in s;
      CountAll(s[1..], m, e);
    }
  }

  /** Whatever the order on either side, the element with nothing larger before it and nothing
      smaller after it is the order statistic of its position. */
  lemma PartitionIsNth(s: seq<real>, n: nat)
    requires n < |s|
    requires forall j :: 0 <= j < n ==> s[j] <= s[n]
    requires forall j :: n < j < |s| ==> s[n] <= s[j]
    ensures IsNth(s, n, s[n])
  {
    assert s == s[..n] + ([s[n]] + s[n + 1..]);
    CountConcat(s[..n], [s[n]] + s[n + 1..], s[n], false);
    CountConcat(s[..n], [s[n]] + s[n + 1..], s[n], true);
    CountAll([s[n]] + s[n + 1..], s[n], false);
    CountAll(s[..n], s[n], true);
  }

  lemma NthOfPermutation(a: seq<real>, b: seq<real>, n: nat, m: real)
    requires multiset(a) == multiset(b) && IsNth(a, n, m)
    ensures IsNth(b, n, m)
  {
    assert m in multiset(b);
    CountOfPermutation(a, b, m, false);
    CountOfPermutation(a, b, m, true);
  }

  lemma SortedIsNth(s: seq<real>, n: nat)
    requires n < |s|
    ensures |Sort(s)| == |s| && IsNth(s, n, Sort(s)[n])
  {
    SortSorts(s);
    PartitionIsNth(Sort(s), n);
    NthOfPermutation(Sort(s), s, n, Sort(s)[n]);
  }

  // ---- the hash ---------------------------------------------------------------------

  /** The 63 coefficients other than the DC term. */
  function Ac(c: seq<real>): (r: seq<real>)
    requires |c| == 64
    ensures |r| == 63
  {
    c[1..]
  }

  /** The value at position 31 of the sorted AC coefficients. */
  function Median(c: seq<real>): real
    requires |c| == 64
  {
    SortSorts(Ac(c));
    Sort(Ac(c))[31]
  }

  function Above(s: seq<real>, m: real): (bits: seq<bool>)
    ensures |bits| == |s| && forall i :: 0 <= i < |s| ==> bits[i] == (s[i] > m)
  {
    seq(|s|, i requires 0 <= i < |s| => s[i] > m)
  }

  function Hash(c: seq<real>): nat
    requires |c| == 64
  {
    ToWord(Above(c, Median(c)))
  }

  /** The hash without the DC coefficient's bit. */
  function AcHash(c: seq<real>): nat
    requires |c| == 64
  {
    Hash(c) / 2
  }

  lemma AcHashBits(c: seq<real>)
    requires |c| == 64
    ensures AcHash(c) == ToWord(Above(Ac(c), Median(c)))
    ensures Hash(c) % 2 == if c[0] > Median(c) then 1 else 0
  {
    WordParts(Above(c, Median(c)));
    assert Above(c, Median(c))[1..] == Above(Ac(c), Median(c));
  }

  method Swap(a: array<real>, i: nat, j: nat)
    requires i < a.Length && j < a.Length
    modifies a
    ensures a[..] == old(a[..])[i := old(a[j])][j := old(a[i])]
    ensures multiset(a[..]) == multiset(old(a[..]))
  {
    a[i], a[j] := a[j], a[i];
  }

  method IndexOfLeast(a: array<real>, from: nat) returns (least: nat)
    requires from < a.Length
    ensures from <= least < a.Length
    ensures forall j :: from <= j < a.Length ==> a[least] <= a[j]
  {
    least := from;
    for k := from + 1 to a.Length
      invariant from <= least < a.Length
      invariant forall j :: from <= j < k ==> a[least] <= a[j]
    {
      if a[k] < a[least] {
        least := k;
      }
    }
  }

  /** Stand-in for `std::nth_element`: afterwards the array is a permutation of what it was, with
      nothing larger before position `n` and nothing smaller after it. */
  method NthElement(a: array<real>, n: nat)
    requires n < a.Length
    modifies a
    ensures multiset(a[..]) == multiset(old(a[..]))
    ensures forall j :: 0 <= j < n ==> a[j] <= a[n]
    ensures forall j :: n < j < a.Length ==> a[n] <= a[j]
  {
    for i := 0 to n + 1
      invariant multiset(a[..]) == multiset(old(a[..]))
      invariant forall j, k :: 0 <= j < i && j < k < a.Length ==> a[j] <= a[k]
    {
      var least := IndexOfLeast(a, i);
      ghost var was := a[..];
      Swap(a, i, least);
      forall j, k | 0 <= j < i + 1 && j < k < a.Length ensures a[j] <= a[k] {
        assert a[j] == a[..][j] && a[k] == a[..][k];
        assert a[..][k] == was[k] || a[..][k] == was[i] || a[..][k] == was[least];
      }
    }
  }

  /** The two nested loops of the original around the median selection. */
  method ComputePHash(c: seq<real>) returns (hash: nat)
    requires |c| == 64
    ensures hash == Hash(c) && hash < Pow2(64)
    ensures exists m :: IsNth(c[1..], 31, m) && forall i | 0 <= i < 64 :: (hash / Pow2(i) % 2 == 1 <==> c[i] > m)
  {
    var vals := new real[63];
    for r := 0 to 8
      invariant forall k :: 0 <= k < 63 && k + 1 < 8 * r ==> vals[k] == c[k + 1]
    {
      for col := 0 to 8
        invariant forall k :: 0 <= k < 63 && k + 1 < 8 * r + col ==> vals[k] == c[k + 1]
      {
        if r == 0 && col == 0 {
          continue;
        }
        vals[8 * r + col - 1] := c[8 * r + col];
      }
    }
    assert vals[..] == Ac(c);
    NthElement(vals, 31);
    var median := vals[31];
    MedianSelected(c, vals[..]);

    hash := 0;
    ghost var bits := Above(c, Median(c));
    for r := 0 to 8
      invariant hash == ToWord(bits[..8 * r])
    {
      for col := 0 to 8
        invariant hash == ToWord(bits[..8 * r + col])
      {
        var bit := 8 * r + col;
        SetNextBit(bits[..bit]);
        assert bits[..bit] + [bits[bit]] == bits[..bit + 1];
        if c[bit] > median {
          hash := Or(hash, Pow2(bit));
        }
      }
    }
    assert bits[..64] == bits;
    WordBounded(bits);
    SortedIsNth(Ac(c), 31);
    forall i | 0 <= i < 64 ensures hash / Pow2(i) % 2 == 1 <==> c[i] > Median(c) {
      BitOfWord(bits, i);
    }
  }

  lemma MedianSelected(c: seq<real>, vals: seq<real>)
    requires |c| == 64 && |vals| == 63 && multiset(vals) == multiset(Ac(c))
    requires forall j :: 0 <= j < 31 ==> vals[j] <= vals[31]
    requires forall j :: 31 < j < 63 ==> vals[31] <= vals[j]
    ensures vals[31] == Median(c)
  {
    PartitionIsNth(vals, 31);
    NthOfPermutation(vals, Ac(c), 31, vals[31]);
    SortedIsNth(Ac(c), 31);
    NthUnique(Ac(c), 31, vals[31], Median(c));
  }

  // ---- invariance under rescaling ---------------------------------------------------

  function Mapped(s: seq<real>, f: real -> real): (r: seq<real>)
    ensures |r| == |s| && forall i :: 0 <= i < |s| ==> r[i] == f(s[i])
  {
    seq(|s|, i requires 0 <= i < |s| => f(s[i]))
  }

  ghost predicate StrictlyIncreasing(f: real -> real) {
    forall x, y :: x < y ==> f(x) < f(y)
  }

  lemma {:induction false} CountMapped(s: seq<real>, f: real -> real, m: real, e: bool)
    requires StrictlyIncreasing(f)
    ensures CountBelow(Mapped(s, f), f(m), e) == CountBelow(s, m, e)
  {
    if s != [] {
      assert Mapped(s, f)[1..] == Mapped(s[1..], f);
      CountMapped(s[1..], f, m, e);
      assert s[0] < m ==> f(s[0]) < f(m);
      assert s[0] > m ==> f(s[0]) > f(m);
    }
  }

  lemma MedianMapped(c: seq<real>, f: real -> real)
    requires |c| == 64 && StrictlyIncreasing(f)
    ensures Median(Mapped(c, f)) == f(Median(c))
  {
    var ac, m := Ac(c), Median(c);
    assert Ac(Mapped(c, f)) == Mapped(ac, f);
    SortedIsNth(ac, 31);
    SortedIsNth(Mapped(ac, f), 31);
    CountMapped(ac, f, m, false);
    CountMapped(ac, f, m, true);
    var i :| 0 <= i < |ac| && ac[i] == m;
    assert Mapped(ac, f)[i] == f(m);
    NthUnique(Mapped(ac, f), 31, f(m), Median(Mapped(c, f)));
  }

  /** Any strictly increasing change of all 64 coefficients leaves the hash as it was. */
  lemma HashOrderInvariant(c: seq<real>, f: real -> real)
    requires |c| == 64 && StrictlyIncreasing(f)
    ensures Hash(Mapped(c, f)) == Hash(c)
  {
    MedianMapped(c, f);
    var m := Median(c);
    forall i | 0 <= i < 64 ensures (f(c[i]) > f(m)) == (c[i] > m) {
      assert c[i] < m ==> f(c[i]) < f(m);
    }
    assert Above(Mapped(c, f), f(m)) == Above(c, m);
  }

  /** A positive contrast scale is one such change. */
  lemma HashContrastInvariant(c: seq<real>, gain: real, offset: real)
    requires |c| == 64 && gain > 0.0
    ensures Hash(Mapped(c, x => gain * x + offset)) == Hash(c)
  {
    var f := (x: real) => gain * x + offset;
    forall x: real, y: real | x < y ensures f(x) < f(y) {
      assert gain * (y - x) > 0.0;
      assert f(y) - f(x) == gain * (y - x);
    }
    HashOrderInvariant(c, f);
    assert Mapped(c, x => gain * x + offset) == Mapped(c, f);
  }

  /** The DC coefficient has no say in any bit but its own. */
  lemma DcTouchesBitZeroOnly(c: seq<real>, dc: real)
    requires |c| == 64
    ensures AcHash(c[0 := dc]) == AcHash(c)
    ensures Hamming(Hash(c[0 := dc]), Hash(c)) <= 1
    ensures Hash(c[0 := dc]) == Hash(c) <==> (dc > Median(c) <==> c[0] > Median(c))
  {
    var d := c[0 := dc];
    assert Ac(d) == Ac(c);
    AcHashBits(c);
    AcHashBits(d);
    HammingStep(Hash(d), Hash(c));
    HammingZero(AcHash(d), AcHash(c));
  }

  // ---- weight -----------------------------------------------------------------------

  lemma {:induction false} WeightAbove(s: seq<real>, m: real)
    ensures CountTrue(Above(s, m)) == |s| - CountBelow(s, m, true)
  {
    if s != [] {
      assert Above(s, m)[1..] == Above(s[1..], m);
      WeightAbove(s[1..], m);
    }
  }

  lemma {:induction false} DistinctTies(s: seq<real>, m: real)
    requires Distinct(s)
    ensures CountBelow(s, m, true) == CountBelow(s, m, false) + (if m in s then 1 else 0)
  {
    if s != [] {
      DistinctTies(s[1..], m);
    }
  }

  /** Thresholding at the median sets at most 31 of the 63 AC bits, and exactly 31 when there are no ties. */
  lemma HashWeight(c: seq<real>)
    requires |c| == 64
    ensures Popcount(AcHash(c)) <= 31 && Popcount(Hash(c)) <= 32
    ensures Distinct(Ac(c)) ==> Popcount(AcHash(c)) == 31
  {
    var m := Median(c);
    SortedIsNth(Ac(c), 31);
    AcHashBits(c);
    PopcountOfWord(Above(Ac(c), m));
    WeightAbove(Ac(c), m);
    if Distinct(Ac(c)) {
      DistinctTies(Ac(c), m);
    }
  }

  /** Two tie-free frames never differ in an odd number of AC bits. */
  lemma AcDistanceEven(c: seq<real>, d: seq<real>)
    requires |c| == 64 && |d| == 64 && Distinct(Ac(c)) && Distinct(Ac(d))
    ensures Hamming(AcHash(c), AcHash(d)) % 2 == 0
  {
    HashWeight(c);
    HashWeight(d);
    AcHashBits(c);
    AcHashBits(d);
    var x, y := Above(Ac(c), Median(c)), Above(Ac(d), Median(d));
    PopcountOfWord(x);
    PopcountOfWord(y);
    HammingOfWords(x, y);
    DiffParity(x, y);
  }
}
