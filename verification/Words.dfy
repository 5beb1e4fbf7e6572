/** Unsigned machine words as naturals: shift, OR, XOR and population count, and the Hamming
    distance the scene-change detector computes with `std::bitset<64>(a ^ b).count()`. */
module Words {
  import opened Arithmetic

  function Pow2(n: nat): (p: nat)
    ensures p > 0
  {
    if n == 0 then 1 else 2 * Pow2(n - 1)
  }

  function Or(a: nat, b: nat): nat
    decreases a + b
  {
    if a == 0 && b == 0 then 0
    else (if a % 2 == 1 || b % 2 == 1 then 1 else 0) + 2 * Or(a / 2, b / 2)
  }

  function Xor(a: nat, b: nat): nat
    decreases a + b
  {
    if a == 0 && b == 0 then 0
    else (if a % 2 != b % 2 then 1 else 0) + 2 * Xor(a / 2, b / 2)
  }

  function Popcount(n: nat): nat {
    if n == 0 then 0 else n % 2 + Popcount(n / 2)
  }

  function Hamming(a: nat, b: nat): nat {
    Popcount(Xor(a, b))
  }

  /** The word whose bit `i` is `bits[i]`. */
  function ToWord(bits: seq<bool>): nat {
    if bits == [] then 0 else (if bits[0] then 1 else 0) + 2 * ToWord(bits[1..])
  }

  function CountTrue(bits: seq<bool>): nat {
    if bits == [] then 0 else (if bits[0] then 1 else 0) + CountTrue(bits[1..])
  }

  /** Number of positions at which two bit strings differ. */
  function CountDiff(a: seq<bool>, b: seq<bool>): nat
    requires |a| == |b|
  {
    if a == [] then 0 else (if a[0] != b[0] then 1 else 0) + CountDiff(a[1..], b[1..])
  }

  lemma {:induction false} HammingStep(a: nat, b: nat)
    ensures Hamming(a, b) == (if a % 2 != b % 2 then 1 else 0) + Hamming(a / 2, b / 2)
  {
    if a != 0 || b != 0 {
      var low := if a % 2 != b % 2 then 1 else 0;
      assert Xor(a, b) == low + 2 * Xor(a / 2, b / 2);
      assert Xor(a, b) % 2 == low && Xor(a, b) / 2 == Xor(a / 2, b / 2);
    }
  }

  lemma {:induction false} HammingSymmetric(a: nat, b: nat)
    ensures Hamming(a, b) == Hamming(b, a)
    decreases a + b
  {
    if a != 0 || b != 0 {
      HammingStep(a, b);
      HammingStep(b, a);
      HammingSymmetric(a / 2, b / 2);
    }
  }

  /** The Hamming distance is a metric: the triangle inequality on words of any width. */
  lemma {:induction false} HammingTriangle(a: nat, b: nat, c: nat)
    ensures Hamming(a, c) <= Hamming(a, b) + Hamming(b, c)
    decreases a + b + c
  {
    if a != 0 || b != 0 || c != 0 {
      HammingStep(a, b);
      HammingStep(b, c);
      HammingStep(a, c);
      HammingTriangle(a / 2, b / 2, c / 2);
    }
  }

  lemma {:induction false} HammingZero(a: nat, b: nat)
    ensures Hamming(a, b) == 0 <==> a == b
    decreases a + b
  {
    if a != 0 || b != 0 {
      HammingStep(a, b);
      HammingZero(a / 2, b / 2);
    }
  }

  lemma {:induction false} WordParts(bits: seq<bool>)
    requires bits != []
    ensures ToWord(bits) / 2 == ToWord(bits[1..])
    ensures ToWord(bits) % 2 == if bits[0] then 1 else 0
  {
  }

  lemma {:induction false} WordBounded(bits: seq<bool>)
    ensures ToWord(bits) < Pow2(|bits|)
  {
    if bits != [] {
      WordBounded(bits[1..]);
    }
  }

  /** Bit `i` of the word is `bits[i]`. */
  lemma {:induction false} BitOfWord(bits: seq<bool>, i: nat)
    requires i < |bits|
    ensures ToWord(bits) / Pow2(i) % 2 == if bits[i] then 1 else 0
  {
    WordParts(bits);
    if i > 0 {
      BitOfWord(bits[1..], i - 1);
      HalveThenDivide(ToWord(bits), Pow2(i - 1));
    }
  }

  lemma HalveThenDivide(n: nat, d: nat)
    requires d > 0
    ensures n / (2 * d) == n / 2 / d
  {
    var q := n / 2 / d;
    var r := n / 2 - q * d;
    assert 0 <= r < d;
    assert n == 2 * (q * d) + 2 * r + n % 2;
    assert 2 * (q * d) == q * (2 * d);
    FloorUnique(n, 2 * d, q);
  }

  /** `bitset::count` on a word is the number of set bits. */
  lemma {:induction false} PopcountOfWord(bits: seq<bool>)
    ensures Popcount(ToWord(bits)) == CountTrue(bits)
  {
    if bits != [] {
      WordParts(bits);
      PopcountOfWord(bits[1..]);
    }
  }

  /** XOR followed by population count is the number of differing positions. */
  lemma {:induction false} HammingOfWords(a: seq<bool>, b: seq<bool>)
    requires |a| == |b|
    ensures Hamming(ToWord(a), ToWord(b)) == CountDiff(a, b)
  {
    if a != [] {
      WordParts(a);
      WordParts(b);
      HammingStep(ToWord(a), ToWord(b));
      HammingOfWords(a[1..], b[1..]);
    }
  }

  /** OR-ing `1 << |bits|` into the word of `bits` appends a set bit; leaving it out appends a clear one. */
  lemma {:induction false} SetNextBit(bits: seq<bool>)
    ensures Or(ToWord(bits), Pow2(|bits|)) == ToWord(bits + [true])
    ensures ToWord(bits) == ToWord(bits + [false])
  {
    if bits == [] {
      assert Or(0, 1) == 1 + 2 * Or(0, 0);
      assert ToWord([true]) == 1 + 2 * ToWord([true][1..]);
    } else {
      SetNextBit(bits[1..]);
      assert (bits + [true])[1..] == bits[1..] + [true];
      assert (bits + [false])[1..] == bits[1..] + [false];
      WordParts(bits);
      assert Pow2(|bits|) / 2 == Pow2(|bits| - 1) && Pow2(|bits|) % 2 == 0;
      assert Or(ToWord(bits), Pow2(|bits|))
          == (if bits[0] then 1 else 0) + 2 * Or(ToWord(bits[1..]), Pow2(|bits[1..]|));
    }
  }

  /** The distance between two bit strings has the parity of the sum of their weights. */
  lemma {:induction false} DiffParity(a: seq<bool>, b: seq<bool>)
    requires |a| == |b|
    ensures CountDiff(a, b) % 2 == (CountTrue(a) + CountTrue(b)) % 2
  {
    if a != [] {
      DiffParity(a[1..], b[1..]);
    }
  }
}
