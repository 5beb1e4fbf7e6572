/** The engine's two pure helpers: even sub-sampling of frames and cutting the answer into chunks. */
module VlmEngine {
  import opened Arithmetic

  /** Most frames handed to the model, and characters per streamed chunk. */
  const MAX_FRAMES: nat := 4
  const CHUNK_SIZE: nat := 64

  /** Position of sample `i`: `linspace(0, n - 1, m)[i]` in exact rationals, truncated. */
  function SampleIndex(n: nat, m: nat, i: nat): (k: nat)
    requires n >= 1 && i < m
    ensures k < n
  {
    if m == 1 then 0
    else
      IndexInRange(n - 1, m - 1, i);
      i * (n - 1) / (m - 1)
  }

  function SampleFrames<T>(frames: seq<T>, m: nat): (r: seq<T>)
    ensures |r| == if |frames| <= m then |frames| else m
  {
    if |frames| <= m then frames
    else seq(m, i requires 0 <= i < m => frames[SampleIndex(|frames|, m, i)])
  }

  lemma IndexInRange(q: nat, d: nat, i: nat)
    requires d >= 1 && i <= d
    ensures 0 <= i * q / d <= q
  {
    MulMonotone(i, d, q);
    FloorUnique(i * q, d, i * q / d);
    if i * q / d > q {
      MulMonotone(q + 1, i * q / d, d);
      assert false;
    }
  }

  /** Positions are truncated: each is the last frame at or before its exact place. */
  lemma SampleTruncates(n: nat, m: nat, i: nat)
    requires n >= 1 && i < m
    ensures var k := SampleIndex(n, m, i);
            if m == 1 then k == 0 else k * (m - 1) <= i * (n - 1) < (k + 1) * (m - 1)
  {
    if m > 1 {
      FloorUnique(i * (n - 1), m - 1, SampleIndex(n, m, i));
    }
  }

  /** Neighbouring samples are the floor or the ceiling of `(n-1)/(m-1)` apart. */
  lemma SampleGap(n: nat, m: nat, i: nat)
    requires n > m >= 2 && i + 1 < m
    ensures var gap, q := SampleIndex(n, m, i + 1) - SampleIndex(n, m, i), (n - 1) / (m - 1);
            gap >= 1 && (gap == q || (gap == q + 1 && (n - 1) % (m - 1) != 0))
  {
    assert (i + 1) * (n - 1) == i * (n - 1) + (n - 1);
    FloorGap(i * (n - 1), n - 1, m - 1);
    FloorUnique(n - 1, m - 1, (n - 1) / (m - 1));
  }

  /** Sampling starts at the first frame and ends at the last. */
  lemma SampleEnds(n: nat, m: nat)
    requires n > m >= 2
    ensures SampleIndex(n, m, 0) == 0 && SampleIndex(n, m, m - 1) == n - 1
  {
    FloorUnique((m - 1) * (n - 1), m - 1, n - 1);
    FloorUnique(0, m - 1, 0);
  }

  lemma {:induction false} SampleIncreasing(n: nat, m: nat, i: nat, j: nat)
    requires n > m >= 2 && i < j < m
    ensures SampleIndex(n, m, i) < SampleIndex(n, m, j)
    decreases j
  {
    SampleGap(n, m, j - 1);
    if i < j - 1 {
      SampleIncreasing(n, m, i, j - 1);
    }
  }

  /** `r` is `s` with elements left out: `at` gives where each element of `r` came from. */
  ghost predicate Subsequence<T>(r: seq<T>, s: seq<T>, at: seq<nat>) {
    && |at| == |r|
    && (forall i | 0 <= i < |r| :: at[i] < |s| && r[i] == s[at[i]])
    && (forall i, j | 0 <= i < j < |at| :: at[i] < at[j])
  }

  /** Where each sample came from. */
  function SamplePositions(n: nat, m: nat): (at: seq<nat>)
    ensures |at| == if n <= m then n else m
  {
    if n <= m then seq(n, i => i) else seq(m, i requires 0 <= i < m => SampleIndex(n, m, i))
  }

  lemma PositionsIncrease(n: nat, m: nat, i: nat, j: nat)
    requires i < j < |SamplePositions(n, m)|
    ensures SamplePositions(n, m)[i] < SamplePositions(n, m)[j]
  {
    if n > m {
      SampleIncreasing(n, m, i, j);
    }
  }

  /** The samples are frames of the input in their order; with at least two of them, the first and the
      newest frame are among them. */
  lemma SampleKeepsOrder<T>(frames: seq<T>, m: nat)
    ensures Subsequence(SampleFrames(frames, m), frames, SamplePositions(|frames|, m))
    ensures frames != [] && m >= 2 ==>
              var at := SamplePositions(|frames|, m); at != [] && at[0] == 0 && at[|at| - 1] == |frames| - 1
  {
    var n, at := |frames|, SamplePositions(|frames|, m);
    forall i, j | 0 <= i < j < |at| ensures at[i] < at[j] {
      PositionsIncrease(n, m, i, j);
    }
    if n > m >= 2 {
      SampleEnds(n, m);
    }
  }

  // ---- chunks -----------------------------------------------------------------------

  function Pieces(text: string, size: nat): seq<string>
    requires size > 0
  {
    if |text| == 0 then []
    else if |text| <= size then [text]
    else [text[..size]] + Pieces(text[size..], size)
  }

  function ChunkText(text: string): (r: seq<string>)
    ensures r != []
  {
    if Pieces(text, CHUNK_SIZE) == [] then [""] else Pieces(text, CHUNK_SIZE)
  }

  function Concat(parts: seq<string>): string {
    if parts == [] then "" else Concat(parts[..|parts| - 1]) + parts[|parts| - 1]
  }

  lemma {:induction false} ConcatCons(head: string, parts: seq<string>)
    ensures Concat([head] + parts) == head + Concat(parts)
  {
    if parts == [] {
      assert [head] + parts == [head];
    } else {
      ConcatCons(head, parts[..|parts| - 1]);
      assert ([head] + parts)[..|parts|] == [head] + parts[..|parts| - 1];
    }
  }

  /** No character is lost, repeated or moved, and every piece but the last has full size. */
  lemma {:induction false} PiecesExact(text: string, size: nat)
    requires size > 0
    ensures Concat(Pieces(text, size)) == text
    ensures var p := Pieces(text, size);
            && (forall i | 0 <= i < |p| - 1 :: |p[i]| == size)
            && (p != [] ==> 0 < |p[|p| - 1]| <= size)
  {
    if |text| > size {
      PiecesExact(text[size..], size);
      ConcatCons(text[..size], Pieces(text[size..], size));
    } else if |text| > 0 {
      assert Concat([text]) == Concat([]) + text;
    }
  }

  lemma {:induction false} PiecesCount(text: string, size: nat)
    requires size > 0
    ensures |Pieces(text, size)| == (|text| + size - 1) / size
  {
    var k: int := |Pieces(text, size)|;
    if |text| > size {
      PiecesCount(text[size..], size);
      FloorUnique(|text[size..]| + size - 1, size, k - 1);
      assert k * size == (k - 1) * size + size;
    }
    FloorUnique(|text| + size - 1, size, k);
  }

  /** The chunks of an answer put together again are the answer: 64 characters each, but for the last, and
      one empty chunk for an empty answer. */
  lemma ChunksRebuild(text: string)
    ensures Concat(ChunkText(text)) == text
    ensures var chunks := ChunkText(text);
            && (text == "" ==> chunks == [""])
            && (text != "" ==> 0 < |chunks[|chunks| - 1]| <= 64)
            && forall i | 0 <= i < |chunks| - 1 :: |chunks[i]| == 64
  {
    PiecesExact(text, CHUNK_SIZE);
    if Pieces(text, CHUNK_SIZE) == [] {
      assert Concat([""]) == Concat([]) + "";
    }
  }
}
