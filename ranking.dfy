/** The ranking order of pixels: the comparison as the source computes it,
    with Java's 32-bit int arithmetic and its saturating, truncating cast
    from a floating-point difference, beside an explicit three-key
    comparator that states the order the source intends. */
module Ranking {

  const MinInt: int := -0x8000_0000
  const MaxInt: int := 0x7fff_ffff

  /** A value of Java's `int` type. */
  type Int32 = n: int | MinInt <= n <= MaxInt

  /** The ranking keys of a pixel: its score, its row and its helper flag. */
  datatype RankKey = RankKey(score: real, y: Int32, helper: bool)

  /** Java int arithmetic: the result of an operation reduced, with
      two's-complement wrap-around, into the int range. */
  function Wrap32(n: int): (r: Int32)
    ensures (r - n) % 0x1_0000_0000 == 0
    ensures MinInt <= n <= MaxInt ==> r == n
  {
    (n - MinInt) % 0x1_0000_0000 + MinInt
  }

  /** Java's `(int)` cast of a floating-point value: rounds toward zero and
      saturates at the ends of the int range. */
  function CastToInt(d: real): (n: Int32)
    ensures n > 0 <==> d >= 1.0
    ensures n < 0 <==> d <= -1.0
    ensures 0.0 <= d <= MaxInt as real ==> n as real <= d < n as real + 1.0
    ensures MinInt as real <= d <= 0.0 ==> n as real - 1.0 < d <= n as real
    ensures d >= MaxInt as real ==> n == MaxInt
    ensures d <= MinInt as real ==> n == MinInt
  {
    var t := if d >= 0.0 then d.Floor else -((-d).Floor);
    if t < MinInt then MinInt else if t > MaxInt then MaxInt else t
  }

  /** Pixel.compareTo as the source writes it: the score difference, or,
      on equal scores, the int difference of the rows, or, on equal rows,
      the helper adjustment; scaled by 10^9 and cast to int. */
  function CompareAsWritten(a: RankKey, b: RankKey): (r: Int32)
    ensures a == b ==> r == 0
    ensures a.score == b.score && a.y == b.y ==> (r < 0 <==> a.helper && !b.helper)
    ensures a.score == b.score && a.y == b.y ==> (r == 0 <==> a.helper == b.helper)
  {
    var byScore := b.score - a.score;
    var byRow := if byScore == 0.0 then Wrap32(a.y - b.y) as real else byScore;
    var byHelper :=
      if byRow == 0.0
      then byRow + (if b.helper then 1.0 else 0.0) - (if a.helper then 1.0 else 0.0)
      else byRow;
    CastToInt(byHelper * 1_000_000_000.0)
  }

  /** The sign of an int: -1, 0 or 1. */
  function Sign(n: int): (s: int)
    ensures s == -1 || s == 0 || s == 1
    ensures (s < 0 <==> n < 0) && (s > 0 <==> n > 0)
  {
    if n < 0 then -1 else if n > 0 then 1 else 0
  }

  /** The ranking order stated key by key: a higher score first, then the
      lower row, then a helper pixel before a non-helper one. The result is
      negative when `a` ranks first. */
  function Compare(a: RankKey, b: RankKey): (r: int)
    ensures r == -1 || r == 0 || r == 1
    ensures a.score > b.score ==> r < 0
    ensures a.score == b.score && a.y < b.y ==> r < 0
    ensures a.score == b.score && a.y == b.y && a.helper && !b.helper ==> r < 0
    ensures r == 0 <==> a == b
  {
    if a.score != b.score then (if a.score > b.score then -1 else 1)
    else if a.y != b.y then (if a.y < b.y then -1 else 1)
    else if a.helper == b.helper then 0
    else if a.helper then -1 else 1
  }

  /** Swapping the arguments of the comparator negates its result. */
  lemma CompareAntisymmetric(a: RankKey, b: RankKey)
    ensures Compare(a, b) == -Compare(b, a)
  {
  }

  /** The comparator is transitive, so with antisymmetry and totality (zero
      only on equal keys) it is a total order on ranking keys. */
  lemma CompareTransitive(a: RankKey, b: RankKey, c: RankKey)
    requires Compare(a, b) <= 0 && Compare(b, c) <= 0
    ensures Compare(a, c) <= 0
    ensures Compare(a, c) == 0 ==> a == b == c
  {
  }

  /** The inputs on which the source's arithmetic keeps every sign: score
      differences are zero or at least 10^-9, and the row difference fits an
      int. */
  predicate Representable(a: RankKey, b: RankKey) {
    (a.score == b.score || a.score - b.score >= 0.000_000_001 || b.score - a.score >= 0.000_000_001) &&
    MinInt <= a.y - b.y <= MaxInt
  }

  /** Where its arithmetic is exact enough, the source's comparison has the
      sign of the intended three-key order. */
  lemma CompareAsWrittenSign(a: RankKey, b: RankKey)
    requires Representable(a, b)
    ensures Sign(CompareAsWritten(a, b)) == Compare(a, b)
  {
  }

  /** Finding: a score difference below 10^-9 scales to less than one and the
      cast rounds it to zero, so two pixels with different scores and
      different rows compare as equal. */
  lemma TinyScoreDifferenceIgnored()
    ensures CompareAsWritten(RankKey(0.0, 0, false), RankKey(0.000_000_000_1, 1, false)) == 0
    ensures Compare(RankKey(0.0, 0, false), RankKey(0.000_000_000_1, 1, false)) == 1
  {
  }

  /** Finding: the row difference is computed in int and wraps around, so a
      pixel in row MinInt compares below a pixel in row 0 AND that pixel
      compares below it, although the row order is strict. */
  lemma RowDifferenceOverflow()
    ensures CompareAsWritten(RankKey(0.0, MinInt, false), RankKey(0.0, 0, false)) < 0
    ensures CompareAsWritten(RankKey(0.0, 0, false), RankKey(0.0, MinInt, false)) < 0
    ensures Compare(RankKey(0.0, 0, false), RankKey(0.0, MinInt, false)) > 0
  {
    assert Wrap32(0 - MinInt) == MinInt;
    assert Wrap32(MinInt - 0) == MinInt;
  }
}
