# Pixel placement calculator: the pixel value layer

This project models `Pixel.java` from the pixel-placement calculator, a tool that tells a player
where to put the next pixel on the staggered backdrop of a tile puzzle. That file holds three things.
The first is the `Color` enumeration: four physical pixel colours (PURPLE, YELLOW, GREEN, WHITE) and
four placeholders (EMPTY, ANY, ANYCOLOR, INVALID). On it the file defines the ambiguity-aware
`matches` relation, token parsing and the one-letter and digit forms. The second is the `Pixel`
class: fixed coordinates and colour, plus mutable fields for a recommended colour, a score, a
mosaic reference and a helper flag. The third is pixel identity by coordinates, together with the `compareTo` ranking order.

Modules:

- `Colors` (colors.dfy) covers the `Color` enumeration. It holds `Matches`, `IsColored`,
  `FromString` (with ASCII upper-casing), `Letter` and `HumanInstruction`. The lemmas on matching
  prove symmetry, non-transitivity and agreement with an independent "admitted pixels" reading. The
  lemmas on the parser prove the round trip from letter to parse and case-insensitivity.
- `Ranking` (ranking.dfy) covers the ranking comparison. It models Java's 32-bit `int`
  wrap-around and the truncating, saturating `(int)` cast. `CompareAsWritten` is `compareTo` exactly
  as the source computes it, with scores as exact reals. `Compare` is the explicit three-key order
  the source intends. The module proves where the two agree in sign, and exhibits the two inputs where they do not.
- `Pixels` (pixels.dfy) covers the `Pixel` class. It holds the constructors, clone, coordinate
  identity, the accessors `GetColor` and `InMosaic`, the step-by-step `CompareTo` method, the two
  first-match searches and the column name `UserFriendlyX`.

The source returns a sentinel when the colour search finds nothing: a fresh EMPTY pixel in column -2
or 9. The model keeps the source's off-board sentinel and proves that it lies off the board (its
column name is UNKNOWN). On equal score and row the source ranks a helper pixel first; the model
follows the source.

## Model

| member | source | states |
|---|---|---|
| `Colors.Color.IsColored` | app/src/main/java/pixelcalc/algorithm/Pixel.java:213-215 | The ordinal test `<= 2` holds exactly for PURPLE, YELLOW and GREEN, so WHITE is not coloured |
| `Colors.Color.Matches` | app/src/main/java/pixelcalc/algorithm/Pixel.java:201-207 | INVALID on either side never matches. ANY matches every non-INVALID colour, EMPTY and ANYCOLOR included. Two physical colours match iff they are equal. A colour matches ANYCOLOR iff it is coloured, ANYCOLOR or ANY, so WHITE and EMPTY do not |
| `Colors.MatchesSymmetric` | app/src/main/java/pixelcalc/algorithm/Pixel.java:201-207 | `a.Matches(b)` iff `b.Matches(a)` |
| `Colors.MatchesNotTransitive` | app/src/main/java/pixelcalc/algorithm/Pixel.java:201-207 | PURPLE matches ANY and ANY matches YELLOW, but PURPLE does not match YELLOW |
| `Colors.MatchesReflexive` | app/src/main/java/pixelcalc/algorithm/Pixel.java:201-207 | A colour matches itself iff it is not INVALID |
| `Colors.MatchesByAdmits` | app/src/main/java/pixelcalc/algorithm/Pixel.java:201-215 | Matching agrees with an independent reading. Two valid colours match iff they are equal, or one is ANY, or some physical pixel is admitted by both |
| `Colors.Color.Letter` | app/src/main/java/pixelcalc/algorithm/Pixel.java:161-171 | Every colour has a one-character letter that is never `#` (P, Y, G, W, A, C, blank, `_`) |
| `Colors.ToUpper` | app/src/main/java/pixelcalc/algorithm/Pixel.java:185 | Upper-casing keeps the length and maps each character by the ASCII rule |
| `Colors.ToUpperIdempotent` | app/src/main/java/pixelcalc/algorithm/Pixel.java:185 | Upper-casing twice is the same as upper-casing once |
| `Colors.FromString` | app/src/main/java/pixelcalc/algorithm/Pixel.java:184-195 | The parser is total. Only a one-character token can give a colour other than EMPTY |
| `Colors.FromStringCaseInsensitive` | app/src/main/java/pixelcalc/algorithm/Pixel.java:184-195 | A token and its upper-cased form parse to the same colour |
| `Colors.LetterParses` | app/src/main/java/pixelcalc/algorithm/Pixel.java:161-195 | For every colour, its letter parses back to it |
| `Colors.LetterRoundTrip` | app/src/main/java/pixelcalc/algorithm/Pixel.java:161-195 | Any token that upper-cases to a colour's letter, such as "p" for PURPLE, parses to that colour |
| `Colors.FromStringInverse` | app/src/main/java/pixelcalc/algorithm/Pixel.java:184-195 | A token that parses to a non-EMPTY colour is that colour's letter in upper or lower case, or it is "#" giving ANY |
| `Colors.FromStringSpecialTokens` | app/src/main/java/pixelcalc/algorithm/Pixel.java:184-195 | "#", "A" and "a" give ANY. A blank gives INVALID. "_" gives EMPTY |
| `Colors.Color.HumanInstruction` | app/src/main/java/pixelcalc/algorithm/Pixel.java:173-178 | The instruction is non-empty iff the colour is physical, and is then a single digit from 0 to 3 |
| `Colors.HumanInstructionTable` | app/src/main/java/pixelcalc/algorithm/Pixel.java:173-178 | WHITE gives 0, PURPLE 1, YELLOW 2 and GREEN 3 |
| `Colors.HumanInstructionInjective` | app/src/main/java/pixelcalc/algorithm/Pixel.java:173-178 | Distinct physical colours get distinct digits |
| `Ranking.Wrap32` | app/src/main/java/pixelcalc/algorithm/Pixel.java:15 | Java int subtraction is congruent to the exact difference modulo 2^32 and equal to it when it fits |
| `Ranking.CastToInt` | app/src/main/java/pixelcalc/algorithm/Pixel.java:22 | The `(int)` cast truncates toward zero: inside the int range it is the largest int not above a non-negative value and the smallest int not below a non-positive one. It saturates to MaxInt and MinInt outside the range. It is positive iff the value is at least 1 and negative iff it is at most -1 |
| `Ranking.CompareAsWritten` | app/src/main/java/pixelcalc/algorithm/Pixel.java:12-23 | Equal keys compare as 0. On equal score and row, the result is negative iff only `this` is a helper, and 0 iff both or neither are |
| `Ranking.Compare` | app/src/main/java/pixelcalc/algorithm/Pixel.java:12-23 | The intended order. A higher score ranks first, then a lower row, then a helper before a non-helper. The result is 0 iff the keys are equal |
| `Ranking.CompareAntisymmetric` | app/src/main/java/pixelcalc/algorithm/Pixel.java:12-23 | Swapping the arguments negates the comparison |
| `Ranking.CompareTransitive` | app/src/main/java/pixelcalc/algorithm/Pixel.java:12-23 | The comparison is transitive, and a chain that ends at 0 has all keys equal, so it is a total order |
| `Ranking.CompareAsWrittenSign` | app/src/main/java/pixelcalc/algorithm/Pixel.java:12-23 | Where score differences are zero or at least 10^-9 and the row difference fits an int, the source's result has the sign of the intended order |
| `Ranking.TinyScoreDifferenceIgnored` | app/src/main/java/pixelcalc/algorithm/Pixel.java:22 | Scores 0 and 10^-10 in rows 0 and 1 compare as 0 in the source, although the intended order ranks the higher score first |
| `Ranking.RowDifferenceOverflow` | app/src/main/java/pixelcalc/algorithm/Pixel.java:15 | With equal scores, rows MinInt and 0 compare negative in BOTH argument orders in the source |
| `Pixels.Pixel.constructor` | app/src/main/java/pixelcalc/algorithm/Pixel.java:25-37 | A new pixel has the given coordinates and colour. It has no recommendation (EMPTY), score 0, no mosaic and no helper flag, so it is in no valid mosaic |
| `Pixels.Pixel.Copy` | app/src/main/java/pixelcalc/algorithm/Pixel.java:43-48 | The copy keeps the position, score, helper flag and recommendation, takes the new colour and has no mosaic, so it is in no valid mosaic. It equals the original and has the same ranking keys |
| `Pixels.Pixel.Clone` | app/src/main/java/pixelcalc/algorithm/Pixel.java:53-55 | The clone is a fresh, distinct object with all fields of the original except the mosaic, so it is in no valid mosaic. It is equal to the original and shows the same colour |
| `Pixels.Pixel.Equals` | app/src/main/java/pixelcalc/algorithm/Pixel.java:63-65 | Identity by coordinates only, read from the constant fields; two equal pixels carry the same column name |
| `Pixels.Pixel.EqualsObject` | app/src/main/java/pixelcalc/algorithm/Pixel.java:57-61 | Only a non-null pixel can be equal, and then equality is coordinate identity |
| `Pixels.EqualsEquivalence` | app/src/main/java/pixelcalc/algorithm/Pixel.java:63-65 | Coordinate identity is reflexive, symmetric and transitive. It reads only the constant coordinates, so colour, score, recommendation and mosaic cannot affect it |
| `Pixels.Pixel.GetColor` | app/src/main/java/pixelcalc/algorithm/Pixel.java:112-114 | The shown colour is the recommendation or the placed colour. A non-EMPTY recommendation wins. It is EMPTY only when both are EMPTY |
| `Pixels.Pixel.InMosaic` | app/src/main/java/pixelcalc/algorithm/Pixel.java:70-72 | Holds iff there is a mosaic and its colour is not INVALID. Every pixel made by a constructor, a copy, a clone or the search sentinel starts outside any valid mosaic |
| `Pixels.Pixel.CompareTo` | app/src/main/java/pixelcalc/algorithm/Pixel.java:12-23 | The step-by-step method returns the source's value. Where the arithmetic is exact enough, its sign is the intended three-key order |
| `Pixels.Pixel.GetCounterpartIn` | app/src/main/java/pixelcalc/algorithm/Pixel.java:87-92 | Returns null iff no element has this pixel's coordinates. Otherwise it returns the FIRST element that does |
| `Pixels.Pixel.IsIn` | app/src/main/java/pixelcalc/algorithm/Pixel.java:78-80 | Holds iff some element has this pixel's coordinates, which is exactly when the counterpart search is non-null |
| `Pixels.Pixel.UserFriendlyX` | app/src/main/java/pixelcalc/algorithm/Pixel.java:116-127 | The name is UNKNOWN iff the column is outside 0..6. It is DEAD CENTER iff the column is 3 on an odd row |
| `Pixels.UserFriendlyXMirrored` | app/src/main/java/pixelcalc/algorithm/Pixel.java:116-127 | On the board, the mirror column of a row has the mirrored name (LEFT and RIGHT swapped) |
| `Pixels.UserFriendlyXDistinct` | app/src/main/java/pixelcalc/algorithm/Pixel.java:116-127 | Within a row, different board columns have different names |
| `Pixels.ColorCounterpartIn` | app/src/main/java/pixelcalc/algorithm/Pixel.java:223-228 | Returns the FIRST pixel whose placed colour the given colour matches. If there is none, it returns a fresh EMPTY pixel at (-2, 0) for red or (9, 0) otherwise, with default scoring state, an UNKNOWN column name and no valid mosaic |

## Left out

- Presentation is left out because it only formats output. This covers the ANSI escape codes, the
  `printInColor` flag, `Color.toString` beyond its plain letter, `Pixel.toString`,
  `userFriendlyString` and `print` (Pixel.java:98-110, 132-136, 152, 161-171).
- Floating point is not modelled. Scores are exact reals, so NaN, infinities and rounding of the
  double subtraction are not captured. The `(int)` cast is modelled as truncation toward zero with
  saturation.
- `Colors.ToUpper`: models ASCII letters only. Java's `toUpperCase` is Unicode-aware and
  locale-dependent and can change a token's length.
- A null collection, a null element in it, or a null token would throw in Java. The model does not
  include these, because its sequences and strings cannot hold null.
- `Iterable<Pixel>` is modelled as a sequence of pixels.
- The mutable fields `recommended`, `scoreValue`, `mosaic` and `mHelper` are assigned by the grid
  and calculator classes. Those classes are not part of this model.
- `Backdrop` and `PlacementCalculator` are not part of this model. This leaves out mosaic
  detection, adjacency, fullness, mosaic counting and ranking of placements.
- The console driver `AlgorithmTesting.java` is left out because it is interactive I/O. Its board
  layout (even rows use columns 1-6, odd rows 0-6) is used only to state the board in the
  `UserFriendlyX` lemmas.

## Findings

| source | as written | input that shows it | evidently intended | confidence | as-written member | corrected member |
|---|---|---|---|---|---|---|
| app/src/main/java/pixelcalc/algorithm/Pixel.java:22 | The score difference is scaled by 10^9 and cast to int, so a nonzero difference below 10^-9 becomes 0 and the lower keys are never consulted | scores 0 and 10^-10, rows 0 and 1: the result is 0 | a higher score ranks first, and keys that differ never compare as 0 | not executed | `Ranking.TinyScoreDifferenceIgnored` | `Ranking.Compare` |
| app/src/main/java/pixelcalc/algorithm/Pixel.java:15 | `this.y - other.y` is int subtraction and wraps around | equal scores, rows MinInt and 0: negative in both orders | the lower row ranks first, antisymmetrically | not executed; board rows are small, so this is unreachable in normal play | `Ranking.RowDifferenceOverflow` | `Ranking.Compare` |
