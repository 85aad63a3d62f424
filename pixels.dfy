/** A pixel on the backdrop: its fixed coordinates and colour, its mutable
    recommendation, score, mosaic and helper flag, identity by
    coordinates, and the two first-match searches over a pixel collection. */
module Pixels {
  import opened Colors
  import opened Ranking

  class Pixel {
    const x: Int32
    const y: Int32
    const color: Color
    /** A colour suggested for this position; EMPTY when there is none. */
    var recommended: Color
    var score: real
    /** The pixel standing for the mosaic this one belongs to, if any. */
    var mosaic: Pixel?
    /** A flag the ranking order uses as its last key. */
    var helper: bool

    constructor (x: Int32, y: Int32, color: Color)
      ensures this.x == x && this.y == y && this.color == color
      ensures recommended == Empty && score == 0.0 && mosaic == null && !helper
      ensures !InMosaic()
    {
      this.x, this.y, this.color := x, y, color;
      recommended, score, mosaic, helper := Empty, 0.0, null, false;
    }

    /** A pixel at the position of `p`, with `p`'s scoring state, holding a
        new colour; it belongs to no mosaic. */
    constructor Copy(p: Pixel, color: Color)
      ensures x == p.x && y == p.y && this.color == color
      ensures recommended == p.recommended && score == p.score && helper == p.helper
      ensures mosaic == null
      ensures Equals(p) && Key() == p.Key()
      ensures !InMosaic()
    {
      this.x, this.y, this.color := p.x, p.y, color;
      recommended, score, mosaic, helper := p.recommended, p.score, null, p.helper;
    }

    /** A fresh copy of this pixel, keeping its colour too. */
    method Clone() returns (q: Pixel)
      ensures fresh(q)
      ensures q.x == x && q.y == y && q.color == color
      ensures q.recommended == recommended && q.score == score && q.helper == helper
      ensures q.mosaic == null
      ensures q.Equals(this) && q.GetColor() == GetColor() && q != this
      ensures !q.InMosaic()
    {
      q := new Pixel.Copy(this, color);
    }

    /** Identity of pixels: two pixels are the same position when their
        coordinates agree. Only the constant coordinates are read, so no
        colour, score, recommendation or mosaic can change the answer. */
    predicate Equals(p: Pixel)
      ensures Equals(p) ==> p.UserFriendlyX() == UserFriendlyX()
    {
      p.x == x && p.y == y
    }

    /** Equality against an arbitrary object: only a pixel can be equal. */
    function EqualsObject(o: object?): (r: bool)
      ensures r ==> o != null && o is Pixel
      ensures o is Pixel ==> (r <==> Equals(o as Pixel))
    {
      o is Pixel && Equals(o as Pixel)
    }

    /** The colour shown for this position: the recommendation when there is
        one, the placed colour otherwise. */
    function GetColor(): (c: Color)
      reads this
      ensures c == recommended || c == color
      ensures recommended != Empty ==> c == recommended
      ensures c == Empty ==> recommended == Empty && color == Empty
    {
      if recommended != Empty then recommended else color
    }

    /** Whether this pixel is part of a valid mosaic: it has a mosaic, and
        that mosaic's colour is not INVALID. */
    function InMosaic(): (r: bool)
      reads this
      ensures r ==> mosaic != null && mosaic.color != Invalid
      ensures mosaic != null && mosaic.color != Invalid ==> r
    {
      mosaic != null && mosaic.color != Invalid
    }

    /** The keys the ranking order compares. */
    function Key(): (k: RankKey)
      reads this
      ensures k.score == score && k.y == y && k.helper == helper
    {
      RankKey(score, y, helper)
    }

    /** The ranking comparison, negative when this pixel ranks first. It
        follows the source step by step, so its result is the source's value;
        where that arithmetic is exact enough its sign is the three-key
        order. */
    method CompareTo(other: Pixel) returns (r: Int32)
      ensures r == CompareAsWritten(Key(), other.Key())
      ensures Representable(Key(), other.Key()) ==> Sign(r) == Compare(Key(), other.Key())
    {
      var diff: real := other.score - score;
      if diff == 0.0 {
        diff := Wrap32(y - other.y) as real;
      }
      if diff == 0.0 {
        if other.helper {
          diff := diff + 1.0;
        }
        if helper {
          diff := diff - 1.0;
        }
      }
      r := CastToInt(diff * 1_000_000_000.0);
      if Representable(Key(), other.Key()) {
        CompareAsWrittenSign(Key(), other.Key());
      }
    }

    /** The first pixel of `pixels` at this position, or null when there is
        none. */
    method GetCounterpartIn(pixels: seq<Pixel>) returns (r: Pixel?)
      ensures r == null <==> forall i :: 0 <= i < |pixels| ==> !Equals(pixels[i])
      ensures r != null ==>
        exists k :: 0 <= k < |pixels| && pixels[k] == r && Equals(r) &&
          forall j :: 0 <= j < k ==> !Equals(pixels[j])
    {
      for i := 0 to |pixels|
        invariant forall j :: 0 <= j < i ==> !Equals(pixels[j])
      {
        if Equals(pixels[i]) {
          return pixels[i];
        }
      }
      return null;
    }

    /** Whether a pixel at this position occurs in `pixels`. */
    method IsIn(pixels: seq<Pixel>) returns (b: bool)
      ensures b <==> exists i :: 0 <= i < |pixels| && Equals(pixels[i])
    {
      var counterpart := GetCounterpartIn(pixels);
      b := counterpart != null;
    }

    /** The name of this pixel's column as an operator would read it. Even
        rows hold columns 1 to 6 and odd rows columns 0 to 6, offset by half
        a cell; any other column is UNKNOWN. (Java's `y % 2 == 0` and Dafny's
        agree on negative rows too.) */
    function UserFriendlyX(): (s: string)
      ensures s == "UNKNOWN" <==> !(0 <= x <= 6)
      ensures s == "DEAD CENTER" <==> x == 3 && y % 2 != 0
    {
      match x
      case 0 => "FAR LEFT"
      case 1 => if y % 2 == 0 then "FAR LEFT" else "ALMOST FAR LEFT"
      case 2 => if y % 2 == 0 then "ALMOST FAR LEFT" else "LEFT OF CENTER"
      case 3 => if y % 2 == 0 then "CENTER LEFT" else "DEAD CENTER"
      case 4 => if y % 2 == 0 then "CENTER RIGHT" else "RIGHT OF CENTER"
      case 5 => "ALMOST FAR RIGHT"
      case 6 => "FAR RIGHT"
      case _ => "UNKNOWN"
    }
  }

  /** The first pixel of `pixels` whose placed colour `c` matches; when there
      is none, a fresh EMPTY pixel off the board, in column -2 for the red
      side and column 9 for the blue side. */
  method ColorCounterpartIn(c: Color, pixels: seq<Pixel>, isRed: bool) returns (p: Pixel)
    ensures (exists i :: 0 <= i < |pixels| && c.Matches(pixels[i].color)) ==>
      exists k :: 0 <= k < |pixels| && pixels[k] == p && c.Matches(p.color) &&
        forall j :: 0 <= j < k ==> !c.Matches(pixels[j].color)
    ensures (forall i :: 0 <= i < |pixels| ==> !c.Matches(pixels[i].color)) ==>
      fresh(p) && p.x == (if isRed then -2 else 9) && p.y == 0 && p.color == Empty &&
      p.recommended == Empty && p.score == 0.0 && p.mosaic == null && !p.helper &&
      p.UserFriendlyX() == "UNKNOWN" && !p.InMosaic()
  {
    for i := 0 to |pixels|
      invariant forall j :: 0 <= j < i ==> !c.Matches(pixels[j].color)
    {
      if c.Matches(pixels[i].color) {
        return pixels[i];
      }
    }
    p := new Pixel(if isRed then -2 else 9, 0, Empty);
  }

  /** Pixel identity is an equivalence relation. */
  lemma EqualsEquivalence(p: Pixel, q: Pixel, s: Pixel)
    ensures p.Equals(p)
    ensures p.Equals(q) <==> q.Equals(p)
    ensures p.Equals(q) && q.Equals(s) ==> p.Equals(s)
  {
  }

  /** A position of the board: columns 1 to 6 on even rows and 0 to 6 on odd
      rows. */
  predicate OnBoard(x: int, y: int) {
    if y % 2 == 0 then 1 <= x <= 6 else 0 <= x <= 6
  }

  /** The column at the mirror position of the same row. */
  function MirrorX(x: int, y: int): int {
    if y % 2 == 0 then 7 - x else 6 - x
  }

  /** A column name read from the other side of the board. */
  function MirrorName(s: string): string {
    match s
    case "FAR LEFT" => "FAR RIGHT"
    case "FAR RIGHT" => "FAR LEFT"
    case "ALMOST FAR LEFT" => "ALMOST FAR RIGHT"
    case "ALMOST FAR RIGHT" => "ALMOST FAR LEFT"
    case "LEFT OF CENTER" => "RIGHT OF CENTER"
    case "RIGHT OF CENTER" => "LEFT OF CENTER"
    case "CENTER LEFT" => "CENTER RIGHT"
    case "CENTER RIGHT" => "CENTER LEFT"
    case _ => s
  }

  /** The column names are symmetric: the mirror position of a board
      position carries the mirrored name. */
  lemma UserFriendlyXMirrored(p: Pixel, q: Pixel)
    requires OnBoard(p.x, p.y) && q.y == p.y && q.x == MirrorX(p.x, p.y)
    ensures OnBoard(q.x, q.y)
    ensures q.UserFriendlyX() == MirrorName(p.UserFriendlyX())
  {
  }

  /** Within one row, different board columns have different names, so the
      name identifies the column. */
  lemma UserFriendlyXDistinct(p: Pixel, q: Pixel)
    requires OnBoard(p.x, p.y) && OnBoard(q.x, q.y) && p.y == q.y && p.x != q.x
    ensures p.UserFriendlyX() != q.UserFriendlyX()
  {
  }
}
