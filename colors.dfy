/** The colour of a pixel on a backdrop: the four physical pixel colours and
    the placeholders a backdrop uses for cells that are open, ambiguous or
    outside the board. Declaration order matters, because the source derives
    `isColored` and the digit instructions from the ordinal. */
module Colors {

  datatype Color = Purple | Yellow | Green | White | Empty | Any | AnyColor | Invalid
  {
    /** Position of the colour in the declaration order. */
    function Ordinal(): (n: nat)
      ensures n < 8
    {
      match this
      case Purple => 0
      case Yellow => 1
      case Green => 2
      case White => 3
      case Empty => 4
      case Any => 5
      case AnyColor => 6
      case Invalid => 7
    }

    /** A real pixel colour: WHITE or one of the three "coloured" ones. */
    predicate IsPhysical() {
      this == White || IsColored()
    }

    /** "Coloured" means one of the first three colours: WHITE is a real
        pixel colour but does not count as coloured. */
    function IsColored(): (r: bool)
      ensures r <==> this == Purple || this == Yellow || this == Green
    {
      Ordinal() <= 2
    }

    /** Ambiguity-aware matching: INVALID matches nothing, ANY matches every
        other colour, ANYCOLOR matches the three coloured ones (and itself),
        and otherwise only equal colours match. */
    function Matches(other: Color): (r: bool)
      ensures this == Invalid || other == Invalid ==> !r
      ensures this != Invalid && other != Invalid && (this == Any || other == Any) ==> r
      ensures IsPhysical() && other.IsPhysical() ==> (r <==> this == other)
      ensures other == AnyColor ==> (r <==> IsColored() || this == AnyColor || this == Any)
    {
      (this != Invalid && other != Invalid) &&
      (this == Any ||
       other == Any ||
       this == other ||
       (IsColored() && other == AnyColor) ||
       (this == AnyColor && other.IsColored()))
    }

    /** The plain single-letter form of the colour, without any terminal
        colouring. */
    function Letter(): (s: string)
      ensures |s| == 1
      ensures s[0] != '#'
    {
      match this
      case Purple => "P"
      case Yellow => "Y"
      case Green => "G"
      case White => "W"
      case Any => "A"
      case AnyColor => "C"
      case Invalid => " "
      case Empty => "_"
    }

    /** The digit a human operator is told for a physical colour: the ordinal
        plus one, modulo four; placeholders get no instruction. */
    function HumanInstruction(): (s: string)
      ensures s != "" <==> IsPhysical()
      ensures IsPhysical() ==> |s| == 1 && '0' <= s[0] <= '3'
    {
      if IsPhysical() then [DigitChar((Ordinal() + 1) % 4)] else ""
    }
  }

  /** The decimal digit character of a number below ten. */
  function DigitChar(d: nat): (ch: char)
    requires d < 10
    ensures '0' <= ch <= '9'
  {
    ('0' as int + d) as char
  }

  /** Upper-casing of one character (ASCII letters only). */
  function UpperChar(ch: char): (u: char)
    ensures 'a' <= ch <= 'z' ==> 'A' <= u <= 'Z' && u as int - ch as int == 'A' as int - 'a' as int
    ensures !('a' <= ch <= 'z') ==> u == ch
  {
    if 'a' <= ch <= 'z' then (ch as int - 'a' as int + 'A' as int) as char else ch
  }

  /** Upper-casing of a token, character by character. */
  function ToUpper(s: string): (u: string)
    ensures |u| == |s|
    ensures forall i :: 0 <= i < |s| ==> u[i] == UpperChar(s[i])
  {
    if s == [] then [] else [UpperChar(s[0])] + ToUpper(s[1..])
  }

  /** Parses a token into a colour, ignoring letter case. It never fails:
      a token it does not recognise gives EMPTY. */
  function FromString(s: string): (c: Color)
    ensures c != Empty ==> |s| == 1
  {
    match ToUpper(s)
    case "W" => White
    case "#" => Any
    case "A" => Any
    case "C" => AnyColor
    case "P" => Purple
    case "Y" => Yellow
    case "G" => Green
    case " " => Invalid
    case _ => Empty
  }

  /** Upper-casing an upper-cased token changes nothing. */
  lemma ToUpperIdempotent(s: string)
    ensures ToUpper(ToUpper(s)) == ToUpper(s)
  {
  }

  /** Parsing ignores letter case. */
  lemma FromStringCaseInsensitive(s: string)
    ensures FromString(s) == FromString(ToUpper(s))
  {
  }

  /** Every colour's letter parses back to that colour. */
  lemma LetterParses(c: Color)
    ensures FromString(c.Letter()) == c
  {
    var l := c.Letter();
    assert ToUpper(l) == l by {
      assert ToUpper(l)[0] == UpperChar(l[0]) == l[0];
    }
  }

  /** Any token that upper-cases to a colour's letter, such as "p" for
      PURPLE, parses to that colour. */
  lemma LetterRoundTrip(c: Color, t: string)
    requires ToUpper(t) == c.Letter()
    ensures FromString(t) == c
  {
  }

  /** The only tokens that parse to something other than EMPTY are the
      colour letters (in either case) and "#", an alias for ANY. */
  lemma FromStringInverse(s: string)
    requires FromString(s) != Empty
    ensures ToUpper(s) == FromString(s).Letter() || (s == "#" && FromString(s) == Any)
  {
  }

  /** The special tokens of the board text: "#" and "A" are ANY, a blank is
      INVALID and the filler "_" is EMPTY. */
  lemma FromStringSpecialTokens()
    ensures FromString("#") == Any && FromString("A") == Any && FromString("a") == Any
    ensures FromString(" ") == Invalid
    ensures FromString("_") == Empty
  {
    assert ToUpper("a") == "A";
    assert ToUpper("_") == "_";
    assert ToUpper(" ") == " ";
    assert ToUpper("#") == "#";
  }

  /** Matching is symmetric. */
  lemma MatchesSymmetric(a: Color, b: Color)
    ensures a.Matches(b) <==> b.Matches(a)
  {
  }

  /** Matching is not transitive: ANY matches PURPLE and YELLOW, which do not
      match each other. */
  lemma MatchesNotTransitive()
    ensures Purple.Matches(Any) && Any.Matches(Yellow) && !Purple.Matches(Yellow)
  {
  }

  /** Every colour other than INVALID matches itself. */
  lemma MatchesReflexive(c: Color)
    ensures c.Matches(c) <==> c != Invalid
  {
  }

  /** The pixels a colour admits on a physical board: a physical colour
      admits itself, ANY admits all four, ANYCOLOR the three coloured ones,
      and EMPTY and INVALID admit none. */
  function Admits(c: Color): (s: set<Color>)
    ensures forall p :: p in s ==> p.IsPhysical()
  {
    match c
    case Any => {Purple, Yellow, Green, White}
    case AnyColor => {Purple, Yellow, Green}
    case Empty => {}
    case Invalid => {}
    case _ => {c}
  }

  /** An independent reading of matching: two valid colours match when they
      are equal, when one of them is the wildcard ANY, or when some physical
      pixel is admitted by both. */
  lemma MatchesByAdmits(a: Color, b: Color)
    ensures a.Matches(b) <==>
      a != Invalid && b != Invalid &&
      (a == b || a == Any || b == Any || Admits(a) * Admits(b) != {})
  {
    if a.Matches(b) && a != b && a != Any && b != Any {
      if a.IsColored() {
        assert a in Admits(a) * Admits(b);
      } else {
        assert b in Admits(a) * Admits(b);
      }
    }
    if Admits(a) * Admits(b) != {} {
      var p :| p in Admits(a) * Admits(b);
    }
  }

  /** The instruction digits: WHITE is 0, PURPLE 1, YELLOW 2 and GREEN 3. */
  lemma HumanInstructionTable()
    ensures White.HumanInstruction() == "0" && Purple.HumanInstruction() == "1"
    ensures Yellow.HumanInstruction() == "2" && Green.HumanInstruction() == "3"
  {
  }

  /** Distinct physical colours get distinct instruction digits. */
  lemma HumanInstructionInjective(a: Color, b: Color)
    requires a.IsPhysical() && b.IsPhysical()
    requires a.HumanInstruction() == b.HumanInstruction()
    ensures a == b
  {
  }
}
