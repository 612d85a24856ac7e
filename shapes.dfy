/** The tile stored in every board cell (include/shape.hpp, src/shape.cpp).
    A C++ `Shape` is a plain value: the engine keeps 81 of them inline in a
    static array and `GetShapeAt` hands out copies.  It is modelled as a
    datatype whose mutators return the updated value; writing that value back
    into the board is the engine's business. */
module Shapes {

  /** `ShapeColour`, in the order of its enumeration (BASE = 0, RED = 1, ...). */
  datatype ShapeColour = BASE | RED | GREEN | BLUE | CYAN | MAGENTA | YELLOW | LIME | BEIGE | PINK

  /** `ShapeStatus`: NONE = 0, SELECTABLE = 1, SELECTED = 2. */
  datatype ShapeStatus = NONE | SELECTABLE | SELECTED

  /** The enumerator's integer value. */
  function Ordinal(c: ShapeColour): (n: nat)
    ensures n <= 9
  {
    match c
    case BASE => 0
    case RED => 1
    case GREEN => 2
    case BLUE => 3
    case CYAN => 4
    case MAGENTA => 5
    case YELLOW => 6
    case LIME => 7
    case BEIGE => 8
    case PINK => 9
  }

  /** The conversion `ShapeColour(n)` of an integer to the enumeration. */
  function ColourOf(n: int): (c: ShapeColour)
    requires 0 <= n <= 9
    ensures Ordinal(c) == n
  {
    match n
    case 0 => BASE
    case 1 => RED
    case 2 => GREEN
    case 3 => BLUE
    case 4 => CYAN
    case 5 => MAGENTA
    case 6 => YELLOW
    case 7 => LIME
    case 8 => BEIGE
    case _ => PINK
  }

  /** The colours a random draw can produce. */
  predicate InPalette(c: ShapeColour) {
    c == RED || c == GREEN || c == BLUE
  }

  /** One value of `std::uniform_int_distribution<>(1, 3)`. */
  type Draw = d: int | 1 <= d <= 3 witness 1

  /** The colour given by the k-th value of the random stream. */
  function DrawnColour(distr: nat -> Draw, k: nat): (c: ShapeColour)
    ensures InPalette(c)
  {
    ColourOf(distr(k))
  }

  /** The global generator `gen` together with `distr`: `distr(k)` is the value
      that the k-th call of `distr(gen)` returns, and `pos` counts the calls
      made so far.  Injecting the stream keeps every operation deterministic. */
  class Generator {
    const distr: nat -> Draw
    var pos: nat

    constructor (stream: nat -> Draw)
      ensures distr == stream && pos == 0
    {
      distr := stream;
      pos := 0;
    }

    /** One call of `distr(gen)`. */
    method Next() returns (d: Draw)
      modifies this
      ensures d == distr(old(pos)) && pos == old(pos) + 1
    {
      d := distr(pos);
      pos := pos + 1;
    }
  }

  datatype Shape = Shape(colour: ShapeColour, status: ShapeStatus) {

    function GetColour(): ShapeColour {
      colour
    }

    function GetStatus(): ShapeStatus {
      status
    }

    function SetColour(c: ShapeColour): (r: Shape)
      ensures r.GetColour() == c && r.GetStatus() == GetStatus()
    {
      this.(colour := c)
    }

    function SetStatus(s: ShapeStatus): (r: Shape)
      ensures r.GetStatus() == s && r.GetColour() == GetColour()
    {
      this.(status := s)
    }

    /** Draws a new colour; the status is kept. */
    method SetRandomColour(gen: Generator) returns (r: Shape)
      modifies gen
      ensures r == SetColour(DrawnColour(gen.distr, old(gen.pos)))
      ensures InPalette(r.GetColour()) && r.GetStatus() == GetStatus()
      ensures gen.pos == old(gen.pos) + 1
    {
      var d := gen.Next();
      r := SetColour(ColourOf(d));
    }

    function GetColourAsString(): (r: string)
      ensures r == "empty" <==> !InPalette(colour)
      ensures colour == RED ==> r == "RED"
      ensures colour == GREEN ==> r == "GREEN"
      ensures colour == BLUE ==> r == "BLUE"
    {
      match colour
      case RED => "RED"
      case GREEN => "GREEN"
      case BLUE => "BLUE"
      case _ => "empty"
    }

    function GetTexturePath(): (r: string)
      ensures |r| >= 17 && r[..10] == "../images/" && r[|r| - 4..] == ".jpg"
    {
      var base := match colour
        case RED => "../images/red"
        case GREEN => "../images/green"
        case BLUE => "../images/blue"
        case _ => "../images/base";
      var withStatus := match status
        case SELECTABLE => base + "_selectable"
        case SELECTED => base + "_selected"
        case NONE => base;
      withStatus + ".jpg"
    }
  }

  /** The getters read back the two fields a tile is made of, and together
      they determine the tile. */
  lemma GettersReadBack(s: Shape, c: ShapeColour, t: ShapeStatus)
    ensures Shape(c, t).GetColour() == c && Shape(c, t).GetStatus() == t
    ensures s == Shape(s.GetColour(), s.GetStatus())
  {
  }

  /** The default constructor `Shape()`: a random colour and status NONE. */
  method NewShape(gen: Generator) returns (s: Shape)
    modifies gen
    ensures s == Shape(DrawnColour(gen.distr, old(gen.pos)), NONE)
    ensures InPalette(s.GetColour()) && s.GetColour() != BASE
    ensures gen.pos == old(gen.pos) + 1
  {
    var d := gen.Next();
    s := Shape(ColourOf(d), NONE);
  }

  /** Upper-case ASCII letters to lower case, everything else unchanged. */
  function Lower(s: string): (r: string)
    ensures |r| == |s|
  {
    if s == [] then []
    else
      var ch := s[0];
      [if 'A' <= ch <= 'Z' then (ch as int + 32) as char else ch] + Lower(s[1..])
  }

  /** The suffix the texture name carries for a status. */
  function StatusSuffix(s: ShapeStatus): (r: string)
    ensures r == "" <==> s == NONE
    ensures r != "" ==> r[0] == '_'
  {
    match s
    case NONE => ""
    case SELECTABLE => "_selectable"
    case SELECTED => "_selected"
  }

  /** The lower-case forms of the three colour names. */
  lemma LowerRed()
    ensures Lower("RED") == "red"
  {
    assert "RED"[1..] == "ED" && "ED"[1..] == "D" && "D"[1..] == "";
  }

  lemma LowerGreen()
    ensures Lower("GREEN") == "green"
  {
    assert "GREEN"[1..] == "REEN" && "REEN"[1..] == "EEN" && "EEN"[1..] == "EN";
    assert "EN"[1..] == "N" && "N"[1..] == "";
  }

  lemma LowerBlue()
    ensures Lower("BLUE") == "blue"
  {
    assert "BLUE"[1..] == "LUE" && "LUE"[1..] == "UE" && "UE"[1..] == "E" && "E"[1..] == "";
  }

  /** The renderer's naming contract: the texture of a palette tile is the
      lower-case colour name followed by the status suffix. */
  lemma TexturePathNamesColour(s: Shape)
    requires InPalette(s.colour)
    ensures s.GetTexturePath() == "../images/" + Lower(s.GetColourAsString()) + StatusSuffix(s.status) + ".jpg"
  {
    match s.colour
    case RED => LowerRed();
    case GREEN => LowerGreen();
    case BLUE => LowerBlue();
  }

  /** Every other colour, BASE included, falls back to the base texture. */
  lemma TexturePathOtherColour(s: Shape)
    requires !InPalette(s.colour)
    ensures s.GetTexturePath() == "../images/base" + StatusSuffix(s.status) + ".jpg"
  {
  }

  /** Distinct statuses of one tile never share a texture. */
  lemma TexturePathsDistinguishStatus(s: Shape, t: ShapeStatus)
    requires t != s.status
    ensures s.SetStatus(t).GetTexturePath() != s.GetTexturePath()
  {
    assert |s.SetStatus(t).GetTexturePath()| != |s.GetTexturePath()|;
  }

  /** Distinct palette colours with one status never share a texture. */
  lemma TexturePathsDistinguishColour(s: Shape, c: ShapeColour)
    requires InPalette(s.colour) && InPalette(c) && c != s.colour
    ensures s.SetColour(c).GetTexturePath() != s.GetTexturePath()
  {
    var p, q := s.SetColour(c).GetTexturePath(), s.GetTexturePath();
    assert |p| != |q|;
  }

  /** Distinct palette colours have distinct names. */
  lemma ColourNamesDistinct(s: Shape, c: ShapeColour)
    requires InPalette(s.colour) && InPalette(c) && c != s.colour
    ensures s.SetColour(c).GetColourAsString() != s.GetColourAsString()
  {
    var p, q := s.SetColour(c).GetColourAsString(), s.GetColourAsString();
    assert |p| != |q|;
  }
}
