/** Terminal text colour: a display attribute with a foreground and a
    background colour, serialised as three ECMA-48 Select Graphic Rendition
    control sequences (section 8.3.117 of ECMA-48), `ESC [ <code> m`. */
module TextColor {
  import opened Wrappers
  import Decimal

  /** The display attributes and their SGR parameters. */
  datatype DisplayAttribute = Normal | Bold | Faint | Italic | UnderLine | Blink | Reverse | Hidden {

    function Code(): nat {
      match this
      case Normal => 0
      case Bold => 1
      case Faint => 2
      case Italic => 3
      case UnderLine => 4
      case Blink => 5
      case Reverse => 7
      case Hidden => 8
    }
  }

  /** The named colours; each has a foreground and a background code. */
  datatype Color =
    | Black | Red | Green | Yellow | Blue | Magenta | Cyan | LightGray
    | DefaultColor
    | DarkGray | LightRed | LightGreen | LightYellow | LightBlue | LightMagenta | LightCyan | White
  {

    function ForegroundCode(): nat {
      match this
      case Black => 30
      case Red => 31
      case Green => 32
      case Yellow => 33
      case Blue => 34
      case Magenta => 35
      case Cyan => 36
      case LightGray => 37
      case DefaultColor => 39
      case DarkGray => 90
      case LightRed => 91
      case LightGreen => 92
      case LightYellow => 93
      case LightBlue => 94
      case LightMagenta => 95
      case LightCyan => 96
      case White => 97
    }

    /** Every background code is its colour's foreground code plus ten. */
    function BackgroundCode(): (r: nat)
      ensures r == ForegroundCode() + 10
    {
      match this
      case Black => 40
      case Red => 41
      case Green => 42
      case Yellow => 43
      case Blue => 44
      case Magenta => 45
      case Cyan => 46
      case LightGray => 47
      case DefaultColor => 49
      case DarkGray => 100
      case LightRed => 101
      case LightGreen => 102
      case LightYellow => 103
      case LightBlue => 104
      case LightMagenta => 105
      case LightCyan => 106
      case White => 107
    }
  }

  function AttributeOf(code: nat): (r: Option<DisplayAttribute>)
    ensures r.Some? ==> r.value.Code() == code
  {
    if code == 0 then Some(Normal)
    else if code == 1 then Some(Bold)
    else if code == 2 then Some(Faint)
    else if code == 3 then Some(Italic)
    else if code == 4 then Some(UnderLine)
    else if code == 5 then Some(Blink)
    else if code == 7 then Some(Reverse)
    else if code == 8 then Some(Hidden)
    else None
  }

  function ForegroundOf(code: nat): (r: Option<Color>)
    ensures r.Some? ==> r.value.ForegroundCode() == code
  {
    if 30 <= code <= 37 then
      Some([Black, Red, Green, Yellow, Blue, Magenta, Cyan, LightGray][code - 30])
    else if code == 39 then Some(DefaultColor)
    else if 90 <= code <= 97 then
      Some([DarkGray, LightRed, LightGreen, LightYellow, LightBlue, LightMagenta, LightCyan, White][code - 90])
    else None
  }

  function BackgroundOf(code: nat): (r: Option<Color>)
    ensures r.Some? ==> r.value.BackgroundCode() == code
  {
    if code >= 10 then ForegroundOf(code - 10) else None
  }

  /** A text colour; the parametric constructor stores its three arguments. */
  datatype TextColor = TextColor(attributes: DisplayAttribute, foreground: Color, background: Color)

  /** The default constructor: attributes off, default foreground and
      background. */
  function DefaultTextColor(): (c: TextColor)
    ensures c.attributes.Code() == 0
    ensures c.foreground.ForegroundCode() == 39
    ensures c.background.BackgroundCode() == 49
  {
    TextColor(Normal, DefaultColor, DefaultColor)
  }

  const Esc: char := 27 as char

  /** One SGR control sequence with a single decimal parameter. */
  function Sgr(code: nat): (r: string)
    ensures |r| > 3 && r[0] == Esc
  {
    [Esc, '['] + Decimal.NatToDecimal(code) + "m"
  }

  /** Reads one SGR control sequence off the front of `s`, returning its
      parameter and the rest of the text. The parameter must be written as
      the stream operator writes integers, without leading zeros. */
  function ParseSgr(s: string): Option<(nat, string)> {
    if |s| >= 2 && s[0] == Esc && s[1] == '[' then
      var body := s[2..];
      var k := Decimal.DigitRun(body);
      if 0 < k < |body| && body[k] == 'm' then
        match Decimal.ParseNat(body[..k])
        case Some(n) => Some((n, body[k + 1..]))
        case None => None
      else None
    else None
  }

  /** Whatever `ParseSgr` reads is exactly one printed SGR sequence followed
      by the rest. */
  lemma ParseSgrExact(s: string, code: nat, rest: string)
    requires ParseSgr(s) == Some((code, rest))
    ensures s == Sgr(code) + rest
  {
    var body := s[2..];
    var k := Decimal.DigitRun(body);
    var d := body[..k];
    assert Decimal.ParseNat(d) == Some(code) && rest == body[k + 1..];
    Decimal.ParseNatExact(d, code);
    Reassemble(s, k);
  }

  /** An SGR sequence cut at the end of its digits is put back together by
      concatenation. */
  lemma Reassemble(s: string, k: nat)
    requires |s| >= 2 && s[0] == Esc && s[1] == '['
    requires k < |s[2..]| && s[2..][k] == 'm'
    ensures s == [Esc, '['] + s[2..][..k] + "m" + s[2..][k + 1..]
  {
    var body := s[2..];
    assert body == body[..k] + ("m" + body[k + 1..]);
    assert s == [Esc, '['] + body;
  }

  /** Reads a serialised text colour back: exactly three SGR sequences whose
      parameters are an attribute, a foreground and a background code. */
  function ParseTextColor(s: string): Option<TextColor> {
    match ParseSgr(s)
    case None => None
    case Some((a, s1)) =>
      match ParseSgr(s1)
      case None => None
      case Some((f, s2)) =>
        match ParseSgr(s2)
        case None => None
        case Some((b, s3)) =>
          if s3 != "" then None else FromCodes(a, f, b)
  }

  /** The colour whose three codes are `a`, `f` and `b`, if there is one. */
  function FromCodes(a: nat, f: nat, b: nat): Option<TextColor> {
    match (AttributeOf(a), ForegroundOf(f), BackgroundOf(b))
    case (Some(attr), Some(fg), Some(bg)) => Some(TextColor(attr, fg, bg))
    case _ => None
  }

  lemma ParseThreeSgrs(a: nat, f: nat, b: nat)
    ensures ParseTextColor(Sgr(a) + Sgr(f) + Sgr(b)) == FromCodes(a, f, b)
  {
    var sb := Sgr(b);
    var t := Sgr(f) + sb;
    assert Sgr(a) + Sgr(f) + sb == Sgr(a) + t;
    assert sb + "" == sb;
    ParseSgrOfSgr(b, "");
    ParseSgrOfSgr(f, sb);
    ParseSgrOfSgr(a, t);
  }

  lemma FromCodesOfColor(c: TextColor)
    ensures FromCodes(c.attributes.Code(), c.foreground.ForegroundCode(), c.background.BackgroundCode()) == Some(c)
  {
    AttributeCodeRoundTrip(c.attributes);
    ColorCodeRoundTrip(c.foreground);
    ColorCodeRoundTrip(c.background);
  }

  lemma ParseSgrOfSgr(code: nat, rest: string)
    requires |rest| > 0 ==> rest[0] == Esc
    ensures ParseSgr(Sgr(code) + rest) == Some((code, rest))
  {
    var d := Decimal.NatToDecimal(code);
    var s := Sgr(code) + rest;
    assert s[2..] == d + ("m" + rest);
    Decimal.DigitRunOfNumeral(d, "m" + rest);
    assert s[2..][..|d|] == d;
    assert s[2..][|d| + 1..] == rest;
    Decimal.NatRoundTrip(code);
  }

  lemma AttributeCodeRoundTrip(a: DisplayAttribute)
    ensures AttributeOf(a.Code()) == Some(a)
  {
  }

  lemma ColorCodeRoundTrip(c: Color)
    ensures ForegroundOf(c.ForegroundCode()) == Some(c)
    ensures BackgroundOf(c.BackgroundCode()) == Some(c)
  {
  }

  /** The stream operator: `ESC [ attr m ESC [ fg m ESC [ bg m`, each code
      in decimal. The text determines the colour: reading it back gives the
      colour that was written. */
  function Serialize(c: TextColor): (r: string)
    ensures ParseTextColor(r) == Some(c)
  {
    var a := c.attributes.Code();
    var f := c.foreground.ForegroundCode();
    var b := c.background.BackgroundCode();
    ParseThreeSgrs(a, f, b);
    FromCodesOfColor(c);
    Sgr(a) + Sgr(f) + Sgr(b)
  }

  /** The text is exact: a text reads back as colour `c` if and only if it is
      the text serialised for `c`, so no padded or reordered variant of the
      serialised text is read as a colour. */
  lemma SerializeExact(s: string, c: TextColor)
    ensures ParseTextColor(s) == Some(c) <==> s == Serialize(c)
  {
    if ParseTextColor(s) == Some(c) {
      ParsedIsSerialized(s, c);
    }
  }

  lemma ParsedIsSerialized(s: string, c: TextColor)
    requires ParseTextColor(s) == Some(c)
    ensures s == Serialize(c)
  {
    var a, f, b, s1, s2 := ParsedSgrs(s);
    ParseSgrExact(s, a, s1);
    ParseSgrExact(s1, f, s2);
    ParseSgrExact(s2, b, "");
    CodesOfFromCodes(a, f, b, c);
    assert Sgr(b) + "" == Sgr(b);
    SerializeText(c);
  }

  /** The serialised text as one concatenation of the three sequences. */
  lemma SerializeText(c: TextColor)
    ensures Serialize(c) == Sgr(c.attributes.Code()) + (Sgr(c.foreground.ForegroundCode()) + Sgr(c.background.BackgroundCode()))
  {
  }

  /** The three sequences a parsed text colour was read from. */
  lemma ParsedSgrs(s: string) returns (a: nat, f: nat, b: nat, s1: string, s2: string)
    requires ParseTextColor(s).Some?
    ensures ParseSgr(s) == Some((a, s1)) && ParseSgr(s1) == Some((f, s2)) && ParseSgr(s2) == Some((b, ""))
    ensures ParseTextColor(s) == FromCodes(a, f, b)
  {
    var p1 := ParseSgr(s).value;
    a, s1 := p1.0, p1.1;
    var p2 := ParseSgr(s1).value;
    f, s2 := p2.0, p2.1;
    b := ParseSgr(s2).value.0;
  }

  /** The codes a colour was read from are that colour's codes. */
  lemma CodesOfFromCodes(a: nat, f: nat, b: nat, c: TextColor)
    requires FromCodes(a, f, b) == Some(c)
    ensures a == c.attributes.Code() && f == c.foreground.ForegroundCode() && b == c.background.BackgroundCode()
  {
  }

  /** The default colour with its attribute code padded to "00" does not
      read back as a colour. */
  lemma PaddedCodeRejected()
    ensures ParseTextColor([Esc, '[', '0', '0', 'm'] + Sgr(39) + Sgr(49)) == None
  {
    var s := [Esc, '[', '0', '0', 'm'] + Sgr(39) + Sgr(49);
    var body := s[2..];
    assert body[0] == '0' && body[1] == '0' && body[2] == 'm';
    assert Decimal.DigitRun(body[2..]) == 0;
    assert Decimal.DigitRun(body[1..]) == 1;
    assert Decimal.DigitRun(body) == 2;
    assert body[..2] == "00";
    assert Decimal.ParseNat("00") == None;
  }

  /** Two colours serialise alike only if they are the same colour, so a copy
      (which is equal to its original) and only a copy serialises like it. */
  lemma SerializeInjective(c: TextColor, d: TextColor)
    ensures Serialize(c) == Serialize(d) <==> c == d
  {
  }

  /** The default colour's text. */
  lemma DefaultSerialization()
    ensures Serialize(DefaultTextColor()) == ([Esc] + "[0m") + ([Esc] + "[39m") + ([Esc] + "[49m")
  {
    DefaultCodesText();
  }

  lemma DefaultCodesText()
    ensures Sgr(0) == [Esc] + "[0m"
    ensures Sgr(39) == [Esc] + "[39m"
    ensures Sgr(49) == [Esc] + "[49m"
  {
    assert Decimal.NatToDecimal(0) == "0";
    assert Decimal.NatToDecimal(39) == "39" by {
      assert Decimal.NatToDecimal(3) == "3";
    }
    assert Decimal.NatToDecimal(49) == "49" by {
      assert Decimal.NatToDecimal(4) == "4";
    }
  }
}
