/** Background value pieces of src/asset/style/rules/bg.rs: the value
    datatypes, hue validity, the keyword renderings and the hand-written
    gradient renderings, and `ConicGradient::from_str`.

    Floating-point payloads are `real` here and are never computed with;
    their rendering, and the rendering of a colour, are passed in as
    functions (`fmtFloat`, `fmtColor`), since the source leaves both to
    `f64::to_string` and to derived `Display` impls.
 */
module Background {
  import opened Outcomes
  import opened Text

  /* ---------------- value datatypes ---------------- */

  datatype Alpha = Percentage(percent: real)

  /** A hue in degrees, stored as the source's `u16`. */
  datatype Hue = Hue(degrees: u16)

  datatype Saturation = Saturation(val: real)

  datatype Lightness = Lightness(val: real)

  datatype Color =
    | RGB(r: real, g: real, b: real)
    | RGBA(r: real, g: real, b: real, alpha: Alpha)
    | HSL(hue: Hue, saturation: Saturation, lightness: Lightness)
    | HSLA(hue: Hue, saturation: Saturation, lightness: Lightness, alpha: Alpha)
    | Name(name: string)
    | Transparent

  datatype Direction = Left | Right | Bottom | Top

  datatype PositionValue =
    | Left | Right | Center | Top | Bottom
    | Pixels(v: real) | Percentage(v: real) | Em(v: real) | Inch(v: real) | Point(v: real)
    | Centimetre(v: real) | Millimetre(v: real) | Pica(v: real) | Ex(v: real)

  datatype BackgroundPosition = BackgroundPosition(x: PositionValue, y: PositionValue)

  datatype ConicGradient = ConicGradient(
    fromAngle: Option<real>,
    atPosition: Option<PositionValue>,
    colors: seq<Color>)

  datatype LinearGradient = LinearGradient(
    first: Direction,
    second: Option<Direction>,
    colors: seq<Color>)

  datatype RadialGradientSize = FarthestCorner | ClosestSide | ClosestCorner | FarthestSide

  datatype RadialGradient = RadialGradient(
    elipsis: bool,
    repeats: bool,
    position: PositionValue,
    size: RadialGradientSize,
    colors: seq<Color>)

  datatype BackgroundAttachment = Scroll | Fixed | Local

  datatype BackgroundBlendMode =
    Normal | Multiply | Screen | Overlay | Darken | Lighten | ColorDodge | Saturation | Color | Luminosity

  datatype BackgroundClip = BorderBox | PaddingBox | ContentBox

  datatype BackgroundOrigin = BorderBox | PaddingBox | ContentBox

  datatype BackgroundRepeat = Repeat | RepeatX | RepeatY | NoRepeat | Space | Round

  datatype BackgroundSize = Cover | Contain | Specified(width: PositionValue, height: PositionValue)

  datatype BackgroundImage =
    | Url(url: string)
    | ConicGradient(conic: ConicGradient)
    | RadialGradient(radial: RadialGradient)
    | LinearGradient(linear: LinearGradient)

  /** The `Background` struct: one field per longhand. */
  datatype BackgroundShorthand = BackgroundShorthand(
    color: Color,
    image: seq<BackgroundImage>,
    position: BackgroundPosition,
    attachment: BackgroundAttachment,
    blendMode: BackgroundBlendMode,
    clip: BackgroundClip,
    origin: BackgroundOrigin,
    repeat: BackgroundRepeat,
    size: BackgroundSize)

  datatype ColorHex = ColorHex(raw: u8)

  datatype BackgroundValue = Color(color: Color) | Image(image: BackgroundImage)

  /** The sub-properties of the `background` family. */
  datatype BackgroundProperty = Color | Image | Attachment | BlendMode | Clip | Origin | Repeat | Size

  /** The `#[display]` strings of the sub-properties: only colour and image
      carry the leading hyphen. */
  function SubpropertyDisplay(b: BackgroundProperty): string {
    match b
    case Color => "-color"
    case Image => "-image"
    case Attachment => "attachment"
    case BlendMode => "blend-mode"
    case Clip => "clip"
    case Origin => "origin"
    case Repeat => "repeat"
    case Size => "size"
  }

  /* ---------------- hue validity ---------------- */

  /** `IsValid for Hue`: at most one full turn. */
  predicate HueValid(h: Hue) {
    h.degrees <= 360
  }

  /** 360 is the largest valid hue: `Hue(361)` and `Hue(400)` are invalid
      although they are well-formed `u16` values. */
  lemma HueBoundary()
    ensures HueValid(Hue(0)) && HueValid(Hue(360))
    ensures !HueValid(Hue(361)) && !HueValid(Hue(400))
  {
  }

  /** The valid hues are the values of one full turn, 0 to 360: validity
      holds for every smaller hue than a valid one and fails for every
      larger one than an invalid one. */
  lemma HueValidIsFullTurn(h: Hue, g: Hue)
    ensures HueValid(h) <==> h.degrees < 361
    ensures HueValid(h) && g.degrees <= h.degrees ==> HueValid(g)
    ensures !HueValid(h) && h.degrees <= g.degrees ==> !HueValid(g)
  {
  }

  /* ---------------- keyword renderings ---------------- */

  function DirectionName(d: Direction): string {
    match d
    case Left => "left"
    case Right => "right"
    case Bottom => "bottom"
    case Top => "top"
  }

  /** The derived `FromStr` for `Direction`, which accepts exactly the
      display strings. */
  function ParseDirection(s: string): Option<Direction> {
    if s == "left" then Some(Direction.Left)
    else if s == "right" then Some(Direction.Right)
    else if s == "bottom" then Some(Direction.Bottom)
    else if s == "top" then Some(Direction.Top)
    else None
  }

  /** Rendering a direction and parsing it back is the identity, and only
      rendered names parse. */
  lemma DirectionRoundTrip(d: Direction, s: string)
    ensures ParseDirection(DirectionName(d)) == Some(d)
    ensures ParseDirection(s).Some? ==> DirectionName(ParseDirection(s).value) == s
  {
  }

  /** The unit suffix of a numeric position, `""` for a keyword. */
  function UnitSuffix(p: PositionValue): string {
    match p
    case Pixels(_) => "px"
    case Percentage(_) => "%"
    case Em(_) => "em"
    case Inch(_) => "in"
    case Point(_) => "pt"
    case Centimetre(_) => "cm"
    case Millimetre(_) => "mm"
    case Pica(_) => "pc"
    case Ex(_) => "ex"
    case _ => ""
  }

  predicate IsKeyword(p: PositionValue) {
    p.Left? || p.Right? || p.Center? || p.Top? || p.Bottom?
  }

  /** The derived `Display` of `PositionValue`. */
  function ShowPosition(p: PositionValue, fmtFloat: real -> string): string {
    match p
    case Left => "left"
    case Right => "right"
    case Center => "center"
    case Top => "top"
    case Bottom => "bottom"
    case _ => fmtFloat(p.v) + UnitSuffix(p)
  }

  /** The derived `FromStr` for the keyword positions. */
  function ParseKeywordPosition(s: string): Option<PositionValue> {
    if s == "left" then Some(PositionValue.Left)
    else if s == "right" then Some(PositionValue.Right)
    else if s == "center" then Some(PositionValue.Center)
    else if s == "top" then Some(PositionValue.Top)
    else if s == "bottom" then Some(PositionValue.Bottom)
    else None
  }

  /** Keyword positions render as their lower-case names and parse back;
      numeric ones render as the number followed by their unit, and the
      nine units are distinct, so the unit identifies the variant. */
  lemma PositionRendering(p: PositionValue, q: PositionValue, fmtFloat: real -> string)
    ensures IsKeyword(p) ==> ParseKeywordPosition(ShowPosition(p, fmtFloat)) == Some(p)
    ensures !IsKeyword(p) ==> ShowPosition(p, fmtFloat) == fmtFloat(p.v) + UnitSuffix(p)
    ensures !IsKeyword(p) ==> UnitSuffix(p) != ""
    ensures !IsKeyword(p) && !IsKeyword(q) && UnitSuffix(p) == UnitSuffix(q) ==> p == q.(v := p.v)
  {
  }

  /* ---------------- colour lists ---------------- */

  /** The rendered colours, in declared order. */
  function Rendered(colors: seq<Color>, fmtColor: Color -> string): (r: seq<string>)
    ensures |r| == |colors|
  {
    if |colors| == 0 then [] else [fmtColor(colors[0])] + Rendered(colors[1..], fmtColor)
  }

  /** The `for color in &self.colors { list = format!("{}, {}", list, color) }`
      loop of the linear gradient. */
  function AppendColors(list: string, colors: seq<Color>, fmtColor: Color -> string): string
    decreases |colors|
  {
    if |colors| == 0 then list
    else AppendColors(list + ", " + fmtColor(colors[0]), colors[1..], fmtColor)
  }

  /** The radial gradient's loop, which puts no separator in front of a
      colour while the list is still empty. */
  function AppendColorsSkippingEmpty(list: string, colors: seq<Color>, fmtColor: Color -> string): string
    decreases |colors|
  {
    if |colors| == 0 then list
    else if |list| == 0 then AppendColorsSkippingEmpty(list + fmtColor(colors[0]), colors[1..], fmtColor)
    else AppendColorsSkippingEmpty(list + ", " + fmtColor(colors[0]), colors[1..], fmtColor)
  }

  /** Appending colours to a non-empty joined list extends the join. */
  lemma {:induction false} AppendColorsJoins(parts: seq<string>, colors: seq<Color>, fmtColor: Color -> string)
    requires |parts| > 0
    ensures AppendColors(Join(", ", parts), colors, fmtColor)
            == Join(", ", parts + Rendered(colors, fmtColor))
    decreases |colors|
  {
    if |colors| == 0 {
      assert parts + Rendered(colors, fmtColor) == parts;
    } else {
      var c := fmtColor(colors[0]);
      assert AppendColors(Join(", ", parts), colors, fmtColor)
             == AppendColors(Join(", ", parts) + ", " + c, colors[1..], fmtColor);
      JoinSnoc(", ", parts, c);
      AppendColorsJoins(parts + [c], colors[1..], fmtColor);
      assert Rendered(colors, fmtColor) == [c] + Rendered(colors[1..], fmtColor);
      assert parts + [c] + Rendered(colors[1..], fmtColor) == parts + Rendered(colors, fmtColor);
    }
  }

  /** While no rendered colour is empty, the radial loop is a plain join. */
  lemma {:induction false} SkippingEmptyJoins(parts: seq<string>, colors: seq<Color>, fmtColor: Color -> string)
    requires forall i :: 0 <= i < |colors| ==> fmtColor(colors[i]) != ""
    requires |parts| > 0 ==> Join(", ", parts) != ""
    ensures AppendColorsSkippingEmpty(Join(", ", parts), colors, fmtColor)
            == Join(", ", parts + Rendered(colors, fmtColor))
    decreases |colors|
  {
    if |colors| == 0 {
      assert parts + Rendered(colors, fmtColor) == parts;
    } else {
      var c := fmtColor(colors[0]);
      assert parts + [c] + Rendered(colors[1..], fmtColor) == parts + Rendered(colors, fmtColor);
      if |parts| == 0 {
        assert Join(", ", parts) == "";
        assert fmtColor(colors[0]) != "";
        assert Join(", ", [c]) == c && "" + c == c;
        assert AppendColorsSkippingEmpty("", colors, fmtColor)
               == AppendColorsSkippingEmpty(c, colors[1..], fmtColor);
        SkippingEmptyJoins([c], colors[1..], fmtColor);
        assert parts + Rendered(colors, fmtColor) == [c] + Rendered(colors[1..], fmtColor);
      } else {
        JoinSnoc(", ", parts, c);
        SkippingEmptyJoins(parts + [c], colors[1..], fmtColor);
      }
    }
  }

  /* ---------------- gradient renderings ---------------- */

  /** `Display for LinearGradient`. */
  function ShowLinear(g: LinearGradient, fmtColor: Color -> string): string {
    var head := DirectionName(g.first)
                + (if g.second.Some? then " " + DirectionName(g.second.value) else "");
    "linear-gradient(" + AppendColors(head, g.colors, fmtColor) + ")"
  }

  /** The directions, then every colour in declared order, all joined by
      `", "` inside `linear-gradient(...)`. */
  lemma LinearRendering(g: LinearGradient, fmtColor: Color -> string)
    ensures ShowLinear(g, fmtColor) ==
            "linear-gradient("
            + Join(", ", [DirectionName(g.first)
                          + (if g.second.Some? then " " + DirectionName(g.second.value) else "")]
                         + Rendered(g.colors, fmtColor))
            + ")"
  {
    var head := DirectionName(g.first)
                + (if g.second.Some? then " " + DirectionName(g.second.value) else "");
    assert Join(", ", [head]) == head;
    AppendColorsJoins([head], g.colors, fmtColor);
  }

  function RadialName(g: RadialGradient): string {
    if g.repeats then "repeating-radial-gradient" else "radial-gradient"
  }

  /** `Display for RadialGradient`. */
  function ShowRadial(g: RadialGradient, fmtColor: Color -> string): string {
    RadialName(g) + "(" + AppendColorsSkippingEmpty("", g.colors, fmtColor) + ")"
  }

  /** The name says whether the gradient repeats; the colours are joined
      by `", "` with no leading separator (provided none renders empty);
      `elipsis`, `position` and `size` are not rendered. */
  lemma RadialRendering(g: RadialGradient, fmtColor: Color -> string,
                        elipsis: bool, position: PositionValue, size: RadialGradientSize)
    requires forall i :: 0 <= i < |g.colors| ==> fmtColor(g.colors[i]) != ""
    ensures ShowRadial(g, fmtColor)
            == RadialName(g) + "(" + Join(", ", Rendered(g.colors, fmtColor)) + ")"
    ensures RadialName(g) == (if g.repeats then "repeating-radial-gradient" else "radial-gradient")
    ensures ShowRadial(g, fmtColor)
            == ShowRadial(g.(elipsis := elipsis, position := position, size := size), fmtColor)
  {
    SkippingEmptyJoins([], g.colors, fmtColor);
    assert [] + Rendered(g.colors, fmtColor) == Rendered(g.colors, fmtColor);
  }

  /** A first colour that renders empty swallows the separator of the
      next one. */
  lemma RadialEmptyFirstColor()
    ensures ShowRadial(RadialGradient.RadialGradient(false, false, PositionValue.Center, FarthestCorner,
                                      [Name(""), Name("red")]),
                       (c: Color) => if c.Name? then c.name else "?")
            == "radial-gradient(red)"
  {
    var f := (c: Color) => if c.Name? then c.name else "?";
    var colors := [Name(""), Name("red")];
    assert f(Name("")) == "" && f(Name("red")) == "red";
    assert colors[1..] == [Name("red")] && colors[1..][1..] == [];
    assert "" + "" == "" && "" + "red" == "red";
    assert AppendColorsSkippingEmpty("", colors, f) == AppendColorsSkippingEmpty("", colors[1..], f);
    assert AppendColorsSkippingEmpty("", colors[1..], f) == AppendColorsSkippingEmpty("red", [], f);
    assert AppendColorsSkippingEmpty("red", [], f) == "red";
  }

  /** The angle, then the position behind `", "` only if an angle was
      written; colours are never rendered. */
  function ConicBody(g: ConicGradient, fmtFloat: real -> string): string {
    (if g.fromAngle.Some? then fmtFloat(g.fromAngle.value) else "")
    + (if g.atPosition.Some? then
         (if g.fromAngle.Some? then ", " else "") + ShowPosition(g.atPosition.value, fmtFloat)
       else "")
  }

  /** `Display for ConicGradient` as written: it closes with `}`. */
  function ShowConicAsWritten(g: ConicGradient, fmtFloat: real -> string): string {
    "conic-gradient(" + ConicBody(g, fmtFloat) + "}"
  }

  /** As written, no conic gradient renders as a closed function call. */
  lemma ConicAsWrittenUnclosed(g: ConicGradient, fmtFloat: real -> string)
    ensures var s := ShowConicAsWritten(g, fmtFloat); s[|s| - 1] == '}'
    ensures ShowConicAsWritten(ConicGradient.ConicGradient(None, None, []), fmtFloat) == "conic-gradient(}"
  {
  }

  /** `Display for ConicGradient` with the closing parenthesis it evidently
      means. */
  function ShowConic(g: ConicGradient, fmtFloat: real -> string): string {
    "conic-gradient(" + ConicBody(g, fmtFloat) + ")"
  }

  /** The corrected rendering is a closed `conic-gradient(...)` call whose
      body is the angle and position, and the colours do not affect it. */
  lemma ConicRendering(g: ConicGradient, fmtFloat: real -> string, colors: seq<Color>)
    ensures StartsWith(ShowConic(g, fmtFloat), "conic-gradient(")
    ensures var s := ShowConic(g, fmtFloat); s[|s| - 1] == ')'
    ensures ShowConic(g, fmtFloat) == ShowConic(g.(colors := colors), fmtFloat)
    ensures g.fromAngle.None? && g.atPosition.None? ==> ShowConic(g, fmtFloat) == "conic-gradient()"
    ensures g.fromAngle.Some? && g.atPosition.None? ==>
              ShowConic(g, fmtFloat) == "conic-gradient(" + fmtFloat(g.fromAngle.value) + ")"
    ensures g.fromAngle.None? && g.atPosition.Some? ==>
              ShowConic(g, fmtFloat) == "conic-gradient(" + ShowPosition(g.atPosition.value, fmtFloat) + ")"
    ensures g.fromAngle.Some? && g.atPosition.Some? ==>
              ShowConic(g, fmtFloat) == "conic-gradient(" + fmtFloat(g.fromAngle.value) + ", "
                                        + ShowPosition(g.atPosition.value, fmtFloat) + ")"
  {
    var s := ShowConic(g, fmtFloat);
    assert s[..|"conic-gradient("|] == "conic-gradient(";
  }

  /** `ConicGradient::from_str`: both of its exits are errors. */
  function ConicFromStr(s: string): Outcome<ConicGradient, string> {
    if !StartsWith(s, "conic-gradient(") then Err("expected keyword 'conic-gradient'")
    else Err("unknown error")
  }

  /** Parsing never succeeds, not even on a rendered gradient, which always
      reaches the "unknown error" exit. */
  lemma ConicFromStrNeverParses(s: string, g: ConicGradient, fmtFloat: real -> string)
    ensures ConicFromStr(s).Err?
    ensures ConicFromStr(s).error == "unknown error" <==> StartsWith(s, "conic-gradient(")
    ensures ConicFromStr(ShowConic(g, fmtFloat)) == Err("unknown error")
    ensures ConicFromStr(ShowConicAsWritten(g, fmtFloat)) == Err("unknown error")
  {
    ConicRendering(g, fmtFloat, g.colors);
    var t := ShowConicAsWritten(g, fmtFloat);
    assert t[..|"conic-gradient("|] == "conic-gradient(";
  }

  /** The derived `Display` of a background image; gradients use the
      hand-written renderings (the conic one as corrected). */
  function ShowImage(img: BackgroundImage, fmtFloat: real -> string, fmtColor: Color -> string): string {
    match img
    case Url(u) => "url(" + u + ")"
    case ConicGradient(g) => ShowConicAsWritten(g, fmtFloat)
    case RadialGradient(g) => ShowRadial(g, fmtColor)
    case LinearGradient(g) => ShowLinear(g, fmtColor)
  }

  /** Every image renders as a function name and `(`; a URL and the two
      colour gradients close with `)`, while a conic gradient inherits the
      `}` of its own rendering. */
  lemma ImageRenderingIsCall(img: BackgroundImage, fmtFloat: real -> string, fmtColor: Color -> string)
    ensures var s := ShowImage(img, fmtFloat, fmtColor);
            |s| > 0 && s[|s| - 1] == (if img.ConicGradient? then '}' else ')')
    ensures img.Url? ==> ShowImage(img, fmtFloat, fmtColor) == "url(" + img.url + ")"
    ensures img.ConicGradient? ==> StartsWith(ShowImage(img, fmtFloat, fmtColor), "conic-gradient(")
    ensures img.LinearGradient? ==> StartsWith(ShowImage(img, fmtFloat, fmtColor), "linear-gradient(")
    ensures img.RadialGradient? ==>
              StartsWith(ShowImage(img, fmtFloat, fmtColor), RadialName(img.radial) + "(")
  {
    var s := ShowImage(img, fmtFloat, fmtColor);
    match img
    case Url(_) =>
    case ConicGradient(g) =>
      assert s[..|"conic-gradient("|] == "conic-gradient(";
    case LinearGradient(g) =>
      assert s[..|"linear-gradient("|] == "linear-gradient(";
    case RadialGradient(g) =>
      assert s[..|RadialName(g) + "("|] == RadialName(g) + "(";
  }
}
