/** The parser state shared by the stylesheet loop and the value steps
    (src/asset/style/mod.rs): `ParseState` with its `Default`, the resolved
    `Property`, and the `Value` a value step may produce.
 */
module StyleState {
  import opened Outcomes
  import opened Tokens
  import BG = Background

  /** `status` packs the parser phase (high nibble: 1 selector, 2 property,
      3 value) and flags (low nibble: 1 append, `f` done); `lastTok` is the
      previous token the loop kept. */
  datatype ParseState = ParseState(status: u8, ok: bool, lastTok: Token)

  /** `ParseState::default()`. */
  const DefaultState: ParseState := ParseState(0x01, true, NoToken)

  /** `Property::Background(None)` is the `background` shorthand. */
  datatype Property = Background(sub: Option<BG.BackgroundProperty>)

  datatype Value = Background(bg: BG.BackgroundValue)

  /** `InnerParseOutput`: the next state and the value recognised, if any. */
  type InnerParseOutput = (ParseState, Option<Value>)
}

/** The background value step (src/asset/style/rules/bg.rs, `parse` and the
    four routines it dispatches to). */
module BackgroundStep {
  import opened Outcomes
  import opened Tokens
  import opened StyleState
  import BG = Background

  /** The routines of the value step. */
  datatype Routine = Root | Attachment | BlendMode | Image

  /** `parse`'s dispatch: three sub-properties have routines of their own;
      every other one, and the shorthand, goes to `root`. */
  function RoutineFor(sub: Option<BG.BackgroundProperty>): (r: Routine)
    ensures r == Attachment <==> sub == Some(BG.BackgroundProperty.Attachment)
    ensures r == BlendMode <==> sub == Some(BG.BackgroundProperty.BlendMode)
    ensures r == Image <==> sub == Some(BG.BackgroundProperty.Image)
    ensures r == Root <==> sub.None? || sub.value in {BG.BackgroundProperty.Color, BG.BackgroundProperty.Clip,
                                                       BG.BackgroundProperty.Origin, BG.BackgroundProperty.Repeat,
                                                       BG.BackgroundProperty.Size}
  {
    match sub
    case None => Routine.Root
    case Some(b) =>
      match b
      case Attachment => Routine.Attachment
      case BlendMode => Routine.BlendMode
      case Image => Routine.Image
      case _ => Routine.Root
  }

  /** `root`, `attachment`, `blend_mode` and `image`: each clones the state
      and recognises nothing, whatever the token. */
  function RunRoutine(r: Routine, state: ParseState, token: Token): InnerParseOutput {
    match r
    case Root => (state, None)
    case Attachment => (state, None)
    case BlendMode => (state, None)
    case Image => (state, None)
  }

  /** `bg::parse`: whatever the sub-property and the token, the value step
      hands back the state it was given and no value, so in particular
      `ok` and `status` are left as they were. */
  function Parse(state: ParseState, sub: Option<BG.BackgroundProperty>, token: Token): (r: InnerParseOutput)
    ensures r.0 == state && r.1.None?
  {
    RunRoutine(RoutineFor(sub), state, token)
  }
}
