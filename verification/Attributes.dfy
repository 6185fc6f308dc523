/** Drawing attributes, the SGR parameter list that changes one set of
    attributes into another, and the SGR interpreter
    (`src/vt100/attrs.rs`, `src/vt100/term.rs`, `Screen::sgr`). */
module Attributes {
  import opened Wrappers

  /** A palette index or a colour component. */
  type Level = n: int | 0 <= n < 256

  datatype Color = Default | Idx(index: Level) | Rgb(red: Level, green: Level, blue: Level)

  const INTENSITY: bv8 := 0x03
  const BOLD: bv8 := 0x01
  const DIM: bv8 := 0x02
  const ITALIC: bv8 := 0x04
  const UNDERLINE: bv8 := 0x08
  const INVERSE: bv8 := 0x10
  const BLINK: bv8 := 0x20
  const HIDDEN: bv8 := 0x40

  /** The mode byte packs the two exclusive intensity bits and five flags. */
  datatype Attrs = Attrs(fg: Color, bg: Color, mode: bv8) {
    predicate Has(flag: bv8) {
      mode & flag != 0
    }

    function WithIntensity(bits: bv8): Attrs {
      this.(mode := (mode & !INTENSITY) | bits)
    }

    function WithFlag(flag: bv8, on: bool): Attrs {
      this.(mode := if on then mode | flag else mode & !flag)
    }

    /** No setter ever produces bold and dim together, nor the spare top bit. */
    predicate WellFormed() {
      mode & INTENSITY != INTENSITY && mode & 0x80 == 0
    }
  }

  const PLAIN: Attrs := Attrs(Default, Default, 0)

  // ---------------------------------------------------------------- printing

  datatype Intensity = Normal | Bold | Dim

  /** `term::Attrs`: which attributes an SGR sequence is asked to change. */
  datatype Request = Request(
    fg: Option<Color>,
    bg: Option<Color>,
    intensity: Option<Intensity>,
    italic: Option<bool>,
    underline: Option<bool>,
    inverse: Option<bool>,
    blink: Option<bool>,
    hidden: Option<bool>)

  const NO_REQUEST: Request := Request(None, None, None, None, None, None, None, None)

  type Params = seq<seq<nat>>

  function ColorParams(color: Option<Color>, base: nat, bright: nat, reset: nat, extended: nat): Params
  {
    match color
    case None => []
    case Some(Default) => [[reset]]
    case Some(Idx(i)) =>
      if i < 8 then [[i + base]]
      else if i < 16 then [[i + bright]]
      else [[extended], [5], [i]]
    case Some(Rgb(r, g, b)) => [[extended], [2], [r], [g], [b]]
  }

  function IntensityParams(intensity: Option<Intensity>): Params {
    match intensity
    case None => []
    case Some(Normal) => [[22]]
    case Some(Bold) => [[1]]
    case Some(Dim) => [[2]]
  }

  function FlagParams(flag: Option<bool>, on: nat, off: nat): Params {
    match flag
    case None => []
    case Some(value) => [[if value then on else off]]
  }

  /** The parameters `term::Attrs::write_buf` writes, in its order. */
  function RequestParams(request: Request): Params {
    ColorParams(request.fg, 30, 82, 39, 38)
    + (ColorParams(request.bg, 40, 92, 49, 48)
    + (IntensityParams(request.intensity)
    + (FlagParams(request.italic, 3, 23)
    + (FlagParams(request.underline, 4, 24)
    + (FlagParams(request.inverse, 7, 27)
    + (FlagParams(request.blink, 5, 25)
    + FlagParams(request.hidden, 8, 28)))))))
  }

  function IntensityOf(mode: bv8): Intensity
    requires mode & INTENSITY != INTENSITY
  {
    if mode & INTENSITY == BOLD then Bold
    else if mode & INTENSITY == DIM then Dim
    else Normal
  }

  function Changed(flag: bv8, target: Attrs, from: Attrs): Option<bool> {
    if target.Has(flag) == from.Has(flag) then None else Some(target.Has(flag))
  }

  function RequestFor(target: Attrs, from: Attrs): Request
    requires target.WellFormed()
  {
    Request(
      if target.fg == from.fg then None else Some(target.fg),
      if target.bg == from.bg then None else Some(target.bg),
      if target.mode & INTENSITY == from.mode & INTENSITY then None else Some(IntensityOf(target.mode)),
      Changed(ITALIC, target, from),
      Changed(UNDERLINE, target, from),
      Changed(INVERSE, target, from),
      Changed(BLINK, target, from),
      Changed(HIDDEN, target, from))
  }

  /** `Attrs::write_escape_code_diff`: the SGR sequence written, if any.  The
      empty parameter list is the bare `CSI m`. */
  function Difference(target: Attrs, from: Attrs): Option<Params>
    requires target.WellFormed()
  {
    if target != from && target == PLAIN then Some([])
    else if RequestFor(target, from) == NO_REQUEST then None
    else Some(RequestParams(RequestFor(target, from)))
  }

  // ----------------------------------------------------------------- parsing

  function AsLevel(param: seq<nat>): Option<Level> {
    if |param| == 1 && param[0] < 256 then Some(param[0]) else None
  }

  /** What follows a bare 38 or 48: the colour and the parameters it consumed;
      `None` where the interpreter gives up on the whole sequence. */
  function ExtendedColor(rest: Params): Option<(Color, nat)> {
    if |rest| >= 4 && rest[0] == [2] && AsLevel(rest[1]).Some? && AsLevel(rest[2]).Some? && AsLevel(rest[3]).Some? then
      Some((Rgb(AsLevel(rest[1]).value, AsLevel(rest[2]).value, AsLevel(rest[3]).value), 4))
    else if |rest| >= 2 && rest[0] == [5] && AsLevel(rest[1]).Some? then
      Some((Idx(AsLevel(rest[1]).value), 2))
    else
      None
  }

  /** The colon-separated form of an extended colour, within one parameter. */
  function SubparameterColor(param: seq<nat>): Option<Color> {
    if |param| == 5 && param[1] == 2 && param[2] < 256 && param[3] < 256 && param[4] < 256 then
      Some(Rgb(param[2], param[3], param[4]))
    else if |param| == 3 && param[1] == 5 && param[2] < 256 then
      Some(Idx(param[2]))
    else
      None
  }

  /** True when a 38 or 48 parameter has the shape of a colon-separated colour. */
  predicate SubparameterShape(param: seq<nat>) {
    (|param| == 5 && param[1] == 2) || (|param| == 3 && param[1] == 5)
  }

  function SingleParam(attrs: Attrs, n: nat): Attrs {
    if n == 0 then PLAIN
    else if n == 1 then attrs.WithIntensity(BOLD)
    else if n == 2 then attrs.WithIntensity(DIM)
    else if n == 3 then attrs.WithFlag(ITALIC, true)
    else if n == 4 then attrs.WithFlag(UNDERLINE, true)
    else if n == 5 then attrs.WithFlag(BLINK, true)
    else if n == 7 then attrs.WithFlag(INVERSE, true)
    else if n == 8 then attrs.WithFlag(HIDDEN, true)
    else if n == 22 then attrs.WithIntensity(0)
    else if n == 23 then attrs.WithFlag(ITALIC, false)
    else if n == 24 then attrs.WithFlag(UNDERLINE, false)
    else if n == 25 then attrs.WithFlag(BLINK, false)
    else if n == 27 then attrs.WithFlag(INVERSE, false)
    else if n == 28 then attrs.WithFlag(HIDDEN, false)
    else if 30 <= n <= 37 then attrs.(fg := Idx(n - 30))
    else if n == 39 then attrs.(fg := Default)
    else if 40 <= n <= 47 then attrs.(bg := Idx(n - 40))
    else if n == 49 then attrs.(bg := Default)
    else if 90 <= n <= 97 then attrs.(fg := Idx(n - 82))
    else if 100 <= n <= 107 then attrs.(bg := Idx(n - 92))
    else attrs
  }

  function SetColor(attrs: Attrs, foreground: bool, color: Color): Attrs {
    if foreground then attrs.(fg := color) else attrs.(bg := color)
  }

  /** One pass of the `sgr` loop over the remaining parameters. */
  function SgrFrom(attrs: Attrs, params: Params): Attrs
    decreases |params|
  {
    if params == [] then attrs
    else if params[0] == [38] || params[0] == [48] then
      match ExtendedColor(params[1..])
      case None => attrs
      case Some((color, used)) =>
        SgrFrom(SetColor(attrs, params[0] == [38], color), params[1 + used..])
    else if |params[0]| == 1 then
      SgrFrom(SingleParam(attrs, params[0][0]), params[1..])
    else if |params[0]| > 0 && (params[0][0] == 38 || params[0][0] == 48) && SubparameterShape(params[0]) then
      match SubparameterColor(params[0])
      case None => attrs
      case Some(color) => SgrFrom(SetColor(attrs, params[0][0] == 38, color), params[1..])
    else
      SgrFrom(attrs, params[1..])
  }

  /** `Screen::sgr`. */
  function Sgr(attrs: Attrs, params: Params): Attrs {
    if params == [] then PLAIN else SgrFrom(attrs, params)
  }

  // -------------------------------------------------------------- properties

  /** Whatever parameters arrive, the interpreter never produces bold and dim
      together, so the writer's unreachable intensity is never reached. */
  lemma {:induction false} SgrKeepsWellFormed(attrs: Attrs, params: Params)
    requires attrs.WellFormed()
    ensures Sgr(attrs, params).WellFormed()
    ensures SgrFrom(attrs, params).WellFormed()
    decreases |params|
  {
    if params == [] {
    } else if params[0] == [38] || params[0] == [48] {
      match ExtendedColor(params[1..])
      case None =>
      case Some((color, used)) =>
        SgrKeepsWellFormed(SetColor(attrs, params[0] == [38], color), params[1 + used..]);
    } else if |params[0]| == 1 {
      SingleParamKeepsWellFormed(attrs, params[0][0]);
      SgrKeepsWellFormed(SingleParam(attrs, params[0][0]), params[1..]);
    } else if |params[0]| > 0 && (params[0][0] == 38 || params[0][0] == 48) && SubparameterShape(params[0]) {
      match SubparameterColor(params[0])
      case None =>
      case Some(color) => SgrKeepsWellFormed(SetColor(attrs, params[0][0] == 38, color), params[1..]);
    } else {
      SgrKeepsWellFormed(attrs, params[1..]);
    }
  }

  lemma SingleParamKeepsWellFormed(attrs: Attrs, n: nat)
    requires attrs.WellFormed()
    ensures SingleParam(attrs, n).WellFormed()
  {
  }

  /** The effect a request asks for, one attribute at a time. */
  function Apply(attrs: Attrs, request: Request): Attrs {
    ApplyFlags(ApplyIntensity(ApplyColors(attrs, request.fg, request.bg), request.intensity), request)
  }

  function ApplyColors(attrs: Attrs, fg: Option<Color>, bg: Option<Color>): Attrs {
    attrs.(fg := if fg.Some? then fg.value else attrs.fg, bg := if bg.Some? then bg.value else attrs.bg)
  }

  function ApplyIntensity(attrs: Attrs, intensity: Option<Intensity>): Attrs {
    match intensity
    case None => attrs
    case Some(Normal) => attrs.WithIntensity(0)
    case Some(Bold) => attrs.WithIntensity(BOLD)
    case Some(Dim) => attrs.WithIntensity(DIM)
  }

  function ApplyFlag(attrs: Attrs, flag: bv8, value: Option<bool>): Attrs {
    if value.Some? then attrs.WithFlag(flag, value.value) else attrs
  }

  function ApplyFlags(attrs: Attrs, request: Request): Attrs {
    ApplyFlag(ApplyFlag(ApplyFlag(ApplyFlag(ApplyFlag(attrs,
      ITALIC, request.italic), UNDERLINE, request.underline), INVERSE, request.inverse),
      BLINK, request.blink), HIDDEN, request.hidden)
  }

  lemma SgrColor(attrs: Attrs, color: Option<Color>, foreground: bool, rest: Params)
    ensures
      var params := if foreground then ColorParams(color, 30, 82, 39, 38) else ColorParams(color, 40, 92, 49, 48);
      SgrFrom(attrs, params + rest)
      == SgrFrom(if color.Some? then SetColor(attrs, foreground, color.value) else attrs, rest)
  {
    var params := if foreground then ColorParams(color, 30, 82, 39, 38) else ColorParams(color, 40, 92, 49, 48);
    match color
    case None => assert params + rest == rest;
    case Some(_) => assert (params + rest)[|params|..] == rest;
  }

  lemma SgrIntensity(attrs: Attrs, intensity: Option<Intensity>, rest: Params)
    ensures SgrFrom(attrs, IntensityParams(intensity) + rest) == SgrFrom(ApplyIntensity(attrs, intensity), rest)
  {
    var params := IntensityParams(intensity);
    assert (params + rest)[|params|..] == rest;
    if intensity == None { assert params + rest == rest; }
  }

  lemma SgrFlag(attrs: Attrs, flag: bv8, value: Option<bool>, on: nat, off: nat, rest: Params)
    requires SingleParam(attrs, on) == attrs.WithFlag(flag, true)
    requires SingleParam(attrs, off) == attrs.WithFlag(flag, false)
    requires on !in {38, 48} && off !in {38, 48}
    ensures SgrFrom(attrs, FlagParams(value, on, off) + rest) == SgrFrom(ApplyFlag(attrs, flag, value), rest)
  {
    var params := FlagParams(value, on, off);
    assert (params + rest)[|params|..] == rest;
    if value == None { assert params + rest == rest; }
  }

  lemma SgrRunsRequest(attrs: Attrs, request: Request)
    ensures SgrFrom(attrs, RequestParams(request)) == Apply(attrs, request)
  {
    var hidden := FlagParams(request.hidden, 8, 28);
    var blink := FlagParams(request.blink, 5, 25) + hidden;
    var inverse := FlagParams(request.inverse, 7, 27) + blink;
    var underline := FlagParams(request.underline, 4, 24) + inverse;
    var italic := FlagParams(request.italic, 3, 23) + underline;
    var intensity := IntensityParams(request.intensity) + italic;
    var bg := ColorParams(request.bg, 40, 92, 49, 48) + intensity;
    SgrColor(attrs, request.fg, true, bg);
    var a1 := ApplyColors(attrs, request.fg, None);
    SgrColor(a1, request.bg, false, intensity);
    var a2 := ApplyColors(attrs, request.fg, request.bg);
    SgrIntensity(a2, request.intensity, italic);
    var a3 := ApplyIntensity(a2, request.intensity);
    SgrFlag(a3, ITALIC, request.italic, 3, 23, underline);
    var a4 := ApplyFlag(a3, ITALIC, request.italic);
    SgrFlag(a4, UNDERLINE, request.underline, 4, 24, inverse);
    var a5 := ApplyFlag(a4, UNDERLINE, request.underline);
    SgrFlag(a5, INVERSE, request.inverse, 7, 27, blink);
    var a6 := ApplyFlag(a5, INVERSE, request.inverse);
    SgrFlag(a6, BLINK, request.blink, 5, 25, hidden);
    var a7 := ApplyFlag(a6, BLINK, request.blink);
    assert hidden + [] == hidden;
    SgrFlag(a7, HIDDEN, request.hidden, 8, 28, []);
  }

  /** `from` with the bits under `done` replaced by the target's. */
  function Merge(from: bv8, target: bv8, done: bv8): bv8 {
    (from & !done) | (target & done)
  }

  lemma FlagBits(flag: bv8, target: bv8, from: bv8, done: bv8)
    requires flag in {ITALIC, UNDERLINE, INVERSE, BLINK, HIDDEN} && flag & done == 0
    ensures (target & flag != 0) == (from & flag != 0) ==> Merge(from, target, done) == Merge(from, target, done | flag)
    ensures target & flag != 0 ==> Merge(from, target, done) | flag == Merge(from, target, done | flag)
    ensures target & flag == 0 ==> Merge(from, target, done) & !flag == Merge(from, target, done | flag)
  {
  }

  lemma FlagStep(attrs: Attrs, flag: bv8, target: Attrs, from: Attrs, done: bv8)
    requires flag in {ITALIC, UNDERLINE, INVERSE, BLINK, HIDDEN}
    requires flag & done == 0
    requires attrs.mode == Merge(from.mode, target.mode, done)
    ensures ApplyFlag(attrs, flag, Changed(flag, target, from))
            == attrs.(mode := Merge(from.mode, target.mode, done | flag))
  {
    hide Merge;
    FlagBits(flag, target.mode, from.mode, done);
  }

  lemma IntensityStep(attrs: Attrs, target: Attrs, from: Attrs)
    requires target.WellFormed()
    requires attrs.mode == from.mode
    ensures ApplyIntensity(attrs, RequestFor(target, from).intensity)
            == attrs.(mode := Merge(from.mode, target.mode, INTENSITY))
  {
  }

  lemma MergeAll(target: bv8, from: bv8)
    requires target & 0x80 == 0 && from & 0x80 == 0
    ensures Merge(from, target, 0x7f) == target
  {
  }

  lemma FlagsReach(start: Attrs, target: Attrs, from: Attrs)
    requires target.WellFormed() && from.WellFormed()
    requires start.mode == Merge(from.mode, target.mode, INTENSITY)
    ensures ApplyFlags(start, RequestFor(target, from)) == start.(mode := target.mode)
  {
    FlagStep(start, ITALIC, target, from, 0x03);
    FlagStep(start.(mode := Merge(from.mode, target.mode, 0x07)), UNDERLINE, target, from, 0x07);
    FlagStep(start.(mode := Merge(from.mode, target.mode, 0x0f)), INVERSE, target, from, 0x0f);
    FlagStep(start.(mode := Merge(from.mode, target.mode, 0x1f)), BLINK, target, from, 0x1f);
    FlagStep(start.(mode := Merge(from.mode, target.mode, 0x3f)), HIDDEN, target, from, 0x3f);
    MergeAll(target.mode, from.mode);
  }

  lemma RequestReaches(target: Attrs, from: Attrs)
    requires target.WellFormed() && from.WellFormed()
    ensures Apply(from, RequestFor(target, from)) == target
  {
    var request := RequestFor(target, from);
    var start := ApplyColors(from, request.fg, request.bg);
    IntensityStep(start, target, from);
    FlagsReach(start.(mode := Merge(from.mode, target.mode, INTENSITY)), target, from);
  }

  lemma NonemptyRequest(request: Request)
    requires request != NO_REQUEST
    ensures RequestParams(request) != []
  {
  }

  /** Print/parse round trip (section 8.3.117 of ECMA-48): interpreting what the
      writer emits for `target` over `from`, in a terminal drawing with `from`,
      leaves exactly `target`; and nothing is emitted only when nothing changes. */
  lemma SgrRoundTrip(target: Attrs, from: Attrs)
    requires target.WellFormed() && from.WellFormed()
    ensures Difference(target, from).Some? ==> Sgr(from, Difference(target, from).value) == target
    ensures Difference(target, from).None? <==> target == from
  {
    RequestReaches(target, from);
    var request := RequestFor(target, from);
    SgrRunsRequest(from, request);
    if request != NO_REQUEST { NonemptyRequest(request); }
  }

  lemma OneCode(a: Attrs, n: nat)
    ensures Sgr(a, [[n]]) == if n == 38 || n == 48 then a else SingleParam(a, n)
  {
    hide SingleParam;
    assert [[n]][1..] == [];
    assert SgrFrom(SingleParam(a, n), []) == SingleParam(a, n);
    if n == 38 || n == 48 { assert ExtendedColor([]) == None; }
  }

  /** What each code means (section 8.3.117 of ECMA-48).  Bold and dim exclude each other. */
  lemma IntensityCodesSay(a: Attrs, n: nat)
    requires a.WellFormed()
    ensures
      var r := Sgr(a, [[n]]);
      && (r.mode & 0x01 != 0 <==> n == 1 || (a.mode & 0x01 != 0 && n != 0 && n != 2 && n != 22))
      && (r.mode & 0x02 != 0 <==> n == 2 || (a.mode & 0x02 != 0 && n != 0 && n != 1 && n != 22))
  {
    hide Sgr;
    OneCode(a, n);
  }

  /** The other five have a code to set and one to reset each. */
  lemma FlagCodesSay(a: Attrs, n: nat)
    requires a.WellFormed()
    ensures
      var r := Sgr(a, [[n]]);
      && Switched(a, r, n, 0x04, 3, 23) && Switched(a, r, n, 0x08, 4, 24) && Switched(a, r, n, 0x10, 7, 27)
      && Switched(a, r, n, 0x20, 5, 25) && Switched(a, r, n, 0x40, 8, 28)
  {
    hide Sgr;
    OneCode(a, n);
    FlagCode(a, n, 0x04, 3, 23);
    FlagCode(a, n, 0x08, 4, 24);
    FlagCode(a, n, 0x10, 7, 27);
    FlagCode(a, n, 0x20, 5, 25);
    FlagCode(a, n, 0x40, 8, 28);
    if n == 38 || n == 48 { assert SingleParam(a, n) == a; }
  }

  /** A flag after code `n`: set by `on`, reset by `off` and by zero, otherwise as it was. */
  predicate Switched(a: Attrs, r: Attrs, n: nat, flag: bv8, on: nat, off: nat) {
    r.mode & flag != 0 <==> n == on || (a.mode & flag != 0 && n != 0 && n != off)
  }

  lemma FlagCode(a: Attrs, n: nat, flag: bv8, on: nat, off: nat)
    requires (flag, on, off) == (0x04, 3, 23) || (flag, on, off) == (0x08, 4, 24) || (flag, on, off) == (0x10, 7, 27)
             || (flag, on, off) == (0x20, 5, 25) || (flag, on, off) == (0x40, 8, 28)
    ensures Switched(a, SingleParam(a, n), n, flag, on, off)
  {
  }

  /** The colours: eight of each kind, their bright forms, and the default. */
  lemma ColorCodesSay(a: Attrs, n: nat)
    requires n != 38 && n != 48
    ensures
      var r := Sgr(a, [[n]]);
      && r.fg == (if n == 0 || n == 39 then Default else if 30 <= n <= 37 then Idx(n - 30)
                  else if 90 <= n <= 97 then Idx(n - 90 + 8) else a.fg)
      && r.bg == (if n == 0 || n == 49 then Default else if 40 <= n <= 47 then Idx(n - 40)
                  else if 100 <= n <= 107 then Idx(n - 100 + 8) else a.bg)
  {
    hide Sgr;
    OneCode(a, n);
  }

  /** Extended colours, in both forms. */
  lemma ExtendedCodesSay(a: Attrs, i: Level, r: Level, g: Level, b: Level)
    ensures Sgr(a, [[38], [5], [i]]) == Sgr(a, [[38, 5, i]]) == a.(fg := Idx(i))
    ensures Sgr(a, [[48], [5], [i]]) == Sgr(a, [[48, 5, i]]) == a.(bg := Idx(i))
    ensures Sgr(a, [[38], [2], [r], [g], [b]]) == Sgr(a, [[38, 2, r, g, b]]) == a.(fg := Rgb(r, g, b))
    ensures Sgr(a, [[48], [2], [r], [g], [b]]) == Sgr(a, [[48, 2, r, g, b]]) == a.(bg := Rgb(r, g, b))
  {
    hide Sgr;
    ExtendedIs(a, 38, i, r, g, b);
    ExtendedIs(a, 48, i, r, g, b);
    SubparametersAre(a, 38, i, r, g, b);
    SubparametersAre(a, 48, i, r, g, b);
  }

  lemma ExtendedIs(a: Attrs, n: nat, i: Level, r: Level, g: Level, b: Level)
    requires n == 38 || n == 48
    ensures Sgr(a, [[n], [5], [i]]) == SetColor(a, n == 38, Idx(i))
    ensures Sgr(a, [[n], [2], [r], [g], [b]]) == SetColor(a, n == 38, Rgb(r, g, b))
  {
    var indexed, direct: Params := [[n], [5], [i]], [[n], [2], [r], [g], [b]];
    assert indexed[1..] == [[5], [i]] && indexed[1 + 2..] == [];
    assert direct[1..] == [[2], [r], [g], [b]] && direct[1 + 4..] == [];
    assert ExtendedColor([[5], [i]]) == Some((Idx(i), 2));
    assert ExtendedColor([[2], [r], [g], [b]]) == Some((Rgb(r, g, b), 4));
    assert SgrFrom(a, indexed) == SgrFrom(SetColor(a, n == 38, Idx(i)), indexed[3..]) by {
      assert indexed[0] == [n] && [n][0] == n;
    }
    assert SgrFrom(a, direct) == SgrFrom(SetColor(a, n == 38, Rgb(r, g, b)), direct[5..]) by {
      assert direct[0] == [n] && [n][0] == n;
    }
  }

  lemma SubparametersAre(a: Attrs, n: nat, i: Level, r: Level, g: Level, b: Level)
    requires n == 38 || n == 48
    ensures Sgr(a, [[n, 5, i]]) == SetColor(a, n == 38, Idx(i))
    ensures Sgr(a, [[n, 2, r, g, b]]) == SetColor(a, n == 38, Rgb(r, g, b))
  {
    var indexed, direct: Params := [[n, 5, i]], [[n, 2, r, g, b]];
    assert indexed[1..] == [] && direct[1..] == [];
    assert |indexed[0]| == 3 && |direct[0]| == 5;
    assert SubparameterColor(indexed[0]) == Some(Idx(i)) && SubparameterColor(direct[0]) == Some(Rgb(r, g, b));
    assert SgrFrom(a, indexed) == SgrFrom(SetColor(a, n == 38, Idx(i)), indexed[1..]);
    assert SgrFrom(a, direct) == SgrFrom(SetColor(a, n == 38, Rgb(r, g, b)), direct[1..]);
  }
}
