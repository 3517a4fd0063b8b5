/**
  Terminal styling and the key buffer: xterm 256-colour palette indices,
  text blueprints rendered as SGR escape sequences (section 8.3.117 of
  ECMA-48, with the `38;5;n` / `48;5;n` 256-colour extension), and the
  buffer of pressed keys shared with the input thread.
 */
module Terminal {
  import opened Wrappers
  import opened SeqUtil

  // ------------------------------------------------------------ AnsiColor

  /** An xterm 256-colour palette index. */
  datatype AnsiColor = AnsiColor(code: U8)

  function FromCode(code: U8): (r: AnsiColor)
    ensures r.code == code
  {
    AnsiColor(code)
  }

  /**
    `AnsiColor::from_rgb_cube`: a colour of the 6x6x6 cube, palette indices
    16..=231, defined only when every component is below 6.
   */
  function FromRgbCube(r: U8, g: U8, b: U8): (c: Option<AnsiColor>)
    ensures c.Some? <==> r < 6 && g < 6 && b < 6
    ensures c.Some? ==> 16 <= c.value.code <= 231
  {
    if r < 6 && g < 6 && b < 6 then Some(AnsiColor(16 + (r * 36 + g * 6 + b))) else None
  }

  /** The cube components of a palette index in 16..=231. */
  function RgbComponents(code: U8): (U8, U8, U8)
    requires 16 <= code <= 231
  {
    ((code - 16) / 6 / 6, (code - 16) / 6 % 6, (code - 16) % 6)
  }

  lemma DivModSix(n: nat, q: nat, m: nat)
    requires n == 6 * q + m && m < 6
    ensures n / 6 == q && n % 6 == m
  {
  }

  /** The cube components of the colour built from components below 6 are those components. */
  lemma RgbCubeComponents(r: U8, g: U8, b: U8)
    requires r < 6 && g < 6 && b < 6
    ensures RgbComponents(FromRgbCube(r, g, b).value.code) == (r, g, b)
  {
    var n := r * 36 + g * 6 + b;
    DivModSix(n, 6 * r + g, b);
    DivModSix(6 * r + g, r, g);
  }

  /** Every palette index in 16..=231 is the cube colour of its components. */
  lemma RgbCubeCovers(code: U8)
    requires 16 <= code <= 231
    ensures
      var (r, g, b) := RgbComponents(code);
      FromRgbCube(r, g, b) == Some(AnsiColor(code))
  {
    var n := code - 16;
    var q := n / 6;
    assert n == 6 * q + n % 6;
    assert q == 6 * (q / 6) + q % 6;
  }

  /** `AnsiColor::from_gray_value`: one of the 24 grey shades, palette indices 232..=255. */
  function FromGrayValue(value: U8): (c: Option<AnsiColor>)
    ensures c.Some? <==> value < 24
    ensures c.Some? ==> 232 <= c.value.code <= 255 && c.value.code - 232 == value
  {
    if value < 24 then Some(AnsiColor(232 + value)) else None
  }

  // ----------------------------------------------------------- AnsiEffect

  datatype AnsiEffect = Bold | Italics | Underline | Strikethrough | DoubleUnderline

  /** The SGR parameter of each effect. */
  function EffectCode(e: AnsiEffect): U8
  {
    match e
    case Bold => 1
    case Italics => 3
    case Underline => 4
    case Strikethrough => 9
    case DoubleUnderline => 21
  }

  /** Distinct effects have distinct SGR parameters. */
  lemma EffectCodeInjective(e1: AnsiEffect, e2: AnsiEffect)
    ensures EffectCode(e1) == EffectCode(e2) ==> e1 == e2
  {
  }

  // ------------------------------------------------------ decimal numbers

  function DigitChar(d: nat): (c: char)
    requires d < 10
    ensures '0' <= c <= '9' && c as int - '0' as int == d
  {
    ('0' as int + d) as char
  }

  /** The value of a string of decimal digits. */
  function DigitsValue(s: string): nat
    requires forall i :: 0 <= i < |s| ==> '0' <= s[i] <= '9'
  {
    if |s| == 0 then 0 else 10 * DigitsValue(s[..|s| - 1]) + (s[|s| - 1] as int - '0' as int)
  }

  /** `format!("{}", n)`: the shortest decimal representation of `n`. */
  function DecimalString(n: nat): (s: string)
    ensures 0 < |s|
    ensures forall i :: 0 <= i < |s| ==> '0' <= s[i] <= '9'
    ensures |s| > 1 ==> s[0] != '0'
    ensures DigitsValue(s) == n
  {
    if n < 10 then
      var s := [DigitChar(n)];
      assert s[..0] == [];
      s
    else
      var prefix := DecimalString(n / 10);
      var s := prefix + [DigitChar(n % 10)];
      assert s[..|s| - 1] == prefix;
      assert s[|s| - 1] as int - '0' as int == n % 10;
      s
  }

  // -------------------------------------------------------- TextBlueprint

  /** How to colour and decorate a piece of text. */
  datatype TextBlueprint = TextBlueprint(
    textColor: Option<AnsiColor>,
    backgroundColor: Option<AnsiColor>,
    effects: seq<AnsiEffect>)

  function NewBlueprint(): (r: TextBlueprint)
    ensures r.textColor.None? && r.backgroundColor.None? && r.effects == []
  {
    TextBlueprint(None, None, [])
  }

  /** `with_text_color`: sets the text colour and nothing else. */
  function WithTextColor(bp: TextBlueprint, color: AnsiColor): (r: TextBlueprint)
    ensures r.textColor == Some(color)
    ensures r.backgroundColor == bp.backgroundColor && r.effects == bp.effects
  {
    bp.(textColor := Some(color))
  }

  /** `with_background_color`: sets the background colour and nothing else. */
  function WithBackgroundColor(bp: TextBlueprint, color: AnsiColor): (r: TextBlueprint)
    ensures r.backgroundColor == Some(color)
    ensures r.textColor == bp.textColor && r.effects == bp.effects
  {
    bp.(backgroundColor := Some(color))
  }

  /** `with_effect`: appends one effect after the existing ones. */
  function WithEffect(bp: TextBlueprint, effect: AnsiEffect): (r: TextBlueprint)
    ensures r.textColor == bp.textColor && r.backgroundColor == bp.backgroundColor
    ensures |r.effects| == |bp.effects| + 1
    ensures r.effects[..|bp.effects|] == bp.effects && r.effects[|bp.effects|] == effect
  {
    bp.(effects := bp.effects + [effect])
  }

  /** `with_effects`: appends all the effects, in order, after the existing ones. */
  function WithEffects(bp: TextBlueprint, effects: seq<AnsiEffect>): (r: TextBlueprint)
    ensures r.textColor == bp.textColor && r.backgroundColor == bp.backgroundColor
    ensures |r.effects| == |bp.effects| + |effects|
    ensures r.effects[..|bp.effects|] == bp.effects && r.effects[|bp.effects|..] == effects
  {
    bp.(effects := bp.effects + effects)
  }

  /** Adding effects one at a time is the same as adding them all at once. */
  lemma {:induction false} WithEffectsIsRepeatedWithEffect(bp: TextBlueprint, effects: seq<AnsiEffect>)
    ensures WithEffects(bp, effects) == AddEach(bp, effects)
    decreases |effects|
  {
    if |effects| > 0 {
      WithEffectsIsRepeatedWithEffect(WithEffect(bp, effects[0]), effects[1..]);
      assert bp.effects + effects == (bp.effects + [effects[0]]) + effects[1..];
    } else {
      assert bp.effects + effects == bp.effects;
    }
  }

  function AddEach(bp: TextBlueprint, effects: seq<AnsiEffect>): TextBlueprint
    decreases |effects|
  {
    if |effects| == 0 then bp else AddEach(WithEffect(bp, effects[0]), effects[1..])
  }

  /** The control sequence introducer `ESC [`. */
  const Csi: string := "\U{1B}["

  /** `TextBlueprint::reset`: SGR 0, back to the terminal's defaults. */
  function Reset(): string
  {
    Csi + "0m"
  }

  /** The SGR parameter of an optional colour: `38;5;code` or `48;5;code`, or none. */
  function ColorParam(prefix: string, color: Option<AnsiColor>): seq<string>
  {
    if color.Some? then [prefix + DecimalString(color.value.code)] else []
  }

  function EffectParams(effects: seq<AnsiEffect>): (r: seq<string>)
    ensures |r| == |effects|
    ensures forall i :: 0 <= i < |effects| ==> r[i] == DecimalString(EffectCode(effects[i]))
  {
    seq(|effects|, i requires 0 <= i < |effects| => DecimalString(EffectCode(effects[i])))
  }

  /** The SGR parameters a blueprint stands for: text colour, background colour, then effects. */
  function Params(bp: TextBlueprint): seq<string>
  {
    ColorParam("38;5;", bp.textColor) + ColorParam("48;5;", bp.backgroundColor) + EffectParams(bp.effects)
  }

  /** `parts` separated by `sep`. */
  function Join(parts: seq<string>, sep: string): string
  {
    if |parts| == 0 then ""
    else if |parts| == 1 then parts[0]
    else parts[0] + sep + Join(parts[1..], sep)
  }

  /** Every part followed by `;`, concatenated. */
  function Terminated(parts: seq<string>): string
  {
    if |parts| == 0 then "" else parts[0] + ";" + Terminated(parts[1..])
  }

  lemma {:induction false} TerminatedAppend(a: seq<string>, b: seq<string>)
    ensures Terminated(a + b) == Terminated(a) + Terminated(b)
    decreases |a|
  {
    if |a| == 0 {
      assert a + b == b;
    } else {
      assert (a + b)[1..] == a[1..] + b;
      TerminatedAppend(a[1..], b);
    }
  }

  /** Terminating every part is joining them and terminating the whole. */
  lemma {:induction false} TerminatedIsJoin(parts: seq<string>)
    requires |parts| > 0
    ensures Terminated(parts) == Join(parts, ";") + ";"
    decreases |parts|
  {
    if |parts| > 1 {
      TerminatedIsJoin(parts[1..]);
    }
  }

  /** The text `38;5;code;` the source pushes for an optional colour. */
  function ColorText(prefix: string, color: Option<AnsiColor>): (r: string)
    ensures r == Terminated(ColorParam(prefix, color))
  {
    if color.Some? then prefix + DecimalString(color.value.code) + ";" else ""
  }

  /** Every SGR parameter ends with a digit. */
  lemma ParamsEndInDigit(bp: TextBlueprint)
    ensures forall i :: 0 <= i < |Params(bp)| ==>
      |Params(bp)[i]| > 0 && '0' <= Params(bp)[i][|Params(bp)[i]| - 1] <= '9'
  {
  }

  lemma {:induction false} JoinEndsWithLastPart(parts: seq<string>, sep: string)
    requires |parts| > 0 && |parts[|parts| - 1]| > 0
    ensures |Join(parts, sep)| > 0
    ensures Join(parts, sep)[|Join(parts, sep)| - 1] == parts[|parts| - 1][|parts[|parts| - 1]| - 1]
    decreases |parts|
  {
    if |parts| > 1 {
      JoinEndsWithLastPart(parts[1..], sep);
    }
  }

  /** What the source pushes after `ESC [`: every parameter followed by `;`. */
  function PushedParams(bp: TextBlueprint): (r: string)
    ensures r == Terminated(Params(bp))
  {
    TerminatedAppend(ColorParam("38;5;", bp.textColor) + ColorParam("48;5;", bp.backgroundColor), EffectParams(bp.effects));
    TerminatedAppend(ColorParam("38;5;", bp.textColor), ColorParam("48;5;", bp.backgroundColor));
    ColorText("38;5;", bp.textColor) + ColorText("48;5;", bp.backgroundColor) + Terminated(EffectParams(bp.effects))
  }

  /**
    `TextBlueprint::get_ansi`: pushes `38;5;t;`, `48;5;b;` and one `code;` per
    effect after `ESC [`, pops a trailing `;` and closes with `m`. The result
    is `ESC [`, the parameters joined by `;`, then `m`.
   */
  function GetAnsi(bp: TextBlueprint): (r: string)
    ensures r == Csi + Join(Params(bp), ";") + "m"
  {
    var ansi := Csi + PushedParams(bp);
    var trimmed := if ansi[|ansi| - 1] == ';' then ansi[..|ansi| - 1] else ansi;
    TrimmedIsJoin(bp, ansi);
    trimmed + "m"
  }

  /** The sequence never has a `;` right before its closing `m`. */
  lemma NoSemicolonBeforeM(bp: TextBlueprint)
    ensures GetAnsi(bp)[|GetAnsi(bp)| - 2] != ';'
  {
    var j := Join(Params(bp), ";");
    TrimmedIsJoin(bp, Csi + Terminated(Params(bp)));
    var r := Csi + j + "m";
    assert r[|r| - 2] == if j == "" then '[' else j[|j| - 1];
  }

  /** The joined parameters never end with `;`: every parameter ends with a digit. */
  lemma JoinedParamsEndInDigit(bp: TextBlueprint)
    ensures var j := Join(Params(bp), ";"); j == "" || j[|j| - 1] != ';'
  {
    var ps := Params(bp);
    if |ps| > 0 {
      ParamsEndInDigit(bp);
      assert |ps[|ps| - 1]| > 0;
      JoinEndsWithLastPart(ps, ";");
    }
  }

  /** Popping the trailing `;` of the pushed parameters leaves them joined by `;`. */
  lemma TrimmedIsJoin(bp: TextBlueprint, ansi: string)
    requires ansi == Csi + Terminated(Params(bp))
    ensures (if ansi[|ansi| - 1] == ';' then ansi[..|ansi| - 1] else ansi) == Csi + Join(Params(bp), ";")
    ensures Join(Params(bp), ";") == "" || Join(Params(bp), ";")[|Join(Params(bp), ";")| - 1] != ';'
  {
    var ps := Params(bp);
    var j := Join(ps, ";");
    JoinedParamsEndInDigit(bp);
    if |ps| == 0 {
      assert ansi == Csi;
    } else {
      TerminatedIsJoin(ps);
      assert ansi == (Csi + j) + ";";
      assert ansi[|ansi| - 1] == ';';
      assert ansi[..|ansi| - 1] == Csi + j;
    }
  }

  /** An empty blueprint renders as `ESC [ m`. */
  lemma EmptyBlueprintAnsi()
    ensures GetAnsi(NewBlueprint()) == Csi + "m"
  {
  }

  /** A blueprint with only a text colour renders as `ESC [ 38;5;code m`. */
  lemma TextColorOnlyAnsi(color: AnsiColor)
    ensures GetAnsi(WithTextColor(NewBlueprint(), color)) == Csi + "38;5;" + DecimalString(color.code) + "m"
  {
  }

  /** A blueprint with only a background colour renders as `ESC [ 48;5;code m`. */
  lemma BackgroundOnlyAnsi(color: AnsiColor)
    ensures GetAnsi(WithBackgroundColor(NewBlueprint(), color)) == Csi + "48;5;" + DecimalString(color.code) + "m"
  {
  }

  /**
    `TextBlueprint::apply`: the text, preceded by the blueprint's SGR
    sequence and followed by the reset sequence.
   */
  function Apply(bp: TextBlueprint, text: string): (r: string)
    ensures |r| == |GetAnsi(bp)| + |text| + 4
    ensures r[..|GetAnsi(bp)|] == GetAnsi(bp)
    ensures r[|GetAnsi(bp)|..|r| - 4] == text
    ensures r[|r| - 4..] == Reset()
  {
    GetAnsi(bp) + text + Reset()
  }

  // ---------------------------------------------------------- KeyStackInner

  /** The keys the program distinguishes; `OtherKey` stands for every other key. */
  datatype Key = Char(c: char) | Up | Down | Left | Right | Esc | OtherKey(id: nat)

  /** The key buffer filled by the input thread, and whether Escape (or an input error) was seen. */
  datatype KeyStackInner = KeyStackInner(keys: seq<Key>, quit: bool)

  /** `KeyStackInner::new`: no keys, not quitting. */
  function NewKeyStack(): KeyStackInner
  {
    KeyStackInner([], false)
  }

  /**
    `poll_keys`: hands out the keys pressed since the last poll, oldest
    first, and leaves the buffer empty; the quit flag is untouched.
   */
  function PollKeys(ks: KeyStackInner): (r: (seq<Key>, KeyStackInner))
    ensures r.0 == ks.keys
    ensures r.1.keys == [] && r.1.quit == ks.quit
  {
    (ks.keys, ks.(keys := []))
  }

  /** A second poll right after a first one finds no keys. */
  lemma PollTwice(ks: KeyStackInner)
    ensures PollKeys(PollKeys(ks).1).0 == []
    ensures PollKeys(PollKeys(ks).1).1 == PollKeys(ks).1
  {
  }

  /** `should_quit`: the stored quit flag. */
  function ShouldQuit(ks: KeyStackInner): (r: bool)
    ensures r <==> ks.quit
  {
    ks.quit
  }

  /** Polling the keys does not change whether the program should quit. */
  lemma PollKeepsQuit(ks: KeyStackInner)
    ensures ShouldQuit(PollKeys(ks).1) == ShouldQuit(ks)
  {
  }

  /** A fresh key buffer holds no keys and does not ask to quit. */
  lemma NewKeyStackIdle()
    ensures !ShouldQuit(NewKeyStack())
    ensures PollKeys(NewKeyStack()).0 == []
  {
  }
}
