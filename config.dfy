/** The geometry of `Config` (src/config.rs): the centred window position and
    height every backend stacks to, and the scan of `xrandr --current` output
    that supplies the display size when no configuration file exists yet. */
module DisplayConfig {
  import opened Wrappers
  import opened Numbers
  import opened Text
  import opened Seqs

  /** The integer fields of `Config`; the two f32 overlay coordinates are left out. */
  datatype Config = Config(
    display_width: u32,
    display_height: u32,
    panel_height: u32,
    eve_width: u32,
    eve_height: u32)

  /** `eve_x`: the left edge that centres a window of `eve_width` on the display,
      rounding down. The u32 subtraction panics when the window is wider than
      the display, so the caller must not ask for that. */
  function EveX(c: Config): (x: int)
    requires c.eve_width <= c.display_width
    ensures 0 <= x <= I32_MAX
    ensures 2 * x + c.eve_width <= c.display_width < 2 * x + c.eve_width + 2
  {
    (c.display_width - c.eve_width) / 2
  }

  /** `eve_y`: windows are stacked against the top of the display. */
  function EveY(c: Config): (y: int)
    ensures y == 0
  {
    0
  }

  /** `eve_height_adjusted`: the display height left above the panel. */
  function EveHeightAdjusted(c: Config): (h: u32)
    requires c.panel_height <= c.display_height
    ensures h <= c.display_height
  {
    c.display_height - c.panel_height
  }

  /** The size `detect_display_size` settles on when no line of xrandr's output qualifies. */
  const FALLBACK_SIZE: (u32, u32) := (1920, 1080)

  /** One line of xrandr's output: a line holding `*` and `x` whose first field
      splits at its first `x` into two decimal u32s, e.g. "7680x2160  60.00*+". */
  function LineResolution(line: string): (r: Option<(u32, u32)>)
    ensures r.Some? <==>
      Contains(line, "*") && Contains(line, "x") && SplitWhitespace(line) != [] &&
      SplitOnce(SplitWhitespace(line)[0], 'x').Some? &&
      ParseU32(SplitOnce(SplitWhitespace(line)[0], 'x').value.0, 10).Some? &&
      ParseU32(SplitOnce(SplitWhitespace(line)[0], 'x').value.1, 10).Some?
    ensures r.Some? ==>
      r.value.0 == ParseU32(SplitOnce(SplitWhitespace(line)[0], 'x').value.0, 10).value &&
      r.value.1 == ParseU32(SplitOnce(SplitWhitespace(line)[0], 'x').value.1, 10).value
  {
    if Contains(line, "*") && Contains(line, "x") then
      var fields := SplitWhitespace(line);
      if fields == [] then None
      else
        match SplitOnce(fields[0], 'x')
        case None => None
        case Some((w, h)) =>
          match (ParseU32(w, 10), ParseU32(h, 10))
          case (Some(width), Some(height)) => Some((width, height))
          case _ => None
    else None
  }

  /** `detect_display_size` given the lines xrandr printed (none when it could not
      be run or printed invalid UTF-8): the size on the first line that qualifies;
      every line before it was skipped; with no such line, 1920x1080. */
  function DetectDisplaySize(lines: seq<string>): (r: (u32, u32))
    ensures (exists i | 0 <= i < |lines| ::
               LineResolution(lines[i]) == Some(r) && forall j | 0 <= j < i :: LineResolution(lines[j]).None?)
         || (r == FALLBACK_SIZE && forall i | 0 <= i < |lines| :: LineResolution(lines[i]).None?)
  {
    FirstSome(lines, LineResolution).GetOr(FALLBACK_SIZE)
  }

  lemma {:induction false} ContainsSuffix(a: string, b: string, needle: string)
    requires Contains(b, needle)
    ensures Contains(a + b, needle)
    decreases |a|
  {
    if a == [] {
      assert a + b == b;
    } else {
      assert (a + b)[1..] == a[1..] + b;
      ContainsSuffix(a[1..], b, needle);
    }
  }

  lemma {:induction false} ContainsAt(s: string, i: nat, needle: string)
    requires i + |needle| <= |s| && s[i..i + |needle|] == needle
    ensures Contains(s, needle)
    decreases i
  {
    if i > 0 {
      assert s[1..][i - 1..i - 1 + |needle|] == s[i..i + |needle|];
      ContainsAt(s[1..], i - 1, needle);
    }
  }

  /** Decimal digits are plain ASCII digits. */
  lemma DecimalIsAsciiDigits(n: nat)
    ensures forall i | 0 <= i < |Digits(n, 10)| :: '0' <= Digits(n, 10)[i] <= '9'
  {
    var s := Digits(n, 10);
    DigitsValueOfDigits(n, 10);
    forall i | 0 <= i < |s| ensures '0' <= s[i] <= '9' {
      assert DigitValue(s[i], 10).Some?;
    }
  }

  lemma {:induction false} SplitOnceAtFirst(a: string, c: char, b: string)
    requires c !in a
    ensures SplitOnce(a + [c] + b, c) == Some((a, b))
    decreases |a|
  {
    var s := a + [c] + b;
    if a == [] {
      assert s == [c] + b;
    } else {
      assert s[0] == a[0] && a[0] != c;
      assert s[1..] == a[1..] + [c] + b;
      SplitOnceAtFirst(a[1..], c, b);
      assert [a[0]] + a[1..] == a;
    }
  }

  /** "WIDTHxHEIGHT" is one field, and splits at its `x` into the two numbers. */
  lemma ModeField(width: u32, height: u32)
    ensures var mode := Digits(width, 10) + "x" + Digits(height, 10);
      mode != [] && NoWhitespace(mode) &&
      SplitOnce(mode, 'x') == Some((Digits(width, 10), Digits(height, 10)))
  {
    var w, h := Digits(width, 10), Digits(height, 10);
    DecimalIsAsciiDigits(width);
    DecimalIsAsciiDigits(height);
    var mode := w + "x" + h;
    assert forall i | 0 <= i < |mode| :: '0' <= mode[i] <= '9' || mode[i] == 'x';
    assert 'x' !in w;
    SplitOnceAtFirst(w, 'x', h);
  }

  /** The line xrandr prints for the current mode, indented, then "WIDTHxHEIGHT",
      whitespace and a refresh-rate column marked with `*`, yields that width and height. */
  lemma ModeLineResolution(lead: string, width: u32, height: u32, ws: string, rates: string)
    requires AllWhitespace(lead) && ws != [] && AllWhitespace(ws) && Contains(rates, "*")
    ensures LineResolution(lead + (Digits(width, 10) + "x" + Digits(height, 10) + ws + rates)) == Some((width, height))
  {
    var line := Digits(width, 10) + "x" + Digits(height, 10) + ws + rates;
    UnindentedModeLine(width, height, ws, rates);
    SplitSkipsWhitespace(lead, line);
    ContainsSuffix(lead, line, "*");
    ContainsSuffix(lead, line, "x");
  }

  lemma UnindentedModeLine(width: u32, height: u32, ws: string, rates: string)
    requires ws != [] && AllWhitespace(ws) && Contains(rates, "*")
    ensures var line := Digits(width, 10) + "x" + Digits(height, 10) + ws + rates;
      LineResolution(line) == Some((width, height)) && Contains(line, "*") && Contains(line, "x")
  {
    var w, h := Digits(width, 10), Digits(height, 10);
    var mode := w + "x" + h;
    var line := mode + ws + rates;
    ContainsSuffix(mode + ws, rates, "*");
    assert line[|w|..|w| + 1] == "x";
    ContainsAt(line, |w|, "x");
    ModeField(width, height);
    SplitWordFirst(mode, ws, rates);
    ParseDigitsRoundTrip(width, 10);
    ParseDigitsRoundTrip(height, 10);
  }
}
