/** `KWinManager`: KDE Plasma reached through XWayland with `wmctrl` and
    `xdotool`. Window ids are X11 handles written as `0x` and eight hex digits. */
module KWin {
  import opened Wrappers
  import opened Numbers
  import opened Text
  import opened Seqs
  import opened DisplayConfig
  import opened WindowManager

  /** One row of `wmctrl -l`: the id text and the title. */
  type Entry = (string, string)

  /** A row of `wmctrl -l` ("0x06e00008  0 atlantis EVE - Pilot") has the id,
      the desktop and the host as its first three fields and the title after them. */
  function ParseLine(line: string): (r: Option<Entry>)
    ensures r.Some? <==> |SplitWhitespace(line)| >= 4
    ensures r.Some? ==> r.value.0 != [] && NoWhitespace(r.value.0)
  {
    var parts := SplitWhitespace(line);
    SplitWhitespaceWords(line);
    if |parts| >= 4 then Some((parts[0], Join(parts[3..], " "))) else None
  }

  /** `get_all_windows`, given the lines `wmctrl -l` printed. */
  method GetAllWindows(lines: seq<string>) returns (windows: seq<Entry>)
    ensures windows == FilterMap(lines, ParseLine)
  {
    windows := [];
    for i := 0 to |lines|
      invariant windows == FilterMap(lines[..i], ParseLine)
    {
      assert lines[..i + 1][..i] == lines[..i];
      var parts := SplitWhitespace(lines[i]);
      if |parts| >= 4 {
        var windowId := parts[0];
        var title := Join(parts[3..], " ");
        windows := windows + [(windowId, title)];
      }
    }
    assert lines[..|lines|] == lines;
  }

  /** The rows `get_all_windows` returns are the lines, in their order, that have
      at least four fields; each row's id is its line's first field and its
      title the fields from the fourth on, joined by single spaces. */
  lemma EntriesSelected(lines: seq<string>)
    ensures var r := FilterMap(lines, ParseLine);
      var kept := Kept(lines, ParseLine);
      |kept| == |r| &&
      (forall k | 0 <= k < |kept| ::
         kept[k] < |lines| && |SplitWhitespace(lines[kept[k]])| >= 4 &&
         r[k] == (SplitWhitespace(lines[kept[k]])[0], Join(SplitWhitespace(lines[kept[k]])[3..], " "))) &&
      (forall k, l | 0 <= k < l < |kept| :: kept[k] < kept[l]) &&
      (forall i | 0 <= i < |lines| :: i in kept <==> |SplitWhitespace(lines[i])| >= 4)
  {
    FilterMapSelects(lines, ParseLine);
  }

  /** The id decoding of `get_eve_windows` and `find_window_by_title`: hex after
      a `0x` prefix, decimal otherwise, and 0 for anything that does not parse. */
  function DecodeWindowId(idText: string): (r: u32)
    ensures StartsWith(idText, "0x") && ParseU32(idText[2..], 16).Some? ==> r == ParseU32(idText[2..], 16).value
    ensures !StartsWith(idText, "0x") && ParseU32(idText, 10).Some? ==> r == ParseU32(idText, 10).value
    ensures r != 0 ==>
      if StartsWith(idText, "0x") then ParseU32(idText[2..], 16) == Some(r) else ParseU32(idText, 10) == Some(r)
  {
    if StartsWith(idText, "0x") then ParseU32(idText[2..], 16).GetOr(0)
    else ParseU32(idText, 10).GetOr(0)
  }

  /** `format!("0x{:08x}", id)`, the form `wmctrl -i` takes. */
  function HexId(id: u32): (s: string)
    ensures |s| == 10 && StartsWith(s, "0x")
  {
    "0x" + Hex8(id)
  }

  /** Decoding reads back every id the backend writes. */
  lemma HexIdRoundTrip(id: u32)
    ensures DecodeWindowId(HexId(id)) == id
  {
    assert HexId(id)[2..] == Hex8(id);
    ParseHex8RoundTrip(id);
  }

  /** Writing back a decoded id reproduces an id text of the form wmctrl prints
      (`0x` and eight lower-case hex digits). */
  lemma DecodeThenHexId(idText: string)
    requires |idText| == 10 && StartsWith(idText, "0x")
    requires forall i | 2 <= i < 10 :: '0' <= idText[i] <= '9' || 'a' <= idText[i] <= 'f'
    ensures HexId(DecodeWindowId(idText)) == idText
  {
    var digits := idText[2..];
    assert forall i | 0 <= i < 8 :: digits[i] == idText[i + 2];
    assert forall i | 0 <= i < 8 :: DigitValue(digits[i], 16).Some?;
    var n := DigitsValue(digits, 16).value;
    FixedHexOfValue(digits, n);
    assert Pow16(8) == TWO_32;
    assert DigitValue(digits[0], 16).Some?;
    assert ParseU32(digits, 16) == Some(n);
    assert idText == "0x" + digits;
  }

  /** The loop body of `get_eve_windows`, as a function of one row. */
  function ToEveWindow(e: Entry): Option<EveWindow> {
    if IsEveTitle(e.1) then
      var id := DecodeWindowId(e.0);
      if id != 0 then Some(EveWindow(id, StoredTitle(e.1))) else None
    else None
  }

  /** `get_eve_windows`, given the lines `wmctrl -l` printed. */
  method GetEveWindows(lines: seq<string>) returns (eveWindows: seq<EveWindow>)
    ensures eveWindows == FilterMap(FilterMap(lines, ParseLine), ToEveWindow)
  {
    var windows := GetAllWindows(lines);
    eveWindows := [];
    for i := 0 to |windows|
      invariant eveWindows == FilterMap(windows[..i], ToEveWindow)
    {
      assert windows[..i + 1][..i] == windows[..i];
      ghost var step := ToEveWindow(windows[i]);
      assert FilterMap(windows[..i + 1], ToEveWindow) ==
        eveWindows + (match step case Some(w) => [w] case None => []);
      var (idText, title) := windows[i];
      if StartsWith(title, EVE_PREFIX) && !Contains(title, LAUNCHER) {
        var id := if StartsWith(idText, "0x") then ParseU32(idText[2..], 16).GetOr(0)
                  else ParseU32(idText, 10).GetOr(0);
        assert id == DecodeWindowId(idText);
        if id != 0 {
          eveWindows := eveWindows + [EveWindow(id, TrimStartMatches(title, EVE_PREFIX))];
        }
      }
    }
    assert windows[..|windows|] == windows;
  }

  /** The windows `get_eve_windows` returns are the rows, in their order, whose
      title passes the filter and whose id decodes to something other than 0;
      each keeps that id and its title without the prefix. */
  lemma EveWindowsSelected(entries: seq<Entry>)
    ensures var r := FilterMap(entries, ToEveWindow);
      var kept := Kept(entries, ToEveWindow);
      |kept| == |r| &&
      (forall k | 0 <= k < |kept| ::
         kept[k] < |entries| &&
         r[k] == EveWindow(DecodeWindowId(entries[kept[k]].0), StoredTitle(entries[kept[k]].1))) &&
      (forall k, l | 0 <= k < l < |kept| :: kept[k] < kept[l]) &&
      (forall i | 0 <= i < |entries| ::
         i in kept <==> IsEveTitle(entries[i].1) && DecodeWindowId(entries[i].0) != 0)
  {
    FilterMapSelects(entries, ToEveWindow);
  }

  /** No window KWin reports has id 0, and no stored title starts with the
      prefix or contains "Launcher". */
  lemma EveWindowsWellFormed(entries: seq<Entry>, k: nat)
    requires k < |FilterMap(entries, ToEveWindow)|
    ensures var w := FilterMap(entries, ToEveWindow)[k];
      w.id != 0 && !StartsWith(w.title, EVE_PREFIX) && !Contains(w.title, LAUNCHER)
  {
    FilterMapFrom(entries, ToEveWindow, k);
    var i :| 0 <= i < |entries| && ToEveWindow(entries[i]) == Some(FilterMap(entries, ToEveWindow)[k]);
    StoredTitleOfEveTitle(entries[i].1);
  }

  lemma TwoFields(desktop: string, host: string, rest: string)
    requires desktop != [] && NoWhitespace(desktop) && host != [] && NoWhitespace(host)
    requires rest == [] || IsWhitespace(rest[0])
    ensures SplitWhitespace(desktop + " " + host + rest) == [desktop, host] + SplitWhitespace(rest)
  {
    FieldThenRest(host, rest);
    FieldThenSpace(desktop, host + rest);
    AppendAssoc3(desktop + " ", host, rest);
  }

  /** The first three fields of a row are its id, desktop and host. */
  lemma RowFields(id: string, desktop: string, host: string, sep: string, rest: string)
    requires id != [] && NoWhitespace(id) && desktop != [] && NoWhitespace(desktop)
    requires host != [] && NoWhitespace(host) && sep != [] && AllWhitespace(sep)
    requires rest == [] || IsWhitespace(rest[0])
    ensures SplitWhitespace(id + sep + desktop + " " + host + rest) == [id, desktop, host] + SplitWhitespace(rest)
  {
    var tail := desktop + " " + host + rest;
    TwoFields(desktop, host, rest);
    SplitWordFirst(id, sep, tail);
    FieldsAssoc(id + sep, desktop, host, rest);
  }

  lemma FieldsAssoc(a: string, desktop: string, host: string, rest: string)
    ensures a + (desktop + " " + host + rest) == a + desktop + " " + host + rest
  {
  }

  /** The title a row of `wmctrl -l` carries: the fields after the host, joined by
      single spaces. A title made of single-space separated words comes back whole. */
  lemma ParseLineOfRow(id: string, desktop: string, host: string, sep: string, words: seq<string>)
    requires id != [] && NoWhitespace(id) && desktop != [] && NoWhitespace(desktop)
    requires host != [] && NoWhitespace(host) && sep != [] && AllWhitespace(sep)
    requires words != [] && forall w | w in words :: w != [] && NoWhitespace(w)
    ensures ParseLine(id + sep + desktop + " " + host + " " + Join(words, " ")) == Some((id, Join(words, " ")))
  {
    var title := Join(words, " ");
    RowFields(id, desktop, host, sep, " " + title);
    SplitSkipsWhitespace(" ", title);
    SplitJoin(words);
    var line := id + sep + desktop + " " + host + " " + title;
    assert line == id + sep + desktop + " " + host + (" " + title);
    var parts := [id, desktop, host] + words;
    assert SplitWhitespace(line) == parts;
    assert parts[3..] == words;
  }

  /** A run of whitespace inside a title is not kept: the two words around it
      come back joined by a single space ("EVE -  Two" reads back as "EVE - Two"). */
  lemma ParseLineCollapsesSpaces(id: string, desktop: string, host: string, sep: string, a: string, ws: string, b: string)
    requires id != [] && NoWhitespace(id) && desktop != [] && NoWhitespace(desktop)
    requires host != [] && NoWhitespace(host) && sep != [] && AllWhitespace(sep)
    requires a != [] && NoWhitespace(a) && b != [] && NoWhitespace(b) && ws != [] && AllWhitespace(ws)
    ensures ParseLine(id + sep + desktop + " " + host + " " + a + ws + b) == Some((id, a + " " + b))
  {
    var title := a + ws + b;
    RowFields(id, desktop, host, sep, " " + title);
    TitleWords(a, ws, b);
    RowAssoc(id + sep + desktop + " " + host, a, ws, b);
    var parts := [id, desktop, host] + [a, b];
    assert parts[3..] == [a, b];
    assert Join([a, b], " ") == a + " " + b;
  }

  lemma RowAssoc(row: string, a: string, ws: string, b: string)
    ensures row + " " + a + ws + b == row + (" " + (a + ws + b))
  {
  }

  lemma TitleWords(a: string, ws: string, b: string)
    requires a != [] && NoWhitespace(a) && b != [] && NoWhitespace(b) && ws != [] && AllWhitespace(ws)
    ensures SplitWhitespace(" " + (a + ws + b)) == [a, b]
  {
    SplitSkipsWhitespace(" ", a + ws + b);
    SplitWordFirst(a, ws, b);
    FieldThenRest(b, []);
    assert b + [] == b;
  }

  /** `find_window_by_title`'s loop body: an exact match on the unstripped title
      whose id decodes to something other than 0. */
  function MatchId(e: Entry, title: string): Option<u32> {
    if e.1 == title then
      var id := DecodeWindowId(e.0);
      if id != 0 then Some(id) else None
    else None
  }

  /** `find_window_by_title`, given the lines `wmctrl -l` printed: the id of the
      first row titled exactly `title` whose id is not 0; rows whose id decodes
      to 0 are passed over. */
  function FindWindowByTitle(lines: seq<string>, title: string): (r: Option<u32>)
    ensures var entries := FilterMap(lines, ParseLine);
      (r.Some? ==> r.value != 0 && exists i | 0 <= i < |entries| ::
         entries[i].1 == title && DecodeWindowId(entries[i].0) == r.value &&
         forall j | 0 <= j < i :: entries[j].1 == title ==> DecodeWindowId(entries[j].0) == 0) &&
      (r.None? ==> forall i | 0 <= i < |entries| :: entries[i].1 == title ==> DecodeWindowId(entries[i].0) == 0)
  {
    var entries := FilterMap(lines, ParseLine);
    var r := FirstSome(entries, (e: Entry) => MatchId(e, title));
    assert forall i | 0 <= i < |entries| :: MatchId(entries[i], title).None? <==>
      (entries[i].1 == title ==> DecodeWindowId(entries[i].0) == 0);
    r
  }

  /** `get_active_window`: `xdotool getactivewindow` prints a decimal id; `None`
      stands for xdotool not starting. */
  function ActiveWindow(stdout: Option<string>): (r: Result<u32>)
    ensures r.Ok? <==> stdout.Some? && ParseU32(Trim(stdout.value), 10).Some?
    ensures r.Ok? ==> r.value == ParseU32(Trim(stdout.value), 10).value
    ensures stdout.None? ==> r == Err("Failed to get active window")
    ensures stdout.Some? && r.Err? ==> r == Err("Failed to parse active window ID")
  {
    match stdout
    case None => Err("Failed to get active window")
    case Some(text) =>
      match ParseU32(Trim(text), 10)
      case Some(id) => Ok(id)
      case None => Err("Failed to parse active window ID")
  }

  /** xdotool's answer, a decimal id and a newline, is read back as that id. */
  lemma ActiveWindowOfXdotool(id: u32)
    ensures ActiveWindow(Some(Digits(id, 10) + "\n")) == Ok(id)
  {
    var d := Digits(id, 10);
    var text := d + "\n";
    DecimalIsAsciiDigits(id);
    assert LeadingWhitespace(text) == 0 by {
      assert text[0] == d[0];
    }
    assert text[..|text| - 1] == d;
    assert TrailingWhitespace(text) == 1;
    assert Trim(text) == d;
    ParseDigitsRoundTrip(id, 10);
  }

  /** `activate_window`'s command: `wmctrl -i -a 0xNNNNNNNN`, naming the window
      by an id that decodes back to `id`. */
  function ActivateCommand(id: u32): (cmd: Argv)
    ensures |cmd| == 4 && cmd[..3] == ["wmctrl", "-i", "-a"] && DecodeWindowId(cmd[3]) == id
  {
    HexIdRoundTrip(id);
    ["wmctrl", "-i", "-a", HexId(id)]
  }

  /** The `-e` argument: gravity 0, then x, y, width and height. */
  function Geometry(rect: Rect): string {
    "0," + FormatInt(rect.x) + "," + FormatInt(rect.y) + "," + FormatInt(rect.width) + "," + FormatInt(rect.height)
  }

  /** The move-and-resize `stack_windows` issues for one window: it names the
      window by an id that decodes back to it and carries the shared geometry. */
  function StackCommand(w: EveWindow, rect: Rect): (cmd: Argv)
    ensures |cmd| == 6 && cmd[..3] == ["wmctrl", "-i", "-r"] && cmd[4..] == ["-e", Geometry(rect)]
    ensures DecodeWindowId(cmd[3]) == w.id
  {
    HexIdRoundTrip(w.id);
    ["wmctrl", "-i", "-r", HexId(w.id), "-e", Geometry(rect)]
  }

  /** What `stack_windows` issues for one window: that single command. */
  function StackCommands(w: EveWindow, rect: Rect): (cmds: seq<Argv>)
    ensures |cmds| == 1
  {
    [StackCommand(w, rect)]
  }

  function StackPlan(windows: seq<EveWindow>, rect: Rect): seq<Argv> {
    FlatMap(windows, rect, StackCommands)
  }

  /** `stack_windows`: one `wmctrl -e` per window, in order, all to the same
      rectangle; a command that cannot be started ends the loop with an error. */
  method StackWindows(windows: seq<EveWindow>, c: Config, launches: Argv -> bool)
    returns (issued: seq<Argv>, completed: bool)
    requires c.eve_width <= c.display_width && c.panel_height <= c.display_height
    ensures Run(issued, completed) == Attempt(StackPlan(windows, UnsignedRect(c)), launches)
  {
    var x := (c.display_width - c.eve_width) / 2;
    var y := 0;
    var width := c.eve_width;
    var height := c.display_height - c.panel_height;
    var rect := Rect(x, y, width, height);
    assert rect == UnsignedRect(c);
    issued := [];
    for i := 0 to |windows|
      invariant issued == StackPlan(windows[..i], rect)
      invariant forall k | 0 <= k < |issued| :: launches(issued[k])
    {
      var cmd := ["wmctrl", "-i", "-r", HexId(windows[i].id), "-e", Geometry(rect)];
      FlatMapStep(windows, rect, StackCommands, i);
      assert [cmd] == StackCommands(windows[i], rect);
      AttemptOne(issued, cmd, StackPlan(windows[i + 1..], rect), launches);
      var started;
      issued, started := Spawn(issued, cmd, launches);
      if !started {
        return issued, false;
      }
    }
    assert windows[..|windows|] == windows;
    completed := true;
  }

  /** The plan has one command per window, in window order. */
  lemma StackPlanShape(windows: seq<EveWindow>, rect: Rect, k: nat)
    requires k < |windows|
    ensures |StackPlan(windows, rect)| == |windows|
    ensures StackPlan(windows, rect)[k] == StackCommand(windows[k], rect)
  {
    FlatMapAt(windows, rect, StackCommands, 1, k, 0);
  }
}
