/** `HyprlandManager`: Hyprland reached through `hyprctl`. Windows are the
    client objects `hyprctl clients -j` prints; a window is named by its
    "address", a hex string such as "0x55d0c0a0b0c0", which the backend folds
    into a u32 id and writes back as `0x` followed by that id in hex. */
module Hyprland {
  import opened Wrappers
  import opened Numbers
  import opened Text
  import opened Seqs
  import opened Json
  import opened DisplayConfig
  import opened WindowManager

  /** The id decoding every Hyprland operation repeats: the hex digits after
      `0x`; 0 when the prefix is missing or the digits do not parse as a u32. */
  function DecodeAddress(address: string): (r: u32)
    ensures StartsWith(address, "0x") && ParseU32(address[2..], 16).Some? ==> r == ParseU32(address[2..], 16).value
    ensures r != 0 ==> StartsWith(address, "0x") && ParseU32(address[2..], 16) == Some(r)
  {
    if StartsWith(address, "0x") then ParseU32(address[2..], 16).GetOr(0) else 0
  }

  /** `format!("0x{:x}", id)`, the address the backend writes for an id. */
  function Address(id: u32): string {
    "0x" + Digits(id, 16)
  }

  /** Decoding reads back every address the backend writes. */
  lemma AddressRoundTrip(id: u32)
    ensures DecodeAddress(Address(id)) == id
  {
    assert Address(id)[2..] == Digits(id, 16);
    ParseDigitsRoundTrip(id, 16);
  }

  /** An address whose hex value does not fit in 32 bits, as the addresses of a
      64-bit Hyprland usually do, decodes to 0. */
  lemma WideAddressDecodesToZero(digits: string, v: nat)
    requires digits != []
    requires DigitsValue(digits, 16) == Some(v) && v > U32_MAX
    ensures DecodeAddress("0x" + digits) == 0
  {
    assert ("0x" + digits)[2..] == digits;
    assert DigitValue(digits[0], 16).Some?;
  }

  /** The loop body of `get_eve_windows`, as a function of one client: a string
      "title" that passes the filter and a string "address". The id is whatever
      the address decodes to, 0 included. */
  function ToEveWindow(client: Json): Option<EveWindow> {
    match GetStr(client, "title")
    case Some(title) =>
      if IsEveTitle(title) then
        match GetStr(client, "address")
        case Some(address) => Some(EveWindow(DecodeAddress(address), StoredTitle(title)))
        case None => None
      else None
    case None => None
  }

  /** `get_eve_windows`, given the clients `hyprctl clients -j` printed. */
  method GetEveWindows(clients: seq<Json>) returns (eveWindows: seq<EveWindow>)
    ensures eveWindows == FilterMap(clients, ToEveWindow)
  {
    eveWindows := [];
    for i := 0 to |clients|
      invariant eveWindows == FilterMap(clients[..i], ToEveWindow)
    {
      assert clients[..i + 1][..i] == clients[..i];
      var title := GetStr(clients[i], "title");
      if title.Some? && StartsWith(title.value, EVE_PREFIX) && !Contains(title.value, LAUNCHER) {
        var address := GetStr(clients[i], "address");
        if address.Some? {
          var id := if StartsWith(address.value, "0x") then ParseU32(address.value[2..], 16).GetOr(0) else 0;
          eveWindows := eveWindows + [EveWindow(id, TrimStartMatches(title.value, EVE_PREFIX))];
        }
      }
    }
    assert clients[..|clients|] == clients;
  }

  /** Unlike KWin's, Hyprland's filter keeps a window whose address cannot be
      decoded: it is reported with id 0. */
  lemma UndecodableAddressKept(client: Json)
    requires GetStr(client, "title").Some? && IsEveTitle(GetStr(client, "title").value)
    requires GetStr(client, "address").Some?
    requires !StartsWith(GetStr(client, "address").value, "0x")
    ensures ToEveWindow(client) == Some(EveWindow(0, StoredTitle(GetStr(client, "title").value)))
  {
  }

  /** The windows `get_eve_windows` returns are the clients, in their order,
      that have a string "title" passing the filter and a string "address";
      unlike the other backends, a client whose address decodes to 0 is kept. */
  lemma EveWindowsSelected(clients: seq<Json>)
    ensures var r := FilterMap(clients, ToEveWindow);
      var kept := Kept(clients, ToEveWindow);
      |kept| == |r| &&
      (forall k | 0 <= k < |kept| ::
         kept[k] < |clients| &&
         GetStr(clients[kept[k]], "title").Some? && GetStr(clients[kept[k]], "address").Some? &&
         r[k] == EveWindow(DecodeAddress(GetStr(clients[kept[k]], "address").value),
                           StoredTitle(GetStr(clients[kept[k]], "title").value))) &&
      (forall k, l | 0 <= k < l < |kept| :: kept[k] < kept[l]) &&
      (forall i | 0 <= i < |clients| ::
         i in kept <==> GetStr(clients[i], "title").Some? && IsEveTitle(GetStr(clients[i], "title").value) &&
                        GetStr(clients[i], "address").Some?)
  {
    FilterMapSelects(clients, ToEveWindow);
  }

  /** No stored title starts with the prefix or contains "Launcher". */
  lemma EveWindowsWellFormed(clients: seq<Json>, k: nat)
    requires k < |FilterMap(clients, ToEveWindow)|
    ensures var w := FilterMap(clients, ToEveWindow)[k];
      !StartsWith(w.title, EVE_PREFIX) && !Contains(w.title, LAUNCHER)
  {
    FilterMapFrom(clients, ToEveWindow, k);
    var i :| 0 <= i < |clients| && ToEveWindow(clients[i]) == Some(FilterMap(clients, ToEveWindow)[k]);
    StoredTitleOfEveTitle(GetStr(clients[i], "title").value);
  }

  /** `get_active_window`, given the object `hyprctl activewindow -j` printed:
      the decoded "address" (possibly 0) when there is one. */
  function ActiveWindow(window: Json): (r: Result<u32>)
    ensures r.Ok? <==> GetStr(window, "address").Some?
    ensures r.Ok? ==> r.value == DecodeAddress(GetStr(window, "address").value)
    ensures r.Err? ==> r.message == "Failed to get active window ID"
  {
    match GetStr(window, "address")
    case Some(address) => Ok(DecodeAddress(address))
    case None => Err("Failed to get active window ID")
  }

  /** `find_window_by_title`'s loop body: a client titled exactly `title` that
      has an address; a title match without an address lets the search go on. */
  function TitleMatch(client: Json, title: string): Option<u32> {
    if GetStr(client, "title") == Some(title) then
      match GetStr(client, "address")
      case Some(address) => Some(DecodeAddress(address))
      case None => None
    else None
  }

  /** `find_window_by_title`: the decoded address of the first client titled
      exactly `title` that has an address, 0 included. */
  function FindWindowByTitle(clients: seq<Json>, title: string): (r: Option<u32>)
    ensures r.Some? ==> exists i | 0 <= i < |clients| ::
      GetStr(clients[i], "title") == Some(title) && GetStr(clients[i], "address").Some? &&
      r.value == DecodeAddress(GetStr(clients[i], "address").value) &&
      forall j | 0 <= j < i :: GetStr(clients[j], "title") == Some(title) ==> GetStr(clients[j], "address").None?
    ensures r.None? ==> forall i | 0 <= i < |clients| ::
      GetStr(clients[i], "title") == Some(title) ==> GetStr(clients[i], "address").None?
  {
    var r := FirstSome(clients, (c: Json) => TitleMatch(c, title));
    assert forall i | 0 <= i < |clients| :: TitleMatch(clients[i], title).None? <==>
      (GetStr(clients[i], "title") == Some(title) ==> GetStr(clients[i], "address").None?);
    r
  }

  /** `hyprctl dispatch <dispatcher> <argument>` */
  function Dispatch(dispatcher: string, argument: string): (cmd: Argv)
    ensures |cmd| == 4 && cmd[..3] == ["hyprctl", "dispatch", dispatcher] && cmd[3] == argument
  {
    ["hyprctl", "dispatch", dispatcher, argument]
  }

  /** `activate_window`'s command: `hyprctl dispatch focuswindow address:0x..`. */
  function ActivateCommand(id: u32): (cmd: Argv)
    ensures |cmd| == 4 && cmd[..3] == ["hyprctl", "dispatch", "focuswindow"]
    ensures StartsWith(cmd[3], "address:") && DecodeAddress(cmd[3][|"address:"|..]) == id
  {
    Dispatch("focuswindow", Target(id))
  }

  /** `address:0x..`, the window argument every dispatch ends with. */
  function Target(id: u32): (t: string)
    ensures StartsWith(t, "address:") && DecodeAddress(t[|"address:"|..]) == id
  {
    AddressRoundTrip(id);
    assert ("address:" + Address(id))[|"address:"|..] == Address(id);
    "address:" + Address(id)
  }

  /** `exact A B,`, the position or size before the window argument. */
  function Exact(a: int, b: int): string {
    "exact " + FormatInt(a) + " " + FormatInt(b) + ","
  }

  /** What `stack_windows` issues for one window: make it floating, move it,
      resize it, each command naming the window by its address. */
  function StackCommands(w: EveWindow, rect: Rect): (cmds: seq<Argv>)
    ensures |cmds| == 3
  {
    [Dispatch("togglefloating", Target(w.id)),
     Dispatch("movewindowpixel", Exact(rect.x, rect.y) + Target(w.id)),
     Dispatch("resizewindowpixel", Exact(rect.width, rect.height) + Target(w.id))]
  }

  function StackPlan(windows: seq<EveWindow>, rect: Rect): seq<Argv> {
    FlatMap(windows, rect, StackCommands)
  }

  /** `stack_windows`: three hyprctl dispatches per window, in order; a command
      that cannot be started ends the loop with an error, and exit statuses are
      not looked at. */
  method StackWindows(windows: seq<EveWindow>, c: Config, launches: Argv -> bool)
    returns (issued: seq<Argv>, completed: bool)
    requires c.eve_width <= c.display_width && c.panel_height <= c.display_height
    ensures Run(issued, completed) == Attempt(StackPlan(windows, SignedRect(c)), launches)
  {
    var x := AsI32((c.display_width - c.eve_width) / 2);
    var y := 0;
    var width := AsI32(c.eve_width);
    var height := AsI32(c.display_height - c.panel_height);
    ghost var rect := Rect(x, y, width, height);
    assert rect == SignedRect(c);
    issued := [];
    for i := 0 to |windows|
      invariant issued == StackPlan(windows[..i], rect)
      invariant forall k | 0 <= k < |issued| :: launches(issued[k])
    {
      var target := Target(windows[i].id);
      var floating := Dispatch("togglefloating", target);
      var move := Dispatch("movewindowpixel", Exact(x, y) + target);
      var resize := Dispatch("resizewindowpixel", Exact(width, height) + target);
      FlatMapStep(windows, rect, StackCommands, i);
      assert [floating, move, resize] == StackCommands(windows[i], rect);
      AttemptThree(issued, floating, move, resize, StackPlan(windows[i + 1..], rect), launches);
      var started;
      issued, started := Spawn(issued, floating, launches);
      if !started {
        return issued, false;
      }
      issued, started := Spawn(issued, move, launches);
      if !started {
        return issued, false;
      }
      issued, started := Spawn(issued, resize, launches);
      if !started {
        return issued, false;
      }
    }
    assert windows[..|windows|] == windows;
    completed := true;
  }

  /** The plan has three dispatches per window, in window order: togglefloating,
      movewindowpixel, resizewindowpixel. */
  lemma StackPlanShape(windows: seq<EveWindow>, rect: Rect, k: nat, j: nat)
    requires k < |windows| && j < 3
    ensures |StackPlan(windows, rect)| == 3 * |windows|
    ensures StackPlan(windows, rect)[3 * k + j] == StackCommands(windows[k], rect)[j]
    ensures StackPlan(windows, rect)[3 * k + j][2] == ["togglefloating", "movewindowpixel", "resizewindowpixel"][j]
  {
    assert forall w :: |StackCommands(w, rect)| == 3;
    FlatMapAt(windows, rect, StackCommands, 3, k, j);
    assert k * 3 + j == 3 * k + j;
    StackCommandsDispatchers(windows[k], rect, j);
  }

  lemma StackCommandsDispatchers(w: EveWindow, rect: Rect, j: nat)
    requires j < 3
    ensures |StackCommands(w, rect)[j]| == 4
    ensures StackCommands(w, rect)[j][2] == ["togglefloating", "movewindowpixel", "resizewindowpixel"][j]
  {
  }

  /** Every command for a window ends with the address argument of that window,
      which decodes back to its id. */
  lemma StackCommandsNameWindow(w: EveWindow, rect: Rect, j: nat)
    requires j < 3
    ensures var arg, t := StackCommands(w, rect)[j][3], Target(w.id);
      |t| <= |arg| && arg[|arg| - |t|..] == t
  {
    var t := Target(w.id);
    var prefix := if j == 0 then [] else if j == 1 then Exact(rect.x, rect.y) else Exact(rect.width, rect.height);
    var arg := StackCommands(w, rect)[j][3];
    assert arg == prefix + t;
    assert (prefix + t)[|prefix|..] == t;
  }
}
