/** `SwayManager`: Sway reached through `swaymsg`. Windows are the nodes of the
    layout tree `swaymsg -t get_tree` prints; a window is named by its
    container id, written in decimal inside a `[con_id=N]` criteria. */
module Sway {
  import opened Wrappers
  import opened Numbers
  import opened Text
  import opened Seqs
  import opened Json
  import opened DisplayConfig
  import opened WindowManager

  /** The test of `extract_windows`: a "con" or "floating_con" node that has an
      `app_id` which is not null, or, when it has no `app_id` member at all,
      a `window_properties` which is not null. */
  predicate IsWindowNode(node: Json) {
    match GetStr(node, "type")
    case Some(t) =>
      (t == "con" || t == "floating_con") &&
      (match Get(node, "app_id")
       case Some(appId) => appId != Null
       case None =>
         (match Get(node, "window_properties")
          case Some(props) => props != Null
          case None => false))
    case None => false
  }

  /** The window nodes of the tree under `node`, in the order `extract_windows`
      pushes them: the node itself, then its tiled children's trees, then its
      floating children's trees. */
  function Walk(node: Json): seq<Json>
    decreases node, 1
  {
    var nodes, floating := GetArray(node, "nodes"), GetArray(node, "floating_nodes");
    (if IsWindowNode(node) then [node] else [])
    + WalkAll(node, nodes, |nodes|)
    + WalkAll(node, floating, |floating|)
  }

  /** The window nodes of the trees under the first `k` of `children`, one tree after another. */
  function WalkAll(ghost parent: Json, children: seq<Json>, k: nat): seq<Json>
    requires forall c | c in children :: c < parent
    requires k <= |children|
    decreases parent, 0, k
  {
    if k == 0 then []
    else
      assert children[k - 1] in children;
      WalkAll(parent, children, k - 1) + Walk(children[k - 1])
  }

  /** One more child appends that child's walk. */
  lemma WalkAllSnoc(windows: seq<Json>, parent: Json, children: seq<Json>, k: nat)
    requires forall c | c in children :: c < parent
    requires k < |children|
    ensures windows + WalkAll(parent, children, k + 1) == windows + WalkAll(parent, children, k) + Walk(children[k])
  {
    AppendAssoc3(windows, WalkAll(parent, children, k), Walk(children[k]));
  }

  /** `n` is `node` or a node somewhere below it through `nodes` or `floating_nodes`. */
  ghost predicate InTree(n: Json, node: Json)
    decreases node, 1
  {
    var nodes, floating := GetArray(node, "nodes"), GetArray(node, "floating_nodes");
    n == node || Below(n, node, nodes, |nodes|) || Below(n, node, floating, |floating|)
  }

  /** `n` is in the tree under one of the first `k` of `children`. */
  ghost predicate Below(n: Json, parent: Json, children: seq<Json>, k: nat)
    requires forall c | c in children :: c < parent
    requires k <= |children|
    decreases parent, 0
  {
    exists i | 0 <= i < k :: assert children[i] in children; InTree(n, children[i])
  }

  lemma BelowSnoc(n: Json, parent: Json, children: seq<Json>, k: nat)
    requires forall c | c in children :: c < parent
    requires 0 < k <= |children|
    ensures Below(n, parent, children, k) <==> Below(n, parent, children, k - 1) || InTree(n, children[k - 1])
  {
    if InTree(n, children[k - 1]) {
      assert Below(n, parent, children, k);
    }
    if Below(n, parent, children, k - 1) {
      var i :| 0 <= i < k - 1 && InTree(n, children[i]);
      assert Below(n, parent, children, k);
    }
    if Below(n, parent, children, k) {
      var i :| 0 <= i < k && InTree(n, children[i]);
      if i < k - 1 {
        assert Below(n, parent, children, k - 1);
      }
    }
  }

  /** The walk finds exactly the window nodes of the tree. */
  lemma {:induction false} WalkFindsWindows(node: Json, n: Json)
    ensures n in Walk(node) <==> InTree(n, node) && IsWindowNode(n)
    decreases node, 1
  {
    var nodes, floating := GetArray(node, "nodes"), GetArray(node, "floating_nodes");
    WalkAllFindsWindows(node, nodes, |nodes|, n);
    WalkAllFindsWindows(node, floating, |floating|, n);
  }

  lemma {:induction false} WalkAllFindsWindows(parent: Json, children: seq<Json>, k: nat, n: Json)
    requires forall c | c in children :: c < parent
    requires k <= |children|
    ensures n in WalkAll(parent, children, k) <==> Below(n, parent, children, k) && IsWindowNode(n)
    decreases parent, 0, k
  {
    if k > 0 {
      assert children[k - 1] in children;
      var earlier, last := WalkAll(parent, children, k - 1), Walk(children[k - 1]);
      assert WalkAll(parent, children, k) == earlier + last;
      WalkAllFindsWindows(parent, children, k - 1, n);
      WalkFindsWindows(children[k - 1], n);
      BelowSnoc(n, parent, children, k);
    }
  }

  /** A node whose "app_id" is present but null is never collected, whatever
      its "window_properties" say: the `else if` is only reached when there is
      no "app_id" at all. */
  lemma NullAppIdNeverListed(tree: Json, n: Json)
    requires Get(n, "app_id") == Some(Null)
    ensures n !in Walk(tree)
  {
    WalkFindsWindows(tree, n);
  }

  /** The first half of `extract_windows`: `node` itself is pushed when it is a window. */
  method PushIfWindow(node: Json, windows: seq<Json>) returns (out: seq<Json>)
    ensures out == windows + (if IsWindowNode(node) then [node] else [])
  {
    out := windows;
    match GetStr(node, "type") {
      case Some(nodeType) =>
        if nodeType == "con" || nodeType == "floating_con" {
          match Get(node, "app_id") {
            case Some(appId) =>
              if appId != Null {
                out := out + [node];
              }
            case None =>
              match Get(node, "window_properties") {
                case Some(props) =>
                  if props != Null {
                    out := out + [node];
                  }
                case None =>
              }
          }
        }
      case None =>
    }
  }

  method ExtractWindows(node: Json, windows: seq<Json>) returns (out: seq<Json>)
    ensures out == windows + Walk(node)
    decreases node, 1
  {
    var nodes, floating := GetArray(node, "nodes"), GetArray(node, "floating_nodes");
    out := PushIfWindow(node, windows);
    out := ExtractChildren(node, nodes, out);
    out := ExtractChildren(node, floating, out);
    AppendAssoc4(windows, if IsWindowNode(node) then [node] else [],
      WalkAll(node, nodes, |nodes|), WalkAll(node, floating, |floating|));
  }

  method ExtractChildren(ghost parent: Json, children: seq<Json>, windows: seq<Json>) returns (out: seq<Json>)
    requires forall c | c in children :: c < parent
    ensures out == windows + WalkAll(parent, children, |children|)
    decreases parent, 0
  {
    out := windows;
    for i := 0 to |children|
      invariant out == windows + WalkAll(parent, children, i)
    {
      assert children[i] in children;
      WalkAllSnoc(windows, parent, children, i);
      out := ExtractWindows(children[i], out);
    }
  }

  /** `get_all_windows` once `swaymsg -t get_tree` has printed `tree`: the
      window nodes of the whole tree, in walk order. */
  method GetAllWindows(tree: Json) returns (windows: seq<Json>)
    ensures windows == Walk(tree)
  {
    windows := ExtractWindows(tree, []);
    assert [] + Walk(tree) == Walk(tree);
  }

  /** `get_window_title`: the node's "name", when it is a string. */
  function WindowTitle(node: Json): (r: Option<string>)
    ensures r.Some? <==> Get(node, "name").Some? && Get(node, "name").value.Str?
    ensures r.Some? ==> Get(node, "name") == Some(Str(r.value))
  {
    GetStr(node, "name")
  }

  /** `get_window_id`: the node's "id" when it is a u64, cut to its low 32 bits
      by `as u32`; a container id of 2^32 or more is not rejected but wraps. */
  function WindowId(node: Json): (r: Option<u32>)
    ensures r.Some? <==> GetU64(node, "id").Some?
    ensures r.Some? ==> r.value == GetU64(node, "id").value % TWO_32
  {
    match GetU64(node, "id")
    case Some(id) => Some(Low32(id))
    case None => None
  }

  /** The loop body of `get_eve_windows`, as a function of one window node. */
  function ToEveWindow(node: Json): Option<EveWindow> {
    match WindowTitle(node)
    case Some(title) =>
      if IsEveTitle(title) then
        match WindowId(node)
        case Some(id) => Some(EveWindow(id, StoredTitle(title)))
        case None => None
      else None
    case None => None
  }

  /** `get_eve_windows`, given the window nodes `get_all_windows` returned. */
  method GetEveWindows(windows: seq<Json>) returns (eveWindows: seq<EveWindow>)
    ensures eveWindows == FilterMap(windows, ToEveWindow)
  {
    eveWindows := [];
    for i := 0 to |windows|
      invariant eveWindows == FilterMap(windows[..i], ToEveWindow)
    {
      assert windows[..i + 1][..i] == windows[..i];
      match WindowTitle(windows[i]) {
        case Some(title) =>
          if StartsWith(title, EVE_PREFIX) && !Contains(title, LAUNCHER) {
            match WindowId(windows[i]) {
              case Some(id) =>
                eveWindows := eveWindows + [EveWindow(id, TrimStartMatches(title, EVE_PREFIX))];
              case None =>
            }
          }
        case None =>
      }
    }
    assert windows[..|windows|] == windows;
  }

  /** The windows `get_eve_windows` returns are the window nodes, in their order,
      that have a string "name" passing the filter and a u64 "id"; each keeps
      that id's low 32 bits and its title without the prefix. */
  lemma EveWindowsSelected(windows: seq<Json>)
    ensures var nodes := windows;
      var r := FilterMap(nodes, ToEveWindow);
      var kept := Kept(nodes, ToEveWindow);
      |kept| == |r| &&
      (forall k | 0 <= k < |kept| ::
         kept[k] < |nodes| && WindowTitle(nodes[kept[k]]).Some? && WindowId(nodes[kept[k]]).Some? &&
         r[k] == EveWindow(WindowId(nodes[kept[k]]).value, StoredTitle(WindowTitle(nodes[kept[k]]).value))) &&
      (forall k, l | 0 <= k < l < |kept| :: kept[k] < kept[l]) &&
      (forall i | 0 <= i < |nodes| ::
         i in kept <==> WindowTitle(nodes[i]).Some? && IsEveTitle(WindowTitle(nodes[i]).value) &&
                        WindowId(nodes[i]).Some?)
  {
    FilterMapSelects(windows, ToEveWindow);
  }

  /** Every window Sway reports is a window node of the tree whose title passes
      the filter; what it stores neither starts with the prefix nor contains "Launcher". */
  lemma EveWindowsFromTree(tree: Json, k: nat)
    requires k < |FilterMap(Walk(tree), ToEveWindow)|
    ensures var w := FilterMap(Walk(tree), ToEveWindow)[k];
      (exists n :: InTree(n, tree) && IsWindowNode(n) && WindowId(n) == Some(w.id) &&
         WindowTitle(n).Some? && IsEveTitle(WindowTitle(n).value) && w.title == StoredTitle(WindowTitle(n).value)) &&
      !StartsWith(w.title, EVE_PREFIX) && !Contains(w.title, LAUNCHER)
  {
    var nodes := Walk(tree);
    FilterMapFrom(nodes, ToEveWindow, k);
    var i :| 0 <= i < |nodes| && ToEveWindow(nodes[i]) == Some(FilterMap(nodes, ToEveWindow)[k]);
    WalkFindsWindows(tree, nodes[i]);
    StoredTitleOfEveTitle(WindowTitle(nodes[i]).value);
  }

  /** `get_active_window`'s loop body: a walked node whose "focused" is true and that has an id. */
  function FocusedId(node: Json): Option<u32> {
    if GetBool(node, "focused") == Some(true) then WindowId(node) else None
  }

  /** `get_active_window`: the id of the first window `get_all_windows` returned that
      is focused and has an id; containers such as workspaces are never walked,
      so a focused workspace is not an answer. */
  function ActiveWindow(windows: seq<Json>): (r: Result<u32>)
    ensures (r.Ok? ==> exists i | 0 <= i < |windows| ::
         GetBool(windows[i], "focused") == Some(true) && WindowId(windows[i]) == Some(r.value) &&
         forall j | 0 <= j < i :: !(GetBool(windows[j], "focused") == Some(true) && WindowId(windows[j]).Some?)) &&
      (r.Err? ==> (r.message == "No active window found" &&
         forall i | 0 <= i < |windows| :: !(GetBool(windows[i], "focused") == Some(true) && WindowId(windows[i]).Some?)))
  {
    match FirstSome(windows, FocusedId)
    case Some(id) => Ok(id)
    case None => Err("No active window found")
  }

  /** `find_window_by_title`'s loop body: a node titled exactly `title` that has an id. */
  function TitleMatch(node: Json, title: string): Option<u32> {
    if WindowTitle(node) == Some(title) then WindowId(node) else None
  }

  /** `find_window_by_title`: the id of the first window `get_all_windows` returned
      titled exactly `title` (prefix included) that has an id. */
  function FindWindowByTitle(windows: seq<Json>, title: string): (r: Option<u32>)
    ensures (r.Some? ==> exists i | 0 <= i < |windows| ::
         WindowTitle(windows[i]) == Some(title) && WindowId(windows[i]) == r &&
         forall j | 0 <= j < i :: WindowTitle(windows[j]) == Some(title) ==> WindowId(windows[j]).None?) &&
      (r.None? ==> forall i | 0 <= i < |windows| :: WindowTitle(windows[i]) == Some(title) ==> WindowId(windows[i]).None?)
  {
    var r := FirstSome(windows, (n: Json) => TitleMatch(n, title));
    assert forall i | 0 <= i < |windows| :: TitleMatch(windows[i], title).None? <==>
      (WindowTitle(windows[i]) == Some(title) ==> WindowId(windows[i]).None?);
    r
  }

  const CON_ID: string := "[con_id="

  /** `[con_id=N]`: the criteria that selects container `id`. */
  function Criteria(id: u32): string {
    CON_ID + Digits(id, 10) + "]"
  }

  /** The container a swaymsg command's leading `[con_id=N]` criteria selects. */
  function CriteriaTarget(command: string): Option<u32> {
    if StartsWith(command, CON_ID) then
      match SplitOnce(command[|CON_ID|..], ']')
      case Some((digits, _)) => ParseU32(digits, 10)
      case None => None
    else None
  }

  /** A command that starts with the criteria written for `id` selects container `id`. */
  lemma CriteriaSelects(id: u32, command: string)
    requires StartsWith(command, Criteria(id))
    ensures CriteriaTarget(command) == Some(id)
  {
    var rest := command[|Criteria(id)|..];
    assert command == Criteria(id) + rest;
    CriteriaRoundTrip(id, rest);
  }

  lemma CriteriaRoundTrip(id: u32, rest: string)
    ensures CriteriaTarget(Criteria(id) + rest) == Some(id)
  {
    var d := Digits(id, 10);
    var command := Criteria(id) + rest;
    assert command == CON_ID + (d + "]" + rest);
    assert command[|CON_ID|..] == d + [']'] + rest;
    DecimalIsAsciiDigits(id);
    assert ']' !in d;
    SplitOnceAtFirst(d, ']', rest);
    ParseDigitsRoundTrip(id, 10);
  }

  /** `swaymsg "[con_id=N]<action>"`: one command addressed to container `id`. */
  function SwayCommand(id: u32, action: string): (cmd: Argv)
    ensures |cmd| == 2 && cmd[0] == "swaymsg" && StartsWith(cmd[1], Criteria(id))
  {
    ["swaymsg", Criteria(id) + action]
  }

  /** `activate_window`'s command: `swaymsg "[con_id=N] focus"`. */
  function ActivateCommand(id: u32): (cmd: Argv)
    ensures |cmd| == 2 && cmd[0] == "swaymsg" && StartsWith(cmd[1], Criteria(id))
    ensures cmd[1][|Criteria(id)|..] == " focus"
  {
    var cmd := SwayCommand(id, " focus");
    assert (Criteria(id) + " focus")[|Criteria(id)|..] == " focus";
    cmd
  }

  /** What `stack_windows` issues for one window: make it floating, move it,
      resize it; each command selects the window's container. */
  function StackCommands(w: EveWindow, rect: Rect): (cmds: seq<Argv>)
    ensures |cmds| == 3
  {
    [SwayCommand(w.id, " floating enable"),
     SwayCommand(w.id, " move position " + FormatInt(rect.x) + " " + FormatInt(rect.y)),
     SwayCommand(w.id, " resize set " + FormatInt(rect.width) + " " + FormatInt(rect.height))]
  }

  function StackPlan(windows: seq<EveWindow>, rect: Rect): seq<Argv> {
    FlatMap(windows, rect, StackCommands)
  }

  /** `stack_windows`: three swaymsg commands per window, in order; a command
      that cannot be started ends the loop with an error, and exit statuses are
      not looked at. */
  method StackWindows(windows: seq<EveWindow>, c: Config, launches: Argv -> bool)
    returns (issued: seq<Argv>, completed: bool)
    requires c.eve_width <= c.display_width && c.panel_height <= c.display_height
    ensures Run(issued, completed) == Attempt(StackPlan(windows, SignedRect(c)), launches)
  {
    var x := AsI32((c.display_width - c.eve_width) / 2);
    var y := 0;
    var width := AsI32(c.eve_width);
    var height := AsI32(c.display_height - c.panel_height);
    ghost var rect := Rect(x, y, width, height);
    assert rect == SignedRect(c);
    issued := [];
    for i := 0 to |windows|
      invariant issued == StackPlan(windows[..i], rect)
      invariant forall k | 0 <= k < |issued| :: launches(issued[k])
    {
      var id := windows[i].id;
      var floating := SwayCommand(id, " floating enable");
      var move := SwayCommand(id, " move position " + FormatInt(x) + " " + FormatInt(y));
      var resize := SwayCommand(id, " resize set " + FormatInt(width) + " " + FormatInt(height));
      FlatMapStep(windows, rect, StackCommands, i);
      assert [floating, move, resize] == StackCommands(windows[i], rect);
      AttemptThree(issued, floating, move, resize, StackPlan(windows[i + 1..], rect), launches);
      var started;
      issued, started := Spawn(issued, floating, launches);
      if !started {
        return issued, false;
      }
      issued, started := Spawn(issued, move, launches);
      if !started {
        return issued, false;
      }
      issued, started := Spawn(issued, resize, launches);
      if !started {
        return issued, false;
      }
    }
    assert windows[..|windows|] == windows;
    completed := true;
  }

  /** The plan has three commands per window, in window order, and every
      command selects the container of the window it was issued for. */
  lemma StackPlanShape(windows: seq<EveWindow>, rect: Rect, k: nat, j: nat)
    requires k < |windows| && j < 3
    ensures |StackPlan(windows, rect)| == 3 * |windows|
    ensures StackPlan(windows, rect)[3 * k + j] == StackCommands(windows[k], rect)[j]
    ensures StartsWith(StackPlan(windows, rect)[3 * k + j][1], Criteria(windows[k].id))
  {
    FlatMapAt(windows, rect, StackCommands, 3, k, j);
  }
}
