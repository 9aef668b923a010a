/** What the three Wayland-era backends share: the `EveWindow` record, the
    title filter, the stacking rectangle, and the way a backend issues
    external commands (src/wayland_backends.rs). */
module WindowManager {
  import opened Wrappers
  import opened Numbers
  import opened Text
  import opened Seqs
  import opened DisplayConfig

  /** One client window: the backend's 32-bit handle and its title without the prefix. */
  datatype EveWindow = EveWindow(id: u32, title: string)

  const EVE_PREFIX: string := "EVE - "
  const LAUNCHER: string := "Launcher"

  /** The filter every backend applies to a window title. */
  predicate IsEveTitle(title: string) {
    StartsWith(title, EVE_PREFIX) && !Contains(title, LAUNCHER)
  }

  /** The title an `EveWindow` stores: `trim_start_matches("EVE - ")`. */
  function StoredTitle(title: string): string {
    TrimStartMatches(title, EVE_PREFIX)
  }

  lemma {:induction false} ContainsOfSuffix(s: string, k: nat, needle: string)
    requires k <= |s| && Contains(s[k..], needle)
    ensures Contains(s, needle)
    decreases k
  {
    if k > 0 {
      assert s[1..][k - 1..] == s[k..];
      ContainsOfSuffix(s[1..], k - 1, needle);
    }
  }

  lemma {:induction false} RepeatLength(p: string, k: nat)
    ensures |Repeat(p, k)| == k * |p|
    decreases k
  {
    if k > 0 {
      RepeatLength(p, k - 1);
    }
  }

  /** A title that passes the filter is stored with at least one prefix removed,
      and what is stored neither starts with the prefix nor contains "Launcher". */
  lemma StoredTitleOfEveTitle(title: string)
    requires IsEveTitle(title)
    ensures var r := StoredTitle(title);
      |r| <= |title| - |EVE_PREFIX| && title[|title| - |r|..] == r &&
      !StartsWith(r, EVE_PREFIX) && !Contains(r, LAUNCHER)
  {
    var r := StoredTitle(title);
    TrimStartMatchesRepeats(title, EVE_PREFIX);
    var k: nat :| title == Repeat(EVE_PREFIX, k) + r;
    RepeatLength(EVE_PREFIX, k);
    assert k >= 1;
    assert title[|title| - |r|..] == r;
    if Contains(r, LAUNCHER) {
      ContainsOfSuffix(title, |title| - |r|, LAUNCHER);
    }
  }

  /** The rectangle every window is stacked to. */
  datatype Rect = Rect(x: int, y: int, width: int, height: int)

  /** KWin's rectangle: width and height are printed as the u32 values they are. */
  function UnsignedRect(c: Config): Rect
    requires c.eve_width <= c.display_width && c.panel_height <= c.display_height
  {
    Rect((c.display_width - c.eve_width) / 2, 0, c.eve_width, c.display_height - c.panel_height)
  }

  /** Sway's and Hyprland's rectangle: width and height go through `as i32`. */
  function SignedRect(c: Config): Rect
    requires c.eve_width <= c.display_width && c.panel_height <= c.display_height
  {
    Rect((c.display_width - c.eve_width) / 2, 0, AsI32(c.eve_width), AsI32(c.display_height - c.panel_height))
  }

  /** The backends compute the same rectangle as `Config`'s helpers; the signed
      one agrees with the unsigned one whenever both sizes fit in an i32. */
  lemma StackRectMatchesConfig(c: Config)
    requires c.eve_width <= c.display_width && c.panel_height <= c.display_height
    ensures UnsignedRect(c) == Rect(EveX(c), EveY(c), c.eve_width, EveHeightAdjusted(c))
    ensures SignedRect(c) == Rect(EveX(c), EveY(c), AsI32(c.eve_width), AsI32(EveHeightAdjusted(c)))
    ensures c.eve_width <= I32_MAX && EveHeightAdjusted(c) <= I32_MAX ==> SignedRect(c) == UnsignedRect(c)
    ensures c.eve_width > I32_MAX ==> SignedRect(c).width < 0
  {
  }

  /** The argument vector of one external command, program name first. */
  type Argv = seq<string>

  /** The commands a sequence of `Command::new(..).output()?` calls issued, and
      whether all of them could be started. */
  datatype Run = Run(issued: seq<Argv>, completed: bool)

  /** Issuing `plan` in order, where `launches(cmd)` says whether the operating
      system can start `cmd`: the `?` after each `output()` stops at the first
      command that cannot be started. The exit status of a started command is
      never looked at. */
  function Attempt(plan: seq<Argv>, launches: Argv -> bool): (r: Run)
    ensures r.completed <==> forall i | 0 <= i < |plan| :: launches(plan[i])
    ensures r.completed ==> r.issued == plan
    ensures !r.completed ==>
      0 < |r.issued| <= |plan| && r.issued == plan[..|r.issued|] &&
      !launches(plan[|r.issued| - 1]) && forall i | 0 <= i < |r.issued| - 1 :: launches(plan[i])
  {
    if plan == [] then Run([], true)
    else if !launches(plan[0]) then Run([plan[0]], false)
    else
      var rest := Attempt(plan[1..], launches);
      assert forall i | 1 <= i < |plan| :: plan[1..][i - 1] == plan[i];
      Run([plan[0]] + rest.issued, rest.completed)
  }

  /** A plan stops right after its first command that cannot be started. */
  lemma AttemptStopsAt(done: seq<Argv>, cmd: Argv, rest: seq<Argv>, launches: Argv -> bool)
    requires forall i | 0 <= i < |done| :: launches(done[i])
    requires !launches(cmd)
    ensures Attempt(done + [cmd] + rest, launches) == Run(done + [cmd], false)
  {
    var plan := done + [cmd] + rest;
    var r := Attempt(plan, launches);
    assert plan[|done|] == cmd;
    var n := |r.issued|;
    assert forall i | 0 <= i < |done| :: plan[i] == done[i];
    assert n - 1 == |done|;
    assert plan[..|done| + 1] == done + [cmd];
  }

  /** One command issued behind a `?`: the run stops right after it when it
      cannot be started, and otherwise every command so far was started. */
  lemma AttemptOne(done: seq<Argv>, cmd: Argv, rest: seq<Argv>, launches: Argv -> bool)
    requires forall i | 0 <= i < |done| :: launches(done[i])
    ensures !launches(cmd) ==> Attempt(done + [cmd] + rest, launches) == Run(done + [cmd], false)
    ensures launches(cmd) ==> forall i | 0 <= i < |done| + 1 :: launches((done + [cmd])[i])
  {
    if !launches(cmd) {
      AttemptStopsAt(done, cmd, rest, launches);
    } else {
      forall i | 0 <= i < |done| + 1
        ensures launches((done + [cmd])[i])
      {
        if i < |done| {
          assert (done + [cmd])[i] == done[i];
        }
      }
    }
  }

  /** Three commands issued one after another, each behind a `?`: the run
      stops right after the first of them that cannot be started. */
  lemma AttemptThree(done: seq<Argv>, a: Argv, b: Argv, c: Argv, rest: seq<Argv>, launches: Argv -> bool)
    requires forall i | 0 <= i < |done| :: launches(done[i])
    ensures done + [a] + [b] + [c] == done + [a, b, c]
    ensures !launches(a) ==>
      Attempt(done + [a, b, c] + rest, launches) == Run(done + [a], false)
    ensures launches(a) && !launches(b) ==>
      Attempt(done + [a, b, c] + rest, launches) == Run(done + [a] + [b], false)
    ensures launches(a) && launches(b) && !launches(c) ==>
      Attempt(done + [a, b, c] + rest, launches) == Run(done + [a] + [b] + [c], false)
    ensures launches(a) && launches(b) && launches(c) ==>
      forall i | 0 <= i < |done| + 3 :: launches((done + [a, b, c])[i])
  {
    var plan := done + [a, b, c] + rest;
    AppendAssoc3(done, [a, b, c], rest);
    AppendAssoc4(done, [a], [b], [c]);
    assert [a] + [b] + [c] == [a, b, c];
    if !launches(a) {
      assert plan == done + [a] + ([b, c] + rest);
      AttemptStopsAt(done, a, [b, c] + rest, launches);
    } else if !launches(b) {
      assert plan == done + [a] + [b] + ([c] + rest);
      AttemptStopsAt(done + [a], b, [c] + rest, launches);
    } else if !launches(c) {
      assert plan == done + [a] + [b] + [c] + rest;
      AttemptStopsAt(done + [a] + [b], c, rest, launches);
    } else {
      var all := done + [a, b, c];
      forall i | 0 <= i < |done| + 3
        ensures launches(all[i])
      {
        if i < |done| {
          assert all[i] == done[i];
        }
      }
    }
  }

  /** `Command::new(cmd[0]).args(cmd[1..]).output()`: the command joins the
      issued ones; `started` is false when it could not be started. */
  method Spawn(issued: seq<Argv>, cmd: Argv, launches: Argv -> bool) returns (issued': seq<Argv>, started: bool)
    ensures issued' == issued + [cmd] && started == launches(cmd)
  {
    issued' := issued + [cmd];
    started := launches(cmd);
  }

  /** What running an activation command gave: it could not be started, or it
      exited with some status and error text. */
  datatype Exit = SpawnFailed | Exited(success: bool, stderr: string)

  /** `activate_window` after its command ran: success only on a zero exit status. */
  function ActivationResult(exit: Exit): (r: Result<()>)
    ensures r.Ok? <==> exit.Exited? && exit.success
    ensures exit.Exited? && !exit.success ==> r == Err("Failed to activate window: " + exit.stderr)
  {
    match exit
    case SpawnFailed => Err("Failed to activate window")
    case Exited(success, stderr) =>
      if success then Ok(()) else Err("Failed to activate window: " + stderr)
  }
}
