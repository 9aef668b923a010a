# Nicotine's Wayland backends, modelled in Dafny

Nicotine arranges and cycles the game clients of EVE Online. This project
models the Wayland backends in src/wayland_backends.rs, together with the
parts of src/config.rs they use. Each backend talks to one window manager:

- **KDE Plasma (KWin)**, through `wmctrl` and `xdotool` over XWayland;
- **Sway**, through `swaymsg`;
- **Hyprland**, through `hyprctl`.

Each backend does the same things:

- It reads the window manager's window list, which is lines of text or a JSON value.
- It keeps the windows whose title starts with `EVE - ` and does not contain `Launcher`.
- It turns each window's handle into a 32-bit id.
- It answers "which window is active" and "which window has this title".
- It builds the commands that focus a window or stack every client on one centred rectangle.

`Config` supplies that rectangle:

- `eve_x`, `eve_y` and `eve_height_adjusted`;
- a display size read from the output of `xrandr --current`.

The model keeps every decision the backends make. It replaces each external
process by plain values:

- **Tool output is an input.** `wmctrl -l` and `xrandr` output is a sequence of lines. Sway's layout tree and Hyprland's clients are values of a `Json` datatype.
- **Issued commands are an output.** A command is an argument vector (`Argv`). Stacking returns the commands it issued and whether it got through all of them.
- **Starting a process is a parameter.** `launches(cmd)` says whether the operating system can start `cmd`. `WindowManager.Attempt` is the reference for a loop of `output()?` calls. Such a loop stops at the first command that cannot be started, and it never looks at exit statuses.
- **Rust semantics are written out:**
  - `from_str_radix` and `parse::<u32>`, including the optional `+` and overflow;
  - `format!` of `{}`, `{:x}` and `{:08x}`;
  - `as i32` (two's complement) and `as u32` on a u64 (the low 32 bits);
  - `split_whitespace`, `split_once`, `trim`, `trim_start_matches` and `contains`.

Modules, one file each:

- `Wrappers`, `Seqs`, `Text`, `Numbers` and `Json` are the library layer.
- `DisplayConfig` holds `Config` and the xrandr scan.
- `WindowManager` holds what the backends share.
- `KWin`, `Sway` and `Hyprland` are the three backends.

The loops that build a `Vec` are methods proved against a function of their
input:

- `get_all_windows` and every `get_eve_windows`;
- Sway's recursive `extract_windows`, which pushes into the caller's vector;
- every `stack_windows`.

What the source promises is then proved about those functions.

Hyprland addresses wider than 32 bits decode to id 0
(src/wayland_backends.rs:386-390, `Hyprland.WideAddressDecodesToZero`). On a
64-bit system that is the usual case. Activation and stacking then name every
such window as `address:0x0` (src/wayland_backends.rs:404-411 and 432-451).

Sway's walk collects a node with an `app_id` member only when that member is
not null; `window_properties` is looked at only when there is no `app_id` at
all (src/wayland_backends.rs:203-211, `Sway.NullAppIdNeverListed`). Sway's IPC
reports XWayland windows with `"app_id": null`, so a client running through
XWayland is never listed by the Sway backend.

## Model

| member | source | states |
|---|---|---|
| DisplayConfig.EveX | src/config.rs:109-111 | the left edge centres the window, rounding down: 2x + eve_width <= display_width < 2x + eve_width + 2; it fits in an i32; the caller must not pass a window wider than the display (u32 subtraction) |
| DisplayConfig.EveY | src/config.rs:113-115 | the top edge is always 0 |
| DisplayConfig.EveHeightAdjusted | src/config.rs:117-119 | the height above the panel never exceeds the display height; the panel must not be taller than the display |
| DisplayConfig.DetectDisplaySize | src/config.rs:32-48 | the result is the size from the first qualifying line, and every earlier line was skipped; if no line qualifies, the result is 1920x1080 |
| DisplayConfig.LineResolution | src/config.rs:33-40 | a line yields a size iff it contains `*` and `x`, has a first whitespace-separated field, that field has an `x`, and both halves parse as decimal u32; the size is those two values |
| DisplayConfig.ModeLineResolution | src/config.rs:32-40 | an xrandr mode line, indented by any whitespace, holding "WxH", then whitespace, then a rate column with `*`, yields exactly (W, H); `split_whitespace` skips the indent |
| DisplayConfig.ModeField | src/config.rs:35-37 | "WxH" is a single whitespace-free field that `split_once('x')` cuts into the two decimal numbers |
| WindowManager.StackRectMatchesConfig | src/wayland_backends.rs:277-281 | the stacking rectangle is (eve_x, eve_y, eve_width, eve_height_adjusted); Sway and Hyprland print width and height through `as i32`, which agrees when both fit and is negative for a width above i32::MAX |
| WindowManager.StoredTitleOfEveTitle | src/wayland_backends.rs:59-70 | a title passing the filter loses at least one prefix; what is stored is a suffix of the title, does not start with "EVE - " and does not contain "Launcher" |
| WindowManager.Attempt | src/wayland_backends.rs:106-118 | a loop of `output()?` completes iff every command can be started; otherwise it has issued exactly the prefix up to and including the first command that cannot |
| WindowManager.AttemptThree | src/wayland_backends.rs:283-299 | of three commands issued behind `?`, the run stops right after the first one that cannot be started |
| WindowManager.ActivationResult | src/wayland_backends.rs:83-97 | activation succeeds iff the command started and exited with status zero; a non-zero exit reports the command's error output |
| Text.TrimStartMatches | src/wayland_backends.rs:70 | the result does not start with the pattern |
| Text.TrimStartMatchesRepeats | src/wayland_backends.rs:70 | the input is some number of whole copies of the pattern followed by the result |
| Text.Trim | src/wayland_backends.rs:131 | the result has no whitespace at either end, and it is the slice of the input between a run of leading whitespace and a run of trailing whitespace |
| Text.SplitOnce | src/config.rs:36 | `None` iff the character is absent; otherwise the input is before, the character, after, with no copy of the character in before |
| Text.SplitWhitespaceWords | src/wayland_backends.rs:40 | every field `split_whitespace` yields is non-empty and contains no whitespace |
| Text.SplitJoin | src/wayland_backends.rs:40-43 | splitting words joined by single spaces gives the words back |
| Numbers.AsI32 | src/wayland_backends.rs:280-281 | `as i32` is in i32 range, congruent to its input mod 2^32, and the identity exactly on values up to i32::MAX |
| Numbers.Low32 | src/wayland_backends.rs:236 | `as u32` keeps the value mod 2^32, and is the identity on values that fit |
| Numbers.ParseDigitsRoundTrip | src/wayland_backends.rs:404-406 | `from_str_radix`/`parse` read back what `{}` and `{:x}` write, for every u32 |
| Numbers.ParseHex8RoundTrip | src/wayland_backends.rs:81 | `from_str_radix(_, 16)` reads back what `{:08x}` writes, for every u32 |
| Numbers.DigitsValueOfDigits | src/wayland_backends.rs:406 | `{}` and `{:x}` write digits whose value is the number |
| Numbers.DigitsNoLeadingZero | src/wayland_backends.rs:406 | `{}` and `{:x}` write no leading zero for a positive number |
| Numbers.FixedHexOfValue | src/wayland_backends.rs:81 | eight lower-case hex digits are exactly the `{:08x}` rendering of the value they denote |
| KWin.ParseLine | src/wayland_backends.rs:40-44 | a line gives a row iff it has at least four fields; the row's id is a non-empty word |
| KWin.GetAllWindows | src/wayland_backends.rs:24-50 | the rows are the parse of every line that yields one, in line order |
| KWin.EntriesSelected | src/wayland_backends.rs:38-47 | the rows are exactly the lines with at least four fields, in their order; each row has field 0 as id and fields 3.. joined by single spaces as title |
| KWin.ParseLineOfRow | src/wayland_backends.rs:38-44 | a `wmctrl -l` row whose title is single-spaced words is read back as (id, title) |
| KWin.ParseLineCollapsesSpaces | src/wayland_backends.rs:40-43 | a run of whitespace inside a title comes back as a single space |
| KWin.DecodeWindowId | src/wayland_backends.rs:61-65 | an id text is read as hex after `0x` and as decimal otherwise; a text that does not parse gives 0, so a non-zero result always comes from a successful parse; `KWin.HexIdRoundTrip` and `KWin.DecodeThenHexId` relate it to the `0x{:08x}` encoding |
| KWin.HexIdRoundTrip | src/wayland_backends.rs:61-65 | decoding `0x{:08x}` of any u32 gives that u32 back |
| KWin.DecodeThenHexId | src/wayland_backends.rs:81 | an id text of the form wmctrl prints (`0x` and eight lower-case hex digits) is reproduced by decoding and re-encoding it |
| KWin.GetEveWindows | src/wayland_backends.rs:54-77 | the windows are the rows filtered and decoded in order, as `ToEveWindow` states per row |
| KWin.EveWindowsSelected | src/wayland_backends.rs:58-74 | a row is kept iff its title passes the filter and its id decodes to non-zero; the kept rows keep their order, and each keeps its decoded id and its stripped title |
| KWin.EveWindowsWellFormed | src/wayland_backends.rs:67-71 | no KWin window has id 0, and no stored title starts with the prefix or contains "Launcher" |
| KWin.FindWindowByTitle | src/wayland_backends.rs:138-157 | the result is the decoded id of the first row titled exactly `title` whose id is non-zero; rows whose id decodes to 0 are passed over; `None` iff there is no such row |
| KWin.ActiveWindow | src/wayland_backends.rs:123-136 | Ok iff xdotool could be started and its trimmed output parses as a decimal u32, with that value; otherwise "Failed to get active window" when it could not be started, and "Failed to parse active window ID" when the output does not parse |
| KWin.ActiveWindowOfXdotool | src/wayland_backends.rs:123-136 | xdotool's decimal id with its trailing newline is trimmed and parsed back to that id |
| KWin.ActivateCommand | src/wayland_backends.rs:79-88 | the command is `wmctrl -i -a <id>`: `-i` makes wmctrl read the last argument as a window id, `-a` activates that window, and the id text decodes back to the id |
| KWin.StackCommand | src/wayland_backends.rs:108-117 | `wmctrl -i -r <id> -e 0,x,y,w,h`, naming the window by an id text that decodes back to it |
| KWin.StackWindows | src/wayland_backends.rs:100-121 | the commands issued and the outcome are exactly `Attempt` of one command per window, all with the same unsigned rectangle |
| KWin.StackPlanShape | src/wayland_backends.rs:106-118 | the plan has one command per window, in window order |
| Sway.Walk | src/wayland_backends.rs:200-226 | the pre-order walk: the node itself, then the trees under `nodes`, then those under `floating_nodes` |
| Sway.NullAppIdNeverListed | src/wayland_backends.rs:203-211 | a node whose `app_id` is present but null is never collected, whatever its `window_properties` |
| Sway.WalkFindsWindows | src/wayland_backends.rs:200-226 | a node is collected iff it is in the tree and is a window node: a "con"/"floating_con" with a non-null `app_id`, or with no `app_id` and a non-null `window_properties` |
| Sway.ExtractWindows | src/wayland_backends.rs:200-226 | pushing into the caller's vector appends exactly the walk of the node |
| Sway.ExtractChildren | src/wayland_backends.rs:215-224 | the loop over one child array appends the walks of the children in order |
| Sway.PushIfWindow | src/wayland_backends.rs:201-213 | the node is appended iff it is a window node |
| Sway.GetAllWindows | src/wayland_backends.rs:191-197 | the windows are the walk of the whole tree |
| Sway.WindowTitle | src/wayland_backends.rs:228-233 | the title is the node's "name" member when that member is a string, and absent otherwise |
| Sway.WindowId | src/wayland_backends.rs:235-237 | an id exists iff "id" is a u64; it is that value mod 2^32 |
| Sway.GetEveWindows | src/wayland_backends.rs:241-259 | the windows are the walked nodes filtered and converted in order, as `ToEveWindow` states per node |
| Sway.EveWindowsSelected | src/wayland_backends.rs:245-256 | a node is kept iff it has a string "name" passing the filter and a u64 "id"; the kept nodes keep their order, and each keeps the id's low 32 bits and the stripped title |
| Sway.EveWindowsFromTree | src/wayland_backends.rs:241-256 | every reported window comes from a window node of the tree whose title passes the filter; its stored title is clean |
| Sway.ActiveWindow | src/wayland_backends.rs:304-318 | the result is the id of the first walked node that is focused and has an id; otherwise "No active window found", and no node qualified |
| Sway.FindWindowByTitle | src/wayland_backends.rs:320-334 | the result is the id of the first node titled exactly `title` that has an id; `None` iff no such node |
| Sway.CriteriaSelects | src/wayland_backends.rs:263 | a command starting with `[con_id=N]` selects container N |
| Sway.SwayCommand | src/wayland_backends.rs:285-298 | every swaymsg command for a window starts with that window's criteria |
| Sway.ActivateCommand | src/wayland_backends.rs:261-265 | the command is `swaymsg` with the window's criteria followed by exactly ` focus` |
| Sway.StackWindows | src/wayland_backends.rs:277-302 | the commands issued and the outcome are exactly `Attempt` of floating enable, move position and resize set per window, with the signed rectangle |
| Sway.StackPlanShape | src/wayland_backends.rs:283-299 | the plan has three commands per window, in window order, each selecting that window's container |
| Hyprland.DecodeAddress | src/wayland_backends.rs:386-390 | an address is read as hex after `0x`; a missing prefix or a failed parse gives 0, so a non-zero result always comes from a successful parse; `Hyprland.AddressRoundTrip` and `Hyprland.WideAddressDecodesToZero` relate it to the `0x{:x}` encoding |
| Hyprland.AddressRoundTrip | src/wayland_backends.rs:404-406 | decoding `0x{:x}` of any u32 gives that u32 back |
| Hyprland.WideAddressDecodesToZero | src/wayland_backends.rs:386-390 | an address whose value does not fit in 32 bits decodes to 0 |
| Hyprland.UndecodableAddressKept | src/wayland_backends.rs:384-396 | a client passing the filter whose address lacks `0x` is still reported, with id 0 |
| Hyprland.GetEveWindows | src/wayland_backends.rs:376-402 | the windows are the clients filtered and decoded in order, as `ToEveWindow` states per client |
| Hyprland.EveWindowsSelected | src/wayland_backends.rs:380-399 | a client is kept iff it has a string "title" passing the filter and a string "address", whatever the address decodes to; the kept clients keep their order |
| Hyprland.EveWindowsWellFormed | src/wayland_backends.rs:392-395 | no stored title starts with the prefix or contains "Launcher" |
| Hyprland.ActiveWindow | src/wayland_backends.rs:459-479 | Ok iff the object has a string "address", with its decoded value (possibly 0); otherwise "Failed to get active window ID" |
| Hyprland.FindWindowByTitle | src/wayland_backends.rs:481-500 | the result is the decoded address of the first client titled exactly `title` that has an address; a match without an address does not stop the search |
| Hyprland.Target | src/wayland_backends.rs:406-411 | the window argument `address:0x..` starts with `address:` and what follows decodes back to the id |
| Hyprland.ActivateCommand | src/wayland_backends.rs:404-415 | the command is `hyprctl dispatch focuswindow address:<a>`, where `a` decodes back to the id |
| Hyprland.StackWindows | src/wayland_backends.rs:425-457 | the commands issued and the outcome are exactly `Attempt` of togglefloating, movewindowpixel and resizewindowpixel per window, with the signed rectangle |
| Hyprland.StackPlanShape | src/wayland_backends.rs:430-454 | the plan has three dispatches per window, in window order: togglefloating, movewindowpixel, resizewindowpixel |
| Hyprland.StackCommandsNameWindow | src/wayland_backends.rs:430-454 | every dispatch for a window ends in `address:` and that window's address |

## Left out

- The constructors `KWinManager::new`, `SwayManager::new` and `HyprlandManager::new` are left out. They only probe that a tool exists.
- Process spawning and output capture become parameters, because they are I/O:
  - `launches` says whether a command can be started;
  - tool output is an input value.
- Exit-status checks of the list commands are left out, because they happen before any data is read: `wmctrl failed`, `swaymsg failed`, `hyprctl failed`. Each stays an error outcome of the I/O.
- stderr text, and the context messages on a spawn failure of a query, are left out for the same reason. Only the activation result keeps the stderr text.
- `String::from_utf8_lossy`, `String::from_utf8` and `lines()` are left out. They are byte decoding and line splitting done before the model's inputs.
- serde_json parsing is left out; the `Json` datatype is taken as given. Two consequences:
  - An object's members are a list that `serde_json` would have made key-distinct. Lookup of a duplicated key returns the first member, where serde_json keeps the last.
  - A number counts as a u64 only when it is written without fraction or exponent and is in range. `-0` is the exception: serde_json reads it as a float, so it is a `Float` here and is not a u64.
- The xrandr invocation itself (src/config.rs:27-30) is left out. `DisplayConfig.DetectDisplaySize` takes the output lines; when xrandr cannot run or prints invalid UTF-8, the lines are empty.
- `Config::load`, `save_default` and `config_path` are left out, because they are filesystem, TOML and platform-directory code.
- The f32 fields `overlay_x` and `overlay_y`, and the f32 default of `eve_width`, are left out; the model has no floating point.
- src/main.rs is not part of this model. That covers command dispatch, usage text, the daemon client and the `flock` lock file.
- The cycle state machine, the daemon, the X11 backend and the overlay are not part of this model; their source files are not available.
- DisplayConfig.EveX: the u32 subtraction is taken in its non-wrapping case only, as a precondition (`eve_width <= display_width`). With overflow checks, as in a debug build, the source panics there. A release build wraps instead: eve_width 2000 on a 1920-wide display gives eve_x 2147483608. The model has neither outcome. The same holds for DisplayConfig.EveHeightAdjusted and every StackWindows.
- Sway.GetEveWindows, Sway.ActiveWindow and Sway.FindWindowByTitle take the window list `get_all_windows` returns. `Sway.GetAllWindows` and `Sway.WalkFindsWindows` tie that list to the tree.
- Hyprland.GetEveWindows and Hyprland.FindWindowByTitle take the parsed clients list in the same way.
- KWin.ActiveWindow takes xdotool's output, or `None` when xdotool cannot be started. A non-zero exit is not checked by the source either, so the output is parsed regardless.
- Concurrency between the program and the window manager, such as windows appearing between a query and a command, is outside the model.
