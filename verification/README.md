# Most recent tab: a Dafny model

The extension remembers, for every browser window, the tab that is active now
(`current`) and the tab that was active before it (`last`). The "go to last tab"
keyboard command or toolbar button then asks the browser to activate `last`.
The options page lets the user pick that command's shortcut, and it accepts a
candidate only if one of three regular expressions matches it.

The model has three files:

- `wrappers.dfy`: the `Option` type.
- `recents.dfy`: module `Recents`, the background script's tracker.
  - The global `recents` map is an immutable `map<WindowId, Record>`.
  - Each listener is a pure function from the old map to the new one:
    - `tabActivated` is `TabActivated`;
    - `windowRemoved` is `WindowRemoved`;
    - the startup scan `initAWindow` is `InitAWindow`.
  - `ShortcutHit` is the decision the shortcut callback makes: the tab to
    activate, or none.
  - A sequence of host notifications is an `Event` list, replayed by `Replay`.
    Lemmas relate the tracker's contents to the events that built it.
- `shortcut.dfy`: module `Shortcut`, the options page's `validate` and its
  `DEFAULT`.
  - No token of the first two patterns contains `+` or whitespace. So every `+`
    of a matching string is a separator, and every `\s*` run is the whitespace
    around one separated piece.
  - Matching those two patterns is therefore the same as three steps: split the
    candidate on `+`, trim the `\s` characters from each piece, and check the
    resulting token list. The model is written that way.
  - `\s` is the ECMAScript WhiteSpace and LineTerminator set, listed in
    `IsSpace`.
  - The independent description is the `Shortcut` datatype, which covers every
    combination the patterns name. `Render` writes a shortcut with `+` and any
    whitespace around each token. `Permitted` says which written shortcuts the
    page should take.
  - `RenderAccepted` proves that `validate` takes a written shortcut exactly
    when it is permitted. `AcceptedIsRendered` proves the converse: every
    accepted string is such a rendering of a permitted shortcut.

A record has no absent slot. `tabActivated` (index.js:82-87) and `initAWindow`
(index.js:146-149) put the same tab in both slots, and no handler removes tabs.
So looking up a window after one observed activation gives back that same tab;
the lookup never reports "no recent tab".

## Model

| member | source | states |
|---|---|---|
| Recents.TabActivated | index.js:79-98 | A first activation records the tab in both slots. A later one moves the old `current` into `last` and records the new tab as `current`. The window set gains exactly this window, and every other window keeps its record. |
| Recents.WindowRemoved | index.js:101-105 | The window is gone afterwards. Every other window keeps its record. Removing an unknown window changes nothing. |
| Recents.ShortcutHit | index.js:55-71 | A tab is requested if and only if the current window is of type "normal" and has a record. The requested tab is that record's `last`. |
| Recents.ActiveTabs | index.js:137 | The filter keeps only active tabs and is empty exactly when no tab is active. |
| Recents.ActiveTabsComplete | index.js:137 | The filter drops no active tab: an id is kept exactly when some active tab has it. |
| Recents.ExactlyOneActive | index.js:137-138 | The filter has length one exactly when a single tab is active. |
| Recents.ActiveTab | index.js:136-142 | The scan finds a tab exactly when the window has a single active tab, and then it finds that tab. |
| Recents.InitAWindowKeys | index.js:134-151 | After the scan, the tracked windows are those tracked before plus those with exactly one active tab. Windows with none or several are skipped. |
| Recents.InitAWindowKeeps | index.js:138-141 | A window the scan skips keeps the record it had. |
| Recents.InitAWindowSeeds | index.js:142-149 | A scanned window holds its active tab in both slots. If a window id is reported several times, the last report that finds a single active tab wins. |
| Recents.TrackedWindows | index.js:79-151 | After any sequence of events, a window has a record if and only if an activation or a scan introduced it and no later removal dropped it, or it was tracked at the start and never removed. |
| Recents.ReplayUntouched | index.js:79-105 | Events about other windows leave a window's record, or its absence, unchanged. |
| Recents.FirstActivationGoesBackToItself | index.js:82-87 | Right after a window's first activation, "go to last tab" asks for that same tab. |
| Recents.DuplicateActivation | index.js:90-96 | Activating the current tab again is not special-cased: both slots then hold it. |
| Recents.LookupIsPreviousActivation | index.js:90-96 | The lookup gives the activation before the window's latest one, whatever events for other windows come in between or after. |
| Recents.OnlyTwoRemembered | index.js:90-96 | After activations t1, t2, t3 in one window, the lookup gives t2. |
| Recents.GoBackTwiceRestores | index.js:66-71 | Once the requested tab's activation arrives, the two slots are swapped. Going back again restores the tracker exactly. |
| Recents.RemovedWindowIsIgnored | index.js:61-64 | After a window is removed, the lookup requests nothing for it, whatever other events follow, until an activation or a scan introduces it again. |
| Recents.StartupScenario | index.js:134-151 | A window seeded with T1, then T2 and T3 activated: the first lookup (after T2) gives T1, the second (after T3) gives T2. |
| Shortcut.TrimStartSplits | options.js:5 | Trimming the start removes exactly the leading run of `\s` characters. |
| Shortcut.TrimEndSplits | options.js:5 | Trimming the end removes exactly the trailing run of `\s` characters. |
| Shortcut.TrimPadded | options.js:5 | Trimming recovers a token from any `\s*` padding around it. |
| Shortcut.Pieces | options.js:5 | Splitting on `+` gives at least one piece, and no piece contains `+`. |
| Shortcut.JoinPieces | options.js:5-6 | Joining the pieces of a string with `+` gives the string back. |
| Shortcut.PiecesJoin | options.js:5-6 | Splitting a `+`-join of `+`-free pieces gives the pieces back. |
| Shortcut.TokensOfJoin | options.js:5-6 | Tokens joined with `\s*\+\s*` separators, with any whitespace around each, split and trim back to the same tokens. |
| Shortcut.Validate | options.js:3-15 | Trying the patterns in order and returning on the first match gives true exactly for accepted candidates. |
| Shortcut.KeyNameClass | options.js:5-6 | A key name is never a modifier, `Shift` or a media key. It is a function-key name exactly for F1-F12. It is a key of the first pattern exactly for upper-case letters, digits and named keys. |
| Shortcut.PartsMatch | options.js:5-6 | A shortcut's token list matches the first or second pattern exactly when it is a permitted combination. |
| Shortcut.RenderAccepted | options.js:4-8 | Any shortcut, written with any whitespace around its tokens, is accepted exactly when permitted: a modifier, optional `Shift` and an upper-case letter, digit or named key; or an optional modifier, optional `Shift` and F1-F12; or a bare media key. |
| Shortcut.PieceAround | options.js:5 | Every piece is its trimmed token with only whitespace before and after it. |
| Shortcut.ShortcutOf | options.js:5-6 | Every token list the first or second pattern takes is the parts of a permitted combination. |
| Shortcut.CombinationIsRendered | options.js:5-6 | A string whose tokens the first or second pattern takes is that combination written with whitespace around its tokens. |
| Shortcut.AcceptedIsRendered | options.js:4-8 | Every accepted string is a permitted shortcut written with whitespace around its tokens, so with RenderAccepted the accepted strings are exactly the renderings of permitted shortcuts. |
| Shortcut.RenderMediaExact | options.js:7 | A media key is accepted only without surrounding whitespace. |
| Shortcut.RenderComboNotMedia | options.js:7 | No written combination is a media string. |
| Shortcut.DefaultAccepted | options.js:1 | The default shortcut `Ctrl+Shift+1` is accepted. |
| Shortcut.SingleTokenAccepted | options.js:5-7 | A lone token is accepted exactly when it is a function key or a media key, so a bare letter, digit or named key is rejected. |
| Shortcut.FunctionKeyBounds | options.js:6 | `F0` and `F13` are rejected. |
| Shortcut.NoModifierRejected | options.js:5-6 | Without a modifier, a letter, digit or named key is rejected, with or without `Shift+` and with any whitespace. |
| Shortcut.LowercaseKeyRejected | options.js:5 | A modifier followed by a lower-case letter is rejected, because matching is case-sensitive. |
| Shortcut.LowercaseModifierRejected | options.js:5 | `ctrl+A` is rejected, because modifier names are case-sensitive. |
| Shortcut.MediaWithModifierRejected | options.js:7 | A media key after a modifier is rejected. |

## Left out

- Browser calls are not modelled. This covers `browser.windows.getCurrent`, `browser.windows.getAll`, `browser.tabs.update`, the promises and `onError`. `ShortcutHit` returns the tab it would ask the browser to activate, and the caller supplies the window that `getCurrent` reports.
- The listener registrations and the `onCommand` dispatch on the command name are not modelled. Each notification is an `Event` passed to `Replay`.
- `debug_log` and the `debugging` flag only write diagnostics.
- `initWindows` asks the host for normal windows only. `InitAWindow` takes whatever list the host reports.
- The options page's DOM functions (`checkValidity`, `saveOptions` and the rest of `options.js`) read and write page elements and storage. Only `validate` and `DEFAULT` are modelled.
- General regular-expression matching is not modelled. Only these three patterns are, through the split-and-trim equivalence described above.
- JavaScript strings are UTF-16. Here a character is a Unicode scalar value. No pattern token and no `\s` character lies outside the Basic Multilingual Plane, so the difference does not change which strings are accepted.
- There is no tab-removal handler and no "previous absent" state, because the code has neither.
