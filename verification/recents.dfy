/**
  The per-window recency tracker of the extension's background script.

  The script keeps one global map from window id to a record `{current, last}`:
  `current` is the tab most recently seen active in that window and `last` is the
  tab that was `current` before it. Host notifications (tab activated, window
  removed, the startup scan) update the map; the "go to last tab" action reads it.
  Here the map is an immutable value and each handler is a pure function from the
  old map to the new one.
*/
module Recents {
  import opened Wrappers

  /** Opaque identifiers handed out by the browser. */
  type WindowId = int
  type TabId = int

  /** The two remembered tabs of one window. There is no "absent" slot:
      the first observation of a window fills both slots with the same tab. */
  datatype Record = Record(current: TabId, last: TabId)

  /** The global `recents` map. */
  type Tracker = map<WindowId, Record>

  /** `a` and `b` agree on every window other than `w`: same keys, same records. */
  ghost predicate SameExcept(a: Tracker, b: Tracker, w: WindowId)
  {
    forall v :: v != w ==> (v in a <==> v in b) && (v in a ==> a[v] == b[v])
  }

  /** `tabActivated`: the first activation seen in a window records the tab in
      both slots; later ones shift `current` into `last`. Duplicate activations
      are not special-cased. */
  function TabActivated(recents: Tracker, windowId: WindowId, tabId: TabId): (r: Tracker)
    ensures r.Keys == recents.Keys + {windowId}
    ensures r[windowId].current == tabId
    ensures windowId !in recents ==> r[windowId].last == tabId
    ensures windowId in recents ==> r[windowId].last == recents[windowId].current
    ensures SameExcept(recents, r, windowId)
  {
    if windowId !in recents then
      recents[windowId := Record(tabId, tabId)]
    else
      var oldState := recents[windowId];
      recents[windowId := Record(tabId, oldState.current)]
  }

  /** `windowRemoved`: forget everything about a destroyed window. */
  function WindowRemoved(recents: Tracker, windowId: WindowId): (r: Tracker)
    ensures windowId !in r
    ensures r.Keys == recents.Keys - {windowId}
    ensures SameExcept(recents, r, windowId)
    ensures windowId !in recents ==> r == recents
  {
    recents - {windowId}
  }

  /** What `shortcutHit` learns from `windows.getCurrent`: the window's id and its
      type string ("normal", "popup", "panel", "devtools", ...). */
  datatype CurrentWindow = CurrentWindow(id: WindowId, kind: string)

  /** The decision part of `shortcutHit`: which tab, if any, it asks the browser to
      activate. Non-normal windows and windows without a record are ignored. */
  function ShortcutHit(recents: Tracker, window: CurrentWindow): (target: Option<TabId>)
    ensures target.Some? <==> window.kind == "normal" && window.id in recents
    ensures target.Some? ==> target.value == recents[window.id].last
  {
    if window.kind != "normal" then None
    else if window.id !in recents then None
    else Some(recents[window.id].last)
  }

  /** A tab as reported by `windows.getAll({populate: true})`. */
  datatype Tab = Tab(id: TabId, active: bool)

  /** A window as reported by `windows.getAll({populate: true})`. */
  datatype PopulatedWindow = PopulatedWindow(id: WindowId, tabs: seq<Tab>)

  /** Tab `i` is active and no other tab of `tabs` is. */
  ghost predicate OnlyActive(tabs: seq<Tab>, i: int)
  {
    0 <= i < |tabs| && tabs[i].active && forall j :: 0 <= j < |tabs| && j != i ==> !tabs[j].active
  }

  /** `tabs.filter((e) => e.active == true)`, keeping only the ids. */
  function ActiveTabs(tabs: seq<Tab>): (ids: seq<TabId>)
    ensures |ids| <= |tabs|
    ensures |ids| == 0 <==> forall i :: 0 <= i < |tabs| ==> !tabs[i].active
    ensures forall k :: 0 <= k < |ids| ==> exists i :: 0 <= i < |tabs| && tabs[i].active && tabs[i].id == ids[k]
  {
    if |tabs| == 0 then []
    else
      var rest := ActiveTabs(tabs[1..]);
      assert forall i :: 1 <= i < |tabs| ==> tabs[i] == tabs[1..][i - 1];
      if tabs[0].active then [tabs[0].id] + rest else rest
  }

  /** The filter drops no active tab: the ids it keeps are exactly the ids of the
      active tabs. */
  lemma {:induction false} ActiveTabsComplete(tabs: seq<Tab>)
    ensures forall id :: id in ActiveTabs(tabs) <==> exists i :: 0 <= i < |tabs| && tabs[i].active && tabs[i].id == id
  {
    if |tabs| > 0 {
      var rest := tabs[1..];
      ActiveTabsComplete(rest);
      assert forall i :: 1 <= i < |tabs| ==> tabs[i] == rest[i - 1];
      forall id | (exists i :: 0 <= i < |tabs| && tabs[i].active && tabs[i].id == id)
        ensures id in ActiveTabs(tabs)
      {
        var i :| 0 <= i < |tabs| && tabs[i].active && tabs[i].id == id;
        if i > 0 {
          assert rest[i - 1].active && rest[i - 1].id == id;
        }
      }
    }
  }

  /** The filter keeps exactly one tab iff exactly one tab is active. */
  lemma {:induction false} ExactlyOneActive(tabs: seq<Tab>)
    ensures |ActiveTabs(tabs)| == 1 <==> exists i :: OnlyActive(tabs, i)
  {
    if |tabs| > 0 {
      var rest := tabs[1..];
      ExactlyOneActive(rest);
      assert forall i :: 1 <= i < |tabs| ==> tabs[i] == rest[i - 1];
      if exists i :: OnlyActive(tabs, i) {
        var i :| OnlyActive(tabs, i);
        if i == 0 {
          assert forall j :: 0 <= j < |rest| ==> !rest[j].active;
        } else {
          assert OnlyActive(rest, i - 1);
        }
      }
      if |ActiveTabs(tabs)| == 1 {
        if tabs[0].active {
          assert OnlyActive(tabs, 0);
        } else {
          var k :| OnlyActive(rest, k);
          assert OnlyActive(tabs, k + 1);
        }
      }
    }
  }

  /** The active tab `initAWindow` records for a window: present only when the
      window reports exactly one active tab, and then it is that tab. */
  function ActiveTab(win: PopulatedWindow): (t: Option<TabId>)
    ensures t.Some? <==> exists i :: OnlyActive(win.tabs, i)
    ensures t.Some? ==> exists i :: OnlyActive(win.tabs, i) && win.tabs[i].id == t.value
  {
    var active := ActiveTabs(win.tabs);
    ExactlyOneActive(win.tabs);
    if |active| != 1 then None else Some(active[0])
  }

  /** Window `win` is `w` and the startup scan finds its active tab. */
  ghost predicate Seeds(win: PopulatedWindow, w: WindowId)
  {
    win.id == w && ActiveTab(win).Some?
  }

  /** No later window of `windows` than the `i`-th seeds the same id. */
  ghost predicate LastSeed(windows: seq<PopulatedWindow>, i: int)
    requires 0 <= i < |windows|
  {
    forall j :: i < j < |windows| ==> !Seeds(windows[j], windows[i].id)
  }

  /** `initAWindow`: for each window in order, record its single active tab in both
      slots; windows with zero or several active tabs are skipped. A later entry
      for the same window overwrites an earlier one, as `recents.set` does. */
  function InitAWindow(recents: Tracker, windows: seq<PopulatedWindow>): Tracker
    decreases |windows|
  {
    if |windows| == 0 then recents
    else Seed(InitAWindow(recents, windows[..|windows| - 1]), windows[|windows| - 1])
  }

  /** One step of the startup scan: a window with exactly one active tab gets
      that tab in both slots; any other window is skipped. */
  function Seed(recents: Tracker, win: PopulatedWindow): Tracker
  {
    match ActiveTab(win)
    case None => recents
    case Some(t) => recents[win.id := Record(t, t)]
  }

  /** The startup scan tracks exactly the windows tracked before plus those it
      seeds. */
  lemma {:induction false} InitAWindowKeys(recents: Tracker, windows: seq<PopulatedWindow>, w: WindowId)
    ensures w in InitAWindow(recents, windows) <==>
      w in recents || exists i :: 0 <= i < |windows| && Seeds(windows[i], w)
    decreases |windows|
  {
    if |windows| > 0 {
      var n := |windows| - 1;
      var earlier := windows[..n];
      assert forall i :: 0 <= i < n ==> earlier[i] == windows[i];
      InitAWindowKeys(recents, earlier, w);
    }
  }

  /** A window the startup scan does not seed keeps the record it had. */
  lemma {:induction false} InitAWindowKeeps(recents: Tracker, windows: seq<PopulatedWindow>, w: WindowId)
    requires w in recents
    requires forall i :: 0 <= i < |windows| ==> !Seeds(windows[i], w)
    ensures w in InitAWindow(recents, windows) && InitAWindow(recents, windows)[w] == recents[w]
    decreases |windows|
  {
    if |windows| > 0 {
      var n := |windows| - 1;
      var earlier := windows[..n];
      assert forall i :: 0 <= i < n ==> earlier[i] == windows[i];
      InitAWindowKeeps(recents, earlier, w);
      assert !Seeds(windows[n], w);
    }
  }

  /** A window the startup scan seeds holds its active tab in both slots; when the
      same window is reported several times, the last report that finds a single
      active tab wins. */
  lemma {:induction false} InitAWindowSeeds(recents: Tracker, windows: seq<PopulatedWindow>, i: int)
    requires 0 <= i < |windows| && ActiveTab(windows[i]).Some? && LastSeed(windows, i)
    ensures var t := ActiveTab(windows[i]).value;
      windows[i].id in InitAWindow(recents, windows) && InitAWindow(recents, windows)[windows[i].id] == Record(t, t)
    decreases |windows|
  {
    var n := |windows| - 1;
    var earlier := windows[..n];
    var r0 := InitAWindow(recents, earlier);
    var win := windows[n];
    assert InitAWindow(recents, windows) == Seed(r0, win);
    if i < n {
      assert earlier[i] == windows[i];
      assert LastSeed(earlier, i) by {
        forall j | i < j < n ensures !Seeds(earlier[j], earlier[i].id) {
          assert earlier[j] == windows[j];
        }
      }
      InitAWindowSeeds(recents, earlier, i);
      assert !Seeds(win, windows[i].id);
    }
  }

  /** A host notification that changes the tracker, in the order delivered. */
  datatype Event =
    | Activated(windowId: WindowId, tabId: TabId)
    | Removed(windowId: WindowId)
    | Initialized(windows: seq<PopulatedWindow>)

  /** The listener that handles `e`. */
  function Apply(recents: Tracker, e: Event): Tracker
  {
    match e
    case Activated(w, t) => TabActivated(recents, w, t)
    case Removed(w) => WindowRemoved(recents, w)
    case Initialized(ws) => InitAWindow(recents, ws)
  }

  /** The tracker after handling `events` one at a time, starting from `recents`. */
  function Replay(recents: Tracker, events: seq<Event>): Tracker
    decreases |events|
  {
    if |events| == 0 then recents
    else Apply(Replay(recents, events[..|events| - 1]), events[|events| - 1])
  }

  /** `e` starts (or restarts) tracking window `w`. */
  ghost predicate Introduces(e: Event, w: WindowId)
  {
    match e
    case Activated(v, _) => v == w
    case Removed(_) => false
    case Initialized(ws) => exists i :: 0 <= i < |ws| && Seeds(ws[i], w)
  }

  /** `e` stops tracking window `w`. */
  ghost predicate Removes(e: Event, w: WindowId)
  {
    e.Removed? && e.windowId == w
  }

  /** `e` changes the record of window `w`, if it has one. */
  ghost predicate Touches(e: Event, w: WindowId)
  {
    Introduces(e, w) || Removes(e, w)
  }

  /** No event of `events` after index `i` removes `w`. */
  ghost predicate NotRemovedAfter(events: seq<Event>, i: int, w: WindowId)
  {
    forall j :: i < j < |events| && 0 <= j ==> !Removes(events[j], w)
  }

  /** Window `w` is tracked after `events`: it was tracked at the start or some
      event introduced it, and no later event removed it. */
  ghost predicate Tracked(recents: Tracker, events: seq<Event>, w: WindowId)
  {
    || (w in recents && NotRemovedAfter(events, -1, w))
    || exists i :: 0 <= i < |events| && Introduces(events[i], w) && NotRemovedAfter(events, i, w)
  }

  /** The tracker's windows are exactly those activated or seeded and not since
      removed. */
  lemma {:induction false} TrackedWindows(recents: Tracker, events: seq<Event>, w: WindowId)
    ensures w in Replay(recents, events) <==> Tracked(recents, events, w)
    decreases |events|
  {
    if |events| > 0 {
      var n := |events| - 1;
      var pre := events[..n];
      var e := events[n];
      TrackedWindows(recents, pre, w);
      assert forall j :: 0 <= j < n ==> pre[j] == events[j];
      if Removes(e, w) {
        assert w !in Replay(recents, events);
        assert !NotRemovedAfter(events, -1, w);
        forall i | 0 <= i < |events| ensures !NotRemovedAfter(events, i, w) || i == n {
        }
        assert !Introduces(e, w);
      } else if Introduces(e, w) {
        assert NotRemovedAfter(events, n, w);
        match e
        case Activated(_, _) =>
        case Initialized(ws) =>
          InitAWindowKeys(Replay(recents, pre), ws, w);
      } else {
        assert w in Replay(recents, events) <==> w in Replay(recents, pre) by {
          match e
          case Activated(_, _) =>
          case Removed(_) =>
          case Initialized(ws) => InitAWindowKeys(Replay(recents, pre), ws, w);
        }
        forall i | -1 <= i < n ensures NotRemovedAfter(events, i, w) <==> NotRemovedAfter(pre, i, w) {
        }
      }
    }
  }

  /** Handling `xs` and then `ys` is handling `xs + ys`. */
  lemma {:induction false} ReplayAppend(recents: Tracker, xs: seq<Event>, ys: seq<Event>)
    ensures Replay(recents, xs + ys) == Replay(Replay(recents, xs), ys)
    decreases |ys|
  {
    if |ys| > 0 {
      var n := |ys| - 1;
      assert (xs + ys)[..|xs + ys| - 1] == xs + ys[..n];
      assert (xs + ys)[|xs + ys| - 1] == ys[n];
      ReplayAppend(recents, xs, ys[..n]);
    } else {
      assert xs + ys == xs;
    }
  }

  /** Events that do not touch `w` leave its record (or its absence) alone. */
  lemma {:induction false} ReplayUntouched(recents: Tracker, events: seq<Event>, w: WindowId)
    requires forall j :: 0 <= j < |events| ==> !Touches(events[j], w)
    ensures w in Replay(recents, events) <==> w in recents
    ensures w in recents ==> Replay(recents, events)[w] == recents[w]
    decreases |events|
  {
    if |events| > 0 {
      var n := |events| - 1;
      var pre := events[..n];
      assert forall j :: 0 <= j < n ==> pre[j] == events[j];
      ReplayUntouched(recents, pre, w);
      var r0 := Replay(recents, pre);
      match events[n]
      case Activated(_, _) =>
      case Removed(_) =>
      case Initialized(ws) =>
        InitAWindowKeys(r0, ws, w);
        if w in r0 {
          InitAWindowKeeps(r0, ws, w);
        }
    }
  }

  /** After a window's first observed activation, "go to last tab" re-activates
      that same tab, because both slots hold it. */
  lemma FirstActivationGoesBackToItself(recents: Tracker, w: WindowId, t: TabId)
    requires w !in recents
    ensures ShortcutHit(TabActivated(recents, w, t), CurrentWindow(w, "normal")) == Some(t)
  {
  }

  /** Re-activating the current tab makes both slots equal. */
  lemma DuplicateActivation(recents: Tracker, w: WindowId)
    requires w in recents
    ensures var t := recents[w].current; TabActivated(recents, w, t)[w] == Record(t, t)
  {
  }

  /** The lookup answers the activation before the latest one in the window, however
      many events for other windows arrive in between or afterwards. */
  lemma {:induction false} LookupIsPreviousActivation(recents: Tracker, pre: seq<Event>, w: WindowId,
                                                      t1: TabId, mid: seq<Event>, t2: TabId, post: seq<Event>)
    requires forall j :: 0 <= j < |mid| ==> !Touches(mid[j], w)
    requires forall j :: 0 <= j < |post| ==> !Touches(post[j], w)
    ensures ShortcutHit(Replay(recents, pre + [Activated(w, t1)] + mid + [Activated(w, t2)] + post),
                        CurrentWindow(w, "normal")) == Some(t1)
  {
    var r1 := Replay(recents, pre + [Activated(w, t1)]);
    ReplayAppend(recents, pre, [Activated(w, t1)]);
    assert r1 == TabActivated(Replay(recents, pre), w, t1);
    ReplayAppend(recents, pre + [Activated(w, t1)], mid);
    ReplayUntouched(r1, mid, w);
    var r2 := Replay(r1, mid);
    ReplayAppend(recents, pre + [Activated(w, t1)] + mid, [Activated(w, t2)]);
    assert Replay(r2, [Activated(w, t2)]) == TabActivated(r2, w, t2);
    var r3 := TabActivated(r2, w, t2);
    ReplayAppend(recents, pre + [Activated(w, t1)] + mid + [Activated(w, t2)], post);
    ReplayUntouched(r3, post, w);
  }

  /** Only two slots are remembered: after activations t1, t2, t3 of one window the
      lookup answers t2, whatever happened before. */
  lemma OnlyTwoRemembered(recents: Tracker, w: WindowId, t1: TabId, t2: TabId, t3: TabId)
    ensures ShortcutHit(TabActivated(TabActivated(TabActivated(recents, w, t1), w, t2), w, t3),
                        CurrentWindow(w, "normal")) == Some(t2)
  {
  }

  /** "Go to last tab" toggles: once the requested activation arrives, the two slots
      are swapped, and going back again restores the tracker exactly. */
  lemma {:induction false} GoBackTwiceRestores(recents: Tracker, window: CurrentWindow)
    requires ShortcutHit(recents, window).Some?
    ensures var r1 := TabActivated(recents, window.id, ShortcutHit(recents, window).value);
      && r1[window.id] == Record(recents[window.id].last, recents[window.id].current)
      && ShortcutHit(r1, window) == Some(recents[window.id].current)
      && TabActivated(r1, window.id, ShortcutHit(r1, window).value) == recents
  {
    var w := window.id;
    var r1 := TabActivated(recents, w, recents[w].last);
    var r2 := TabActivated(r1, w, recents[w].current);
    assert r2.Keys == recents.Keys;
    assert forall v :: v in r2 ==> r2[v] == recents[v];
  }

  /** Once a window is removed, the lookup requests nothing for it until an
      activation or a scan introduces it again, whatever other events follow. */
  lemma {:induction false} RemovedWindowIsIgnored(recents: Tracker, w: WindowId, post: seq<Event>, kind: string)
    requires forall j :: 0 <= j < |post| ==> !Introduces(post[j], w)
    ensures ShortcutHit(Replay(recents, [Removed(w)] + post), CurrentWindow(w, kind)) == None
  {
    var events := [Removed(w)] + post;
    TrackedWindows(recents, events, w);
    assert Removes(events[0], w);
    assert forall j :: 1 <= j < |events| ==> events[j] == post[j - 1];
  }

  /** A startup scan, then activating T2, then T3: the first "go to last tab" asks
      for T1, the second for T2. */
  lemma {:induction false} StartupScenario(w: WindowId, t1: TabId, t2: TabId, t3: TabId)
    ensures var scan := Initialized([PopulatedWindow(w, [Tab(t1, true), Tab(t2, false), Tab(t3, false)])]);
      && ShortcutHit(Replay(map[], [scan, Activated(w, t2)]), CurrentWindow(w, "normal")) == Some(t1)
      && ShortcutHit(Replay(map[], [scan, Activated(w, t2), Activated(w, t3)]), CurrentWindow(w, "normal")) == Some(t2)
  {
    var win := PopulatedWindow(w, [Tab(t1, true), Tab(t2, false), Tab(t3, false)]);
    var scan := Initialized([win]);
    assert OnlyActive(win.tabs, 0);
    assert ActiveTab(win) == Some(t1);
    InitAWindowSeeds(map[], [win], 0);
    var r0 := Replay(map[], [scan]);
    assert r0 == InitAWindow(map[], [win]) by {
      assert [scan][..0] == [];
      assert Replay(map[], []) == map[];
      assert r0 == Apply(Replay(map[], [scan][..0]), scan);
    }
    assert r0[w] == Record(t1, t1);
    ReplayAppend(map[], [scan], [Activated(w, t2)]);
    assert Replay(r0, [Activated(w, t2)]) == TabActivated(r0, w, t2);
    var r1 := TabActivated(r0, w, t2);
    assert [scan] + [Activated(w, t2)] == [scan, Activated(w, t2)];
    ReplayAppend(map[], [scan, Activated(w, t2)], [Activated(w, t3)]);
    assert Replay(r1, [Activated(w, t3)]) == TabActivated(r1, w, t3);
    assert [scan, Activated(w, t2)] + [Activated(w, t3)] == [scan, Activated(w, t2), Activated(w, t3)];
  }
}
