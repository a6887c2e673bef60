/**
 * The shared TUI state of src/app.rs: tabs, focus regions, banners, cursors and
 * the per-tab data caches, with the `App` methods that update them in place.
 *
 * Every method is specified by a function on `State`, a value snapshot of all
 * of the object's fields; the properties of the TUI are lemmas about those
 * functions.
 */
module AppState {
  import opened Wrappers
  import opened Models

  newtype u16 = x: int | 0 <= x < 0x1_0000

  /** One HiveCore connection profile (`Profile`, src/config.rs). */
  datatype Profile = Profile(name: string, host: string, portInfer: u16, portManage: u16,
                             clientToken: string, adminToken: string)

  datatype Tab = Dashboard | Nodes | Queues | Keys | Console | Logs

  /** `Tab::all()`: the tabs in display order. */
  const AllTabs: seq<Tab> := [Dashboard, Nodes, Queues, Keys, Console, Logs]

  /** `Tab::all().iter().position(..)`: every tab occurs, so the search always succeeds. */
  function TabPosition(t: Tab): (r: nat)
    ensures r < |AllTabs|
  {
    match t
    case Dashboard => 0
    case Nodes => 1
    case Queues => 2
    case Keys => 3
    case Console => 4
    case Logs => 5
  }

  /** The position found is where the tab stands in display order. */
  lemma TabAtPosition(t: Tab)
    ensures AllTabs[TabPosition(t)] == t
  {
    match t
    case Dashboard =>
    case Nodes =>
    case Queues =>
    case Keys =>
    case Console =>
    case Logs =>
  }

  /** The tab `next_tab` switches to: one position on in display order, wrapping after the last. */
  function Next(t: Tab): (r: Tab)
    ensures TabPosition(r) == (TabPosition(t) + 1) % 6
  {
    var k := (TabPosition(t) + 1) % |AllTabs|;
    PositionOfIndex(k);
    AllTabs[k]
  }

  /** The tab `prev_tab` switches to: one position back in display order, wrapping before the first. */
  function Prev(t: Tab): (r: Tab)
    ensures TabPosition(r) == (TabPosition(t) + 6 - 1) % 6
  {
    var k := (TabPosition(t) + |AllTabs| - 1) % |AllTabs|;
    PositionOfIndex(k);
    AllTabs[k]
  }

  /** `next_tab` applied `n` times. */
  function NextN(t: Tab, n: nat): Tab
    decreases n
  {
    if n == 0 then t else NextN(Next(t), n - 1)
  }

  /** `next_tab` steps forward through `Tab::all()` and wraps from Logs to Dashboard. */
  lemma NextFollowsOrder()
    ensures forall i :: 0 <= i < |AllTabs| - 1 ==> Next(AllTabs[i]) == AllTabs[i + 1]
    ensures Next(Logs) == Dashboard
  {
    forall i | 0 <= i < |AllTabs| - 1
      ensures Next(AllTabs[i]) == AllTabs[i + 1]
    {
      PositionOfIndex(i);
    }
  }

  /** `prev_tab` undoes `next_tab` and the other way round. */
  lemma PrevNextInverse(t: Tab)
    ensures Prev(Next(t)) == t
    ensures Next(Prev(t)) == t
  {
    ModSixBack(TabPosition(t));
    PositionOfIndex(TabPosition(t));
    TabAtPosition(Prev(Next(t)));
    TabAtPosition(Next(Prev(t)));
    TabAtPosition(t);
  }

  /** After `n` calls of `next_tab` the position has advanced by `n`, modulo the number of tabs. */
  lemma {:induction false} NextNPosition(t: Tab, n: nat)
    ensures TabPosition(NextN(t, n)) == (TabPosition(t) + n) % 6
    decreases n
  {
    if n == 0 {
      PositionMod(TabPosition(t));
    } else {
      NextNPosition(Next(t), n - 1);
      NextNPositionStep(t, n);
    }
  }

  lemma NextNPositionStep(t: Tab, n: nat)
    requires n > 0
    requires TabPosition(NextN(Next(t), n - 1)) == (TabPosition(Next(t)) + (n - 1)) % 6
    ensures TabPosition(NextN(t, n)) == (TabPosition(t) + n) % 6
  {
    ModSixAdd(TabPosition(t), n);
  }

  lemma ModSixAdd(p: nat, n: nat)
    requires n > 0
    ensures ((p + 1) % 6 + (n - 1)) % 6 == (p + n) % 6
  {
    var k := (p + 1) / 6;
    assert p + 1 == 6 * k + (p + 1) % 6;
    assert p + n == 6 * k + ((p + 1) % 6 + (n - 1));
    ModPlusMultiple(6 * k, (p + 1) % 6 + (n - 1), k);
  }

  lemma ModPlusMultiple(m: int, x: nat, k: nat)
    requires m == 6 * k
    ensures (m + x) % 6 == x % 6
  {
    var q := x / 6;
    assert x == 6 * q + x % 6;
    assert m + x == 6 * (k + q) + x % 6;
  }

  lemma PositionMod(p: nat)
    requires p < 6
    ensures (p + 0) % 6 == p
  {
  }

  lemma PositionOfIndex(i: nat)
    requires i < |AllTabs|
    ensures TabPosition(AllTabs[i]) == i
  {
  }

  lemma ModSixBack(p: nat)
    requires p < 6
    ensures ((p + 1) % 6 + 5) % 6 == p && ((p + 5) % 6 + 1) % 6 == p
  {
  }

  /** Different tabs have different positions. */
  lemma PositionInjective(a: Tab, b: Tab)
    requires TabPosition(a) == TabPosition(b)
    ensures a == b
  {
  }

  lemma ModSixShift(p: nat, n: nat)
    requires p < 6
    ensures (p + n) % 6 == p <==> n % 6 == 0
  {
    var k := n / 6;
    assert n == 6 * k + n % 6;
    assert p + n == 6 * k + (p + n % 6);
    if p + n % 6 < 6 {
      assert (p + n) % 6 == p + n % 6;
    } else {
      assert p + n == 6 * (k + 1) + (p + n % 6 - 6);
      assert (p + n) % 6 == p + n % 6 - 6;
    }
  }

  /**
   * `next_tab` repeated `n` times is back at the starting tab exactly when `n`
   * is a multiple of six; in particular six consecutive calls are the identity.
   */
  lemma NextNCycle(t: Tab, n: nat)
    ensures NextN(t, n) == t <==> n % 6 == 0
  {
    NextNPosition(t, n);
    ModSixShift(TabPosition(t), n);
    if n % 6 == 0 {
      PositionInjective(NextN(t, n), t);
    }
  }

  datatype Focus = WorkersList | ActionsList | GlobalView

  /** `focus_right`: Workers, then Actions, then Global, then Workers again. */
  function RightOf(f: Focus): (r: Focus)
    ensures r != f
    ensures r == WorkersList <==> f == GlobalView
  {
    match f
    case WorkersList => ActionsList
    case ActionsList => GlobalView
    case GlobalView => WorkersList
  }

  /** `focus_left`: one step back, stopping at the workers list. */
  function LeftOf(f: Focus): (r: Focus)
    ensures r == f <==> f == WorkersList
    ensures f != WorkersList ==> RightOf(r) == f
  {
    match f
    case ActionsList => WorkersList
    case GlobalView => ActionsList
    case WorkersList => WorkersList
  }

  /** Three `focus_right` calls are the identity; `focus_left` saturates at the workers list. */
  lemma FocusCycle(f: Focus)
    ensures RightOf(RightOf(RightOf(f))) == f
    ensures LeftOf(f) == f <==> f == WorkersList
  {
  }

  /** `focus_left` undoes `focus_right` exactly when the step did not wrap around from the global view. */
  lemma LeftUndoesRight(f: Focus)
    ensures LeftOf(RightOf(f)) == f <==> f != GlobalView
  {
  }

  /** The eight per-tab caches of `App`, `None` until first fetched. */
  datatype Caches = Caches(
    workerVersions: Option<WorkerVersions>,
    workerStatuses: Option<WorkerStatuses>,
    workerConnections: Option<WorkerConnections>,
    workerPings: Option<WorkerPings>,
    workerTags: Option<WorkerTags>,
    queueMap: Option<QueueMap>,
    authKeys: Option<AuthKeys>,
    generateResponse: Option<GenerateResponse>)

  const NoCaches: Caches := Caches(None, None, None, None, None, None, None, None)

  /** A snapshot of every field of `App` (the polling intervals are not modelled). */
  datatype State = State(
    profiles: seq<Profile>,
    consoleInput: string,
    activeProfile: nat,
    currentTab: Tab,
    banners: seq<string>,
    focus: Focus,
    selectedWorker: nat,
    workerActions: seq<string>,
    selectedAction: nat,
    caches: Caches,
    consoleOutput: seq<string>)

  const WorkerActionNames: seq<string> := ["List models", "Pull model", "Delete model"]

  /** `App::new`: the first profile (index 0, even with no profiles), the Dashboard tab, nothing cached. */
  function Initial(profiles: seq<Profile>): (s: State)
    ensures s.profiles == profiles && s.activeProfile == 0 && s.currentTab == Dashboard
    ensures s.focus == WorkersList && s.selectedWorker == 0 && s.selectedAction == 0
    ensures s.workerActions == WorkerActionNames && s.banners == [] && s.consoleInput == [] && s.consoleOutput == []
    ensures NothingCached(s)
  {
    State(profiles, "", 0, Dashboard, [], WorkersList, 0, WorkerActionNames, 0, NoCaches, [])
  }

  /** All eight caches are empty. */
  predicate NothingCached(s: State)
  {
    var c := s.caches;
    c.workerVersions.None? && c.workerStatuses.None? && c.workerConnections.None? && c.workerPings.None?
    && c.workerTags.None? && c.queueMap.None? && c.authKeys.None? && c.generateResponse.None?
  }

  /** The state after `clear_caches`. */
  function Cleared(s: State): (r: State)
    ensures NothingCached(r) && r.consoleOutput == [] && r.consoleInput == []
    ensures SameView(s, r)
  {
    s.(caches := NoCaches, consoleOutput := [], consoleInput := [])
  }

  /** The fields `clear_caches` must not touch are the same in both states. */
  predicate SameView(s: State, t: State)
  {
    s.profiles == t.profiles && s.activeProfile == t.activeProfile && s.currentTab == t.currentTab
    && s.banners == t.banners && s.focus == t.focus && s.selectedWorker == t.selectedWorker
    && s.workerActions == t.workerActions && s.selectedAction == t.selectedAction
  }

  /**
   * `clear_caches` empties the eight caches, the console output and the console
   * input, leaves tab, focus, cursors, banners and profiles alone, and doing it
   * twice is the same as once.
   */
  lemma ClearedSpec(s: State)
    ensures NothingCached(Cleared(s)) && Cleared(s).consoleOutput == [] && Cleared(s).consoleInput == []
    ensures SameView(s, Cleared(s))
    ensures Cleared(Cleared(s)) == Cleared(s)
    ensures NothingCached(s) && s.consoleOutput == [] && s.consoleInput == [] ==> Cleared(s) == s
  {
  }

  /** The state after `set_active_profile(index)`. */
  function WithProfile(s: State, index: nat): (r: State)
    ensures index >= |s.profiles| ==> r == s
    ensures index < |s.profiles| ==> r.activeProfile == index && NothingCached(r) && r.profiles == s.profiles
  {
    if index < |s.profiles| then Cleared(s).(activeProfile := index) else s
  }

  /** An out-of-range index changes nothing; otherwise the profile is switched and the caches are cleared. */
  lemma WithProfileSpec(s: State, index: nat)
    ensures index >= |s.profiles| ==> WithProfile(s, index) == s
    ensures index < |s.profiles| ==>
              WithProfile(s, index).activeProfile == index && NothingCached(WithProfile(s, index))
              && WithProfile(s, index).consoleInput == [] && WithProfile(s, index).consoleOutput == []
              && SameView(s, WithProfile(s, index).(activeProfile := s.activeProfile))
    ensures s.activeProfile < |s.profiles| ==> WithProfile(s, index).activeProfile < |s.profiles|
  {
  }

  /** The state after `add_banner(msg)`. */
  function WithBanner(s: State, msg: string): (r: State)
    ensures |r.banners| == |s.banners| + 1 && r.banners[..|s.banners|] == s.banners && r.banners[|s.banners|] == msg
    ensures r.(banners := s.banners) == s
  {
    s.(banners := s.banners + [msg])
  }

  /** The state after `dismiss_banner`. */
  function Dismissed(s: State): (r: State)
    ensures |s.banners| > 0 ==> [s.banners[0]] + r.banners == s.banners
    ensures |s.banners| == 0 ==> r == s
    ensures r.(banners := s.banners) == s
  {
    if |s.banners| > 0 then s.(banners := s.banners[1..]) else s
  }

  /** Add the messages in order. */
  function WithBanners(s: State, msgs: seq<string>): State
    decreases |msgs|
  {
    if |msgs| == 0 then s else WithBanners(WithBanner(s, msgs[0]), msgs[1..])
  }

  /** Dismiss `n` times. */
  function DismissedN(s: State, n: nat): State
    decreases n
  {
    if n == 0 then s else DismissedN(Dismissed(s), n - 1)
  }

  lemma {:induction false} WithBannersAppends(s: State, msgs: seq<string>)
    ensures WithBanners(s, msgs) == s.(banners := s.banners + msgs)
    decreases |msgs|
  {
    if |msgs| > 0 {
      WithBannersAppends(WithBanner(s, msgs[0]), msgs[1..]);
      assert s.banners + [msgs[0]] + msgs[1..] == s.banners + msgs;
    }
  }

  lemma {:induction false} DismissedNDrops(s: State, n: nat)
    requires n <= |s.banners|
    ensures DismissedN(s, n) == s.(banners := s.banners[n..])
    decreases n
  {
    if n > 0 {
      DismissedNDrops(Dismissed(s), n - 1);
      assert s.banners[1..][n - 1..] == s.banners[n..];
    }
  }

  /**
   * Banners are a FIFO queue: after adding some messages, dismissing as many
   * banners as were already shown leaves exactly the new messages, in the order
   * they were added; dismissing with no banners changes nothing.
   */
  lemma BannersFifo(s: State, msgs: seq<string>)
    ensures DismissedN(WithBanners(s, msgs), |s.banners|) == s.(banners := msgs)
    ensures |s.banners| == 0 ==> Dismissed(s) == s
  {
    WithBannersAppends(s, msgs);
    var t := s.(banners := s.banners + msgs);
    DismissedNDrops(t, |s.banners|);
    assert (s.banners + msgs)[|s.banners|..] == msgs;
  }

  /** `workers_len`: the number of keys of the status map; 0 exactly when no status map is cached or it is empty. */
  function WorkerCount(s: State): (r: nat)
    ensures r == 0 <==> s.caches.workerStatuses.None? || s.caches.workerStatuses.value == map[]
  {
    if s.caches.workerStatuses.Some? then
      KeysEmpty(s.caches.workerStatuses.value);
      |s.caches.workerStatuses.value.Keys|
    else 0
  }

  lemma KeysEmpty<K, V>(m: map<K, V>)
    ensures |m.Keys| == 0 <==> m == map[]
  {
    if m != map[] {
      var k :| k in m;
      assert k in m.Keys;
    }
  }

  /** The largest `usize`, on a 64-bit target. */
  const USIZE_MAX: nat := 0xFFFF_FFFF_FFFF_FFFF

  /**
   * `len - 1` on `usize` as a release build computes it: the subtraction wraps,
   * so an empty list gives `usize::MAX`.
   */
  function LastIndex(len: nat): (r: nat)
    ensures len <= USIZE_MAX ==> r == (len + USIZE_MAX) % (USIZE_MAX + 1)
  {
    if len > 0 then
      assert len + USIZE_MAX == (USIZE_MAX + 1) + (len - 1);
      len - 1
    else USIZE_MAX
  }

  /** The focused list is non-empty, so `len() - 1` does not wrap. */
  predicate CanMoveDown(s: State)
  {
    (s.focus == WorkersList ==> WorkerCount(s) > 0) && (s.focus == ActionsList ==> |s.workerActions| > 0)
  }

  /** The state after `focus_up`: the focused cursor moves back by one, stopping at 0; nothing else changes. */
  function CursorUp(s: State): (r: State)
    ensures OnlyCursorMoved(s, r)
    ensures FocusedCursor(r) == if FocusedCursor(s) > 0 then FocusedCursor(s) - 1 else 0
  {
    match s.focus
    case WorkersList => if s.selectedWorker > 0 then s.(selectedWorker := s.selectedWorker - 1) else s
    case ActionsList => if s.selectedAction > 0 then s.(selectedAction := s.selectedAction - 1) else s
    case GlobalView => s
  }

  /**
   * The state after `focus_down`: the focused cursor moves on by one while it
   * is below `FocusedMax`; nothing else changes.
   */
  function CursorDown(s: State): (r: State)
    ensures OnlyCursorMoved(s, r)
    ensures FocusedCursor(r) == if FocusedCursor(s) < FocusedMax(s) then FocusedCursor(s) + 1 else FocusedCursor(s)
  {
    match s.focus
    case WorkersList =>
      var max := LastIndex(WorkerCount(s));
      if s.selectedWorker < max then s.(selectedWorker := s.selectedWorker + 1) else s
    case ActionsList =>
      var max := LastIndex(|s.workerActions|);
      if s.selectedAction < max then s.(selectedAction := s.selectedAction + 1) else s
    case GlobalView => s
  }

  /** The bound `focus_down` compares the focused cursor with (0 for the global view). */
  function FocusedMax(s: State): nat
  {
    match s.focus
    case WorkersList => LastIndex(WorkerCount(s))
    case ActionsList => LastIndex(|s.workerActions|)
    case GlobalView => 0
  }

  /** The cursor of the focused list (0 for the global view). */
  function FocusedCursor(s: State): nat
  {
    match s.focus
    case WorkersList => s.selectedWorker
    case ActionsList => s.selectedAction
    case GlobalView => 0
  }

  /** Only the focused list's cursor may differ. */
  predicate OnlyCursorMoved(s: State, t: State)
  {
    t.focus == s.focus
    && t == s.(selectedWorker := t.selectedWorker, selectedAction := t.selectedAction)
    && (s.focus != WorkersList ==> t.selectedWorker == s.selectedWorker)
    && (s.focus != ActionsList ==> t.selectedAction == s.selectedAction)
  }

  /**
   * `focus_up` and `focus_down` move the focused cursor by at most one, never
   * below 0 and never above the focused list's last index (a cursor already
   * beyond it stays where it is), touch nothing else, and do nothing on the
   * global view.
   */
  lemma CursorMoves(s: State)
    ensures OnlyCursorMoved(s, CursorUp(s)) && OnlyCursorMoved(s, CursorDown(s))
    ensures FocusedCursor(CursorUp(s)) == if FocusedCursor(s) > 0 then FocusedCursor(s) - 1 else 0
    ensures FocusedCursor(CursorDown(s)) == if FocusedCursor(s) < FocusedMax(s) then FocusedCursor(s) + 1 else FocusedCursor(s)
    ensures FocusedCursor(s) <= FocusedMax(s) ==> FocusedCursor(CursorDown(s)) <= FocusedMax(s)
    ensures s.focus == GlobalView ==> CursorUp(s) == s && CursorDown(s) == s
  {
  }

  /** The length of the focused list (0 for the global view). */
  function FocusedLen(s: State): nat
  {
    match s.focus
    case WorkersList => WorkerCount(s)
    case ActionsList => |s.workerActions|
    case GlobalView => 0
  }

  /**
   * On a non-empty list the bound of `focus_down` is its last index, so the
   * cursor of a list stays on it. On an empty list the release build's `len - 1`
   * wraps to `usize::MAX` and the cursor moves on past the end; a debug build
   * panics there instead.
   */
  lemma CursorDownBound(s: State)
    requires s.focus != GlobalView
    ensures FocusedLen(s) > 0 ==> FocusedMax(s) == FocusedLen(s) - 1
    ensures FocusedLen(s) > 0 && FocusedCursor(s) < FocusedLen(s) ==> FocusedCursor(CursorDown(s)) < FocusedLen(s)
    ensures FocusedLen(s) == 0 && FocusedCursor(s) < USIZE_MAX ==> FocusedCursor(CursorDown(s)) == FocusedCursor(s) + 1
  {
  }

  /** Below the last index, `focus_up` undoes `focus_down`. */
  lemma UpUndoesDown(s: State)
    requires s.focus != GlobalView && FocusedCursor(s) < FocusedMax(s)
    ensures CursorUp(CursorDown(s)) == s
  {
  }

  /** `focus_down` applied `n` times. */
  function CursorDownN(s: State, n: nat): (t: State)
    ensures FocusedMax(t) == FocusedMax(s) && t.focus == s.focus && (CanMoveDown(t) <==> CanMoveDown(s))
    decreases n
  {
    if n == 0 then s else CursorDownN(CursorDown(s), n - 1)
  }

  /** Repeated `focus_down` saturates at the last index of the focused list. */
  lemma {:induction false} CursorDownSaturates(s: State, n: nat)
    requires s.focus != GlobalView && FocusedCursor(s) <= FocusedMax(s)
    ensures FocusedCursor(CursorDownN(s, n)) == if FocusedCursor(s) + n <= FocusedMax(s) then FocusedCursor(s) + n else FocusedMax(s)
    decreases n
  {
    if n > 0 {
      CursorMoves(s);
      CursorDownSaturates(CursorDown(s), n - 1);
    }
  }

  /**
   * `workers_len` counts every key of the status map, the "Unauthenticated"
   * entry included, although its documentation says it is excluded.
   */
  lemma WorkerCountIncludesUnauthenticated(s: State)
    requires s.caches.workerStatuses.Some? && "Unauthenticated" in s.caches.workerStatuses.value
    ensures WorkerCount(s) == |s.caches.workerStatuses.value.Keys - {"Unauthenticated"}| + 1
  {
    var keys := s.caches.workerStatuses.value.Keys;
    assert keys == (keys - {"Unauthenticated"}) + {"Unauthenticated"};
  }

  /** `App`, updated in place by its methods. */
  class App {
    var profiles: seq<Profile>
    var consoleInput: string
    var activeProfile: nat
    var currentTab: Tab
    var banners: seq<string>
    var focus: Focus
    var selectedWorker: nat
    var workerActions: seq<string>
    var selectedAction: nat
    /** `worker_versions` ... `generate_response`, kept together. */
    var caches: Caches
    var consoleOutput: seq<string>

    /** All the fields, as one value. */
    function Snapshot(): State
      reads this
    {
      State(profiles, consoleInput, activeProfile, currentTab, banners, focus, selectedWorker,
            workerActions, selectedAction, caches, consoleOutput)
    }

    constructor (profiles: seq<Profile>)
      ensures Snapshot() == Initial(profiles)
    {
      this.profiles := profiles;
      consoleInput := "";
      activeProfile := 0;
      currentTab := Dashboard;
      banners := [];
      caches := NoCaches;
      consoleOutput := [];
      focus := WorkersList;
      selectedWorker := 0;
      workerActions := WorkerActionNames;
      selectedAction := 0;
    }

    method NextTab()
      modifies this
      ensures Snapshot() == old(Snapshot()).(currentTab := Next(old(currentTab)))
    {
      var pos := TabPosition(currentTab);
      currentTab := AllTabs[(pos + 1) % |AllTabs|];
    }

    method PrevTab()
      modifies this
      ensures Snapshot() == old(Snapshot()).(currentTab := Prev(old(currentTab)))
    {
      var pos := TabPosition(currentTab);
      currentTab := AllTabs[(pos + |AllTabs| - 1) % |AllTabs|];
    }

    method SetActiveProfile(index: nat)
      modifies this
      ensures Snapshot() == WithProfile(old(Snapshot()), index)
    {
      if index < |profiles| {
        activeProfile := index;
        ClearCaches();
      }
    }

    method AddBanner(msg: string)
      modifies this
      ensures Snapshot() == WithBanner(old(Snapshot()), msg)
    {
      banners := banners + [msg];
    }

    method DismissBanner()
      modifies this
      ensures Snapshot() == Dismissed(old(Snapshot()))
    {
      if |banners| > 0 {
        banners := banners[1..];
      }
    }

    method ClearCaches()
      modifies this
      ensures Snapshot() == Cleared(old(Snapshot()))
    {
      caches := Caches(None, None, None, None, None, None, None, None);
      consoleOutput := [];
      consoleInput := [];
    }

    method FocusUp()
      modifies this
      ensures Snapshot() == CursorUp(old(Snapshot()))
    {
      match focus
      case WorkersList =>
        if selectedWorker > 0 {
          selectedWorker := selectedWorker - 1;
        }
      case ActionsList =>
        if selectedAction > 0 {
          selectedAction := selectedAction - 1;
        }
      case GlobalView =>
    }

    method FocusDown()
      modifies this
      ensures Snapshot() == CursorDown(old(Snapshot()))
    {
      match focus
      case WorkersList =>
        var n := WorkersLen();
        var max := LastIndex(n);
        if selectedWorker < max {
          selectedWorker := selectedWorker + 1;
        }
      case ActionsList =>
        var max := LastIndex(|workerActions|);
        if selectedAction < max {
          selectedAction := selectedAction + 1;
        }
      case GlobalView =>
    }

    method FocusRight()
      modifies this
      ensures Snapshot() == old(Snapshot()).(focus := RightOf(old(focus)))
    {
      focus := match focus
        case WorkersList => ActionsList
        case ActionsList => GlobalView
        case GlobalView => WorkersList;
    }

    method FocusLeft()
      modifies this
      ensures Snapshot() == old(Snapshot()).(focus := LeftOf(old(focus)))
    {
      focus := match focus
        case ActionsList => WorkersList
        case GlobalView => ActionsList
        case WorkersList => WorkersList;
    }

    /** `workers_len`. */
    method WorkersLen() returns (n: nat)
      ensures n == WorkerCount(Snapshot())
    {
      n := if caches.workerStatuses.Some? then |caches.workerStatuses.value.Keys| else 0;
    }
  }
}
