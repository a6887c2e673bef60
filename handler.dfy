/**
 * The event loop of src/events/handler.rs: each key press, tick or stop event
 * updates the shared `App`, and the loop ends on `q`, on `Stop`, or when the
 * management client cannot be built on a tick.
 *
 * The remote calls an event makes are not performed: their outcomes arrive in
 * a `Replies` value (a fetch that failed is `None`).
 */
module Handler {
  import opened Wrappers
  import opened Json
  import opened Errors
  import opened Models
  import opened Text
  import opened Http
  import opened InferClient
  import opened AppState
  import opened Keys

  /** The events the spawner delivers. */
  datatype Event = Input(code: KeyCode) | Tick | Stop

  /** What the remote side answers while one event is handled. */
  datatype Replies = Replies(
    inferBuilder: Result<(), string>,     // building the inference client's HTTP client
    generate: Result<Value, ClientError>, // the `generate` call
    manageBuilder: Result<(), string>,    // building the management client's HTTP client
    queue: Option<QueueMap>,              // `get_queue`
    statuses: Option<WorkerStatuses>,     // `get_worker_status`
    connections: Option<WorkerConnections>, // `get_worker_connections`
    pings: Option<WorkerPings>,           // `get_worker_pings`
    versions: Option<WorkerVersions>,     // `get_worker_versions`
    tags: Option<WorkerTags>,             // `get_worker_tags`
    keys: Option<AuthKeys>)               // `get_keys`

  /** `format!("{}:{}", host, port)`: the host, a colon, and the port's decimal digits. */
  function BaseUrl(host: string, port: u16): (r: string)
    ensures StartsWith(r, host + ":")
    ensures DecimalValue(r[|host| + 1..]) == port as nat
    ensures var digits := r[|host| + 1..];
            digits != [] && (forall i :: 0 <= i < |digits| ==> '0' <= digits[i] <= '9')
            && (|digits| > 1 ==> digits[0] != '0')
  {
    var digits := NatToString(port as nat);
    NatToStringValue(port as nat);
    assert (host + ":" + digits)[..|host| + 1] == host + ":";
    assert (host + ":" + digits)[|host| + 1..] == digits;
    host + ":" + digits
  }

  /** The banner pushed when a client cannot be built. */
  function ContactFailure(e: ClientError): string
  {
    "Can't contact HiveCore: " + Display(e)
  }

  function InferenceFailure(e: ClientError): string
  {
    "Inference failed: " + Display(e)
  }

  /** `profiles[active_profile]` does not panic. */
  predicate Indexable(s: State)
  {
    s.activeProfile < |s.profiles|
  }

  /** The events that read the active profile: Enter on the Console tab, and every tick. */
  predicate UsesProfile(s: State, ev: Event)
  {
    ev == Tick || (ev == Input(Enter) && s.currentTab == Console)
  }

  function ActiveProfile(s: State): Profile
    requires Indexable(s)
  {
    s.profiles[s.activeProfile]
  }

  /** The inference client Enter on the Console tab builds. */
  function InferClientOf(s: State, net: Replies): Result<HiveInferClient, ClientError>
    requires Indexable(s)
  {
    NewInferClient(BaseUrl(ActiveProfile(s).host, ActiveProfile(s).portInfer), ActiveProfile(s).clientToken, net.inferBuilder)
  }

  /** The management client a tick builds (`HiveManageClient::new` is `HttpClient::new`). */
  function ManageClientOf(s: State, net: Replies): Result<HttpClient, ClientError>
    requires Indexable(s)
  {
    NewClient(BaseUrl(ActiveProfile(s).host, ActiveProfile(s).portManage), ActiveProfile(s).adminToken, net.manageBuilder)
  }

  /**
   * Enter on the Console tab: send the prompt and show the reply. Only the
   * banners, the console output and the cached reply can change; a banner is
   * only ever added at the back, and then the output stays as it was.
   */
  function Submitted(s: State, net: Replies): (r: State)
    requires Indexable(s)
    ensures r == s.(banners := r.banners, consoleOutput := r.consoleOutput,
                    caches := s.caches.(generateResponse := r.caches.generateResponse))
    ensures |s.banners| <= |r.banners| <= |s.banners| + 1 && r.banners[..|s.banners|] == s.banners
    ensures r.banners != s.banners ==> r.consoleOutput == s.consoleOutput
  {
    var api := InferClientOf(s, net);
    if api.Err? then WithBanner(s, ContactFailure(api.error))
    else if net.generate.Err? then WithBanner(s, InferenceFailure(net.generate.error))
    else
      var resp := DecodeGenerateResponse(net.generate.value);
      if resp.Some? then s.(caches := s.caches.(generateResponse := Some(resp.value)), consoleOutput := [resp.value.result]) else s
  }

  /** A cache after a fetch: the fetched value when it arrived, the previous one otherwise; a filled cache stays filled. */
  function Latest<T>(cached: Option<T>, fetched: Option<T>): (r: Option<T>)
    ensures r == fetched || r == cached
    ensures fetched.Some? ==> r == fetched
    ensures r.Some? <==> fetched.Some? || cached.Some?
  {
    if fetched.Some? then fetched else cached
  }

  /** No cache that held a value is emptied. */
  predicate NoCacheLost(c: Caches, d: Caches)
  {
    && (c.workerVersions.Some? ==> d.workerVersions.Some?)
    && (c.workerStatuses.Some? ==> d.workerStatuses.Some?)
    && (c.workerConnections.Some? ==> d.workerConnections.Some?)
    && (c.workerPings.Some? ==> d.workerPings.Some?)
    && (c.workerTags.Some? ==> d.workerTags.Some?)
    && (c.queueMap.Some? ==> d.queueMap.Some?)
    && (c.authKeys.Some? ==> d.authKeys.Some?)
    && (c.generateResponse.Some? ==> d.generateResponse.Some?)
  }

  /**
   * The caches a tick refreshes on the current tab: only caches change, no
   * cache is emptied, and the cached inference reply is never touched.
   */
  function Refreshed(s: State, net: Replies): (r: State)
    ensures r == s.(caches := r.caches)
    ensures NoCacheLost(s.caches, r.caches)
    ensures r.caches.generateResponse == s.caches.generateResponse
  {
    var c := s.caches;
    match s.currentTab
    case Queues => s.(caches := c.(queueMap := Latest(c.queueMap, net.queue)))
    case Nodes | Dashboard =>
      s.(caches := c.(workerStatuses := Latest(c.workerStatuses, net.statuses),
                      workerConnections := Latest(c.workerConnections, net.connections),
                      workerPings := Latest(c.workerPings, net.pings),
                      workerVersions := Latest(c.workerVersions, net.versions),
                      workerTags := Latest(c.workerTags, net.tags)))
    case Keys => s.(caches := c.(authKeys := Latest(c.authKeys, net.keys)))
    case Console | Logs => s
  }

  /** A key press: the new state, and whether the loop goes on; only `q` ends it, and no key touches the profiles. */
  function KeyStep(s: State, code: KeyCode, net: Replies): (r: (State, bool))
    requires code == Enter && s.currentTab == Console ==> Indexable(s)
    ensures !r.1 <==> code == Char('q')
    ensures r.0.profiles == s.profiles && r.0.activeProfile == s.activeProfile
    ensures r.0.currentTab != s.currentTab ==> code == Left || code == Right
  {
    if code == Char('q') then (s, false)
    else if code == Left then (s.(currentTab := Prev(s.currentTab)), true)
    else if code == Right then (s.(currentTab := Next(s.currentTab)), true)
    else if code == Char('r') then (Cleared(s), true)
    else if code == Enter then (if s.currentTab == Console then Submitted(s, net) else s, true)
    else if code.Char? then (if s.currentTab == Console then s.(consoleInput := s.consoleInput + [code.c]) else s, true)
    else if code == Backspace then
      (if s.currentTab == Console && |s.consoleInput| > 0 then s.(consoleInput := s.consoleInput[..|s.consoleInput| - 1]) else s, true)
    else (s, true)
  }

  /**
   * A tick: the management client is built first, and the loop ends exactly
   * when that fails; the tab and the profiles are never changed.
   */
  function TickStep(s: State, net: Replies): (r: (State, bool))
    requires Indexable(s)
    ensures r.1 <==> ManageClientOf(s, net).Ok?
    ensures r.0.currentTab == s.currentTab && r.0.profiles == s.profiles && r.0.activeProfile == s.activeProfile
  {
    var client := ManageClientOf(s, net);
    if client.Err? then (WithBanner(s, ContactFailure(client.error)), false)
    else (Refreshed(s, net), true)
  }

  /**
   * One turn of the event loop: the new state, and whether the loop goes on.
   * Only the arrow keys switch tabs.
   */
  function Step(s: State, ev: Event, net: Replies): (r: (State, bool))
    requires UsesProfile(s, ev) ==> Indexable(s)
    ensures r.0.currentTab != s.currentTab ==> ev == Input(Left) || ev == Input(Right)
  {
    match ev
    case Input(code) => KeyStep(s, code, net)
    case Tick => TickStep(s, net)
    case Stop => (s, false)
  }

  /**
   * The loop ends exactly on `q`, on `Stop`, and on a tick whose management
   * client cannot be built (an invalid admin token, or the HTTP client failing
   * to build); whatever the tab.
   */
  lemma StopsExactly(s: State, ev: Event, net: Replies)
    requires UsesProfile(s, ev) ==> Indexable(s)
    ensures !Step(s, ev, net).1 <==>
              ev == Stop || ev == Input(Char('q'))
              || (ev == Tick && (!ValidHeaderValue(ActiveProfile(s).adminToken) || net.manageBuilder.Err?))
    ensures ev == Stop || ev == Input(Char('q')) ==> Step(s, ev, net).0 == s
  {
  }

  /** Left, Right and `r` do the same on every tab. */
  lemma TabKeysEverywhere(s: State, net: Replies)
    ensures Step(s, Input(Left), net) == (s.(currentTab := Prev(s.currentTab)), true)
    ensures Step(s, Input(Right), net) == (s.(currentTab := Next(s.currentTab)), true)
    ensures Step(s, Input(Char('r')), net) == (Cleared(s), true)
  {
  }

  /**
   * Typing: a character other than `q` and `r` is appended to the console input
   * on the Console tab and ignored elsewhere; `q` and `r` never reach the input.
   * Backspace removes the last character on the Console tab, and does nothing on
   * an empty input or on another tab.
   */
  lemma ConsoleTyping(s: State, c: char, net: Replies)
    ensures c != 'q' && c != 'r' ==>
              Step(s, Input(Char(c)), net).0.consoleInput == (if s.currentTab == Console then s.consoleInput + [c] else s.consoleInput)
    ensures c != 'q' && c != 'r' ==> Step(s, Input(Char(c)), net).0 == s.(consoleInput := Step(s, Input(Char(c)), net).0.consoleInput)
    ensures c == 'q' || c == 'r' ==> Step(s, Input(Char(c)), net).0.consoleInput != s.consoleInput + [c]
    ensures var t := Step(s, Input(Backspace), net).0;
            t == s.(consoleInput := t.consoleInput)
            && (s.currentTab == Console && |s.consoleInput| > 0 ==> t.consoleInput + [s.consoleInput[|s.consoleInput| - 1]] == s.consoleInput)
            && (s.currentTab != Console || |s.consoleInput| == 0 ==> t == s)
  {
    if c == 'r' {
      assert |Cleared(s).consoleInput| == 0;
    }
  }

  /** Typing a character on the Console tab and erasing it restores the state. */
  lemma TypeThenErase(s: State, c: char, net: Replies)
    requires s.currentTab == Console && c != 'q' && c != 'r'
    ensures Step(Step(s, Input(Char(c)), net).0, Input(Backspace), net).0 == s
  {
    assert (s.consoleInput + [c])[..|s.consoleInput|] == s.consoleInput;
  }

  /** Enter does nothing on any tab but Console. */
  lemma EnterElsewhere(s: State, net: Replies)
    requires s.currentTab != Console
    ensures Step(s, Input(Enter), net) == (s, true)
  {
  }

  /**
   * Enter on the Console tab: the loop always goes on. A client that cannot be
   * built, or a failed call, adds one banner and changes nothing else; a reply
   * that decodes replaces the console output by its `result`.
   */
  lemma SubmitOutcome(s: State, net: Replies)
    requires s.currentTab == Console && Indexable(s)
    ensures Step(s, Input(Enter), net).1
    ensures InferClientOf(s, net).Err? ==> Step(s, Input(Enter), net).0 == s.(banners := s.banners + [ContactFailure(InferClientOf(s, net).error)])
    ensures InferClientOf(s, net).Ok? && net.generate.Err? ==>
              Step(s, Input(Enter), net).0 == s.(banners := s.banners + [InferenceFailure(net.generate.error)])
    ensures InferClientOf(s, net).Ok? && net.generate.Ok? && net.generate.value.Object? && StrField(net.generate.value.fields, "result").Some? ==>
              Step(s, Input(Enter), net).0.consoleOutput == [net.generate.value.fields["result"].s]
    ensures InferClientOf(s, net).Ok? && net.generate.Ok? && !(net.generate.value.Object? && StrField(net.generate.value.fields, "result").Some?) ==>
              Step(s, Input(Enter), net).0 == s
  {
    match InferClientOf(s, net) {
      case Err(_) =>
      case Ok(_) =>
        match net.generate {
          case Err(_) =>
          case Ok(j) =>
        }
    }
  }

  /** A tick whose client fails pushes the banner and stops; the caches are untouched. */
  lemma TickClientFailure(s: State, net: Replies)
    requires Indexable(s) && ManageClientOf(s, net).Err?
    ensures Step(s, Tick, net) == (s.(banners := s.banners + [ContactFailure(ManageClientOf(s, net).error)]), false)
  {
  }

  predicate RefreshesQueue(t: Tab) { t == Queues }
  predicate RefreshesWorkers(t: Tab) { t == Nodes || t == Dashboard }
  predicate RefreshesKeys(t: Tab) { t == Keys }

  /**
   * A tick whose client is built refreshes exactly the caches of the current
   * tab; each fetch that fails leaves its own cache as it was without keeping
   * the later fetches from landing, and nothing else changes.
   */
  lemma TickRefreshesCurrentTab(s: State, net: Replies)
    requires Indexable(s) && ManageClientOf(s, net).Ok?
    ensures var t := Step(s, Tick, net).0;
      Step(s, Tick, net).1
      && t.caches.queueMap == (if RefreshesQueue(s.currentTab) && net.queue.Some? then net.queue else s.caches.queueMap)
      && t.caches.workerStatuses == (if RefreshesWorkers(s.currentTab) && net.statuses.Some? then net.statuses else s.caches.workerStatuses)
      && t.caches.workerConnections == (if RefreshesWorkers(s.currentTab) && net.connections.Some? then net.connections else s.caches.workerConnections)
      && t.caches.workerPings == (if RefreshesWorkers(s.currentTab) && net.pings.Some? then net.pings else s.caches.workerPings)
      && t.caches.workerVersions == (if RefreshesWorkers(s.currentTab) && net.versions.Some? then net.versions else s.caches.workerVersions)
      && t.caches.workerTags == (if RefreshesWorkers(s.currentTab) && net.tags.Some? then net.tags else s.caches.workerTags)
      && t.caches.authKeys == (if RefreshesKeys(s.currentTab) && net.keys.Some? then net.keys else s.caches.authKeys)
      && t.caches.generateResponse == s.caches.generateResponse
      && t == s.(caches := t.caches)
    ensures s.currentTab == Console || s.currentTab == Logs ==> Step(s, Tick, net).0 == s
  {
  }

  /** No event changes the profile list or which profile is active. */
  lemma StepKeepsProfile(s: State, ev: Event, net: Replies)
    requires UsesProfile(s, ev) ==> Indexable(s)
    ensures Step(s, ev, net).0.profiles == s.profiles && Step(s, ev, net).0.activeProfile == s.activeProfile
  {
  }

  /** No Enter and no tick: the events that never read the active profile, whatever the tab. */
  predicate ProfileFree(events: seq<Event>)
  {
    forall i :: 0 <= i < |events| ==> events[i] != Tick && events[i] != Input(Enter)
  }

  /**
   * The loop over a finite run of events, `replies[i]` answering `events[i]`:
   * the final state and how many events were handled (the one that ended the
   * loop included).
   */
  function Run(s: State, events: seq<Event>, replies: seq<Replies>): (r: (State, nat))
    requires |replies| == |events|
    requires Indexable(s) || ProfileFree(events)
    ensures r.1 <= |events|
    ensures r.0.profiles == s.profiles && r.0.activeProfile == s.activeProfile
    decreases |events|
  {
    if |events| == 0 then (s, 0)
    else
      StepKeepsProfile(s, events[0], replies[0]);
      var (t, go) := Step(s, events[0], replies[0]);
      if !go then (t, 1)
      else
        assert ProfileFree(events) ==> ProfileFree(events[1..]) by {
          if ProfileFree(events) {
            forall i | 0 <= i < |events[1..]| ensures events[1..][i] != Tick && events[1..][i] != Input(Enter) {
              assert events[1..][i] == events[i + 1];
            }
          }
        }
        var (u, n) := Run(t, events[1..], replies[1..]);
        (u, n + 1)
  }

  /** The loop handles events up to and including the first one that ends it, and all of them if none does. */
  lemma {:induction false} RunStopsAtFirstExit(s: State, events: seq<Event>, replies: seq<Replies>)
    requires |replies| == |events|
    requires Indexable(s) || ProfileFree(events)
    ensures Run(s, events, replies).1 < |events| ==> Run(s, events, replies).1 > 0
    ensures forall i :: 0 <= i < |events| && (events[i] == Stop || events[i] == Input(Char('q'))) ==> Run(s, events, replies).1 <= i + 1
    decreases |events|
  {
    if |events| > 0 {
      StepKeepsProfile(s, events[0], replies[0]);
      var (t, go) := Step(s, events[0], replies[0]);
      if go {
        assert events[0] != Stop && events[0] != Input(Char('q'));
        assert ProfileFree(events) ==> ProfileFree(events[1..]) by {
          if ProfileFree(events) {
            forall i | 0 <= i < |events[1..]| ensures events[1..][i] != Tick && events[1..][i] != Input(Enter) {
              assert events[1..][i] == events[i + 1];
            }
          }
        }
        RunStopsAtFirstExit(t, events[1..], replies[1..]);
        forall i | 0 <= i < |events| && (events[i] == Stop || events[i] == Input(Char('q')))
          ensures Run(s, events, replies).1 <= i + 1
        {
          assert i > 0;
          assert events[1..][i - 1] == events[i];
        }
      }
    }
  }

  /** Enter on the Console tab. */
  method SubmitPrompt(app: App, net: Replies)
    requires app.currentTab == Console && Indexable(app.Snapshot())
    modifies app
    ensures app.Snapshot() == Submitted(old(app.Snapshot()), net)
  {
    var profile := app.profiles[app.activeProfile];
    var api := NewInferClient(BaseUrl(profile.host, profile.portInfer), profile.clientToken, net.inferBuilder);
    if api.Err? {
      app.AddBanner(ContactFailure(api.error));
      return;
    }
    if net.generate.Err? {
      app.AddBanner(InferenceFailure(net.generate.error));
    } else {
      var resp := DecodeGenerateResponse(net.generate.value);
      if resp.Some? {
        app.caches := app.caches.(generateResponse := Some(resp.value));
        app.consoleOutput := [resp.value.result];
      }
    }
  }

  /** A tick: build the management client, then fetch what the current tab shows. */
  method Refresh(app: App, net: Replies) returns (go: bool)
    requires Indexable(app.Snapshot())
    modifies app
    ensures (app.Snapshot(), go) == TickStep(old(app.Snapshot()), net)
  {
    var profile := app.profiles[app.activeProfile];
    var client := NewClient(BaseUrl(profile.host, profile.portManage), profile.adminToken, net.manageBuilder);
    if client.Err? {
      app.AddBanner(ContactFailure(client.error));
      return false;
    }
    RefreshCaches(app, net);
    go := true;
  }

  /** The fetches of a tick: each reply that arrived replaces the cache the current tab shows; failed fetches keep theirs. */
  method RefreshCaches(app: App, net: Replies)
    modifies app
    ensures app.Snapshot() == Refreshed(old(app.Snapshot()), net)
  {
    var c := app.caches;
    match app.currentTab {
      case Queues =>
        if net.queue.Some? { c := c.(queueMap := net.queue); }
      case Nodes | Dashboard =>
        if net.statuses.Some? { c := c.(workerStatuses := net.statuses); }
        if net.connections.Some? { c := c.(workerConnections := net.connections); }
        if net.pings.Some? { c := c.(workerPings := net.pings); }
        if net.versions.Some? { c := c.(workerVersions := net.versions); }
        if net.tags.Some? { c := c.(workerTags := net.tags); }
      case Keys =>
        if net.keys.Some? { c := c.(authKeys := net.keys); }
      case Console | Logs =>
    }
    app.caches := c;
  }

  /** One turn of `handle_events`. */
  method HandleEvent(app: App, ev: Event, net: Replies) returns (go: bool)
    requires UsesProfile(app.Snapshot(), ev) ==> Indexable(app.Snapshot())
    modifies app
    ensures (app.Snapshot(), go) == Step(old(app.Snapshot()), ev, net)
  {
    go := true;
    match ev {
      case Input(code) =>
        if code == Char('q') {
          go := false;
        } else if code == Left {
          app.PrevTab();
        } else if code == Right {
          app.NextTab();
        } else if code == Char('r') {
          app.ClearCaches();
        } else if code == Enter {
          if app.currentTab == Console {
            SubmitPrompt(app, net);
          }
        } else if code.Char? {
          if app.currentTab == Console {
            app.consoleInput := app.consoleInput + [code.c];
          }
        } else if code == Backspace {
          if app.currentTab == Console && |app.consoleInput| > 0 {
            app.consoleInput := app.consoleInput[..|app.consoleInput| - 1];
          }
        }
      case Tick =>
        go := Refresh(app, net);
      case Stop =>
        go := false;
    }
  }

  /** `handle_events` over a finite run of events: it stops at the first event that ends the loop. */
  method HandleEvents(app: App, events: seq<Event>, replies: seq<Replies>) returns (handled: nat)
    requires |replies| == |events|
    requires Indexable(app.Snapshot()) || ProfileFree(events)
    modifies app
    ensures (app.Snapshot(), handled) == Run(old(app.Snapshot()), events, replies)
  {
    ghost var s0 := app.Snapshot();
    handled := 0;
    while handled < |events|
      invariant handled <= |events|
      invariant Indexable(app.Snapshot()) || ProfileFree(events[handled..])
      invariant Run(s0, events, replies) == (Run(app.Snapshot(), events[handled..], replies[handled..]).0,
                                             handled + Run(app.Snapshot(), events[handled..], replies[handled..]).1)
      decreases |events| - handled
    {
      ghost var rest, restReplies := events[handled..], replies[handled..];
      assert rest[0] == events[handled] && restReplies[0] == replies[handled];
      assert rest[1..] == events[handled + 1..] && restReplies[1..] == replies[handled + 1..];
      RunUnfold(app.Snapshot(), rest, restReplies);
      var go := HandleEvent(app, events[handled], replies[handled]);
      handled := handled + 1;
      if !go {
        return;
      }
    }
  }

  /** One turn of `Run`: the first event is handled, and the loop goes on with the rest exactly when it says so. */
  lemma RunUnfold(s: State, events: seq<Event>, replies: seq<Replies>)
    requires |replies| == |events| > 0
    requires Indexable(s) || ProfileFree(events)
    ensures UsesProfile(s, events[0]) ==> Indexable(s)
    ensures var (t, go) := Step(s, events[0], replies[0]);
            && (!go ==> Run(s, events, replies) == (t, 1))
            && (go ==> (Indexable(t) || ProfileFree(events[1..]))
                       && Run(s, events, replies) == (Run(t, events[1..], replies[1..]).0, Run(t, events[1..], replies[1..]).1 + 1))
  {
    StepKeepsProfile(s, events[0], replies[0]);
    assert ProfileFree(events) ==> ProfileFree(events[1..]) by {
      if ProfileFree(events) {
        forall i | 0 <= i < |events[1..]| ensures events[1..][i] != Tick && events[1..][i] != Input(Enter) {
          assert events[1..][i] == events[i + 1];
        }
      }
    }
  }
}
