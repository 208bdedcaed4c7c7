/**
 * A streaming session: `startServer` joins the chat, applies the settings, saves a
 * snapshot and then runs its dispatch loop, while chat lines and the stop button
 * arrive between ticks. The pure functions here say what a session does to the
 * observable world (the store, the chat connection, the saved record and the keys
 * handed to the key sender); the `App` class runs the same steps in place.
 */
module Session {
  import opened Options
  import opened Text
  import opened Tally
  import opened Reducer
  import opened Saga

  /** The module-level `twitchChat` client: absent, or joined to a channel by a session with these settings. */
  datatype Chat = Closed | Joined(channel: string, config: ServerConfig)

  /** One call of `inputKey(key, keyPressTime)`. */
  datatype KeyPress = KeyPress(key: string, pressTime: int)

  /** What reaches the application while the loop sleeps: a chat line, or a click on the stop button. */
  datatype Event = ChatLine(text: string) | StopClicked

  /** One pass of the loop: the tick's `Math.random()` value and what arrives during the following sleep. */
  datatype Interval = Interval(draw: Draw, events: seq<Event>)

  datatype World = World(state: GlobalState, chat: Chat, saved: Option<GlobalState>, sent: seq<KeyPress>)

  /** `put(action)`: the reducer runs, and a `stopServer` also runs its saga, which closes the chat client. */
  function Put(w: World, a: Action): World {
    var w1 := w.(state := Reduce(w.state, a));
    if a == StopServer then w1.(chat := Closed) else w1
  }

  function PutAll(w: World, actions: seq<Action>): World
    decreases |actions|
  {
    if actions == [] then w else PutAll(Put(w, actions[0]), actions[1..])
  }

  /** `inputKey(key, state.reducer.keyPressTime)`. */
  function Send(w: World, key: string): World {
    w.(sent := w.sent + [KeyPress(key, w.state.keyPressTime)])
  }

  /**
   * What a classified chat line sets off: a mode vote dispatches `receiveModeCommand`
   * and then that saga's puts; a command dispatches `receiveKey` and then sends or votes.
   */
  function React(w: World, c: Classified): World {
    match c
    case Ignored => w
    case ModeVote(m) =>
      var w1 := Put(w, ReceiveModeCommand(m));
      PutAll(w1, ModeVotePuts(w1.state, m))
    case Command(e) =>
      var w1 := Put(w, ReceiveKey(e));
      var r := ReceiveKeyStep(w1.state, e);
      PutAll(if r.send.Some? then Send(w1, r.send.value) else w1, r.puts)
  }

  /** The `PRIVMSG` handler of the joined client, with that session's settings; with no client nothing listens. */
  function OnChat(w: World, text: string): World {
    match w.chat
    case Closed => w
    case Joined(_, cfg) => React(w, Classify(cfg, text))
  }

  function OnEvent(w: World, ev: Event): World {
    match ev
    case ChatLine(text) => OnChat(w, text)
    case StopClicked => Put(w, StopServer)
  }

  function OnEvents(w: World, evs: seq<Event>): World
    decreases |evs|
  {
    if evs == [] then w else OnEvents(OnEvent(w, evs[0]), evs[1..])
  }

  /** The world after one pass of the loop, and whether the loop goes on. */
  datatype Pass = Done(world: World) | Next(world: World)

  /**
   * One pass of `while (isContinue)`: the tick; then, unless the loop ended or an
   * error was reported and the session stopped, the events of the following sleep.
   */
  function Step(cfg: ServerConfig, w: World, iv: Interval): Pass {
    After(w, TickStep(cfg, w.state, iv.draw), iv.events)
  }

  /** What follows a tick `t`: its error handling, or its key, its puts and the sleep's events. */
  function After(w: World, t: Tick, evs: seq<Event>): Pass {
    match t
    case Exit => Done(w)
    case Throw(f) => Done(PutAll(w, FailurePuts(f)))
    case Continue(send, puts) =>
      var w1 := if send.Some? then Send(w, send.value) else w;
      Next(OnEvents(PutAll(w1, puts), evs))
  }

  /** The loop over a finite trace of passes; the model also ends when the trace does. */
  function Loop(cfg: ServerConfig, w: World, trace: seq<Interval>): World
    decreases |trace|
  {
    if trace == [] then w
    else match Step(cfg, w, trace[0])
      case Done(r) => r
      case Next(r) => Loop(cfg, r, trace[1..])
  }

  /** The world just before the loop: client joined, settings applied, initial mode set, snapshot saved. */
  function Opened(w: World, cfg: ServerConfig): World {
    var w1 := w.(chat := Joined(cfg.twitchId, cfg));
    var w2 := PutAll(w1, [ApplyServer(cfg), ChangeMode(cfg.initialMode, Initial.modeCount)]);
    w2.(saved := Some(Snapshot(w2.state)))
  }

  /** Dispatching `startServer(cfg)`: the reducer ignores it, and the saga runs. */
  function Start(w: World, cfg: ServerConfig, trace: seq<Interval>): World {
    var w0 := Put(w, StartServer(cfg));
    if cfg.twitchId == "" then PutAll(w0, FailurePuts(MissingTwitchId))
    else Loop(cfg, Opened(w0, cfg), trace)
  }

  // ---------------------------------------------------------------- properties of a session

  lemma {:induction false} PutAllAppend(w: World, xs: seq<Action>, ys: seq<Action>)
    ensures PutAll(w, xs + ys) == PutAll(PutAll(w, xs), ys)
    decreases |xs|
  {
    if xs != [] {
      assert (xs + ys)[1..] == xs[1..] + ys;
      PutAllAppend(Put(w, xs[0]), xs[1..], ys);
    } else {
      assert xs + ys == ys;
    }
  }

  /** Putting actions changes only the store, and the chat client when one of them is `stopServer`. */
  lemma {:induction false} PutAllState(w: World, actions: seq<Action>)
    ensures PutAll(w, actions).state == ReduceAll(w.state, actions)
    ensures PutAll(w, actions).chat == (if StopServer in actions then Closed else w.chat)
    ensures PutAll(w, actions).saved == w.saved && PutAll(w, actions).sent == w.sent
    decreases |actions|
  {
    if actions != [] {
      PutAllState(Put(w, actions[0]), actions[1..]);
      assert StopServer in actions <==> actions[0] == StopServer || StopServer in actions[1..];
    }
  }

  /** A missing Twitch ID: the error is shown, the session is stopped, and no client stays joined. */
  lemma StartWithoutTwitchId(w: World, cfg: ServerConfig, trace: seq<Interval>)
    requires cfg.twitchId == ""
    ensures var r := Start(w, cfg, trace);
      && !r.state.start && r.chat == Closed
      && r.state.notify == Notify(true, Error, "Twitch ID未指定", true)
      && r.state == w.state.(start := false, notify := r.state.notify)
      && r.saved == w.saved && r.sent == w.sent
  {
    var w0 := Put(w, StartServer(cfg));
    PutAllState(w0, FailurePuts(MissingTwitchId));
    FailureStops(w0.state, MissingTwitchId);
  }

  /**
   * Before its first tick a session is running in the initial mode with zero mode
   * votes and the form's settings, joined to the channel, and the saved record is
   * the store with `start` off and the mode votes at zero. The democracy tally is
   * left as it was: starting does not reset it.
   */
  lemma OpenedSpec(w: World, cfg: ServerConfig)
    ensures var r := Opened(w, cfg);
      && r.state.start && r.state.mode == cfg.initialMode && r.state.modeCount == ZeroModeCount
      && r.state.commandToKey == cfg.commandToKey && r.state.keyPressTime == cfg.keyPressTime
      && r.state.keyInterval == cfg.keyInterval && r.state.twitch == Twitch(cfg.twitchId)
      && r.state.modeVote == cfg.modeVote && r.state.initialMode == cfg.initialMode
      && r.state.democracyCount == w.state.democracyCount && r.state.notify == w.state.notify
      && r.chat == Joined(cfg.twitchId, cfg)
      && r.saved == Some(r.state.(start := false, modeCount := ZeroModeCount))
      && r.sent == w.sent
  {
    var w1 := w.(chat := Joined(cfg.twitchId, cfg));
    var acts := [ApplyServer(cfg), ChangeMode(cfg.initialMode, Initial.modeCount)];
    PutAllState(w1, acts);
    ReduceAllShort(w1.state, acts[0], acts[1]);
  }

  /**
   * Starting straight into democracy mode while the tally is empty (as it is in the
   * initial store, and after any record saved with an empty tally): the first tick
   * reads the top entry of an empty list, the error is shown, and the session stops
   * before any key is sent.
   */
  lemma StartDemocracyOnEmptyTally(w: World, cfg: ServerConfig, trace: seq<Interval>)
    requires cfg.twitchId != "" && cfg.initialMode == Democracy
    requires w.state.democracyCount == [] && trace != []
    ensures var r := Start(w, cfg, trace);
      && !r.state.start && r.chat == Closed
      && r.state.notify == Notify(true, Error, Message(EmptyTally), true)
      && r.sent == w.sent
  {
    var w0 := Put(w, StartServer(cfg));
    var o := Opened(w0, cfg);
    OpenedSpec(w0, cfg);
    TickDemocracyEmpty(cfg, o.state, trace[0].draw);
    assert Step(cfg, o, trace[0]) == Done(PutAll(o, FailurePuts(EmptyTally)));
    assert Start(w, cfg, trace) == PutAll(o, FailurePuts(EmptyTally));
    PutAllState(o, FailurePuts(EmptyTally));
    FailureStops(o.state, EmptyTally);
  }

  /**
   * What a running session keeps true: the client is joined, with the session's own
   * settings, exactly while `start` is on, and the store holds the session's command
   * table and press time.
   */
  ghost predicate Inv(cfg: ServerConfig, w: World) {
    && (w.state.start <==> w.chat.Joined?)
    && (w.chat.Joined? ==> w.chat.config == cfg)
    && w.state.commandToKey == cfg.commandToKey
    && w.state.keyPressTime == cfg.keyPressTime
  }

  /** A key the sender may receive: some configured key, as written or lowercased and trimmed. */
  ghost predicate Configured(cfg: ServerConfig, k: KeyPress) {
    && k.pressTime == cfg.keyPressTime
    && exists e :: e in cfg.commandToKey && (k.key == e.key || k.key == Normalize(e.key))
  }

  /** The keys sent after the first `n`: every one configured. */
  ghost predicate SentSince(cfg: ServerConfig, w: World, n: nat) {
    && n <= |w.sent|
    && forall i :: n <= i < |w.sent| ==> Configured(cfg, w.sent[i])
  }

  /** The actions a session's own steps put: none of them touches the command table, the press time or the settings. */
  ghost predicate Harmless(actions: seq<Action>) {
    forall i :: 0 <= i < |actions| ==>
      || actions[i].ChangeNotify? || actions[i].ChangeMode? || actions[i].ResetDemocracyKeyVote?
      || actions[i].UpdateDemocracyKeyVote? || actions[i].ReceiveKey? || actions[i].ReceiveModeCommand?
      || actions[i] == StopServer
  }

  lemma {:induction false} HarmlessKeepsInv(cfg: ServerConfig, w: World, actions: seq<Action>, n: nat)
    requires Inv(cfg, w) && Harmless(actions) && SentSince(cfg, w, n)
    ensures Inv(cfg, PutAll(w, actions)) && SentSince(cfg, PutAll(w, actions), n)
    ensures PutAll(w, actions).saved == w.saved
    decreases |actions|
  {
    if actions != [] {
      var w1 := Put(w, actions[0]);
      assert Inv(cfg, w1);
      assert Harmless(actions[1..]) by {
        forall i | 0 <= i < |actions[1..]| ensures actions[1..][i] == actions[i + 1] { }
      }
      HarmlessKeepsInv(cfg, w1, actions[1..], n);
    }
  }

  lemma SendKeepsInv(cfg: ServerConfig, w: World, k: string, n: nat)
    requires Inv(cfg, w) && SentSince(cfg, w, n)
    requires exists e :: e in cfg.commandToKey && (k == e.key || k == Normalize(e.key))
    ensures Inv(cfg, Send(w, k)) && SentSince(cfg, Send(w, k), n) && Send(w, k).saved == w.saved
  {
    var r := Send(w, k);
    assert r.sent[|w.sent|] == KeyPress(k, cfg.keyPressTime);
    assert forall i :: n <= i < |w.sent| ==> r.sent[i] == w.sent[i];
  }

  lemma ModeVotePutsHarmless(s: GlobalState, m: Mode)
    ensures Harmless(ModeVotePuts(s, m))
  {
  }

  lemma ReactKeepsInv(cfg: ServerConfig, w: World, c: Classified, n: nat)
    requires Inv(cfg, w) && SentSince(cfg, w, n)
    requires c.Command? ==> c.entry in cfg.commandToKey
    ensures Inv(cfg, React(w, c)) && SentSince(cfg, React(w, c), n)
    ensures React(w, c).saved == w.saved
  {
    match c
    case Ignored =>
    case ModeVote(m) =>
      var w1 := Put(w, ReceiveModeCommand(m));
      ModeVotePutsHarmless(w1.state, m);
      HarmlessKeepsInv(cfg, w1, ModeVotePuts(w1.state, m), n);
    case Command(e) =>
      var w1 := Put(w, ReceiveKey(e));
      assert Inv(cfg, w1) && SentSince(cfg, w1, n);
      var r := ReceiveKeyStep(w1.state, e);
      var w2 := if r.send.Some? then Send(w1, r.send.value) else w1;
      if r.send.Some? {
        assert r.send.value == e.key;
        SendKeepsInv(cfg, w1, e.key, n);
      }
      HarmlessKeepsInv(cfg, w2, r.puts, n);
  }

  lemma OnChatKeepsInv(cfg: ServerConfig, w: World, text: string, n: nat)
    requires Inv(cfg, w) && SentSince(cfg, w, n)
    ensures Inv(cfg, OnChat(w, text)) && SentSince(cfg, OnChat(w, text), n)
    ensures OnChat(w, text).saved == w.saved
  {
    if w.chat.Joined? {
      var k := Classify(cfg, text);
      if k.Command? {
        ClassifyEntryInTable(cfg, text, k.entry);
      }
      ReactKeepsInv(cfg, w, Classify(cfg, text), n);
    }
  }

  lemma {:induction false} OnEventsKeepsInv(cfg: ServerConfig, w: World, evs: seq<Event>, n: nat)
    requires Inv(cfg, w) && SentSince(cfg, w, n)
    ensures Inv(cfg, OnEvents(w, evs)) && SentSince(cfg, OnEvents(w, evs), n)
    ensures OnEvents(w, evs).saved == w.saved
    decreases |evs|
  {
    if evs != [] {
      var w1 := OnEvent(w, evs[0]);
      match evs[0] {
        case ChatLine(text) => OnChatKeepsInv(cfg, w, text, n);
        case StopClicked => HarmlessKeepsInv(cfg, w, [StopServer], n);
      }
      OnEventsKeepsInv(cfg, w1, evs[1..], n);
    }
  }

  /** A tick's key is a configured key: the democracy winner's key as written, or a lowercased, trimmed random pick. */
  lemma TickKeyConfigured(cfg: ServerConfig, s: GlobalState, u: Draw)
    requires TickStep(cfg, s, u).Continue? && TickStep(cfg, s, u).send.Some?
    ensures exists e :: (e in cfg.commandToKey &&
      (TickStep(cfg, s, u).send.value == e.key || TickStep(cfg, s, u).send.value == Normalize(e.key)))
  {
    var k := TickStep(cfg, s, u).send.value;
    if s.mode == Democracy {
      TickDemocracyWinner(cfg, s, u);
      var d := s.democracyCount;
      var i :| 0 <= i < |d| && KeyOf(cfg.commandToKey, d[i].command) == Some(k);
      var j :| 0 <= j < |cfg.commandToKey| && cfg.commandToKey[j].key == k;
      assert cfg.commandToKey[j] in cfg.commandToKey;
    } else {
      TickRandom(cfg, s, u);
      var l := KeyList(cfg.commandToKey);
      var j :| 0 <= j < |l| && l[j] == k;
      assert cfg.commandToKey[j] in cfg.commandToKey;
    }
  }

  /** The actions a tick puts are harmless, and leave the mode vote counts alone. */
  lemma TickPutsHarmless(cfg: ServerConfig, s: GlobalState, u: Draw)
    ensures TickStep(cfg, s, u).Continue? ==> Harmless(TickStep(cfg, s, u).puts)
    ensures TickStep(cfg, s, u).Continue? ==> KeepsModeCount(TickStep(cfg, s, u).puts)
  {
  }

  lemma AfterKeepsInv(cfg: ServerConfig, w: World, t: Tick, evs: seq<Event>, n: nat)
    requires Inv(cfg, w) && SentSince(cfg, w, n)
    requires t.Continue? ==> Harmless(t.puts)
    requires t.Continue? && t.send.Some? ==> exists e :: e in cfg.commandToKey && (t.send.value == e.key || t.send.value == Normalize(e.key))
    ensures var r := After(w, t, evs).world; Inv(cfg, r) && SentSince(cfg, r, n) && r.saved == w.saved
  {
    match t
    case Exit =>
    case Throw(f) => HarmlessKeepsInv(cfg, w, FailurePuts(f), n);
    case Continue(send, puts) =>
      var w1 := if send.Some? then Send(w, send.value) else w;
      if send.Some? {
        SendKeepsInv(cfg, w, send.value, n);
      }
      HarmlessKeepsInv(cfg, w1, puts, n);
      OnEventsKeepsInv(cfg, PutAll(w1, puts), evs, n);
  }

  /** One pass keeps the invariant and the saved record, and sends only configured keys. */
  lemma StepKeepsInv(cfg: ServerConfig, w: World, iv: Interval, n: nat)
    requires Inv(cfg, w) && SentSince(cfg, w, n)
    ensures var r := Step(cfg, w, iv).world; Inv(cfg, r) && SentSince(cfg, r, n) && r.saved == w.saved
  {
    var t := TickStep(cfg, w.state, iv.draw);
    TickPutsHarmless(cfg, w.state, iv.draw);
    if t.Continue? && t.send.Some? {
      TickKeyConfigured(cfg, w.state, iv.draw);
    }
    AfterKeepsInv(cfg, w, t, iv.events, n);
  }

  /**
   * Over any trace, a session that starts in the invariant keeps it, never rewrites
   * the saved record, and every key it sends is a configured key with the configured
   * press time.
   */
  lemma {:induction false} LoopKeepsInv(cfg: ServerConfig, w: World, trace: seq<Interval>, n: nat)
    requires Inv(cfg, w) && SentSince(cfg, w, n)
    ensures Inv(cfg, Loop(cfg, w, trace)) && SentSince(cfg, Loop(cfg, w, trace), n)
    ensures Loop(cfg, w, trace).saved == w.saved
    decreases |trace|
  {
    if trace != [] {
      var p := Step(cfg, w, trace[0]);
      StepKeepsInv(cfg, w, trace[0], n);
      if p.Next? {
        LoopKeepsInv(cfg, p.world, trace[1..], n);
      }
    }
  }

  /**
   * A started session: the client stays joined exactly while it runs, the snapshot is
   * saved once before the loop and never again, and every key handed to the key sender
   * comes from the session's command table with its press time.
   */
  lemma StartSession(w: World, cfg: ServerConfig, trace: seq<Interval>)
    requires cfg.twitchId != ""
    ensures var r := Start(w, cfg, trace);
      && Inv(cfg, r)
      && r.saved == Opened(Put(w, StartServer(cfg)), cfg).saved
      && Extends(r.sent, w.sent)
      && forall i :: |w.sent| <= i < |r.sent| ==> Configured(cfg, r.sent[i])
  {
    var w0 := Put(w, StartServer(cfg));
    var o := Opened(w0, cfg);
    OpenedSpec(w0, cfg);
    assert Inv(cfg, o) && SentSince(cfg, o, |w.sent|);
    LoopKeepsInv(cfg, o, trace, |w.sent|);
    LoopSentPrefix(cfg, o, trace);
  }

  /** The record of key presses `b` extends `a`. */
  ghost predicate Extends(b: seq<KeyPress>, a: seq<KeyPress>) {
    |a| <= |b| && b[..|a|] == a
  }

  lemma ExtendsTrans(a: seq<KeyPress>, b: seq<KeyPress>, c: seq<KeyPress>)
    requires Extends(b, a) && Extends(c, b)
    ensures Extends(c, a)
  {
    assert c[..|a|] == c[..|b|][..|a|];
  }

  lemma SendExtends(w: World, k: string)
    ensures Extends(Send(w, k).sent, w.sent)
  {
    assert Send(w, k).sent[..|w.sent|] == w.sent;
  }

  lemma ReactExtends(w: World, c: Classified)
    ensures Extends(React(w, c).sent, w.sent)
  {
    match c
    case Ignored =>
    case ModeVote(m) =>
      var w1 := Put(w, ReceiveModeCommand(m));
      PutAllState(w1, ModeVotePuts(w1.state, m));
    case Command(e) =>
      var w1 := Put(w, ReceiveKey(e));
      var r := ReceiveKeyStep(w1.state, e);
      var w2 := if r.send.Some? then Send(w1, r.send.value) else w1;
      PutAllState(w2, r.puts);
      if r.send.Some? {
        SendExtends(w1, r.send.value);
      }
  }

  lemma OnEventExtends(w: World, ev: Event)
    ensures Extends(OnEvent(w, ev).sent, w.sent)
  {
    match ev
    case StopClicked =>
    case ChatLine(text) =>
      match w.chat
      case Closed =>
      case Joined(_, c) => ReactExtends(w, Classify(c, text));
  }

  lemma {:induction false} OnEventsExtends(w: World, evs: seq<Event>)
    ensures Extends(OnEvents(w, evs).sent, w.sent)
    decreases |evs|
  {
    if evs != [] {
      var w1 := OnEvent(w, evs[0]);
      OnEventExtends(w, evs[0]);
      OnEventsExtends(w1, evs[1..]);
      ExtendsTrans(w.sent, w1.sent, OnEvents(w1, evs[1..]).sent);
    }
  }

  lemma AfterExtends(w: World, t: Tick, evs: seq<Event>)
    ensures Extends(After(w, t, evs).world.sent, w.sent)
  {
    match t
    case Exit =>
    case Throw(f) => PutAllState(w, FailurePuts(f));
    case Continue(send, puts) =>
      var w1 := if send.Some? then Send(w, send.value) else w;
      if send.Some? {
        SendExtends(w, send.value);
      }
      PutAllState(w1, puts);
      var w2 := PutAll(w1, puts);
      OnEventsExtends(w2, evs);
      ExtendsTrans(w.sent, w1.sent, w2.sent);
      ExtendsTrans(w.sent, w2.sent, OnEvents(w2, evs).sent);
  }

  /** Keys once sent stay sent: the loop only appends to the record of key presses. */
  lemma {:induction false} LoopSentPrefix(cfg: ServerConfig, w: World, trace: seq<Interval>)
    ensures Extends(Loop(cfg, w, trace).sent, w.sent)
    decreases |trace|
  {
    if trace != [] {
      var p := Step(cfg, w, trace[0]);
      AfterExtends(w, TickStep(cfg, w.state, trace[0].draw), trace[0].events);
      if p.Next? {
        LoopSentPrefix(cfg, p.world, trace[1..]);
        ExtendsTrans(w.sent, p.world.sent, Loop(cfg, p.world, trace[1..]).sent);
      }
    }
  }

  /** A stopped session ends at its next tick, whatever is still to come. */
  lemma LoopStopped(cfg: ServerConfig, w: World, trace: seq<Interval>)
    requires !w.state.start
    ensures Loop(cfg, w, trace) == w
  {
    if trace != [] {
      TickStoppedOrAnarchy(cfg, w.state, trace[0].draw);
    }
  }

  /** No step of a session lowers a mode's vote count. */
  ghost predicate NoLower(w: World, r: World) {
    forall m :: VotesFor(r.state.modeCount, m) >= VotesFor(w.state.modeCount, m)
  }

  /** Actions that leave the mode vote counts alone. */
  ghost predicate KeepsModeCount(actions: seq<Action>) {
    forall i :: 0 <= i < |actions| ==> !actions[i].ChangeMode? && !actions[i].LoadState?
  }

  lemma {:induction false} HarmlessNoLower(w: World, actions: seq<Action>)
    requires KeepsModeCount(actions)
    ensures PutAll(w, actions).state.modeCount == w.state.modeCount
    decreases |actions|
  {
    if actions != [] {
      HarmlessNoLower(Put(w, actions[0]), actions[1..]);
    }
  }

  lemma ReactNoLower(w: World, c: Classified)
    ensures NoLower(w, React(w, c))
  {
    match c
    case Ignored =>
    case ModeVote(m) =>
      var w1 := Put(w, ReceiveModeCommand(m));
      PutAllState(w1, ModeVotePuts(w1.state, m));
      ModeVoteMonotone(w1.state, m);
    case Command(e) =>
      var w1 := Put(w, ReceiveKey(e));
      var r := ReceiveKeyStep(w1.state, e);
      HarmlessNoLower(if r.send.Some? then Send(w1, r.send.value) else w1, r.puts);
  }

  lemma OnChatNoLower(w: World, text: string)
    ensures NoLower(w, OnChat(w, text))
  {
    match w.chat
    case Closed =>
    case Joined(_, c) => ReactNoLower(w, Classify(c, text));
  }

  lemma {:induction false} OnEventsNoLower(w: World, evs: seq<Event>)
    ensures NoLower(w, OnEvents(w, evs))
    decreases |evs|
  {
    if evs != [] {
      var w1 := OnEvent(w, evs[0]);
      match evs[0] {
        case ChatLine(text) => OnChatNoLower(w, text);
        case StopClicked =>
      }
      OnEventsNoLower(w1, evs[1..]);
    }
  }

  lemma AfterNoLower(w: World, t: Tick, evs: seq<Event>)
    requires t.Continue? ==> KeepsModeCount(t.puts)
    ensures NoLower(w, After(w, t, evs).world)
  {
    match t
    case Exit =>
    case Throw(f) => HarmlessNoLower(w, FailurePuts(f));
    case Continue(send, puts) =>
      var w1 := if send.Some? then Send(w, send.value) else w;
      HarmlessNoLower(w1, puts);
      OnEventsNoLower(PutAll(w1, puts), evs);
  }

  /** Within a session the mode vote counts only grow; they are zeroed only when a session starts. */
  lemma {:induction false} LoopNoLower(cfg: ServerConfig, w: World, trace: seq<Interval>)
    ensures forall m :: VotesFor(Loop(cfg, w, trace).state.modeCount, m) >= VotesFor(w.state.modeCount, m)
    decreases |trace|
  {
    if trace != [] {
      var p := Step(cfg, w, trace[0]);
      TickPutsHarmless(cfg, w.state, trace[0].draw);
      AfterNoLower(w, TickStep(cfg, w.state, trace[0].draw), trace[0].events);
      if p.Next? {
        LoopNoLower(cfg, p.world, trace[1..]);
      }
    }
  }

  // ---------------------------------------------------------------- the application, updated in place

  /** The main process: the store, the chat client, the saved record and the key sender's log. */
  class App {
    var state: GlobalState
    var chat: Chat
    var saved: Option<GlobalState>
    var sent: seq<KeyPress>

    function Current(): World
      reads this
    {
      World(state, chat, saved, sent)
    }

    constructor()
      ensures Current() == World(Initial, Closed, None, [])
    {
      state := Initial;
      chat := Closed;
      saved := None;
      sent := [];
    }

    method Dispatch(a: Action)
      modifies this
      ensures Current() == Put(old(Current()), a)
    {
      state := Reduce(state, a);
      if a == StopServer {
        chat := Closed;
      }
    }

    method DispatchAll(actions: seq<Action>)
      modifies this
      ensures Current() == PutAll(old(Current()), actions)
    {
      ghost var w0 := Current();
      for i := 0 to |actions|
        invariant PutAll(w0, actions) == PutAll(Current(), actions[i..])
      {
        assert actions[i..][1..] == actions[i + 1..];
        Dispatch(actions[i]);
      }
    }

    method SendKey(key: string)
      modifies this
      ensures Current() == Send(old(Current()), key)
    {
      sent := sent + [KeyPress(key, state.keyPressTime)];
    }

    /** `dispatchStore` of the classified line, and the saga it starts. */
    method Handle(c: Classified)
      modifies this
      ensures Current() == React(old(Current()), c)
    {
      match c
      case Ignored =>
      case ModeVote(m) =>
        Dispatch(ReceiveModeCommand(m));
        DispatchAll(ModeVotePuts(state, m));
      case Command(e) =>
        Dispatch(ReceiveKey(e));
        var r := ReceiveKeyStep(state, e);
        if r.send.Some? {
          SendKey(r.send.value);
        }
        DispatchAll(r.puts);
    }

    /** The `PRIVMSG` handler, as long as a client is joined. */
    method ChatMessage(text: string)
      modifies this
      ensures Current() == OnChat(old(Current()), text)
    {
      if chat.Joined? {
        Handle(Classify(chat.config, text));
      }
    }

    method HandleEvents(evs: seq<Event>)
      modifies this
      ensures Current() == OnEvents(old(Current()), evs)
    {
      ghost var w0 := Current();
      for i := 0 to |evs|
        invariant OnEvents(w0, evs) == OnEvents(Current(), evs[i..])
      {
        assert evs[i..][1..] == evs[i + 1..];
        match evs[i] {
          case ChatLine(text) => ChatMessage(text);
          case StopClicked => Dispatch(StopServer);
        }
      }
    }

    /** Join the channel, apply the settings, set the initial mode and save the snapshot. */
    method Open(cfg: ServerConfig)
      modifies this
      ensures Current() == Opened(old(Current()), cfg)
    {
      chat := Joined(cfg.twitchId, cfg);
      DispatchAll([ApplyServer(cfg), ChangeMode(cfg.initialMode, Initial.modeCount)]);
      saved := Some(Snapshot(state));
    }

    /** One pass of the loop body; `isContinue` is false once the loop must end. */
    method Tick(cfg: ServerConfig, iv: Interval) returns (isContinue: bool)
      modifies this
      ensures Step(cfg, old(Current()), iv) == if isContinue then Next(Current()) else Done(Current())
    {
      match TickStep(cfg, state, iv.draw) {
        case Exit =>
          isContinue := false;
        case Throw(f) =>
          DispatchAll(FailurePuts(f));
          isContinue := false;
        case Continue(send, puts) =>
          if send.Some? {
            SendKey(send.value);
          }
          DispatchAll(puts);
          HandleEvents(iv.events);
          isContinue := true;
      }
    }

    /** `while (isContinue)` over a finite trace of passes. */
    method RunLoop(cfg: ServerConfig, trace: seq<Interval>)
      modifies this
      ensures Current() == Loop(cfg, old(Current()), trace)
    {
      ghost var target := Loop(cfg, Current(), trace);
      var isContinue := true;
      var i := 0;
      while isContinue && i < |trace|
        invariant 0 <= i <= |trace|
        invariant isContinue ==> Loop(cfg, Current(), trace[i..]) == target
        invariant !isContinue ==> Current() == target
        decreases |trace| - i
      {
        assert trace[i..][1..] == trace[i + 1..];
        isContinue := Tick(cfg, trace[i]);
        i := i + 1;
      }
    }

    /** The `startServer` saga over a finite trace of passes. */
    method StartServer(cfg: ServerConfig, trace: seq<Interval>)
      modifies this
      ensures Current() == Start(old(Current()), cfg, trace)
    {
      Dispatch(Reducer.StartServer(cfg));
      if cfg.twitchId == "" {
        DispatchAll(FailurePuts(MissingTwitchId));
      } else {
        Open(cfg);
        RunLoop(cfg, trace);
      }
    }
  }
}
