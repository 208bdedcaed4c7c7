/**
 * The Redux store's state (`GlobalState`), its initial value, the actions the
 * application dispatches, and the reducer: a total function from a state and an
 * action to the next state.
 */
module Reducer {
  import opened Options
  import opened Tally

  datatype Mode = Democracy | Anarchy | Random

  datatype NotifyType = Info | Warning | Error

  /** The notification bar. */
  datatype Notify = Notify(show: bool, kind: NotifyType, message: string, closable: bool)

  datatype Twitch = Twitch(id: string)

  /** Cumulative mode-vote counts. */
  datatype ModeCount = ModeCount(democracy: nat, anarchy: nat, random: nat)

  /** One row of the chat-command table. */
  datatype CommandEntry = CommandEntry(command: string, key: string, enable: bool)

  datatype GlobalState = GlobalState(
    notify: Notify,
    start: bool,
    twitch: Twitch,
    mode: Mode,
    initialMode: Mode,
    modeVote: bool,
    modeCount: ModeCount,
    keyInterval: int,
    democracyCount: Dict,
    commandToKey: seq<CommandEntry>,
    keyPressTime: int)

  /** The payload of `startServer` and `applyServer`: the session settings from the form. */
  datatype ServerConfig = ServerConfig(
    twitchId: string,
    keyInterval: int,
    keyPressTime: int,
    initialMode: Mode,
    modeVote: bool,
    commandToKey: seq<CommandEntry>)

  datatype Action =
    | ChangeNotify(notify: Notify)
    | CloseNotify
    | LoadState(loaded: GlobalState)
    | StartServer(config: ServerConfig)
    | ApplyServer(config: ServerConfig)
    | StopServer
    | ChangeMode(mode: Mode, modeCount: ModeCount)
    | ReceiveModeCommand(voted: Mode)
    | ReceiveKey(entry: CommandEntry)
    | ResetDemocracyKeyVote(commands: seq<string>)
    | UpdateDemocracyKeyVote(command: string)

  function ModeName(m: Mode): string {
    match m
    case Democracy => "democracy"
    case Anarchy => "anarchy"
    case Random => "random"
  }

  function VotesFor(mc: ModeCount, m: Mode): nat {
    match m
    case Democracy => mc.democracy
    case Anarchy => mc.anarchy
    case Random => mc.random
  }

  const ZeroModeCount := ModeCount(0, 0, 0)

  const Initial := GlobalState(
    Notify(false, Info, "ここが更新されるよ", true),
    false,
    Twitch(""),
    Anarchy,
    Anarchy,
    true,
    ZeroModeCount,
    1000,
    [],
    [ CommandEntry("up", "↑", true),
      CommandEntry("left", "←", true),
      CommandEntry("down", "↓", true),
      CommandEntry("right", "→", true),
      CommandEntry("A", "1", true),
      CommandEntry("B", "2", true),
      CommandEntry("mic", "3", true),
      CommandEntry("select", "4", true),
      CommandEntry("start", "5", true),
      CommandEntry("X", "", false),
      CommandEntry("Y", "", false),
      CommandEntry("L", "", false),
      CommandEntry("R", "", false),
      CommandEntry("Z", "", false),
      CommandEntry("", "", false) ],
    50)

  /** The `changeNotify` action creator: `closable` is true unless `false` is passed. */
  function NotifyAction(show: bool, kind: NotifyType, message: string, closable: Option<bool>): (a: Action)
    ensures a.ChangeNotify? && a.notify.show == show && a.notify.kind == kind && a.notify.message == message
    ensures a.notify.closable <==> closable != Some(false)
  {
    ChangeNotify(Notify(show, kind, message, closable != Some(false)))
  }

  function Reduce(s: GlobalState, a: Action): GlobalState {
    match a
    case ChangeNotify(n) => s.(notify := n)
    case CloseNotify => s.(notify := s.notify.(show := false))
    case LoadState(t) => t
    case ApplyServer(p) =>
      s.(start := true, mode := p.initialMode, initialMode := p.initialMode, modeVote := p.modeVote,
         commandToKey := p.commandToKey, keyInterval := p.keyInterval, keyPressTime := p.keyPressTime,
         twitch := Twitch(p.twitchId))
    case StopServer => s.(start := false)
    case ChangeMode(m, mc) => s.(mode := m, modeCount := mc)
    case ResetDemocracyKeyVote(list) => s.(democracyCount := Zeroed(list))
    case UpdateDemocracyKeyVote(c) =>
      s.(democracyCount := Assign(s.democracyCount, c, Incremented(Get(s.democracyCount, c))))
    case _ => s
  }

  /** Dispatching a list of actions in order. */
  function ReduceAll(s: GlobalState, actions: seq<Action>): GlobalState
    decreases |actions|
  {
    if actions == [] then s else ReduceAll(Reduce(s, actions[0]), actions[1..])
  }

  lemma {:induction false} ReduceAllAppend(s: GlobalState, xs: seq<Action>, ys: seq<Action>)
    ensures ReduceAll(s, xs + ys) == ReduceAll(ReduceAll(s, xs), ys)
    decreases |xs|
  {
    if xs != [] {
      assert (xs + ys)[1..] == xs[1..] + ys;
      ReduceAllAppend(Reduce(s, xs[0]), xs[1..], ys);
    } else {
      assert xs + ys == ys;
    }
  }

  /** Dispatching one action, or two in a row. */
  lemma ReduceAllShort(s: GlobalState, a: Action, b: Action)
    ensures ReduceAll(s, []) == s
    ensures ReduceAll(s, [a]) == Reduce(s, a)
    ensures ReduceAll(s, [a, b]) == Reduce(Reduce(s, a), b)
  {
    assert [a, b][1..] == [b];
    assert ReduceAll(Reduce(s, a), [b]) == ReduceAll(Reduce(Reduce(s, a), b), []);
  }

  /**
   * `resetDemocracyKeyVote(list)`: the tally holds exactly the listed commands at 0, index
   * keys ascending ahead of the others, which keep the list's order; nothing else moves.
   */
  lemma ResetTally(s: GlobalState, list: seq<string>)
    ensures var r := Reduce(s, ResetDemocracyKeyVote(list));
      && (forall k :: Get(r.democracyCount, k) == if k in list then Some(Votes(0)) else None)
      && (forall k :: k in Keys(r.democracyCount) <==> k in list)
      && WellFormed(r.democracyCount)
      && ((forall k :: k in list ==> !IsArrayIndex(k)) && NoDuplicates(list) ==> Keys(r.democracyCount) == list)
      && r == s.(democracyCount := r.democracyCount)
  {
    var r := Reduce(s, ResetDemocracyKeyVote(list));
    assert r == s.(democracyCount := Zeroed(list));
    ZeroedExactly(list);
    if (forall k :: k in list ==> !IsArrayIndex(k)) && NoDuplicates(list) {
      ZeroedOrder(list);
    }
  }

  /** On a key holding `n`, `d[c] = d[c] + 1` stores `n + 1`. */
  lemma IncrementVotes(d: Dict, c: string, n: nat)
    requires Get(d, c) == Some(Votes(n))
    ensures Get(Assign(d, c, Incremented(Get(d, c))), c) == Some(Votes(n + 1))
  {
    var m := n + 1;
    calc {
      Get(Assign(d, c, Incremented(Get(d, c))), c);
      { IncrementAt(d, c); }
      Some(Incremented(Get(d, c)));
      Some(Incremented(Some(Votes(n))));
      Some(Votes(m));
    }
  }

  /** `updateDemocracyKeyVote(c)` assigns `democracyCount[c] + 1` to `c` and changes no other field. */
  lemma ReduceVote(s: GlobalState, c: string)
    ensures Reduce(s, UpdateDemocracyKeyVote(c))
      == s.(democracyCount := Assign(s.democracyCount, c, Incremented(Get(s.democracyCount, c))))
  {
  }

  /**
   * `updateDemocracyKeyVote(c)` for a tracked command: its count goes up by one,
   * every other command keeps its count, the key order is kept, nothing else moves.
   */
  lemma VoteTracked(s: GlobalState, c: string, n: nat)
    requires Get(s.democracyCount, c) == Some(Votes(n))
    ensures var r := Reduce(s, UpdateDemocracyKeyVote(c));
      && Get(r.democracyCount, c) == Some(Votes(n + 1))
      && (forall k :: k != c ==> Get(r.democracyCount, k) == Get(s.democracyCount, k))
      && Keys(r.democracyCount) == Keys(s.democracyCount)
      && r == s.(democracyCount := r.democracyCount)
  {
    ReduceVote(s, c);
    IncrementAt(s.democracyCount, c);
    IncrementVotes(s.democracyCount, c, n);
  }

  /**
   * The missing membership guard: voting for a command the tally does not hold adds
   * it with `undefined + 1`, i.e. `NaN`, and grows the tally by one entry.
   */
  lemma VoteUntracked(s: GlobalState, c: string)
    requires Get(s.democracyCount, c) == None
    ensures var r := Reduce(s, UpdateDemocracyKeyVote(c));
      && Get(r.democracyCount, c) == Some(NaN)
      && (forall k :: k != c ==> Get(r.democracyCount, k) == Get(s.democracyCount, k))
      && |r.democracyCount| == |s.democracyCount| + 1
      && r == s.(democracyCount := r.democracyCount)
  {
    var d := Assign(s.democracyCount, c, NaN);
    assert Reduce(s, UpdateDemocracyKeyVote(c)) == s.(democracyCount := d);
    assert Find(s.democracyCount, c).None?;
    GetAssignAll(s.democracyCount, c, NaN);
  }

  /**
   * `NaN + 1` is `NaN`: once a command holds `NaN` a further vote leaves it there,
   * the tally keeps its keys and every other count, and no other field changes.
   */
  lemma VoteOnNaN(s: GlobalState, c: string)
    requires Get(s.democracyCount, c) == Some(NaN)
    ensures var r := Reduce(s, UpdateDemocracyKeyVote(c));
      && Get(r.democracyCount, c) == Some(NaN)
      && (forall k :: k != c ==> Get(r.democracyCount, k) == Get(s.democracyCount, k))
      && Keys(r.democracyCount) == Keys(s.democracyCount)
      && r == s.(democracyCount := r.democracyCount)
  {
    var d := Assign(s.democracyCount, c, Incremented(Get(s.democracyCount, c)));
    assert Reduce(s, UpdateDemocracyKeyVote(c)) == s.(democracyCount := d);
    IncrementAt(s.democracyCount, c);
  }

  /**
   * A notification raised through `changeNotify` can be closed by hand unless `false`
   * is passed explicitly; passing `true` and passing nothing are the same; only the bar changes.
   */
  lemma NotifyClosableByDefault(s: GlobalState, show: bool, kind: NotifyType, message: string, closable: Option<bool>)
    ensures var r := Reduce(s, NotifyAction(show, kind, message, closable));
      && r == s.(notify := r.notify)
      && r.notify.show == show && r.notify.kind == kind && r.notify.message == message
      && (r.notify.closable <==> closable != Some(false))
    ensures Reduce(s, NotifyAction(show, kind, message, Some(true))) == Reduce(s, NotifyAction(show, kind, message, None))
  {
  }

  /** `stopServer` clears `start` and nothing else. */
  lemma StopOnlyClearsStart(s: GlobalState)
    ensures var r := Reduce(s, StopServer); !r.start && r.(start := s.start) == s
  {
  }

  /**
   * `applyServer(p)`: the session starts in `p`'s initial mode with `p`'s settings;
   * the mode tallies, the command tallies and the notification are kept.
   */
  lemma ApplyServerEffect(s: GlobalState, p: ServerConfig)
    ensures var r := Reduce(s, ApplyServer(p));
      && r.start && r.mode == p.initialMode && r.initialMode == p.initialMode
      && r.modeVote == p.modeVote && r.commandToKey == p.commandToKey
      && r.keyInterval == p.keyInterval && r.keyPressTime == p.keyPressTime && r.twitch.id == p.twitchId
      && r.modeCount == s.modeCount && r.democracyCount == s.democracyCount && r.notify == s.notify
  {
  }

  /** `changeMode` replaces the mode and the mode tallies only. */
  lemma ChangeModeEffect(s: GlobalState, m: Mode, mc: ModeCount)
    ensures var r := Reduce(s, ChangeMode(m, mc));
      r.mode == m && r.modeCount == mc && r == s.(mode := r.mode, modeCount := r.modeCount)
  {
  }

  /** `closeNotify` hides the bar and keeps its colour, text and closability; `changeNotify` replaces it. */
  lemma NotifyEffects(s: GlobalState, n: Notify)
    ensures var r := Reduce(s, CloseNotify);
      && !r.notify.show && r.notify.kind == s.notify.kind && r.notify.message == s.notify.message
      && r.notify.closable == s.notify.closable && r == s.(notify := r.notify)
    ensures Reduce(s, ChangeNotify(n)) == s.(notify := n)
  {
  }

  /** Actions the reducer has no case for leave the state as it is; `loadState` replaces it. */
  lemma UnhandledActions(s: GlobalState, p: ServerConfig, m: Mode, e: CommandEntry, t: GlobalState)
    ensures Reduce(s, StartServer(p)) == s
    ensures Reduce(s, ReceiveModeCommand(m)) == s
    ensures Reduce(s, ReceiveKey(e)) == s
    ensures Reduce(s, LoadState(t)) == t
  {
  }
}
