/**
 * The decision logic of the sagas with their effects stripped: how a chat line is
 * classified, how the democracy winner is resolved, how a mode vote moves the
 * mode, what a received command does in each mode, and what one tick of the
 * dispatch loop does. Each step returns the actions it `put`s, in order, and the
 * key string it hands to the key sender, if any.
 */
module Saga {
  import opened Options
  import opened Text
  import opened Tally
  import opened Reducer

  // ---------------------------------------------------------------- classification

  /** `modeList.includes(text)`, returning the mode named. */
  function ModeOf(text: string): (r: Option<Mode>)
    ensures r.Some? ==> ModeName(r.value) == text
    ensures r.None? ==> forall m :: ModeName(m) != text
  {
    if text == "democracy" then Some(Democracy)
    else if text == "anarchy" then Some(Anarchy)
    else if text == "random" then Some(Random)
    else None
  }

  /** The filter of the chat handler: an enabled entry whose normalized command equals the normalized text. */
  predicate Matches(e: CommandEntry, text: string) {
    Normalize(e.command) == Normalize(text) && e.enable
  }

  /** The filter's callback for the line `text`. */
  function MatchesText(text: string): CommandEntry -> bool {
    (e: CommandEntry) => Matches(e, text)
  }

  /** `entries.filter(p)[0]`, as the position of that element: the first entry satisfying `p`, or none. */
  function FirstWhere(entries: seq<CommandEntry>, p: CommandEntry -> bool): (r: Option<nat>)
    ensures r.Some? ==> r.value < |entries| && p(entries[r.value])
    ensures r.Some? ==> forall j :: 0 <= j < r.value ==> !p(entries[j])
    ensures r.None? ==> forall j :: 0 <= j < |entries| ==> !p(entries[j])
  {
    if entries == [] then None
    else if p(entries[0]) then Some(0)
    else match FirstWhere(entries[1..], p)
      case None => None
      case Some(i) => Some(i + 1)
  }

  datatype Classified = ModeVote(mode: Mode) | Command(entry: CommandEntry) | Ignored

  /** The `PRIVMSG` handler's decision for one chat line, under the settings the session was started with. */
  function Classify(cfg: ServerConfig, message: string): Classified {
    var text := Normalize(message);
    if cfg.modeVote && ModeOf(text).Some? then ModeVote(ModeOf(text).value)
    else match FirstWhere(cfg.commandToKey, MatchesText(text))
      case Some(i) => Command(cfg.commandToKey[i])
      case None => Ignored
  }

  /** A chat line that is one of the three mode names, with mode voting on. */
  predicate IsModeVote(cfg: ServerConfig, message: string) {
    cfg.modeVote && exists m :: ModeName(m) == Normalize(message)
  }

  /** An enabled entry whose command equals the line, both lowercased and trimmed. */
  predicate Hits(e: CommandEntry, message: string) {
    e.enable && Normalize(e.command) == Normalize(message)
  }

  /** Matching against the already normalized line is matching against the line itself. */
  lemma MatchesNormalized(e: CommandEntry, message: string)
    ensures Matches(e, Normalize(message)) == Hits(e, message)
  {
    NormalizeIdempotent(message);
  }

  /** A mode vote exactly when voting is on and the line, lowercased and trimmed, names that mode. */
  lemma ClassifyModeVote(cfg: ServerConfig, message: string, m: Mode)
    ensures Classify(cfg, message) == ModeVote(m) <==> cfg.modeVote && ModeName(m) == Normalize(message)
  {
  }

  /**
   * A command when the line is not a mode vote, and then the first enabled entry whose
   * command matches after lowercasing and trimming both sides.
   */
  lemma ClassifyCommand(cfg: ServerConfig, message: string, e: CommandEntry)
    requires Classify(cfg, message) == Command(e)
    ensures !IsModeVote(cfg, message)
    ensures exists i :: (0 <= i < |cfg.commandToKey| && cfg.commandToKey[i] == e
      && Hits(e, message) && forall j :: 0 <= j < i ==> !Hits(cfg.commandToKey[j], message))
  {
    var text := Normalize(message);
    var es := cfg.commandToKey;
    assert !(cfg.modeVote && ModeOf(text).Some?);
    var i := FirstWhere(es, MatchesText(text)).value;
    assert es[i] == e;
    assert Matches(e, text);
    MatchesNormalized(e, message);
    forall j | 0 <= j < i ensures !Hits(es[j], message) {
      assert !MatchesText(text)(es[j]);
      MatchesNormalized(es[j], message);
    }
  }

  /** The entry a chat line sets off comes from the command table. */
  lemma ClassifyEntryInTable(cfg: ServerConfig, message: string, e: CommandEntry)
    requires Classify(cfg, message) == Command(e)
    ensures e in cfg.commandToKey
  {
    var text := Normalize(message);
    assert !(cfg.modeVote && ModeOf(text).Some?);
    var i := FirstWhere(cfg.commandToKey, MatchesText(text)).value;
    assert cfg.commandToKey[i] == e;
  }

  /** A line that sets nothing off is not a mode vote, and no enabled entry matches it. */
  lemma ClassifyIgnoredOnlyIf(cfg: ServerConfig, message: string)
    requires Classify(cfg, message) == Ignored
    ensures !IsModeVote(cfg, message)
    ensures forall i :: 0 <= i < |cfg.commandToKey| ==> !Hits(cfg.commandToKey[i], message)
  {
    var text := Normalize(message);
    var es := cfg.commandToKey;
    assert !(cfg.modeVote && ModeOf(text).Some?);
    assert FirstWhere(es, MatchesText(text)).None?;
    forall i | 0 <= i < |es| ensures !Hits(es[i], message) {
      assert !MatchesText(text)(es[i]);
      MatchesNormalized(es[i], message);
    }
  }

  /** A line that is not a mode vote and that no enabled entry matches sets nothing off. */
  lemma ClassifyIgnoredIf(cfg: ServerConfig, message: string)
    requires !IsModeVote(cfg, message)
    requires forall i :: 0 <= i < |cfg.commandToKey| ==> !Hits(cfg.commandToKey[i], message)
    ensures Classify(cfg, message) == Ignored
  {
    var text := Normalize(message);
    var es := cfg.commandToKey;
    assert !(cfg.modeVote && ModeOf(text).Some?);
    var r := FirstWhere(es, MatchesText(text));
    if r.Some? {
      assert MatchesText(text)(es[r.value]);
      MatchesNormalized(es[r.value], message);
    }
  }

  // ---------------------------------------------------------------- democracy resolution

  /** JavaScript's `a > b` on tally values: false whenever either side is `NaN`. */
  predicate Greater(a: Count, b: Count) {
    a.Votes? && b.Votes? && a.n > b.n
  }

  /**
   * Position of `sorted[0]`: the entry a stable sort by descending count puts first,
   * found by a left-to-right scan that moves only to a strictly greater count.
   */
  function Leader(d: Dict): (r: nat)
    requires |d| > 0
    ensures r < |d|
    ensures d[0].count.NaN? ==> r == 0
    ensures d[0].count.Votes? ==> d[r].count.Votes?
    ensures d[r].count.Votes? ==> forall j :: 0 <= j < |d| && d[j].count.Votes? ==> d[j].count.n <= d[r].count.n
    ensures d[r].count.Votes? ==> forall j :: 0 <= j < r && d[j].count.Votes? ==> d[j].count.n < d[r].count.n
  {
    if |d| == 1 then 0
    else
      var b := Leader(d[..|d| - 1]);
      if Greater(d[|d| - 1].count, d[b].count) then |d| - 1 else b
  }

  datatype Resolution = NoEntries | NoVotes | Winner(command: string)

  /** `sorted[0][1] > 0` decides whether `sorted[0][0]` wins; an empty tally leaves `sorted[0]` undefined. */
  function Resolve(d: Dict): Resolution {
    if d == [] then NoEntries
    else
      var top := d[Leader(d)];
      if top.count.Votes? && top.count.n > 0 then Winner(top.command) else NoVotes
  }

  predicate AllNumbers(d: Dict) {
    forall i :: 0 <= i < |d| ==> d[i].count.Votes?
  }

  /**
   * The winner holds a positive count that no other numeric count exceeds, and, when
   * every count is a number, is the first entry in enumeration order with the top
   * count; with all counts numbers, there is no winner exactly when every count is 0.
   */
  lemma ResolveSpec(d: Dict)
    ensures Resolve(d) == NoEntries <==> d == []
    ensures Resolve(d).Winner? ==>
      exists i :: (0 <= i < |d| && d[i].command == Resolve(d).command
        && d[i].count.Votes? && d[i].count.n > 0
        && (forall j :: 0 <= j < |d| && d[j].count.Votes? ==> d[j].count.n <= d[i].count.n)
        && (forall j :: 0 <= j < i && d[j].count.Votes? ==> d[j].count.n < d[i].count.n))
    ensures AllNumbers(d) && d != [] ==> (Resolve(d) == NoVotes <==> forall i :: 0 <= i < |d| ==> d[i].count == Votes(0))
  {
    if d != [] {
      var l := Leader(d);
      if AllNumbers(d) && forall i :: 0 <= i < |d| ==> d[i].count == Votes(0) {
        assert d[l].count == Votes(0);
      }
    }
  }

  /** Right after a reset nothing can win: the tally is empty exactly when the list was, and all zero otherwise. */
  lemma ResolveAfterReset(list: seq<string>)
    ensures Resolve(Zeroed(list)) == if list == [] then NoEntries else NoVotes
  {
    var d := Zeroed(list);
    ZeroedExactly(list);
    if list != [] {
      assert list[0] in Keys(d);
      assert d != [];
      assert d[Leader(d)] in d;
    }
  }

  /** `commandToKey.filter((item) => item.command === command)[0].key`: exact, case-sensitive, enabled or not. */
  function KeyOf(entries: seq<CommandEntry>, command: string): (r: Option<string>)
    ensures r.None? <==> forall i :: 0 <= i < |entries| ==> entries[i].command != command
    ensures r.Some? ==>
      exists i :: (0 <= i < |entries| && entries[i].command == command && entries[i].key == r.value
        && forall j :: 0 <= j < i ==> entries[j].command != command)
  {
    match FirstWhere(entries, (e: CommandEntry) => e.command == command)
    case None => None
    case Some(i) => Some(entries[i].key)
  }

  // ---------------------------------------------------------------- lists built by startServer and receiveModeCommand

  /** `startServer`'s `commandList`: every command, lowercased and trimmed. */
  function CommandList(entries: seq<CommandEntry>): seq<string> {
    seq(|entries|, i requires 0 <= i < |entries| => Normalize(entries[i].command))
  }

  /** `startServer`'s `keyList`: every key, lowercased and trimmed, disabled entries included. */
  function KeyList(entries: seq<CommandEntry>): seq<string> {
    seq(|entries|, i requires 0 <= i < |entries| => Normalize(entries[i].key))
  }

  /** `receiveModeCommand`'s `commandList`: every command exactly as configured. */
  function RawCommands(entries: seq<CommandEntry>): seq<string> {
    seq(|entries|, i requires 0 <= i < |entries| => entries[i].command)
  }

  // ---------------------------------------------------------------- random pick

  /** A value of `Math.random()`: a real number in [0, 1). */
  type Draw = u: real | 0.0 <= u < 1.0 witness 0.0

  /** `list[Math.floor(Math.random() * list.length)]`, with the random draw `u` as a parameter. */
  function PickRandom(list: seq<string>, u: Draw): Option<string>
  {
    var i := (u * |list| as real).Floor;
    if 0 <= i < |list| then Some(list[i]) else None
  }

  /** A non-empty list always yields one of its elements; an empty one yields `undefined`. */
  lemma PickRandomInList(list: seq<string>, u: Draw)
    ensures PickRandom(list, u).Some? <==> |list| > 0
    ensures PickRandom(list, u).Some? ==> PickRandom(list, u).value in list
  {
    var n := |list| as real;
    var x := u * n;
    assert 0.0 <= x;
    if |list| > 0 {
      assert x < n;
      assert x.Floor < |list|;
    }
  }

  /** Dividing a count by a larger positive count lands in `[0, 1)`, and multiplying back restores it. */
  lemma FractionOfCount(i: nat, n: nat)
    requires i < n
    ensures var u := i as real / n as real; 0.0 <= u < 1.0 && u * n as real == i as real
  {
    var u := i as real / n as real;
    assert u * n as real == i as real;
    assert i as real < n as real;
  }

  /** Every position of the raw list, duplicates included, is what some draw picks. */
  lemma PickRandomReachesEvery(list: seq<string>, i: nat)
    requires i < |list|
    ensures var u := i as real / |list| as real; 0.0 <= u < 1.0 && PickRandom(list, u) == Some(list[i])
  {
    FractionOfCount(i, |list|);
    var u := i as real / |list| as real;
    assert (u * |list| as real).Floor == i;
  }

  // ---------------------------------------------------------------- receiveKey

  /** What a saga step does: the actions it puts, in order, and the key string it sends, if any. */
  datatype Reaction = Reaction(puts: seq<Action>, send: Option<string>)

  /** `receiveKey`: anarchy sends the entry's key at once, democracy casts a vote, random does nothing. */
  function ReceiveKeyStep(s: GlobalState, e: CommandEntry): Reaction {
    match s.mode
    case Anarchy => Reaction([], Some(e.key))
    case Democracy => Reaction([UpdateDemocracyKeyVote(e.command)], None)
    case Random => Reaction([], None)
  }

  lemma ReceiveKeyByMode(s: GlobalState, e: CommandEntry)
    ensures var r := ReceiveKeyStep(s, e); var t := ReduceAll(s, r.puts);
      && (s.mode == Anarchy ==> r.send == Some(e.key) && t == s)
      && (s.mode == Random ==> r.send == None && t == s)
      && (s.mode == Democracy ==> r.send == None && t == Reduce(s, UpdateDemocracyKeyVote(e.command)))
  {
    ReduceAllShort(s, UpdateDemocracyKeyVote(e.command), StopServer);
  }

  /** In democracy a vote for a tracked command raises that command's count by exactly one and sends nothing. */
  lemma ReceiveKeyDemocracyVote(s: GlobalState, e: CommandEntry, n: nat)
    requires s.mode == Democracy && Get(s.democracyCount, e.command) == Some(Votes(n))
    ensures var r := ReceiveKeyStep(s, e); var t := ReduceAll(s, r.puts);
      && r.send == None
      && Get(t.democracyCount, e.command) == Some(Votes(n + 1))
      && (forall k :: k != e.command ==> Get(t.democracyCount, k) == Get(s.democracyCount, k))
      && t == s.(democracyCount := t.democracyCount)
  {
    ReceiveKeyByMode(s, e);
    VoteTracked(s, e.command, n);
  }

  // ---------------------------------------------------------------- receiveModeCommand

  /** `{...modeCount, [inputMode]: modeCount[inputMode] + 1}` */
  function Bump(mc: ModeCount, m: Mode): ModeCount {
    match m
    case Democracy => mc.(democracy := mc.democracy + 1)
    case Anarchy => mc.(anarchy := mc.anarchy + 1)
    case Random => mc.(random := mc.random + 1)
  }

  /** The three cases of the switch, each comparing the voted mode with the other two. */
  predicate Wins(mc: ModeCount, m: Mode) {
    match m
    case Democracy => mc.democracy >= mc.anarchy && mc.democracy >= mc.random
    case Anarchy => mc.anarchy >= mc.democracy && mc.anarchy >= mc.random
    case Random => mc.random >= mc.anarchy && mc.random >= mc.democracy
  }

  /** `receiveModeCommand(m)`: a transition also resets the tally to the commands as configured. */
  function ModeVotePuts(s: GlobalState, m: Mode): seq<Action> {
    var mc := Bump(s.modeCount, m);
    if Wins(mc, m) then
      [ResetDemocracyKeyVote(RawCommands(s.commandToKey)), ChangeMode(m, mc)]
    else
      [ChangeMode(s.mode, mc)]
  }

  /** The three written-out cases are one rule: the voted mode has at least every mode's count. */
  lemma WinsIsTopOrTied(mc: ModeCount, m: Mode)
    ensures Wins(mc, m) <==> forall m' :: VotesFor(mc, m) >= VotesFor(mc, m')
  {
    if !Wins(mc, m) {
      match m
      case Democracy => assert VotesFor(mc, m) < VotesFor(mc, Anarchy) || VotesFor(mc, m) < VotesFor(mc, Random);
      case Anarchy => assert VotesFor(mc, m) < VotesFor(mc, Democracy) || VotesFor(mc, m) < VotesFor(mc, Random);
      case Random => assert VotesFor(mc, m) < VotesFor(mc, Anarchy) || VotesFor(mc, m) < VotesFor(mc, Democracy);
    }
  }

  /** A vote for `m` adds one to `m`'s count and changes no other mode's count. */
  lemma ModeVoteCounts(s: GlobalState, m: Mode)
    ensures var t := ReduceAll(s, ModeVotePuts(s, m));
      && VotesFor(t.modeCount, m) == VotesFor(s.modeCount, m) + 1
      && (forall m' :: m' != m ==> VotesFor(t.modeCount, m') == VotesFor(s.modeCount, m'))
  {
    var puts := ModeVotePuts(s, m);
    ReduceAllShort(s, puts[0], puts[|puts| - 1]);
  }

  /**
   * The mode becomes `m` exactly when `m`'s new count is at least each other count (so
   * ties favour the vote), and is otherwise unchanged; the command tally is reset to
   * the configured commands on a transition and kept otherwise; nothing else moves.
   */
  lemma ModeVoteSpec(s: GlobalState, m: Mode)
    ensures var t := ReduceAll(s, ModeVotePuts(s, m)); var top := forall m' :: VotesFor(t.modeCount, m) >= VotesFor(t.modeCount, m');
      && t.mode == (if top then m else s.mode)
      && t.democracyCount == (if top then Zeroed(RawCommands(s.commandToKey)) else s.democracyCount)
      && t == s.(mode := t.mode, modeCount := t.modeCount, democracyCount := t.democracyCount)
  {
    var mc := Bump(s.modeCount, m);
    WinsIsTopOrTied(mc, m);
    var raw := RawCommands(s.commandToKey);
    if Wins(mc, m) {
      ReduceAllShort(s, ResetDemocracyKeyVote(raw), ChangeMode(m, mc));
      assert ReduceAll(s, ModeVotePuts(s, m)) == s.(modeCount := mc, mode := m, democracyCount := Zeroed(raw));
    } else {
      ReduceAllShort(s, ChangeMode(s.mode, mc), StopServer);
      assert ReduceAll(s, ModeVotePuts(s, m)) == s.(modeCount := mc);
    }
  }

  /** Mode votes never lower any mode's count. */
  lemma ModeVoteMonotone(s: GlobalState, m: Mode)
    ensures forall m' :: VotesFor(ReduceAll(s, ModeVotePuts(s, m)).modeCount, m') >= VotesFor(s.modeCount, m')
  {
    ModeVoteCounts(s, m);
  }

  /**
   * A tie favours the vote: when the vote for `m` brings it level with `m'`, the highest
   * count, `m` becomes current and the two stay tied.
   */
  lemma TieFavoursVote(s: GlobalState, m: Mode, m': Mode)
    requires m' != m && VotesFor(s.modeCount, m') == VotesFor(s.modeCount, m) + 1
    requires forall x :: VotesFor(s.modeCount, x) <= VotesFor(s.modeCount, m')
    ensures var t := ReduceAll(s, ModeVotePuts(s, m));
      t.mode == m && VotesFor(t.modeCount, m) == VotesFor(t.modeCount, m')
  {
    ModeVoteCounts(s, m);
    ModeVoteSpec(s, m);
  }

  // ---------------------------------------------------------------- errors and the persisted snapshot

  /** What can be thrown inside `startServer`'s `try`. */
  datatype Failure =
    | MissingTwitchId   // the explicit `throw new Error(...)` for an empty Twitch ID
    | EmptyTally        // `sorted[0][1]` with `sorted` empty
    | UnknownWinner     // `filter(...)[0].key` when no entry has the winning command

  /** The `message` of each error; the two `TypeError` texts are the V8 engine's wording. */
  function Message(f: Failure): string {
    match f
    case MissingTwitchId => "Twitch ID未指定"
    case EmptyTally => "Cannot read properties of undefined (reading '1')"
    case UnknownWinner => "Cannot read properties of undefined (reading 'key')"
  }

  const FallbackMessage := "予期せぬエラーが発生しました。"

  /** `errorHandler` followed by `put(stopServer())`, as `startServer`'s `catch` does. */
  function FailurePuts(f: Failure): seq<Action> {
    var m := Message(f);
    [NotifyAction(true, Error, if m == "" then FallbackMessage else m, None), StopServer]
  }

  /** After a failure the session is stopped and an error note the user can close is shown. */
  lemma FailureStops(s: GlobalState, f: Failure)
    ensures var t := ReduceAll(s, FailurePuts(f));
      && !t.start && t.notify == Notify(true, Error, Message(f), true)
      && t == s.(start := false, notify := t.notify)
  {
    var p := FailurePuts(f);
    ReduceAllShort(s, p[0], p[1]);
  }

  /** `saveState`'s record: the current state with `start` off and the mode tallies at zero. */
  function Snapshot(s: GlobalState): GlobalState {
    s.(start := Initial.start, modeCount := Initial.modeCount)
  }

  /** The persisted record never says "running" and never carries mode votes; the rest is the live state. */
  lemma SnapshotSpec(s: GlobalState)
    ensures !Snapshot(s).start && Snapshot(s).modeCount == ModeCount(0, 0, 0)
    ensures Snapshot(s) == s.(start := false, modeCount := ZeroModeCount)
    ensures Snapshot(Snapshot(s)) == Snapshot(s)
    ensures Reduce(s, LoadState(Snapshot(s))) == Snapshot(s)
  {
  }

  // ---------------------------------------------------------------- one tick of the dispatch loop

  datatype Tick =
    | Exit                                          // `start` is false: the loop ends
    | Continue(send: Option<string>, puts: seq<Action>)
    | Throw(failure: Failure)                       // caught by `startServer`'s `catch`

  /** `if (key)`: only a non-empty key string is sent. */
  function Truthy(k: Option<string>): Option<string> {
    if k.Some? && k.value != "" then k else None
  }

  /**
   * The body of `while (isContinue)`: read the state; if the session is running,
   * choose the key for the mode (none in anarchy, the democracy winner's key, or a
   * random pick from the key list), send it when it is non-empty, and in democracy
   * reset the tally to the lowercased command list after a send.
   */
  function TickStep(cfg: ServerConfig, s: GlobalState, u: Draw): Tick
  {
    if !s.start then Exit
    else match s.mode
      case Anarchy => Continue(None, [])
      case Random => Continue(Truthy(PickRandom(KeyList(cfg.commandToKey), u)), [])
      case Democracy =>
        match Resolve(s.democracyCount)
        case NoEntries => Throw(EmptyTally)
        case NoVotes => Continue(None, [])
        case Winner(c) =>
          match KeyOf(cfg.commandToKey, c)
          case None => Throw(UnknownWinner)
          case Some(k) =>
            if k != "" then Continue(Some(k), [ResetDemocracyKeyVote(CommandList(cfg.commandToKey))])
            else Continue(None, [])
  }

  /** A stopped session ends the loop; an anarchy tick does nothing. */
  lemma TickStoppedOrAnarchy(cfg: ServerConfig, s: GlobalState, u: Draw)
    ensures !s.start <==> TickStep(cfg, s, u) == Exit
    ensures s.start && s.mode == Anarchy ==> TickStep(cfg, s, u) == Continue(None, [])
  {
  }

  /** A democracy tick fails on the empty tally, and only there, with the `reading '1'` error. */
  lemma TickDemocracyEmpty(cfg: ServerConfig, s: GlobalState, u: Draw)
    requires s.start && s.mode == Democracy
    ensures TickStep(cfg, s, u) == Throw(EmptyTally) <==> s.democracyCount == []
  {
    ResolveSpec(s.democracyCount);
  }

  /**
   * A democracy tick fails with the `reading 'key'` error exactly when the leading entry
   * holds a positive count and no configured entry has exactly its command.
   */
  lemma TickDemocracyUnknownWinner(cfg: ServerConfig, s: GlobalState, u: Draw)
    requires s.start && s.mode == Democracy
    ensures var d := s.democracyCount;
      TickStep(cfg, s, u) == Throw(UnknownWinner) <==>
        d != [] && d[Leader(d)].count.Votes? && d[Leader(d)].count.n > 0
        && KeyOf(cfg.commandToKey, d[Leader(d)].command).None?
  {
  }

  /** A democracy tick resets the tally, to the lowercased commands, exactly when it sends a key. */
  lemma TickDemocracyReset(cfg: ServerConfig, s: GlobalState, u: Draw)
    requires s.start && s.mode == Democracy
    requires TickStep(cfg, s, u).Continue?
    ensures var t := TickStep(cfg, s, u);
      && (t.puts != [] <==> t.send.Some?)
      && (t.send.Some? ==> t.puts == [ResetDemocracyKeyVote(CommandList(cfg.commandToKey))])
  {
  }

  /**
   * A key sent in democracy is non-empty and belongs to the first entry whose command
   * is exactly a tally key holding a positive count that no numeric count exceeds.
   */
  lemma TickDemocracyWinner(cfg: ServerConfig, s: GlobalState, u: Draw)
    requires s.start && s.mode == Democracy
    requires TickStep(cfg, s, u).Continue? && TickStep(cfg, s, u).send.Some?
    ensures var d, k := s.democracyCount, TickStep(cfg, s, u).send.value;
      && k != ""
      && (exists i :: 0 <= i < |d| && d[i].count.Votes? && d[i].count.n > 0
            && (forall j :: 0 <= j < |d| && d[j].count.Votes? ==> d[j].count.n <= d[i].count.n)
            && KeyOf(cfg.commandToKey, d[i].command) == Some(k))
  {
    ResolveSpec(s.democracyCount);
  }

  /** A random tick sends a non-empty element of the key list, or nothing when the pick is empty or undefined. */
  lemma TickRandom(cfg: ServerConfig, s: GlobalState, u: Draw)
    requires s.start && s.mode == Random
    ensures TickStep(cfg, s, u).Continue? && TickStep(cfg, s, u).puts == []
    ensures var t := TickStep(cfg, s, u); t.send.Some? ==> t.send.value in KeyList(cfg.commandToKey) && t.send.value != ""
    ensures var t := TickStep(cfg, s, u); |cfg.commandToKey| > 0 && (forall e :: e in cfg.commandToKey ==> Normalize(e.key) != "") ==> t.send.Some?
  {
    var l := KeyList(cfg.commandToKey);
    PickRandomInList(l, u);
    if PickRandom(l, u).Some? {
      var k := PickRandom(l, u).value;
      var i :| 0 <= i < |l| && l[i] == k;
      assert cfg.commandToKey[i] in cfg.commandToKey;
    }
  }

  /**
   * The case mismatch between the two resets: after a democracy tick has sent a key, a
   * command whose lowercased, trimmed form differs from it (such as the default "A") is
   * no longer a key of the tally, and the next vote for it stores `NaN`.
   */
  lemma VoteAfterSendIsNaN(cfg: ServerConfig, s: GlobalState, u: Draw, e: CommandEntry)
    requires s.start && s.mode == Democracy
    requires TickStep(cfg, s, u).Continue? && TickStep(cfg, s, u).send.Some?
    requires e.command !in CommandList(cfg.commandToKey)
    ensures var t := ReduceAll(s, TickStep(cfg, s, u).puts);
      Get(Reduce(t, UpdateDemocracyKeyVote(e.command)).democracyCount, e.command) == Some(NaN)
  {
    TickDemocracyReset(cfg, s, u);
    var list := CommandList(cfg.commandToKey);
    var puts := TickStep(cfg, s, u).puts;
    assert puts == [ResetDemocracyKeyVote(list)];
    ReduceAllShort(s, ResetDemocracyKeyVote(list), StopServer);
    var t := Reduce(s, ResetDemocracyKeyVote(list));
    ResetTally(s, list);
    VoteUntracked(t, e.command);
  }

  /** The default table's "A" is one such command. */
  lemma DefaultCommandANotInCommandList()
    ensures Initial.commandToKey[4].command == "A"
    ensures "A" !in CommandList(Initial.commandToKey)
  {
    var l := CommandList(Initial.commandToKey);
    forall i | 0 <= i < |l| ensures l[i] != "A" {
      NormalizeHasNoCapitals(Initial.commandToKey[i].command);
      assert "A"[0] == 'A';
    }
  }

}
