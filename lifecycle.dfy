/**
 * The per-guild game record and what the `setup`, `start` and `timer`
 * commands do to it, as pure transitions. Every transition leaves the
 * record consistent (a started game has been set up and has a start time),
 * and a refused command leaves it exactly as it was.
 */
module Lifecycle {
  import opened Wrappers
  import opened Chat

  /** `start` refuses a game with fewer claimed character roles than this. */
  const MinPlayers := 3

  datatype GameState = GameState(
    setup: bool,
    started: bool,
    showTimer: bool,
    startTime: Option<int>,   // seconds; None until the game starts
    charRoles: seq<string>)

  /**
   * The record a guild gets on its first command. `gamedata.Data` is not part
   * of this model: these initial values are an assumption.
   */
  const Initial := GameState(false, false, false, None, [])

  /** The record invariant: only a set-up game starts, and only a started game has a start time. */
  predicate Consistent(s: GameState) {
    (s.started ==> s.setup) && (s.started <==> s.startTime.Some?)
  }

  /** A command's effect on the record together with what it reports. */
  datatype Transition<O> = Transition(next: GameState, outcome: O)

  // -----------------------------------------------------------------------
  // start
  // -----------------------------------------------------------------------

  datatype StartOutcome = NotSetUp | AlreadyBegun | NotEnoughPlayers | Started

  /**
   * `start`: checks, in this order, that the game is set up, not yet
   * started and has at least `MinPlayers` claimed roles; only then records
   * `now` as the start time.
   */
  function Start(s: GameState, now: int): (t: Transition<StartOutcome>)
    ensures t.outcome == Started <==> s.setup && !s.started && |s.charRoles| >= MinPlayers
    ensures t.outcome == NotSetUp <==> !s.setup
    ensures t.outcome == AlreadyBegun <==> s.setup && s.started
    ensures t.outcome != Started ==> t.next == s
    ensures t.outcome == Started ==> t.next == s.(started := true, startTime := Some(now))
  {
    if !s.setup then Transition(s, NotSetUp)
    else if s.started then Transition(s, AlreadyBegun)
    else if |s.charRoles| < MinPlayers then Transition(s, NotEnoughPlayers)
    else Transition(s.(startTime := Some(now), started := true), Started)
  }

  function StartReply(o: StartOutcome): string {
    match o
    case NotSetUp => "Can't start before setting up!"
    case AlreadyBegun => AlreadyBegunText
    case NotEnoughPlayers => "Not enough players"
    case Started => "Starting the game!"
  }

  /** A second `start` after a successful one is refused and changes nothing. */
  lemma StartTwice(s: GameState, now: int, later: int)
    requires Start(s, now).outcome == Started
    ensures Start(Start(s, now).next, later) == Transition(Start(s, now).next, AlreadyBegun)
  {
  }

  /** The player gate: two claimed roles are refused, three are enough. */
  lemma MinPlayerGate(s: GameState, now: int)
    requires s.setup && !s.started
    ensures |s.charRoles| == 2 ==> Start(s, now).outcome == NotEnoughPlayers
    ensures |s.charRoles| == 3 ==> Start(s, now).outcome == Started
  {
  }

  // -----------------------------------------------------------------------
  // setup
  // -----------------------------------------------------------------------

  datatype SetupOutcome = SetupRefused | SetupAborted | SetupDone

  /**
   * The state effect of `setup`: refused once the game has started (the
   * guard tests `started`, not `setup`, so a repeated set-up before the start
   * is allowed); otherwise `setup` becomes true, unless the handler raised
   * before reaching its last line (`delivered` is false).
   */
  function Setup(s: GameState, delivered: bool): (t: Transition<SetupOutcome>)
    ensures t.outcome == SetupRefused <==> s.started
    ensures t.outcome == SetupDone <==> !s.started && delivered
    ensures t.outcome != SetupDone ==> t.next == s
    ensures t.outcome == SetupDone ==> t.next == s.(setup := true)
  {
    if s.started then Transition(s, SetupRefused)
    else if !delivered then Transition(s, SetupAborted)
    else Transition(s.(setup := true), SetupDone)
  }

  /** Repeating a completed set-up before the start keeps the game set up. */
  lemma SetupRepeatable(s: GameState)
    requires !s.started
    ensures Setup(Setup(s, true).next, true) == Transition(s.(setup := true), SetupDone)
  {
  }

  // -----------------------------------------------------------------------
  // timer (show/hide)
  // -----------------------------------------------------------------------

  /** `timer`: flips `show_timer` and reports its new value. */
  function ToggleTimer(s: GameState): Transition<bool> {
    Transition(s.(showTimer := !s.showTimer), !s.showTimer)
  }

  function TimerReply(shown: bool): string {
    if shown then "Showing bot timer!" else "Hiding bot timer!"
  }

  /** Toggling changes `show_timer` only, and toggling twice restores the record. */
  lemma ToggleTimerFacts(s: GameState)
    ensures ToggleTimer(s).next.showTimer == !s.showTimer
    ensures ToggleTimer(s).next.(showTimer := s.showTimer) == s
    ensures ToggleTimer(ToggleTimer(s).next).next == s
  {
  }

  // -----------------------------------------------------------------------
  // Sequences of commands
  // -----------------------------------------------------------------------

  /** The commands as far as the record is concerned (`search` never changes it). */
  datatype Command = SetupCmd(delivered: bool) | StartCmd(now: int) | TimerCmd | SearchCmd

  function Apply(s: GameState, c: Command): GameState {
    match c
    case SetupCmd(delivered) => Setup(s, delivered).next
    case StartCmd(now) => Start(s, now).next
    case TimerCmd => ToggleTimer(s).next
    case SearchCmd => s
  }

  function Run(s: GameState, cs: seq<Command>): GameState
    decreases |cs|
  {
    if cs == [] then s else Run(Apply(s, cs[0]), cs[1..])
  }

  /** Every command keeps the record invariant. */
  lemma ApplyConsistent(s: GameState, c: Command)
    requires Consistent(s)
    ensures Consistent(Apply(s, c))
  {
  }

  /** Every sequence of commands keeps the record invariant. */
  lemma {:induction false} RunConsistent(s: GameState, cs: seq<Command>)
    requires Consistent(s)
    ensures Consistent(Run(s, cs))
    decreases |cs|
  {
    if cs != [] {
      ApplyConsistent(s, cs[0]);
      RunConsistent(Apply(s, cs[0]), cs[1..]);
    }
  }

  /**
   * `setup` and `started` are never reset, the start time is recorded once,
   * and no command changes the claimed roles.
   */
  lemma {:induction false} RunMonotone(s: GameState, cs: seq<Command>)
    ensures s.setup ==> Run(s, cs).setup
    ensures s.started ==> Run(s, cs).started && Run(s, cs).startTime == s.startTime
    ensures Run(s, cs).charRoles == s.charRoles
    decreases |cs|
  {
    if cs != [] {
      RunMonotone(Apply(s, cs[0]), cs[1..]);
    }
  }

  /**
   * Nothing in the game module adds claimed roles, so a game whose record
   * starts with fewer than `MinPlayers` of them never starts; with the
   * assumed initial record this holds for every guild.
   */
  lemma {:induction false} NeverStartsWithoutPlayers(s: GameState, cs: seq<Command>)
    requires !s.started && |s.charRoles| < MinPlayers
    ensures !Run(s, cs).started
    decreases |cs|
  {
    if cs != [] {
      NeverStartsWithoutPlayers(Apply(s, cs[0]), cs[1..]);
    }
  }

  lemma InitialNeverStarts(cs: seq<Command>)
    ensures Consistent(Run(Initial, cs)) && !Run(Initial, cs).started
  {
    RunConsistent(Initial, cs);
    NeverStartsWithoutPlayers(Initial, cs);
  }
}
