/**
 * The countdown loop: on every tick, for each registered game in
 * registration order, decide whether to post the remaining time and format
 * it as zero-padded minutes and seconds in the guild's `bot-channel`.
 * Time is in whole seconds and one clock reading `now` serves a whole tick.
 */
module Countdown {
  import opened Wrappers
  import opened Text
  import opened Chat
  import opened Lifecycle

  const BotChannel := "bot-channel"

  datatype Decision = NotStarted | Over | Hidden(remaining: nat) | Show(remaining: nat)

  /**
   * One game on one tick. A game past `start_time + GAME_LENGTH` is skipped,
   * but the deadline itself still counts down to zero.
   */
  function Decide(s: GameState, gameLength: int, now: int): (d: Decision)
    requires Consistent(s)
    ensures d.NotStarted? <==> !s.started
    ensures d.Over? <==> s.started && s.startTime.value + gameLength < now
    ensures d.Show? <==> s.started && now <= s.startTime.value + gameLength && s.showTimer
    ensures (d.Show? || d.Hidden?) ==> d.remaining == s.startTime.value + gameLength - now
  {
    if !s.started then NotStarted
    else if s.startTime.value + gameLength < now then Over
    else
      var remaining := s.startTime.value + gameLength - now;
      if s.showTimer then Show(remaining) else Hidden(remaining)
  }

  /**
   * `f"{str(int(r // 60)).zfill(2)}:{str(int(r % 60)).zfill(2)}"`. Python's
   * `//` and `%` by 60 floor, as Dafny's do for a positive divisor.
   */
  function CountdownText(remaining: int): string {
    ZFill(IntStr(remaining / 60), 2) + ":" + ZFill(IntStr(remaining % 60), 2)
  }

  /** Reads an "M…M:SS" text back into seconds (the partner of `CountdownText`). */
  function ParseCountdown(t: string): Option<nat> {
    if |t| >= 4 && t[|t| - 3] == ':' && AllDigits(t[..|t| - 3]) && AllDigits(t[|t| - 2..]) then
      Some(60 * DecimalValue(t[..|t| - 3]) + DecimalValue(t[|t| - 2..]))
    else None
  }

  /**
   * The text for a non-negative remaining time: at least two digits of
   * minutes, a colon, and exactly two digits of seconds below 60; five
   * characters in all exactly when fewer than 100 minutes remain.
   */
  lemma {:induction false} CountdownFields(remaining: nat)
    ensures var t := CountdownText(remaining);
      |t| >= 5 && t[|t| - 3] == ':' &&
      AllDigits(t[..|t| - 3]) && AllDigits(t[|t| - 2..]) &&
      DecimalValue(t[..|t| - 3]) == remaining / 60 &&
      DecimalValue(t[|t| - 2..]) == remaining % 60 < 60 &&
      (|t| == 5 <==> remaining < 6000)
  {
    var m, s := NatStr(remaining / 60), NatStr(remaining % 60);
    assert IntStr(remaining / 60) == m && IntStr(remaining % 60) == s;
    var mm, ss := ZFill(m, 2), ZFill(s, 2);
    ZFillDigits(m, 2);
    ZFillDigits(s, 2);
    var t := mm + ":" + ss;
    assert |ss| == 2;
    assert t[..|t| - 3] == mm && t[|t| - 2..] == ss && t[|t| - 3] == ':';
    assert |mm| == 2 <==> remaining / 60 < 100;
  }

  /** A text with a digit field of `m`, a colon and two digits of `s` parses to `60 * m + s`. */
  lemma ParseFields(t: string, m: nat, s: nat)
    requires |t| >= 4 && t[|t| - 3] == ':' && AllDigits(t[..|t| - 3]) && AllDigits(t[|t| - 2..])
    requires DecimalValue(t[..|t| - 3]) == m && DecimalValue(t[|t| - 2..]) == s
    ensures ParseCountdown(t) == Some(60 * m + s)
  {
  }

  /** Formatting then parsing gives back the remaining seconds. */
  lemma CountdownRoundTrip(remaining: nat)
    ensures ParseCountdown(CountdownText(remaining)) == Some(remaining)
  {
    CountdownFields(remaining);
    ParseFields(CountdownText(remaining), remaining / 60, remaining % 60);
  }

  /** 1700 seconds left (a 5400-second game, 3700 seconds in) read "28:20"; the deadline reads "00:00". */
  lemma CountdownExamples()
    ensures CountdownText(1700) == "28:20"
    ensures CountdownText(0) == "00:00"
  {
    assert NatStr(28) == "28" && NatStr(20) == "20" && NatStr(0) == "0";
  }

  // -----------------------------------------------------------------------
  // One tick over the registry
  // -----------------------------------------------------------------------

  /** A registered game as the loop sees it. */
  datatype Entry = Entry(guild: GuildId, state: GameState)

  datatype Emitted = Emitted(guild: GuildId, text: string)

  /** What a tick posted, and the guild whose missing `bot-channel` ended it early, if any. */
  datatype TickResult = TickResult(emitted: seq<Emitted>, failed: Option<GuildId>)

  predicate AllConsistent(es: seq<Entry>) {
    forall i :: 0 <= i < |es| ==> Consistent(es[i].state)
  }

  /**
   * `timer`: walks the games in order; a game to show whose guild has no
   * `bot-channel` raises a lookup error that ends the tick.
   */
  function Tick(es: seq<Entry>, gameLength: int, now: int, channels: GuildId -> set<string>): (r: TickResult)
    requires AllConsistent(es)
    decreases |es|
  {
    if es == [] then TickResult([], None)
    else
      var rest := Tick(es[1..], gameLength, now, channels);
      match Decide(es[0].state, gameLength, now)
      case Show(remaining) =>
        if BotChannel in channels(es[0].guild) then
          TickResult([Emitted(es[0].guild, CountdownText(remaining))] + rest.emitted, rest.failed)
        else TickResult([], Some(es[0].guild))
      case _ => rest
  }

  /** One step of a tick, at position `i` of the registry. */
  lemma TickStep(es: seq<Entry>, i: nat, gameLength: int, now: int, channels: GuildId -> set<string>)
    requires AllConsistent(es) && i < |es|
    ensures AllConsistent(es[i + 1..])
    ensures var d := Decide(es[i].state, gameLength, now);
      var rest := Tick(es[i + 1..], gameLength, now, channels);
      Tick(es[i..], gameLength, now, channels) ==
        if !d.Show? then rest
        else if BotChannel in channels(es[i].guild) then
          TickResult([Emitted(es[i].guild, CountdownText(d.remaining))] + rest.emitted, rest.failed)
        else TickResult([], Some(es[i].guild))
  {
    assert es[i..][0] == es[i] && es[i..][1..] == es[i + 1..];
  }

  /**
   * Part way through a tick: the first `i` games have posted `emitted`, and
   * what the rest of the registry yields completes the whole tick.
   */
  predicate TickedUpTo(
    es: seq<Entry>, i: nat, emitted: seq<Emitted>, gameLength: int, now: int, channels: GuildId -> set<string>)
    requires AllConsistent(es)
  {
    i <= |es| &&
    var rest := Tick(es[i..], gameLength, now, channels);
    Tick(es, gameLength, now, channels) == TickResult(emitted + rest.emitted, rest.failed)
  }

  /** Nothing has been posted before the first game. */
  lemma TickBegins(es: seq<Entry>, gameLength: int, now: int, channels: GuildId -> set<string>)
    requires AllConsistent(es)
    ensures TickedUpTo(es, 0, [], gameLength, now, channels)
  {
    assert es[0..] == es;
  }

  /** Past the last game, what was posted is the whole tick, and it ended normally. */
  lemma TickEnds(
    es: seq<Entry>, i: nat, emitted: seq<Emitted>, gameLength: int, now: int, channels: GuildId -> set<string>)
    requires AllConsistent(es) && i == |es| && TickedUpTo(es, i, emitted, gameLength, now, channels)
    ensures Tick(es, gameLength, now, channels) == TickResult(emitted, None)
  {
    assert es[i..] == [];
    assert emitted + [] == emitted;
  }

  /** Game `i` of a tick is not to be shown: the loop passes over it. */
  lemma TickSkips(
    es: seq<Entry>, i: nat, emitted: seq<Emitted>, gameLength: int, now: int, channels: GuildId -> set<string>)
    requires AllConsistent(es) && i < |es| && TickedUpTo(es, i, emitted, gameLength, now, channels)
    requires !Decide(es[i].state, gameLength, now).Show?
    ensures TickedUpTo(es, i + 1, emitted, gameLength, now, channels)
  {
    TickStep(es, i, gameLength, now, channels);
  }

  /** Game `i` of a tick is to be shown and its guild has a `bot-channel`: the loop posts its countdown. */
  lemma TickPosts(
    es: seq<Entry>, i: nat, emitted: seq<Emitted>, post: Emitted,
    gameLength: int, now: int, channels: GuildId -> set<string>)
    requires AllConsistent(es) && i < |es| && TickedUpTo(es, i, emitted, gameLength, now, channels)
    requires Decide(es[i].state, gameLength, now).Show? && BotChannel in channels(es[i].guild)
    requires post == Emitted(es[i].guild, CountdownText(Decide(es[i].state, gameLength, now).remaining))
    ensures TickedUpTo(es, i + 1, emitted + [post], gameLength, now, channels)
  {
    TickStep(es, i, gameLength, now, channels);
    var rest := Tick(es[i + 1..], gameLength, now, channels);
    assert emitted + ([post] + rest.emitted) == emitted + [post] + rest.emitted;
  }

  /** Game `i` of a tick is to be shown but its guild has no `bot-channel`: the tick ends with that guild. */
  lemma TickBlocks(
    es: seq<Entry>, i: nat, emitted: seq<Emitted>, gameLength: int, now: int, channels: GuildId -> set<string>)
    requires AllConsistent(es) && i < |es| && TickedUpTo(es, i, emitted, gameLength, now, channels)
    requires Decide(es[i].state, gameLength, now).Show? && BotChannel !in channels(es[i].guild)
    ensures Tick(es, gameLength, now, channels) == TickResult(emitted, Some(es[i].guild))
  {
    TickStep(es, i, gameLength, now, channels);
    assert emitted + [] == emitted;
  }

  /** The reference: the posts of the games to show, in order, ignoring channel lookups. */
  function Shown(es: seq<Entry>, gameLength: int, now: int): seq<Emitted>
    requires AllConsistent(es)
    decreases |es|
  {
    if es == [] then []
    else
      var d := Decide(es[0].state, gameLength, now);
      (if d.Show? then [Emitted(es[0].guild, CountdownText(d.remaining))] else []) +
      Shown(es[1..], gameLength, now)
  }

  predicate CanShow(e: Entry, gameLength: int, now: int, channels: GuildId -> set<string>)
    requires Consistent(e.state)
  {
    Decide(e.state, gameLength, now).Show? ==> BotChannel in channels(e.guild)
  }

  lemma {:induction false} ShownAppend(a: seq<Entry>, b: seq<Entry>, gameLength: int, now: int)
    requires AllConsistent(a) && AllConsistent(b)
    ensures AllConsistent(a + b)
    ensures Shown(a + b, gameLength, now) == Shown(a, gameLength, now) + Shown(b, gameLength, now)
    decreases |a|
  {
    if a != [] {
      assert (a + b)[0] == a[0] && (a + b)[1..] == a[1..] + b;
      ShownAppend(a[1..], b, gameLength, now);
    } else {
      assert a + b == b;
    }
  }

  /** Where a tick stops: the first game to show whose guild has no `bot-channel`, or the end. */
  function FirstBlocked(es: seq<Entry>, gameLength: int, now: int, channels: GuildId -> set<string>): (k: nat)
    requires AllConsistent(es)
    ensures k <= |es|
    ensures forall i :: 0 <= i < k ==> CanShow(es[i], gameLength, now, channels)
    ensures k < |es| ==> !CanShow(es[k], gameLength, now, channels)
    decreases |es|
  {
    if es == [] || !CanShow(es[0], gameLength, now, channels) then 0
    else 1 + FirstBlocked(es[1..], gameLength, now, channels)
  }

  /**
   * A tick posts the reference posts of the games before the first guild to
   * show that has no `bot-channel`, and fails on exactly that guild; with no
   * such guild it posts the reference posts of all games.
   */
  lemma {:induction false} TickMeaning(es: seq<Entry>, gameLength: int, now: int, channels: GuildId -> set<string>)
    requires AllConsistent(es)
    ensures var k := FirstBlocked(es, gameLength, now, channels);
      var r := Tick(es, gameLength, now, channels);
      AllConsistent(es[..k]) &&
      r.emitted == Shown(es[..k], gameLength, now) &&
      r.failed == (if k < |es| then Some(es[k].guild) else None)
    decreases |es|
  {
    if es != [] {
      if CanShow(es[0], gameLength, now, channels) {
        var tail := es[1..];
        var k := FirstBlocked(tail, gameLength, now, channels);
        TickMeaning(tail, gameLength, now, channels);
        TickHead(es, gameLength, now, channels);
        PrefixHead(es, k);
        ShownAppend([es[0]], tail[..k], gameLength, now);
      } else {
        assert es[..0] == [];
      }
    }
  }

  /** A tick over games whose first game can be shown: that game's reference post comes first. */
  lemma TickHead(es: seq<Entry>, gameLength: int, now: int, channels: GuildId -> set<string>)
    requires AllConsistent(es) && es != [] && CanShow(es[0], gameLength, now, channels)
    ensures AllConsistent(es[1..]) && AllConsistent([es[0]])
    ensures FirstBlocked(es, gameLength, now, channels) == 1 + FirstBlocked(es[1..], gameLength, now, channels)
    ensures Tick(es, gameLength, now, channels) ==
      TickResult(
        Shown([es[0]], gameLength, now) + Tick(es[1..], gameLength, now, channels).emitted,
        Tick(es[1..], gameLength, now, channels).failed)
  {
    assert [es[0]][1..] == [];
  }

  lemma PrefixHead(es: seq<Entry>, k: nat)
    requires k < |es|
    ensures es[..k + 1] == [es[0]] + es[1..][..k]
    ensures k + 1 < |es| ==> es[k + 1] == es[1..][k]
  {
  }

  /** With a `bot-channel` wherever one is needed, a tick fails nowhere and posts the reference posts. */
  lemma TickComplete(es: seq<Entry>, gameLength: int, now: int, channels: GuildId -> set<string>)
    requires AllConsistent(es)
    requires forall i :: 0 <= i < |es| ==> CanShow(es[i], gameLength, now, channels)
    ensures Tick(es, gameLength, now, channels) == TickResult(Shown(es, gameLength, now), None)
  {
    TickMeaning(es, gameLength, now, channels);
    var k := FirstBlocked(es, gameLength, now, channels);
    assert k == |es|;
    assert es[..k] == es;
  }

  /** Some game of `es` is shown, and `m` is its post. */
  predicate ShowsSome(es: seq<Entry>, m: Emitted, gameLength: int, now: int)
    requires AllConsistent(es)
  {
    exists i :: 0 <= i < |es| && es[i].guild == m.guild && ShowsAs(es[i].state, m.text, gameLength, now)
  }

  predicate ShowsAs(s: GameState, text: string, gameLength: int, now: int)
    requires Consistent(s)
  {
    Decide(s, gameLength, now).Show? && text == CountdownText(Decide(s, gameLength, now).remaining)
  }

  /**
   * Nothing is posted for a game that has not started, is past its deadline
   * or hides its timer; each post carries the remaining time of its game.
   */
  lemma {:induction false} ShownOnlyVisible(es: seq<Entry>, gameLength: int, now: int)
    requires AllConsistent(es)
    ensures forall m :: m in Shown(es, gameLength, now) ==> ShowsSome(es, m, gameLength, now)
    decreases |es|
  {
    if es != [] {
      var tail := es[1..];
      ShownOnlyVisible(tail, gameLength, now);
      assert forall i :: 1 <= i < |es| ==> es[i] == tail[i - 1];
      forall m | m in Shown(es, gameLength, now)
        ensures ShowsSome(es, m, gameLength, now)
      {
        if m !in Shown(tail, gameLength, now) {
          assert es[0].guild == m.guild && ShowsAs(es[0].state, m.text, gameLength, now);
        } else {
          var j :| 0 <= j < |tail| && tail[j].guild == m.guild && ShowsAs(tail[j].state, m.text, gameLength, now);
          assert es[j + 1] == tail[j];
        }
      }
    }
  }

  // -----------------------------------------------------------------------
  // The clock as the source reads it: twice
  // -----------------------------------------------------------------------

  /**
   * The tick as written: the deadline test reads the clock (`now1`) and the
   * remaining time reads it again (`now2`).
   */
  function TextAsWritten(s: GameState, gameLength: int, now1: int, now2: int): Option<string>
    requires Consistent(s)
  {
    if !s.started then None
    else if s.startTime.value + gameLength < now1 then None
    else if s.showTimer then Some(CountdownText(s.startTime.value + gameLength - now2))
    else None
  }

  /** If the deadline passes between the two readings, the posted countdown is negative. */
  lemma TimerSecondReadGoesNegative()
    ensures TextAsWritten(GameState(true, true, true, Some(0), []), 5400, 5400, 5401) == Some("-1:59")
  {
    assert -1 / 60 == -1 && -1 % 60 == 59;
    assert NatStr(1) == "1" && NatStr(59) == "59";
    assert IntStr(-1) == "-1" && IntStr(59) == "59";
    assert ZFill("-1", 2) == "-1" && ZFill("59", 2) == "59";
    assert CountdownText(-1) == "-1" + ":" + "59";
    assert "-1" + ":" + "59" == "-1:59";
    var s := GameState(true, true, true, Some(0), []);
    assert TextAsWritten(s, 5400, 5400, 5401) == Some(CountdownText(-1));
  }

  lemma RunningShows(s: GameState, gameLength: int, now: int)
    requires Consistent(s) && s.started && s.showTimer && now <= s.startTime.value + gameLength
    ensures Decide(s, gameLength, now).Show?
    ensures TextAsWritten(s, gameLength, now, now) == Some(CountdownText(Decide(s, gameLength, now).remaining))
  {
    assert Decide(s, gameLength, now) == Show(s.startTime.value + gameLength - now);
  }

  /**
   * With one reading per tick, the as-written tick posts the same text the
   * model does, and every text posted is a well-formed non-negative countdown.
   */
  lemma OneReadingSuffices(s: GameState, gameLength: int, now: int)
    requires Consistent(s)
    ensures var d := Decide(s, gameLength, now);
      TextAsWritten(s, gameLength, now, now) == (if d.Show? then Some(CountdownText(d.remaining)) else None)
    ensures var d := Decide(s, gameLength, now);
      d.Show? ==> ParseCountdown(CountdownText(d.remaining)) == Some(d.remaining)
  {
    var d := Decide(s, gameLength, now);
    if d.Show? {
      assert s.started && s.showTimer && now <= s.startTime.value + gameLength;
      RunningShows(s, gameLength, now);
      CountdownRoundTrip(d.remaining);
    } else {
      assert TextAsWritten(s, gameLength, now, now) == None;
    }
  }
}
