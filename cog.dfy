/**
 * The `Game` cog: a registry of per-guild records, created on a guild's
 * first command, and the handlers that update a record in place. Each
 * handler is proved to have the effect of the matching pure transition of
 * `Lifecycle` on its guild's record and to leave every other record alone.
 */
module Cog {
  import opened Wrappers
  import opened Chat
  import opened Lifecycle
  import Countdown
  import SetupPlan
  import RoleSearch

  const StartingSetupText := "Starting setup"

  /** A guild's record (`gamedata.Data`), whose flags the handlers set in place. */
  class GameData {
    const guild: GuildId
    var setup: bool
    var started: bool
    var showTimer: bool
    var startTime: Option<int>
    var charRoles: seq<string>

    function State(): GameState
      reads this
    {
      GameState(setup, started, showTimer, startTime, charRoles)
    }

    /** `gamedata.Data(guild)`, with the assumed initial values. */
    constructor (guild: GuildId)
      ensures this.guild == guild && State() == Initial
    {
      this.guild := guild;
      setup, started, showTimer := false, false, false;
      startTime := None;
      charRoles := [];
    }

    /** The last line of `setup`. */
    method MarkSetUp()
      modifies this
      ensures State() == old(State()).(setup := true)
    {
      setup := true;
    }

    /**
     * The record side of `start`: the three guards in order, then the start
     * time and the flag.
     */
    method Begin(now: int) returns (outcome: StartOutcome)
      modifies this
      ensures Transition(State(), outcome) == Lifecycle.Start(old(State()), now)
    {
      if !setup {
        return NotSetUp;
      }
      if started {
        return AlreadyBegun;
      }
      if |charRoles| < MinPlayers {
        return NotEnoughPlayers;
      }
      startTime := Some(now);
      started := true;
      outcome := Started;
    }

    /**
     * The body of the `timer` loop for this game: nothing for a game that
     * has not started, is past its deadline or hides its timer; otherwise the
     * countdown text, unless the guild has no `bot-channel` (`blocked`, the
     * lookup error that ends the tick).
     */
    method TimerText(gameLength: int, now: int, channels: GuildId -> set<string>)
      returns (text: Option<string>, blocked: bool)
      requires Consistent(State())
      ensures var d := Countdown.Decide(State(), gameLength, now);
        blocked <==> d.Show? && Countdown.BotChannel !in channels(guild)
      ensures var d := Countdown.Decide(State(), gameLength, now);
        text.Some? <==> d.Show? && !blocked
      ensures text.Some? ==> text.value == Countdown.CountdownText(Countdown.Decide(State(), gameLength, now).remaining)
    {
      text, blocked := None, false;
      if !started {
        return;
      }
      if startTime.value + gameLength < now {
        return;
      }
      var remaining := startTime.value + gameLength - now;
      if showTimer {
        if Countdown.BotChannel !in channels(guild) {
          blocked := true;
          return;
        }
        assert Countdown.Decide(State(), gameLength, now) == Countdown.Show(remaining);
        text := Some(Countdown.CountdownText(remaining));
      }
    }

    /** The record side of the `timer` command: flips `show_timer` and reports its new value. */
    method ToggleShowTimer() returns (shown: bool)
      modifies this
      ensures Transition(State(), shown) == ToggleTimer(old(State()))
    {
      showTimer := !showTimer;
      shown := showTimer;
    }
  }

  /** One game's record per guild, with the guilds in the order they were first seen. */
  class Game {
    var games: map<GuildId, GameData>
    var order: seq<GuildId>
    /** The records, for framing. */
    ghost var repr: set<GameData>

    /**
     * `order` lists each registered guild exactly once, each record belongs
     * to the guild it is filed under (so no two guilds share a record), and
     * every record is consistent.
     */
    ghost predicate Valid()
      reads this, repr
    {
      (forall k :: k in games <==> k in order) &&
      (forall i, j :: 0 <= i < j < |order| ==> order[i] != order[j]) &&
      (forall k :: k in games ==> games[k] in repr && games[k].guild == k && Consistent(games[k].State()))
    }

    /** The record a guild's next command sees: its own, or a fresh initial one. */
    ghost function StateOf(guild: GuildId): GameState
      reads this, repr
    {
      if guild in games && games[guild] in repr then games[guild].State() else Initial
    }

    /** `self.games = {}`. */
    constructor ()
      ensures Valid() && games == map[] && order == []
    {
      games := map[];
      order := [];
      repr := {};
    }

    /**
     * `cog_before_invoke`: `setdefault` returns the guild's record, filing a
     * new initial one (last in iteration order) when the guild has none.
     */
    method BeforeInvoke(guild: GuildId) returns (g: GameData)
      requires Valid()
      modifies this
      ensures Valid()
      ensures guild in games && g == games[guild] && g.State() == old(StateOf(guild))
      ensures guild in old(games) ==> games == old(games) && g == old(games[guild]) && repr == old(repr)
      ensures guild !in old(games) ==> fresh(g) && games == old(games)[guild := g] && repr == old(repr) + {g}
      ensures games.Keys == old(games.Keys) + {guild}
      ensures forall k :: k != guild ==> StateOf(k) == old(StateOf(k))
      ensures order == if guild in old(games) then old(order) else old(order) + [guild]
    {
      if guild in games {
        g := games[guild];
      } else {
        g := new GameData(guild);
        games := games[guild := g];
        order := order + [guild];
        repr := repr + {g};
      }
    }

    /**
     * `setup`: refused with "Game has already begun!" once the game has
     * started; otherwise it announces the set-up, issues the plan of sends,
     * and marks the game set up only if every send went through.
     */
    method Setup(
      guild: GuildId, a: SetupPlan.Assets, pick: nat, characters: seq<string>, motives: seq<int>, channels: set<string>)
      returns (replies: seq<Output>, delivery: Option<SetupPlan.Delivery>)
      requires Valid() && SetupPlan.ValidPick(a, pick)
      modifies this, repr
      ensures Valid()
      ensures old(StateOf(guild)).started ==> replies == [Reply(AlreadyBegunText)] && delivery == None
      ensures !old(StateOf(guild)).started ==>
        replies == [Reply(StartingSetupText)] &&
        delivery == Some(SetupPlan.Deliver(SetupPlan.Plan(a, pick, characters, motives), channels))
      ensures StateOf(guild) == Lifecycle.Setup(old(StateOf(guild)), delivery.Some? && delivery.value.error.None?).next
      ensures forall k :: k != guild ==> StateOf(k) == old(StateOf(k))
      ensures games.Keys == old(games.Keys) + {guild}
      ensures order == if guild in old(games) then old(order) else old(order) + [guild]
    {
      var g := BeforeInvoke(guild);
      if g.started {
        replies, delivery := [Reply(AlreadyBegunText)], None;
        return;
      }
      replies := [Reply(StartingSetupText)];
      var d := SetupPlan.Deliver(SetupPlan.Plan(a, pick, characters, motives), channels);
      delivery := Some(d);
      if d.error.None? {
        MarkSetUp(guild);
      }
    }

    /** The last line of `setup`, on a registered guild's record. */
    method MarkSetUp(guild: GuildId)
      requires Valid() && guild in games && !games[guild].started
      modifies repr
      ensures Valid()
      ensures StateOf(guild) == old(StateOf(guild)).(setup := true)
      ensures forall k :: k != guild ==> StateOf(k) == old(StateOf(k))
    {
      var g := games[guild];
      forall k | k in games && k != guild ensures games[k] != g {
        assert games[k].guild == k;
      }
      g.MarkSetUp();
    }

    /**
     * `start`: checks that the game is set up, not started and has enough
     * claimed roles, replying accordingly; on success records `now` as the
     * start time.
     */
    method Start(guild: GuildId, now: int) returns (reply: string)
      requires Valid()
      modifies this, repr
      ensures Valid()
      ensures reply == StartReply(Lifecycle.Start(old(StateOf(guild)), now).outcome)
      ensures StateOf(guild) == Lifecycle.Start(old(StateOf(guild)), now).next
      ensures forall k :: k != guild ==> StateOf(k) == old(StateOf(k))
      ensures games.Keys == old(games.Keys) + {guild}
      ensures order == if guild in old(games) then old(order) else old(order) + [guild]
    {
      var g := BeforeInvoke(guild);
      var outcome := g.Begin(now);
      forall k | k in games && k != guild ensures games[k] != g {
        assert games[k].guild == k;
      }
      reply := StartReply(outcome);
    }

    /** The `timer` command: flips whether the countdown is shown and says which. */
    method ShowTime(guild: GuildId) returns (reply: string)
      requires Valid()
      modifies this, repr
      ensures Valid()
      ensures reply == TimerReply(ToggleTimer(old(StateOf(guild))).outcome)
      ensures StateOf(guild) == ToggleTimer(old(StateOf(guild))).next
      ensures forall k :: k != guild ==> StateOf(k) == old(StateOf(k))
      ensures games.Keys == old(games.Keys) + {guild}
      ensures order == if guild in old(games) then old(order) else old(order) + [guild]
    {
      var g := BeforeInvoke(guild);
      var shown := g.ToggleShowTimer();
      forall k | k in games && k != guild ensures games[k] != g {
        assert games[k].guild == k;
      }
      reply := TimerReply(shown);
    }

    /**
     * `search` (as corrected under the findings): resolves the member's
     * character from their roles and posts the picked card to its clue
     * channel; no record changes beyond the guild's registration.
     */
    method Search(
      guild: GuildId, roles: seq<string>, characters: set<string>, cards: seq<string>, pick: nat, channels: set<string>)
      returns (r: RoleSearch.SearchResult)
      requires Valid() && (cards != [] ==> pick < |cards|)
      modifies this
      ensures Valid()
      ensures r == RoleSearch.SearchOutcome(
        old(StateOf(guild)).started, RoleSearch.FirstCharacterRole(roles, characters), cards, pick, channels)
      ensures forall k :: StateOf(k) == old(StateOf(k))
      ensures games.Keys == old(games.Keys) + {guild}
      ensures order == if guild in old(games) then old(order) else old(order) + [guild]
    {
      var g := BeforeInvoke(guild);
      if !g.started {
        return RoleSearch.SearchResult([Reply(RoleSearch.NotStartedText)], None);
      }
      var character := RoleSearch.ResolveCharacter(roles, characters);
      if character.None? {
        return RoleSearch.SearchResult([Reply(RoleSearch.NoRoleText)], None);
      }
      if cards == [] {
        return RoleSearch.SearchResult([], Some(RoleSearch.NoSearchCards));
      }
      var channel := character.value + ClueSuffix;
      if channel !in channels {
        return RoleSearch.SearchResult([], Some(RoleSearch.MissingChannel(channel)));
      }
      r := RoleSearch.SearchResult([Post(channel, SearchCard(cards[pick]))], None);
    }

    /** The registered games as (guild, record) entries, in iteration order. */
    ghost function Entries(): (es: seq<Countdown.Entry>)
      requires Valid()
      reads this, repr
      ensures |es| == |order|
      ensures forall i :: 0 <= i < |order| ==> es[i] == Countdown.Entry(order[i], StateOf(order[i]))
      ensures Countdown.AllConsistent(es)
    {
      seq(|order|, i reads this, repr requires 0 <= i < |order| => Countdown.Entry(order[i], StateOf(order[i])))
    }

    /**
     * One tick of the `timer` loop, walking the games in registration order:
     * the countdown texts it posts and the guild whose missing `bot-channel`
     * ended the tick, if any, as the countdown model of the registry says.
     */
    method Timer(gameLength: int, now: int, channels: GuildId -> set<string>)
      returns (emitted: seq<Countdown.Emitted>, failed: Option<GuildId>)
      requires Valid()
      ensures Countdown.TickResult(emitted, failed) == Countdown.Tick(Entries(), gameLength, now, channels)
    {
      ghost var es := Entries();
      emitted, failed := [], None;
      var i := 0;
      Countdown.TickBegins(es, gameLength, now, channels);
      while i < |order|
        invariant 0 <= i <= |order|
        invariant Countdown.TickedUpTo(es, i, emitted, gameLength, now, channels)
      {
        var game := games[order[i]];
        assert es[i] == Countdown.Entry(game.guild, game.State());
        var text, blocked := game.TimerText(gameLength, now, channels);
        if blocked {
          Countdown.TickBlocks(es, i, emitted, gameLength, now, channels);
          failed := Some(game.guild);
          return;
        }
        if text.Some? {
          var post := Countdown.Emitted(game.guild, text.value);
          Countdown.TickPosts(es, i, emitted, post, gameLength, now, channels);
          emitted := emitted + [post];
        } else {
          Countdown.TickSkips(es, i, emitted, gameLength, now, channels);
        }
        i := i + 1;
      }
      Countdown.TickEnds(es, i, emitted, gameLength, now, channels);
    }
  }
}
