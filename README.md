# Game cog of the White-Rabbit bot, modelled in Dafny

The bot runs the murder-mystery game "Alice is Missing" on a Discord server
("guild"). Its `Game` cog keeps one game record per guild. The record is
created the first time the guild issues a command. Three of the cog's handlers
change the record in place:

- `setup` posts the game material to the guild's channels, then marks the
  game set up. Its guard tests `started`, not `setup` (game.py:43), so a
  `setup` repeated before `start` issues every send again.
- `start` starts a set-up game that has enough players.
- `timer` turns the on-screen countdown on or off.

`search` changes no record. It is meant to post a random "Searching" card to
the clue channel of the member's character. As written it never posts one:
the card draw raises (game.py:161, see Findings).

A periodic loop posts each running game's remaining time, as `MM:SS`, to the
guild's `bot-channel`.

The project models that core:

- `Lifecycle` (lifecycle.dfy) states each handler's effect on a record as a
  pure transition. It proves that every handler keeps the record invariant
  (a started game is set up and has a start time) and that a refused handler
  changes nothing. It also proves what any sequence of commands can and
  cannot do.
- `Cog` (cog.dfy) has the classes that hold the state:
  - `GameData` is one guild's record, with fields its methods update in place.
  - `Game` is the registry: a map from guild to record, plus the guilds in
    the order they were first seen (Python's dict order).
  - Each handler is proved to have the effect of its `Lifecycle` transition
    on its own guild's record and to leave every other record alone.
  - The `timer` loop is proved to compute `Countdown.Tick` over the registry.
- `Countdown` (countdown.dfy) covers the countdown:
  - the per-game decision (not started, over, hidden, shown);
  - the `MM:SS` text, with its parser as partner and a round-trip proof;
  - one tick over the registry, with an independent reference (`Shown`,
    `FirstBlocked`) and the proof that the two agree.
- `SetupPlan` (setup_plan.dfy) covers `setup`:
  - the shuffled motives paired with the characters;
  - the clue-channel name (`lower(name).split()[0] + "-clues"`);
  - the ordered plan of sends, and its delivery up to the first channel
    lookup that fails.
- `RoleSearch` (search.dfy) covers `search`:
  - finding the member's character from their roles;
  - what the handler sends: the command as written and as evidently
    intended (see Findings).
- `Text` (text.dfy) has the Python string operations these rely on, on the
  ASCII range: `str.lower`, `str.split()`, `str(int)` and `str.zfill`.
- `Chat` (chat.dfy) names the things posted. `Wrappers` (wrappers.dfy) holds
  `Option`.

Some inputs are parameters:

- Time is a whole number of seconds. Each tick uses one reading of the clock,
  `now`.
- `GAME_LENGTH` is `gameLength`.
- The guild's channels are a set of names (`channels`). For the timer loop,
  they are a function from guild to channel names.
- The character names are parameters, in two forms. `setup` takes
  `characters`, the ordered full names: the values of `gamedata.CHARACTERS`
  (game.py:64). `search` takes `characters`, the set of that dictionary's
  keys, which the lower-cased role names are looked up in (game.py:154).
- The folder listings are `Assets` and the search cards are `cards`.
- Each random choice is an input: `pick` selects the poster or card, and
  `motives` stands for the shuffled motive numbers. `Cog.Game.Setup` and
  `SetupPlan.Plan` accept any sequence of integers there. The facts about
  the pairing (`SetupPlan.ShuffleFacts`, `SetupPlan.MotivePairing`) assume
  a rearrangement of 1..5 (`SetupPlan.IsMotiveShuffle`), which is what
  `random.shuffle` returns.

Two behaviours of the code are easy to miss. The model follows the code:

- The deadline test (game.py:135) skips a game only when
  `start_time + GAME_LENGTH < now`. At the deadline itself the game is still
  shown, and its post is "00:00". `Countdown.Decide` shows a game when
  `now <= deadline`, and `Countdown.CountdownExamples` proves the "00:00" text.
- A `setup` repeated before `start` issues every send again (game.py:43).
  `Lifecycle.SetupRepeatable` proves that the record ends as after one
  completed `setup`.

## Model

| member | source | states |
|---|---|---|
| Lifecycle.Start | game.py:102-115 | the guards in order: not set up, then already started, then fewer than 3 claimed roles; each gives its own outcome (an iff for each) and leaves the record unchanged; success sets exactly `started` and `start_time := now` |
| Lifecycle.StartReply | game.py:102-116 | the reply for each outcome of `start`; `Cog.Game.Start` proves it is the reply sent |
| Lifecycle.StartTwice | game.py:106-108 | after a successful start, a second start is refused as "already begun" and changes nothing |
| Lifecycle.MinPlayerGate | game.py:110-112 | with the game set up and not started, 2 claimed roles are refused and 3 are enough |
| Lifecycle.Setup | game.py:43-45 | refused exactly when the game has started (the guard tests `started`, not `setup`); a set-up that raised part-way changes nothing; one that completed sets only `setup` |
| Lifecycle.SetupRepeatable | game.py:43-45 | two completed set-ups before the start give the same record as one, with `setup` true |
| Lifecycle.ToggleTimerFacts | game.py:122 | the `timer` command negates `show_timer` and changes no other field; toggling twice restores the record |
| Lifecycle.ToggleTimer | game.py:122 | the `timer` command's transition; `Lifecycle.ToggleTimerFacts` states its effect |
| Lifecycle.TimerReply | game.py:123-126 | the reply for the new flag; `Cog.Game.ShowTime` proves it is the reply sent |
| Lifecycle.ApplyConsistent | game.py:90 | every command keeps the invariant: started implies set up, and a start time exists exactly when started |
| Lifecycle.Apply | game.py:43-126 | one command's effect on the record (`search` has none); `Lifecycle.ApplyConsistent` proves it keeps the invariant |
| Lifecycle.Run | game.py:43-126 | a sequence of commands applied in order; `Lifecycle.RunConsistent`, `Lifecycle.RunMonotone` and `Lifecycle.NeverStartsWithoutPlayers` state what it can and cannot do |
| Lifecycle.RunConsistent | game.py:102-115 | every sequence of commands keeps that invariant |
| Lifecycle.RunMonotone | game.py:90 | `setup` and `started` are never reset, the start time is never rewritten, and `char_roles` never changes |
| Lifecycle.NeverStartsWithoutPlayers | game.py:110 | a game with fewer than 3 claimed roles never starts, under any sequence of commands |
| Lifecycle.InitialNeverStarts | game.py:19 | from the assumed initial record, every command sequence keeps the invariant, and the game never starts |
| Cog.GameData.constructor | game.py:19 | a new record belongs to its guild and holds the assumed initial values |
| Cog.GameData.MarkSetUp | game.py:90 | sets `setup` and nothing else |
| Cog.GameData.Begin | game.py:102-115 | the record's new state and the outcome are those of `Lifecycle.Start` on its old state |
| Cog.GameData.ToggleShowTimer | game.py:122-123 | the new state and the reported flag are those of `Lifecycle.ToggleTimer` |
| Cog.GameData.TimerText | game.py:132-147 | the loop body for one game: it fails exactly when the game is to be shown and the guild has no `bot-channel`; it yields a text exactly when the game is shown and nothing fails, and the text is the countdown of the remaining time |
| Cog.Game.constructor | game.py:16 | the registry starts empty and valid |
| Cog.Game.BeforeInvoke | game.py:19 | `setdefault`: a registered guild gets back its own record object, and the registry and its footprint are unchanged; a new guild is filed with a fresh initial record and appended to the iteration order; every other guild's record is unchanged |
| Cog.Game.Setup | game.py:43-90 | refused with "Game has already begun!" once started; otherwise replies "Starting setup" and delivers `SetupPlan.Plan`; the record becomes `Lifecycle.Setup` of the old one, set up only if delivery finished; other guilds are unchanged |
| Cog.Game.MarkSetUp | game.py:90 | on a registered guild, sets that guild's `setup` and leaves every other guild's record alone |
| Cog.Game.Start | game.py:102-116 | the reply and the guild's new record are those of `Lifecycle.Start`; other guilds are unchanged |
| Cog.Game.ShowTime | game.py:122-126 | the reply ("Showing"/"Hiding bot timer!") and the new record are those of `Lifecycle.ToggleTimer`; other guilds are unchanged |
| Cog.Game.Search | game.py:150-164 | the outputs are `RoleSearch.SearchOutcome` for the member's roles, with the handler's fixes; no record changes |
| Cog.Game.Timer | game.py:130-147 | the loop over the registry, in insertion order, posts and fails exactly as `Countdown.Tick` over the registered records |
| Countdown.Decide | game.py:132-140 | not started iff `started` is false; over iff deadline < now; shown iff started, now <= deadline and `show_timer`; the remaining time is deadline - now, never negative |
| Countdown.CountdownText | game.py:146 | the `MM:SS` text of the remaining seconds; `Countdown.CountdownFields` states its digits and `Countdown.CountdownRoundTrip` that parsing it gives back the seconds |
| Countdown.CountdownFields | game.py:146 | the text is at least two minute digits, a colon and exactly two second digits; they denote `remaining // 60` and `remaining % 60` (< 60); the text is 5 characters iff under 100 minutes remain |
| Countdown.CountdownRoundTrip | game.py:146 | parsing the text gives back the remaining seconds |
| Countdown.CountdownExamples | game.py:146 | 1700 seconds read "28:20"; 0 seconds read "00:00" |
| Countdown.TickStep | game.py:130-147 | one game of a tick: skipped when not shown; when shown, its post comes before the rest of the tick, or the tick fails on its guild if it has no `bot-channel` |
| Countdown.Tick | game.py:130-147 | one pass of the loop over the records in registry order; `Countdown.TickMeaning` proves it posts the reference posts before the first blocked game and fails there, and `Cog.Game.Timer` proves the loop computes it |
| Countdown.TickBegins | game.py:130 | nothing is posted before the first game |
| Countdown.TickSkips | game.py:131-136 | the loop passes over a game that is not to be shown, and its account of the tick still holds one game further on |
| Countdown.TickPosts | game.py:140-147 | a game to be shown whose guild has a `bot-channel` adds its countdown post, and the account holds one game further on |
| Countdown.TickBlocks | game.py:140-145 | a game to be shown whose guild has no `bot-channel` ends the tick with that guild, after the posts made so far |
| Countdown.TickEnds | game.py:130 | after the last game, the posts made are the whole tick, which ends without failure |
| Countdown.FirstBlocked | game.py:140-145 | the first game that is to be shown but whose guild has no `bot-channel`; every earlier game can be shown |
| Countdown.TickMeaning | game.py:130-147 | a tick posts the reference posts (`Shown`) of the games before the first blocked one, and fails on exactly that guild, or on none |
| Countdown.TickHead | game.py:130-147 | when the first game can be shown, a tick is that game's reference post followed by the tick over the rest, and the first blocked game lies one further on |
| Countdown.TickComplete | game.py:130-147 | with a `bot-channel` wherever one is needed, a tick fails nowhere and posts the reference posts of every game |
| Countdown.ShownAppend | game.py:130 | the reference posts of two runs of games are the posts of each, concatenated |
| Countdown.ShownOnlyVisible | game.py:132-140 | every post belongs to a started game that is not over, shows its timer, and carries that game's remaining time |
| Countdown.TimerSecondReadGoesNegative | game.py:135-138 | as written, with the two clock readings on either side of the deadline, the post is "-1:59" |
| Countdown.TextAsWritten | game.py:132-146 | the loop body for one game as written, with two clock readings; `Countdown.TimerSecondReadGoesNegative` and `Countdown.OneReadingSuffices` state what it does |
| Countdown.RunningShows | game.py:132-146 | a started game within its deadline that shows its timer is shown, and one clock reading gives its countdown text |
| Countdown.OneReadingSuffices | game.py:135-146 | with one reading, the as-written loop body gives exactly the model's decision, and every text posted parses back to its non-negative remaining time |
| SetupPlan.Range | game.py:62 | `list(range(lo, hi))`: its length, and the element at each index |
| SetupPlan.MotiveNumbersAre | game.py:62 | the motives shuffled are [1, 2, 3, 4, 5] |
| SetupPlan.IsMotiveShuffle | game.py:62-63 | the shuffled motives, taken as any rearrangement of 1..5; `SetupPlan.ShuffleFacts` states what that gives |
| SetupPlan.ShuffleFacts | game.py:62-63 | a shuffle of the motives has 5 elements, each in 1..5, no two equal, with every motive present |
| SetupPlan.Zip | game.py:64 | `zip`: as long as the shorter input, pairing the elements by position |
| SetupPlan.MotivePairing | game.py:62-64 | the first min(n, 5) characters each get one motive in 1..5, in order; no motive is used twice; with 5 or more characters, every motive is used |
| SetupPlan.ClueChannelName | game.py:65 | a name made only of whitespace has no clue channel (`split()[0]` raises); otherwise the channel is the first maximal run of non-whitespace in the lower-cased name, followed by "-clues" |
| SetupPlan.ClueChannelOfFirstWord | game.py:65 | a name that starts with a word followed by whitespace, or by nothing, gets that word lower-cased plus "-clues" |
| SetupPlan.ClueChannel | game.py:65 | the clue channel a character name gives, or none when `split()[0]` raises; `SetupPlan.ClueChannelName` and `SetupPlan.ClueChannelOfFirstWord` state its meaning |
| SetupPlan.FolderSteps | game.py:39-41 | `send_folder`: the sends for one folder listing; where they sit in the plan and what a completed `setup` posts from them are stated by `SetupPlan.PreambleLayout` and `SetupPlan.CompletedSetupPostsFolders` |
| SetupPlan.PosterStep | game.py:53-54 | the poster send, or the raise of `random.choice` on an empty poster folder; `SetupPlan.CompletedSetupPostsFolders` proves that a completed `setup` had a poster and posted the picked one |
| SetupPlan.Preamble | game.py:49-59 | the sends before the clue loop, laid out by `SetupPlan.PreambleLayout` |
| SetupPlan.PreambleLayout | game.py:49-59 | the first four steps are the guide, the character sheet, the introduction and the poster step, all for `player-resources`; then come the character, suspect and location images, each folder in listing order to its own channel, at fixed offsets |
| SetupPlan.Plan | game.py:49-88 | every send of `setup` in issue order: the steps before the clue loop, then the clue loop, then `Closing` (the 90-minute card, the prompts and the first message, all to `charlie-clues`); what delivering it posts is stated by `SetupPlan.CompletedSetupPostsFolders` and `SetupPlan.CompletedSetupDealsMotives` |
| SetupPlan.CompletedSetupPostsFolders | game.py:49-59 | when `setup` runs to completion, a poster exists; the first four posts are the guide, the character sheet, the introduction and the picked poster, to `player-resources`; then each character, suspect and location image is posted, in listing order, to its folder's channel |
| SetupPlan.ClueChannels | game.py:64-65 | the clue channel looked up for each paired character, in order; what a completed `setup` posts to those channels is stated by `SetupPlan.CompletedSetupDealsMotives` |
| SetupPlan.ClueSteps | game.py:64-67 | the loop's steps are all sends only if every character has a clue channel; then each character's channel gets its card and then its motive card, two steps per character |
| SetupPlan.Clues | game.py:62-67 | the sends of the clue loop over the zipped characters and motives; `SetupPlan.DeliveredClues` and `SetupPlan.CompletedSetupDealsMotives` state what delivering them posts |
| SetupPlan.Deliver | game.py:32-37 | sends are issued in order until the first lookup that fails: every post is a deliverable step of the plan, in order; with no error, every step was posted; an error is the first failing step's |
| SetupPlan.DeliveredClues | game.py:64-67 | if a plan containing the clue loop is delivered in full, every character has a clue channel, and that channel received the character's card and its motive card |
| SetupPlan.CompletedSetupDealsMotives | game.py:62-90 | when `setup` runs to completion, every character paired with a motive has a clue channel, which received the character's card and that motive's card |
| RoleSearch.FirstCharacterIndex | game.py:153-156 | the first role whose lower-cased name is a character; no earlier role is one |
| RoleSearch.FirstCharacterRole | game.py:153-159 | the character the role loop finds; `RoleSearch.RoleResolution` states its meaning and `RoleSearch.ResolveCharacter` that the loop computes it |
| RoleSearch.RoleResolution | game.py:153-159 | no character is found iff no role names one; otherwise the result is a character key, taken from the first role that names one |
| RoleSearch.ResolveCharacter | game.py:153-159 | the role loop with its early `break` returns `FirstCharacterRole` |
| RoleSearch.GlobChoiceRaises | game.py:161 | as written, `search` never posts a card: it raises exactly when a character was found |
| RoleSearch.SearchAsWritten | game.py:150-164 | the outputs of `search` as written; `RoleSearch.GlobChoiceRaises` and `RoleSearch.NotStartedFallsThrough` state them |
| RoleSearch.NotStartedFallsThrough | game.py:151-158 | as written, before the start, a member with no character role gets both replies |
| RoleSearch.SearchSendsCard | game.py:150-164 | with the fixes, a card is posted iff the game started, a character was found, cards exist and the character's clue channel exists; the post is then the only output, the picked card to that channel |
| RoleSearch.NotStartedStops | game.py:151-152 | with the fix, before the start there is exactly one reply, and nothing else |
| RoleSearch.SearchOutcome | game.py:150-164 | the outputs of `search` with the two fixes; `RoleSearch.SearchSendsCard`, `RoleSearch.NotStartedStops` and `RoleSearch.SearchNeedsRole` state them |
| RoleSearch.SearchNeedsRole | game.py:153-164 | a card goes only to the clue channel of the first role naming a character; a member with no such role gets no card |
| Text.LowerFacts | game.py:65 | lower-casing keeps the length and the positions of whitespace, leaves no capital letter, and is idempotent |
| Text.LowerSpan | game.py:65 | lower-casing keeps every all-whitespace span and every whitespace-free span |
| Text.Lower | game.py:65 | `str.lower` on ASCII; `Text.LowerFacts` and `Text.LowerSpan` state its effect |
| Text.LeadingSpace | game.py:65 | the length of the leading whitespace: all whitespace, and followed by a non-space or the end |
| Text.WordLength | game.py:65 | the length of the leading run of non-whitespace, followed by whitespace or the end |
| Text.SplitAt | game.py:65 | one step of `split()`: skip leading whitespace, take one non-empty whitespace-free word, split the rest |
| Text.FirstWord | game.py:65 | `split()` is empty iff the input is all whitespace; otherwise its first word is the first maximal run of non-whitespace characters |
| Text.SplitConcat | game.py:65 | the words of `split()`, concatenated, are the input with its whitespace removed |
| Text.Split | game.py:65 | `str.split()`; `Text.SplitAt`, `Text.FirstWord` and `Text.SplitConcat` state its meaning |
| Text.NatStr | game.py:146 | `str(n)`: decimal digits denoting n; one digit iff n < 10, at most two iff n < 100; no leading zero |
| Text.IntStr | game.py:146 | `str(int)`: a minus sign before the digits of a negative number; `Text.NatStr` states the digits, and `Countdown.TimerSecondReadGoesNegative` shows the sign reaching a post |
| Text.ZFill | game.py:146 | `zfill(width)`: the result is as long as the input, or as the width if that is larger |
| Text.ZFillDigits | game.py:146 | zero-filling a digit string keeps it a digit string with the same value |

## Left out

- Discord I/O (`ctx.send`, `channel.send`, `discord.File`, fire-and-forget `asyncio.create_task`): posts are values in issue order; delivery, failure of a send itself and interleaving of those asyncio tasks are not modelled.
- Building `ctx.text_channels` from the guild's channels (game.py:20-23, 141-144): the guild's channels are a set of names; channels with duplicate names are not modelled.
- `time.time()` returns a float: time is whole seconds, so `int(r // 60)` needs no truncation.
- Countdown.TextAsWritten: the loop reads the clock twice (game.py:135, 138). The cog's `Timer` uses one reading per tick; the two-reading behaviour is modelled only for one game (Findings).
- `tasks.loop` scheduling, `on_ready` starting the loop (game.py:26-28, 128), and what the loop does after a handler or tick raises: concurrency and framework behaviour.
- `random.shuffle`, `random.choice` and folder globbing (game.py:40, 53, 63, 161): the shuffle, the picks and the sorted listings are inputs.
- `str.lower`, `str.split()` and whitespace: only ASCII is modelled; Unicode case mapping and Unicode whitespace are not.
- `gamedata` (`Data`, `CHARACTERS`, `GAME_LENGTH`, `TIMER_GAP`, the image folders) is not part of this model: the constants are parameters, and a new record's initial values (`setup`, `started`, `show_timer` false, no start time, no claimed roles) are an assumption.
- `shuffle_clues` (game.py:93-96) has an empty body, so there is nothing to model.
- `ten_min_card` (game.py:166-178) is left out. It converts a Discord member or role, writes `ten_char`, which nothing reads, and its send is commented out.
- The file paths of the images posted: `Chat.Item` names what an image shows rather than its path.
- A member's roles are given as their names; Discord role objects are not modelled.
- Cog.Game.Timer: one tick is modelled as atomic, like every handler. In the source the loop awaits each post (game.py:145) while it iterates `self.games.values()` (game.py:130), so other commands can run in the middle of a tick. The model does not capture three consequences. A `start` or `timer` run mid-tick changes what later games of the same tick post. A new guild's first command, filed by `setdefault` (game.py:19) mid-tick, makes the next step of the `for` raise `RuntimeError` (dictionary changed size during iteration), an outcome `Countdown.Tick` does not have. The tick reads one clock value for all its games, although the awaits let time pass between them.
- Cog.Game.Setup: modelled as atomic. In the source, `setup` suspends at `await ctx.send("Starting setup")` (game.py:47) after its `started` guard (game.py:43). A `start` that runs in that gap starts the game, and `setup` still sends the whole plan. The model promises delivery of the plan whenever the guard passed, and it judges the guard on the state at the call.
- Cog.Game.Search: models the corrected handler (Findings); the as-written behaviour is stated as `RoleSearch.SearchAsWritten`, which does not model the channel lookup the handler never reaches.

## Findings

| source | as written | input that shows it | evidently intended | confidence | as-written member | corrected member |
|---|---|---|---|---|---|---|
| game.py:135-138 | the deadline test and the remaining time each call `time.time()` | start time 0, game length 5400; the first reading is 5400 and the second is 5401: the game passes the test and the post is "-1:59" | one reading per game, so the posted countdown is never negative | not executed | Countdown.TimerSecondReadGoesNegative | Countdown.OneReadingSuffices |
| game.py:161 | `random.choice` is given the generator that `Path.glob` returns, which has no length | any started game, and a member with a character role: `random.choice` raises TypeError and no card is posted | `random.choice(list(...glob("*.png")))`, as `setup` does for the poster (game.py:53) | not executed | RoleSearch.GlobChoiceRaises | RoleSearch.SearchSendsCard |
| game.py:151-152 | there is no `return` after "The game hasn't started yet" | a game not started, and a member with no character role: the member gets both replies, and a member with a role goes on to the card draw | stop after the reply, as the other guards do | not executed | RoleSearch.NotStartedFallsThrough | RoleSearch.NotStartedStops |
