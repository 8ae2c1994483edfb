/**
 * The `search` command: find the invoking member's character from their
 * roles, then post one random "Searching" card to that character's clue
 * channel. The chosen card is an input (an index into the folder listing).
 */
module RoleSearch {
  import opened Wrappers
  import opened Text
  import opened Chat

  const NotStartedText := "The game hasn't started yet"
  const NoRoleText := "You don't have a character role"

  // -----------------------------------------------------------------------
  // Role resolution
  // -----------------------------------------------------------------------

  /**
   * The position of the first role whose lower-cased name is a character
   * key, or the number of roles when there is none.
   */
  function FirstCharacterIndex(roles: seq<string>, characters: set<string>): (k: nat)
    ensures k <= |roles|
    ensures forall j :: 0 <= j < k ==> Lower(roles[j]) !in characters
    ensures k < |roles| ==> Lower(roles[k]) in characters
    decreases |roles|
  {
    if roles == [] then 0
    else if Lower(roles[0]) in characters then 0
    else
      var k := FirstCharacterIndex(roles[1..], characters);
      assert forall j :: 1 <= j < k + 1 ==> roles[j] == roles[1..][j - 1];
      1 + k
  }

  /** The for/else role loop: the first role naming a character, lower-cased; None when no role does. */
  function FirstCharacterRole(roles: seq<string>, characters: set<string>): Option<string> {
    var k := FirstCharacterIndex(roles, characters);
    if k < |roles| then Some(Lower(roles[k])) else None
  }

  /**
   * No character is found exactly when no role names one; a character found
   * is a character key, and it is the name of a role no earlier role beats.
   */
  lemma RoleResolution(roles: seq<string>, characters: set<string>)
    ensures FirstCharacterRole(roles, characters).None? <==>
      forall j :: 0 <= j < |roles| ==> Lower(roles[j]) !in characters
    ensures FirstCharacterRole(roles, characters).Some? ==>
      var k := FirstCharacterIndex(roles, characters);
      FirstCharacterRole(roles, characters).value == Lower(roles[k]) &&
      FirstCharacterRole(roles, characters).value in characters
  {
    var k := FirstCharacterIndex(roles, characters);
    if k < |roles| {
      assert !(forall j :: 0 <= j < |roles| ==> Lower(roles[j]) !in characters);
    }
  }

  /** The role loop of `search`, which stops at the first role naming a character. */
  method ResolveCharacter(roles: seq<string>, characters: set<string>) returns (character: Option<string>)
    ensures character == FirstCharacterRole(roles, characters)
  {
    var i := 0;
    while i < |roles|
      invariant 0 <= i <= |roles|
      invariant forall j :: 0 <= j < i ==> Lower(roles[j]) !in characters
    {
      if Lower(roles[i]) in characters {
        character := Some(Lower(roles[i]));
        return;
      }
      i := i + 1;
    }
    character := None;
  }

  // -----------------------------------------------------------------------
  // The command's effect
  // -----------------------------------------------------------------------

  datatype SearchError =
    | ChoiceOnGenerator        // TypeError: `random.choice` given the generator `glob` returns
    | NoSearchCards            // IndexError: `random.choice` on an empty listing
    | MissingChannel(name: string)  // KeyError from `ctx.text_channels[...]`

  /** What the handler sends, in order, and the error it ends with, if any. */
  datatype SearchResult = SearchResult(out: seq<Output>, error: Option<SearchError>)

  predicate Sends(out: seq<Output>) {
    exists k :: 0 <= k < |out| && out[k].Post?
  }

  /**
   * The handler as written: a game that has not started gets its reply but
   * the handler carries on, and once a character is found the card is drawn
   * by `random.choice` from a `Path.glob` generator, which has no length, so
   * the draw raises before anything is posted.
   */
  function SearchAsWritten(started: bool, character: Option<string>): SearchResult {
    var notice := if started then [] else [Reply(NotStartedText)];
    if character.None? then SearchResult(notice + [Reply(NoRoleText)], None)
    else SearchResult(notice, Some(ChoiceOnGenerator))
  }

  /** As written, `search` never posts a card: with a character it raises, without one it only replies. */
  lemma GlobChoiceRaises(started: bool, character: Option<string>)
    ensures !Sends(SearchAsWritten(started, character).out)
    ensures character.Some? <==> SearchAsWritten(started, character).error == Some(ChoiceOnGenerator)
  {
  }

  /** As written, a member with no character role before the start gets both replies. */
  lemma NotStartedFallsThrough()
    ensures SearchAsWritten(false, None).out == [Reply(NotStartedText), Reply(NoRoleText)]
  {
  }

  /**
   * The handler as evidently intended: it stops after telling the member the
   * game has not started, and draws the card from the listing (`cards`, with
   * `pick` the random index) before looking up the clue channel.
   */
  function SearchOutcome(
    started: bool, character: Option<string>, cards: seq<string>, pick: nat, channels: set<string>): SearchResult
    requires cards != [] ==> pick < |cards|
  {
    if !started then SearchResult([Reply(NotStartedText)], None)
    else if character.None? then SearchResult([Reply(NoRoleText)], None)
    else if cards == [] then SearchResult([], Some(NoSearchCards))
    else
      var channel := character.value + ClueSuffix;
      if channel !in channels then SearchResult([], Some(MissingChannel(channel)))
      else SearchResult([Post(channel, SearchCard(cards[pick]))], None)
  }

  /**
   * A card is posted exactly when the game has started, a character was
   * found, the listing is non-empty and the character's clue channel exists;
   * it is then the only output, the picked card sent to that channel.
   */
  lemma SearchSendsCard(
    started: bool, character: Option<string>, cards: seq<string>, pick: nat, channels: set<string>)
    requires cards != [] ==> pick < |cards|
    ensures var r := SearchOutcome(started, character, cards, pick, channels);
      Sends(r.out) <==>
        started && character.Some? && cards != [] && character.value + ClueSuffix in channels
    ensures var r := SearchOutcome(started, character, cards, pick, channels);
      Sends(r.out) ==> r == SearchResult([Post(character.value + ClueSuffix, SearchCard(cards[pick]))], None)
  {
    var r := SearchOutcome(started, character, cards, pick, channels);
    if started && character.Some? && cards != [] && character.value + ClueSuffix in channels {
      assert r.out[0].Post?;
    }
  }

  /** With the fix, a game that has not started gets exactly one reply and nothing else. */
  lemma NotStartedStops(character: Option<string>, cards: seq<string>, pick: nat, channels: set<string>)
    requires cards != [] ==> pick < |cards|
    ensures SearchOutcome(false, character, cards, pick, channels) == SearchResult([Reply(NotStartedText)], None)
  {
  }

  /**
   * A member none of whose roles names a character gets no card; a card goes
   * only to the clue channel of the first role that names one.
   */
  lemma SearchNeedsRole(
    started: bool, roles: seq<string>, characters: set<string>, cards: seq<string>, pick: nat, channels: set<string>)
    requires cards != [] ==> pick < |cards|
    ensures var r := SearchOutcome(started, FirstCharacterRole(roles, characters), cards, pick, channels);
      Sends(r.out) ==>
        var k := FirstCharacterIndex(roles, characters);
        k < |roles| && Lower(roles[k]) in characters &&
        r.out == [Post(Lower(roles[k]) + ClueSuffix, SearchCard(cards[pick]))]
    ensures (forall j :: 0 <= j < |roles| ==> Lower(roles[j]) !in characters) ==>
      !Sends(SearchOutcome(started, FirstCharacterRole(roles, characters), cards, pick, channels).out)
  {
    RoleResolution(roles, characters);
    SearchSendsCard(started, FirstCharacterRole(roles, characters), cards, pick, channels);
  }
}
