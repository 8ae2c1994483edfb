/**
 * What `setup` sends, and where: the introduction images and a poster for
 * `player-resources`, the character, suspect and location folders for their
 * card channels, each character's card and shuffled motive card for the
 * character's clue channel, and the opening cards and texts for
 * `charlie-clues`. The channel lookups (`ctx.text_channels[...]`), the
 * poster choice and the first-word split can raise; the handler then stops
 * where it is, with the earlier sends already issued.
 */
module SetupPlan {
  import opened Wrappers
  import opened Text
  import opened Chat

  const PlayerResources := "player-resources"
  const CharacterCards := "character-cards"
  const SuspectCards := "suspect-cards"
  const LocationCards := "location-cards"
  const CharlieClues := "charlie-clues"

  // -----------------------------------------------------------------------
  // Motives
  // -----------------------------------------------------------------------

  /** `list(range(lo, hi))`. */
  function Range(lo: int, hi: int): (r: seq<int>)
    ensures |r| == if lo < hi then hi - lo else 0
    ensures forall i :: 0 <= i < |r| ==> r[i] == lo + i
    decreases hi - lo
  {
    if lo >= hi then [] else [lo] + Range(lo + 1, hi)
  }

  /** The motive numbers `setup` shuffles: `list(range(1, 6))`. */
  function MotiveNumbers(): seq<int> {
    Range(1, 6)
  }

  /** The result of `random.shuffle` on the motive numbers, taken as an input: any rearrangement of them. */
  predicate IsMotiveShuffle(m: seq<int>) {
    multiset(m) == multiset(MotiveNumbers())
  }

  function Min(a: int, b: int): int {
    if a < b then a else b
  }

  /** `zip(a, b)`: pairs up the two inputs by position, stopping at the shorter one. */
  function Zip<A, B>(a: seq<A>, b: seq<B>): (r: seq<(A, B)>)
    ensures |r| == Min(|a|, |b|)
    ensures forall i :: 0 <= i < |r| ==> r[i] == (a[i], b[i])
  {
    if a == [] || b == [] then [] else [(a[0], b[0])] + Zip(a[1..], b[1..])
  }

  lemma MotiveNumbersAre()
    ensures MotiveNumbers() == [1, 2, 3, 4, 5]
  {
  }

  /** A value at two positions of a sequence is in its multiset at least twice. */
  lemma {:induction false} TwiceInMultiset(m: seq<int>, i: nat, j: nat)
    requires i < j < |m| && m[i] == m[j]
    ensures multiset(m)[m[i]] >= 2
  {
    assert m == m[..j] + [m[j]] + m[j + 1..];
    assert m[..j][i] == m[i];
    assert m[i] in multiset(m[..j]);
  }

  lemma {:induction false} ShuffleLength(m: seq<int>)
    requires multiset(m) == multiset{1, 2, 3, 4, 5}
    ensures |m| == 5
  {
    assert |m| == |multiset(m)|;
  }

  lemma {:induction false} ShuffleBounds(m: seq<int>)
    requires multiset(m) == multiset{1, 2, 3, 4, 5}
    ensures forall i :: 0 <= i < |m| ==> 1 <= m[i] <= 5
  {
    forall i | 0 <= i < |m| ensures 1 <= m[i] <= 5 {
      assert m[i] in multiset(m);
    }
  }

  lemma {:induction false} ShuffleCovers(m: seq<int>)
    requires multiset(m) == multiset{1, 2, 3, 4, 5}
    ensures forall v :: 1 <= v <= 5 ==> v in m
  {
    forall v | 1 <= v <= 5 ensures v in m {
      assert v in multiset(m);
    }
  }

  lemma {:induction false} ShuffleDistinct(m: seq<int>)
    requires multiset(m) == multiset{1, 2, 3, 4, 5}
    ensures forall i, j :: 0 <= i < j < |m| ==> m[i] != m[j]
  {
    forall i, j | 0 <= i < j < |m| ensures m[i] != m[j] {
      if m[i] == m[j] {
        TwiceInMultiset(m, i, j);
      }
    }
  }

  /** A shuffle of the motive numbers holds each of 1..5 exactly once. */
  lemma ShuffleFacts(m: seq<int>)
    requires IsMotiveShuffle(m)
    ensures |m| == 5
    ensures forall i :: 0 <= i < |m| ==> 1 <= m[i] <= 5
    ensures forall i, j :: 0 <= i < j < |m| ==> m[i] != m[j]
    ensures forall v :: 1 <= v <= 5 ==> v in m
  {
    MotiveNumbersAre();
    ShuffleLength(m);
    ShuffleBounds(m);
    ShuffleCovers(m);
    ShuffleDistinct(m);
  }

  /** The motive of each pair, in order. */
  function MotivesOf(pairs: seq<(string, int)>): seq<int> {
    seq(|pairs|, i requires 0 <= i < |pairs| => pairs[i].1)
  }

  /**
   * Pairing the characters with a shuffle of the motives, as `setup` does,
   * gives each of the first five characters one motive between 1 and 5 and
   * uses no motive twice; with five or more characters every motive is used.
   */
  lemma MotivePairing(characters: seq<string>, motives: seq<int>)
    requires IsMotiveShuffle(motives)
    ensures |Zip(characters, motives)| == Min(|characters|, 5)
    ensures var pairs := Zip(characters, motives);
      forall i :: 0 <= i < |pairs| ==> pairs[i].0 == characters[i] && 1 <= pairs[i].1 <= 5
    ensures var pairs := Zip(characters, motives);
      forall i, j :: 0 <= i < j < |pairs| ==> pairs[i].1 != pairs[j].1
    ensures |characters| >= 5 ==> forall v :: 1 <= v <= 5 ==> v in MotivesOf(Zip(characters, motives))
  {
    ShuffleFacts(motives);
    var pairs := Zip(characters, motives);
    assert |pairs| == Min(|characters|, |motives|);
    if |characters| >= 5 {
      assert MotivesOf(pairs) == motives;
    }
  }

  // -----------------------------------------------------------------------
  // Clue channels
  // -----------------------------------------------------------------------

  /**
   * `f"{character.lower().split()[0]}-clues"`; None where `split()` finds no
   * word and the indexing raises.
   */
  function ClueChannel(character: string): Option<string> {
    var words := Split(Lower(character));
    if words == [] then None else Some(words[0] + ClueSuffix)
  }

  /**
   * A clue channel's name is the first whitespace-delimited word of the
   * lower-cased name followed by "-clues"; a name of whitespace only has
   * none. (Lower-casing moves no whitespace, so the word is also where the
   * first word of the name itself lies.)
   */
  lemma ClueChannelName(character: string)
    ensures ClueChannel(character).None? <==> AllSpace(character)
    ensures ClueChannel(character).Some? ==>
      var low := Lower(character);
      exists i, j :: 0 <= i < j <= |low| && AllSpace(low[..i]) && NoSpace(low[i..j]) &&
        (j == |low| || IsSpace(low[j])) &&
        ClueChannel(character).value == low[i..j] + ClueSuffix
  {
    var low := Lower(character);
    FirstWord(low);
    LowerSpan(character, 0, |character|);
    assert low[0..|low|] == low && character[0..|character|] == character;
  }

  /**
   * A character whose name starts with a word followed by whitespace (or by
   * nothing) gets the channel named after that word, lower-cased.
   */
  lemma {:induction false} ClueChannelOfFirstWord(word: string, rest: string)
    requires IsWord(word) && (rest == [] || IsSpace(rest[0]))
    ensures ClueChannel(word + rest) == Some(Lower(word) + ClueSuffix)
  {
    var s := word + rest;
    var low := Lower(s);
    var m := |word|;
    LowerFacts(s);
    LowerSlice(s, 0, m);
    assert s[..m] == word;
    assert !IsSpace(low[0]) by { assert s[0] == word[0]; }
    assert LeadingSpace(low) == 0;
    assert low[0..] == low;
    assert NoSpace(low[..m]) by {
      forall k | 0 <= k < m ensures !IsSpace(low[..m][k]) { assert s[k] == word[k]; }
    }
    assert m == |low| || IsSpace(low[m]) by {
      if m < |low| { assert s[m] == rest[0]; }
    }
    WordLengthAt(low, m);
    SplitAt(low, low[0..], m);
  }

  // -----------------------------------------------------------------------
  // The plan of sends and its delivery
  // -----------------------------------------------------------------------

  datatype SetupError =
    | MissingChannel(name: string)   // KeyError from `ctx.text_channels[...]`
    | NoPosters                      // IndexError from `random.choice` on an empty poster folder
    | NoFirstWord(character: string) // IndexError from `split()[0]`

  /** One send of the handler, or the error raised at that point. */
  datatype Step = Send(channel: string, item: Item) | Raise(error: SetupError)

  /** The folder listings (taken as given, in sorted order) the handler reads. */
  datatype Assets = Assets(
    posters: seq<string>,
    characterImages: seq<string>,
    suspectImages: seq<string>,
    locationImages: seq<string>)

  /** The poster chosen at random, taken as an input: an index into a non-empty poster folder. */
  predicate ValidPick(a: Assets, pick: nat) {
    a.posters != [] ==> pick < |a.posters|
  }

  /** `send_folder`: every image of the listing, in order, to one channel. */
  function FolderSteps(channel: string, files: seq<string>): (r: seq<Step>)
    ensures |r| == |files|
    ensures forall k :: 0 <= k < |r| ==> r[k] == Send(channel, FolderImage(files[k]))
  {
    seq(|files|, k requires 0 <= k < |files| => Send(channel, FolderImage(files[k])))
  }

  /** The clue channel of each pair's character. */
  function ClueChannels(pairs: seq<(string, int)>): (r: seq<Option<string>>)
    ensures |r| == |pairs|
    ensures forall i :: 0 <= i < |pairs| ==> r[i] == ClueChannel(pairs[i].0)
  {
    seq(|pairs|, i requires 0 <= i < |pairs| => ClueChannel(pairs[i].0))
  }

  predicate AllSome(targets: seq<Option<string>>) {
    forall i :: 0 <= i < |targets| ==> targets[i].Some?
  }

  predicate AllSend(steps: seq<Step>) {
    forall k :: 0 <= k < |steps| ==> steps[k].Send?
  }

  /**
   * The character-and-motive loop, given each pair's clue channel: its steps
   * are all sends only if every character's name has a first word, and then
   * each character's clue channel gets the character's card followed by its
   * motive card.
   */
  function ClueSteps(pairs: seq<(string, int)>, targets: seq<Option<string>>): (r: seq<Step>)
    requires |targets| == |pairs|
    ensures AllSend(r) ==> AllSome(targets)
    ensures AllSome(targets) ==> |r| == 2 * |pairs|
    ensures AllSome(targets) ==> forall i :: 0 <= i < |pairs| ==>
      r[2 * i] == Send(targets[i].value, CharacterCard(pairs[i].0)) &&
      r[2 * i + 1] == Send(targets[i].value, MotiveCard(pairs[i].1))
    decreases |pairs|
  {
    if pairs == [] then []
    else
      match targets[0]
      case None =>
        var r := [Raise(NoFirstWord(pairs[0].0))];
        assert !r[0].Send?;
        r
      case Some(channel) =>
        var rest := ClueSteps(pairs[1..], targets[1..]);
        assert AllSome(targets) ==> AllSome(targets[1..]);
        assert AllSome(targets[1..]) ==> AllSome(targets);
        var r := [Send(channel, CharacterCard(pairs[0].0)), Send(channel, MotiveCard(pairs[0].1))] + rest;
        assert AllSend(r) ==> AllSend(rest) by {
          if AllSend(r) {
            forall k | 0 <= k < |rest| ensures rest[k].Send? { assert rest[k] == r[k + 2]; }
          }
        }
        r
  }

  /** The sends of the character-and-motive loop. */
  function Clues(characters: seq<string>, motives: seq<int>): seq<Step> {
    var pairs := Zip(characters, motives);
    ClueSteps(pairs, ClueChannels(pairs))
  }

  /** The chosen poster for `player-resources`; `random.choice` raises on an empty poster folder. */
  function PosterStep(a: Assets, pick: nat): Step
    requires ValidPick(a, pick)
  {
    if a.posters == [] then Raise(NoPosters) else Send(PlayerResources, Poster(a.posters[pick]))
  }

  /** The sends before the clue loop. */
  function Preamble(a: Assets, pick: nat): seq<Step>
    requires ValidPick(a, pick)
  {
    [Send(PlayerResources, Guide), Send(PlayerResources, CharacterSheet), Send(PlayerResources, Introduction),
     PosterStep(a, pick)] +
    FolderSteps(CharacterCards, a.characterImages) +
    FolderSteps(SuspectCards, a.suspectImages) +
    FolderSteps(LocationCards, a.locationImages)
  }

  /** The sends after the clue loop, all to `charlie-clues`. */
  const Closing := [Send(CharlieClues, NinetyMinuteCard), Send(CharlieClues, PromptList), Send(CharlieClues, FirstMessage)]

  /** Everything `setup` sends, in the order it issues the sends. */
  function Plan(a: Assets, pick: nat, characters: seq<string>, motives: seq<int>): seq<Step>
    requires ValidPick(a, pick)
  {
    Preamble(a, pick) + Clues(characters, motives) + Closing
  }

  /**
   * Where each send of the preamble sits: the three introduction images and
   * the poster, then each folder's images in listing order.
   */
  lemma {:induction false} PreambleLayout(a: Assets, pick: nat)
    requires ValidPick(a, pick)
    ensures |Preamble(a, pick)| == 4 + |a.characterImages| + |a.suspectImages| + |a.locationImages|
    ensures Preamble(a, pick)[..4] ==
      [Send(PlayerResources, Guide), Send(PlayerResources, CharacterSheet), Send(PlayerResources, Introduction),
       PosterStep(a, pick)]
    ensures forall j :: 4 <= j < 4 + |a.characterImages| ==>
      Preamble(a, pick)[j] == Send(CharacterCards, FolderImage(a.characterImages[j - 4]))
    ensures forall j :: 4 + |a.characterImages| <= j < 4 + |a.characterImages| + |a.suspectImages| ==>
      Preamble(a, pick)[j] == Send(SuspectCards, FolderImage(a.suspectImages[j - 4 - |a.characterImages|]))
    ensures forall j :: 4 + |a.characterImages| + |a.suspectImages| <= j < |Preamble(a, pick)| ==>
      Preamble(a, pick)[j] ==
        Send(LocationCards, FolderImage(a.locationImages[j - 4 - |a.characterImages| - |a.suspectImages|]))
  {
    var intro := [Send(PlayerResources, Guide), Send(PlayerResources, CharacterSheet), Send(PlayerResources, Introduction),
      PosterStep(a, pick)];
    var cs, ss, ls :=
      FolderSteps(CharacterCards, a.characterImages), FolderSteps(SuspectCards, a.suspectImages),
      FolderSteps(LocationCards, a.locationImages);
    assert Preamble(a, pick) == intro + cs + ss + ls;
    Quarters(intro, cs, ss, ls);
  }

  /** Where each part of `w + x + y + z` sits. */
  lemma Quarters<T>(w: seq<T>, x: seq<T>, y: seq<T>, z: seq<T>)
    ensures |w + x + y + z| == |w| + |x| + |y| + |z|
    ensures (w + x + y + z)[..|w|] == w
    ensures forall j :: |w| <= j < |w| + |x| ==> (w + x + y + z)[j] == x[j - |w|]
    ensures forall j :: |w| + |x| <= j < |w| + |x| + |y| ==> (w + x + y + z)[j] == y[j - |w| - |x|]
    ensures forall j :: |w| + |x| + |y| <= j < |w + x + y + z| ==> (w + x + y + z)[j] == z[j - |w| - |x| - |y|]
  {
  }

  /** A step that goes through: a send to a channel the guild has. */
  predicate Deliverable(step: Step, channels: set<string>) {
    step.Send? && step.channel in channels
  }

  function StepError(step: Step): SetupError {
    match step
    case Raise(e) => e
    case Send(channel, _) => MissingChannel(channel)
  }

  datatype Delivery = Delivery(posts: seq<Output>, error: Option<SetupError>)

  /**
   * Issuing the steps in order until one fails: the posts are the sends
   * before the first failing step, and the error is that step's.
   */
  function Deliver(plan: seq<Step>, channels: set<string>): (d: Delivery)
    ensures |d.posts| <= |plan|
    ensures forall k :: 0 <= k < |d.posts| ==>
      Deliverable(plan[k], channels) && d.posts[k] == Post(plan[k].channel, plan[k].item)
    ensures d.error.None? ==> |d.posts| == |plan|
    ensures d.error.Some? ==>
      |d.posts| < |plan| && !Deliverable(plan[|d.posts|], channels) && d.error.value == StepError(plan[|d.posts|])
    decreases |plan|
  {
    if plan == [] then Delivery([], None)
    else if !Deliverable(plan[0], channels) then Delivery([], Some(StepError(plan[0])))
    else
      var rest := Deliver(plan[1..], channels);
      Delivery([Post(plan[0].channel, plan[0].item)] + rest.posts, rest.error)
  }

  /** Delivered in full, a plan posts each of its leading steps at that step's position. */
  lemma DeliveredPrefix(pre: seq<Step>, mid: seq<Step>, post: seq<Step>, channels: set<string>)
    requires Deliver(pre + mid + post, channels).error.None?
    ensures forall j :: 0 <= j < |pre| ==>
      Deliverable(pre[j], channels) && Deliver(pre + mid + post, channels).posts[j] == Post(pre[j].channel, pre[j].item)
  {
    var plan := pre + mid + post;
    assert forall j :: 0 <= j < |pre| ==> plan[j] == pre[j];
  }

  /** Delivered in full, a plan that holds the clue loop's steps delivers each clue send. */
  lemma {:induction false} DeliveredClues(
    pre: seq<Step>, post: seq<Step>, pairs: seq<(string, int)>, targets: seq<Option<string>>, channels: set<string>)
    requires |targets| == |pairs|
    requires Deliver(pre + ClueSteps(pairs, targets) + post, channels).error.None?
    ensures AllSome(targets)
    ensures forall i :: 0 <= i < |pairs| ==>
      Post(targets[i].value, CharacterCard(pairs[i].0)) in Deliver(pre + ClueSteps(pairs, targets) + post, channels).posts &&
      Post(targets[i].value, MotiveCard(pairs[i].1)) in Deliver(pre + ClueSteps(pairs, targets) + post, channels).posts
  {
    var clues := ClueSteps(pairs, targets);
    var plan := pre + clues + post;
    var d := Deliver(plan, channels);
    assert forall k :: 0 <= k < |clues| ==> plan[|pre| + k] == clues[k];
    assert AllSend(clues) by {
      forall k | 0 <= k < |clues| ensures clues[k].Send? {
        assert Deliverable(plan[|pre| + k], channels);
      }
    }
    forall i | 0 <= i < |pairs|
      ensures Post(targets[i].value, CharacterCard(pairs[i].0)) in d.posts &&
        Post(targets[i].value, MotiveCard(pairs[i].1)) in d.posts
    {
      var k := |pre| + 2 * i;
      assert plan[k] == clues[2 * i] && plan[k + 1] == clues[2 * i + 1];
      assert d.posts[k] == Post(plan[k].channel, plan[k].item);
      assert d.posts[k + 1] == Post(plan[k + 1].channel, plan[k + 1].item);
    }
  }

  /**
   * When `setup` runs to completion, every character paired with a motive
   * (the first five, as the motives are a shuffle of five numbers) has a
   * clue channel, which has received the character's card and the motive
   * card paired with it.
   */
  lemma {:induction false} CompletedSetupDealsMotives(
    a: Assets, pick: nat, characters: seq<string>, motives: seq<int>, channels: set<string>)
    requires ValidPick(a, pick)
    requires Deliver(Plan(a, pick, characters, motives), channels).error.None?
    ensures forall i :: 0 <= i < Min(|characters|, |motives|) ==>
      ClueChannel(characters[i]).Some? &&
      Post(ClueChannel(characters[i]).value, CharacterCard(characters[i])) in
        Deliver(Plan(a, pick, characters, motives), channels).posts &&
      Post(ClueChannel(characters[i]).value, MotiveCard(motives[i])) in
        Deliver(Plan(a, pick, characters, motives), channels).posts
  {
    var pre := Preamble(a, pick);
    var pairs := Zip(characters, motives);
    var targets := ClueChannels(pairs);
    var plan := Plan(a, pick, characters, motives);
    assert plan == pre + ClueSteps(pairs, targets) + Closing;
    DeliveredClues(pre, Closing, pairs, targets, channels);
    var posts := Deliver(plan, channels).posts;
    forall i | 0 <= i < Min(|characters|, |motives|)
      ensures ClueChannel(characters[i]).Some? &&
        Post(ClueChannel(characters[i]).value, CharacterCard(characters[i])) in posts &&
        Post(ClueChannel(characters[i]).value, MotiveCard(motives[i])) in posts
    {
      assert pairs[i] == (characters[i], motives[i]);
      assert targets[i] == ClueChannel(characters[i]);
    }
  }

  /**
   * When `setup` runs to completion, `player-resources` received the guide,
   * the character sheet, the introduction and the chosen poster, in that
   * order, and each card channel received every image of its folder, in the
   * folder's sorted order.
   */
  lemma {:induction false} CompletedSetupPostsFolders(
    a: Assets, pick: nat, characters: seq<string>, motives: seq<int>, channels: set<string>)
    requires ValidPick(a, pick)
    requires Deliver(Plan(a, pick, characters, motives), channels).error.None?
    ensures a.posters != []
    ensures Deliver(Plan(a, pick, characters, motives), channels).posts[..4] ==
      [Post(PlayerResources, Guide), Post(PlayerResources, CharacterSheet), Post(PlayerResources, Introduction),
       Post(PlayerResources, Poster(a.posters[pick]))]
    ensures forall j :: 4 <= j < 4 + |a.characterImages| ==>
      Deliver(Plan(a, pick, characters, motives), channels).posts[j] ==
        Post(CharacterCards, FolderImage(a.characterImages[j - 4]))
    ensures forall j :: 4 + |a.characterImages| <= j < 4 + |a.characterImages| + |a.suspectImages| ==>
      Deliver(Plan(a, pick, characters, motives), channels).posts[j] ==
        Post(SuspectCards, FolderImage(a.suspectImages[j - 4 - |a.characterImages|]))
    ensures forall j :: 4 + |a.characterImages| + |a.suspectImages| <= j < |Preamble(a, pick)| ==>
      Deliver(Plan(a, pick, characters, motives), channels).posts[j] ==
        Post(LocationCards, FolderImage(a.locationImages[j - 4 - |a.characterImages| - |a.suspectImages|]))
  {
    var pre := Preamble(a, pick);
    var plan := Plan(a, pick, characters, motives);
    var posts := Deliver(plan, channels).posts;
    assert plan == pre + Clues(characters, motives) + Closing;
    DeliveredPrefix(pre, Clues(characters, motives), Closing, channels);
    PreambleLayout(a, pick);
    assert pre[3] == pre[..4][3] == PosterStep(a, pick);
    assert pre[0] == pre[..4][0] && pre[1] == pre[..4][1] && pre[2] == pre[..4][2];
    assert posts[..4] == [Post(pre[0].channel, pre[0].item), Post(pre[1].channel, pre[1].item),
      Post(pre[2].channel, pre[2].item), Post(pre[3].channel, pre[3].item)];
  }
}
