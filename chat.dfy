/**
 * What the game module makes the chat platform do, as values: replies to the
 * invoking command and posts to named text channels of the guild.
 */
module Chat {
  /** A guild's identifier (a Discord snowflake). */
  type GuildId = int

  /** The things the bot posts; image files are named by what they show. */
  datatype Item =
    | Guide                      // "Alice is Missing - Guide.jpg"
    | CharacterSheet             // "Alice is Missing - Character Sheet.jpg"
    | Introduction               // "Misc/Introduction.png"
    | Poster(file: string)       // one missing-person poster
    | FolderImage(file: string)  // one image of a character, suspect or location folder
    | CharacterCard(character: string)
    | MotiveCard(motive: int)
    | NinetyMinuteCard           // "Clues/90/90-1.png"
    | PromptList                 // the fenced list of host prompts
    | FirstMessage               // the opening text message
    | SearchCard(file: string)   // one "Searching" card

  datatype Output =
    | Reply(text: string)                 // `ctx.send` to the invoking channel
    | Post(channel: string, item: Item)   // a send to the named text channel

  const AlreadyBegunText := "Game has already begun!"

  /** A character's clue channel is named by a word of its name followed by this. */
  const ClueSuffix := "-clues"
}
