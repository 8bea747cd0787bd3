/** Plain-data stand-ins for the chat platform objects the engine reads.
    Only the fields the engine looks at are kept. */
module Platform {

  /** Channels are referred to by the strings the bot is given or holds. */
  type ChannelRef = string

  datatype Role = Role(id: int, administrator: bool)

  /** A presence activity: a music activity exposes title and artist, every
      other kind exposes its name. */
  datatype Activity = Spotify(title: string, artist: string) | Other(name: string)

  datatype Member = Member(
    id: int,
    bot: bool,
    roles: seq<Role>,
    displayName: string,
    activities: seq<Activity>)

  /** A reaction emoji: a plain unicode emoji, a custom emoji of the server,
      or a custom emoji the server does not know (a partial emoji). */
  datatype Emoji = Unicode(text: string) | Custom(id: int) | PartialCustom(id: int)

  datatype Reaction = Reaction(emoji: Emoji, count: nat)

  datatype Message = Message(id: int, content: string, attachments: seq<string>)

  /** The server: its roles in order, and the members a member fetch finds. */
  datatype Guild = Guild(roles: seq<Role>, members: map<int, Member>)
}
