/**
 * What the bot sees of the chat platform: identifiers, the guild's channels and roles,
 * messages, the configuration document, and the observable effects of a handler.
 */
module Discord {
  import opened Wrappers

  type UserId = int
  type ChannelId = int
  type RoleId = int

  datatype Channel = Channel(id: ChannelId)
  datatype Role = Role(id: RoleId)

  /** The guild as the client resolves it: the ids of the channels and roles that exist. */
  datatype Guild = Guild(channelIds: set<ChannelId>, roleIds: set<RoleId>) {

    /** `guild.get_channel(id)`: the channel, or nothing when the id is unknown. */
    function GetChannel(id: ChannelId): Option<Channel> {
      if id in channelIds then Some(Channel(id)) else None
    }

    /** `guild.get_role(id)`: the role, or nothing when the id is unknown. */
    function GetRole(id: RoleId): Option<Role> {
      if id in roleIds then Some(Role(id)) else None
    }
  }

  datatype Attachment = Attachment(filename: string)

  datatype EmbedMedia = EmbedMedia(url: string)

  /** An embed; each media field is either present or absent. */
  datatype Embed = Embed(
    title: Option<string>,
    description: Option<string>,
    url: Option<string>,
    video: Option<EmbedMedia>,
    thumbnail: Option<EmbedMedia>,
    image: Option<EmbedMedia>)

  /** The parts of a message a handler reads, at one moment. */
  datatype Snapshot = Snapshot(
    author: UserId,
    channel: ChannelId,
    content: string,
    attachments: seq<Attachment>,
    embeds: seq<Embed>)

  /** A message as delivered to the handlers; only its content can be reassigned. */
  class Message {
    const author: UserId
    const channel: ChannelId
    var content: string
    const attachments: seq<Attachment>
    const embeds: seq<Embed>

    constructor (author: UserId, channel: ChannelId, content: string,
                 attachments: seq<Attachment>, embeds: seq<Embed>)
      ensures View() == Snapshot(author, channel, content, attachments, embeds)
    {
      this.author := author;
      this.channel := channel;
      this.content := content;
      this.attachments := attachments;
      this.embeds := embeds;
    }

    function View(): Snapshot
      reads this
    {
      Snapshot(author, channel, content, attachments, embeds)
    }
  }

  /** The configuration document; an absent optional key reads as `None`. */
  datatype Config = Config(
    ownerId: UserId,
    channelIds: map<string, ChannelId>,
    roleIds: map<string, RoleId>,
    mediaRateChannels: seq<string>,
    mediaRateUpvote: Option<string>,
    mediaRateDownvote: Option<string>,
    mediaRateAnyUrl: Option<bool>,
    morbEmoji: Option<string>)

  /** Observable steps of a cog handler: a cooperative sleep, or a reaction added to the message. */
  datatype Event = Sleep(ms: nat) | React(emoji: string)

  /** Every reaction the cogs add is preceded by a sleep of a quarter of a second. */
  const ReactionDelayMs: nat := 250

  /** Exceptions that escape a handler. */
  datatype Fault =
    | AttributeError      // an attribute read on `None` or an attribute that was never set
    | RequestFailed(url: string)  // `session.get` failed before a response existed
    | StartupFailed       // the exception raised by `on_ready` after closing the client
}
