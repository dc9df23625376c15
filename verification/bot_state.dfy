/** The bot's four in-memory stores, the replies its handlers produce (as abstract
    tags rather than platform UI objects), and the JavaScript truthiness rule the
    handlers lean on when they read an optional string. */
module BotState {

  /** A platform id (guild, user, role or channel) as the string the SDK hands over. */
  type Snowflake = string

  datatype Option<+T> = None | Some(value: T)

  /** JavaScript truthiness of a value that is either a string or null/undefined:
      null, undefined and the empty string are falsy. */
  predicate Truthy(v: Option<string>)
  {
    v.Some? && v.value != ""
  }

  /** JavaScript's `v || fallback` for an optional string. */
  function OrElse(v: Option<string>, fallback: string): string
  {
    if Truthy(v) then v.value else fallback
  }

  /** Per-guild verification settings written by `setupcaptcha`. */
  datatype CaptchaSettings = CaptchaSettings(role: Snowflake, channel: Snowflake)

  /** Per-guild panel settings written by `setcaptchaembed`; the colour is optional. */
  datatype EmbedSettings = EmbedSettings(title: string, description: string, color: Option<string>)

  /** A user's away status: the message and the `Date.now()` timestamp it was set at. */
  datatype AfkStatus = AfkStatus(message: string, time: int)

  /** A mentioned user: the id the AFK store is keyed by and the name notices show. */
  datatype User = User(id: Snowflake, username: string)

  /** The process-wide stores: verification settings and embed settings by guild,
      pending challenge codes and away statuses by user. */
  datatype State = State(
    captchas: map<Snowflake, CaptchaSettings>,
    userCaptchas: map<Snowflake, string>,
    embedSettings: map<Snowflake, EmbedSettings>,
    afkUsers: map<Snowflake, AfkStatus>)

  /** The stores as the process starts: all empty. */
  const Initial: State := State(map[], map[], map[], map[])

  /** The colour, title and description the verification panel is drawn with. */
  datatype RenderedEmbed = RenderedEmbed(color: string, title: string, description: string)

  /** What a handler says back, one tag per distinct reply of the bot. */
  datatype Reply =
    | VerificationConfigured(role: Snowflake, channel: Snowflake)
    | EmbedUpdated(title: string, description: string, color: Option<string>)
    | InvalidColor
    | ChannelNotSet
    | PanelSent(embed: RenderedEmbed)
    | CommandFailed
    | NowAfk(message: string)
    | WelcomeBack(message: string)
    | AwayNotice(user: User, message: string)
    | ShowCaptchaModal(placeholder: string)
    | IncorrectCaptcha
    | NoRoleConfigured
    | RoleAssigned(roleName: string)
    | RoleNotFound
    | RoleGrantFailed

  /** The stores after one event, and the replies sent for it, in order. */
  datatype Handled = Handled(state: State, replies: seq<Reply>)
}
