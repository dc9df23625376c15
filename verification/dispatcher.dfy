/** The event callbacks as one transition function: every slash command, button
    click, modal submission and plain message is one atomic step over the stores. */
module Dispatcher {
  import opened BotState
  import opened HexColor
  import opened CaptchaCode
  import GuildConfig
  import Verification
  import Afk

  const CaptchaButtonId: string := "get_captcha"
  const CaptchaModalId: string := "captcha_modal"

  /** An event as the handlers see it, with everything the platform, the clock and
      the random source would supply given as data. */
  datatype Event =
    | SetupCaptchaCommand(guild: Snowflake, role: Snowflake, channel: Snowflake)
    | SetCaptchaEmbedCommand(guild: Snowflake, title: string, description: string, color: Option<string>)
    | SendCaptchaCommand(guild: Snowflake, delivered: bool)
    | AfkCommand(user: Snowflake, message: Option<string>, now: int)
    | ButtonClicked(customId: string, user: Snowflake, draws: seq<int>)
    | ModalSubmitted(customId: string, guild: Snowflake, user: Snowflake, entered: string,
                     grant: Verification.GrantOutcome)
    | MessageCreated(author: Snowflake, isBot: bool, mentions: seq<User>)

  /** A click on the CAPTCHA button carries the six draws the random source produced for it. */
  predicate WellFormed(ev: Event)
  {
    ev.ButtonClicked? && ev.customId == CaptchaButtonId ==> |ev.draws| == CaptchaLength && ValidDraws(ev.draws)
  }

  /** A command, or a component with one of the bot's custom ids: each is answered
      with exactly one reply. */
  predicate IsHandledInteraction(ev: Event)
  {
    match ev
    case MessageCreated(_, _, _) => false
    case ButtonClicked(customId, _, _) => customId == CaptchaButtonId
    case ModalSubmitted(customId, _, _, _, _) => customId == CaptchaModalId
    case _ => true
  }

  /** One event. Each store has its own writers: verification settings only
      `setupcaptcha`, embed settings only `setcaptchaembed`, pending codes only the
      button and the modal, away statuses only `afk` and plain messages. Components
      with another custom id are ignored. */
  function Step(st: State, ev: Event): (h: Handled)
    requires WellFormed(ev)
    ensures h.state.captchas != st.captchas ==> ev.SetupCaptchaCommand?
    ensures h.state.embedSettings != st.embedSettings ==> ev.SetCaptchaEmbedCommand?
    ensures h.state.userCaptchas != st.userCaptchas ==> ev.ButtonClicked? || ev.ModalSubmitted?
    ensures h.state.afkUsers != st.afkUsers ==> ev.AfkCommand? || ev.MessageCreated?
    ensures ev.ButtonClicked? && ev.customId != CaptchaButtonId ==> h == Handled(st, [])
    ensures ev.ModalSubmitted? && ev.customId != CaptchaModalId ==> h == Handled(st, [])
    ensures IsHandledInteraction(ev) ==> |h.replies| == 1
  {
    match ev
    case SetupCaptchaCommand(guild, role, channel) =>
      GuildConfig.SetupCaptcha(st, guild, role, channel)
    case SetCaptchaEmbedCommand(guild, title, description, color) =>
      GuildConfig.SetCaptchaEmbed(st, guild, title, description, color)
    case SendCaptchaCommand(guild, delivered) =>
      GuildConfig.SendCaptcha(st, guild, delivered)
    case AfkCommand(user, message, now) =>
      Afk.SetAfk(st, user, message, now)
    case ButtonClicked(customId, user, draws) =>
      if customId == CaptchaButtonId then Verification.RequestCaptcha(st, user, draws)
      else Handled(st, [])
    case ModalSubmitted(customId, guild, user, entered, grant) =>
      if customId == CaptchaModalId then Verification.SubmitCaptcha(st, guild, user, entered, grant)
      else Handled(st, [])
    case MessageCreated(author, isBot, mentions) =>
      Afk.OnMessage(st, author, isBot, mentions)
  }

  /** What always holds of the stores: every stored colour passed the colour check,
      every pending code is six alphanumeric characters, and no away message is empty. */
  predicate Inv(st: State)
  {
    && GuildConfig.StoredColorsValid(st)
    && (forall u :: u in st.userCaptchas ==> IsCaptchaCode(st.userCaptchas[u]))
    && (forall u :: u in st.afkUsers ==> st.afkUsers[u].message != "")
  }

  /** Every event keeps the invariant. */
  lemma StepPreservesInv(st: State, ev: Event)
    requires WellFormed(ev) && Inv(st)
    ensures Inv(Step(st, ev).state)
  {
  }

  /** A run of events from a given state: the final stores and all replies in order. */
  function Run(st: State, events: seq<Event>): Handled
    requires forall i :: 0 <= i < |events| ==> WellFormed(events[i])
    decreases |events|
  {
    if events == [] then Handled(st, [])
    else
      var first := Step(st, events[0]);
      var rest := Run(first.state, events[1..]);
      Handled(rest.state, first.replies + rest.replies)
  }

  /** Any run keeps the invariant. */
  lemma {:induction false} RunPreservesInv(st: State, events: seq<Event>)
    requires forall i :: 0 <= i < |events| ==> WellFormed(events[i])
    requires Inv(st)
    ensures Inv(Run(st, events).state)
    decreases |events|
  {
    if events != [] {
      StepPreservesInv(st, events[0]);
      RunPreservesInv(Step(st, events[0]).state, events[1..]);
    }
  }

  /** In every state the bot can reach from start-up, the panel `sendcaptcha` would
      post has a colour of `#` and 3 or 6 hex digits, and every pending code is six
      alphanumeric characters. */
  lemma ReachableStatesAreSound(events: seq<Event>, guild: Snowflake, user: Snowflake)
    requires forall i :: 0 <= i < |events| ==> WellFormed(events[i])
    ensures var st := Run(Initial, events).state;
      && IsColorShaped(GuildConfig.Render(st, guild).color)
      && (user in st.userCaptchas ==> IsCaptchaCode(st.userCaptchas[user]))
  {
    RunPreservesInv(Initial, events);
    GuildConfig.RenderedColorIsValid(Run(Initial, events).state, guild);
  }
}
