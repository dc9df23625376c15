/** The guild-scoped admin commands: `setupcaptcha` (verification role and
    channel), `setcaptchaembed` (panel title, description and colour) and
    `sendcaptcha` (posting the panel), with the render-time defaults. */
module GuildConfig {
  import opened BotState
  import opened HexColor

  const DefaultColor: string := "#0099ff"
  const DefaultTitle: string := "CAPTCHA Verification"
  const DefaultDescription: string := "Click the button below to receive your CAPTCHA."

  /** `setupcaptcha`: overwrite the guild's role and channel, whatever was there. */
  function SetupCaptcha(st: State, guild: Snowflake, role: Snowflake, channel: Snowflake): (h: Handled)
    ensures guild in h.state.captchas
    ensures h.state.captchas[guild].role == role && h.state.captchas[guild].channel == channel
    ensures h.state.captchas - {guild} == st.captchas - {guild}
    ensures h.state.(captchas := st.captchas) == st
    ensures h.replies == [VerificationConfigured(role, channel)]
  {
    Handled(st.(captchas := st.captchas[guild := CaptchaSettings(role, channel)]),
            [VerificationConfigured(role, channel)])
  }

  /** The colour a guild has stored, if any. */
  function StoredColor(st: State, guild: Snowflake): Option<string>
  {
    if guild in st.embedSettings then st.embedSettings[guild].color else None
  }

  /** `setcaptchaembed`: title and description are written first and stay written;
      the colour is written only when it is given, non-empty and well formed. A
      malformed colour is reported and leaves the stored colour as it was. */
  function SetCaptchaEmbed(st: State, guild: Snowflake, title: string, description: string,
                           color: Option<string>): (h: Handled)
    ensures guild in h.state.embedSettings
    ensures h.state.embedSettings[guild].title == title
    ensures h.state.embedSettings[guild].description == description
    ensures Truthy(color) && MatchesColorPattern(color.value) ==> h.state.embedSettings[guild].color == color
    ensures !(Truthy(color) && MatchesColorPattern(color.value)) ==> h.state.embedSettings[guild].color == StoredColor(st, guild)
    ensures h.replies == [InvalidColor] <==> Truthy(color) && !MatchesColorPattern(color.value)
    ensures h.replies != [InvalidColor] ==> h.replies == [EmbedUpdated(title, description, if Truthy(color) then color else None)]
    ensures h.state.embedSettings - {guild} == st.embedSettings - {guild}
    ensures h.state.(embedSettings := st.embedSettings) == st
  {
    var kept := EmbedSettings(title, description, StoredColor(st, guild));
    if !Truthy(color) then
      Handled(st.(embedSettings := st.embedSettings[guild := kept]), [EmbedUpdated(title, description, None)])
    else if !MatchesColorPattern(color.value) then
      Handled(st.(embedSettings := st.embedSettings[guild := kept]), [InvalidColor])
    else
      Handled(st.(embedSettings := st.embedSettings[guild := kept.(color := color)]),
              [EmbedUpdated(title, description, color)])
  }

  /** The panel as `sendcaptcha` draws it: each stored field, or its default when
      the guild has no settings or the field is empty. */
  function Render(st: State, guild: Snowflake): (e: RenderedEmbed)
    ensures Truthy(StoredColor(st, guild)) ==> e.color == StoredColor(st, guild).value
    ensures !Truthy(StoredColor(st, guild)) ==> e.color == DefaultColor
    ensures guild in st.embedSettings && st.embedSettings[guild].title != "" ==> e.title == st.embedSettings[guild].title
    ensures !(guild in st.embedSettings && st.embedSettings[guild].title != "") ==> e.title == DefaultTitle
    ensures guild in st.embedSettings && st.embedSettings[guild].description != "" ==>
      e.description == st.embedSettings[guild].description
    ensures !(guild in st.embedSettings && st.embedSettings[guild].description != "") ==>
      e.description == DefaultDescription
    ensures e.color != "" && e.title != "" && e.description != ""
  {
    var s := if guild in st.embedSettings then Some(st.embedSettings[guild]) else None;
    RenderedEmbed(
      OrElse(if s.Some? then s.value.color else None, DefaultColor),
      OrElse(if s.Some? then Some(s.value.title) else None, DefaultTitle),
      OrElse(if s.Some? then Some(s.value.description) else None, DefaultDescription))
  }

  /** `!settings || !settings.channel` is false. */
  predicate ChannelConfigured(st: State, guild: Snowflake)
  {
    guild in st.captchas && st.captchas[guild].channel != ""
  }

  /** `sendcaptcha`. `delivered` is whether the configured channel was found in the
      guild and the panel was posted to it; when it was not, the command's catch
      replies with the generic error. No store is written. */
  function SendCaptcha(st: State, guild: Snowflake, delivered: bool): (h: Handled)
    ensures h.state == st
    ensures h.replies == [ChannelNotSet] <==> !ChannelConfigured(st, guild)
    ensures ChannelConfigured(st, guild) && delivered ==> h.replies == [PanelSent(Render(st, guild))]
    ensures ChannelConfigured(st, guild) && !delivered ==> h.replies == [CommandFailed]
  {
    if !ChannelConfigured(st, guild) then Handled(st, [ChannelNotSet])
    else if delivered then Handled(st, [PanelSent(Render(st, guild))])
    else Handled(st, [CommandFailed])
  }

  /** Every colour a guild has stored passed the colour check. */
  predicate StoredColorsValid(st: State)
  {
    forall g :: g in st.embedSettings && st.embedSettings[g].color.Some? ==>
      MatchesColorPattern(st.embedSettings[g].color.value)
  }

  /** After `setcaptchaembed` the panel shows the new title and description (or
      their defaults when empty); its colour is the new colour when that was given
      and valid, and otherwise the colour the panel had before. No other guild's
      panel changes. */
  lemma RenderAfterSetCaptchaEmbed(st: State, guild: Snowflake, title: string, description: string,
                                   color: Option<string>, other: Snowflake)
    requires other != guild
    ensures var e := Render(SetCaptchaEmbed(st, guild, title, description, color).state, guild);
      && e.title == (if title != "" then title else DefaultTitle)
      && e.description == (if description != "" then description else DefaultDescription)
      && e.color == (if Truthy(color) && MatchesColorPattern(color.value) then color.value else Render(st, guild).color)
    ensures Render(SetCaptchaEmbed(st, guild, title, description, color).state, other) == Render(st, other)
  {
  }

  /** `setcaptchaembed` never stores a colour the check rejects. */
  lemma SetCaptchaEmbedKeepsColorsValid(st: State, guild: Snowflake, title: string, description: string,
                                        color: Option<string>)
    requires StoredColorsValid(st)
    ensures StoredColorsValid(SetCaptchaEmbed(st, guild, title, description, color).state)
  {
  }

  /** When every stored colour passed the check, the panel's colour always has the
      checked shape, the default included. */
  lemma RenderedColorIsValid(st: State, guild: Snowflake)
    requires StoredColorsValid(st)
    ensures IsColorShaped(Render(st, guild).color)
  {
  }

  /** `setupcaptcha` makes `sendcaptcha` post the panel exactly when the channel id is
      non-empty, and the panel it posts is the guild's rendered embed. */
  lemma SetupEnablesSend(st: State, guild: Snowflake, role: Snowflake, channel: Snowflake, delivered: bool)
    ensures var st' := SetupCaptcha(st, guild, role, channel).state;
      && (SendCaptcha(st', guild, delivered).replies != [ChannelNotSet] <==> channel != "")
      && (channel != "" && delivered ==> SendCaptcha(st', guild, delivered).replies == [PanelSent(Render(st, guild))])
  {
  }
}
