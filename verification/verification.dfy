/** The per-user challenge: the `get_captcha` button hands out a fresh code, and
    the `captcha_modal` submission checks it and grants the guild's role. */
module Verification {
  import opened BotState
  import opened CaptchaCode
  import GuildConfig

  /** What happened when the bot tried to give the member the role: granted (with
      the role's name), the role id not in the guild's role cache, or the member
      fetch or role add threw. */
  datatype GrantOutcome = Granted(roleName: string) | RoleMissing | GrantFailed

  /** `get_captcha`: generate a code from the draws, store it as the user's only
      pending code, and show it as the modal's placeholder. The code is kept per
      user, not per guild. */
  function RequestCaptcha(st: State, user: Snowflake, draws: seq<int>): (h: Handled)
    requires |draws| == CaptchaLength && ValidDraws(draws)
    ensures user in h.state.userCaptchas && h.state.userCaptchas[user] == CodeOf(draws)
    ensures IsCaptchaCode(h.state.userCaptchas[user])
    ensures h.state.userCaptchas - {user} == st.userCaptchas - {user}
    ensures h.state.(userCaptchas := st.userCaptchas) == st
    ensures h.replies == [ShowCaptchaModal(h.state.userCaptchas[user])]
  {
    AlphabetIsAlphanumericAndDistinct();
    var code := CodeOf(draws);
    Handled(st.(userCaptchas := st.userCaptchas[user := code]), [ShowCaptchaModal(code)])
  }

  /** `enteredCaptcha === storedCaptcha`: with no stored code the right-hand side is
      `undefined`, which no entered string equals. */
  predicate Matches(st: State, user: Snowflake, entered: string)
  {
    user in st.userCaptchas && st.userCaptchas[user] == entered
  }

  /** `captchas[guild.id]?.role` is truthy. */
  predicate RoleConfigured(st: State, guild: Snowflake)
  {
    guild in st.captchas && st.captchas[guild].role != ""
  }

  function GrantReply(grant: GrantOutcome): Reply
  {
    match grant
    case Granted(name) => RoleAssigned(name)
    case RoleMissing => RoleNotFound
    case GrantFailed => RoleGrantFailed
  }

  /** `captcha_modal`: a wrong (or unrequested) code changes nothing; a right code
      with no role configured is reported and stays pending; a right code with a
      role configured is consumed whatever the grant outcome. */
  function SubmitCaptcha(st: State, guild: Snowflake, user: Snowflake, entered: string,
                         grant: GrantOutcome): (h: Handled)
    ensures h.replies == [IncorrectCaptcha] <==> !Matches(st, user, entered)
    ensures !Matches(st, user, entered) ==> h.state == st
    ensures Matches(st, user, entered) && !RoleConfigured(st, guild) ==> h == Handled(st, [NoRoleConfigured])
    ensures user in h.state.userCaptchas <==> user in st.userCaptchas && !(Matches(st, user, entered) && RoleConfigured(st, guild))
    ensures Matches(st, user, entered) && RoleConfigured(st, guild) ==>
      && h.replies == [GrantReply(grant)]
      && (grant.Granted? ==> h.replies == [RoleAssigned(grant.roleName)])
      && (h.replies[0].RoleAssigned? <==> grant.Granted?)
    ensures h.state.userCaptchas - {user} == st.userCaptchas - {user}
    ensures user in h.state.userCaptchas ==> h.state.userCaptchas[user] == st.userCaptchas[user]
    ensures h.state.(userCaptchas := st.userCaptchas) == st
  {
    if !Matches(st, user, entered) then
      Handled(st, [IncorrectCaptcha])
    else if !RoleConfigured(st, guild) then
      Handled(st, [NoRoleConfigured])
    else
      Handled(st.(userCaptchas := st.userCaptchas - {user}), [GrantReply(grant)])
  }

  /** After a user requests a code, a submission from that user (in any guild)
      gets past the comparison exactly when it is the newest code: every earlier
      code is now rejected. */
  lemma OnlyNewestCodeMatches(st: State, user: Snowflake, draws: seq<int>, guild: Snowflake,
                              entered: string, grant: GrantOutcome)
    requires |draws| == CaptchaLength && ValidDraws(draws)
    ensures var st' := RequestCaptcha(st, user, draws).state;
      SubmitCaptcha(st', guild, user, entered, grant).replies != [IncorrectCaptcha] <==> entered == CodeOf(draws)
  {
  }

  /** Once a right code has been consumed, submitting anything again (the same code
      included, in any guild) is answered as incorrect and changes nothing. */
  lemma ConsumedCodeIsRejected(st: State, guild: Snowflake, user: Snowflake, entered: string,
                               grant: GrantOutcome, guild2: Snowflake, entered2: string, grant2: GrantOutcome)
    requires Matches(st, user, entered) && RoleConfigured(st, guild)
    ensures var st' := SubmitCaptcha(st, guild, user, entered, grant).state;
      SubmitCaptcha(st', guild2, user, entered2, grant2) == Handled(st', [IncorrectCaptcha])
  {
  }

  /** A right code refused for lack of a role stays valid: once `setupcaptcha`
      configures a non-empty role, the same submission reaches the role grant. */
  lemma PendingCodeSurvivesMissingRole(st: State, guild: Snowflake, user: Snowflake, entered: string,
                                       grant: GrantOutcome, role: Snowflake, channel: Snowflake)
    requires Matches(st, user, entered) && !RoleConfigured(st, guild)
    requires role != ""
    ensures var h := SubmitCaptcha(st, guild, user, entered, grant);
      var st' := GuildConfig.SetupCaptcha(h.state, guild, role, channel).state;
      && h.replies == [NoRoleConfigured]
      && SubmitCaptcha(st', guild, user, entered, grant).replies == [GrantReply(grant)]
      && user !in SubmitCaptcha(st', guild, user, entered, grant).state.userCaptchas
  {
  }
}
