# CAPTCHA / AFK chat bot — a Dafny model

This project models the logic in the `index.js` event callbacks of a small chat-platform bot. The bot keeps four
in-memory stores:

- `captchas`: the verification role and channel of each guild;
- `embedSettings`: the title, description and colour of each guild's verification panel;
- `userCaptchas`: the pending challenge code of each user;
- `afkUsers`: the away status of each user.

Each handler is modelled as a pure transition from the stores to new stores plus the replies it sends. Replies are
abstract tags, not platform UI objects. The modules follow the parts of the file:

- `BotState` (bot_state.dfy): the stores, the reply tags, and JavaScript truthiness of optional strings.
- `HexColor` (hex_color.dfy): the colour regular expression `^#([0-9A-F]{3}){1,2}$` with the `i` flag. It has two
  definitions: the expression as written (groups of three hex digits, repeated once or twice), and the shape it
  accepts. A lemma proves they agree, and a scanning method implements the test.
- `CaptchaCode` (captcha_code.dfy): `generateCaptcha`, both as a recursive function and as the source's loop. It
  proves that code generation is a bijection between draw sequences and alphanumeric strings.
- `GuildConfig` (guild_config.dfy): `setupcaptcha`, `setcaptchaembed`, `sendcaptcha`, and the render-time defaults.
- `Verification` (verification.dfy): the `get_captcha` button and the `captcha_modal` submission.
- `Afk` (afk.dfy): the `afk` command and the `messageCreate` handler.
- `Dispatcher` (dispatcher.dfy): all events as one step function. It proves an invariant holds in every reachable
  state: stored colours are well formed, pending codes are six alphanumeric characters, and away messages are
  non-empty.

Inputs from outside the program are parameters:

- `Math.floor(Math.random() * 62)` is a supplied draw in [0, 62).
- `Date.now()` is a supplied timestamp.
- Whether the panel reached its channel is a supplied flag.
- The outcome of the role grant is a supplied value: granted, role not in the cache, or a thrown error.

Behaviour the model keeps exactly as the code has it:

- On a matching submission with a role configured, the `delete` at index.js:290 runs after the whole try/catch.
  The comment at index.js:289 speaks of removing the CAPTCHA "after successful verification", but the deletion also
  follows the role-not-found reply (index.js:282) and the catch reply (index.js:286), whose text asks the user to
  try again. So the challenge is consumed on all three grant outcomes, and a retry needs a new click of the button.
- A submission with no pending challenge compares the input with `undefined`. It always takes the "incorrect"
  branch (index.js:262-265).
- Slash commands arrive as interactions, not messages, so `afk` does not itself clear the status it sets.

## Model

| member | source | states |
|---|---|---|
| HexColor.ColorPatternShape | index.js:166 | the regular expression accepts a string iff it has length 4 or 7, starts with `#`, and every other character is in `[0-9A-Fa-f]` |
| HexColor.HexGroupsShape | index.js:166 | `([0-9A-F]{3}){1,2}` matches a whole string iff it is exactly 3 or 6 hex digits |
| HexColor.TestColor | index.js:166 | the left-to-right scan returns true exactly when the regular expression matches |
| CaptchaCode.AlphabetIsSourceLiteral | index.js:20 | the alphabet is the source's 62-character `chars` literal |
| CaptchaCode.AlphabetLayout | index.js:20 | the alphabet is `A`-`Z`, then `a`-`z`, then `0`-`9`, each in code-point order, 62 characters in all |
| CaptchaCode.AlphabetIsAlphanumericAndDistinct | index.js:20 | every alphabet character is alphanumeric and no character appears twice |
| CaptchaCode.CodeOf | index.js:19-26 | the code has one character per draw, and position i holds the alphabet character at draw i |
| CaptchaCode.GenerateCaptcha | index.js:19-26 | the loop returns a string of exactly the requested length, equal to the code the draws determine, every character alphanumeric |
| CaptchaCode.DrawOf | index.js:23 | for each alphanumeric character, gives a draw in [0, 62) that selects that character |
| CaptchaCode.DrawsOf | index.js:19-26 | every alphanumeric string is the code of some valid draws (inverse of generation) |
| CaptchaCode.GenerationIsBijective | index.js:19-26 | different draws give different codes, and every alphanumeric string of a length is produced by draws of that length |
| GuildConfig.SetupCaptcha | index.js:146-155 | the guild's role and channel become the given ones; no other guild and no other store changes |
| GuildConfig.SetCaptchaEmbed | index.js:156-173 | title and description are always stored; the colour is replaced only when given, non-empty and valid; an invalid colour yields the validation reply and keeps the old colour; other guilds and stores are untouched |
| GuildConfig.Render | index.js:181-184 | each rendered field is the stored value when the guild has one and it is non-empty, and otherwise `#0099ff`, `CAPTCHA Verification` or `Click the button below to receive your CAPTCHA.`; so no rendered field is ever empty |
| GuildConfig.SendCaptcha | index.js:174-195 | nothing is written; "set the channel first" exactly when the guild has no channel; otherwise the rendered panel, or the generic error when it could not be posted |
| GuildConfig.RenderAfterSetCaptchaEmbed | index.js:161-184 | after `setcaptchaembed` the panel shows the new title and description (default `CAPTCHA Verification` / `Click the button below to receive your CAPTCHA.` when empty), the new colour when valid and otherwise the previous panel colour (default `#0099ff`); other guilds' panels are unchanged |
| GuildConfig.SetCaptchaEmbedKeepsColorsValid | index.js:165-171 | no colour the check rejects is ever stored |
| GuildConfig.RenderedColorIsValid | index.js:182 | with only checked colours stored, the panel colour (default included) is `#` and 3 or 6 hex digits |
| GuildConfig.SetupEnablesSend | index.js:149-178 | after `setupcaptcha`, `sendcaptcha` stops refusing exactly when the channel id is non-empty, and posts the guild's rendered panel |
| Verification.RequestCaptcha | index.js:235-259 | the user's pending code becomes the generated six-character alphanumeric code and is shown as the placeholder; no other user's code or other store changes |
| Verification.SubmitCaptcha | index.js:260-293 | "incorrect" iff the input differs from the stored code (or none is stored), changing nothing; a match without a role keeps the code and reports the missing role; a match with a role removes the code whatever the grant outcome and replies per outcome; no other user's code or other store changes |
| Verification.OnlyNewestCodeMatches | index.js:239-265 | after a code is requested, a submission from that user in any guild passes the comparison iff it equals the newest code |
| Verification.ConsumedCodeIsRejected | index.js:262-292 | once a matching code is consumed, every later submission by that user is "incorrect" and changes nothing |
| Verification.PendingCodeSurvivesMissingRole | index.js:262-290 | a correct code refused for lack of a role still works once `setupcaptcha` configures a role |
| Afk.SetAfk | index.js:196-199 | the caller's status is overwritten with the given message, or `AFK` when it is missing or empty, stamped with the given time; no other status or store changes |
| Afk.Notices | index.js:221-230 | every notice names a mentioned user who is away and carries their stored message; every mentioned user who is away gets a notice |
| Afk.OnMessage | index.js:210-231 | a bot's message changes nothing and gets no reply; otherwise the author's status is removed (welcome-back reply with the stored message when there was one) and the notices are computed after that removal |
| Afk.OneNoticePerAwayMention | index.js:222-229 | with distinct mentions, each mentioned user who is away gets exactly one notice |
| Afk.MessageClearsOnlyAuthor | index.js:213-217 | a person's message removes the author's status and no other |
| Afk.AuthorIsNeverNoticed | index.js:213-229 | no notice is about the author, even when they mention themselves |
| Afk.MentionedAwayUserIsNoticed | index.js:222-229 | a mentioned user who is away, other than the author, gets a notice with their message and keeps their status |
| Afk.AwayThenBack | index.js:196-229 | after `afk` and then a message by the same user, the status is gone and the welcome back echoes the message; a later mention by another user gets no notice |
| Dispatcher.Step | index.js:140-295 | each store is written only by its own handlers; components with other custom ids are ignored; each command and handled component gets exactly one reply |
| Dispatcher.StepPreservesInv | index.js:140-295 | every event keeps the invariant on the stored colours, codes and away messages |
| Dispatcher.RunPreservesInv | index.js:140-231 | any sequence of events keeps the invariant |
| Dispatcher.ReachableStatesAreSound | index.js:13-16 | in every state reachable from empty stores, the panel colour is well formed and every pending code is six alphanumeric characters |

## Left out

- Client construction, presence, login and the `ready` handlers (index.js:4-11, 28-48, 327): these are SDK and
  network setup.
- `registerCommands` (index.js:50-138): a fixed command list pushed over the network. The command parameters it
  declares appear as the fields of `Dispatcher.Event`.
- The `say` command (index.js:309-317): it passes the message straight to the platform and touches no store.
- The empty `setup`/`setembed`/`sendcaptcha` branches of the third interaction handler (index.js:303-308): they do
  nothing.
- Embeds, buttons, modals and reply text: replies are abstract `Reply` tags.
- A reply call that throws: every reply is assumed to succeed. In the source, a throwing reply in the modal's catch
  would skip the deletion at index.js:290.
- `Math.random`/`Math.floor` floating point (index.js:23): each draw is given as an integer in [0, 62). That range
  is all `Math.floor(Math.random() * 62)` can produce.
- `Date.now()` (index.js:198): it is a timestamp parameter.
- Async interleaving: each handler is one atomic step, so two effects of events arriving while a handler awaits are
  not modelled. In `messageCreate`, the welcome-back `await` (index.js:218) sits between the author's deletion
  (index.js:217) and the mention reads (index.js:225-226), so another event can change `afkUsers` in between. In the
  modal handler, the `delete` (index.js:290) runs after the awaits at index.js:275, 279 and 280/282/286; if the same
  user clicks `get_captcha` in that window, index.js:240 stores a new code and the handler then deletes it.
- Discord entity lookups (channel cache, member fetch, role cache, role add): they are the `delivered` flag and
  the `GrantOutcome` value.
- Interactions outside a guild (where `interaction.guild` is null): `setupcaptcha`, `setcaptchaembed` and
  `sendcaptcha` would throw and reply with the generic error, and the modal handler would throw on a match. Each of
  these carries a guild id in the model. `afk` never reads the guild and carries none.
- Afk.OneNoticePerAwayMention: assumes the mentioned users have distinct ids, because the platform delivers
  mentions as a collection keyed by user id.
