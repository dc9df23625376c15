/** The away-status tracker: the `afk` command and the `messageCreate` handler. */
module Afk {
  import opened BotState

  const DefaultAfkMessage: string := "AFK"

  /** `afk`: overwrite the caller's status with the message (or "AFK" when it is
      missing or empty) and the current time. */
  function SetAfk(st: State, user: Snowflake, message: Option<string>, now: int): (h: Handled)
    ensures user in h.state.afkUsers
    ensures h.state.afkUsers[user].time == now
    ensures h.state.afkUsers[user].message != ""
    ensures Truthy(message) ==> h.state.afkUsers[user].message == message.value
    ensures !Truthy(message) ==> h.state.afkUsers[user].message == DefaultAfkMessage
    ensures h.state.afkUsers - {user} == st.afkUsers - {user}
    ensures h.state.(afkUsers := st.afkUsers) == st
    ensures h.replies == [NowAfk(h.state.afkUsers[user].message)]
  {
    var text := OrElse(message, DefaultAfkMessage);
    Handled(st.(afkUsers := st.afkUsers[user := AfkStatus(text, now)]), [NowAfk(text)])
  }

  /** The notices the mention loop sends, in mention order: one for each mentioned
      user who has a status in `afk`. */
  function Notices(afk: map<Snowflake, AfkStatus>, mentions: seq<User>): (r: seq<Reply>)
    ensures |r| <= |mentions|
    ensures forall i :: 0 <= i < |r| ==>
      && r[i].AwayNotice?
      && r[i].user in mentions
      && r[i].user.id in afk
      && r[i].message == afk[r[i].user.id].message
    ensures forall u :: u in mentions && u.id in afk ==> AwayNotice(u, afk[u.id].message) in r
    decreases |mentions|
  {
    if mentions == [] then []
    else
      var u := mentions[0];
      (if u.id in afk then [AwayNotice(u, afk[u.id].message)] else []) + Notices(afk, mentions[1..])
  }

  /** `messageCreate`. Messages from bots are ignored. Otherwise the author's own
      status is removed first (with a welcome-back reply echoing it), and then every
      mentioned user who still has a status gets an away notice; mentions never
      remove anyone's status. */
  function OnMessage(st: State, author: Snowflake, isBot: bool, mentions: seq<User>): (h: Handled)
    ensures isBot ==> h == Handled(st, [])
    ensures !isBot ==> h.state.afkUsers == st.afkUsers - {author}
    ensures h.state.(afkUsers := st.afkUsers) == st
    ensures !isBot && author in st.afkUsers ==>
      |h.replies| >= 1 && h.replies[0] == WelcomeBack(st.afkUsers[author].message)
    ensures !isBot ==>
      h.replies[if author in st.afkUsers then 1 else 0..] == Notices(h.state.afkUsers, mentions)
  {
    if isBot then Handled(st, [])
    else
      var welcome := if author in st.afkUsers then [WelcomeBack(st.afkUsers[author].message)] else [];
      var afk := st.afkUsers - {author};
      Handled(st.(afkUsers := afk), welcome + Notices(afk, mentions))
  }

  /** Mention ids are distinct: the platform hands them over as a collection keyed by id. */
  predicate DistinctIds(mentions: seq<User>)
  {
    forall i, j :: 0 <= i < j < |mentions| ==> mentions[i].id != mentions[j].id
  }

  /** With distinct mentions, each mentioned user who is away gets exactly one notice. */
  lemma {:induction false} OneNoticePerAwayMention(afk: map<Snowflake, AfkStatus>, mentions: seq<User>, u: User)
    requires DistinctIds(mentions)
    requires u in mentions && u.id in afk
    ensures multiset(Notices(afk, mentions))[AwayNotice(u, afk[u.id].message)] == 1
    decreases |mentions|
  {
    var notice := AwayNotice(u, afk[u.id].message);
    var head := if mentions[0].id in afk then [AwayNotice(mentions[0], afk[mentions[0].id].message)] else [];
    assert Notices(afk, mentions) == head + Notices(afk, mentions[1..]);
    if mentions[0] == u {
      assert u !in mentions[1..] by {
        forall k | 0 <= k < |mentions[1..]| ensures mentions[1..][k].id != u.id {
          assert mentions[1..][k] == mentions[k + 1];
        }
      }
      assert notice !in Notices(afk, mentions[1..]);
      assert multiset(Notices(afk, mentions[1..]))[notice] == 0;
    } else {
      assert u in mentions[1..];
      assert DistinctIds(mentions[1..]) by {
        forall i, j | 0 <= i < j < |mentions[1..]| ensures mentions[1..][i].id != mentions[1..][j].id {
          assert mentions[1..][i] == mentions[i + 1] && mentions[1..][j] == mentions[j + 1];
        }
      }
      OneNoticePerAwayMention(afk, mentions[1..], u);
      assert multiset(head)[notice] == 0;
    }
  }

  /** For a message from a person the author's status is removed and no other status is. */
  lemma MessageClearsOnlyAuthor(st: State, author: Snowflake, mentions: seq<User>)
    ensures var h := OnMessage(st, author, false, mentions);
      && author !in h.state.afkUsers
      && forall id :: id != author ==> (id in h.state.afkUsers <==> id in st.afkUsers)
  {
  }

  /** The author is never the subject of a notice, even when mentioning themselves:
      their own status is gone before the mentions are looked at. */
  lemma AuthorIsNeverNoticed(st: State, author: Snowflake, mentions: seq<User>)
    ensures var h := OnMessage(st, author, false, mentions);
      forall i :: 0 <= i < |h.replies| && h.replies[i].AwayNotice? ==> h.replies[i].user.id != author
  {
  }

  /** A mentioned user who is away, other than the author, gets a notice carrying
      their stored message, and stays away. */
  lemma MentionedAwayUserIsNoticed(st: State, author: Snowflake, mentions: seq<User>, u: User)
    requires u in mentions && u.id in st.afkUsers && u.id != author
    ensures var h := OnMessage(st, author, false, mentions);
      && AwayNotice(u, st.afkUsers[u.id].message) in h.replies
      && u.id in h.state.afkUsers && h.state.afkUsers[u.id] == st.afkUsers[u.id]
  {
  }

  /** A user goes away, then posts: the status is cleared and they are welcomed back
      with the message they set; a later mention of them by someone else produces
      no notice. */
  lemma AwayThenBack(st: State, user: User, message: Option<string>, now: int,
                     mentions: seq<User>, other: Snowflake)
    requires other != user.id
    ensures var s1 := SetAfk(st, user.id, message, now).state;
      var h2 := OnMessage(s1, user.id, false, mentions);
      var h3 := OnMessage(h2.state, other, false, [user]);
      && user.id !in h2.state.afkUsers
      && h2.replies[0] == WelcomeBack(OrElse(message, DefaultAfkMessage))
      && (forall i :: 0 <= i < |h3.replies| ==> !h3.replies[i].AwayNotice?)
  {
  }
}
