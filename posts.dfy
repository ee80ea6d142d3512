/**
 * Post creation and chat listing of the newer `Supporter` class (python/supporter.py:34-133):
 * which replies survive, which custom emojis a post carries, where the post is stored, whom
 * the live event addresses, and which chats a user's chat list holds.
 *
 * `originPosts` stands for the ids that `posts.count_documents({"_id": id, "post_origin": origin})`
 * finds; ids, the `meowid` and the clock are parameters.
 */
module Posts {
  import opened Wrappers
  import opened PyValues
  import opened Seqs
  import opened Documents
  import LegacyPosts

  /* ---------------------------------------------------------------- reply filtering */

  /**
   * The reply loop as written (python/supporter.py:81-86): a `for` over `reply_to` that
   * removes missing replies from the same list. Python's list iterator keeps an index, so
   * after a removal the element that moved into the current slot is never looked at.
   */
  function IterRemove(replies: seq<string>, i: nat, originPosts: set<string>): seq<string>
    decreases |replies| - i
  {
    if i >= |replies| then replies
    else if replies[i] !in originPosts then IterRemove(RemoveFirst(replies, replies[i]), i + 1, originPosts)
    else IterRemove(replies, i + 1, originPosts)
  }

  /** The loop itself, proved against `IterRemove`. */
  method FilterRepliesAsWritten(replyTo: seq<string>, originPosts: set<string>) returns (replies: seq<string>)
    ensures replies == IterRemove(replyTo, 0, originPosts)
  {
    replies := replyTo;
    var i := 0;
    while i < |replies|
      invariant IterRemove(replies, i, originPosts) == IterRemove(replyTo, 0, originPosts)
      decreases |replies| - i
    {
      var reply := replies[i];
      if reply !in originPosts {
        replies := RemoveFirst(replies, reply);
      }
      i := i + 1;
    }
  }

  /** As written, an existing reply is never dropped and nothing is added. */
  lemma {:induction false} IterRemoveKeepsExisting(replies: seq<string>, i: nat, originPosts: set<string>)
    ensures multiset(IterRemove(replies, i, originPosts)) <= multiset(replies)
    ensures forall x :: x in originPosts ==> multiset(IterRemove(replies, i, originPosts))[x] == multiset(replies)[x]
    decreases |replies| - i
  {
    if i < |replies| {
      if replies[i] !in originPosts {
        var next := RemoveFirst(replies, replies[i]);
        RemoveFirstCount(replies, replies[i]);
        IterRemoveKeepsExisting(next, i + 1, originPosts);
      } else {
        IterRemoveKeepsExisting(replies, i + 1, originPosts);
      }
    }
  }

  /** As written, two missing replies in a row: the second one survives. */
  lemma IterRemoveSkipsAfterRemoval()
    ensures IterRemove(["a", "b"], 0, {}) == ["b"]
  {
    assert RemoveFirst(["a", "b"], "a") == ["b"];
  }

  /** The evidently intended filter: keep exactly the replies that exist in the post's origin. */
  function FilterReplies(replyTo: seq<string>, originPosts: set<string>): (r: seq<string>)
    ensures forall i :: 0 <= i < |r| ==> r[i] in originPosts
    ensures forall x :: x in originPosts ==> multiset(r)[x] == multiset(replyTo)[x]
    ensures forall x :: x !in originPosts ==> multiset(r)[x] == 0
  {
    if replyTo == [] then []
    else
      var rest := FilterReplies(replyTo[..|replyTo| - 1], originPosts);
      var last := replyTo[|replyTo| - 1];
      assert replyTo == replyTo[..|replyTo| - 1] + [last];
      if last in originPosts then rest + [last] else rest
  }

  /** The filter keeps the order of the replies: filtering `a + b` is filtering `a`, then `b`. */
  lemma {:induction false} FilterRepliesAppend(a: seq<string>, b: seq<string>, originPosts: set<string>)
    ensures FilterReplies(a + b, originPosts) == FilterReplies(a, originPosts) + FilterReplies(b, originPosts)
    decreases |b|
  {
    if b == [] {
      assert a + b == a;
    } else {
      var init, last := b[..|b| - 1], b[|b| - 1];
      var kept := if last in originPosts then [last] else [];
      assert b == init + [last];
      assert a + b == (a + init) + [last];
      calc {
        FilterReplies(a + b, originPosts);
        { FilterRepliesSnoc(a + init, last, originPosts); }
        FilterReplies(a + init, originPosts) + kept;
        { FilterRepliesAppend(a, init, originPosts); }
        FilterReplies(a, originPosts) + FilterReplies(init, originPosts) + kept;
        { FilterRepliesSnoc(init, last, originPosts); }
        FilterReplies(a, originPosts) + FilterReplies(b, originPosts);
      }
    }
  }

  /** One unfolding of the filter: the last reply is kept exactly when it exists. */
  lemma FilterRepliesSnoc(xs: seq<string>, y: string, originPosts: set<string>)
    ensures FilterReplies(xs + [y], originPosts) == FilterReplies(xs, originPosts) + (if y in originPosts then [y] else [])
  {
    var ys := xs + [y];
    assert ys[..|ys| - 1] == xs && ys[|ys| - 1] == y;
  }

  /** The corrected filter drops both missing replies of the example above. */
  lemma FilterRepliesDropsAllMissing()
    ensures FilterReplies(["a", "b"], {}) == []
  {
  }

  /* ---------------------------------------------------------------- custom emojis */

  predicate IsAlnum(c: char) {
    ('a' <= c <= 'z') || ('A' <= c <= 'Z') || ('0' <= c <= '9')
  }

  /** A match of FILE_ID_REGEX: 24 ASCII letters or digits. */
  predicate IsFileId(x: string) {
    |x| == 24 && forall j :: 0 <= j < 24 ==> IsAlnum(x[j])
  }

  /** A whole match of CUSTOM_EMOJI_REGEX `<:([a-zA-Z0-9]{24})>`. */
  predicate IsEmojiToken(t: string) {
    |t| == 27 && t[0] == '<' && t[1] == ':' && IsFileId(t[2..26]) && t[26] == '>'
  }

  /** CUSTOM_EMOJI_REGEX matches at index `i`. */
  predicate EmojiAt(s: string, i: nat) {
    i + 26 < |s| && IsEmojiToken(s[i..i + 27])
  }

  /** `re.findall(CUSTOM_EMOJI_REGEX, s[i..])`: the captured ids of the leftmost non-overlapping matches. */
  function FindEmojis(s: string, i: nat): (r: seq<string>)
    ensures forall j :: 0 <= j < |r| ==> IsFileId(r[j])
    decreases |s| - i
  {
    if i + 26 >= |s| then []
    else if EmojiAt(s, i) then [s[i..i + 27][2..26]] + FindEmojis(s, i + 27)
    else FindEmojis(s, i + 1)
  }

  /** Two matches cannot overlap: inside a match no character is '<' but the first. */
  lemma EmojisApart(s: string, i: nat, k: nat)
    requires EmojiAt(s, i) && i < k < i + 27
    ensures !EmojiAt(s, k)
  {
    var t := s[i..i + 27];
    assert s[k] == t[k - i];
    if 2 <= k - i < 26 {
      assert t[k - i] == t[2..26][k - i - 2];
    }
  }

  /**
   * The scan finds exactly the pattern's matches: an id is found from index `i` on exactly
   * when `<:id>` with a 24-character alphanumeric id occurs at some index from `i` on.
   */
  lemma {:induction false} FindEmojisMatches(s: string, i: nat, x: string)
    ensures x in FindEmojis(s, i) <==> exists k :: i <= k && EmojiAt(s, k) && x == s[k + 2..k + 26]
    decreases |s| - i
  {
    if i + 26 >= |s| {
    } else if EmojiAt(s, i) {
      FindEmojisMatches(s, i + 27, x);
      var found, matched := s[i..i + 27][2..26], s[i + 2..i + 26];
      assert found == matched by {
        forall j | 0 <= j < 24 ensures found[j] == matched[j] {
          assert found[j] == s[i..i + 27][j + 2] == s[i + j + 2];
        }
      }
      if exists k :: i <= k && EmojiAt(s, k) && x == s[k + 2..k + 26] {
        var k :| i <= k && EmojiAt(s, k) && x == s[k + 2..k + 26];
        if i < k < i + 27 {
          EmojisApart(s, i, k);
        }
      }
    } else {
      FindEmojisMatches(s, i + 1, x);
    }
  }

  /** A match at the front is taken whole, then the scan goes on after its `>`. */
  lemma FindEmojisFront(id: string, rest: string)
    requires IsFileId(id)
    ensures FindEmojis("<:" + id + ">" + rest, 0) == [id] + FindEmojis(rest, 0)
  {
    var s := "<:" + id + ">" + rest;
    assert s[0..27] == "<:" + id + ">";
    assert s[0..27][2..26] == id;
    assert EmojiAt(s, 0);
    FindEmojisShift("<:" + id + ">", rest, 0);
  }

  /** Scanning the tail of `prefix + rest` from `|prefix|` is scanning `rest`. */
  lemma {:induction false} FindEmojisShift(prefix: string, rest: string, i: nat)
    ensures FindEmojis(prefix + rest, |prefix| + i) == FindEmojis(rest, i)
    decreases |rest| - i
  {
    var s := prefix + rest;
    if |prefix| + i + 26 < |s| {
      assert s[|prefix| + i..|prefix| + i + 27] == rest[i..i + 27];
      if EmojiAt(rest, i) {
        FindEmojisShift(prefix, rest, i + 27);
      } else {
        FindEmojisShift(prefix, rest, i + 1);
      }
    }
  }

  /** Text without '<' carries no custom emoji. */
  lemma {:induction false} NoEmojisWithoutBracket(s: string, i: nat)
    requires '<' !in s
    ensures FindEmojis(s, i) == []
    decreases |s| - i
  {
    if i + 26 < |s| {
      assert !EmojiAt(s, i);
      NoEmojisWithoutBracket(s, i + 1);
    }
  }

  /** `list(set(re.findall(...)))`: each matched id once (in order of first match). */
  function Emojis(content: string): (r: seq<string>)
    ensures NoDuplicates(r)
    ensures forall j :: 0 <= j < |r| ==> IsFileId(r[j]) && r[j] in FindEmojis(content, 0)
    ensures forall x :: x in FindEmojis(content, 0) ==> x in r
  {
    var found := FindEmojis(content, 0);
    var r := Distinct(found);
    assert forall x :: x in found ==> x in r by {
      forall x | x in found ensures x in r {
        var k :| 0 <= k < |found| && found[k] == x;
      }
    }
    r
  }

  /* ---------------------------------------------------------------- create_post */

  datatype Post = Post(
    id: string,
    meowid: int,
    origin: string,            // "post_origin"
    author: string,            // "u"
    time: int,                 // "t": {"e": ...}
    content: string,           // "p"
    attachments: seq<PyValue>,
    isDeleted: bool,
    pinned: bool,
    replyTo: seq<string>,
    reactions: seq<PyValue>,
    emojis: seq<string>,
    stickers: seq<string>,
    nonce: Option<string>)

  /** The `usernames` of `send_event`: `None` (everyone) or a list. */
  datatype Audience = Everyone | Usernames(names: seq<string>)

  /** The `unread_inbox` update. */
  datatype UnreadUpdate = NoUnread | AllUnread | UserUnread(name: string)

  datatype Created = Created(
    post: Post,                // the post returned (and sent); it carries the nonce
    stored: Option<Post>,      // the document inserted into `posts`, None for livechat
    event: string,             // "inbox_message" or "post"
    audience: Audience,
    unread: UnreadUpdate,
    chatTouched: Option<string>) // chat whose `last_active` is set to `now`

  /** `nonce` is attached when it is truthy: given and not empty. */
  predicate Truthful(nonce: Option<string>) {
    nonce.Some? && nonce.value != ""
  }

  /** `create_post(origin, author, content, ...)` with the corrected reply filter. */
  function CreatePost(origin: string, author: string, content: string, attachments: seq<PyValue>,
                      stickers: seq<string>, nonce: Option<string>, chatMembers: seq<string>,
                      replyTo: seq<string>, originPosts: set<string>,
                      postId: string, meowid: int, now: int): (r: Created)
    ensures r.post.id == postId && r.post.origin == origin && r.post.author == author && r.post.content == content
    ensures !r.post.isDeleted && !r.post.pinned && r.post.reactions == [] && r.post.time == now
    ensures forall i :: 0 <= i < |r.post.replyTo| ==> r.post.replyTo[i] in originPosts
    ensures forall x :: x in originPosts ==> multiset(r.post.replyTo)[x] == multiset(replyTo)[x]
    ensures r.post.emojis == Emojis(content)
    ensures r.stored.Some? <==> origin != "livechat"
    ensures r.stored.Some? ==> r.stored.value == r.post.(nonce := None)
    ensures r.post.nonce.Some? <==> Truthful(nonce)
    ensures r.post.nonce.Some? ==> r.post.nonce == nonce
    ensures origin == "inbox" ==> r.event == "inbox_message" && r.audience == (if author == "Server" then Everyone else Usernames([author]))
    ensures origin != "inbox" ==> r.event == "post" && r.audience == (if origin in ["home", "livechat"] then Everyone else Usernames(chatMembers))
    ensures r.unread != NoUnread <==> origin == "inbox"
    ensures origin == "inbox" ==> r.unread == (if author == "Server" then AllUnread else UserUnread(author))
    ensures r.chatTouched.Some? <==> origin != "inbox" && origin != "home"
    ensures r.chatTouched.Some? ==> r.chatTouched.value == origin
  {
    var replies := FilterReplies(replyTo, originPosts);
    var post := Post(postId, meowid, origin, author, now, content, attachments, false, false,
                     replies, [], Emojis(content), stickers, None);
    var stored := if origin != "livechat" then Some(post) else None;
    var post := if Truthful(nonce) then post.(nonce := nonce) else post;
    var event := if origin == "inbox" then "inbox_message" else "post";
    var audience :=
      if origin == "inbox" then (if author == "Server" then Everyone else Usernames([author]))
      else if origin in ["home", "livechat"] then Everyone else Usernames(chatMembers);
    var unread := if origin != "inbox" then NoUnread else if author == "Server" then AllUnread else UserUnread(author);
    var touched := if origin != "inbox" && origin != "home" then Some(origin) else None;
    Created(post, stored, event, audience, unread, touched)
  }

  /* ---------------------------------------------------------------- get_chats */

  /** `user_settings[key]` with the missing-document and missing-key defaults of python/supporter.py:40-48. */
  function SettingList(userSettings: Option<Doc>, key: string): PyValue {
    if userSettings.None? || userSettings.value == map[] || key !in userSettings.value then PList([])
    else userSettings.value[key]
  }

  /**
   * The ids of the chats `get_chats(username)` returns: undeleted chats that list the user,
   * and among them the direct chats only when the user's active DMs or favourites name
   * them. Concatenating a non-list setting raises `TypeError`.
   */
  function GetChats(username: string, userSettings: Option<Doc>, chats: map<string, ChatDoc>): (r: Result<set<string>, PyException>)
    ensures r.Ok? <==> SettingList(userSettings, "active_dms").PList? && SettingList(userSettings, "favorited_chats").PList?
    ensures r.Ok? ==> forall id :: id in r.value <==>
      id in chats && username in chats[id].members && !chats[id].deleted
      && (chats[id].chatType == 0
          || PStr(id) in SettingList(userSettings, "active_dms").items
          || PStr(id) in SettingList(userSettings, "favorited_chats").items)
  {
    var dms := SettingList(userSettings, "active_dms");
    var favorites := SettingList(userSettings, "favorited_chats");
    if !dms.PList? || !favorites.PList? then Err(TypeError)
    else
      var listed := dms.items + favorites.items;
      Ok(set id | id in chats && username in chats[id].members && !chats[id].deleted
                  && (PStr(id) in listed || chats[id].chatType == 0))
  }

  /** A user without stored settings sees exactly the undeleted group chats they are a member of. */
  lemma GetChatsWithoutSettings(username: string, chats: map<string, ChatDoc>)
    ensures GetChats(username, None, chats) ==
      Ok(set id | id in chats && username in chats[id].members && !chats[id].deleted && chats[id].chatType == 0)
  {
    var r := GetChats(username, None, chats);
    var groups := set id | id in chats && username in chats[id].members && !chats[id].deleted && chats[id].chatType == 0;
    assert SettingList(None, "active_dms") == PList([]) && SettingList(None, "favorited_chats") == PList([]);
    assert r.Ok?;
    assert r.value == groups;
  }
  /* ---------------------------------------------------------------- the two servers */

  /**
   * The older `createPost` and the newer `create_post` store and address posts alike: the
   * same origins are persisted, mark inboxes unread and reach everyone, and both send a
   * non-Server inbox post to its author alone. Only the newer one also refreshes
   * `last_active` for "livechat".
   */
  lemma RoutingAgrees(origin: string, author: string, content: string, attachments: seq<PyValue>,
                      stickers: seq<string>, nonce: Option<string>, chatMembers: seq<string>,
                      replyTo: seq<string>, originPosts: set<string>, postId: string, meowid: int, now: int,
                      wordfilter: string -> string)
    ensures var legacy := LegacyPosts.CreatePost(origin, author, content, Some(chatMembers), postId, wordfilter);
      var current := CreatePost(origin, author, content, attachments, stickers, nonce, chatMembers,
                                replyTo, originPosts, postId, meowid, now);
      && (legacy.stored <==> current.stored.Some?)
      && (legacy.recipients == LegacyPosts.Everyone <==> current.audience == Everyone)
      && (legacy.recipients == LegacyPosts.OneUser(author) <==> origin == "inbox" && current.audience == Usernames([author]))
      && (legacy.recipients == LegacyPosts.ChatMembers(Some(chatMembers)) <==>
            origin !in {"home", "inbox", "livechat"} && current.audience == Usernames(chatMembers))
      && (legacy.unread == LegacyPosts.AllUnread <==> current.unread == AllUnread)
      && (legacy.unread == LegacyPosts.UserUnread(author) <==> current.unread == UserUnread(author))
      && (legacy.chatTouched == current.chatTouched <==> origin != "livechat")
  {
    assert origin in ["home", "livechat"] <==> origin in {"home", "livechat"};
  }
}
