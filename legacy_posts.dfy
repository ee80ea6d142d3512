/**
 * `createPost` of the older `Supporter` class (supporter.py:350-412): builds the post record
 * (legacy `type` field, profanity-filtered content) and decides where the post is stored
 * and whom the live packet addresses. The profanity filter is a parameter.
 */
module LegacyPosts {
  import opened Wrappers

  datatype LegacyPost = LegacyPost(
    id: string,
    postType: int,              // "type": 2 for inbox posts, 1 otherwise
    origin: string,
    author: string,
    content: string,            // "p"
    unfiltered: Option<string>, // "unfiltered_p", present only when the filter changed the text
    isDeleted: bool)

  /** Whom the "direct" packet is sent to. */
  datatype Recipients = Everyone | OneUser(name: string) | ChatMembers(members: Option<seq<string>>)

  /** What `createPost` writes besides the post itself. */
  datatype UnreadUpdate = NoUnread | AllUnread | UserUnread(name: string)

  datatype Created = Created(
    post: LegacyPost,
    stored: bool,               // inserted into `posts`
    recipients: Recipients,
    unread: UnreadUpdate,
    chatTouched: Option<string>) // chat whose `last_active` is refreshed

  function CreatePost(origin: string, user: string, content: string, chatMembers: Option<seq<string>>,
                      postId: string, wordfilter: string -> string): (r: Created)
    ensures r.post.id == postId && r.post.origin == origin && r.post.author == user && !r.post.isDeleted
    ensures r.post.postType == (if origin == "inbox" then 2 else 1)
    ensures r.post.content == wordfilter(content)
    ensures r.post.unfiltered.Some? <==> wordfilter(content) != content
    ensures r.post.unfiltered.Some? ==> r.post.unfiltered.value == content
    ensures r.stored <==> origin != "livechat"
    ensures origin in {"home", "livechat"} ==> r.recipients == Everyone
    ensures origin == "inbox" ==> r.recipients == (if user == "Server" then Everyone else OneUser(user))
    ensures origin !in {"home", "inbox", "livechat"} ==> r.recipients == ChatMembers(chatMembers)
    ensures r.unread != NoUnread <==> origin == "inbox"
    ensures r.chatTouched.Some? <==> origin !in {"home", "inbox", "livechat"}
  {
    var filtered := wordfilter(content);
    var post := LegacyPost(postId, if origin == "inbox" then 2 else 1, origin, user,
                           filtered, if filtered != content then Some(content) else None, false);
    if origin == "home" then
      Created(post, true, Everyone, NoUnread, None)
    else if origin == "inbox" then
      if user == "Server" then Created(post, true, Everyone, AllUnread, None)
      else Created(post, true, OneUser(user), UserUnread(user), None)
    else if origin == "livechat" then
      Created(post, false, Everyone, NoUnread, None)
    else
      Created(post, true, ChatMembers(chatMembers), NoUnread, Some(origin))
  }
}
