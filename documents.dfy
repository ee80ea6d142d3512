/** The stored form of a chat in the `chats` collection, as the account and post code reads it. */
module Documents {

  datatype ChatDoc = ChatDoc(
    chatType: int,        // "type": 0 for a group chat, 1 for a direct chat
    owner: string,
    members: seq<string>,
    deleted: bool)
}
