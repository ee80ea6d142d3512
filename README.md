# Meower server core, modelled in Dafny

This project models the small, sequential rules at the heart of the Meower chat server. They are:

- the in-memory rate limiter;
- the per-connection session table with its username index, and the connect gate;
- the account and authorisation rules: permission and restriction bitmasks, ban evaluation, field filtering of accounts and settings, and what deleting an account does to its chats;
- the admin message handler that merges ban states and joins admin notes;
- post creation: reply filtering, custom emoji extraction, storage and the choice of recipients, in both the older and the newer server;
- the chat entity with its member list and ordered permission dict;
- user identity: the fixed system users, username availability, renaming, the public flag mask;
- page counting, netblock loading and the recovery-code migration of the database module;
- the signed ticket envelope `base64("0:<id>") + "." + signature` over Base64 (section 4 of RFC 4648);
- the IP network records.

MongoDB collections and Redis are maps, and time is an integer `now`. Foreign calls are function parameters: the profanity filter, signing and signature checks, and radix-trie matching. Python's dynamic values are the `PyValues.PyValue` datatype, whose `isinstance`, truthiness and `True == 1` rules follow Python for None, bool, int, str, list and dict; every other object is one value, `POther` (see Left out).

Objects the source updates in place are classes whose methods are proved against specification functions:

- `RateLimit.RateLimiter`
- `Sessions.Registry`
- `Chats.Chat`
- `Users.User`
- `Networks.Network`
- `Tickets.TicketStore`
- `Security.AccountStore`
- `AdminBus.AdminListener`

Pure rules are functions with lemmas about them.

The modules are:

| file | module | source |
|---|---|---|
| rate_limiter.dfy | RateLimit | supporter.py |
| sessions.dfy | Sessions | supporter.py |
| legacy_posts.dfy | LegacyPosts | supporter.py |
| security.dfy | Security | security.py |
| admin_bus.dfy | AdminBus | python/supporter.py |
| posts.dfy | Posts | python/supporter.py |
| chats.dfy | Chats | src/entities/chats.py |
| users.dfy | Users | src/entities/users.py |
| database.dfy | Database | python/database.py |
| base64.dfy, tickets.dfy | Base64, Tickets | src/entities/tickets.py |
| networks.dfy | Networks | src/common/entities/networks.py |

The helper modules are:

- `Wrappers`: Option, Result, Outcome.
- `PyValues`.
- `Text`: lowercasing of ASCII letters, counting, splitting.
- `Bits`: bits of unbounded Python integers.
- `Seqs`.
- `Documents`: the stored chat document.

## Model

| member | source | states |
|---|---|---|
| RateLimit.RateLimiter.constructor | supporter.py:28 | The limiter starts with no buckets. |
| RateLimit.Limited | supporter.py:326-334 | The definition of `ratelimited`: a missing bucket is not limited, nor one with hits left or past its expiry. `RateLimiter.Ratelimited` and the lemmas below are stated with it. |
| RateLimit.Consumed | supporter.py:336-344 | `ratelimit` stores a bucket under the key and leaves every other bucket as it was. |
| RateLimit.Cleared | supporter.py:346-348 | `clear_ratelimit` removes the key's bucket and leaves every other bucket as it was. |
| RateLimit.RateLimiter.Ratelimited | supporter.py:326-334 | A key is limited iff its bucket exists, has `remaining <= 0` and `now <= expires`; nothing changes. |
| RateLimit.RateLimiter.Ratelimit | supporter.py:336-344 | The new bucket map: an absent or expired bucket restarts at `limit` with expiry `now + seconds`; then the remaining count drops by one. |
| RateLimit.RateLimiter.ClearRatelimit | supporter.py:346-348 | The bucket map without the key. |
| RateLimit.AbsentOrExpiredNotLimited | supporter.py:326-334 | An absent or expired bucket is never limited. |
| RateLimit.ConsumeFresh | supporter.py:336-344 | On a fresh bucket, the stored pair is `[limit - 1, now + seconds]` and no other key changes. |
| RateLimit.DrainLive | supporter.py:336-344 | Calls that find the bucket unexpired only count it down, one per call, and keep its expiry. |
| RateLimit.Burst | supporter.py:331-344 | `n` calls inside the window of a fresh bucket leave `remaining == limit - n`, negative past the limit, and the first call's expiry. |
| RateLimit.LimitedAfterBurst | supporter.py:326-344 | Within the window, the key is limited iff at least `limit` calls were made. |
| RateLimit.AfterWindow | supporter.py:326-344 | After the expiry the key is not limited, and the next call restarts the bucket. |
| RateLimit.ClearOnlyKey | supporter.py:346-348 | Clearing removes only that key, leaves it unlimited, and is a no-op on an absent key. |
| RateLimit.FiveFailedLoginsBlock | rest_api/auth.py:22-52 | Five failed logins within a minute block the next login, and leave the success bucket alone. |
| Sessions.Present | supporter.py:104-108 | The ids that have a session: each one is present and listed, and none is lost. |
| Sessions.Resolve | supporter.py:93-102 | A username stands for its sessions, a dict or an int for one session id; any other client raises the "not a supported datatype" error, and only it. |
| Sessions.PresentAppend | supporter.py:104-108 | The ids are kept in input order: the present ids of `a + b` are those of `a` followed by those of `b`. |
| Sessions.PresentSnoc | supporter.py:104-108 | One more listed id is appended exactly when it has a session. |
| Sessions.PresentStates | supporter.py:104-108 | The states of the present ids, position by position. |
| Sessions.SetKey | supporter.py:125-129 | Every present listed session gets the key; unlisted sessions are unchanged; no session appears or disappears. |
| Sessions.SetKeyStep | supporter.py:125-129 | Setting the key on one more id extends the update by exactly that session. |
| Sessions.Registry.constructor | supporter.py:164-183 | An empty table with the given repair mode and blocked netblocks. |
| Sessions.Registry.GetClientStatedata | supporter.py:86-108 | An unsupported client reference is an error; otherwise the states of the present listed sessions, in order. |
| Sessions.PresentStatesPrefix | supporter.py:86-108 | One more listed id adds that session's state when it exists and nothing otherwise. |
| Sessions.Registry.ModifyClientStatedata | supporter.py:110-131 | Sets the key on every present listed session and skips absent ids; only the session table changes. |
| Sessions.SetKeyPrefix | supporter.py:110-131 | One more listed id sets the key on that session when it exists and changes nothing otherwise. |
| Sessions.Registry.IsAuthenticated | supporter.py:252-263 | True once more than one session is found; otherwise the single session's "authed" value; no session raises. |
| Sessions.Registry.AutoId | supporter.py:269-277 | The session's username is set and its id is appended to that username's list, which is created when missing. |
| Sessions.Registry.OnConnect | supporter.py:164-183 | Repair mode refuses every client; otherwise a matched IP is refused; otherwise the client's `authtype` is `""` and `authed` is False. |
| Sessions.AutoIdKeepsIndexConsistent | supporter.py:269-277 | For a session bound to no other username, `autoID` keeps every listed id existing and carrying its username. |
| Sessions.AutoIdRebindLeavesStaleEntry | supporter.py:269-277 | Rebinding a session to a second username leaves it listed under the first. |
| Sessions.ManySessionsCountAsAuthenticated | supporter.py:256-263 | Two sessions count as authenticated even when neither has "authed" set. |
| LegacyPosts.CreatePost | supporter.py:350-412 | Type 2 for inbox and 1 otherwise; the filtered content, with the original kept iff the filter changed it. Storage is everywhere but livechat. Recipients are everyone for home and livechat, the author or everyone (for "Server") for inbox, otherwise the chat's members. |
| Security.HasPermission | security.py:202-206 | The definition of `has_permission` on the two masks; `HasPermissionBits` and `HasSinglePermission` state what it means bit by bit. |
| Security.HasPermissionBits | security.py:202-206 | True for any permission when the SYSADMIN bit is held; otherwise true iff every bit of `permission` is held. |
| Security.HasSinglePermission | security.py:47-73 | Each permission constant is one bit, and holding it means holding that bit or SYSADMIN. |
| Security.StrIn | security.py:227 | Python's `in` for a string: a substring, a list element or a dict key; other containers raise TypeError. |
| Security.FindByLower | security.py:218-220 | The account stored under the lowercased username, if it is a non-empty document. |
| Security.IsRestricted | security.py:208-231 | False for bad argument types or an unknown account. Errors for a malformed ban. Otherwise the restriction check. |
| Security.IsRestrictedOnRecord | security.py:222-231 | On a well-formed ban: restricted iff the state is not "none", the ban is permanent or unexpired, and every restriction bit is set. |
| Security.Banned | security.py:117-126 | The `banned` verdict for any stored ban value, including the error cases of a malformed one. |
| Security.BannedOnRecord | security.py:117-126 | `perm_ban` bans; `temp_ban` bans only while `expires > now`; any other state or no ban does not. |
| Security.WithConfig | security.py:129-134 | Every default setting key is present, and a stored setting overrides its default. |
| Security.AccountView | security.py:100-139 | `get_account`: None for a non-string name or an unknown account. Never holds a sensitive field unless stored settings carry it. Errors for a missing or malformed ban. |
| Security.AccountViewWithoutConfig | security.py:111-137 | Without config: the sensitive fields and the ban are gone, `lvl` is 0, `banned` is the verdict, and every other stored field is kept. |
| Security.AccountViewWithConfig | security.py:128-134 | With config, defaults are present and stored settings override them; a sensitive field appears only through the stored settings. |
| Security.ConfigMerge | security.py:128-134 | The merged account keeps the verdict and agrees with the stored settings, then the defaults, then the account. |
| Security.DefaultsApart | security.py:14-37 | No default setting is named `banned`, `_id` or a sensitive field, so merging the defaults cannot expose or override them. |
| Security.AccountViewErrors | security.py:117-131 | A found account without "ban", a malformed ban, or no "_id" with config included raises. |
| Security.GetAccount | security.py:100-139 | The method, with the sensitive-field loop, returns exactly `AccountView`. |
| Security.FoundAccountView | security.py:111-139 | The view built from a found account is an error exactly when the ban is missing or malformed, or config is asked for without an `_id`. |
| Security.BuildAccountView | security.py:111-139 | The steps after the lookup compute exactly `FoundAccountView`. |
| Security.WithoutFields | security.py:112-114 | The deletion loop removes exactly the listed keys and keeps the rest of the document. |
| Security.ProfileFields | security.py:159-170 | `pfp_data` kept only as an int, `custom_pfp` only as None or a string, `quote` only as a string of at most 360 characters. |
| Security.SettingsFields | security.py:173-181 | Exactly the default keys (except `tos_revisions`) whose new value has the default's type, with favourites capped. |
| Security.SettingsFieldsStep | security.py:173-181 | One more key of the loop adds exactly that key's kept value. |
| Security.SettingsUpdate | security.py:141-189 | False for bad argument types or an unknown account; otherwise the two filtered `$set` documents. |
| Security.SettingsUpdateFound | security.py:150-189 | For a str name, a dict and a found account: nothing to write gives True and no write; otherwise the two documents are written against the account's `_id`, and KeyError is raised exactly when that `_id` is missing. |
| Security.FavoritedChatsCapped | security.py:178-179 | A kept `favorited_chats` list is its first 50 entries at most. |
| Security.SettingsTypeCheckExamples | security.py:177 | `isinstance` as Python has it: a bool passes the int check; a string fails the bool check. |
| Security.UpdateSettings | security.py:141-189 | The method computes exactly `SettingsUpdate`. |
| Security.CheckedProfile | security.py:159-170 | The profile checks keep exactly the fields `ProfileFields` keeps. |
| Security.KeptSettings | security.py:173-181 | The settings loop computes exactly `SettingsFields` over all default keys. |
| Security.CheckedSetting | security.py:174-181 | A key is kept exactly when `KeepsSetting` holds, with its favourites-capped value. |
| Security.SettingsLoopStep | security.py:173-181 | Each turn of the settings loop extends `SettingsFields` by exactly the key it looks at. |
| Security.Scrubbed | security.py:243-254 | The definition of the `$set` that scrubs a deleted account; `AccountStore.DeleteAccount` merges exactly it into the account. |
| Security.DeletedFlags | security.py:235-240 | Missing flags raise KeyError, and flags that are not an int raise TypeError. |
| Security.DeletedFlagsBits | security.py:240 | Deletion sets the DELETED bit and keeps every other bit. |
| Security.MemberChats | security.py:277-279 | The ids of exactly the chats that list the user. |
| Security.ChatsFixedUp | security.py:277-290 | The definition of the chats after the loop has handled the chats in `done`: those that dissolve are gone, the others lose the user. `ChatsFixedUpNone`, `ChatsFixedUpStep` and `ChatsAfterDeletion` state its properties. |
| Security.ChatsFixedUpNone | security.py:277-290 | Before the loop nothing has changed. |
| Security.ChatsFixedUpStep | security.py:280-290 | One chat more is deleted, or loses the user and passes ownership. |
| Security.ChatsLoopStep | security.py:277-290 | Each turn of the chat loop deletes or fixes up exactly the chat it looks at, which is still as stored. |
| Security.ChatsAfterDeletion | security.py:277-290 | Chats without the user are untouched. Direct or single-member chats with the user are gone. Elsewhere the user loses one membership, and the owner becomes "Deleted" iff it was the user. |
| Security.AccountStore.constructor | security.py:233-299 | The collections, with no kicks yet. |
| Security.AccountStore.DeleteAccount | security.py:233-299 | Unknown account: nothing. Bad flags: the error and nothing. Otherwise: account scrubbed with DELETED set, user kicked, settings removed, chats fixed up; `purge` deletes the account, or raises KeyError without a uuid. |
| Security.AccountStore.FixUpChats | security.py:277-290 | The chat loop leaves exactly `ChatsFixedUp` over the member chats, and nothing else changes. |
| AdminBus.MergedBan | python/supporter.py:152-157 | Each of state, restrictions, expires and reason from the message when present, else the stored one; raises unless the stored ban is a dict with all four. |
| AdminBus.JoinedNote | python/supporter.py:163-171 | The new note after non-empty existing notes with a blank line between, or the note alone. |
| AdminBus.Logouts | python/supporter.py:174-175 | One logout per session of the user, in order. |
| AdminBus.BanUser | python/supporter.py:144-175 | A "ban_user" message creates or removes no account, never drops a notes document, and only appends effects. |
| AdminBus.Handle | python/supporter.py:138-177 | The same holds of one message of any kind, an undecodable one included. |
| AdminBus.HandleAll | python/supporter.py:138-177 | The same holds of any sequence of messages handled in order. |
| AdminBus.HandleAllAppend | python/supporter.py:138-177 | Handling `a + b` is handling `a`, then `b` from the resulting state. |
| AdminBus.UndecodableIsSkipped | python/supporter.py:138-177 | An undecodable message changes nothing, and the later ones are handled as if it had not come. |
| AdminBus.BanUnknownUserChangesNothing | python/supporter.py:144-157 | A ban for an unknown user, or for one without a complete stored ban, changes nothing. |
| AdminBus.BanKnownUser | python/supporter.py:144-175 | A ban writes the merged state into that account only; without a note it logs out the user's sessions, in order. |
| AdminBus.BanNoteJoined | python/supporter.py:163-171 | With a note, the notes document under the user's uuid holds the joined notes. |
| AdminBus.BanUserNote | python/supporter.py:163-175 | With a valid ban and a note, the notes collection gains the joined note under the user's uuid, nothing else changes there, and every session of the user is logged out in order; a note that cannot be joined leaves the notes and the effects as they were. |
| AdminBus.AdminListener.constructor | python/supporter.py:135-140 | The collections, with no effects yet. |
| AdminBus.AdminListener.Listen | python/supporter.py:135-177 | After the loop, the state is `HandleAll` of the messages in order. |
| Posts.IterRemove | python/supporter.py:81-86 | The definition of the loop as written: index `i` walks the list while missing replies are removed from it. `IterRemoveKeepsExisting` and `IterRemoveSkipsAfterRemoval` state what it does. |
| Posts.FilterRepliesAsWritten | python/supporter.py:81-86 | The remove-while-iterating loop computes exactly `IterRemove`. |
| Posts.IterRemoveKeepsExisting | python/supporter.py:81-86 | As written, an existing reply is never dropped and nothing is added. |
| Posts.IterRemoveSkipsAfterRemoval | python/supporter.py:81-86 | As written, `["a", "b"]` with neither existing leaves `["b"]`. |
| Posts.FilterReplies | python/supporter.py:81-86 | Every kept reply exists in the origin, and each existing one keeps its multiplicity. |
| Posts.FilterRepliesAppend | python/supporter.py:81-86 | The filter keeps the order of the replies: filtering `a + b` is filtering `a` followed by filtering `b`. |
| Posts.FilterRepliesSnoc | python/supporter.py:81-86 | One more reply is appended exactly when it exists in the origin. |
| Posts.FilterRepliesDropsAllMissing | python/supporter.py:81-86 | The corrected filter drops both missing replies of that example. |
| Posts.FindEmojis | python/supporter.py:16-17 | `re.findall` of the custom emoji pattern: each result is a 24-character alphanumeric id. |
| Posts.FindEmojisMatches | python/supporter.py:16-17 | An id is found from position `i` on exactly when the pattern matches at some position `k >= i` with that id inside. |
| Posts.EmojisApart | python/supporter.py:17 | Two matches of the pattern cannot overlap: within 27 characters after a match no other match starts. |
| Posts.FindEmojisFront | python/supporter.py:17 | A match at the front is taken whole and the scan resumes after it. |
| Posts.FindEmojisShift | python/supporter.py:17 | Scanning a suffix of the text is scanning that suffix alone. |
| Posts.NoEmojisWithoutBracket | python/supporter.py:17 | Text without `<` has no emojis. |
| Posts.Emojis | python/supporter.py:101 | The distinct matched ids, each once, and nothing else. |
| Seqs.RemoveFirst | python/supporter.py:86 | `list.remove`: one element shorter when the value is present, the list unchanged otherwise. |
| Seqs.Distinct | python/supporter.py:101 | `list(set(...))`: no duplicates, and exactly the elements of the input. |
| Posts.CreatePost | python/supporter.py:66-133 | Kept replies exist; emojis are the distinct matches. Stored unless livechat, without the nonce; the nonce only when truthy. Audience, `unread_inbox` update and `last_active` touch per origin and author. |
| Posts.GetChats | python/supporter.py:34-64 | Exactly the undeleted chats listing the user: groups, plus direct chats in its active DMs or favourites. A non-list setting raises TypeError. |
| Posts.GetChatsWithoutSettings | python/supporter.py:40-48 | Without stored settings: exactly the undeleted group chats the user is in. |
| Posts.RoutingAgrees | supporter.py:376-412 | The older and newer post creation agree on storage, audience and unread marking; only the newer one touches livechat's `last_active`. |
| Chats.FirstWithId | src/entities/chats.py:91-97 | Some iff a member has the id, and then a member with it. |
| Chats.WithoutId | src/entities/chats.py:123-125 | Exactly the members without the id, with distinct ids kept distinct. |
| Chats.RemoveStep | src/entities/chats.py:123-125 | One removal of the loop drops the member at the index and skips the next one. |
| Chats.LevelOf | src/entities/chats.py:67-72 | `permissions.get(uid, 0)`: the level of the key's entry, or 0. |
| Chats.SetLevel | src/entities/chats.py:156-160 | The key has the new level, a present key keeps its place, a new key goes last, and other keys keep theirs. |
| Chats.WithoutKey | src/entities/chats.py:126-127 | The key is gone and every other key keeps its level. |
| Chats.OwnerOf | src/entities/chats.py:67-72 | A member whose level is 2, or None when no level-2 key names a member. |
| Chats.TransferLeavesOneOwner | src/entities/chats.py:190-195 | With at most one owner before, the target is the only owner after. |
| Chats.Transfer | src/entities/chats.py:190-195 | The definition of the two writes of `transfer_ownership`: the old owner to 0, then the target to 2. `TransferLeavesOneOwner`, `TransferKeepsOwnership` and `TransferKeepsInvariant` state their effect. |
| Chats.TransferKeepsOwnership | src/entities/chats.py:180-197 | A transfer keeps the ownership invariant: one owner, and a member. |
| Chats.LegacyView | src/entities/chats.py:52-64 | A direct chat is named "A & B" from its first two members. The owner is `members[0]` when no level-2 entry names a member, and that member's username when one does (with distinct ids and one owner entry). Too few members raise IndexError. |
| Chats.LegacyOwner | src/entities/chats.py:53-58 | The definition of the outer loop of `legacy_public` over the permission entries; `LegacyOwnerDefault` and `LegacyOwnerAgrees` state its result. |
| Chats.LastUsername | src/entities/chats.py:56-58 | The definition of the inner loop over the members; `LastUsernameUnique` states its result. |
| Chats.LastUsernameUnique | src/entities/chats.py:56-58 | With distinct ids, the inner loop finds the username of the one member with the id. |
| Chats.LegacyOwnerDefault | src/entities/chats.py:56-61 | With no level-2 member, the owner reported is `members[0]`. |
| Chats.LegacyOwnerAgrees | src/entities/chats.py:52-72 | With distinct ids and one level-2 entry, the legacy owner is the `owner` property's username. |
| Chats.Chat.constructor | src/entities/chats.py:14-36 | The chat holds the given fields. |
| Chats.Chat.HasMember | src/entities/chats.py:91-97 | True for livechat whatever the user; otherwise iff some member has the user's id. |
| Chats.Chat.Owner | src/entities/chats.py:67-72 | The loop returns exactly `OwnerOf`. |
| Chats.Chat.LegacyPublic | src/entities/chats.py:52-64 | The loops compute exactly `LegacyView`. |
| Chats.Chat.AddMember | src/entities/chats.py:99-107 | Livechat or direct chats raise missingPermissions; an existing member raises chatMemberAlreadyExists; otherwise the user goes last. |
| Chats.Chat.RemoveAllWithId | src/entities/chats.py:123-125 | The loop as written; with distinct ids, exactly the members without the id. |
| Chats.Chat.RemoveMember | src/entities/chats.py:115-146 | Rejects livechat, direct chats and non-members. Otherwise drops member and permission entry. An emptied chat is deleted; an ownerless one passes to `members[0]`. |
| Chats.Chat.PromoteMember | src/entities/chats.py:148-162 | Livechat or direct chats raise missingPermissions and a non-member resourceNotFound; otherwise a level below 1 becomes 1 and any other stays. |
| Chats.Chat.DemoteMember | src/entities/chats.py:164-178 | Livechat or direct chats raise missingPermissions and a non-member resourceNotFound; otherwise only level 1 becomes 0. |
| Chats.LevelKeepsInvariant | src/entities/chats.py:148-178 | Moving a non-owner between levels 0 and 1 keeps a single owner who is a member, distinct keys and levels at most 2. |
| Chats.Chat.SetOwnerLevels | src/entities/chats.py:190-195 | The permissions become `Transfer` of the old ones, and no other field changes. |
| Chats.Chat.TransferOwnership | src/entities/chats.py:180-197 | A target at level 2 or above, or a non-member, is rejected; otherwise the old owner is 0 and the target the only owner. |
| Chats.Chat.Delete | src/entities/chats.py:224-235 | Livechat and direct chats refuse; otherwise `deleted_at` is `now`. |
| Chats.CreateChat | src/entities/chats.py:237-251 | The creator is the sole member, at level 2, and the owner. |
| Chats.GetDmChat | src/entities/chats.py:276-295 | No direct chat with oneself; otherwise the existing chat or a new two-member direct chat. Every chat returned is direct, not deleted, and holds both users. |
| Users.GetUser | src/entities/users.py:208-223 | Any stored id other than "0", "1", "2" yields its stored record; an unknown id is Deleted with `return_deleted`, else not found. What the three fixed ids give is stated by `GetUserFixedIds`. |
| Users.GetUserConsistent | src/entities/users.py:9-33 | Every record `get_user` yields has `lower_username == lower(username)`. |
| Users.GetUserFixedIds | src/entities/users.py:208-221 | The fixed ids win over stored records; unknown ids depend only on `return_deleted`. |
| Users.UsernameAvailable | src/entities/users.py:225-229 | Available exactly when its lowercase is neither reserved nor taken. |
| Users.UsernameAvailableIgnoresCase | src/entities/users.py:225-229 | Names equal up to case are equally available. |
| Users.ReservedUsernames | src/entities/users.py:225-229 | server, deleted and meower are never available, in any spelling. |
| Users.ClearFlags | src/entities/users.py:119-126 | The loop clears exactly the hidden bits and keeps all others. |
| Users.PublicFlags | src/entities/users.py:119-126 | Every bit but child and terminated. |
| Users.User.constructor | src/entities/users.py:46-78 | The user holds the given fields. |
| Users.User.UpdateUsername | src/entities/users.py:171-195 | Bad types raise invalidDatatype; an unavailable name raises alreadyExists. On success the name is set with its lowercase, and a history record is returned iff `store_history`. |
| Users.CreateUser | src/entities/users.py:197-206 | The stored record carries the lowercased username. |
| Database.TotalPages | python/database.py:233-238 | Raises ZeroDivisionError exactly when the page size is 0. |
| Database.TotalPagesIsCeiling | python/database.py:233-238 | For a positive page size, the number of pages is the least `p` with `p * size >= count`. |
| Database.TotalPagesEdges | python/database.py:235-237 | Zero items give 0 pages; an exact multiple adds no extra page; 1 to `page_size` items give one page. |
| Database.AddPrefix | python/database.py:224-226 | A valid prefix is added to the tree; an invalid one raises. |
| Database.LoadOne | python/database.py:222-228 | The definition of one pass of the loop body, with the exception turned into a log entry; `LoadOneEffect` states its effect. |
| Database.LoadAll | python/database.py:221-228 | The definition of the loop over all netblock documents in order; `LoadAllTree`, `LoadAllFailed` and `LoadAllContents` state its result. |
| Database.LoadOneEffect | python/database.py:222-228 | One document adds to the tree its type names, or is logged when it raises. |
| Database.LoadAllTree | python/database.py:221-226 | Type 0 prefixes go to `blocked_ips`, type 1 to `registration_blocked_ips`, and only those. |
| Database.LoadAllFailed | python/database.py:227-228 | Exactly the failing documents are logged, in order. |
| Database.LoadAllContents | python/database.py:219-228 | Both trees and the log together; other types go to neither tree. |
| Database.LoadNetblocks | python/database.py:219-228 | The loading loop computes exactly `LoadAll`. |
| Database.FixedCode | python/database.py:296-308 | A code longer than 10 characters becomes its first 10 (a prefix of length exactly 10); a code of at most 10 stays; no code stays no code. |
| Database.FixRecoveryCodes | python/database.py:296-308 | The migration loop rewrites every code with `FixedCode` and keeps the set of users. |
| Database.FixedCodeIdempotent | python/database.py:296-308 | A second run of the migration changes nothing. |
| Base64.Encode | src/entities/tickets.py:25 | The encoding has a length that is a multiple of four and uses only the alphabet and padding. |
| Base64.QuantumOf | src/entities/tickets.py:25 | A quantum of one to three bytes encodes to four alphabet or padding characters. |
| Base64.Decode | src/entities/tickets.py:35 | The definition of strict RFC 4648 decoding; `DecodeEncode` states that it inverts `Encode`. |
| Base64.DecodeEncode | src/entities/tickets.py:25-35 | Decoding the encoding gives the bytes back. |
| Base64.AsciiRoundTrip | src/entities/tickets.py:25-35 | Decoding the encoding of ASCII text gives the text back. |
| Tickets.Decimal | src/entities/tickets.py:16 | `str(n)` is a non-empty string of digits. |
| Tickets.DecimalValue | src/entities/tickets.py:16 | The digits stand for `n`, so distinct snowflakes give distinct ids. |
| Tickets.Metadata | src/entities/tickets.py:25 | The base64 metadata of a digit id contains no ".". |
| Tickets.TicketData | src/entities/tickets.py:17-19 | `i`, `u` and `t` are set, and every other key of the caller's dict is kept. |
| Tickets.Parse | src/entities/tickets.py:31-35 | A parse splits the text at its single "." and the metadata at its single ":"; text without exactly one "." does not parse. |
| Tickets.Details | src/entities/tickets.py:29-50 | Some iff it parses, the version is "0", the signature validates and the entry lives; the value is the stored data. |
| Tickets.ParseTicket | src/entities/tickets.py:25-35 | A created ticket parses back to its metadata, signature, version "0" and id. |
| Tickets.CreatedTicketDetails | src/entities/tickets.py:14-48 | While the entry lives and the signature validates, the created ticket yields its stored data. |
| Tickets.ExpiredTicket | src/entities/tickets.py:44-48 | An expired entry yields nothing. |
| Tickets.RevokedTicket | src/entities/tickets.py:52-53 | After revocation, no text naming the id yields anything. |
| Tickets.WrongVersion | src/entities/tickets.py:35-37 | A version other than "0" yields nothing. |
| Tickets.BadSignature | src/entities/tickets.py:40-41 | A signature that does not validate yields nothing. |
| Tickets.MalformedMetadata | src/entities/tickets.py:35-50 | Undecodable metadata, or text without ":", yields nothing. |
| Tickets.WrongDotCount | src/entities/tickets.py:32-50 | Text without exactly one "." yields nothing. |
| Tickets.TicketStore.constructor | src/entities/tickets.py:22 | The store holds the given entries. |
| Tickets.TicketStore.CreateTicket | src/entities/tickets.py:14-27 | `data` gets `i`, `u`, `t`. An unknown type raises KeyError and stores nothing. Otherwise the data is stored for the type's lifetime, and the signed ticket is returned. |
| Tickets.TicketStore.RevokeTicket | src/entities/tickets.py:52-53 | The entries without `tic:<id>`. |
| Tickets.CreateLookupRevoke | src/entities/tickets.py:7-53 | Before its lifetime ends a created ticket yields its data; after revocation nothing. |
| Networks.LoggedUsers | src/common/entities/networks.py:42-43 | The user is in the list; the old list is a prefix; appended only when absent. |
| Networks.LoggedUsersDistinct | src/common/entities/networks.py:42-43 | Logging keeps the list duplicate-free, and logging the same user twice changes nothing. |
| Networks.LogAllContents | src/common/entities/networks.py:40-52 | After many log calls, the users are distinct, the old list is a prefix, every logged name is in it, and nothing else is. |
| Networks.LogAllKeeps | src/common/entities/networks.py:40-52 | Repeated logging keeps the old users first and never lists a name twice. |
| Networks.LogAllLogged | src/common/entities/networks.py:40-52 | After repeated logging every logged name is listed, and every listed name was there before or was logged. |
| Networks.FromRecord | src/common/entities/networks.py:9-25 | `Network(**record)`: a TypeError for an unknown key, a missing `_id` or non-list users; defaults otherwise. |
| Networks.NetworkRecord | src/common/entities/networks.py:84-111 | A new record has users `[]`, last_user None, banned False, proxy iff `block == 1`. A countryless one is updated only when `block` and `countryName` are both given. Any other is returned as stored. |
| Networks.NetworkRecordSettles | src/common/entities/networks.py:84-111 | After a write, the stored record is the returned one and later lookups write nothing. |
| Networks.NewNetwork | src/common/entities/networks.py:89-99 | A new network's fields are the constructor's defaults with proxy iff IPHub blocks. |
| Networks.Network.constructor | src/common/entities/networks.py:9-25 | The network holds the given fields. |
| Networks.Network.Admin | src/common/entities/networks.py:28-38 | The view has `_id == ip`, all fields, and `last_used` None iff it is falsy. |
| Networks.Network.LogUser | src/common/entities/networks.py:40-52 | `users` as `LoggedUsers`, `last_user` the name, `last_used` the time, and the rest unchanged. |
| Networks.Network.SetBanState | src/common/entities/networks.py:54-64 | `banned` set, and a `kick_network` event with code "IPBanned" only when banning. |
| Networks.GetNetwork | src/common/entities/networks.py:84-111 | The write of `NetworkRecord`, and a fresh network holding `FromRecord` of its record. |

## Left out

- CloudLink's transport is not modelled: `sendPacket`, `send_event`, the user-list packets and `kickUser`'s per-session threads (supporter.py:282-324). That is socket I/O and concurrency in a library outside this model. Kicks are recorded as names, logouts as client ids.
- `delete_client_statedata` and `on_close` are not modelled; they drop sessions as CloudLink closes them.
- The Redis pub/sub subscription and msgpack decoding (python/supporter.py:136-140) are not modelled. A message is its decoded dict, or None when decoding fails.
- MongoDB and Redis are maps. The writes the model does not track are left out: posts, netlogs, reports and relationships deleted with an account, and the `chat_updated`/`chat_deleted` events. So are the database's index creation and migrations other than the recovery-code fix.
- Redis expiry is the comparison `now < expiresAt`.
- Radix longest-prefix matching is the parameter `matches`; the netblock tries are sets of prefixes.
- Which strings the radix library accepts as a CIDR prefix is the parameter `validCidrs`.
- The profanity filter, `security.sign_data` and `security.validate_signature` are function parameters.
- Snowflake, uuid and meowid generation are parameters.
- The IPHub HTTP call (`get_iphub_data`) is the parameter `iphub`; `Network.delete` is not modelled.
- The posts `send_post_event` call is not modelled.
- Base64.Decode: does not model Python's lenient `b64decode`, which discards non-alphabet characters; it is the strict decoder of RFC 4648, so some malformed tickets that Python decodes are rejected here.
- UTF-8 text beyond ASCII is treated as a decoding failure.
- Flag bit positions under src/util/flags are not part of this model; `Users.FlagLayout` holds them as parameters.
- Shared mutable default arguments are not modelled as shared: `data={}` in tickets, `users=[]` in networks, `members=[]` and `permissions={}` in chats. The caller's dict that `create_ticket` writes into is returned as `written`.
- `User.update_config` deletes from a dict while iterating over it and is not modelled. Neither is `redirect_to`, which only rebinds a local name.
- Timestamps are Python floats in the source and integer seconds here.
- The `if not self.cl` branches of the older `Supporter` are dropped: the registry is always attached.
- Out of scope and not modelled: chats `update_name`, `refresh_invite_code`, `emit_typing`, `get_chat`, `public` and `partial_members`; users `count_stats`, relationships and `get_id_from_username`; security `get_netinfo`, `add_audit_log`, `run_background_tasks`, `account_exists` and `get_permissions`.
- Networks.FromRecord: a `users` value that is not a list raises TypeError at construction, whereas Python accepts it and fails only when `log_user` runs.
- Posts.CreatePost: uses the corrected reply filter (see Findings), not the loop as written.
- Chats.Chat.constructor: does not establish `Valid()` (distinct member ids, and an owner entry only for a member), which every mutator requires. A chat built from a stored document with `Chat(**doc)` is assumed to satisfy it; the model does not check stored chats.
- Tickets.TicketStore.CreateTicket: the `json.dumps`/`json.loads` round trip of `data` is not modelled; the store holds the dict itself. In the source, data JSON cannot serialise raises TypeError before anything is stored, and before the KeyError of an unknown type. Tuples read back as lists, and non-str keys as str.
- Text.Lower: lowercases ASCII letters only, not Python's Unicode `str.lower()`; "\u212Aate" (Kelvin sign) lowers to "kate" and "É" to "é" in Python but is unchanged here. Security.FindByLower, Users.UsernameAvailable, Users.User.UpdateUsername and Users.CreateUser inherit this, so two names that differ only in non-ASCII case are distinct in the model.
- PyValues.Truthy: every Python object other than None, bool, int, str, list and dict is the single value `POther`, which is always truthy and never equal to an int; in Python `0.0`, `b""` and `()` are falsy and `1.0 == 1`.
- Security.AccountStore.DeleteAccount: the purge's delete of the account's admin notes document (security.py:298) is not tracked; admin notes are not part of the account store.
- Networks.Network.LogUser: the `last_ip` write to the users collection (src/common/entities/networks.py:52) is not tracked; only the network record is.
- Security.SettingsUpdate: the truncation of `favorited_chats` to 50 entries is applied to the written settings, but the in-place write back into the caller's `newdata` dict (security.py:179) is not modelled.

## Findings

| source | as written | input that shows it | evidently intended | confidence | as-written member | corrected member |
|---|---|---|---|---|---|---|
| python/supporter.py:81-86 | `for reply in reply_to: ... reply_to.remove(reply)` removes from the list it iterates over, so the element after each removed one is never checked | `reply_to = ["a", "b"]`, neither post existing in the origin: the result is `["b"]` | keep exactly the replies that exist in the post's origin | not executed | Posts.IterRemoveSkipsAfterRemoval | Posts.FilterRepliesDropsAllMissing |
