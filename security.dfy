/**
 * The account and authorisation rules of security.py: permission and restriction
 * bitmasks, the ban evaluation and the field filtering of `get_account`, the filtering in
 * `update_settings`, and what `delete_account` does to the account's flags and its chats.
 *
 * Collections are maps: `byLower` stands for `usersv0` looked up by `lower_username`,
 * `settings` for `user_settings` by `_id`; `AccountStore` holds the collections that
 * `delete_account` writes. The clock is the integer `now`.
 */
module Security {
  import opened Wrappers
  import opened PyValues
  import opened Bits
  import opened Text
  import opened Seqs
  import opened Documents

  // UserFlags (security.py:40-44)
  const SYSTEM: int := 1
  const DELETED: int := 2
  const PROTECTED: int := 4
  const CAN_UPLOAD_ATTACHMENTS: int := 8

  // Permissions (security.py:47-73)
  const SYSADMIN: int := 1
  const VIEW_REPORTS: int := 2
  const EDIT_REPORTS: int := 4
  const VIEW_NOTES: int := 8
  const EDIT_NOTES: int := 16
  const VIEW_POSTS: int := 32
  const DELETE_POSTS: int := 64
  const VIEW_ALTS: int := 128
  const SEND_ALERTS: int := 256
  const KICK_USERS: int := 512
  const CLEAR_USER_QUOTES: int := 1024
  const VIEW_BAN_STATES: int := 2048
  const EDIT_BAN_STATES: int := 4096
  const DELETE_USERS: int := 8192
  const VIEW_IPS: int := 16384
  const BLOCK_IPS: int := 32768
  const VIEW_CHATS: int := 65536
  const EDIT_CHATS: int := 131072
  const SEND_ANNOUNCEMENTS: int := 262144

  // Restrictions (security.py:76-82)
  const HOME_POSTS: int := 1
  const CHAT_POSTS: int := 2
  const NEW_CHATS: int := 4
  const EDITING_CHAT_NICKNAMES: int := 8
  const EDITING_QUOTE: int := 16
  const UPLOADING_FILES: int := 32

  const SENSITIVE_ACCOUNT_FIELDS: set<string> := {"pswd", "tokens", "delete_after"}

  const DEFAULT_USER_SETTINGS: Doc := map[
    "unread_inbox" := PBool(true),
    "theme" := PStr("orange"),
    "mode" := PBool(true),
    "layout" := PStr("new"),
    "sfx" := PBool(true),
    "bgm" := PBool(false),
    "bgm_song" := PInt(2),
    "debug" := PBool(false),
    "hide_blocked_users" := PBool(false),
    "active_dms" := PList([]),
    "favorited_chats" := PList([]),
    "accepted_terms" := PDict(map[])]

  /* ---------------------------------------------------------------- permissions */

  /** `has_permission(user_permissions, permission)`. */
  predicate HasPermission(userPermissions: int, permission: int) {
    if IAnd(userPermissions, SYSADMIN) == SYSADMIN then true
    else IAnd(userPermissions, permission) == permission
  }

  /** SYSADMIN grants everything; otherwise every bit of `permission` must be held. */
  lemma HasPermissionBits(userPermissions: int, permission: int)
    ensures HasPermission(userPermissions, permission) <==>
      IBit(userPermissions, 0) || forall i: nat :: IBit(permission, i) ==> IBit(userPermissions, i)
  {
    assert SYSADMIN == Pow2(0);
    forall i: nat ensures IBit(SYSADMIN, i) <==> i == 0 {
      IBitPow2(0, i);
    }
    ContainsMask(userPermissions, SYSADMIN);
    ContainsMask(userPermissions, permission);
  }

  /** Every permission constant is a single bit `2^k`; holding it means holding bit `k` (or SYSADMIN). */
  lemma HasSinglePermission(userPermissions: int, k: nat)
    ensures HasPermission(userPermissions, Pow2(k)) <==> IBit(userPermissions, 0) || IBit(userPermissions, k)
  {
    HasPermissionBits(userPermissions, Pow2(k));
    forall i: nat ensures IBit(Pow2(k), i) <==> i == k {
      IBitPow2(k, i);
    }
  }

  /* ---------------------------------------------------------------- bans and restrictions */

  /** A ban record with the field types the server writes (python/supporter.py:159-162). */
  datatype BanRecord = BanRecord(state: string, restrictions: int, expires: int, reason: string)

  function BanValue(b: BanRecord): PyValue {
    PDict(map["state" := PStr(b.state), "restrictions" := PInt(b.restrictions),
              "expires" := PInt(b.expires), "reason" := PStr(b.reason)])
  }

  /** `x in container` for a string `x`: a substring, a list element or a dict key. */
  function StrIn(x: string, container: PyValue): (r: Result<bool, PyException>)
    ensures container.PStr? ==> r == Ok(Contains(container.s, x))
    ensures !(container.PStr? || container.PList? || container.PDict?) ==> r == Err(TypeError)
  {
    match container
    case PStr(s) => Ok(Contains(s, x))
    case PList(items) => Ok(PStr(x) in items)
    case PDict(m) => Ok(x in m)
    case _ => Err(TypeError)
  }

  /** `usersv0.find_one({"lower_username": username.lower()})`, and whether the result is truthy. */
  function FindByLower(username: string, byLower: map<string, Doc>): (r: Option<Doc>)
    ensures r.Some? <==> Lower(username) in byLower && byLower[Lower(username)] != map[]
    ensures r.Some? ==> r.value == byLower[Lower(username)]
  {
    var lower := Lower(username);
    if lower in byLower && byLower[lower] != map[] then Some(byLower[lower]) else None
  }

  /** `is_restricted(username, restriction)` at time `now`. */
  function IsRestricted(username: PyValue, restriction: PyValue, byLower: map<string, Doc>, now: int): (r: Result<bool, PyException>)
    ensures !username.PStr? || !IsInstance(restriction, TInt) ==> r == Ok(false)
    ensures username.PStr? && FindByLower(username.s, byLower).None? ==> r == Ok(false)
    ensures (username.PStr? && FindByLower(username.s, byLower).Some? && IsInstance(restriction, TInt)
             && "ban" !in FindByLower(username.s, byLower).value) ==> r == Err(KeyError)
  {
    if !username.PStr? || !IsInstance(restriction, TInt) then Ok(false)
    else match FindByLower(username.s, byLower)
      case None => Ok(false)
      case Some(account) =>
        var ban :- Item(PDict(account), "ban");
        var state :- Item(ban, "state");
        if state == PStr("none") then Ok(false)
        else
          var isPerm :- StrIn("perm", state);
          var expired :- if isPerm then Ok(false) else
            var expires :- Item(ban, "expires");
            var e :- IntOperand(expires);
            Ok(e < now);
          if expired then Ok(false)
          else
            var restrictions :- Item(ban, "restrictions");
            var held :- IntOperand(restrictions);
            var wanted :- IntOperand(restriction);
            Ok(IAnd(held, wanted) == wanted)
  }

  /**
   * On an account whose ban record is well formed, `is_restricted` holds exactly when the
   * state is not "none", the ban is permanent (its state contains "perm") or not yet
   * expired, and every bit of `restriction` is among the ban's restrictions.
   */
  lemma IsRestrictedOnRecord(username: string, restriction: int, byLower: map<string, Doc>, b: BanRecord, now: int)
    requires FindByLower(username, byLower).Some?
    requires FindByLower(username, byLower).value["ban" := BanValue(b)] == FindByLower(username, byLower).value
    ensures IsRestricted(PStr(username), PInt(restriction), byLower, now) ==
      Ok(b.state != "none" && (Contains(b.state, "perm") || now <= b.expires)
        && forall i: nat :: IBit(restriction, i) ==> IBit(b.restrictions, i))
  {
    var account := FindByLower(username, byLower).value;
    assert "ban" in account && account["ban"] == BanValue(b) by {
      assert "ban" in account["ban" := BanValue(b)];
    }
    ContainsMask(b.restrictions, restriction);
  }

  /** The `banned` field of `get_account`: no ban, a permanent one, or a temporary one that has not expired. */
  function Banned(ban: PyValue, now: int): (r: Result<bool, PyException>)
    ensures !Truthy(ban) ==> r == Ok(false)
    ensures Truthy(ban) && !ban.PDict? ==> r == Err(TypeError)
    ensures ban.PDict? && Truthy(ban) && "state" !in ban.entries ==> r == Err(KeyError)
    ensures r == Ok(true) ==>
      (ban.PDict? && "state" in ban.entries
       && (ban.entries["state"] == PStr("perm_ban") || ban.entries["state"] == PStr("temp_ban")))
  {
    if !Truthy(ban) then Ok(false)
    else
      var state :- Item(ban, "state");
      if state == PStr("perm_ban") then Ok(true)
      else if state == PStr("temp_ban") then
        var expires :- Item(ban, "expires");
        var e :- IntOperand(expires);
        Ok(e > now)
      else Ok(false)
  }

  /** A well-formed ban bans permanently for "perm_ban", until `expires` for "temp_ban", and not otherwise. */
  lemma BannedOnRecord(b: BanRecord, now: int)
    ensures Banned(BanValue(b), now) == Ok(b.state == "perm_ban" || (b.state == "temp_ban" && b.expires > now))
  {
    var m := BanValue(b).entries;
    assert "state" in m;
    assert Truthy(BanValue(b));
  }

  /* ---------------------------------------------------------------- get_account */

  /** The user's stored settings (`user_settings` keeps a document per `_id`; `_id` itself is not kept in the value). */
  function StoredSettings(account: Doc, settings: map<PyValue, Doc>): Doc
    requires "_id" in account
  {
    if account["_id"] in settings then settings[account["_id"]] - {"_id"} else map[]
  }

  /** `account.update(DEFAULT_USER_SETTINGS)` followed by `account.update(user_settings)`. */
  function WithConfig(account: Doc, stored: Doc): (r: Doc)
    ensures forall k :: k in DEFAULT_USER_SETTINGS ==>
      k in r && r[k] == if k in stored then stored[k] else DEFAULT_USER_SETTINGS[k]
    ensures forall k :: k !in DEFAULT_USER_SETTINGS && k !in stored ==>
      (k in r <==> k in account) && (k in account ==> r[k] == account[k])
  {
    account + DEFAULT_USER_SETTINGS + stored
  }

  /** `get_account(username, include_config)` at time `now`: `Ok(None)` is Python's `None`. */
  function AccountView(username: PyValue, includeConfig: bool, byLower: map<string, Doc>, settings: map<PyValue, Doc>, now: int): (r: Result<Option<Doc>, PyException>)
    ensures !username.PStr? ==> r == Ok(None)
    ensures username.PStr? && FindByLower(username.s, byLower).None? ==> r == Ok(None)
    ensures r.Ok? && r.value.Some? ==> username.PStr? && FindByLower(username.s, byLower).Some?
  {
    if !username.PStr? then Ok(None)
    else match FindByLower(username.s, byLower)
      case None => Ok(None)
      case Some(found) =>
        var view :- FoundAccountView(found, includeConfig, settings, now);
        Ok(Some(view))
  }

  /** The view `get_account` builds from the stored account `found`. */
  function FoundAccountView(found: Doc, includeConfig: bool, settings: map<PyValue, Doc>, now: int): (r: Result<Doc, PyException>)
    ensures r.Err? <==> "ban" !in found || Banned(found["ban"], now).Err? || (includeConfig && "_id" !in found)
  {
    var account := found - SENSITIVE_ACCOUNT_FIELDS;
    var ban :- Item(PDict(account), "ban");
    var banned :- Banned(ban, now);
    var account := account["lvl" := PInt(0)]["banned" := PBool(banned)];
    if includeConfig then
      var _ :- Item(PDict(account), "_id");
      Ok(WithConfig(account, StoredSettings(found, settings)))
    else
      Ok(account - {"ban"})
  }

  /**
   * Without config, `get_account` drops the sensitive fields and the ban, adds `lvl` 0 and
   * the `banned` verdict, and keeps every other stored field as it was.
   */
  lemma AccountViewWithoutConfig(username: string, byLower: map<string, Doc>, settings: map<PyValue, Doc>, now: int)
    requires AccountView(PStr(username), false, byLower, settings, now).Ok?
    requires AccountView(PStr(username), false, byLower, settings, now).value.Some?
    ensures FindByLower(username, byLower).Some?
    ensures var account := FindByLower(username, byLower).value;
      var view := AccountView(PStr(username), false, byLower, settings, now).value.value;
      && (forall k :: k in SENSITIVE_ACCOUNT_FIELDS ==> k !in view)
      && "ban" !in view
      && "ban" in account && Banned(account["ban"], now).Ok?
      && "lvl" in view && view["lvl"] == PInt(0)
      && "banned" in view && view["banned"] == PBool(Banned(account["ban"], now).value)
      && (forall k :: k in account && k !in SENSITIVE_ACCOUNT_FIELDS && k !in {"ban", "lvl", "banned"} ==>
            k in view && view[k] == account[k])
  {
  }

  /**
   * With config, every default setting is present and a stored setting overrides the
   * default; a sensitive field can appear only if the stored settings carry it.
   */
  lemma AccountViewWithConfig(username: string, byLower: map<string, Doc>, settings: map<PyValue, Doc>, now: int)
    requires AccountView(PStr(username), true, byLower, settings, now).Ok?
    requires AccountView(PStr(username), true, byLower, settings, now).value.Some?
    ensures FindByLower(username, byLower).Some? && "_id" in FindByLower(username, byLower).value
    ensures var account := FindByLower(username, byLower).value;
      var view := AccountView(PStr(username), true, byLower, settings, now).value.value;
      var stored := StoredSettings(account, settings);
      && (forall k :: k in DEFAULT_USER_SETTINGS ==>
            k in view && view[k] == if k in stored then stored[k] else DEFAULT_USER_SETTINGS[k])
      && (forall k :: k in SENSITIVE_ACCOUNT_FIELDS && k !in stored ==> k !in view)
      && "ban" in account && Banned(account["ban"], now).Ok?
      && ("banned" !in stored ==> "banned" in view && view["banned"] == PBool(Banned(account["ban"], now).value))
  {
    var account := FindByLower(username, byLower).value;
    var banned := Banned(account["ban"], now).value;
    var base := (account - SENSITIVE_ACCOUNT_FIELDS)["lvl" := PInt(0)]["banned" := PBool(banned)];
    var stored := StoredSettings(account, settings);
    var view := AccountView(PStr(username), true, byLower, settings, now).value.value;
    assert view == WithConfig(base, stored);
    ConfigMerge(account, banned, stored);
  }

  lemma ConfigMerge(account: Doc, banned: bool, stored: Doc)
    ensures var view := WithConfig((account - SENSITIVE_ACCOUNT_FIELDS)["lvl" := PInt(0)]["banned" := PBool(banned)], stored);
      && (forall k :: k in SENSITIVE_ACCOUNT_FIELDS && k !in stored ==> k !in view)
      && ("banned" !in stored ==> "banned" in view && view["banned"] == PBool(banned))
  {
    DefaultsApart();
  }

  /** No default setting is called "banned", "_id" or a sensitive field. */
  lemma DefaultsApart()
    ensures "banned" !in DEFAULT_USER_SETTINGS && "_id" !in DEFAULT_USER_SETTINGS
    ensures forall k :: k in SENSITIVE_ACCOUNT_FIELDS ==> k !in DEFAULT_USER_SETTINGS
  {
  }

  /** The error cases of `get_account`: a found account without "ban", a malformed ban, or no "_id" when config is included. */
  lemma AccountViewErrors(username: string, includeConfig: bool, byLower: map<string, Doc>, settings: map<PyValue, Doc>, now: int)
    requires FindByLower(username, byLower).Some?
    ensures var account := FindByLower(username, byLower).value;
      AccountView(PStr(username), includeConfig, byLower, settings, now).Err? <==>
        "ban" !in account || Banned(account["ban"], now).Err? || (includeConfig && "_id" !in account)
  {
  }

  /** The sensitive-field loop of security.py:112-114: every key of `keys` the document has is deleted. */
  method WithoutFields(doc: Doc, keys: set<string>) returns (r: Doc)
    ensures r == doc - keys
  {
    r := doc;
    var todo := keys;
    while todo != {}
      invariant todo <= keys
      invariant r == doc - (keys - todo)
      decreases |todo|
    {
      var key :| key in todo;
      if key in r {
        r := r - {key};
      }
      todo := todo - {key};
    }
  }

  /** `get_account` with the sensitive-field loop of security.py:112-114 written as a loop over the set. */
  method GetAccount(username: PyValue, includeConfig: bool, byLower: map<string, Doc>, settings: map<PyValue, Doc>, now: int)
    returns (r: Result<Option<Doc>, PyException>)
    ensures r == AccountView(username, includeConfig, byLower, settings, now)
  {
    if !username.PStr? {
      return Ok(None);
    }
    var found := FindByLower(username.s, byLower);
    if found.None? {
      return Ok(None);
    }
    var view := BuildAccountView(found.value, includeConfig, settings, now);
    if view.Err? {
      return Err(view.error);
    }
    return Ok(Some(view.value));
  }

  /** The body of `get_account` once the account is found (security.py:111-131). */
  method BuildAccountView(found: Doc, includeConfig: bool, settings: map<PyValue, Doc>, now: int) returns (r: Result<Doc, PyException>)
    ensures r == FoundAccountView(found, includeConfig, settings, now)
  {
    var account := WithoutFields(found, SENSITIVE_ACCOUNT_FIELDS);
    account := account["lvl" := PInt(0)];
    if "ban" !in account {
      return Err(KeyError);
    }
    var banned := Banned(account["ban"], now);
    if banned.Err? {
      return Err(banned.error);
    }
    account := account["banned" := PBool(banned.value)];
    if !includeConfig {
      return Ok(account - {"ban"});
    }
    account := account + DEFAULT_USER_SETTINGS;
    if "_id" !in account {
      return Err(KeyError);
    }
    assert account["_id"] == found["_id"];
    var id := account["_id"];
    if id in settings {
      var userSettings := settings[id] - {"_id"};
      account := account + userSettings;
    }
    assert account == (found - SENSITIVE_ACCOUNT_FIELDS)["lvl" := PInt(0)]["banned" := PBool(banned.value)]
      + DEFAULT_USER_SETTINGS + StoredSettings(found, settings);
    return Ok(account);
  }

  /* ---------------------------------------------------------------- update_settings */

  /** The profile fields `update_settings` accepts: `pfp_data` an int, `custom_pfp` None or a str, `quote` a str of at most 360 characters. */
  function ProfileFields(newdata: Doc): (r: Doc)
    ensures forall k :: k in r ==> k in {"pfp_data", "custom_pfp", "quote"} && k in newdata && r[k] == newdata[k]
    ensures "pfp_data" in r <==> "pfp_data" in newdata && IsInstance(newdata["pfp_data"], TInt)
    ensures "custom_pfp" in r <==> "custom_pfp" in newdata && (newdata["custom_pfp"].PNone? || newdata["custom_pfp"].PStr?)
    ensures "quote" in r <==> "quote" in newdata && newdata["quote"].PStr? && |newdata["quote"].s| <= 360
  {
    var r: Doc := map[];
    var r := if "pfp_data" in newdata && IsInstance(newdata["pfp_data"], TInt) then r["pfp_data" := newdata["pfp_data"]] else r;
    var r := if "custom_pfp" in newdata && (newdata["custom_pfp"].PNone? || IsInstance(newdata["custom_pfp"], TStr))
      then r["custom_pfp" := newdata["custom_pfp"]] else r;
    if "quote" in newdata && IsInstance(newdata["quote"], TStr) && Len(newdata["quote"]) <= 360
    then r["quote" := newdata["quote"]] else r
  }

  /** A settings value is kept when the key is a default setting (other than "tos_revisions") and the value has the default's type. */
  predicate KeepsSetting(newdata: Doc, defaults: Doc, key: string) {
    key != "tos_revisions" && key in defaults && key in newdata
    && IsInstance(newdata[key], TypeOf(defaults[key]))
  }

  /** The kept value: favorited chats beyond the first 50 are dropped. */
  function KeptValue(key: string, v: PyValue): PyValue {
    if key == "favorited_chats" && v.PList? && |v.items| > 50 then PList(v.items[..50]) else v
  }

  /** The settings written by `update_settings` for the default keys in `keys`. */
  function SettingsFields(newdata: Doc, defaults: Doc, keys: set<string>): (r: Doc)
    ensures forall k :: k in r <==> k in keys && KeepsSetting(newdata, defaults, k)
    ensures forall k :: k in r ==> k in newdata && r[k] == KeptValue(k, newdata[k])
  {
    map k | k in keys && KeepsSetting(newdata, defaults, k) :: KeptValue(k, newdata[k])
  }

  lemma SettingsFieldsStep(newdata: Doc, defaults: Doc, keys: set<string>, key: string)
    ensures SettingsFields(newdata, defaults, keys + {key}) ==
      if KeepsSetting(newdata, defaults, key) then SettingsFields(newdata, defaults, keys)[key := KeptValue(key, newdata[key])]
      else SettingsFields(newdata, defaults, keys)
  {
    var next := SettingsFields(newdata, defaults, keys + {key});
    var expected := if KeepsSetting(newdata, defaults, key) then SettingsFields(newdata, defaults, keys)[key := KeptValue(key, newdata[key])]
      else SettingsFields(newdata, defaults, keys);
    assert next.Keys == expected.Keys;
  }

  lemma SettingsFieldsNone(data: Doc, defaults: Doc)
    ensures SettingsFields(data, defaults, defaults.Keys - defaults.Keys) == map[]
  {
    assert SettingsFields(data, defaults, defaults.Keys - defaults.Keys).Keys == {};
  }

  /** The settings loop keeps `SettingsFields` of the keys seen so far when it deals with `key`. */
  lemma SettingsLoopStep(data: Doc, defaults: Doc, todo: set<string>, key: string, keep: bool, value: PyValue, cur: Doc)
    requires key in todo && todo <= defaults.Keys
    requires cur == SettingsFields(data, defaults, defaults.Keys - todo)
    requires keep == KeepsSetting(data, defaults, key) && (keep ==> value == KeptValue(key, data[key]))
    ensures (if keep then cur[key := value] else cur) == SettingsFields(data, defaults, defaults.Keys - (todo - {key}))
  {
    SettingsFieldsStep(data, defaults, defaults.Keys - todo, key);
    assert defaults.Keys - todo + {key} == defaults.Keys - (todo - {key});
  }

  /** What `update_settings` writes: nothing (`False` returned) or the two `$set` documents (an empty one is not written). */
  datatype SettingsWrite = Rejected | Applied(target: PyValue, userSet: Doc, settingsSet: Doc)

  function SettingsUpdate(username: PyValue, newdata: PyValue, byLower: map<string, Doc>): (r: Result<SettingsWrite, PyException>)
    ensures !username.PStr? || !newdata.PDict? ==> r == Ok(Rejected)
    ensures username.PStr? && FindByLower(username.s, byLower).None? ==> r == Ok(Rejected)
    ensures r.Ok? && r.value.Applied? ==>
      (newdata.PDict?
       && r.value.userSet == ProfileFields(newdata.entries)
       && r.value.settingsSet == SettingsFields(newdata.entries, DEFAULT_USER_SETTINGS, DEFAULT_USER_SETTINGS.Keys))
  {
    if !username.PStr? || !newdata.PDict? then Ok(Rejected)
    else match FindByLower(username.s, byLower)
      case None => Ok(Rejected)
      case Some(account) =>
        var userSet := ProfileFields(newdata.entries);
        var settingsSet := SettingsFields(newdata.entries, DEFAULT_USER_SETTINGS, DEFAULT_USER_SETTINGS.Keys);
        if userSet == map[] && settingsSet == map[] then Ok(Applied(PNone, userSet, settingsSet))
        else if "_id" !in account then Err(KeyError)
        else Ok(Applied(account["_id"], userSet, settingsSet))
  }

  /**
   * For a str name, a dict and a found account, `update_settings` writes against the
   * account's `_id` whenever something passed the filters; with nothing to write it
   * writes nothing, and only a missing `_id` with something to write raises.
   */
  lemma SettingsUpdateFound(username: string, newdata: Doc, byLower: map<string, Doc>)
    requires FindByLower(username, byLower).Some?
    ensures var account := FindByLower(username, byLower).value;
      var userSet := ProfileFields(newdata);
      var settingsSet := SettingsFields(newdata, DEFAULT_USER_SETTINGS, DEFAULT_USER_SETTINGS.Keys);
      var r := SettingsUpdate(PStr(username), PDict(newdata), byLower);
      && (r.Err? <==> (userSet != map[] || settingsSet != map[]) && "_id" !in account)
      && (r.Err? ==> r.error == KeyError)
      && (userSet == map[] && settingsSet == map[] ==> r == Ok(Applied(PNone, map[], map[])))
      && ((userSet != map[] || settingsSet != map[]) && "_id" in account ==>
            r == Ok(Applied(account["_id"], userSet, settingsSet)))
  {
  }

  /** A kept `favorited_chats` list has at most 50 entries, and they are the first ones sent. */
  lemma FavoritedChatsCapped(newdata: Doc)
    ensures var s := SettingsFields(newdata, DEFAULT_USER_SETTINGS, DEFAULT_USER_SETTINGS.Keys);
      "favorited_chats" in s ==>
        (s["favorited_chats"].PList? && |s["favorited_chats"].items| <= 50
         && s["favorited_chats"].items <= newdata["favorited_chats"].items)
  {
  }

  /** Booleans pass the type check of the integer setting `bgm_song`; a string does not pass the boolean `sfx`. */
  lemma SettingsTypeCheckExamples()
    ensures SettingsFields(map["bgm_song" := PBool(true)], DEFAULT_USER_SETTINGS, DEFAULT_USER_SETTINGS.Keys) == map["bgm_song" := PBool(true)]
    ensures SettingsFields(map["sfx" := PStr("yes")], DEFAULT_USER_SETTINGS, DEFAULT_USER_SETTINGS.Keys) == map[]
  {
    var a := SettingsFields(map["bgm_song" := PBool(true)], DEFAULT_USER_SETTINGS, DEFAULT_USER_SETTINGS.Keys);
    assert "bgm_song" in a;
    assert a.Keys == {"bgm_song"};
    var b := SettingsFields(map["sfx" := PStr("yes")], DEFAULT_USER_SETTINGS, DEFAULT_USER_SETTINGS.Keys);
    assert "sfx" !in b;
    assert b.Keys == {};
  }

  /** `update_settings(username, newdata)`; the settings loop of security.py:173-181 runs over the default keys. */
  method UpdateSettings(username: PyValue, newdata: PyValue, byLower: map<string, Doc>) returns (r: Result<SettingsWrite, PyException>)
    ensures r == SettingsUpdate(username, newdata, byLower)
  {
    if !username.PStr? || !newdata.PDict? {
      return Ok(Rejected);
    }
    var found := FindByLower(username.s, byLower);
    if found.None? {
      return Ok(Rejected);
    }
    var data := newdata.entries;
    var userSet := CheckedProfile(data);
    var settingsSet := KeptSettings(data, DEFAULT_USER_SETTINGS);
    if userSet == map[] && settingsSet == map[] {
      return Ok(Applied(PNone, userSet, settingsSet));
    }
    if "_id" !in found.value {
      return Err(KeyError);
    }
    return Ok(Applied(found.value["_id"], userSet, settingsSet));
  }

  /** The profile checks of `update_settings` (security.py:160-171). */
  method CheckedProfile(data: Doc) returns (userSet: Doc)
    ensures userSet == ProfileFields(data)
  {
    userSet := map[];
    if "pfp_data" in data && IsInstance(data["pfp_data"], TInt) {
      userSet := userSet["pfp_data" := data["pfp_data"]];
    }
    if "custom_pfp" in data && (data["custom_pfp"].PNone? || IsInstance(data["custom_pfp"], TStr)) {
      userSet := userSet["custom_pfp" := data["custom_pfp"]];
    }
    if "quote" in data && IsInstance(data["quote"], TStr) && Len(data["quote"]) <= 360 {
      userSet := userSet["quote" := data["quote"]];
    }
  }

  /** The settings loop of `update_settings` (security.py:173-181), over the default keys. */
  method KeptSettings(data: Doc, defaults: Doc) returns (settingsSet: Doc)
    ensures settingsSet == SettingsFields(data, defaults, defaults.Keys)
  {
    settingsSet := map[];
    var todo := defaults.Keys;
    SettingsFieldsNone(data, defaults);
    while todo != {}
      invariant todo <= defaults.Keys
      invariant settingsSet == SettingsFields(data, defaults, defaults.Keys - todo)
      decreases |todo|
    {
      var key :| key in todo;
      var keep, value := CheckedSetting(data, defaults, key);
      SettingsLoopStep(data, defaults, todo, key, keep, value, settingsSet);
      if keep {
        settingsSet := settingsSet[key := value];
      }
      todo := todo - {key};
    }
  }

  /** One iteration of the settings loop: whether `key` is kept, and the value written for it. */
  method CheckedSetting(data: Doc, defaults: Doc, key: string) returns (keep: bool, value: PyValue)
    ensures keep == KeepsSetting(data, defaults, key)
    ensures keep ==> value == KeptValue(key, data[key])
  {
    keep, value := false, PNone;
    if key != "tos_revisions" && key in defaults && key in data && IsInstance(data[key], TypeOf(defaults[key])) {
      keep, value := true, data[key];
      if key == "favorited_chats" && value.PList? && Len(value) > 50 {
        value := PList(value.items[..50]);
      }
    }
  }

  /* ---------------------------------------------------------------- delete_account */

  /** `account["flags"] | UserFlags.DELETED` on the stored account. */
  function DeletedFlags(account: Doc): (r: Result<int, PyException>)
    ensures "flags" !in account ==> r == Err(KeyError)
    ensures "flags" in account && !IsInstance(account["flags"], TInt) ==> r == Err(TypeError)
  {
    var flags :- Item(PDict(account), "flags");
    var f :- IntOperand(flags);
    Ok(IOr(f, DELETED))
  }

  /** Deletion sets the DELETED bit and keeps every other bit of the stored flags. */
  lemma DeletedFlagsBits(account: Doc)
    requires "flags" in account && IsInstance(account["flags"], TInt)
    ensures DeletedFlags(account).Ok?
    ensures forall i: nat :: IBit(DeletedFlags(account).value, i) <==> i == 1 || IBit(IntOperand(account["flags"]).value, i)
  {
    var f := IntOperand(account["flags"]).value;
    assert DELETED == Pow2(1);
    forall i: nat ensures IBit(IOr(f, DELETED), i) <==> i == 1 || IBit(f, i) {
      IBitOr(f, DELETED, i);
      IBitPow2(1, i);
    }
  }

  /** The `$set` document that scrubs a deleted account. */
  function Scrubbed(flags: int): Doc {
    map["pfp_data" := PNone, "custom_pfp" := PNone, "quote" := PNone, "pswd" := PNone,
        "tokens" := PNone, "flags" := PInt(flags), "permissions" := PNone, "ban" := PNone,
        "last_seen" := PNone, "delete_after" := PNone]
  }

  /** A chat of type 1 (direct) or with a single member is deleted with its owner's account. */
  predicate Dissolves(c: ChatDoc) {
    c.chatType == 1 || |c.members| == 1
  }

  /** A chat that survives: the user leaves the member list, and ownership goes to "Deleted" if it was the user's. */
  function WithoutMember(c: ChatDoc, u: string): ChatDoc {
    c.(owner := if c.owner == u then "Deleted" else c.owner, members := RemoveFirst(c.members, u))
  }

  /** The chats that list `u` as a member (`chats.find({"members": username})`). */
  function MemberChats(chats: map<string, ChatDoc>, u: string): (r: set<string>)
    ensures forall id :: id in r <==> id in chats && u in chats[id].members
  {
    set id | id in chats && u in chats[id].members
  }

  /** The chats after the chats in `done` have been dealt with. */
  function ChatsFixedUp(chats: map<string, ChatDoc>, u: string, done: set<string>): map<string, ChatDoc> {
    map id | id in chats && !(id in done && Dissolves(chats[id])) :: if id in done then WithoutMember(chats[id], u) else chats[id]
  }

  lemma ChatsFixedUpNone(chats: map<string, ChatDoc>, u: string)
    ensures ChatsFixedUp(chats, u, {}) == chats
  {
    assert ChatsFixedUp(chats, u, {}).Keys == chats.Keys;
  }

  lemma ChatsFixedUpStep(chats: map<string, ChatDoc>, u: string, done: set<string>, id: string)
    requires id in chats && id !in done
    ensures var cur := ChatsFixedUp(chats, u, done);
      id in cur && cur[id] == chats[id]
      && ChatsFixedUp(chats, u, done + {id}) ==
         if Dissolves(chats[id]) then cur - {id} else cur[id := WithoutMember(chats[id], u)]
  {
    var cur := ChatsFixedUp(chats, u, done);
    var next := ChatsFixedUp(chats, u, done + {id});
    var expected := if Dissolves(chats[id]) then cur - {id} else cur[id := WithoutMember(chats[id], u)];
    assert next.Keys == expected.Keys;
    forall k | k in next ensures next[k] == expected[k] {
    }
  }

  /** The chat loop of `delete_account` keeps `ChatsFixedUp` of the chats seen so far when it deals with `id`. */
  lemma ChatsLoopStep(chats: map<string, ChatDoc>, u: string, todo: set<string>, id: string, cur: map<string, ChatDoc>)
    requires id in todo && todo <= MemberChats(chats, u)
    requires cur == ChatsFixedUp(chats, u, MemberChats(chats, u) - todo)
    ensures id in cur && cur[id] == chats[id]
    ensures ChatsFixedUp(chats, u, MemberChats(chats, u) - (todo - {id})) ==
      if Dissolves(cur[id]) then cur - {id} else cur[id := WithoutMember(cur[id], u)]
  {
    var done := MemberChats(chats, u) - todo;
    ChatsFixedUpStep(chats, u, done, id);
    assert done + {id} == MemberChats(chats, u) - (todo - {id});
  }

  /**
   * What deleting `u` does to the chats: chats without `u` are untouched, direct and
   * single-member chats that have `u` are gone, and in every other chat `u` loses one
   * membership and the ownership passes to "Deleted" exactly when `u` held it.
   */
  lemma ChatsAfterDeletion(chats: map<string, ChatDoc>, u: string)
    ensures var after := ChatsFixedUp(chats, u, MemberChats(chats, u));
      && after.Keys <= chats.Keys
      && (forall id :: id in chats && u !in chats[id].members ==> id in after && after[id] == chats[id])
      && (forall id :: id in chats && u in chats[id].members && Dissolves(chats[id]) ==> id !in after)
      && (forall id :: id in chats && u in chats[id].members && !Dissolves(chats[id]) ==>
            id in after
            && (after[id].owner == "Deleted" <==> chats[id].owner == u || chats[id].owner == "Deleted")
            && (chats[id].owner != u ==> after[id].owner == chats[id].owner)
            && multiset(after[id].members) == multiset(chats[id].members) - multiset{u}
            && |after[id].members| == |chats[id].members| - 1
            && after[id].chatType == chats[id].chatType)
  {
    forall id | id in chats && u in chats[id].members
      ensures multiset(RemoveFirst(chats[id].members, u)) == multiset(chats[id].members) - multiset{u}
    {
      RemoveFirstCount(chats[id].members, u);
    }
  }

  /** The collections `delete_account` writes, and the sessions it logs out. */
  class AccountStore {
    var users: map<string, Doc>        // usersv0 by _id
    var settings: map<PyValue, Doc>    // user_settings by _id
    var chats: map<string, ChatDoc>    // chats by _id
    var kicked: seq<string>            // kickUser(username, status="LoggedOut") calls, in order

    constructor (users: map<string, Doc>, settings: map<PyValue, Doc>, chats: map<string, ChatDoc>)
      ensures this.users == users && this.settings == settings && this.chats == chats && kicked == []
    {
      this.users := users;
      this.settings := settings;
      this.chats := chats;
      kicked := [];
    }

    /**
     * `delete_account(username, purge)`. The account is scrubbed, its sessions kicked, its
     * settings deleted and its chats fixed up; `purge` then deletes the account document,
     * which needs the account's `uuid` first (`KeyError` leaves the rest done).
     */
    method DeleteAccount(username: string, purge: bool) returns (r: Outcome<PyException>)
      modifies this
      ensures username !in old(users) ==> r == Pass && unchanged(this)
      ensures username in old(users) && DeletedFlags(old(users)[username]).Err? ==>
        r == Fail(DeletedFlags(old(users)[username]).error) && unchanged(this)
      ensures username in old(users) && DeletedFlags(old(users)[username]).Ok? ==>
        var account := old(users)[username];
        var scrubbed := old(users)[username := account + Scrubbed(DeletedFlags(account).value)];
        && kicked == old(kicked) + [username]
        && settings == old(settings) - {PStr(username)}
        && chats == ChatsFixedUp(old(chats), username, MemberChats(old(chats), username))
        && (if !purge then r == Pass && users == scrubbed
            else if "uuid" !in account then r == Fail(KeyError) && users == scrubbed
            else r == Pass && users == old(users) - {username})
    {
      if username !in users {
        return Pass;
      }
      var account := users[username];
      var flags := DeletedFlags(account);
      if flags.Err? {
        return Fail(flags.error);
      }
      users := users[username := account + Scrubbed(flags.value)];
      kicked := kicked + [username];
      settings := settings - {PStr(username)};

      FixUpChats(username);
      if purge {
        if "uuid" !in account {
          return Fail(KeyError);
        }
        users := users - {username};
      }
      return Pass;
    }

    /** The chat loop of `delete_account` (security.py:277-290): each chat listing `username` is deleted or fixed up. */
    method FixUpChats(username: string)
      modifies this
      ensures chats == ChatsFixedUp(old(chats), username, MemberChats(old(chats), username))
      ensures users == old(users) && settings == old(settings) && kicked == old(kicked)
    {
      var original := chats;
      var current := chats;
      var todo := MemberChats(original, username);
      ChatsFixedUpNone(original, username);
      assert MemberChats(original, username) - todo == {};
      while todo != {}
        invariant unchanged(this)
        invariant todo <= MemberChats(original, username)
        invariant current == ChatsFixedUp(original, username, MemberChats(original, username) - todo)
        decreases |todo|
      {
        var id :| id in todo;
        ChatsLoopStep(original, username, todo, id, current);
        var chat := current[id];
        if chat.chatType == 1 || |chat.members| == 1 {
          current := current - {id};
        } else {
          var owner := if chat.owner == username then "Deleted" else chat.owner;
          current := current[id := chat.(owner := owner, members := RemoveFirst(chat.members, username))];
        }
        todo := todo - {id};
      }
      chats := current;
    }
  }
}
