/**
 * Network (IP address) records of src/common/entities/networks.py: the `Network` object
 * with its `admin` view, `log_user` and `set_ban_state`, and the record `get_network`
 * builds or completes from IPHub data. The `networks` collection is a map from address to
 * document; the IPHub answer (`get_iphub_data`, an HTTP call) is a parameter, the empty
 * document when IPHub is not configured or does not answer.
 */
module Networks {
  import opened Wrappers
  import opened PyValues

  /** Events sent to the other servers. */
  datatype Event = KickNetwork(ip: PyValue, code: string)

  /** The database write of one `get_network` call. */
  datatype Write = NoWrite | Inserted(doc: Doc) | Updated(fields: Doc)

  /** `d.get(key)`. */
  function Get(d: Doc, key: string): PyValue {
    if key in d then d[key] else PNone
  }

  /** The `users` list after `log_user(username)`: appended only when absent. */
  function LoggedUsers(users: seq<PyValue>, username: string): (r: seq<PyValue>)
    ensures PStr(username) in r
    ensures |users| <= |r| && r[..|users|] == users
    ensures PStr(username) in users ==> r == users
    ensures PStr(username) !in users ==> r == users + [PStr(username)]
  {
    if PStr(username) in users then users else users + [PStr(username)]
  }

  predicate Distinct(xs: seq<PyValue>) {
    forall i, j :: 0 <= i < j < |xs| ==> xs[i] != xs[j]
  }

  /** Logging a user keeps the list free of duplicates, and logging the same user again changes nothing. */
  lemma LoggedUsersDistinct(users: seq<PyValue>, username: string)
    requires Distinct(users)
    ensures Distinct(LoggedUsers(users, username))
    ensures LoggedUsers(LoggedUsers(users, username), username) == LoggedUsers(users, username)
  {
    var r := LoggedUsers(users, username);
    if PStr(username) !in users {
      forall i, j | 0 <= i < j < |r| ensures r[i] != r[j] {
        if j == |users| {
          assert r[i] == users[i];
        } else {
          assert r[i] == users[i] && r[j] == users[j];
        }
      }
    }
  }

  /** The users of a network, and every log call in order: each logged name is in the list once. */
  function LogAll(users: seq<PyValue>, names: seq<string>): (r: seq<PyValue>)
    decreases |names|
  {
    if names == [] then users else LoggedUsers(LogAll(users, names[..|names| - 1]), names[|names| - 1])
  }

  lemma LogAllContents(users: seq<PyValue>, names: seq<string>)
    requires Distinct(users)
    ensures var r := LogAll(users, names);
      && Distinct(r) && |users| <= |r| && r[..|users|] == users
      && (forall k :: 0 <= k < |names| ==> PStr(names[k]) in r)
      && (forall v :: v in r ==> v in users || exists k :: 0 <= k < |names| && v == PStr(names[k]))
  {
    LogAllKeeps(users, names);
    LogAllLogged(users, names);
  }

  /** The original users stay first, and no name is listed twice. */
  lemma {:induction false} LogAllKeeps(users: seq<PyValue>, names: seq<string>)
    requires Distinct(users)
    ensures var r := LogAll(users, names);
      Distinct(r) && |users| <= |r| && r[..|users|] == users
    decreases |names|
  {
    if names != [] {
      var prev := LogAll(users, names[..|names| - 1]);
      LogAllKeeps(users, names[..|names| - 1]);
      LoggedUsersDistinct(prev, names[|names| - 1]);
      var r := LoggedUsers(prev, names[|names| - 1]);
      assert r[..|users|] == r[..|prev|][..|users|];
    }
  }

  /** Every logged name is listed, and every listed name was there before or was logged. */
  lemma {:induction false} LogAllLogged(users: seq<PyValue>, names: seq<string>)
    ensures var r := LogAll(users, names);
      && (forall k :: 0 <= k < |names| ==> PStr(names[k]) in r)
      && (forall v :: v in r ==> v in users || exists k :: 0 <= k < |names| && v == PStr(names[k]))
    decreases |names|
  {
    if names != [] {
      var init := names[..|names| - 1];
      var prev := LogAll(users, init);
      LogAllLogged(users, init);
      var r := LoggedUsers(prev, names[|names| - 1]);
      forall k | 0 <= k < |names| ensures PStr(names[k]) in r {
        if k < |names| - 1 {
          assert names[k] == init[k];
        }
      }
      forall v | v in r ensures v in users || exists k :: 0 <= k < |names| && v == PStr(names[k]) {
        if v in prev {
          if v !in users {
            var k :| 0 <= k < |init| && v == PStr(init[k]);
            assert names[k] == init[k];
          }
        }
      }
    }
  }

  /** The keyword parameters of `Network.__init__`. */
  const PARAMETERS: set<string> := {"_id", "users", "last_user", "proxy", "country", "banned", "last_used"}

  /** The fields of `Network(**record)`, with the constructor's defaults for missing keys. */
  datatype Fields = Fields(ip: PyValue, users: seq<PyValue>, lastUser: PyValue, proxy: PyValue,
                           country: PyValue, banned: PyValue, lastUsed: PyValue)

  /**
   * `Network(**record)`: a key that is not a parameter, or a missing `_id`, raises
   * `TypeError`; so does a `users` value that is not a list.
   */
  function FromRecord(record: Doc): (r: Result<Fields, PyException>)
    ensures r.Ok? <==> (record.Keys <= PARAMETERS && "_id" in record && ("users" in record ==> record["users"].PList?))
    ensures r.Ok? ==> r.value.ip == record["_id"] && r.value.banned == (if "banned" in record then record["banned"] else PBool(false))
    ensures r.Ok? ==> r.value.users == (if "users" in record then record["users"].items else [])
  {
    if !(record.Keys <= PARAMETERS) || "_id" !in record then Err(TypeError)
    else
      var users := if "users" in record then record["users"] else PList([]);
      if !users.PList? then Err(TypeError)
      else
        var banned := if "banned" in record then record["banned"] else PBool(false);
        Ok(Fields(record["_id"], users.items, Get(record, "last_user"), Get(record, "proxy"),
                  Get(record, "country"), banned, Get(record, "last_used")))
  }

  /** `iphub_data.get("block") == 1`. */
  predicate IsProxy(iphub: Doc) {
    EqualsInt(Get(iphub, "block"), 1)
  }

  /**
   * The record `get_network(ip)` ends with and what it writes: a missing (or empty) record
   * is created from IPHub data; an existing one without "country" gets "proxy" and
   * "country" only when IPHub answers with both "block" and "countryName"; any other
   * record is returned as stored.
   */
  function NetworkRecord(ip: string, stored: Option<Doc>, iphub: Doc): (r: (Doc, Write))
    ensures stored.None? || stored.value == map[] ==>
      && r.0.Keys == {"_id", "users", "last_user", "proxy", "country", "banned"}
      && r.0["_id"] == PStr(ip) && r.0["users"] == PList([]) && r.0["last_user"] == PNone
      && r.0["banned"] == PBool(false) && r.0["country"] == Get(iphub, "countryName")
      && (r.0["proxy"] == PBool(true) <==> IsProxy(iphub))
      && r.1 == Inserted(r.0)
    ensures stored.Some? && stored.value != map[] && "country" !in stored.value ==>
      if "block" in iphub && "countryName" in iphub then
        && r.0 == stored.value["proxy" := PBool(IsProxy(iphub))]["country" := iphub["countryName"]]
        && r.1 == Updated(map["proxy" := PBool(IsProxy(iphub)), "country" := iphub["countryName"]])
      else r == (stored.value, NoWrite)
    ensures stored.Some? && "country" in stored.value ==> r == (stored.value, NoWrite)
    ensures "country" in r.0
      || (stored.Some? && stored.value != map[] && !("block" in iphub && "countryName" in iphub))
  {
    if stored.None? || stored.value == map[] then
      var record := map["_id" := PStr(ip), "users" := PList([]), "last_user" := PNone,
                        "proxy" := PBool(IsProxy(iphub)), "country" := Get(iphub, "countryName"),
                        "banned" := PBool(false)];
      (record, Inserted(record))
    else if "country" !in stored.value then
      if "block" in iphub && "countryName" in iphub then
        var proxy := PBool(IsProxy(iphub));
        var country := Get(iphub, "countryName");
        (stored.value["proxy" := proxy]["country" := country], Updated(map["proxy" := proxy, "country" := country]))
      else (stored.value, NoWrite)
    else (stored.value, NoWrite)
  }

  /** The collection after a `get_network` write. */
  function Apply(stored: Option<Doc>, w: Write): Option<Doc> {
    match w
    case NoWrite => stored
    case Inserted(d) => Some(d)
    case Updated(fields) => if stored.Some? then Some(stored.value + fields) else stored
  }

  /**
   * Once `get_network` has written, the stored record is the one it returned, and every
   * later lookup returns it unchanged without asking IPHub again.
   */
  lemma NetworkRecordSettles(ip: string, stored: Option<Doc>, iphub: Doc, later: Doc)
    ensures var (record, w) := NetworkRecord(ip, stored, iphub);
      w != NoWrite ==> Apply(stored, w) == Some(record) && NetworkRecord(ip, Some(record), later) == (record, NoWrite)
  {
    var (record, w) := NetworkRecord(ip, stored, iphub);
    if w.Updated? {
      assert stored.value + w.fields == record;
    }
  }

  /** A new network is not banned, has no users, and is a proxy exactly when IPHub blocks it. */
  lemma NewNetwork(ip: string, iphub: Doc)
    ensures var record := NetworkRecord(ip, None, iphub).0;
      && FromRecord(record).Ok?
      && FromRecord(record).value == Fields(PStr(ip), [], PNone, PBool(IsProxy(iphub)), Get(iphub, "countryName"), PBool(false), PNone)
  {
  }

  class Network {
    var ip: PyValue
    var users: seq<PyValue>
    var lastUser: PyValue
    var proxy: PyValue
    var country: PyValue
    var banned: PyValue
    var lastUsed: PyValue

    constructor (f: Fields)
      ensures State() == f
    {
      ip, users, lastUser, proxy, country, banned, lastUsed :=
        f.ip, f.users, f.lastUser, f.proxy, f.country, f.banned, f.lastUsed;
    }

    function State(): Fields
      reads this
    {
      Fields(ip, users, lastUser, proxy, country, banned, lastUsed)
    }

    /** The `admin` view: the address twice, and `last_used` as None when it is falsy. */
    function Admin(): (d: Doc)
      reads this
      ensures d.Keys == {"_id", "ip", "users", "last_user", "proxy", "country", "banned", "last_used"}
      ensures d["_id"] == ip && d["ip"] == ip && d["users"] == PList(users)
      ensures d["last_user"] == lastUser && d["proxy"] == proxy && d["country"] == country && d["banned"] == banned
      ensures d["last_used"] == PNone <==> !Truthy(lastUsed)
      ensures Truthy(lastUsed) ==> d["last_used"] == lastUsed
    {
      map["_id" := ip, "ip" := ip, "users" := PList(users), "last_user" := lastUser, "proxy" := proxy,
          "country" := country, "banned" := banned, "last_used" := if Truthy(lastUsed) then lastUsed else PNone]
    }

    /** `log_user(username)` at time `now`. */
    method LogUser(username: string, now: int)
      modifies this
      ensures users == LoggedUsers(old(users), username)
      ensures lastUser == PStr(username) && lastUsed == PInt(now)
      ensures ip == old(ip) && proxy == old(proxy) && country == old(country) && banned == old(banned)
    {
      if PStr(username) !in users {
        users := users + [PStr(username)];
      }
      lastUser := PStr(username);
      lastUsed := PInt(now);
    }

    /** `set_ban_state(banned)`: the new state, and the kick event sent only when banning. */
    method SetBanState(b: bool) returns (events: seq<Event>)
      modifies this
      ensures banned == PBool(b)
      ensures events == if b then [KickNetwork(ip, "IPBanned")] else []
      ensures ip == old(ip) && users == old(users) && lastUser == old(lastUser) && proxy == old(proxy)
      ensures country == old(country) && lastUsed == old(lastUsed)
    {
      banned := PBool(b);
      events := [];
      if Truthy(banned) {
        events := [KickNetwork(ip, "IPBanned")];
      }
    }
  }

  /** `get_network(ip)`: the record after any write, as a `Network` object. */
  method GetNetwork(ip: string, stored: Option<Doc>, iphub: Doc) returns (r: Result<Network, PyException>, w: Write)
    ensures w == NetworkRecord(ip, stored, iphub).1
    ensures r.Ok? <==> FromRecord(NetworkRecord(ip, stored, iphub).0).Ok?
    ensures r.Ok? ==> fresh(r.value) && r.value.State() == FromRecord(NetworkRecord(ip, stored, iphub).0).value
  {
    var record;
    record, w := NetworkRecord(ip, stored, iphub).0, NetworkRecord(ip, stored, iphub).1;
    match FromRecord(record)
    case Err(e) =>
      r := Err(e);
    case Ok(f) =>
      var n := new Network(f);
      r := Ok(n);
  }
}
