/**
 * The per-connection state table kept by the CloudLink server and the helpers of the
 * `Supporter` class that read and write it (supporter.py:86-131, 164-183, 252-280):
 * `statedata["ulist"]["objs"]` maps a session id to that session's state dict, and
 * `statedata["ulist"]["usernames"]` maps a username to the ids of its sessions.
 */
module Sessions {
  import opened Wrappers
  import opened PyValues

  type ClientId = int

  /** The state dict of one session ("authed", "authtype", "username", "ip", ...). */
  type SessionState = map<string, PyValue>

  /** The forms a `client` argument takes: a username, a client object, a bare id, or anything else. */
  datatype ClientRef =
    | ByUsername(name: string)
    | ByObject(objectId: ClientId)
    | ById(id: ClientId)
    | Unsupported

  datatype Error =
    | UnsupportedClient      // "client is not a supported datatype"
    | Raised(e: PyException) // `tmp[0]` on an empty list, `tmp[0]["authed"]` on a state without that key

  datatype ConnectDecision = RefusedRepairMode | RefusedBlockedIp | Accepted

  /** The session ids a `client` argument stands for. */
  function Resolve(client: ClientRef, usernames: map<string, seq<ClientId>>): (r: Result<seq<ClientId>, Error>)
    ensures r.Err? <==> client.Unsupported?
    ensures r.Err? ==> r.error == UnsupportedClient
    ensures r.Ok? && !client.ByUsername? ==> |r.value| == 1
  {
    match client
    case ByUsername(name) => Ok(if name in usernames then usernames[name] else [])
    case ByObject(id) => Ok([id])
    case ById(id) => Ok([id])
    case Unsupported => Err(UnsupportedClient)
  }

  /** The ids of `ids` that have a session, in input order. */
  function Present(objs: map<ClientId, SessionState>, ids: seq<ClientId>): (r: seq<ClientId>)
    ensures forall i :: 0 <= i < |r| ==> r[i] in objs && r[i] in ids
    ensures forall id :: id in ids && id in objs ==> id in r
    ensures |r| <= |ids|
  {
    if ids == [] then []
    else
      var init := Present(objs, ids[..|ids| - 1]);
      assert ids == ids[..|ids| - 1] + [ids[|ids| - 1]];
      init + (if ids[|ids| - 1] in objs then [ids[|ids| - 1]] else [])
  }

  /** `Present` keeps the input order: the present ids of `a + b` are those of `a`, then those of `b`. */
  lemma {:induction false} PresentAppend(objs: map<ClientId, SessionState>, a: seq<ClientId>, b: seq<ClientId>)
    ensures Present(objs, a + b) == Present(objs, a) + Present(objs, b)
    decreases |b|
  {
    if b == [] {
      assert a + b == a;
    } else {
      var init, last := b[..|b| - 1], b[|b| - 1];
      var kept := if last in objs then [last] else [];
      assert b == init + [last];
      assert a + b == (a + init) + [last];
      calc {
        Present(objs, a + b);
        { PresentSnoc(objs, a + init, last); }
        Present(objs, a + init) + kept;
        { PresentAppend(objs, a, init); }
        Present(objs, a) + Present(objs, init) + kept;
        { PresentSnoc(objs, init, last); }
        Present(objs, a) + Present(objs, b);
      }
    }
  }

  /** One unfolding of `Present`: the last id is kept exactly when it has a session. */
  lemma PresentSnoc(objs: map<ClientId, SessionState>, xs: seq<ClientId>, y: ClientId)
    ensures Present(objs, xs + [y]) == Present(objs, xs) + (if y in objs then [y] else [])
  {
    var ys := xs + [y];
    assert ys[..|ys| - 1] == xs && ys[|ys| - 1] == y;
  }

  /** The states of the present sessions among `ids`, in input order. */
  function PresentStates(objs: map<ClientId, SessionState>, ids: seq<ClientId>): (r: seq<SessionState>)
    ensures |r| == |Present(objs, ids)|
    ensures forall i :: 0 <= i < |r| ==> r[i] == objs[Present(objs, ids)[i]]
  {
    if ids == [] then []
    else
      var last := ids[|ids| - 1];
      PresentStates(objs, ids[..|ids| - 1]) + (if last in objs then [objs[last]] else [])
  }

  /** Every present session among `ids` with `key` set to `value`; absent ids are skipped. */
  function SetKey(objs: map<ClientId, SessionState>, ids: seq<ClientId>, key: string, value: PyValue): (r: map<ClientId, SessionState>)
    ensures r.Keys == objs.Keys
    ensures forall id :: id in objs && id in ids ==> r[id] == objs[id][key := value]
    ensures forall id :: id in objs && id !in ids ==> r[id] == objs[id]
  {
    map id | id in objs :: if id in ids then objs[id][key := value] else objs[id]
  }

  lemma SetKeyStep(objs: map<ClientId, SessionState>, ids: seq<ClientId>, id: ClientId, key: string, value: PyValue)
    ensures var prev := SetKey(objs, ids, key, value);
      SetKey(objs, ids + [id], key, value) == if id in prev then prev[id := prev[id][key := value]] else prev
  {
    var prev := SetKey(objs, ids, key, value);
    var next := SetKey(objs, ids + [id], key, value);
    var expected := if id in prev then prev[id := prev[id][key := value]] else prev;
    assert next.Keys == expected.Keys;
    forall k | k in next ensures next[k] == expected[k] {
      if k == id {
        assert k in ids + [id];
        if k in ids {
          assert prev[k] == objs[k][key := value];
          assert prev[k][key := value] == prev[k];
        }
      } else {
        assert (k in ids + [id]) == (k in ids);
      }
    }
  }

  /** One more id in `SetKey`'s loop over `ids`. */
  lemma SetKeyPrefix(objs: map<ClientId, SessionState>, ids: seq<ClientId>, i: nat, key: string, value: PyValue)
    requires i < |ids|
    ensures var prev := SetKey(objs, ids[..i], key, value);
      SetKey(objs, ids[..i + 1], key, value) == if ids[i] in prev then prev[ids[i] := prev[ids[i]][key := value]] else prev
  {
    assert ids[..i + 1] == ids[..i] + [ids[i]];
    SetKeyStep(objs, ids[..i], ids[i], key, value);
  }

  /** One more id in `PresentStates`'s loop over `ids`. */
  lemma PresentStatesPrefix(objs: map<ClientId, SessionState>, ids: seq<ClientId>, i: nat)
    requires i < |ids|
    ensures PresentStates(objs, ids[..i + 1]) == PresentStates(objs, ids[..i]) + (if ids[i] in objs then [objs[ids[i]]] else [])
  {
    assert ids[..i + 1][..i] == ids[..i];
  }

  /** A username's session list; `[]` when the username has none. */
  function Listed(usernames: map<string, seq<ClientId>>, name: string): seq<ClientId> {
    if name in usernames then usernames[name] else []
  }

  class Registry {
    var objs: map<ClientId, SessionState>
    var usernames: map<string, seq<ClientId>>
    var repairMode: bool
    /** The connection netblocks loaded into `blocked_ips`. */
    var blockedIps: set<string>

    constructor (repairMode: bool, blockedIps: set<string>)
      ensures objs == map[] && usernames == map[]
      ensures this.repairMode == repairMode && this.blockedIps == blockedIps
    {
      objs := map[];
      usernames := map[];
      this.repairMode := repairMode;
      this.blockedIps := blockedIps;
    }

    /** `get_client_statedata(client)`: the states of the listed sessions that exist, in order. */
    method GetClientStatedata(client: ClientRef) returns (r: Result<seq<SessionState>, Error>)
      ensures Resolve(client, usernames).Err? ==> r == Err(UnsupportedClient)
      ensures Resolve(client, usernames).Ok? ==> r == Ok(PresentStates(objs, Resolve(client, usernames).value))
    {
      var resolved := Resolve(client, usernames);
      if resolved.Err? {
        return Err(UnsupportedClient);
      }
      var ids := resolved.value;
      var statedata: seq<SessionState> := [];
      for i := 0 to |ids|
        invariant statedata == PresentStates(objs, ids[..i])
      {
        PresentStatesPrefix(objs, ids, i);
        if ids[i] in objs {
          statedata := statedata + [objs[ids[i]]];
        }
      }
      assert ids[..|ids|] == ids;
      r := Ok(statedata);
    }

    /** `modify_client_statedata(client, key, value)`: sets `key` on every listed session that exists. */
    method ModifyClientStatedata(client: ClientRef, key: string, value: PyValue) returns (r: Result<bool, Error>)
      modifies this
      ensures usernames == old(usernames) && repairMode == old(repairMode) && blockedIps == old(blockedIps)
      ensures Resolve(client, usernames).Err? ==> r == Err(UnsupportedClient) && objs == old(objs)
      ensures Resolve(client, usernames).Ok? ==>
        r == Ok(true) && objs == SetKey(old(objs), Resolve(client, usernames).value, key, value)
    {
      var resolved := Resolve(client, usernames);
      if resolved.Err? {
        return Err(UnsupportedClient);
      }
      var ids := resolved.value;
      for i := 0 to |ids|
        invariant usernames == old(usernames) && repairMode == old(repairMode) && blockedIps == old(blockedIps)
        invariant objs == SetKey(old(objs), ids[..i], key, value)
      {
        SetKeyPrefix(old(objs), ids, i, key, value);
        if ids[i] in objs {
          objs := objs[ids[i] := objs[ids[i]][key := value]];
        }
      }
      assert ids[..|ids|] == ids;
      r := Ok(true);
    }

    /**
     * `isAuthenticated(client)`: true as soon as more than one session is found, otherwise
     * the single session's "authed" value; no session at all raises.
     */
    method IsAuthenticated(client: ClientRef) returns (r: Result<PyValue, Error>)
      ensures Resolve(client, usernames).Err? ==> r == Err(UnsupportedClient)
      ensures Resolve(client, usernames).Ok? ==>
        var present := Present(objs, Resolve(client, usernames).value);
        && (|present| > 1 ==> r == Ok(PBool(true)))
        && (|present| == 0 ==> r == Err(Raised(IndexError)))
        && (|present| == 1 && "authed" !in objs[present[0]] ==> r == Err(Raised(KeyError)))
        && (|present| == 1 && "authed" in objs[present[0]] ==> r == Ok(objs[present[0]]["authed"]))
    {
      var tmp := GetClientStatedata(client);
      if tmp.Err? {
        return Err(tmp.error);
      }
      var states := tmp.value;
      if |states| > 1 {
        return Ok(PBool(true));
      }
      if |states| == 0 {
        return Err(Raised(IndexError));
      }
      if "authed" !in states[0] {
        return Err(Raised(KeyError));
      }
      r := Ok(states[0]["authed"]);
    }

    /** `autoID(client, username)`: binds the session to `username` and appends it to that username's list. */
    method AutoId(client: ClientId, username: string)
      modifies this
      ensures objs == SetKey(old(objs), [client], "username", PStr(username))
      ensures usernames == old(usernames)[username := Listed(old(usernames), username) + [client]]
      ensures repairMode == old(repairMode) && blockedIps == old(blockedIps)
    {
      var _ := ModifyClientStatedata(ByObject(client), "username", PStr(username));
      if username !in usernames {
        usernames := usernames[username := []];
      }
      usernames := usernames[username := usernames[username] + [client]];
    }

    /**
     * `on_connect(client)`: refuses every client in repair mode, otherwise refuses a client
     * whose IP the blocked netblocks match, otherwise initialises its auth state.
     * `matches` stands for the radix tree's longest-prefix lookup.
     */
    method OnConnect(client: ClientId, ip: string, matches: (set<string>, string) -> bool) returns (d: ConnectDecision)
      modifies this
      ensures repairMode ==> d == RefusedRepairMode
      ensures !repairMode && matches(blockedIps, ip) ==> d == RefusedBlockedIp
      ensures !repairMode && !matches(blockedIps, ip) ==> d == Accepted
      ensures d != Accepted ==> objs == old(objs)
      ensures d == Accepted ==>
        objs == SetKey(SetKey(old(objs), [client], "authtype", PStr("")), [client], "authed", PBool(false))
      ensures usernames == old(usernames) && repairMode == old(repairMode) && blockedIps == old(blockedIps)
    {
      if repairMode {
        d := RefusedRepairMode;
      } else if matches(blockedIps, ip) {
        d := RefusedBlockedIp;
      } else {
        var _ := ModifyClientStatedata(ByObject(client), "authtype", PStr(""));
        var _ := ModifyClientStatedata(ByObject(client), "authed", PBool(false));
        d := Accepted;
      }
    }
  }

  /** The username index agrees with the sessions: every listed id exists and carries that username. */
  ghost predicate IndexConsistent(objs: map<ClientId, SessionState>, usernames: map<string, seq<ClientId>>) {
    forall name, i :: name in usernames && 0 <= i < |usernames[name]| ==>
      usernames[name][i] in objs && "username" in objs[usernames[name][i]]
      && objs[usernames[name][i]]["username"] == PStr(name)
  }

  /** `autoID` preserves the index invariant for an existing session bound to no other username. */
  lemma AutoIdKeepsIndexConsistent(objs: map<ClientId, SessionState>, usernames: map<string, seq<ClientId>>,
                                   client: ClientId, username: string)
    requires IndexConsistent(objs, usernames)
    requires client in objs
    requires forall name :: name in usernames && name != username ==> client !in usernames[name]
    ensures IndexConsistent(SetKey(objs, [client], "username", PStr(username)),
                            usernames[username := Listed(usernames, username) + [client]])
  {
    var objs' := SetKey(objs, [client], "username", PStr(username));
    var usernames' := usernames[username := Listed(usernames, username) + [client]];
    forall name, i | name in usernames' && 0 <= i < |usernames'[name]|
      ensures usernames'[name][i] in objs' && "username" in objs'[usernames'[name][i]]
        && objs'[usernames'[name][i]]["username"] == PStr(name)
    {
      var id := usernames'[name][i];
      if name == username && i == |Listed(usernames, username)| {
        assert id == client;
      } else {
        assert name in usernames && id == usernames[name][i];
        assert id != client ==> objs'[id] == objs[id];
      }
    }
  }

  /**
   * `autoID` never takes an id out of another username's list, so rebinding a session to a
   * second username leaves a stale entry under the first.
   */
  lemma AutoIdRebindLeavesStaleEntry(client: ClientId)
    ensures var objs := map[client := map["username" := PStr("a")]];
      var usernames := map["a" := [client]];
      IndexConsistent(objs, usernames)
      && !IndexConsistent(SetKey(objs, [client], "username", PStr("b")),
                          usernames["b" := Listed(usernames, "b") + [client]])
  {
    var objs := map[client := map["username" := PStr("a")]];
    var usernames := map["a" := [client]];
    var objs' := SetKey(objs, [client], "username", PStr("b"));
    var usernames' := usernames["b" := Listed(usernames, "b") + [client]];
    assert objs'[client]["username"] == PStr("b") != PStr("a");
    assert usernames'["a"][0] == client;
  }

  /** Several sessions make `isAuthenticated` true even when none of them has "authed" set. */
  lemma ManySessionsCountAsAuthenticated(objs: map<ClientId, SessionState>, ids: seq<ClientId>)
    requires |ids| == 2 && ids[0] != ids[1] && ids[0] in objs && ids[1] in objs
    ensures |Present(objs, ids)| > 1
  {
    assert ids[0] in Present(objs, ids) && ids[1] in Present(objs, ids);
  }
}
