/**
 * The admin message handler of `listen_for_admin_pubsub` (python/supporter.py:135-177).
 * Each message on the "admin" channel is a msgpack dict with an `op`; "alert_user" posts
 * to a user's inbox and "ban_user" merges a new ban state into the account, appends an
 * admin note and logs the user's sessions out. Any exception ends the handling of that
 * message only, so the effects made before it stay and the next message is handled.
 *
 * `None` stands for a message that does not decode to a dict; `users` is `usersv0` by
 * `_id`, `notes` is `admin_notes` by `_id`, and `sessions` is CloudLink's `usernames` table.
 */
module AdminBus {
  import opened Wrappers
  import opened PyValues

  /** What the handler does outside the two collections, in order. */
  datatype Effect =
    | Alerted(user: PyValue, content: PyValue)   // `create_post("inbox", user, content)`
    | LoggedOut(client: int)                     // `c.logout()` on one session

  datatype BusState = BusState(users: map<string, Doc>, notes: map<PyValue, Doc>, effects: seq<Effect>)

  /** One message: its decoded dict (None when decoding fails) and the time it is handled. */
  datatype Message = Message(data: Option<Doc>, now: int)

  const BAN_FIELDS: seq<string> := ["state", "restrictions", "expires", "reason"]

  /** `msg.get(key, default)`. */
  function Get(msg: Doc, key: string, default: PyValue): PyValue {
    if key in msg then msg[key] else default
  }

  /**
   * The new ban state: each field from the message when present, else the stored one.
   * The defaults are evaluated first, so the stored ban must be a dict holding all four
   * fields or the handler raises before writing anything.
   */
  function MergedBan(msg: Doc, stored: Doc): (r: Result<Doc, PyException>)
    ensures r.Ok? <==> ("ban" in stored && stored["ban"].PDict?
                        && forall k :: k in BAN_FIELDS ==> k in stored["ban"].entries)
    ensures r.Ok? ==> (r.value.Keys == {"state", "restrictions", "expires", "reason"}
                       && forall k :: k in BAN_FIELDS ==>
                            r.value[k] == if k in msg then msg[k] else stored["ban"].entries[k])
  {
    var ban :- Item(PDict(stored), "ban");
    var state :- Item(ban, "state");
    var restrictions :- Item(ban, "restrictions");
    var expires :- Item(ban, "expires");
    var reason :- Item(ban, "reason");
    Ok(map["state" := Get(msg, "state", state), "restrictions" := Get(msg, "restrictions", restrictions),
           "expires" := Get(msg, "expires", expires), "reason" := Get(msg, "reason", reason)])
  }

  /** `notes["notes"] + "\n\n" + note` when there are non-empty notes, else `note`. */
  function JoinedNote(existing: Option<Doc>, note: PyValue): (r: Result<PyValue, PyException>)
    ensures existing.None? || existing.value == map[] ==> r == Ok(note)
    ensures existing.Some? && "notes" in existing.value && existing.value["notes"] == PStr("") ==> r == Ok(note)
    ensures (existing.Some? && "notes" in existing.value && existing.value["notes"].PStr?
             && existing.value["notes"] != PStr("") && note.PStr?) ==>
              r == Ok(PStr(existing.value["notes"].s + "\n\n" + note.s))
  {
    if existing.None? || existing.value == map[] then Ok(note)
    else
      var prior :- Item(PDict(existing.value), "notes");
      if prior == PStr("") then Ok(note)
      else if prior.PStr? && note.PStr? then Ok(PStr(prior.s + "\n\n" + note.s))
      else Err(TypeError)
  }

  /** The admin note document after an upsert (`$set` on the existing document or a new one). */
  function NoteDoc(existing: Option<Doc>, id: PyValue, notes: PyValue, now: int): Doc {
    var base := if existing.Some? then existing.value else map["_id" := id];
    base["notes" := notes]["last_modified_by" := PStr("Server")]["last_modified_at" := PInt(now)]
  }

  /** `for c in self.cl.usernames.get(username, []): c.logout()`. */
  function Logouts(clients: seq<int>): (r: seq<Effect>)
    ensures |r| == |clients| && forall i :: 0 <= i < |r| ==> r[i] == LoggedOut(clients[i])
  {
    if clients == [] then [] else [LoggedOut(clients[0])] + Logouts(clients[1..])
  }

  /**
   * What every message keeps: no account is created or removed, a notes document once
   * written stays, and effects are only appended.
   */
  predicate Extends(st: BusState, st': BusState) {
    st'.users.Keys == st.users.Keys && st.notes.Keys <= st'.notes.Keys && st.effects <= st'.effects
  }

  /** The "ban_user" case, `msg` without its `op`. */
  function BanUser(st: BusState, msg: Doc, sessions: map<string, seq<int>>, now: int): (r: BusState)
    ensures Extends(st, r)
  {
    if "user" !in msg then st
    else
      var username := msg["user"];
      var msg := msg - {"user"};
      if !username.PStr? || username.s !in st.users || st.users[username.s] == map[] then st
      else
        var user := st.users[username.s];
        match MergedBan(msg, user)
        case Err(_) => st
        case Ok(ban) =>
          var st := st.(users := st.users[username.s := user["ban" := PDict(ban)]]);
          var noted :=
            if "note" !in msg then Ok(st)
            else if "uuid" !in user then Err(KeyError)
            else
              var existing := if user["uuid"] in st.notes then Some(st.notes[user["uuid"]]) else None;
              match JoinedNote(existing, msg["note"])
              case Err(e) => Err(e)
              case Ok(text) => Ok(st.(notes := st.notes[user["uuid"] := NoteDoc(existing, user["uuid"], text, now)]));
          match noted
          case Err(_) => st
          case Ok(st) =>
            var clients := if username.s in sessions then sessions[username.s] else [];
            st.(effects := st.effects + Logouts(clients))
  }

  /** One message of the listener loop; an exception leaves the effects made so far. */
  function Handle(st: BusState, m: Message, sessions: map<string, seq<int>>): (r: BusState)
    ensures Extends(st, r)
  {
    match m.data
    case None => st
    case Some(msg) =>
      if "op" !in msg then st
      else
        var op := msg["op"];
        var msg := msg - {"op"};
        if op == PStr("alert_user") then
          if "user" in msg && "content" in msg then st.(effects := st.effects + [Alerted(msg["user"], msg["content"])])
          else st
        else if op == PStr("ban_user") then BanUser(st, msg, sessions, m.now)
        else st
  }

  /** The messages handled in order, each from the state the previous one left. */
  function HandleAll(st: BusState, msgs: seq<Message>, sessions: map<string, seq<int>>): (r: BusState)
    ensures Extends(st, r)
    decreases |msgs|
  {
    if msgs == [] then st
    else Handle(HandleAll(st, msgs[..|msgs| - 1], sessions), msgs[|msgs| - 1], sessions)
  }

  lemma {:induction false} HandleAllAppend(st: BusState, a: seq<Message>, b: seq<Message>, sessions: map<string, seq<int>>)
    ensures HandleAll(st, a + b, sessions) == HandleAll(HandleAll(st, a, sessions), b, sessions)
    decreases |b|
  {
    if b == [] {
      assert a + b == a;
    } else {
      assert (a + b)[..|a + b| - 1] == a + b[..|b| - 1];
      HandleAllAppend(st, a, b[..|b| - 1], sessions);
    }
  }

  /** A message that fails to decode changes nothing, and the messages after it are handled as if it had not come. */
  lemma UndecodableIsSkipped(st: BusState, a: seq<Message>, now: int, b: seq<Message>, sessions: map<string, seq<int>>)
    ensures HandleAll(st, a + [Message(None, now)] + b, sessions) == HandleAll(st, a + b, sessions)
  {
    HandleAllAppend(st, a + [Message(None, now)], b, sessions);
    HandleAllAppend(st, a, [Message(None, now)], sessions);
    HandleAllAppend(st, a, b, sessions);
    assert HandleAll(HandleAll(st, a, sessions), [Message(None, now)], sessions) == HandleAll(st, a, sessions) by {
      assert [Message(None, now)][..0] == [];
    }
  }

  /** "ban_user" for an unknown user, or for one whose stored ban is not a complete dict, changes nothing. */
  lemma BanUnknownUserChangesNothing(st: BusState, msg: Doc, sessions: map<string, seq<int>>, now: int)
    requires "user" in msg
    requires !msg["user"].PStr? || msg["user"].s !in st.users
      || MergedBan(msg - {"user"}, st.users[msg["user"].s]).Err?
    ensures BanUser(st, msg, sessions, now) == st
  {
  }

  /**
   * "ban_user" for a known user with a complete stored ban writes the merged ban into that
   * account and changes no other; without a note it then logs out every session of the
   * user, in order.
   */
  lemma BanKnownUser(st: BusState, msg: Doc, sessions: map<string, seq<int>>, now: int)
    requires "user" in msg && msg["user"].PStr? && msg["user"].s in st.users
    requires st.users[msg["user"].s] != map[]
    requires MergedBan(msg - {"user"}, st.users[msg["user"].s]).Ok?
    ensures var name := msg["user"].s;
      var st' := BanUser(st, msg, sessions, now);
      && st'.users == st.users[name := st.users[name]["ban" := PDict(MergedBan(msg - {"user"}, st.users[name]).value)]]
      && ("note" !in msg ==>
            (st'.notes == st.notes
             && st'.effects == st.effects + Logouts(if name in sessions then sessions[name] else [])))
  {
  }

  /**
   * A note goes after the existing non-empty notes with a blank line between; with no
   * notes document, or empty notes, it is stored as given.
   */
  lemma BanNoteJoined(st: BusState, msg: Doc, sessions: map<string, seq<int>>, now: int)
    requires "user" in msg && msg["user"].PStr? && msg["user"].s in st.users
    requires st.users[msg["user"].s] != map[]
    requires MergedBan(msg - {"user"}, st.users[msg["user"].s]).Ok?
    requires "note" in msg && msg["note"].PStr? && "uuid" in st.users[msg["user"].s]
    ensures var uuid := st.users[msg["user"].s]["uuid"];
      var st' := BanUser(st, msg, sessions, now);
      && (uuid !in st.notes ==> uuid in st'.notes && st'.notes[uuid]["notes"] == msg["note"])
      && (uuid in st.notes && "notes" in st.notes[uuid] && st.notes[uuid]["notes"].PStr? ==>
            uuid in st'.notes
            && st'.notes[uuid]["notes"] ==
               if st.notes[uuid]["notes"] == PStr("") then msg["note"]
               else PStr(st.notes[uuid]["notes"].s + "\n\n" + msg["note"].s))
  {
    var uuid := st.users[msg["user"].s]["uuid"];
    var existing := if uuid in st.notes then Some(st.notes[uuid]) else None;
    BanUserNote(st, msg, sessions, now);
    if uuid in st.notes && "notes" in st.notes[uuid] {
      assert existing.value != map[];
    }
  }

  /**
   * With a well-formed ban and a note, `ban_user` stores the joined note under the user's
   * uuid and then logs out every session of the user, in order; a note that cannot be
   * joined stops the message after the ban is written, with no logouts.
   */
  lemma BanUserNote(st: BusState, msg: Doc, sessions: map<string, seq<int>>, now: int)
    requires "user" in msg && msg["user"].PStr? && msg["user"].s in st.users
    requires st.users[msg["user"].s] != map[]
    requires MergedBan(msg - {"user"}, st.users[msg["user"].s]).Ok?
    requires "note" in msg && "uuid" in st.users[msg["user"].s]
    ensures var name := msg["user"].s;
      var uuid := st.users[name]["uuid"];
      var existing := if uuid in st.notes then Some(st.notes[uuid]) else None;
      var st' := BanUser(st, msg, sessions, now);
      && (JoinedNote(existing, msg["note"]).Ok? ==>
            && st'.notes == st.notes[uuid := NoteDoc(existing, uuid, JoinedNote(existing, msg["note"]).value, now)]
            && st'.effects == st.effects + Logouts(if name in sessions then sessions[name] else []))
      && (JoinedNote(existing, msg["note"]).Err? ==> st'.notes == st.notes && st'.effects == st.effects)
  {
    assert (msg - {"user"})["note"] == msg["note"];
  }

  /** The listener: handles every message in order. */
  class AdminListener {
    var users: map<string, Doc>
    var notes: map<PyValue, Doc>
    var effects: seq<Effect>

    constructor (users: map<string, Doc>, notes: map<PyValue, Doc>)
      ensures this.users == users && this.notes == notes && effects == []
    {
      this.users := users;
      this.notes := notes;
      effects := [];
    }

    function State(): BusState
      reads this
    {
      BusState(users, notes, effects)
    }

    method Listen(msgs: seq<Message>, sessions: map<string, seq<int>>)
      modifies this
      ensures State() == HandleAll(old(State()), msgs, sessions)
    {
      var i := 0;
      while i < |msgs|
        invariant 0 <= i <= |msgs|
        invariant State() == HandleAll(old(State()), msgs[..i], sessions)
      {
        assert msgs[..i + 1][..i] == msgs[..i];
        var next := Handle(State(), msgs[i], sessions);
        users, notes, effects := next.users, next.notes, next.effects;
        i := i + 1;
      }
      assert msgs[..i] == msgs;
    }
  }
}
