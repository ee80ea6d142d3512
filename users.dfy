/**
 * User identity rules of src/entities/users.py: the three fixed system records, the public
 * flag mask, username availability and renaming, and account creation. The flag bit
 * positions come from src/util/flags, which is not part of this model, so they are
 * parameters; `bitfield.create` sets `1 << flag` bits and `bitfield.remove` clears one.
 */
module Users {
  import opened Wrappers
  import opened PyValues
  import opened Text
  import opened Bits

  /** Bit positions of the user flags. */
  datatype FlagLayout = FlagLayout(system: nat, deleted: nat, child: nat, terminated: nat)

  datatype UserRecord = UserRecord(id: string, username: string, lowerUsername: string, flags: int)

  datatype UserError = InvalidDatatype | AlreadyExists | NotFound

  /** A `username_history` document. */
  datatype HistoryRecord = HistoryRecord(id: string, userId: string, oldUsername: string, newUsername: string, byAdmin: bool, time: int)

  const RESERVED_USERNAMES: set<string> := {"server", "deleted", "meower"}

  function ServerUser(layout: FlagLayout): UserRecord { UserRecord("0", "Server", "server", Pow2(layout.system)) }
  function DeletedUser(layout: FlagLayout): UserRecord { UserRecord("1", "Deleted", "deleted", Pow2(layout.deleted)) }
  function MeowerUser(layout: FlagLayout): UserRecord { UserRecord("2", "Meower", "meower", Pow2(layout.system)) }

  /** `lower_username` is the lowercased `username`. */
  predicate Consistent(u: UserRecord) {
    u.lowerUsername == Lower(u.username)
  }

  /**
   * `get_user`: "0", "1" and "2" are the fixed records whatever is stored; an unknown id
   * is the Deleted record when `return_deleted` is set, and otherwise not found.
   */
  function GetUser(userId: string, returnDeleted: bool, stored: map<string, UserRecord>, layout: FlagLayout)
    : (r: Result<UserRecord, UserError>)
    ensures r.Err? <==> userId !in {"0", "1", "2"} && userId !in stored && !returnDeleted
    ensures r.Err? ==> r.error == NotFound
    ensures userId !in {"0", "1", "2"} && userId in stored ==> r == Ok(stored[userId])
  {
    if userId == "0" then Ok(ServerUser(layout))
    else if userId == "1" then Ok(DeletedUser(layout))
    else if userId == "2" then Ok(MeowerUser(layout))
    else if userId in stored then Ok(stored[userId])
    else if returnDeleted then Ok(DeletedUser(layout))
    else Err(NotFound)
  }

  /** Every record `get_user` yields is consistent when the stored ones are. */
  lemma GetUserConsistent(userId: string, returnDeleted: bool, stored: map<string, UserRecord>, layout: FlagLayout)
    requires forall id :: id in stored ==> Consistent(stored[id])
    ensures var r := GetUser(userId, returnDeleted, stored, layout); r.Ok? ==> Consistent(r.value)
  {
    assert Lower("Server") == "server";
    assert Lower("Deleted") == "deleted";
    assert Lower("Meower") == "meower";
  }

  /** The fixed ids map to the fixed records even when stored ones exist; unknown ids depend on `return_deleted` only. */
  lemma GetUserFixedIds(stored: map<string, UserRecord>, layout: FlagLayout, returnDeleted: bool)
    ensures GetUser("0", returnDeleted, stored, layout) == Ok(ServerUser(layout))
    ensures GetUser("1", returnDeleted, stored, layout) == Ok(DeletedUser(layout))
    ensures GetUser("2", returnDeleted, stored, layout) == Ok(MeowerUser(layout))
    ensures forall id :: id !in {"0", "1", "2"} && id !in stored ==>
      GetUser(id, returnDeleted, stored, layout) == if returnDeleted then Ok(DeletedUser(layout)) else Err(NotFound)
  {
  }

  /**
   * `username_available`; `takenLower` is the set of `lower_username` values stored in
   * `users`.
   */
  function UsernameAvailable(username: string, takenLower: set<string>): (r: bool)
    ensures r <==> Lower(username) !in RESERVED_USERNAMES && Lower(username) !in takenLower
  {
    var lower := Lower(username);
    if lower in RESERVED_USERNAMES then false
    else lower !in takenLower
  }

  /** Availability ignores case. */
  lemma UsernameAvailableIgnoresCase(a: string, b: string, takenLower: set<string>)
    requires Lower(a) == Lower(b)
    ensures UsernameAvailable(a, takenLower) == UsernameAvailable(b, takenLower)
  {
  }

  /** The system names are never available, in any spelling. */
  lemma ReservedUsernames(takenLower: set<string>, layout: FlagLayout)
    ensures !UsernameAvailable("SERVER", takenLower) && !UsernameAvailable("dElEtEd", takenLower)
    ensures !UsernameAvailable(ServerUser(layout).username, takenLower)
    ensures !UsernameAvailable(DeletedUser(layout).username, takenLower)
    ensures !UsernameAvailable(MeowerUser(layout).username, takenLower)
  {
    assert Lower("SERVER") == "server";
    assert Lower("dElEtEd") == "deleted";
    assert Lower("Server") == "server";
    assert Lower("Deleted") == "deleted";
    assert Lower("Meower") == "meower";
  }

  /**
   * The `public_flags` loop: clears each bit of `hidden`, one `bitfield.remove` at a
   * time, and keeps every other bit.
   */
  method ClearFlags(flags: int, hidden: seq<nat>) returns (r: int)
    ensures forall i: nat :: IBit(r, i) <==> IBit(flags, i) && i !in hidden
  {
    r := flags;
    var k := 0;
    while k < |hidden|
      invariant 0 <= k <= |hidden|
      invariant forall i: nat :: IBit(r, i) <==> IBit(flags, i) && i !in hidden[..k]
    {
      var before := r;
      r := IAndNot(r, Pow2(hidden[k]));
      forall i: nat ensures IBit(r, i) <==> IBit(flags, i) && i !in hidden[..k + 1] {
        IBitAndNot(before, Pow2(hidden[k]), i);
        IBitPow2(hidden[k], i);
        assert hidden[..k + 1] == hidden[..k] + [hidden[k]];
      }
      k := k + 1;
    }
    assert hidden[..k] == hidden;
  }

  /** `public_flags`: every bit but the child and terminated ones. */
  method PublicFlags(flags: int, layout: FlagLayout) returns (r: int)
    ensures forall i: nat :: IBit(r, i) <==> IBit(flags, i) && i != layout.child && i != layout.terminated
  {
    r := ClearFlags(flags, [layout.child, layout.terminated]);
  }

  class User {
    var id: string
    var username: string
    var lowerUsername: string
    var flags: int

    constructor (id: string, username: string, lowerUsername: string, flags: int)
      ensures this.id == id && this.username == username && this.lowerUsername == lowerUsername && this.flags == flags
    {
      this.id := id;
      this.username := username;
      this.lowerUsername := lowerUsername;
      this.flags := flags;
    }

    /**
     * `update_username`: checks the argument types (a str name, bool flags) and the name's
     * availability, then returns the history record to insert, if `store_history` is set,
     * and renames the user.
     */
    method UpdateUsername(name: PyValue, byAdmin: PyValue, storeHistory: PyValue,
                          takenLower: set<string>, historyId: string, now: int)
      returns (r: Result<Option<HistoryRecord>, UserError>)
      modifies this
      ensures !name.PStr? || !byAdmin.PBool? || !storeHistory.PBool? ==>
        r == Err(InvalidDatatype) && username == old(username) && lowerUsername == old(lowerUsername)
      ensures name.PStr? && byAdmin.PBool? && storeHistory.PBool? && !UsernameAvailable(name.s, takenLower) ==>
        r == Err(AlreadyExists) && username == old(username) && lowerUsername == old(lowerUsername)
      ensures name.PStr? && byAdmin.PBool? && storeHistory.PBool? && UsernameAvailable(name.s, takenLower) ==>
        && r == Ok(if storeHistory.b then Some(HistoryRecord(historyId, id, old(username), name.s, byAdmin.b, now)) else None)
        && username == name.s && lowerUsername == Lower(name.s)
      ensures id == old(id) && flags == old(flags)
    {
      if !name.PStr? || !byAdmin.PBool? || !storeHistory.PBool? {
        return Err(InvalidDatatype);
      }
      if !UsernameAvailable(name.s, takenLower) {
        return Err(AlreadyExists);
      }
      var history := None;
      if storeHistory.b {
        history := Some(HistoryRecord(historyId, id, username, name.s, byAdmin.b, now));
      }
      username := name.s;
      lowerUsername := Lower(name.s);
      r := Ok(history);
    }

    function Record(): UserRecord
      reads this
    {
      UserRecord(id, username, lowerUsername, flags)
    }
  }

  /** `create_user`: the stored record carries the lowercased name. */
  method CreateUser(id: string, username: string, flags: int) returns (u: User)
    ensures fresh(u) && u.Record() == UserRecord(id, username, Lower(username), flags)
    ensures Consistent(u.Record())
  {
    u := new User(id, username, Lower(username), flags);
  }
}
