/**
 * The chat entity of src/entities/chats.py: a member list and an insertion-ordered
 * permission dict (user id to level; 2 is the owner, 1 a moderator), changed in place by
 * add, remove, promote, demote and ownership transfer. The object's fields stand for the
 * stored chat document as well; the `chat_updated`/`chat_deleted` events are not modelled.
 */
module Chats {
  import opened Wrappers
  import opened PyValues
  import opened Seqs

  const LIVECHAT := "livechat"

  /** A member as the chat holds it (a `User` from `users.get_user`). */
  datatype Member = Member(id: string, username: string)

  /** One entry of the permission dict. */
  datatype Grant = Grant(userId: string, level: int)

  datatype ChatError = MissingPermissions | ChatMemberAlreadyExists | ResourceNotFound

  /** The legacy view of `legacy_public`. */
  datatype LegacyChat = LegacyChat(id: string, nickname: Option<string>, owner: string, members: seq<string>)

  // ----- the member list -----

  predicate HasMemberId(members: seq<Member>, uid: string) {
    exists m :: m in members && m.id == uid
  }

  predicate DistinctIds(members: seq<Member>) {
    forall i, j :: 0 <= i < j < |members| ==> members[i].id != members[j].id
  }

  /** The first member with the given id. */
  function FirstWithId(members: seq<Member>, uid: string): (r: Option<Member>)
    ensures r.Some? <==> HasMemberId(members, uid)
    ensures r.Some? ==> r.value in members && r.value.id == uid
  {
    if members == [] then None
    else if members[0].id == uid then Some(members[0])
    else FirstWithId(members[1..], uid)
  }

  /** The members without the given id, in their order. */
  function WithoutId(members: seq<Member>, uid: string): (r: seq<Member>)
    ensures forall m :: m in r <==> m in members && m.id != uid
    ensures !HasMemberId(r, uid)
    ensures DistinctIds(members) ==> DistinctIds(r)
    ensures !HasMemberId(members, uid) ==> r == members
  {
    if members == [] then []
    else
      var rest := WithoutId(members[1..], uid);
      assert members == [members[0]] + members[1..];
      if members[0].id == uid then rest else [members[0]] + rest
  }

  /** A list in which no member has the id is its own `WithoutId`. */
  lemma NoIdLeft(ms: seq<Member>, uid: string)
    requires forall j :: 0 <= j < |ms| ==> ms[j].id != uid
    ensures WithoutId(ms, uid) == ms
  {
    assert !HasMemberId(ms, uid) by {
      forall m | m in ms ensures m.id != uid {
        var j :| 0 <= j < |ms| && ms[j] == m;
      }
    }
  }

  lemma {:induction false} WithoutIdAppend(a: seq<Member>, b: seq<Member>, uid: string)
    ensures WithoutId(a + b, uid) == WithoutId(a, uid) + WithoutId(b, uid)
  {
    if a == [] {
      assert a + b == b;
    } else {
      assert (a + b)[1..] == a[1..] + b;
      WithoutIdAppend(a[1..], b, uid);
    }
  }

  lemma DistinctIdsRemoveAt(ms: seq<Member>, i: nat)
    requires i < |ms| && DistinctIds(ms)
    ensures DistinctIds(ms[..i] + ms[i + 1..])
  {
    var next := ms[..i] + ms[i + 1..];
    assert forall a :: 0 <= a < |next| ==> next[a] == (if a < i then ms[a] else ms[a + 1]);
  }

  lemma WithoutIdSkip(a: seq<Member>, m: Member, b: seq<Member>, uid: string)
    requires m.id == uid
    ensures WithoutId(a + [m] + b, uid) == WithoutId(a + b, uid)
  {
    var single := WithoutId([m], uid);
    assert single == [] by { assert [m][1..] == []; }
    WithoutIdAppend(a + [m], b, uid);
    WithoutIdAppend(a, [m], uid);
    WithoutIdAppend(a, b, uid);
  }

  lemma WithoutIdRemoveAt(ms: seq<Member>, i: nat, uid: string)
    requires i < |ms| && ms[i].id == uid
    ensures WithoutId(ms[..i] + ms[i + 1..], uid) == WithoutId(ms, uid)
  {
    assert ms == ms[..i] + [ms[i]] + ms[i + 1..];
    WithoutIdSkip(ms[..i], ms[i], ms[i + 1..], uid);
  }

  /** One removal of the loop in `remove_member`: the member at `i` goes, and the next one is not looked at. */
  lemma RemoveStep(ms: seq<Member>, i: nat, uid: string)
    requires i < |ms| && ms[i].id == uid && DistinctIds(ms)
    requires forall j :: 0 <= j < i ==> ms[j].id != uid
    ensures var next := RemoveFirst(ms, ms[i]);
      && next == ms[..i] + ms[i + 1..]
      && DistinctIds(next)
      && WithoutId(next, uid) == WithoutId(ms, uid)
      && forall j :: 0 <= j < i + 1 && j < |next| ==> next[j].id != uid
  {
    RemoveFirstAt(ms, i);
    DistinctIdsRemoveAt(ms, i);
    WithoutIdRemoveAt(ms, i, uid);
    RemoveAtPrefix(ms, i, uid, ms[..i] + ms[i + 1..]);
  }

  /** After dropping index `i`, the first `i + 1` members still lack the id. */
  lemma RemoveAtPrefix(ms: seq<Member>, i: nat, uid: string, next: seq<Member>)
    requires i < |ms| && DistinctIds(ms) && ms[i].id == uid
    requires forall j :: 0 <= j < i ==> ms[j].id != uid
    requires next == ms[..i] + ms[i + 1..]
    ensures forall j :: 0 <= j < i + 1 && j < |next| ==> next[j].id != uid
  {
    forall j | 0 <= j < i + 1 && j < |next| ensures next[j].id != uid {
      if j < i {
        assert next[j] == ms[j];
      } else {
        assert next[j] == ms[i + 1];
      }
    }
  }

  // ----- the permission dict -----

  function Keys(perms: seq<Grant>): set<string> {
    set i | 0 <= i < |perms| :: perms[i].userId
  }

  predicate DistinctKeys(perms: seq<Grant>) {
    forall i, j :: 0 <= i < j < |perms| ==> perms[i].userId != perms[j].userId
  }

  lemma KeysCons(g: Grant, rest: seq<Grant>)
    ensures Keys([g] + rest) == {g.userId} + Keys(rest)
  {
    var r := [g] + rest;
    forall x | x in Keys(r) ensures x in {g.userId} + Keys(rest) {
      var i :| 0 <= i < |r| && r[i].userId == x;
      if i > 0 { assert rest[i - 1] == r[i]; }
    }
    forall x | x in {g.userId} + Keys(rest) ensures x in Keys(r) {
      if x == g.userId {
        assert r[0].userId == x;
      } else {
        var i :| 0 <= i < |rest| && rest[i].userId == x;
        assert r[i + 1] == rest[i];
      }
    }
  }

  lemma DistinctKeysCons(g: Grant, rest: seq<Grant>)
    ensures DistinctKeys([g] + rest) <==> g.userId !in Keys(rest) && DistinctKeys(rest)
  {
    var r := [g] + rest;
    KeysCons(g, rest);
    assert forall i :: 0 < i < |r| ==> r[i] == rest[i - 1];
    assert forall j :: 0 < j < |r| ==> r[j].userId in Keys(rest);
    if DistinctKeys(r) {
      forall a, b | 0 <= a < b < |rest| ensures rest[a].userId != rest[b].userId {
        assert r[a + 1] == rest[a] && r[b + 1] == rest[b];
      }
      forall j | 0 <= j < |rest| ensures rest[j].userId != g.userId {
        assert r[0] == g && r[j + 1] == rest[j];
        assert r[0].userId != r[j + 1].userId;
      }
    }
  }

  /** `permissions.get(uid, 0)`. */
  function LevelOf(perms: seq<Grant>, uid: string): (r: int)
    ensures uid !in Keys(perms) ==> r == 0
    ensures DistinctKeys(perms) ==> forall i :: 0 <= i < |perms| && perms[i].userId == uid ==> r == perms[i].level
  {
    if perms == [] then 0
    else if perms[0].userId == uid then perms[0].level
    else
      assert Keys(perms) == {perms[0].userId} + Keys(perms[1..]) by {
        assert perms == [perms[0]] + perms[1..];
        KeysCons(perms[0], perms[1..]);
      }
      LevelOf(perms[1..], uid)
  }

  /** What `permissions[uid] = level` promises of the dict `r` it leaves. */
  ghost predicate SetsLevel(perms: seq<Grant>, uid: string, level: int, r: seq<Grant>) {
    && LevelOf(r, uid) == level
    && (forall k :: k != uid ==> LevelOf(r, k) == LevelOf(perms, k))
    && Keys(r) == Keys(perms) + {uid}
    && (DistinctKeys(perms) ==> DistinctKeys(r))
    && (uid !in Keys(perms) ==> r == perms + [Grant(uid, level)])
  }

  /** Overwriting the first entry, which holds the key. */
  lemma SetsLevelHead(g: Grant, rest: seq<Grant>, level: int)
    ensures SetsLevel([g] + rest, g.userId, level, [Grant(g.userId, level)] + rest)
  {
    var perms, r := [g] + rest, [Grant(g.userId, level)] + rest;
    assert perms[1..] == rest && r[1..] == rest;
    KeysCons(g, rest);
    KeysCons(Grant(g.userId, level), rest);
    DistinctKeysCons(g, rest);
    DistinctKeysCons(Grant(g.userId, level), rest);
  }

  /** Keeping a first entry with another key in front of the updated rest. */
  lemma SetsLevelCons(g: Grant, rest: seq<Grant>, uid: string, level: int, r: seq<Grant>)
    requires g.userId != uid && SetsLevel(rest, uid, level, r)
    ensures SetsLevel([g] + rest, uid, level, [g] + r)
  {
    SetsLevelConsLevels(g, rest, uid, level, r);
    SetsLevelConsKeys(g, rest, uid, level, r);
  }

  lemma SetsLevelConsLevels(g: Grant, rest: seq<Grant>, uid: string, level: int, r: seq<Grant>)
    requires g.userId != uid
    requires LevelOf(r, uid) == level && forall k :: k != uid ==> LevelOf(r, k) == LevelOf(rest, k)
    ensures LevelOf([g] + r, uid) == level
    ensures forall k :: k != uid ==> LevelOf([g] + r, k) == LevelOf([g] + rest, k)
  {
    assert ([g] + rest)[1..] == rest && ([g] + r)[1..] == r;
  }

  lemma SetsLevelConsKeys(g: Grant, rest: seq<Grant>, uid: string, level: int, r: seq<Grant>)
    requires g.userId != uid
    requires Keys(r) == Keys(rest) + {uid}
    requires DistinctKeys(rest) ==> DistinctKeys(r)
    requires uid !in Keys(rest) ==> r == rest + [Grant(uid, level)]
    ensures Keys([g] + r) == Keys([g] + rest) + {uid}
    ensures DistinctKeys([g] + rest) ==> DistinctKeys([g] + r)
    ensures uid !in Keys([g] + rest) ==> [g] + r == [g] + rest + [Grant(uid, level)]
  {
    KeysCons(g, rest);
    KeysCons(g, r);
    DistinctKeysCons(g, rest);
    DistinctKeysCons(g, r);
  }

  /** `permissions[uid] = level`: a present key keeps its place, a new key goes last. */
  function SetLevel(perms: seq<Grant>, uid: string, level: int): (r: seq<Grant>)
    ensures LevelOf(r, uid) == level
    ensures forall k :: k != uid ==> LevelOf(r, k) == LevelOf(perms, k)
    ensures Keys(r) == Keys(perms) + {uid}
    ensures DistinctKeys(perms) ==> DistinctKeys(r)
    ensures uid !in Keys(perms) ==> r == perms + [Grant(uid, level)]
  {
    if perms == [] then
      assert Keys([Grant(uid, level)]) == {uid} by { assert [Grant(uid, level)][0].userId == uid; }
      [Grant(uid, level)]
    else
      assert perms == [perms[0]] + perms[1..];
      if perms[0].userId == uid then
        SetsLevelHead(perms[0], perms[1..], level);
        [Grant(uid, level)] + perms[1..]
      else
        var rest := SetLevel(perms[1..], uid, level);
        SetsLevelCons(perms[0], perms[1..], uid, level, rest);
        [perms[0]] + rest
  }

  /** `del permissions[uid]` (nothing when the key is absent). */
  function WithoutKey(perms: seq<Grant>, uid: string): (r: seq<Grant>)
    ensures LevelOf(r, uid) == 0
    ensures forall k :: k != uid ==> LevelOf(r, k) == LevelOf(perms, k)
    ensures Keys(r) == Keys(perms) - {uid}
    ensures DistinctKeys(perms) ==> DistinctKeys(r)
  {
    if perms == [] then []
    else
      var rest := WithoutKey(perms[1..], uid);
      assert Keys(perms) == {perms[0].userId} + Keys(perms[1..]) by {
        assert perms == [perms[0]] + perms[1..];
        KeysCons(perms[0], perms[1..]);
      }
      DistinctKeysCons(perms[0], perms[1..]);
      if perms[0].userId == uid then rest
      else
        var r := [perms[0]] + rest;
        KeysCons(perms[0], rest);
        DistinctKeysCons(perms[0], rest);
        r
  }

  /**
   * The `owner` property: the first member whose id is the first level-2 key that
   * names a member, or None.
   */
  function OwnerOf(perms: seq<Grant>, members: seq<Member>): (r: Option<Member>)
    ensures r.Some? ==> r.value in members && r == FirstWithId(members, r.value.id)
    ensures r.Some? && DistinctKeys(perms) ==> LevelOf(perms, r.value.id) == 2
    ensures r.None? ==> forall k :: LevelOf(perms, k) == 2 ==> !HasMemberId(members, k)
    ensures (forall i :: 0 <= i < |perms| ==> perms[i].level != 2) ==> r.None?
  {
    if perms == [] then None
    else
      var rest := OwnerOf(perms[1..], members);
      assert DistinctKeys(perms) ==> DistinctKeys(perms[1..]);
      assert DistinctKeys(perms) ==> perms[0].userId !in Keys(perms[1..]);
      assert forall k :: k != perms[0].userId ==> LevelOf(perms, k) == LevelOf(perms[1..], k);
      assert (forall i :: 0 <= i < |perms| ==> perms[i].level != 2) ==>
               (forall i :: 0 <= i < |perms[1..]| ==> perms[1..][i].level != 2);
      if perms[0].level == 2 && FirstWithId(members, perms[0].userId).Some? then FirstWithId(members, perms[0].userId)
      else
        assert perms[0].level == 2 ==> !HasMemberId(members, perms[0].userId);
        rest
  }

  /** The permissions after `transfer_ownership(uid)` has passed its checks. */
  function Transfer(perms: seq<Grant>, members: seq<Member>, uid: string): seq<Grant> {
    var owner := OwnerOf(perms, members);
    SetLevel(if owner.Some? then SetLevel(perms, owner.value.id, 0) else perms, uid, 2)
  }

  /** At most one key at level 2. */
  ghost predicate SingleOwner(perms: seq<Grant>) {
    forall a, b :: LevelOf(perms, a) == 2 && LevelOf(perms, b) == 2 ==> a == b
  }

  /** Every key at level 2 is a member. */
  ghost predicate OwnerIsMember(perms: seq<Grant>, members: seq<Member>) {
    forall k :: LevelOf(perms, k) == 2 ==> HasMemberId(members, k)
  }

  /** With at most one owner before, and that one a member, the target is the only owner after. */
  lemma TransferLeavesOneOwner(perms: seq<Grant>, members: seq<Member>, uid: string)
    requires DistinctKeys(perms) && SingleOwner(perms) && OwnerIsMember(perms, members)
    ensures forall k :: LevelOf(Transfer(perms, members, uid), k) == 2 <==> k == uid
  {
    var owner := OwnerOf(perms, members);
    if owner.Some? {
      forall k | k != uid && k != owner.value.id
        ensures LevelOf(perms, k) != 2
      {
        assert LevelOf(perms, owner.value.id) == 2;
      }
    }
  }

  /** The dict after a transfer is again one with a single owner that is a member. */
  lemma TransferKeepsOwnership(perms: seq<Grant>, members: seq<Member>, uid: string)
    requires DistinctKeys(perms) && SingleOwner(perms) && OwnerIsMember(perms, members)
    requires HasMemberId(members, uid)
    ensures var after := Transfer(perms, members, uid);
      DistinctKeys(after) && SingleOwner(after) && OwnerIsMember(after, members)
      && OwnerOf(after, members) == FirstWithId(members, uid)
      && ((forall k :: LevelOf(perms, k) <= 2) ==> forall k :: LevelOf(after, k) <= 2)
  {
    TransferLeavesOneOwner(perms, members, uid);
    var after := Transfer(perms, members, uid);
    if forall k :: LevelOf(perms, k) <= 2 {
      var owner := OwnerOf(perms, members);
      var mid := if owner.Some? then SetLevel(perms, owner.value.id, 0) else perms;
      assert forall k :: LevelOf(mid, k) <= 2;
    }
    assert SingleOwner(after) by {
      forall a, b | LevelOf(after, a) == 2 && LevelOf(after, b) == 2 ensures a == b { }
    }
    assert OwnerIsMember(after, members) by {
      forall k | LevelOf(after, k) == 2 ensures HasMemberId(members, k) {
        assert k == uid;
      }
    }
    var o := OwnerOf(after, members);
    assert LevelOf(after, uid) == 2;
    assert o.Some?;
    assert o.value.id == uid by {
      assert LevelOf(after, o.value.id) == 2;
    }
  }

  /**
   * What the chat operations keep: member ids and permission keys are distinct, at most
   * one key is at level 2 and it is a member's, and no level is above 2.
   */
  ghost predicate ChatInvariant(members: seq<Member>, perms: seq<Grant>) {
    DistinctIds(members) && DistinctKeys(perms)
    && SingleOwner(perms) && OwnerIsMember(perms, members)
    && forall k :: LevelOf(perms, k) <= 2
  }

  /** Removing a member and their permission entry keeps the invariant. */
  lemma RemoveKeepsInvariant(members: seq<Member>, perms: seq<Grant>, uid: string)
    requires ChatInvariant(members, perms)
    ensures ChatInvariant(WithoutId(members, uid), WithoutKey(perms, uid))
  {
    var ms, ps := WithoutId(members, uid), WithoutKey(perms, uid);
    forall k | LevelOf(ps, k) == 2 ensures HasMemberId(ms, k) {
      var m :| m in members && m.id == k;
      assert m in ms;
    }
  }

  /** A transfer to a member keeps the invariant and makes that member the owner. */
  /** Moving a non-owner between levels 0 and 1 leaves the owner, and so the invariant, as it was. */
  lemma LevelKeepsInvariant(members: seq<Member>, perms: seq<Grant>, uid: string, level: int)
    requires ChatInvariant(members, perms) && 0 <= level < 2 && LevelOf(perms, uid) < 2
    ensures ChatInvariant(members, SetLevel(perms, uid, level))
  {
    var after := SetLevel(perms, uid, level);
    assert forall k :: LevelOf(after, k) == 2 ==> LevelOf(perms, k) == 2;
  }

  lemma TransferKeepsInvariant(members: seq<Member>, perms: seq<Grant>, uid: string)
    requires ChatInvariant(members, perms) && HasMemberId(members, uid)
    ensures ChatInvariant(members, Transfer(perms, members, uid))
    ensures OwnerOf(Transfer(perms, members, uid), members) == FirstWithId(members, uid)
  {
    TransferKeepsOwnership(perms, members, uid);
  }

  // ----- legacy_public -----

  /** The inner loop of `legacy_public`: the username of the last member with the id, else `acc`. */
  function LastUsername(members: seq<Member>, uid: string, acc: string): string {
    if members == [] then acc
    else LastUsername(members[1..], uid, if members[0].id == uid then members[0].username else acc)
  }

  /** The outer loop of `legacy_public` over the permission entries, in order. */
  function LegacyOwner(perms: seq<Grant>, members: seq<Member>, acc: string): string {
    if perms == [] then acc
    else LegacyOwner(perms[1..], members, if perms[0].level == 2 then LastUsername(members, perms[0].userId, acc) else acc)
  }

  function Usernames(members: seq<Member>): (r: seq<string>)
    ensures |r| == |members| && forall i :: 0 <= i < |r| ==> r[i] == members[i].username
  {
    seq(|members|, i requires 0 <= i < |members| => members[i].username)
  }

  /** `legacy_public`; an empty member list, or a direct chat with fewer than two members, raises IndexError. */
  function LegacyView(id: string, name: Option<string>, direct: bool, members: seq<Member>, perms: seq<Grant>)
    : (r: Result<LegacyChat, PyException>)
    ensures r.Err? <==> |members| == 0 || (direct && |members| < 2)
    ensures r.Ok? ==> (r.value.id == id && r.value.members == Usernames(members)
                       && r.value.nickname == (if direct then Some(members[0].username + " & " + members[1].username) else name))
    ensures r.Ok? && OwnerOf(perms, members).None? ==> r.value.owner == members[0].username
    ensures r.Ok? && DistinctIds(members) && AtMostOneOwnerEntry(perms) && OwnerOf(perms, members).Some? ==>
      r.value.owner == OwnerOf(perms, members).value.username
  {
    if |members| == 0 then Err(IndexError)
    else
      var owner := LegacyOwner(perms, members, members[0].username);
      assert OwnerOf(perms, members).None? ==> owner == members[0].username by {
        if OwnerOf(perms, members).None? { LegacyOwnerDefault(perms, members, members[0].username); }
      }
      assert DistinctIds(members) && AtMostOneOwnerEntry(perms) && OwnerOf(perms, members).Some? ==>
        owner == OwnerOf(perms, members).value.username by {
        if DistinctIds(members) && AtMostOneOwnerEntry(perms) && OwnerOf(perms, members).Some? {
          LegacyOwnerAgrees(perms, members, members[0].username);
        }
      }
      if direct && |members| < 2 then Err(IndexError)
      else
        var nickname := if direct then Some(members[0].username + " & " + members[1].username) else name;
        Ok(LegacyChat(id, nickname, owner, Usernames(members)))
  }

  lemma {:induction false} LastUsernameAbsent(members: seq<Member>, uid: string, acc: string)
    requires !HasMemberId(members, uid)
    ensures LastUsername(members, uid, acc) == acc
  {
    if members != [] {
      assert members[0] in members;
      assert !HasMemberId(members[1..], uid) by {
        forall m | m in members[1..] ensures m.id != uid { assert m in members; }
      }
      LastUsernameAbsent(members[1..], uid, acc);
    }
  }

  lemma {:induction false} LastUsernameUnique(members: seq<Member>, uid: string, acc: string)
    requires DistinctIds(members) && HasMemberId(members, uid)
    ensures LastUsername(members, uid, acc) == FirstWithId(members, uid).value.username
  {
    var next := if members[0].id == uid then members[0].username else acc;
    assert DistinctIds(members[1..]);
    if members[0].id == uid {
      assert !HasMemberId(members[1..], uid) by {
        forall m | m in members[1..] ensures m.id != uid {
          var j :| 0 <= j < |members[1..]| && members[1..][j] == m;
          assert members[j + 1] == m;
        }
      }
      LastUsernameAbsent(members[1..], uid, next);
    } else {
      assert HasMemberId(members[1..], uid) by {
        var m :| m in members && m.id == uid;
        assert m != members[0];
        assert m in members[1..];
      }
      LastUsernameUnique(members[1..], uid, next);
    }
  }

  /** With no owner, `legacy_public` reports `members[0]` as the owner. */
  lemma {:induction false} LegacyOwnerDefault(perms: seq<Grant>, members: seq<Member>, acc: string)
    requires OwnerOf(perms, members).None?
    ensures LegacyOwner(perms, members, acc) == acc
  {
    if perms != [] {
      if perms[0].level == 2 {
        assert FirstWithId(members, perms[0].userId).None?;
        LastUsernameAbsent(members, perms[0].userId, acc);
      }
      LegacyOwnerDefault(perms[1..], members, acc);
    }
  }

  predicate AtMostOneOwnerEntry(perms: seq<Grant>) {
    forall i, j :: 0 <= i < |perms| && 0 <= j < |perms| && perms[i].level == 2 && perms[j].level == 2 ==> i == j
  }

  lemma {:induction false} NoOwnerEntries(perms: seq<Grant>, members: seq<Member>, acc: string)
    requires forall i :: 0 <= i < |perms| ==> perms[i].level != 2
    ensures LegacyOwner(perms, members, acc) == acc
  {
    if perms != [] {
      assert perms[0].level != 2;
      NoOwnerEntries(perms[1..], members, acc);
    }
  }

  /** With distinct member ids and at most one level-2 entry, `legacy_public` and `owner` agree. */
  lemma {:induction false} LegacyOwnerAgrees(perms: seq<Grant>, members: seq<Member>, acc: string)
    requires DistinctIds(members) && AtMostOneOwnerEntry(perms)
    requires OwnerOf(perms, members).Some?
    ensures LegacyOwner(perms, members, acc) == OwnerOf(perms, members).value.username
  {
    assert perms != [];
    if perms[0].level == 2 {
      assert forall i :: 0 <= i < |perms[1..]| ==> perms[1..][i].level != 2 by {
        forall i | 0 <= i < |perms[1..]| ensures perms[1..][i].level != 2 {
          assert perms[i + 1] == perms[1..][i];
        }
      }
      assert OwnerOf(perms[1..], members).None?;
      assert FirstWithId(members, perms[0].userId).Some?;
      LastUsernameUnique(members, perms[0].userId, acc);
      NoOwnerEntries(perms[1..], members, LastUsername(members, perms[0].userId, acc));
    } else {
      assert AtMostOneOwnerEntry(perms[1..]) by {
        forall i, j | 0 <= i < |perms[1..]| && 0 <= j < |perms[1..]| && perms[1..][i].level == 2 && perms[1..][j].level == 2
          ensures i == j
        {
          assert perms[i + 1] == perms[1..][i] && perms[j + 1] == perms[1..][j];
        }
      }
      LegacyOwnerAgrees(perms[1..], members, acc);
    }
  }

  /** A present key's level is the level of its first entry. */
  lemma {:induction false} LevelOfFirst(perms: seq<Grant>, k: string)
    requires k in Keys(perms)
    ensures exists i :: 0 <= i < |perms| && perms[i].userId == k && perms[i].level == LevelOf(perms, k)
  {
    if perms[0].userId != k {
      assert k in Keys(perms[1..]) by {
        var i :| 0 <= i < |perms| && perms[i].userId == k;
        assert perms[1..][i - 1] == perms[i];
      }
      LevelOfFirst(perms[1..], k);
      var i :| 0 <= i < |perms[1..]| && perms[1..][i].userId == k && perms[1..][i].level == LevelOf(perms[1..], k);
      assert perms[i + 1] == perms[1..][i];
    }
  }

  /** With distinct keys, at most one key at level 2 means at most one entry at level 2. */
  lemma SingleOwnerEntry(perms: seq<Grant>)
    requires DistinctKeys(perms) && SingleOwner(perms)
    ensures AtMostOneOwnerEntry(perms)
  {
    forall i, j | 0 <= i < |perms| && 0 <= j < |perms| && perms[i].level == 2 && perms[j].level == 2
      ensures i == j
    {
      assert LevelOf(perms, perms[i].userId) == 2 && LevelOf(perms, perms[j].userId) == 2;
    }
  }

  // ----- the chat -----

  class Chat {
    var id: string
    var name: Option<string>
    var direct: bool
    var members: seq<Member>
    var permissions: seq<Grant>
    var deletedAt: Option<int>

    /** What the chat operations keep (see `ChatInvariant`). */
    ghost predicate Valid()
      reads this
    {
      ChatInvariant(members, permissions)
    }

    constructor (id: string, name: Option<string>, direct: bool, members: seq<Member>, permissions: seq<Grant>)
      ensures this.id == id && this.name == name && this.direct == direct
      ensures this.members == members && this.permissions == permissions && deletedAt == None
    {
      this.id := id;
      this.name := name;
      this.direct := direct;
      this.members := members;
      this.permissions := permissions;
      deletedAt := None;
    }

    /** `has_member`: every user is a member of livechat. */
    method HasMember(user: Member) returns (r: bool)
      ensures r <==> id == LIVECHAT || HasMemberId(members, user.id)
    {
      if id == LIVECHAT {
        return true;
      }
      var i := 0;
      while i < |members|
        invariant 0 <= i <= |members|
        invariant forall j :: 0 <= j < i ==> members[j].id != user.id
      {
        if members[i].id == user.id {
          return true;
        }
        i := i + 1;
      }
      return false;
    }

    /** The `owner` property. */
    method Owner() returns (r: Option<Member>)
      ensures r == OwnerOf(permissions, members)
    {
      var i := 0;
      while i < |permissions|
        invariant 0 <= i <= |permissions|
        invariant OwnerOf(permissions, members) == OwnerOf(permissions[i..], members)
      {
        assert permissions[i..][1..] == permissions[i + 1..];
        var grant := permissions[i];
        if grant.level == 2 {
          var j := 0;
          while j < |members|
            invariant 0 <= j <= |members|
            invariant FirstWithId(members, grant.userId) == FirstWithId(members[j..], grant.userId)
          {
            assert members[j..][1..] == members[j + 1..];
            if members[j].id == grant.userId {
              return Some(members[j]);
            }
            j := j + 1;
          }
        }
        i := i + 1;
      }
      return None;
    }

    /** The `legacy_public` property. */
    method LegacyPublic() returns (r: Result<LegacyChat, PyException>)
      ensures r == LegacyView(id, name, direct, members, permissions)
    {
      if |members| == 0 {
        return Err(IndexError);
      }
      var owner := members[0].username;
      var i := 0;
      while i < |permissions|
        invariant 0 <= i <= |permissions|
        invariant LegacyOwner(permissions, members, members[0].username) == LegacyOwner(permissions[i..], members, owner)
      {
        assert permissions[i..][1..] == permissions[i + 1..];
        var grant := permissions[i];
        if grant.level == 2 {
          var before := owner;
          var j := 0;
          while j < |members|
            invariant 0 <= j <= |members|
            invariant LastUsername(members, grant.userId, before) == LastUsername(members[j..], grant.userId, owner)
          {
            assert members[j..][1..] == members[j + 1..];
            if members[j].id == grant.userId {
              owner := members[j].username;
            }
            j := j + 1;
          }
        }
        i := i + 1;
      }
      if direct && |members| < 2 {
        return Err(IndexError);
      }
      var nickname := if direct then Some(members[0].username + " & " + members[1].username) else name;
      r := Ok(LegacyChat(id, nickname, owner, Usernames(members)));
    }

    /** `add_member`: the user goes last. */
    method AddMember(user: Member) returns (r: Outcome<ChatError>)
      requires Valid()
      modifies this
      ensures Valid()
      ensures old(id) == LIVECHAT || old(direct) ==> r == Fail(MissingPermissions) && members == old(members)
      ensures old(id) != LIVECHAT && !old(direct) && HasMemberId(old(members), user.id) ==>
        r == Fail(ChatMemberAlreadyExists) && members == old(members)
      ensures old(id) != LIVECHAT && !old(direct) && !HasMemberId(old(members), user.id) ==>
        r == Pass && members == old(members) + [user]
      ensures id == old(id) && name == old(name) && direct == old(direct)
      ensures permissions == old(permissions) && deletedAt == old(deletedAt)
    {
      if id == LIVECHAT || direct {
        return Fail(MissingPermissions);
      }
      var present := HasMember(user);
      if present {
        return Fail(ChatMemberAlreadyExists);
      }
      members := members + [user];
      assert forall k :: HasMemberId(old(members), k) ==> HasMemberId(members, k) by {
        forall k | HasMemberId(old(members), k) ensures HasMemberId(members, k) {
          var m :| m in old(members) && m.id == k;
          assert m in members;
        }
      }
      r := Pass;
    }

    /**
     * The `for member in self.members: ... self.members.remove(member)` loop, which skips
     * the element after each removal; with distinct ids it removes exactly that member.
     */
    method RemoveAllWithId(uid: string) returns (ms: seq<Member>)
      requires DistinctIds(members)
      ensures ms == WithoutId(members, uid)
    {
      ms := members;
      var i := 0;
      while i < |ms|
        invariant DistinctIds(ms)
        invariant WithoutId(ms, uid) == WithoutId(members, uid)
        invariant forall j :: 0 <= j < i && j < |ms| ==> ms[j].id != uid
        decreases |ms| - i
      {
        var m := ms[i];
        if m.id == uid {
          RemoveStep(ms, i, uid);
          ms := RemoveFirst(ms, m);
        }
        i := i + 1;
      }
      NoIdLeft(ms, uid);
    }

    /**
     * `remove_member`: drops the member and their permission entry; an emptied chat is
     * deleted, otherwise a chat left without an owner is transferred to `members[0]`.
     */
    method RemoveMember(user: Member, now: int) returns (r: Outcome<ChatError>)
      requires Valid()
      modifies this
      ensures Valid()
      ensures old(id) == LIVECHAT || old(direct) ==>
        r == Fail(MissingPermissions) && members == old(members) && permissions == old(permissions) && deletedAt == old(deletedAt)
      ensures old(id) != LIVECHAT && !old(direct) && !HasMemberId(old(members), user.id) ==>
        r == Fail(ResourceNotFound) && members == old(members) && permissions == old(permissions) && deletedAt == old(deletedAt)
      ensures old(id) != LIVECHAT && !old(direct) && HasMemberId(old(members), user.id) ==>
        var rest := WithoutKey(old(permissions), user.id);
        && r == Pass
        && members == WithoutId(old(members), user.id)
        && (members == [] ==> permissions == rest && deletedAt == Some(now))
        && (members != [] ==>
              deletedAt == old(deletedAt)
              && permissions == (if OwnerOf(rest, members).Some? then rest else Transfer(rest, members, members[0].id))
              && OwnerOf(permissions, members).Some?)
      ensures id == old(id) && name == old(name) && direct == old(direct)
    {
      if id == LIVECHAT || direct {
        return Fail(MissingPermissions);
      }
      var present := HasMember(user);
      if !present {
        return Fail(ResourceNotFound);
      }
      RemoveKeepsInvariant(members, permissions, user.id);
      members := RemoveAllWithId(user.id);
      permissions := WithoutKey(permissions, user.id);
      if |members| == 0 {
        deletedAt := Some(now);
        return Pass;
      }
      var owner := Owner();
      if owner.None? {
        assert members[0] in members;
        assert LevelOf(permissions, members[0].id) < 2;
        r := TransferOwnership(members[0]);
        assert r == Pass;
      } else {
        r := Pass;
      }
    }

    /** `promote_member`: a level below 1 becomes 1, any other level stays. */
    method PromoteMember(user: Member) returns (r: Outcome<ChatError>)
      requires Valid()
      modifies this
      ensures Valid()
      ensures old(id) == LIVECHAT || old(direct) ==> r == Fail(MissingPermissions) && permissions == old(permissions)
      ensures old(id) != LIVECHAT && !old(direct) && !HasMemberId(members, user.id) ==>
        r == Fail(ResourceNotFound) && permissions == old(permissions)
      ensures old(id) != LIVECHAT && !old(direct) && HasMemberId(members, user.id) ==>
        r == Pass
        && permissions == (if LevelOf(old(permissions), user.id) < 1 then SetLevel(old(permissions), user.id, 1) else old(permissions))
      ensures id == old(id) && name == old(name) && direct == old(direct)
      ensures members == old(members) && deletedAt == old(deletedAt)
    {
      if id == LIVECHAT || direct {
        return Fail(MissingPermissions);
      }
      var present := HasMember(user);
      if !present {
        return Fail(ResourceNotFound);
      }
      if LevelOf(permissions, user.id) < 1 {
        LevelKeepsInvariant(members, permissions, user.id, 1);
        permissions := SetLevel(permissions, user.id, 1);
      }
      r := Pass;
    }

    /** `demote_member`: only level 1 becomes 0. */
    method DemoteMember(user: Member) returns (r: Outcome<ChatError>)
      requires Valid()
      modifies this
      ensures Valid()
      ensures old(id) == LIVECHAT || old(direct) ==> r == Fail(MissingPermissions) && permissions == old(permissions)
      ensures old(id) != LIVECHAT && !old(direct) && !HasMemberId(members, user.id) ==>
        r == Fail(ResourceNotFound) && permissions == old(permissions)
      ensures old(id) != LIVECHAT && !old(direct) && HasMemberId(members, user.id) ==>
        r == Pass
        && permissions == (if LevelOf(old(permissions), user.id) == 1 then SetLevel(old(permissions), user.id, 0) else old(permissions))
      ensures id == old(id) && name == old(name) && direct == old(direct)
      ensures members == old(members) && deletedAt == old(deletedAt)
    {
      if id == LIVECHAT || direct {
        return Fail(MissingPermissions);
      }
      var present := HasMember(user);
      if !present {
        return Fail(ResourceNotFound);
      }
      if LevelOf(permissions, user.id) == 1 {
        LevelKeepsInvariant(members, permissions, user.id, 0);
        permissions := SetLevel(permissions, user.id, 0);
      }
      r := Pass;
    }

    /** `transfer_ownership`: the old owner drops to 0 and the target becomes the only owner. */
    method TransferOwnership(user: Member) returns (r: Outcome<ChatError>)
      requires Valid()
      modifies this
      ensures Valid()
      ensures old(id) == LIVECHAT || old(direct) ==> r == Fail(MissingPermissions) && permissions == old(permissions)
      ensures old(id) != LIVECHAT && !old(direct) && !HasMemberId(members, user.id) ==>
        r == Fail(ResourceNotFound) && permissions == old(permissions)
      ensures old(id) != LIVECHAT && !old(direct) && HasMemberId(members, user.id) && LevelOf(old(permissions), user.id) >= 2 ==>
        r == Fail(MissingPermissions) && permissions == old(permissions)
      ensures old(id) != LIVECHAT && !old(direct) && HasMemberId(members, user.id) && LevelOf(old(permissions), user.id) < 2 ==>
        r == Pass && permissions == Transfer(old(permissions), members, user.id)
        && OwnerOf(permissions, members) == FirstWithId(members, user.id)
      ensures id == old(id) && name == old(name) && direct == old(direct)
      ensures members == old(members) && deletedAt == old(deletedAt)
    {
      if id == LIVECHAT || direct {
        return Fail(MissingPermissions);
      }
      var present := HasMember(user);
      if !present {
        return Fail(ResourceNotFound);
      }
      if LevelOf(permissions, user.id) >= 2 {
        return Fail(MissingPermissions);
      }
      TransferKeepsInvariant(members, permissions, user.id);
      var owner := Owner();
      SetOwnerLevels(owner, user.id);
      r := Pass;
    }

    /** The two writes of `transfer_ownership`: the current owner, if any, to 0, then the target to 2. */
    method SetOwnerLevels(owner: Option<Member>, uid: string)
      requires owner == OwnerOf(permissions, members)
      modifies this
      ensures permissions == Transfer(old(permissions), members, uid)
      ensures id == old(id) && name == old(name) && direct == old(direct)
      ensures members == old(members) && deletedAt == old(deletedAt)
    {
      if owner.Some? {
        permissions := SetLevel(permissions, owner.value.id, 0);
      }
      permissions := SetLevel(permissions, uid, 2);
    }

    /** `delete`: stamps `deleted_at`; livechat and direct chats refuse. */
    method Delete(now: int) returns (r: Outcome<ChatError>)
      modifies this
      ensures old(id) == LIVECHAT || old(direct) ==> r == Fail(MissingPermissions) && deletedAt == old(deletedAt)
      ensures old(id) != LIVECHAT && !old(direct) ==> r == Pass && deletedAt == Some(now)
      ensures id == old(id) && name == old(name) && direct == old(direct)
      ensures members == old(members) && permissions == old(permissions)
    {
      if id == LIVECHAT || direct {
        return Fail(MissingPermissions);
      }
      deletedAt := Some(now);
      r := Pass;
    }
  }

  /** `create_chat`: the creator is the only member and the owner. */
  method CreateChat(id: string, name: string, creator: Member) returns (c: Chat)
    ensures fresh(c) && c.Valid()
    ensures c.id == id && c.name == Some(name) && !c.direct && c.deletedAt == None
    ensures c.members == [creator] && c.permissions == [Grant(creator.id, 2)]
    ensures OwnerOf(c.permissions, c.members) == Some(creator)
  {
    c := new Chat(id, Some(name), false, [creator], [Grant(creator.id, 2)]);
    assert [creator][1..] == [];
    assert [Grant(creator.id, 2)][1..] == [];
    assert creator in c.members;
  }

  /**
   * `get_dm_chat`: a user has no direct chat with themselves; otherwise the existing one, or a new one.
   * `existing` is what the query for a live direct chat holding both users returned.
   */
  method GetDmChat(user1: Member, user2: Member, existing: Option<Chat>, newId: string) returns (r: Result<Chat, ChatError>)
    requires existing.Some? ==>
      existing.value.direct && existing.value.deletedAt == None
      && HasMemberId(existing.value.members, user1.id) && HasMemberId(existing.value.members, user2.id)
    ensures user1.id == user2.id ==> r == Err(MissingPermissions)
    ensures r.Ok? ==>
      r.value.direct && r.value.deletedAt == None
      && HasMemberId(r.value.members, user1.id) && HasMemberId(r.value.members, user2.id)
    ensures user1.id != user2.id && existing.Some? ==> r == Ok(existing.value)
    ensures user1.id != user2.id && existing.None? ==>
      r.Ok? && fresh(r.value) && r.value.id == newId && r.value.direct && r.value.name == None
      && r.value.members == [user1, user2] && r.value.permissions == []
  {
    if user1.id == user2.id {
      return Err(MissingPermissions);
    }
    if existing.Some? {
      return Ok(existing.value);
    }
    var c := new Chat(newId, None, true, [user1, user2], []);
    r := Ok(c);
  }
}
