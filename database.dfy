/**
 * The computations of python/database.py: page counting, loading the netblock documents
 * into the two blocklists at startup, and the migration that shortens MFA recovery codes.
 * The Radix tries are modelled as the sets of prefixes added to them; which strings the
 * radix library accepts as a CIDR prefix is the parameter `validCidrs`.
 */
module Database {
  import opened Wrappers
  import opened PyValues

  /** Python's `a // b` for `b != 0` (floor division). */
  function FloorDiv(a: int, b: int): int
    requires b != 0
  {
    if b > 0 then a / b else (-a) / (-b)
  }

  /** Python's `a % b` for `b != 0` (the remainder has the sign of `b`). */
  function FloorMod(a: int, b: int): int
    requires b != 0
  {
    a - b * FloorDiv(a, b)
  }

  /** `get_total_pages` for a collection holding `itemCount` matching documents. */
  function TotalPages(itemCount: nat, pageSize: int): (r: Result<int, PyException>)
    ensures r.Err? <==> pageSize == 0
    ensures r.Err? ==> r.error == ZeroDivisionError
  {
    if pageSize == 0 then Err(ZeroDivisionError)
    else
      var pages := FloorDiv(itemCount, pageSize);
      if FloorMod(itemCount, pageSize) > 0 then Ok(pages + 1) else Ok(pages)
  }

  /** For a positive page size the page count is the ceiling of `itemCount / pageSize`. */
  lemma TotalPagesIsCeiling(itemCount: nat, pageSize: int)
    requires pageSize > 0
    ensures var r := TotalPages(itemCount, pageSize);
      && r.Ok? && r.value >= 0
      && r.value * pageSize >= itemCount
      && (r.value == 0 || (r.value - 1) * pageSize < itemCount)
      && (r.value == 0 <==> itemCount == 0)
  {
    var q := itemCount / pageSize;
    var m := itemCount % pageSize;
    assert itemCount == q * pageSize + m;
    if m > 0 {
      assert (q + 1) * pageSize == q * pageSize + pageSize;
    }
  }

  lemma MulAtLeast(x: int, b: int)
    requires x >= 1 && b > 0
    ensures x * b >= b
  {
    var y := x - 1;
    assert y * b >= 0;
    assert x * b == y * b + b;
  }

  /** Quotient and remainder are unique. */
  lemma DivUnique(a: int, b: int, q: int, m: int)
    requires b > 0 && a == q * b + m && 0 <= m < b
    ensures a / b == q && a % b == m
  {
    var q', m' := a / b, a % b;
    assert a == q' * b + m';
    if q > q' {
      MulAtLeast(q - q', b);
    } else if q < q' {
      MulAtLeast(q' - q, b);
    }
  }

  lemma TotalPagesEdges(itemCount: nat, pageSize: int)
    requires pageSize > 0
    ensures TotalPages(0, pageSize) == Ok(0)
    ensures TotalPages(itemCount * pageSize, pageSize) == Ok(itemCount)
    ensures 0 < itemCount <= pageSize ==> TotalPages(itemCount, pageSize) == Ok(1)
  {
    DivUnique(itemCount * pageSize, pageSize, itemCount, 0);
    if 0 < itemCount < pageSize {
      DivUnique(itemCount, pageSize, 0, itemCount);
    } else if itemCount == pageSize {
      DivUnique(itemCount, pageSize, 1, 0);
    }
  }

  // ----- netblocks -----

  /** A `netblock` document: its `_id` (the CIDR prefix) and its other fields. */
  datatype Netblock = Netblock(id: PyValue, fields: Doc)

  datatype Blocklists = Blocklists(blocked: set<string>, registrationBlocked: set<string>, failed: seq<PyValue>)

  /** `radix.add(prefix)`. */
  function AddPrefix(tree: set<string>, prefix: PyValue, validCidrs: set<string>): (r: Result<set<string>, PyException>)
    ensures r.Ok? <==> prefix.PStr? && prefix.s in validCidrs
    ensures r.Ok? ==> r.value == tree + {prefix.s}
  {
    if prefix.PStr? && prefix.s in validCidrs then Ok(tree + {prefix.s}) else Err(ValueError)
  }

  /** One iteration of the loading loop; an exception logs the document's id and goes on. */
  function LoadOne(acc: Blocklists, nb: Netblock, validCidrs: set<string>): Blocklists {
    var attempt: Result<(set<string>, set<string>), PyException> :=
      var t :- Item(PDict(nb.fields), "type");
      var blocked :- if EqualsInt(t, 0) then AddPrefix(acc.blocked, nb.id, validCidrs) else Ok(acc.blocked);
      var registration :- if EqualsInt(t, 1) then AddPrefix(acc.registrationBlocked, nb.id, validCidrs) else Ok(acc.registrationBlocked);
      Ok((blocked, registration));
    match attempt
    case Ok((b, rb)) => acc.(blocked := b, registrationBlocked := rb)
    case Err(_) => acc.(failed := acc.failed + [nb.id])
  }

  function LoadAll(nbs: seq<Netblock>, validCidrs: set<string>): Blocklists
    decreases |nbs|
  {
    if nbs == [] then Blocklists({}, {}, [])
    else LoadOne(LoadAll(nbs[..|nbs| - 1], validCidrs), nbs[|nbs| - 1], validCidrs)
  }

  /** The document is a netblock of the given type with a prefix the tree accepts. */
  predicate Loads(nb: Netblock, kind: int, prefix: string, validCidrs: set<string>) {
    "type" in nb.fields && EqualsInt(nb.fields["type"], kind) && nb.id == PStr(prefix) && prefix in validCidrs
  }

  /** The document raises while loading: no type, or a type 0 or 1 with a prefix the tree refuses. */
  predicate Fails(nb: Netblock, validCidrs: set<string>) {
    "type" !in nb.fields
    || ((EqualsInt(nb.fields["type"], 0) || EqualsInt(nb.fields["type"], 1))
        && !(nb.id.PStr? && nb.id.s in validCidrs))
  }

  predicate FailsWith(nb: Netblock, id: PyValue, validCidrs: set<string>) {
    Fails(nb, validCidrs) && nb.id == id
  }

  /** One document adds to the tree its type names, or, when it raises, to the log. */
  lemma LoadOneEffect(acc: Blocklists, nb: Netblock, validCidrs: set<string>)
    ensures var r := LoadOne(acc, nb, validCidrs);
      && (forall x :: x in r.blocked <==> x in acc.blocked || Loads(nb, 0, x, validCidrs))
      && (forall x :: x in r.registrationBlocked <==> x in acc.registrationBlocked || Loads(nb, 1, x, validCidrs))
      && r.failed == acc.failed + (if Fails(nb, validCidrs) then [nb.id] else [])
  {
  }

  function Tree(r: Blocklists, kind: int): set<string> {
    if kind == 0 then r.blocked else r.registrationBlocked
  }

  lemma {:induction false} LoadAllTree(nbs: seq<Netblock>, kind: int, validCidrs: set<string>)
    requires kind == 0 || kind == 1
    ensures forall x :: x in Tree(LoadAll(nbs, validCidrs), kind) <==> exists i :: 0 <= i < |nbs| && Loads(nbs[i], kind, x, validCidrs)
    decreases |nbs|
  {
    if nbs != [] {
      var front := nbs[..|nbs| - 1];
      var last := nbs[|nbs| - 1];
      LoadAllTree(front, kind, validCidrs);
      LoadOneEffect(LoadAll(front, validCidrs), last, validCidrs);
      var before := LoadAll(front, validCidrs);
      assert LoadAll(nbs, validCidrs) == LoadOne(before, last, validCidrs);
      assert forall x :: x in Tree(LoadAll(nbs, validCidrs), kind) <==> x in Tree(before, kind) || Loads(last, kind, x, validCidrs);
      forall x ensures x in Tree(LoadAll(nbs, validCidrs), kind) <==> exists i :: 0 <= i < |nbs| && Loads(nbs[i], kind, x, validCidrs) {
        if exists i :: 0 <= i < |nbs| && Loads(nbs[i], kind, x, validCidrs) {
          var i :| 0 <= i < |nbs| && Loads(nbs[i], kind, x, validCidrs);
          if i < |front| { assert front[i] == nbs[i]; }
        }
        if exists i :: 0 <= i < |front| && Loads(front[i], kind, x, validCidrs) {
          var i :| 0 <= i < |front| && Loads(front[i], kind, x, validCidrs);
          assert front[i] == nbs[i];
        }
      }
    }
  }

  lemma {:induction false} LoadAllFailed(nbs: seq<Netblock>, validCidrs: set<string>)
    ensures var r := LoadAll(nbs, validCidrs);
      |r.failed| <= |nbs| && forall v :: v in r.failed <==> exists i :: 0 <= i < |nbs| && FailsWith(nbs[i], v, validCidrs)
    decreases |nbs|
  {
    if nbs != [] {
      var front := nbs[..|nbs| - 1];
      var last := nbs[|nbs| - 1];
      LoadAllFailed(front, validCidrs);
      LoadOneEffect(LoadAll(front, validCidrs), last, validCidrs);
      forall v ensures v in LoadAll(nbs, validCidrs).failed <==> exists i :: 0 <= i < |nbs| && FailsWith(nbs[i], v, validCidrs) {
        if exists i :: 0 <= i < |nbs| && FailsWith(nbs[i], v, validCidrs) {
          var i :| 0 <= i < |nbs| && FailsWith(nbs[i], v, validCidrs);
          if i < |front| { assert front[i] == nbs[i]; }
        }
        if exists i :: 0 <= i < |front| && FailsWith(front[i], v, validCidrs) {
          var i :| 0 <= i < |front| && FailsWith(front[i], v, validCidrs);
          assert front[i] == nbs[i];
        }
      }
    }
  }

  /**
   * Type 0 goes to `blocked_ips` and type 1 to `registration_blocked_ips`, every other
   * type to neither; a document that raises is logged and the rest still load.
   */
  lemma LoadAllContents(nbs: seq<Netblock>, validCidrs: set<string>)
    ensures var r := LoadAll(nbs, validCidrs);
      && (forall x :: x in r.blocked <==> exists i :: 0 <= i < |nbs| && Loads(nbs[i], 0, x, validCidrs))
      && (forall x :: x in r.registrationBlocked <==> exists i :: 0 <= i < |nbs| && Loads(nbs[i], 1, x, validCidrs))
      && |r.failed| <= |nbs|
      && (forall v :: v in r.failed <==> exists i :: 0 <= i < |nbs| && FailsWith(nbs[i], v, validCidrs))
  {
    LoadAllTree(nbs, 0, validCidrs);
    LoadAllTree(nbs, 1, validCidrs);
    LoadAllFailed(nbs, validCidrs);
  }

  /** The startup loop over `db.netblock.find({})`. */
  method LoadNetblocks(nbs: seq<Netblock>, validCidrs: set<string>) returns (r: Blocklists)
    ensures r == LoadAll(nbs, validCidrs)
  {
    r := Blocklists({}, {}, []);
    var i := 0;
    while i < |nbs|
      invariant 0 <= i <= |nbs|
      invariant r == LoadAll(nbs[..i], validCidrs)
    {
      assert nbs[..i + 1][..i] == nbs[..i];
      var nb := nbs[i];
      var t := Item(PDict(nb.fields), "type");
      if t.Err? {
        r := r.(failed := r.failed + [nb.id]);
      } else {
        var blocked := Ok(r.blocked);
        if EqualsInt(t.value, 0) {
          blocked := AddPrefix(r.blocked, nb.id, validCidrs);
        }
        if blocked.Err? {
          r := r.(failed := r.failed + [nb.id]);
        } else {
          var registration := Ok(r.registrationBlocked);
          if EqualsInt(t.value, 1) {
            registration := AddPrefix(r.registrationBlocked, nb.id, validCidrs);
          }
          if registration.Err? {
            r := r.(failed := r.failed + [nb.id]);
          } else {
            r := r.(blocked := blocked.value, registrationBlocked := registration.value);
          }
        }
      }
      i := i + 1;
    }
    assert nbs[..i] == nbs;
  }

  // ----- MFA recovery codes -----

  /** The migration's rewrite of one code: a code longer than 10 characters keeps its first 10. */
  function FixedCode(code: Option<string>): (r: Option<string>)
    ensures r.Some? <==> code.Some?
    ensures r.Some? ==> |r.value| <= 10 && r.value <= code.value
    ensures code.Some? && |code.value| <= 10 ==> r == code
    ensures code.Some? && |code.value| > 10 ==> |r.value| == 10
  {
    if code.Some? && |code.value| > 10 then Some(code.value[..10]) else code
  }

  /** The migration loop over the users whose `mfa_recovery_code` is longer than 10. */
  method FixRecoveryCodes(codes: map<string, Option<string>>) returns (fixed: map<string, Option<string>>)
    ensures fixed.Keys == codes.Keys
    ensures forall id :: id in codes ==> fixed[id] == FixedCode(codes[id])
  {
    fixed := codes;
    var todo := set id | id in codes && codes[id].Some? && |codes[id].value| > 10;
    while todo != {}
      invariant forall id :: id in todo ==> id in codes && codes[id].Some? && |codes[id].value| > 10
      invariant fixed.Keys == codes.Keys
      invariant forall id :: id in codes && id !in todo ==> fixed[id] == FixedCode(codes[id])
      invariant forall id :: id in todo ==> fixed[id] == codes[id]
      decreases |todo|
    {
      var id :| id in todo;
      fixed := fixed[id := Some(fixed[id].value[..10])];
      todo := todo - {id};
    }
  }

  /** Running the migration twice changes nothing the first run did not. */
  lemma FixedCodeIdempotent(code: Option<string>)
    ensures FixedCode(FixedCode(code)) == FixedCode(code)
  {
  }
}
