/**
 * Signed tickets of src/entities/tickets.py. A ticket is `base64("0:<id>") + "." + signature`;
 * its data lives in Redis under `tic:<id>` until the expiry of its type runs out. Redis is a
 * map from key to entry, the clock is `now`, the ticket id is the decimal form of a
 * snowflake number, and signing and signature checking (`security.sign_data` and
 * `security.validate_signature`) are function parameters.
 */
module Tickets {
  import opened Wrappers
  import opened PyValues
  import opened Text
  import opened Base64

  /** Lifetime in seconds of each ticket type. */
  const TICKET_EXPIRATIONS: map<string, int> :=
    map["mfa" := 300, "email_verification" := 3600, "email_revert" := 86400, "password_reset" := 3600]

  /** A Redis entry: the stored ticket data and the time at which the key expires. */
  datatype Entry = Entry(data: Doc, expiresAt: int)

  type Store = map<string, Entry>

  predicate IsDigit(c: char) {
    '0' <= c <= '9'
  }

  predicate AllDigits(s: string) {
    forall i :: 0 <= i < |s| ==> IsDigit(s[i])
  }

  /** The decimal form of a snowflake, `str(n)`. */
  function Decimal(n: nat): (s: string)
    ensures |s| >= 1 && AllDigits(s)
  {
    var d := ['0' + (n % 10) as char];
    if n < 10 then d else Decimal(n / 10) + d
  }

  /** The number a string of decimal digits stands for. */
  function DigitsValue(s: string): nat
    requires AllDigits(s)
  {
    if s == [] then 0 else 10 * DigitsValue(s[..|s| - 1]) + (s[|s| - 1] - '0') as nat
  }

  /** Distinct snowflakes give distinct ticket ids. */
  lemma {:induction false} DecimalValue(n: nat)
    ensures DigitsValue(Decimal(n)) == n
  {
    var s := Decimal(n);
    assert s[..|s| - 1] == if n < 10 then [] else Decimal(n / 10);
    if n >= 10 {
      DecimalValue(n / 10);
    }
  }

  function TicketKey(id: string): string {
    "tic:" + id
  }

  /** The ticket text before the signature, as ASCII. */
  function MetadataText(id: string): string {
    "0:" + id
  }

  lemma DigitsAreAscii(id: string)
    requires AllDigits(id)
    ensures IsAscii(MetadataText(id)) && ':' !in id
  {
    assert forall i :: 0 <= i < |id| ==> MetadataText(id)[i + 2] == id[i];
  }

  /** `b64encode(f"0:{ticket_id}".encode())`. */
  function Metadata(id: string): (meta: string)
    requires AllDigits(id)
    ensures '.' !in meta
  {
    DigitsAreAscii(id);
    var meta := Encode(AsciiBytes(MetadataText(id)));
    assert forall i :: 0 <= i < |meta| ==> meta[i] != '.' by {
      assert Encoded(meta);
    }
    meta
  }

  /** The returned ticket: metadata, ".", signature. */
  function Ticket(id: string, sign: string -> string): string
    requires AllDigits(id)
  {
    var meta := Metadata(id);
    meta + "." + sign(meta)
  }

  /** The three fields `create_ticket` writes into the caller's dict. */
  function TicketData(data: Doc, id: string, userId: string, ticketType: string): (d: Doc)
    ensures d.Keys == data.Keys + {"i", "u", "t"}
    ensures d["i"] == PStr(id) && d["u"] == PStr(userId) && d["t"] == PStr(ticketType)
    ensures forall k :: k in data && k !in {"i", "u", "t"} ==> d[k] == data[k]
  {
    data["i" := PStr(id)]["u" := PStr(userId)]["t" := PStr(ticketType)]
  }

  /** The ticket id a signed ticket names, and the parts it was split into. */
  datatype Parsed = Parsed(metadata: string, signature: string, version: string, id: string)

  /**
   * The decoding steps of `get_ticket_details`: split on "." into exactly two parts,
   * base64-decode and ASCII-decode the first, split that on ":" into exactly two parts.
   * Every failure (a wrong number of parts, undecodable text) is None.
   */
  function Parse(signed: string): (r: Option<Parsed>)
    ensures r.Some? ==> signed == r.value.metadata + "." + r.value.signature
    ensures r.Some? ==> '.' !in r.value.metadata && '.' !in r.value.signature
    ensures r.Some? ==> ':' !in r.value.version && ':' !in r.value.id
    ensures Count(signed, '.') != 1 ==> r.None?
  {
    SplitLength(signed, '.');
    var parts := Split(signed, '.');
    if |parts| != 2 then None
    else
      SplitTwoInverse(signed, '.');
      match Decode(parts[0])
      case None => None
      case Some(bytes) =>
        match AsciiText(bytes)
        case None => None
        case Some(text) =>
          var fields := Split(text, ':');
          if |fields| != 2 then None
          else
            SplitTwoInverse(text, ':');
            Some(Parsed(parts[0], parts[1], fields[0], fields[1]))
  }

  /**
   * `get_ticket_details`: the stored data of a well-formed ticket of version "0" whose
   * signature checks out and whose Redis entry has not expired; None otherwise.
   */
  function Details(signed: string, store: Store, now: int, validate: (string, string) -> bool): (r: Option<Doc>)
    ensures r.Some? <==> (Parse(signed).Some? && Parse(signed).value.version == "0"
                          && validate(Parse(signed).value.signature, Parse(signed).value.metadata)
                          && TicketKey(Parse(signed).value.id) in store
                          && now < store[TicketKey(Parse(signed).value.id)].expiresAt)
    ensures r.Some? ==> r.value == store[TicketKey(Parse(signed).value.id)].data
  {
    match Parse(signed)
    case None => None
    case Some(p) =>
      if p.version != "0" then None
      else if !validate(p.signature, p.metadata) then None
      else
        var key := TicketKey(p.id);
        if key in store && now < store[key].expiresAt then Some(store[key].data) else None
  }

  /** The ticket `create_ticket` returns parses back to its metadata, signature and id. */
  lemma ParseTicket(id: string, sign: string -> string)
    requires AllDigits(id) && '.' !in sign(Metadata(id))
    ensures Parse(Ticket(id, sign)) == Some(Parsed(Metadata(id), sign(Metadata(id)), "0", id))
  {
    var meta := Metadata(id);
    SplitTwo(meta, sign(meta), '.');
    assert Ticket(id, sign) == meta + ['.'] + sign(meta);
    DigitsAreAscii(id);
    DecodeEncode(AsciiBytes(MetadataText(id)));
    AsciiRoundTrip(MetadataText(id));
    SplitTwo("0", id, ':');
    assert MetadataText(id) == "0" + [':'] + id;
  }

  /**
   * Round trip: while its entry lives, a ticket made by `create_ticket` yields the data
   * stored with it, provided the signature of the metadata validates.
   */
  lemma CreatedTicketDetails(id: string, sign: string -> string, validate: (string, string) -> bool,
                             store: Store, data: Doc, expiresAt: int, now: int)
    requires AllDigits(id) && '.' !in sign(Metadata(id)) && validate(sign(Metadata(id)), Metadata(id))
    requires now < expiresAt
    ensures Details(Ticket(id, sign), store[TicketKey(id) := Entry(data, expiresAt)], now, validate) == Some(data)
  {
    ParseTicket(id, sign);
  }

  /** Once the entry has expired the ticket yields nothing. */
  lemma ExpiredTicket(id: string, sign: string -> string, validate: (string, string) -> bool,
                      store: Store, data: Doc, expiresAt: int, now: int)
    requires AllDigits(id) && '.' !in sign(Metadata(id))
    requires expiresAt <= now
    ensures Details(Ticket(id, sign), store[TicketKey(id) := Entry(data, expiresAt)], now, validate) == None
  {
    ParseTicket(id, sign);
  }

  /** After `revoke_ticket(id)` no signed text that names `id` yields anything. */
  lemma RevokedTicket(signed: string, id: string, store: Store, now: int, validate: (string, string) -> bool)
    requires Parse(signed).Some? && Parse(signed).value.id == id
    ensures Details(signed, store - {TicketKey(id)}, now, validate) == None
  {
  }

  /** A version tag other than "0" yields nothing, however the rest checks out. */
  lemma WrongVersion(version: string, id: string, signature: string, store: Store, now: int,
                     validate: (string, string) -> bool)
    requires version != "0" && IsAscii(version + ":" + id) && ':' !in version && ':' !in id
    requires '.' !in signature
    ensures Details(Encode(AsciiBytes(version + ":" + id)) + "." + signature, store, now, validate) == None
  {
    var text := version + ":" + id;
    var meta := Encode(AsciiBytes(text));
    assert forall i :: 0 <= i < |meta| ==> meta[i] != '.' by {
      assert Encoded(meta);
    }
    SplitTwo(meta, signature, '.');
    assert meta + "." + signature == meta + ['.'] + signature;
    DecodeEncode(AsciiBytes(text));
    AsciiRoundTrip(text);
    SplitTwo(version, id, ':');
    assert text == version + [':'] + id;
  }

  /** A signature that does not validate against the metadata yields nothing. */
  lemma BadSignature(metadata: string, signature: string, store: Store, now: int,
                     validate: (string, string) -> bool)
    requires '.' !in metadata && '.' !in signature && !validate(signature, metadata)
    ensures Details(metadata + "." + signature, store, now, validate) == None
  {
    SplitTwo(metadata, signature, '.');
    assert metadata + "." + signature == metadata + ['.'] + signature;
  }

  /** Metadata that is not valid base64, or whose text has no ":", yields nothing. */
  lemma MalformedMetadata(metadata: string, signature: string, store: Store, now: int,
                          validate: (string, string) -> bool)
    requires '.' !in metadata && '.' !in signature
    requires Decode(metadata).None?
      || (Decode(metadata).Some? && AsciiText(Decode(metadata).value).Some?
          && ':' !in AsciiText(Decode(metadata).value).value)
    ensures Details(metadata + "." + signature, store, now, validate) == None
  {
    SplitTwo(metadata, signature, '.');
    assert metadata + "." + signature == metadata + ['.'] + signature;
    if Decode(metadata).Some? {
      var text := AsciiText(Decode(metadata).value).value;
      CountZero(text, ':');
      SplitLength(text, ':');
    }
  }

  /** A text without exactly one "." yields nothing. */
  lemma WrongDotCount(signed: string, store: Store, now: int, validate: (string, string) -> bool)
    requires Count(signed, '.') != 1
    ensures Details(signed, store, now, validate) == None
  {
  }

  /** The Redis keys that hold tickets. */
  class TicketStore {
    var entries: Store

    constructor (entries: Store)
      ensures this.entries == entries
    {
      this.entries := entries;
    }

    /**
     * `create_ticket(user, type, data)` with snowflake `n` at time `now`: writes the id,
     * the user and the type into `data` (returned as `written`), stores it for the
     * lifetime of the type and returns the signed ticket. An unknown type raises
     * `KeyError` after `data` has been written but before anything is stored.
     */
    method CreateTicket(userId: string, ticketType: string, data: Doc, n: nat, now: int, sign: string -> string)
      returns (r: Result<string, PyException>, written: Doc)
      modifies this
      ensures written == TicketData(data, Decimal(n), userId, ticketType)
      ensures ticketType !in TICKET_EXPIRATIONS ==> r == Err(KeyError) && entries == old(entries)
      ensures ticketType in TICKET_EXPIRATIONS ==>
        && r == Ok(Ticket(Decimal(n), sign))
        && entries == old(entries)[TicketKey(Decimal(n)) := Entry(written, now + TICKET_EXPIRATIONS[ticketType])]
    {
      var id := Decimal(n);
      written := TicketData(data, id, userId, ticketType);
      if ticketType !in TICKET_EXPIRATIONS {
        return Err(KeyError), written;
      }
      entries := entries[TicketKey(id) := Entry(written, now + TICKET_EXPIRATIONS[ticketType])];
      var meta := Metadata(id);
      var signature := sign(meta);
      r := Ok(meta + "." + signature);
    }

    /** `revoke_ticket(id)`: deletes the key, if any. */
    method RevokeTicket(id: string)
      modifies this
      ensures entries == old(entries) - {TicketKey(id)}
    {
      entries := entries - {TicketKey(id)};
    }
  }

  /**
   * A ticket of a known type, looked up before its type's lifetime has passed, yields the
   * data written for it; after revocation it yields nothing.
   */
  lemma CreateLookupRevoke(store: Store, userId: string, ticketType: string, data: Doc, n: nat, now: int,
                           later: int, sign: string -> string, validate: (string, string) -> bool)
    requires ticketType in TICKET_EXPIRATIONS
    requires '.' !in sign(Metadata(Decimal(n))) && validate(sign(Metadata(Decimal(n))), Metadata(Decimal(n)))
    requires now <= later < now + TICKET_EXPIRATIONS[ticketType]
    ensures var id := Decimal(n);
      var written := TicketData(data, id, userId, ticketType);
      var after := store[TicketKey(id) := Entry(written, now + TICKET_EXPIRATIONS[ticketType])];
      && Details(Ticket(id, sign), after, later, validate) == Some(written)
      && written["i"] == PStr(id) && written["u"] == PStr(userId) && written["t"] == PStr(ticketType)
      && Details(Ticket(id, sign), after - {TicketKey(id)}, later, validate) == None
  {
    var id := Decimal(n);
    var written := TicketData(data, id, userId, ticketType);
    CreatedTicketDetails(id, sign, validate, store, written, now + TICKET_EXPIRATIONS[ticketType], later);
    ParseTicket(id, sign);
  }
}
