/** The Postgres event store's append and verifyStream, with the chain format of
    the hash-chain module (packages/postgres/src/pg-event-store.ts). */
module EventStore {
  import opened Wrappers
  import opened CanonicalJson
  import opened HashChain
  import opened EventChain

  datatype StreamKey = StreamKey(tenantId: string, aggregateName: string, aggregateId: string)

  datatype NewEvent = NewEvent(eventType: string, version: int, payload: Json)

  /** The events of one append, one generated id for each, and the append's metadata. */
  datatype Batch = Batch(events: seq<NewEvent>, ids: seq<string>, correlationId: Option<string>, causationId: Option<string>)

  /** Event payloads are JavaScript objects. */
  predicate ValidBatch(b: Batch)
  {
    |b.ids| == |b.events| && forall i | 0 <= i < |b.events| :: Data(b.events[i].payload) && b.events[i].payload.Obj?
  }

  function RawRow(base: int, b: Batch, i: nat): EventRow
    requires ValidBatch(b) && i < |b.events|
  {
    var e := b.events[i];
    EventRow(base + i + 1, b.ids[i], e.eventType, e.version, e.payload, b.correlationId, b.causationId, None)
  }

  /** The rows of a batch on top of version base, before hashing and storing. */
  function RawRows(base: int, b: Batch): (r: seq<EventRow>)
    requires ValidBatch(b)
    ensures |r| == |b.events| && forall i | 0 <= i < |r| :: r[i] == RawRow(base, b, i)
    ensures Consecutive(r, base + 1)
  {
    seq(|b.events|, i requires 0 <= i < |b.events| => RawRow(base, b, i))
  }

  /** Column values are JSON data without undefined parts. */
  predicate JsonRow(r: EventRow) { Data(r.payload) && Chainable(r.payload) }

  /** The covered fields of a row, as the verifier assembles them. */
  function RowEvent(key: StreamKey, r: EventRow): ChainableEvent
  {
    ChainableEvent(key.tenantId, key.aggregateName, key.aggregateId, r.aggregateVersion, r.eventId, r.eventType,
                   r.version, r.payload, r.correlationId, r.causationId)
  }

  function RowPreimage(key: StreamKey, prev: Digest, r: EventRow): Bytes
  {
    if JsonRow(r) then EventPreimage(prev, RowEvent(key, r)) else []
  }

  predicate SameRowContent(key: StreamKey, r: EventRow, t: EventRow) { SameEvent(RowEvent(key, r), RowEvent(key, t)) }

  /** The chain format of one stream. */
  function StreamFormat(h: Hmac, key: StreamKey): Format
  {
    Format(h, (prev, r) => RowPreimage(key, prev, r),
           StreamGenesisPreimage(key.tenantId, key.aggregateName, key.aggregateId),
           r => JsonRow(r), (r, t) => SameRowContent(key, r, t))
  }

  lemma RowPreimageReadable(key: StreamKey, p: Digest, r: EventRow, q: Digest, t: EventRow)
    requires JsonRow(r) && JsonRow(t)
    ensures RowPreimage(key, p, r) == RowPreimage(key, q, t) <==> p == q && SameRowContent(key, r, t)
    ensures RowPreimage(key, p, r) != StreamGenesisPreimage(key.tenantId, key.aggregateName, key.aggregateId)
  {
    var e, e' := RowEvent(key, r), RowEvent(key, t);
    assert Hashable(e) && Hashable(e');
    assert RowPreimage(key, p, r) == EventPreimage(p, e) && RowPreimage(key, q, t) == EventPreimage(q, e');
    hide RowPreimage, EventPreimage, SameEvent, StreamGenesisPreimage, Hashable, JsonRow, RowEvent;
    EventPreimageInjective(p, e, q, e');
    PreimagesDisjoint(p, e, key.tenantId, key.aggregateName, key.aggregateId, "", p, []);
  }

  /** The format is uniquely readable and keeps events apart from genesis. */
  lemma StreamFormatReadable(h: Hmac, key: StreamKey)
    ensures Readable(StreamFormat(h, key))
  {
    hide RowPreimage, SameRowContent, JsonRow, StreamGenesisPreimage;
    var f := StreamFormat(h, key);
    forall p: Digest, q: Digest, r, t | f.ok(r) && f.ok(t)
      ensures f.preimage(p, r) == f.preimage(q, t) <==> p == q && f.same(r, t)
    {
      RowPreimageReadable(key, p, r, q, t);
    }
    forall p: Digest, r | f.ok(r) ensures f.preimage(p, r) != f.genesis {
      RowPreimageReadable(key, p, r, p, r);
    }
  }

  /** The column gives a stored chainable value back with its logical content:
      undefined parts dropped or null, keys in any order. */
  ghost predicate Faithful(jsonb: Jsonb)
  {
    forall v :: Data(v) && Chainable(v) && jsonb(v).Some? ==> StoredAs(v, jsonb(v).value)
  }

  lemma FaithfulKeeps(h: Hmac, key: StreamKey, jsonb: Jsonb)
    requires Faithful(jsonb)
    ensures Keeps(StreamFormat(h, key), jsonb)
  {
    hide Faithful, RowPreimage, SameRowContent, JsonRow, StreamGenesisPreimage;
    var f := StreamFormat(h, key);
    forall r, hash | f.ok(r) && jsonb(r.payload).Some?
      ensures f.ok(Inserted(jsonb, r, hash)) && f.same(r, Inserted(jsonb, r, hash))
    {
      InsertedSame(key, jsonb, r, hash);
    }
  }

  lemma InsertedSame(key: StreamKey, jsonb: Jsonb, r: EventRow, hash: Option<Digest>)
    requires Faithful(jsonb) && JsonRow(r) && jsonb(r.payload).Some?
    ensures JsonRow(Inserted(jsonb, r, hash)) && SameRowContent(key, r, Inserted(jsonb, r, hash))
  {
    var v, w := r.payload, jsonb(r.payload).value;
    assert StoredAs(v, w);
    hide Data, Chainable, StoredAs, Normalise;
    StoredNormalise(v, w);
  }

  /** computeEventHash on a row. */
  function RowHash(h: Hmac, key: StreamKey, prev: Digest, r: EventRow): Option<Digest>
    requires Data(r.payload) && r.payload != Undefined
  {
    ComputeEventHash(h, prev, RowEvent(key, r))
  }

  /** It is the link of the stream's format, where the serializer takes the row. */
  lemma RowHashLinks(h: Hmac, key: StreamKey, prev: Digest, r: EventRow)
    requires Data(r.payload) && r.payload != Undefined
    ensures RowHash(h, key, prev, r).Some? <==> StreamFormat(h, key).ok(r)
    ensures RowHash(h, key, prev, r).Some? ==> RowHash(h, key, prev, r).value == Link(StreamFormat(h, key), prev, r)
  {
    hide EventPreimage, Data, Chainable, StreamGenesisPreimage;
  }

  function GenesisOf(h: Hmac, key: StreamKey): (d: Digest)
    ensures d == Genesis(StreamFormat(h, key))
  {
    StreamGenesis(h, key.tenantId, key.aggregateName, key.aggregateId)
  }

  /** Version 0 is right for a stream that does not exist, and otherwise the stream's own. */
  predicate RightVersion(s: Option<Stream>, expected: int)
  {
    match s
    case None => expected == 0
    case Some(stream) => expected != 0 && expected == stream.current
  }

  /** The column takes every payload, and the serializer too where rows are chained. */
  predicate Storable(jsonb: Jsonb, b: Batch, chained: bool)
  {
    forall i | 0 <= i < |b.events| :: jsonb(b.events[i].payload).Some? && (chained ==> Chainable(b.events[i].payload))
  }

  /** The rows after an append: the rows before, then one row for each event, in order,
      with the next version, its id, type, schema version and stored payload, the
      append's metadata, and a hash exactly if rows are chained. */
  predicate Stored(jsonb: Jsonb, before: seq<EventRow>, after: seq<EventRow>, expected: int, b: Batch, chained: bool)
  {
    |b.ids| == |b.events| && |after| == |before| + |b.events| && after[..|before|] == before &&
    forall i | 0 <= i < |b.events| ::
      var r := after[|before| + i];
      r.aggregateVersion == expected + i + 1 && r.eventId == b.ids[i] && r.eventType == b.events[i].eventType &&
      r.version == b.events[i].version && jsonb(b.events[i].payload) == Some(r.payload) &&
      r.correlationId == b.correlationId && r.causationId == b.causationId && (r.eventHash.Some? <==> chained)
  }

  /** What append does to a stream, in the terms of its arguments. It succeeds exactly
      at the right version with storable payloads; an error changes nothing, and is
      the concurrency error only if the version was wrong. */
  predicate AppendOutcome(jsonb: Jsonb, s: Option<Stream>, t: Option<Stream>, expected: int, b: Batch, chained: bool, r: Result<int, AppendError>)
  {
    (r.Ok? <==> b.events == [] || (RightVersion(s, expected) && Storable(jsonb, b, chained))) &&
    match r
    case Ok(version) =>
      version == expected + |b.events| &&
      if b.events == [] then t == s
      else
        t.Some? && t.value.current == version && Stored(jsonb, RowsOf(s), t.value.rows, expected, b, chained) &&
        if chained then t.value.head.Some? else t.value.head == HeadIn(s)
    case Err(e) => t == s && (e == ConcurrencyError ==> !RightVersion(s, expected)) && (e == PayloadError ==> !Storable(jsonb, b, chained))
  }

  lemma OkIsJson(h: Hmac, key: StreamKey, r: EventRow)
    ensures StreamFormat(h, key).ok(r) <==> Data(r.payload) && Chainable(r.payload)
  {
    hide Data, Chainable;
  }

  /** The rows of a batch can be stored, and hashed, exactly if their payloads can. */
  lemma StorableMeans(h: Hmac, key: StreamKey, jsonb: Jsonb, raw: seq<EventRow>, b: Batch, chained: bool)
    requires |raw| == |b.events| && forall i | 0 <= i < |raw| :: raw[i].payload == b.events[i].payload && Data(raw[i].payload)
    ensures Storable(jsonb, b, chained) <==> Stores(jsonb, raw) && (chained ==> AllOk(StreamFormat(h, key), raw))
  {
    hide StreamFormat, Data, Chainable;
    forall i | 0 <= i < |raw| ensures StreamFormat(h, key).ok(raw[i]) <==> Chainable(b.events[i].payload) { OkIsJson(h, key, raw[i]); }
  }

  lemma RawPayloads(expected: int, b: Batch)
    requires ValidBatch(b)
    ensures forall i | 0 <= i < |b.events| ::
              RawRows(expected, b)[i].payload == b.events[i].payload && Data(RawRows(expected, b)[i].payload) &&
              RawRows(expected, b)[i].payload != Undefined
  {
    hide Data;
  }

  lemma RowsStored(jsonb: Jsonb, before: seq<EventRow>, added: seq<EventRow>, expected: int, b: Batch, chained: bool)
    requires ValidBatch(b) && Stores(jsonb, RawRows(expected, b)) && |added| == |b.events|
    requires forall i | 0 <= i < |added| ::
               added[i] == Inserted(jsonb, RawRows(expected, b)[i], added[i].eventHash) && (added[i].eventHash.Some? <==> chained)
    ensures Stored(jsonb, before, before + added, expected, b, chained)
  {
    hide Data;
    forall i | 0 <= i < |b.events| ensures (before + added)[|before| + i] == added[i] { }
    assert (before + added)[..|before|] == before;
  }

  lemma AppendMeans(h: Hmac, key: StreamKey, chained: bool, jsonb: Jsonb, s: Option<Stream>, expected: int, b: Batch)
    requires ValidBatch(b)
    ensures var r := Appended(StreamFormat(h, key), chained, jsonb, s, expected, RawRows(expected, b));
            AppendOutcome(jsonb, s, if r.Ok? then r.value else s, expected, b, chained, if r.Ok? then Ok(expected + |b.events|) else Err(r.error))
  {
    RawPayloads(expected, b);
    StorableMeans(h, key, jsonb, RawRows(expected, b), b, chained);
    OutcomeOf(StreamFormat(h, key), chained, jsonb, s, expected, b);
  }

  lemma OutcomeOf(f: Format, chained: bool, jsonb: Jsonb, s: Option<Stream>, expected: int, b: Batch)
    requires ValidBatch(b)
    requires Storable(jsonb, b, chained) <==> Stores(jsonb, RawRows(expected, b)) && (chained ==> AllOk(f, RawRows(expected, b)))
    ensures var r := Appended(f, chained, jsonb, s, expected, RawRows(expected, b));
            AppendOutcome(jsonb, s, if r.Ok? then r.value else s, expected, b, chained, if r.Ok? then Ok(expected + |b.events|) else Err(r.error))
  {
    hide Data, Storable, HeadOf, RawRow;
    var raw := RawRows(expected, b);
    var r := Appended(f, chained, jsonb, s, expected, raw);
    if raw == [] {
      assert r == Ok(s) by { hide *; AppendNothing(f, chained, jsonb, s, expected); }
      hide Appended, Stores, AllOk;
    } else if r.Ok? {
      OkMeans(f, chained, jsonb, s, expected, raw);
      var added := r.value.value.rows[|RowsOf(s)|..];
      hide Appended, AllOk, Inserted;
      RowsStored(jsonb, RowsOf(s), added, expected, b, chained);
      hide Stored, Stores, RawRows;
    } else {
      ErrMeans(f, chained, jsonb, s, expected, raw);
      hide Appended, Stores, AllOk, Stored, RawRows;
    }
  }

  lemma AppendNothing(f: Format, chained: bool, jsonb: Jsonb, s: Option<Stream>, expected: int)
    ensures Appended(f, chained, jsonb, s, expected, []) == Ok(s)
  {
  }

  lemma ErrMeans(f: Format, chained: bool, jsonb: Jsonb, s: Option<Stream>, expected: int, raw: seq<EventRow>)
    requires raw != [] && Appended(f, chained, jsonb, s, expected, raw).Err?
    ensures var e := Appended(f, chained, jsonb, s, expected, raw).error;
            (e == ConcurrencyError ==> !RightVersion(s, expected)) &&
            (e == PayloadError ==> !(Stores(jsonb, raw) && (chained ==> AllOk(f, raw))))
  {
    hide Stores, AllOk, ChainedRows, PlainRows, HeadOf;
  }

  lemma OkMeans(f: Format, chained: bool, jsonb: Jsonb, s: Option<Stream>, expected: int, raw: seq<EventRow>)
    requires raw != [] && Appended(f, chained, jsonb, s, expected, raw).Ok?
    ensures Stores(jsonb, raw) && (chained ==> AllOk(f, raw)) && RightVersion(s, expected)
    ensures var t := Appended(f, chained, jsonb, s, expected, raw).value;
            t.Some? && t.value.current == expected + |raw| && (if chained then t.value.head.Some? else t.value.head == HeadIn(s)) &&
            |t.value.rows| == |RowsOf(s)| + |raw| && t.value.rows == RowsOf(s) + t.value.rows[|RowsOf(s)|..] &&
            forall i | 0 <= i < |raw| ::
              var x := t.value.rows[|RowsOf(s)|..][i];
              x == Inserted(jsonb, raw[i], x.eventHash) && (x.eventHash.Some? <==> chained)
  {
    var added := if chained then ChainedRows(f, jsonb, PrevIn(f, s), raw) else PlainRows(jsonb, raw);
    AddedRows(f, jsonb, PrevIn(f, s), raw, chained, added);
    assert (RowsOf(s) + added)[|RowsOf(s)|..] == added;
    hide Stores, AllOk, ChainedRows, PlainRows, HeadOf, Inserted;
  }

  lemma AddedRows(f: Format, jsonb: Jsonb, prev: Digest, raw: seq<EventRow>, chained: bool, added: seq<EventRow>)
    requires Stores(jsonb, raw) && added == if chained then ChainedRows(f, jsonb, prev, raw) else PlainRows(jsonb, raw)
    ensures |added| == |raw|
    ensures forall i | 0 <= i < |added| :: added[i] == Inserted(jsonb, raw[i], added[i].eventHash) && (added[i].eventHash.Some? <==> chained)
  {
    hide HeadOf;
  }

  class PgEventStore {
    const h: Hmac
    const jsonb: Jsonb
    var hashEnabled: set<string>
    var streams: map<StreamKey, Stream>

    constructor (h: Hmac, jsonb: Jsonb, enabledAggregates: set<string>)
      ensures this.h == h && this.jsonb == jsonb && hashEnabled == enabledAggregates && streams == map[]
    {
      this.h, this.jsonb, hashEnabled, streams := h, jsonb, enabledAggregates, map[];
    }

    function Get(key: StreamKey): Option<Stream>
      reads this
    {
      if key in streams then Some(streams[key]) else None
    }

    /** enableHashChainFor: names are added and never removed. */
    method EnableHashChainFor(aggregateName: string)
      modifies this`hashEnabled
      ensures hashEnabled == old(hashEnabled) + {aggregateName}
    {
      hashEnabled := hashEnabled + {aggregateName};
    }

    /** chainBatch: links the rows of a batch one after the other; None is the
        serializer's error. */
    method ChainBatch(prev: Digest, key: StreamKey, raw: seq<EventRow>) returns (r: Option<seq<Digest>>)
      requires forall i | 0 <= i < |raw| :: Data(raw[i].payload) && raw[i].payload != Undefined
      ensures r.Some? <==> AllOk(StreamFormat(h, key), raw)
      ensures r.Some? ==> |r.value| == |raw|
      ensures r.Some? ==> forall i | 0 <= i < |raw| :: r.value[i] == HeadOf(StreamFormat(h, key), prev, raw[..i + 1])
    {
      hide StreamFormat, RowHash, Data;
      var hashes: seq<Digest> := [];
      var p := prev;
      for i := 0 to |raw|
        invariant |hashes| == i && AllOk(StreamFormat(h, key), raw[..i])
        invariant p == HeadOf(StreamFormat(h, key), prev, raw[..i])
        invariant forall j | 0 <= j < i :: hashes[j] == HeadOf(StreamFormat(h, key), prev, raw[..j + 1])
      {
        RowHashLinks(h, key, p, raw[i]);
        var hash := RowHash(h, key, p, raw[i]);
        if hash.None? { return None; }
        assert raw[..i + 1][..i] == raw[..i] && raw[..i + 1][i] == raw[i];
        hashes := hashes + [hash.value];
        p := hash.value;
      }
      assert raw[..|raw|] == raw;
      return Some(hashes);
    }

    /** append: each event becomes a row, with its id and the append's metadata. */
    method Append(key: StreamKey, expected: int, b: Batch) returns (r: Result<int, AppendError>)
      requires ValidBatch(b)
      modifies this`streams
      ensures var effect := Appended(StreamFormat(h, key), key.aggregateName in hashEnabled, jsonb, old(Get(key)), expected, RawRows(expected, b));
        match effect
        case Ok(s) => r == Ok(expected + |b.events|) && Get(key) == s
        case Err(e) => r == Err(e) && streams == old(streams)
      ensures forall k | k != key :: Get(k) == old(Get(k))
      ensures AppendOutcome(jsonb, old(Get(key)), Get(key), expected, b, key.aggregateName in hashEnabled, r)
    {
      hide AppendOutcome, Appended, StreamFormat, Data, RawRow;
      AppendMeans(h, key, key.aggregateName in hashEnabled, jsonb, Get(key), expected, b);
      if |b.events| == 0 {
        assert RawRows(expected, b) == [];
        AppendNothing(StreamFormat(h, key), key.aggregateName in hashEnabled, jsonb, Get(key), expected);
        return Ok(expected);
      }
      RawPayloads(expected, b);
      r := AppendRows(key, expected, RawRows(expected, b));
    }

    /** The version gate in its three branches, then the event rows. */
    method AppendRows(key: StreamKey, expected: int, raw: seq<EventRow>) returns (r: Result<int, AppendError>)
      requires raw != [] && forall i | 0 <= i < |raw| :: Data(raw[i].payload) && raw[i].payload != Undefined
      modifies this`streams
      ensures var effect := Appended(StreamFormat(h, key), key.aggregateName in hashEnabled, jsonb, old(Get(key)), expected, raw);
        match effect
        case Ok(s) => r == Ok(expected + |raw|) && Get(key) == s
        case Err(e) => r == Err(e) && streams == old(streams)
      ensures forall k | k != key :: Get(k) == old(Get(k))
    {
      hide StreamFormat, Data, Chainable, JsonRow, RowHash, GenesisOf, ChainedRows, PlainRows, Inserted, HeadOf;
      var chained := key.aggregateName in hashEnabled;
      var hashes: Option<seq<Digest>> := None;
      var before := Get(key);
      if expected == 0 {
        if chained {
          hashes := ChainBatch(GenesisOf(h, key), key, raw);
          if hashes.None? { return Err(PayloadError); }
        }
        if key in streams { return Err(ConcurrencyError); }
      } else if chained {
        if key !in streams || streams[key].current != expected { return Err(ConcurrencyError); }
        var prev := if streams[key].head.Some? then streams[key].head.value else GenesisOf(h, key);
        hashes := ChainBatch(prev, key, raw);
        if hashes.None? { return Err(PayloadError); }
      } else {
        if key !in streams || streams[key].current != expected { return Err(ConcurrencyError); }
      }
      var inserted := InsertedRows(raw, hashes);
      if inserted.None? { return Err(PayloadError); }
      if chained {
        AreChained(StreamFormat(h, key), jsonb, PrevIn(StreamFormat(h, key), before), raw, hashes.value, inserted.value);
      } else {
        ArePlain(jsonb, raw, inserted.value);
      }
      var head := if chained then Some(hashes.value[|raw| - 1]) else HeadIn(before);
      assert raw[..|raw|] == raw;
      streams := streams[key := Stream(expected + |raw|, head, RowsOf(before) + inserted.value)];
      return Ok(expected + |raw|);
    }

    /** The event rows of one INSERT; None is a payload the column refuses. */
    method InsertedRows(raw: seq<EventRow>, hashes: Option<seq<Digest>>) returns (rows: Option<seq<EventRow>>)
      requires hashes.Some? ==> |hashes.value| == |raw|
      ensures rows.Some? <==> Stores(jsonb, raw)
      ensures rows.Some? ==> |rows.value| == |raw|
      ensures rows.Some? ==> forall j | 0 <= j < |raw| ::
        rows.value[j] == Inserted(jsonb, raw[j], if hashes.Some? then Some(hashes.value[j]) else None)
    {
      var inserted: seq<EventRow> := [];
      for i := 0 to |raw|
        invariant Stores(jsonb, raw[..i]) && |inserted| == i
        invariant forall j | 0 <= j < i ::
                    inserted[j] == Inserted(jsonb, raw[j], if hashes.Some? then Some(hashes.value[j]) else None)
      {
        if jsonb(raw[i].payload).None? { return None; }
        inserted := inserted + [Inserted(jsonb, raw[i], if hashes.Some? then Some(hashes.value[i]) else None)];
      }
      assert raw[..|raw|] == raw;
      return Some(inserted);
    }

    /** rows.findIndex, with the length for "not found". */
    method FindChainStart(rows: seq<EventRow>) returns (start: nat)
      ensures start == ChainStart(rows)
    {
      start := 0;
      while start < |rows| && rows[start].eventHash.None?
        invariant start <= |rows| && ChainStart(rows) == start + ChainStart(rows[start..])
      {
        assert rows[start..][1..] == rows[start + 1..];
        start := start + 1;
      }
    }

    /** The verifier's loop over the protected rows. */
    method WalkRows(key: StreamKey, rows: seq<EventRow>) returns (r: Walked)
      requires rows != [] && forall i | 0 <= i < |rows| :: JsonRow(rows[i])
      ensures r == Walk(StreamFormat(h, key), rows, Genesis(StreamFormat(h, key)), 0, rows[0].aggregateVersion)
    {
      hide StreamFormat, Data, Chainable, JsonRow, GenesisOf, StoredRowHash;
      ghost var f := StreamFormat(h, key);
      var prev := GenesisOf(h, key);
      var checked := 0;
      var expectedVersion := rows[0].aggregateVersion;
      for i := 0 to |rows|
        invariant checked == i
        invariant Walk(f, rows[i..], prev, checked, expectedVersion) == Walk(f, rows, Genesis(f), 0, rows[0].aggregateVersion)
      {
        var row := rows[i];
        assert rows[i..][1..] == rows[i + 1..];
        if row.eventHash.None? {
          return Broken(Verification(false, checked, Some(row.aggregateVersion), NullHash));
        }
        if row.aggregateVersion != expectedVersion {
          return Broken(Verification(false, checked, Some(expectedVersion), VersionGap));
        }
        var recomputed := StoredRowHash(h, key, prev, row);
        if !HashesEqual(Some(recomputed), row.eventHash) {
          return Broken(Verification(false, checked, Some(row.aggregateVersion), HashMismatch));
        }
        prev := recomputed;
        checked := checked + 1;
        expectedVersion := row.aggregateVersion + 1;
      }
      return Reached(prev, checked);
    }

    /** verifyStream: walks the protected rows from genesis to the stored head. */
    method VerifyStream(key: StreamKey) returns (r: Verification)
      requires forall i | 0 <= i < |RowsOf(Get(key))| :: JsonRow(RowsOf(Get(key))[i])
      ensures r == Verified(StreamFormat(h, key), RowsOf(Get(key)), HeadIn(Get(key)))
    {
      hide StreamFormat, Data, Chainable, JsonRow, Walk;
      var rows, storedHead := RowsOf(Get(key)), HeadIn(Get(key));
      var chainStart := FindChainStart(rows);
      if chainStart == |rows| {
        if storedHead.Some? {
          return Verification(false, 0, Some(if rows == [] then 0 else rows[|rows| - 1].aggregateVersion), HeadWithoutEvents);
        }
        return Verification(true, 0, None, Intact);
      }
      var walked := WalkRows(key, rows[chainStart..]);
      match walked
      case Broken(result) => return result;
      case Reached(prev, checked) =>
        if !HashesEqual(Some(prev), storedHead) {
          return Verification(false, checked, Some(rows[chainStart].aggregateVersion + checked - 1), HeadMismatch);
        }
        return Verification(true, checked, None, Intact);
    }
  }

  lemma AreChained(f: Format, jsonb: Jsonb, prev: Digest, raw: seq<EventRow>, hashes: seq<Digest>, rows: seq<EventRow>)
    requires Stores(jsonb, raw) && |hashes| == |rows| == |raw|
    requires forall i | 0 <= i < |raw| :: hashes[i] == HeadOf(f, prev, raw[..i + 1]) && rows[i] == Inserted(jsonb, raw[i], Some(hashes[i]))
    ensures rows == ChainedRows(f, jsonb, prev, raw)
  {
  }

  lemma ArePlain(jsonb: Jsonb, raw: seq<EventRow>, rows: seq<EventRow>)
    requires Stores(jsonb, raw) && |rows| == |raw| && forall i | 0 <= i < |raw| :: rows[i] == Inserted(jsonb, raw[i], None)
    ensures rows == PlainRows(jsonb, raw)
  {
  }

  /** The verifier's recomputed hash; stored rows are always hashable. */
  function StoredRowHash(h: Hmac, key: StreamKey, prev: Digest, r: EventRow): (d: Digest)
    requires JsonRow(r)
    ensures d == Link(StreamFormat(h, key), prev, r)
  {
    RowHashLinks(h, key, prev, r);
    RowHash(h, key, prev, r).value
  }

  // ---------------------------------------------------------------------------
  // The store's promises
  // ---------------------------------------------------------------------------

  /** A run of appends on one stream. */
  datatype Request = Request(chained: bool, expected: int, batch: Batch)

  function Calls(rs: seq<Request>): (r: seq<AppendCall>)
    requires forall i | 0 <= i < |rs| :: ValidBatch(rs[i].batch)
    ensures |r| == |rs| && forall i | 0 <= i < |r| :: Consecutive(r[i].raw, r[i].expected + 1)
  {
    seq(|rs|, i requires 0 <= i < |rs| => AppendCall(rs[i].chained, rs[i].expected, RawRows(rs[i].expected, rs[i].batch)))
  }

  /** Any run of appends leaves versions 1..current, and a stream that verifies
      with every protected event counted, exactly when no append got through
      unchained on a stream that has a head: chaining may be switched on
      mid-life, but not off again. */
  lemma StoreChainComplete(h: Hmac, key: StreamKey, jsonb: Jsonb, rs: seq<Request>)
    requires Faithful(jsonb) && forall i | 0 <= i < |rs| :: ValidBatch(rs[i].batch)
    ensures var f := StreamFormat(h, key);
            var s := AfterCalls(f, jsonb, Calls(rs));
            WellVersioned(s) &&
            (Verified(f, RowsOf(s), HeadIn(s)).ok <==> NeverSwitchedOff(f, jsonb, Calls(rs))) &&
            (NeverSwitchedOff(f, jsonb, Calls(rs)) ==>
               Verified(f, RowsOf(s), HeadIn(s)).eventsChecked == |RowsOf(s)| - ChainStart(RowsOf(s)))
  {
    hide StreamFormat, Faithful, ValidBatch, RawRow;
    StreamFormatReadable(h, key);
    FaithfulKeeps(h, key, jsonb);
    hide Readable, Keeps, WellVersioned, Verified, NeverSwitchedOff, AfterCalls;
    ChainComplete(StreamFormat(h, key), jsonb, Calls(rs));
  }

  /** Tampering with a stream that a run of appends built. If the stored head is
      still the one of the first k protected rows and the hash has no collision
      among the preimages involved, the verifier accepts only rows whose
      protected suffix is those k rows, in every covered field and stored hash. */
  lemma StoreVerifierSound(h: Hmac, key: StreamKey, jsonb: Jsonb, rs: seq<Request>, k: nat, tampered: seq<EventRow>, known: set<Bytes>)
    requires Faithful(jsonb) && forall i | 0 <= i < |rs| :: ValidBatch(rs[i].batch)
    requires NeverSwitchedOff(StreamFormat(h, key), jsonb, Calls(rs))
    requires 0 < k <= |Protected(RowsOf(AfterCalls(StreamFormat(h, key), jsonb, Calls(rs))))|
    requires forall i | 0 <= i < |tampered| :: JsonRow(tampered[i])
    requires var f := StreamFormat(h, key);
             var sealed := Protected(RowsOf(AfterCalls(f, jsonb, Calls(rs))))[..k];
             CollisionFree(h, known) && Preimages(f, sealed) + Preimages(f, Protected(tampered)) <= known &&
             Verified(f, tampered, Some(HeadOf(f, Genesis(f), sealed))).ok
    ensures var sealed := Protected(RowsOf(AfterCalls(StreamFormat(h, key), jsonb, Calls(rs))))[..k];
            |Protected(tampered)| == k &&
            forall i | 0 <= i < k ::
              SameRowContent(key, sealed[i], Protected(tampered)[i]) && Protected(tampered)[i].eventHash == sealed[i].eventHash
  {
    hide StreamFormat, Faithful, ValidBatch, RawRow, SameRowContent, JsonRow;
    var f := StreamFormat(h, key);
    StreamFormatMeaning(h, key);
    StreamFormatReadable(h, key);
    FaithfulKeeps(h, key, jsonb);
    assert AllOk(f, Protected(tampered));
    var chain := Protected(RowsOf(AfterCalls(f, jsonb, Calls(rs))));
    RunInvariant(f, jsonb, Calls(rs));
    hide AfterCalls, NeverSwitchedOff, Readable, Keeps, Verified;
    VerifierSound(f, chain, k, tampered, known);
  }

  lemma StreamFormatMeaning(h: Hmac, key: StreamKey)
    ensures var f := StreamFormat(h, key);
            f.h == h && (forall r :: f.ok(r) == JsonRow(r)) && forall r, t :: f.same(r, t) == SameRowContent(key, r, t)
  {
  }

  /** A negative expected version is refused on every stream the store can hold. */
  lemma NegativeVersionRefused(h: Hmac, key: StreamKey, chained: bool, jsonb: Jsonb, s: Option<Stream>, expected: int, b: Batch)
    requires ValidBatch(b) && |b.events| > 0 && WellVersioned(s) && expected < 0
    ensures Appended(StreamFormat(h, key), chained, jsonb, s, expected, RawRows(expected, b)) == Err(ConcurrencyError)
  {
  }
}
