/** What the hashed byte strings of the event chain say, literally
    (packages/core/src/integrity/hash-chain.ts:92-159). */
module HashedText {
  import opened Wrappers
  import opened CanonicalJson
  import opened JsonReader
  import opened HashChain

  // ---------------------------------------------------------------------------
  // UTF-8 (section 3 of RFC 3629)
  // ---------------------------------------------------------------------------

  predicate IsTail(b: Byte) { 0x80 <= b < 0xC0 }

  function Low(b: Byte): nat
    requires IsTail(b)
  {
    b as int - 0x80
  }

  /** The code point of a sequence of n bytes at the start of a byte string. */
  function CodePoint(b: Bytes, n: nat): (u: Option<nat>)
    requires 1 <= n <= 4 && n <= |b|
  {
    if n == 1 then if b[0] < 0x80 then Some(b[0]) else None
    else if n == 2 then
      if 0xC0 <= b[0] < 0xE0 && IsTail(b[1]) then Some(0x40 * (b[0] as int - 0xC0) + Low(b[1])) else None
    else if n == 3 then
      if 0xE0 <= b[0] < 0xF0 && IsTail(b[1]) && IsTail(b[2])
      then Some(0x1000 * (b[0] as int - 0xE0) + 0x40 * Low(b[1]) + Low(b[2])) else None
    else
      if 0xF0 <= b[0] < 0xF8 && IsTail(b[1]) && IsTail(b[2]) && IsTail(b[3])
      then Some(0x40000 * (b[0] as int - 0xF0) + 0x1000 * Low(b[1]) + 0x40 * Low(b[2]) + Low(b[3])) else None
  }

  function Width(first: Byte): (n: nat)
    ensures 1 <= n <= 4
  {
    if first < 0x80 then 1 else if first < 0xE0 then 2 else if first < 0xF0 then 3 else 4
  }

  /** The shortest encoding only, and no surrogates. */
  predicate Shortest(u: nat, n: nat)
  {
    (u < 0xD800 || 0xE000 <= u < 0x11_0000) &&
    n == if u < 0x80 then 1 else if u < 0x800 then 2 else if u < 0x1_0000 then 3 else 4
  }

  function Decode(b: Bytes): Option<string>
  {
    if b == [] then Some("")
    else
      var n := Width(b[0]);
      if n > |b| then None
      else
        var u := CodePoint(b, n);
        var rest := Decode(b[n..]);
        if u.None? || !Shortest(u.value, n) || rest.None? then None else Some([u.value as char] + rest.value)
  }

  lemma CharDecodes(c: char, x: Bytes)
    ensures var b := Utf8Char(c) + x;
            Width(b[0]) == |Utf8Char(c)| && CodePoint(b, |Utf8Char(c)|) == Some(c as int) && Shortest(c as int, |Utf8Char(c)|)
  {
    var u, b := c as int, Utf8Char(c);
    assert forall i | 0 <= i < |b| :: (b + x)[i] == b[i];
    if |b| == 3 {
      assert u / 0x40 / 0x40 * 0x1000 + u / 0x40 % 0x40 * 0x40 + u % 0x40 == u;
    } else if |b| == 4 {
      assert u / 0x40 / 0x40 / 0x40 * 0x40000 + u / 0x40 / 0x40 % 0x40 * 0x1000 + u / 0x40 % 0x40 * 0x40 + u % 0x40 == u;
    }
  }

  /** Encoded text decodes to the text. */
  lemma {:induction false} Utf8Decodes(s: string)
    ensures Decode(Utf8(s)) == Some(s)
  {
    hide Utf8Char, CodePoint, Width, Shortest;
    if s != [] {
      var rest := Utf8(s[1..]);
      CharDecodes(s[0], rest);
      Utf8Decodes(s[1..]);
      assert (Utf8Char(s[0]) + rest)[|Utf8Char(s[0])|..] == rest;
      assert s == [s[0]] + s[1..];
    }
  }

  // ---------------------------------------------------------------------------
  // The objects in the preimages
  // ---------------------------------------------------------------------------

  /** Some bytes are the UTF-8 text of a JSON object, and of nothing behind it. */
  predicate Says(b: Bytes, fields: seq<Field>)
  {
    Decode(b).Some? && ReadValue(Decode(b).value) == Some(Parsed(Obj(fields), ""))
  }

  lemma ObjectSays(fields: seq<Field>)
    requires Data(Obj(fields)) && Chainable(Obj(fields))
    ensures Serialize(Obj(fields)).Some? && Normalise(Obj(fields)).Obj?
    ensures Says(Utf8(Serialize(Obj(fields)).value), Normalise(Obj(fields)).fields)
  {
    hide Data, Chainable, Serialize;
    CanonicalReadsBack(Obj(fields));
    Utf8Decodes(Serialize(Obj(fields)).value);
  }

  /** A numeral that denotes n. */
  predicate Denotes(v: Json, n: int) { v.Num? && IntegerValue(v.digits) == Some(n) }

  /** The ten members of the hashed event, in the order of their keys. */
  predicate EventMembers(e: ChainableEvent, m: seq<Field>)
  {
    |m| == 10 &&
    m[0] == Field("aggregateId", Str(e.aggregateId)) &&
    m[1] == Field("aggregateName", Str(e.aggregateName)) &&
    m[2].key == "aggregateVersion" && Denotes(m[2].value, e.aggregateVersion) &&
    m[3] == Field("causationId", if e.causationId.Some? then Str(e.causationId.value) else Null) &&
    m[4] == Field("correlationId", if e.correlationId.Some? then Str(e.correlationId.value) else Null) &&
    m[5] == Field("eventId", Str(e.eventId)) &&
    m[6] == Field("payload", Normalise(e.payload)) &&
    m[7] == Field("tenantId", Str(e.tenantId)) &&
    m[8] == Field("type", Str(e.eventType)) &&
    m[9].key == "version" && Denotes(m[9].value, e.version)
  }

  lemma LessAt(a: string, b: string, i: nat)
    requires i < |a| && i < |b| && a[..i] == b[..i] && Weight(a[i]) < Weight(b[i])
    ensures Less(a, b)
  {
    if i > 0 {
      assert a[0] == a[..i][0] == b[..i][0] == b[0];
      assert a[1..][..i - 1] == a[..i][1..] == b[..i][1..] == b[1..][..i - 1];
      LessAt(a[1..], b[1..], i - 1);
    }
  }

  lemma {:induction false} AscendingSorts(keys: seq<string>)
    requires forall i | 0 < i < |keys| :: Less(keys[i - 1], keys[i])
    ensures Sorted(keys)
  {
    if keys != [] {
      var init := keys[..|keys| - 1];
      AscendingSorts(init);
      forall i, j | 0 <= i < j < |keys| ensures Less(keys[i], keys[j]) {
        if j == |keys| - 1 && i < j - 1 { LessTransitive(init[i], init[j - 1], keys[j]); }
        if j < |keys| - 1 { assert Less(init[i], init[j]); }
      }
    }
  }

  lemma EventKeysAscend(keys: seq<string>)
    requires keys == ["aggregateId", "aggregateName", "aggregateVersion", "causationId", "correlationId", "eventId", "payload", "tenantId", "type", "version"]
    ensures Sorted(keys)
  {
    hide *;
    AggregateKeysAscend();
    IdKeysAscend();
    LastKeysAscend();
    assert |keys| == 10;
    forall i | 0 < i < 10 ensures Less(keys[i - 1], keys[i]) { }
    AscendingSorts(keys);
  }

  lemma AggregateKeysAscend()
    ensures Less("aggregateId", "aggregateName") && Less("aggregateName", "aggregateVersion")
    ensures Less("aggregateId", "tenantId") && Less("aggregateName", "tenantId") && Less("aggregateId", "version") && Less("aggregateName", "version")
  {
    hide Less;
    LessAt("aggregateId", "aggregateName", 9);
    LessAt("aggregateName", "aggregateVersion", 9);
    LessAt("aggregateId", "tenantId", 0);
    LessAt("aggregateName", "tenantId", 0);
    LessAt("aggregateId", "version", 0);
    LessAt("aggregateName", "version", 0);
  }

  lemma IdKeysAscend()
    ensures Less("aggregateVersion", "causationId") && Less("causationId", "correlationId") && Less("correlationId", "eventId")
  {
    hide Less;
    LessAt("aggregateVersion", "causationId", 0);
    LessAt("causationId", "correlationId", 1);
    LessAt("correlationId", "eventId", 0);
  }

  lemma LastKeysAscend()
    ensures Less("eventId", "payload") && Less("payload", "tenantId") && Less("tenantId", "type") && Less("type", "version")
  {
    hide Less;
    LessAt("eventId", "payload", 0);
    LessAt("payload", "tenantId", 0);
    LessAt("tenantId", "type", 1);
    LessAt("type", "version", 0);
  }

  /** An event hash covers the previous hash, and then the canonical JSON text of the
      event's ten fields. */
  lemma EventPreimageSays(prev: Digest, e: ChainableEvent) returns (m: seq<Field>)
    requires Hashable(e)
    ensures EventMembers(e, m)
    ensures EventPreimage(prev, e)[..32] == prev && Says(EventPreimage(prev, e)[32..], m)
  {
    hide Says, EventMembers, Normalise, EventFields, Serialize, Normal, Print, Utf8, Data, Chainable;
    EventFieldsData(e);
    EventContent(e);
    m := Normalise(Obj(EventFields(e))).fields;
    ObjectSays(EventFields(e));
    assert EventPreimage(prev, e)[32..] == EventBytes(e);
  }

  lemma EventContent(e: ChainableEvent)
    requires Hashable(e)
    ensures Normalise(Obj(EventFields(e))).Obj? && EventMembers(e, Normalise(Obj(EventFields(e))).fields)
  {
    var at: seq<nat> := [2, 1, 3, 9, 8, 4, 7, 0, 5, 6];
    var keys := ["aggregateId", "aggregateName", "aggregateVersion", "causationId", "correlationId", "eventId", "payload", "tenantId", "type", "version"];
    hide *;
    EventOrder(e, at, keys);
    ContentOf(EventFields(e), at, keys);
    EventMembersAre(e, at, keys, Normalise(Obj(EventFields(e))).fields);
  }

  lemma EventOrder(e: ChainableEvent, at: seq<nat>, keys: seq<string>)
    requires Hashable(e) && at == [2, 1, 3, 9, 8, 4, 7, 0, 5, 6]
    requires keys == ["aggregateId", "aggregateName", "aggregateVersion", "causationId", "correlationId", "eventId", "payload", "tenantId", "type", "version"]
    ensures Distinct(KeysOf(EventFields(e))) && Sorted(keys) && |EventFields(e)| == |at| == |keys| == 10
    ensures forall j | 0 <= j < 10 :: at[j] < 10 && EventFields(e)[at[j]].value != Undefined && EventFields(e)[at[j]].key == keys[j]
    ensures forall i: nat | i < 10 :: i in at
  {
    hide *;
    EventFieldsDistinct(e);
    EventKeysAscend(keys);
    AllTen(at);
    EventFieldsAt(e);
    assert |keys| == 10 && |at| == 10;
    forall j | 0 <= j < 10 ensures at[j] < 10 && EventFields(e)[at[j]].key == keys[j] { }
  }

  lemma EventMembersAre(e: ChainableEvent, at: seq<nat>, keys: seq<string>, m: seq<Field>)
    requires Hashable(e) && at == [2, 1, 3, 9, 8, 4, 7, 0, 5, 6]
    requires keys == ["aggregateId", "aggregateName", "aggregateVersion", "causationId", "correlationId", "eventId", "payload", "tenantId", "type", "version"]
    requires |m| == |EventFields(e)| == 10 && forall j | 0 <= j < 10 :: at[j] < 10 && m[j] == Field(keys[j], Normalise(EventFields(e)[at[j]].value))
    ensures EventMembers(e, m)
  {
    hide *;
    EventFieldsAt(e);
    DecimalReadsBack(e.aggregateVersion);
    DecimalReadsBack(e.version);
    var fs := EventFields(e);
    forall i | 0 <= i < 10 && i != 7 ensures Normalise(fs[i].value) == fs[i].value { ContentOfScalar(fs[i].value); }
    assert m[0] == Field(keys[0], fs[2].value) && m[1] == Field(keys[1], fs[1].value) && m[2] == Field(keys[2], fs[3].value);
    assert m[3] == Field(keys[3], fs[9].value) && m[4] == Field(keys[4], fs[8].value) && m[5] == Field(keys[5], fs[4].value);
    assert m[7] == Field(keys[7], fs[0].value) && m[8] == Field(keys[8], fs[5].value) && m[9] == Field(keys[9], fs[6].value);
    FieldsAreMembers(e, m);
  }

  lemma FieldsAreMembers(e: ChainableEvent, m: seq<Field>)
    requires |m| == 10
    requires m[0] == Field("aggregateId", Str(e.aggregateId)) && m[1] == Field("aggregateName", Str(e.aggregateName))
    requires m[2] == Field("aggregateVersion", Num(Decimal(e.aggregateVersion))) && IntegerValue(Decimal(e.aggregateVersion)) == Some(e.aggregateVersion)
    requires m[3] == Field("causationId", OrNull(e.causationId)) && m[4] == Field("correlationId", OrNull(e.correlationId))
    requires m[5] == Field("eventId", Str(e.eventId)) && m[6] == Field("payload", Normalise(e.payload))
    requires m[7] == Field("tenantId", Str(e.tenantId)) && m[8] == Field("type", Str(e.eventType))
    requires m[9] == Field("version", Num(Decimal(e.version))) && IntegerValue(Decimal(e.version)) == Some(e.version)
    ensures EventMembers(e, m)
  {
    hide Normalise, Decimal, IntegerValue;
  }

  lemma AllTen(at: seq<nat>)
    requires at == [2, 1, 3, 9, 8, 4, 7, 0, 5, 6]
    ensures forall i: nat | i < 10 :: i in at
  {
    assert at[7] == 0 && at[1] == 1 && at[0] == 2 && at[2] == 3 && at[5] == 4 && at[8] == 5 && at[9] == 6 && at[6] == 7 && at[4] == 8 && at[3] == 9;
  }

  lemma EventFieldsAt(e: ChainableEvent)
    requires Hashable(e)
    ensures var fs := EventFields(e);
            |fs| == 10 && (forall i | 0 <= i < 10 :: fs[i].value != Undefined) &&
            (forall i | 0 <= i < 10 && i != 7 :: fs[i].value.Str? || fs[i].value.Num? || fs[i].value.Null?) &&
            fs[2] == Field("aggregateId", Str(e.aggregateId)) && fs[1] == Field("aggregateName", Str(e.aggregateName)) &&
            fs[3] == Field("aggregateVersion", Num(Decimal(e.aggregateVersion))) && fs[9] == Field("causationId", OrNull(e.causationId)) &&
            fs[8] == Field("correlationId", OrNull(e.correlationId)) && fs[4] == Field("eventId", Str(e.eventId)) &&
            fs[7] == Field("payload", e.payload) && fs[0] == Field("tenantId", Str(e.tenantId)) &&
            fs[5] == Field("type", Str(e.eventType)) && fs[6] == Field("version", Num(Decimal(e.version)))
  {
    hide Decimal;
  }

  lemma TagSays(tag: string, fields: seq<Field>, b: Bytes)
    requires (forall j | 0 <= j < |tag| :: tag[j] as int < 0x80) && Says(b, fields)
    ensures |Utf8(tag)| == |tag| && Decode((Utf8(tag) + b)[..|tag|]) == Some(tag) && Says((Utf8(tag) + b)[|tag|..], fields)
  {
    hide Decode, Utf8, Says;
    Utf8Decodes(tag);
    Utf8AsciiLength(tag);
    assert (Utf8(tag) + b)[..|tag|] == Utf8(tag) && (Utf8(tag) + b)[|tag|..] == b;
  }

  lemma TagsAreAscii()
    ensures |STREAM_GENESIS| == 29 && STREAM_GENESIS == "eventfabric:stream-genesis:v1"
    ensures |ANCHOR_GENESIS| == 29 && ANCHOR_GENESIS == "eventfabric:anchor-genesis:v1"
    ensures forall j | 0 <= j < 29 :: STREAM_GENESIS[j] as int < 0x80
    ensures forall j | 0 <= j < 29 :: ANCHOR_GENESIS[j] as int < 0x80
  {
  }

  /** The genesis of a stream covers its tag, and then the stream's identity. */
  lemma StreamGenesisSays(tenantId: string, aggregateName: string, aggregateId: string)
    ensures var b := StreamGenesisPreimage(tenantId, aggregateName, aggregateId);
            |b| >= 29 && Decode(b[..29]) == Some("eventfabric:stream-genesis:v1") &&
            Says(b[29..], [Field("aggregateId", Str(aggregateId)), Field("aggregateName", Str(aggregateName)), Field("tenantId", Str(tenantId))])
  {
    hide *;
    IdentitySays(tenantId, aggregateName, aggregateId);
    TagsAreAscii();
    IdentityFieldsPlain(tenantId, aggregateName, aggregateId);
    TagSays(STREAM_GENESIS, [Field("aggregateId", Str(aggregateId)), Field("aggregateName", Str(aggregateName)), Field("tenantId", Str(tenantId))],
            ObjectBytes(IdentityFields(tenantId, aggregateName, aggregateId)));
    StreamGenesisIs(tenantId, aggregateName, aggregateId);
  }

  lemma StreamGenesisIs(tenantId: string, aggregateName: string, aggregateId: string)
    requires Plain(IdentityFields(tenantId, aggregateName, aggregateId))
    ensures StreamGenesisPreimage(tenantId, aggregateName, aggregateId) ==
              Utf8(STREAM_GENESIS) + ObjectBytes(IdentityFields(tenantId, aggregateName, aggregateId))
  {
    hide Utf8, ObjectBytes, IdentityFields, STREAM_GENESIS;
  }

  lemma IdentitySays(tenantId: string, aggregateName: string, aggregateId: string)
    ensures Plain(IdentityFields(tenantId, aggregateName, aggregateId))
    ensures Says(ObjectBytes(IdentityFields(tenantId, aggregateName, aggregateId)),
                 [Field("aggregateId", Str(aggregateId)), Field("aggregateName", Str(aggregateName)), Field("tenantId", Str(tenantId))])
  {
    var fs := IdentityFields(tenantId, aggregateName, aggregateId);
    IdentityFieldsPlain(tenantId, aggregateName, aggregateId);
    AggregateKeysAscend();
    assert |fs| == 3 && fs[2].key == "aggregateId" && fs[1].key == "aggregateName" && fs[0].key == "tenantId";
    hide Plain, Less, ObjectBytes, Says;
    ThreeSay(fs, 2, 1, 0);
  }

  /** An object of three members, its i-th, j-th and k-th in the order of the keys. */
  lemma ThreeSay(fs: seq<Field>, i: nat, j: nat, k: nat)
    requires Plain(fs) && |fs| == 3 && i < 3 && j < 3 && k < 3 && i != j && j != k && k != i
    requires Less(fs[i].key, fs[j].key) && Less(fs[j].key, fs[k].key)
    ensures Says(ObjectBytes(fs), [fs[i], fs[j], fs[k]])
  {
    hide Says, ObjectBytes, Less, Normalise;
    var at, keys := [i, j, k], [fs[i].key, fs[j].key, fs[k].key];
    AscendingSorts(keys);
    assert at[0] == i && at[1] == j && at[2] == k;
    ContentOf(fs, at, keys);
    hide Sorted, KeysOf;
    PlainSays(fs);
    var m := Normalise(Obj(fs)).fields;
    forall j | 0 <= j < 3 ensures m[j] == fs[at[j]] { ContentOfScalar(fs[at[j]].value); }
    assert m == [m[0], m[1], m[2]];
  }

  lemma PlainSays(fields: seq<Field>)
    requires Plain(fields)
    ensures Normalise(Obj(fields)).Obj? && Says(ObjectBytes(fields), Normalise(Obj(fields)).fields)
  {
    hide Says, Normalise, Serialize, Utf8, Print, Normal;
    assert forall i | 0 <= i < |fields| :: Data(fields[i].value) && Chainable(fields[i].value);
    assert Data(Obj(fields));
    assert Chainable(Obj(fields));
    ObjectSays(fields);
  }

  /** The genesis of a tenant's anchors covers its tag, and then the tenant. */
  lemma AnchorGenesisSays(tenantId: string)
    ensures var b := AnchorGenesisPreimage(tenantId);
            |b| >= 29 && Decode(b[..29]) == Some("eventfabric:anchor-genesis:v1") && Says(b[29..], [Field("tenantId", Str(tenantId))])
  {
    hide Says, ObjectBytes, Utf8, Decode, ANCHOR_GENESIS, TenantFields, KeysOf;
    TenantSays(tenantId);
    TagsAreAscii();
    TagSays(ANCHOR_GENESIS, [Field("tenantId", Str(tenantId))], ObjectBytes(TenantFields(tenantId)));
    AnchorGenesisIs(tenantId);
  }

  lemma AnchorGenesisIs(tenantId: string)
    ensures AnchorGenesisPreimage(tenantId) == Utf8(ANCHOR_GENESIS) + ObjectBytes(TenantFields(tenantId))
  {
    hide Utf8, ObjectBytes, TenantFields, ANCHOR_GENESIS;
  }

  lemma TenantSays(tenantId: string)
    ensures Plain(TenantFields(tenantId))
    ensures Says(ObjectBytes(TenantFields(tenantId)), [Field("tenantId", Str(tenantId))])
  {
    hide Says, ObjectBytes, Less, Normalise;
    var fs, at, keys := TenantFields(tenantId), [0], ["tenantId"];
    assert at[0] == 0;
    ContentOf(fs, at, keys);
    PlainSays(fs);
    var m := Normalise(Obj(fs)).fields;
    ContentOfScalar(fs[0].value);
    assert m[0] == fs[at[0]];
    assert m == [m[0]];
  }

  /** Some bytes are the identity and version of an anchored stream, and then its head. */
  ghost predicate MemberSaid(b: Bytes, m: AnchorMember)
  {
    |b| >= 32 && b[|b| - 32..] == m.headHash &&
    exists version: Json :: Denotes(version, m.version) &&
      Says(b[..|b| - 32], [Field("aggregateId", Str(m.aggregateId)), Field("aggregateName", Str(m.aggregateName)), Field("version", version)])
  }

  lemma MemberSays(m: AnchorMember)
    ensures MemberSaid(MemberBytes(m), m)
  {
    MemberFieldsPlain(m);
    DecimalReadsBack(m.version);
    MemberIdentitySays(m);
    hide *;
    MemberParts(m);
    HeadedSays(MemberBytes(m), m, Num(Decimal(m.version)));
  }

  lemma MemberParts(m: AnchorMember)
    requires Plain(MemberFields(m))
    ensures var b := MemberBytes(m); |b| >= 32 && b[..|b| - 32] == ObjectBytes(MemberFields(m)) && b[|b| - 32..] == m.headHash
    ensures IntegerValue(Decimal(m.version)) == Some(m.version) ==> Denotes(Num(Decimal(m.version)), m.version)
  {
    hide ObjectBytes, MemberFields, Decimal, IntegerValue;
  }

  lemma MemberIdentitySays(m: AnchorMember)
    requires Plain(MemberFields(m))
    ensures Says(ObjectBytes(MemberFields(m)),
                 [Field("aggregateId", Str(m.aggregateId)), Field("aggregateName", Str(m.aggregateName)), Field("version", Num(Decimal(m.version)))])
  {
    var fs := MemberFields(m);
    AggregateKeysAscend();
    hide Plain, Less, ObjectBytes, Says, Decimal;
    assert |fs| == 3 && fs[1].key == "aggregateId" && fs[0].key == "aggregateName" && fs[2].key == "version";
    ThreeSay(fs, 1, 0, 2);
  }

  lemma HeadedSays(b: Bytes, m: AnchorMember, version: Json)
    requires |b| >= 32 && b[|b| - 32..] == m.headHash && Denotes(version, m.version)
    requires Says(b[..|b| - 32], [Field("aggregateId", Str(m.aggregateId)), Field("aggregateName", Str(m.aggregateName)), Field("version", version)])
    ensures MemberSaid(b, m)
  {
    hide Says, Denotes;
  }

  ghost predicate MembersSaid(b: Bytes, ms: seq<AnchorMember>)
  {
    if ms == [] then b == [] else exists n: nat :: n <= |b| && MemberSaid(b[..n], ms[0]) && MembersSaid(b[n..], ms[1..])
  }

  lemma {:induction false} MembersSay(ms: seq<AnchorMember>)
    ensures MembersSaid(MembersBytes(ms), ms)
  {
    hide MemberSaid, MemberBytes;
    if ms != [] {
      MemberSays(ms[0]);
      MembersSay(ms[1..]);
      var b, n := MembersBytes(ms), |MemberBytes(ms[0])|;
      assert b[..n] == MemberBytes(ms[0]) && b[n..] == MembersBytes(ms[1..]);
    }
  }

  /** An anchor covers the previous anchor's hash, and then of each member in order
      its identity and version, and its head. */
  lemma AnchorPreimageSays(prev: Digest, ms: seq<AnchorMember>)
    ensures AnchorPreimage(prev, ms)[..32] == prev && MembersSaid(AnchorPreimage(prev, ms)[32..], ms)
  {
    MembersSay(ms);
    assert AnchorPreimage(prev, ms)[32..] == MembersBytes(ms);
  }
}
