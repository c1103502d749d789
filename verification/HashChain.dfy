/** Preimages of the tamper-evident chain: events, stream and anchor genesis,
    anchors (packages/core/src/integrity/hash-chain.ts:68-159).

    HMAC-SHA256 under the store's secret (section 2 of RFC 2104) is a parameter
    `h`, any function from byte strings to 32-byte digests. */
module HashChain {
  import opened Wrappers
  import opened CanonicalJson

  type Byte = b: int | 0 <= b < 256
  type Bytes = seq<Byte>
  type Digest = d: Bytes | |d| == 32 witness seq(32, i => 0)
  type Hmac = Bytes -> Digest

  // ---------------------------------------------------------------------------
  // Code units: the key order and the byte encoding
  // ---------------------------------------------------------------------------

  function Utf16(s: string): seq<int>
  {
    if s == [] then [] else
    var u := s[0] as int;
    (if u < 0x10000 then [u] else [0xD800 + (u - 0x10000) / 0x400, 0xDC00 + (u - 0x10000) % 0x400]) + Utf16(s[1..])
  }

  predicate UnitsLess(a: seq<int>, b: seq<int>)
  {
    b != [] && (a == [] || a[0] < b[0] || (a[0] == b[0] && UnitsLess(a[1..], b[1..])))
  }

  /** The serializer's key order is the order of the keys' UTF-16 code units
      (RFC 8785 section 3.2.3). */
  lemma {:induction false} LessIsCodeUnitOrder(a: string, b: string)
    ensures Less(a, b) <==> UnitsLess(Utf16(a), Utf16(b))
  {
    if a != [] && b != [] {
      var p, q := Utf16(a), Utf16(b);
      var u, v := a[0] as int, b[0] as int;
      LessIsCodeUnitOrder(a[1..], b[1..]);
      assert u < 0x10000 ==> p[1..] == Utf16(a[1..]);
      assert v < 0x10000 ==> q[1..] == Utf16(b[1..]);
      assert u >= 0x10000 ==> p[1..][1..] == Utf16(a[1..]) && p[1] == 0xDC00 + (u - 0x10000) % 0x400;
      assert v >= 0x10000 ==> q[1..][1..] == Utf16(b[1..]) && q[1] == 0xDC00 + (v - 0x10000) % 0x400;
    }
  }

  function Utf8Char(c: char): (r: Bytes)
    ensures 1 <= |r| <= 4
  {
    var u := c as int;
    if u < 0x80 then [u]
    else if u < 0x800 then [0xC0 + u / 0x40, 0x80 + u % 0x40]
    else if u < 0x10000 then [0xE0 + u / 0x40 / 0x40, 0x80 + u / 0x40 % 0x40, 0x80 + u % 0x40]
    else [0xF0 + u / 0x40 / 0x40 / 0x40, 0x80 + u / 0x40 / 0x40 % 0x40, 0x80 + u / 0x40 % 0x40, 0x80 + u % 0x40]
  }

  /** Buffer.from(s, "utf8") */
  function Utf8(s: string): Bytes
  {
    if s == [] then [] else Utf8Char(s[0]) + Utf8(s[1..])
  }

  lemma Utf8CharReadable(a: char, b: char, x: Bytes, y: Bytes)
    requires Utf8Char(a) + x == Utf8Char(b) + y
    ensures a == b && x == y
  {
    var p, q := Utf8Char(a), Utf8Char(b);
    assert p[0] == (p + x)[0] == (q + y)[0] == q[0];
    assert |p| == |q|;
    assert p == (p + x)[..|p|] == (q + y)[..|q|] == q;
    assert x == (p + x)[|p|..] && y == (q + y)[|q|..];
    Utf8CharInjective(a, b);
  }

  lemma Utf8CharInjective(a: char, b: char)
    requires Utf8Char(a) == Utf8Char(b)
    ensures a == b
  {
    var p, q := Utf8Char(a), Utf8Char(b);
    var u, v := a as int, b as int;
    assert |p| == |q| && p[0] == q[0];
    if |p| > 1 {
      assert p[1] == q[1] && p[|p| - 1] == q[|q| - 1];
      assert u % 0x40 == v % 0x40;
    }
    if |p| > 2 {
      assert p[|p| - 2] == q[|q| - 2];
      assert u / 0x40 % 0x40 == v / 0x40 % 0x40;
    }
    if |p| > 3 { assert u / 0x40 / 0x40 % 0x40 == v / 0x40 / 0x40 % 0x40; }
    assert u == v;
  }

  /** Of two texts encoded at the start of one byte string, one starts the other. */
  lemma Utf8Step(a: string, x: Bytes)
    requires a != []
    ensures Utf8(a) + x == Utf8Char(a[0]) + (Utf8(a[1..]) + x)
  {
    hide Utf8Char;
  }

  lemma {:induction false} Utf8Readable(a: string, b: string, x: Bytes, y: Bytes)
    requires |a| <= |b| && Utf8(a) + x == Utf8(b) + y
    ensures b[..|a|] == a && x == Utf8(b[|a|..]) + y
  {
    if a != [] {
      var x', y' := Utf8(a[1..]) + x, Utf8(b[1..]) + y;
      Utf8Step(a, x);
      Utf8Step(b, y);
      Utf8CharReadable(a[0], b[0], x', y');
      Utf8Readable(a[1..], b[1..], x, y);
      assert b[1..][|a| - 1..] == b[|a|..];
      assert b[..|a|] == [b[0]] + b[1..][..|a| - 1] && a == [a[0]] + a[1..];
    } else {
      assert b[|a|..] == b;
    }
  }

  /** The printed bytes of an object end where they end: two objects printed at
      the start of one byte string are the same object, with the same rest. */
  lemma ObjectBytesReadable(a: Json, b: Json, x: Bytes, y: Bytes)
    requires Normal(a) && Normal(b) && a.Obj? && b.Obj?
    requires Utf8(Print(a)) + x == Utf8(Print(b)) + y
    ensures a == b && x == y
  {
    var s, t := Print(a), Print(b);
    if |s| <= |t| {
      ObjectTextReadable(a, b, x, y);
    } else {
      ObjectTextReadable(b, a, y, x);
    }
  }

  lemma ObjectTextReadable(a: Json, b: Json, x: Bytes, y: Bytes)
    requires Normal(a) && Normal(b) && a.Obj? && b.Obj? && |Print(a)| <= |Print(b)|
    requires Utf8(Print(a)) + x == Utf8(Print(b)) + y
    ensures a == b && x == y
  {
    var s, t := Print(a), Print(b);
    Utf8Readable(s, t, x, y);
    var z := t[|s|..];
    assert s + z == t + "";
    UniqueReadability(a, b, z, "");
    assert Utf8(z) + y == y;
  }

  lemma {:induction false} Utf8Ascii(s: string, i: nat)
    requires i < |s| && forall j | 0 <= j <= i :: s[j] as int < 0x80
    ensures |Utf8(s)| > i && Utf8(s)[i] == s[i] as int
  {
    if i > 0 { Utf8Ascii(s[1..], i - 1); }
  }

  lemma {:induction false} Utf8AsciiLength(s: string)
    requires forall j | 0 <= j < |s| :: s[j] as int < 0x80
    ensures |Utf8(s)| == |s|
  {
    if s != [] { Utf8AsciiLength(s[1..]); }
  }

  // ---------------------------------------------------------------------------
  // The hashed records
  // ---------------------------------------------------------------------------

  datatype ChainableEvent = ChainableEvent(
    tenantId: string, aggregateName: string, aggregateId: string, aggregateVersion: int,
    eventId: string, eventType: string, version: int, payload: Json,
    correlationId: Option<string>, causationId: Option<string>)

  function OrNull(s: Option<string>): Json { if s.Some? then Str(s.value) else Null }

  function EventFields(e: ChainableEvent): seq<Field>
  {
    [ Field("tenantId", Str(e.tenantId)), Field("aggregateName", Str(e.aggregateName)),
      Field("aggregateId", Str(e.aggregateId)), Field("aggregateVersion", Num(Decimal(e.aggregateVersion))),
      Field("eventId", Str(e.eventId)), Field("type", Str(e.eventType)), Field("version", Num(Decimal(e.version))),
      Field("payload", e.payload), Field("correlationId", OrNull(e.correlationId)),
      Field("causationId", OrNull(e.causationId)) ]
  }

  /** An event whose payload the serializer accepts. */
  predicate Hashable(e: ChainableEvent) { Data(e.payload) && Chainable(e.payload) }

  lemma EventFieldsDistinct(e: ChainableEvent)
    ensures Distinct(KeysOf(EventFields(e)))
  {
    var ks := ["tenantId", "aggregateName", "aggregateId", "aggregateVersion", "eventId", "type", "version", "payload",
               "correlationId", "causationId"];
    assert KeysOf(EventFields(e)) == ks;
    LiteralKeysDistinct();
  }

  lemma LiteralKeysDistinct()
    ensures Distinct(["tenantId", "aggregateName", "aggregateId", "aggregateVersion", "eventId", "type", "version", "payload",
                      "correlationId", "causationId"])
  {
    var ks := ["tenantId", "aggregateName", "aggregateId", "aggregateVersion", "eventId", "type", "version", "payload",
               "correlationId", "causationId"];
    assert |ks[0]| == 8 && |ks[1]| == 13 && |ks[2]| == 11 && |ks[3]| == 16 && |ks[4]| == 7;
    assert |ks[5]| == 4 && |ks[6]| == 7 && |ks[7]| == 7 && |ks[8]| == 13 && |ks[9]| == 11;
    assert ks[1][0] == 'a' && ks[8][0] == 'c' && ks[2][0] == 'a' && ks[9][0] == 'c';
    assert ks[4][0] == 'e' && ks[6][0] == 'v' && ks[7][0] == 'p';
  }

  lemma EventFieldsData(e: ChainableEvent)
    requires Data(e.payload)
    ensures Data(Obj(EventFields(e)))
    ensures Chainable(Obj(EventFields(e))) <==> e.payload == Undefined || Chainable(e.payload)
  {
    EventFieldsDistinct(e);
    var fs := EventFields(e);
    assert fs[7].value == e.payload;
  }

  /** canonicalJson of the hashed event, as bytes. */
  function EventBytes(e: ChainableEvent): (r: Bytes)
    requires Hashable(e)
    ensures Serialize(Obj(EventFields(e))).Some? && r == Utf8(Serialize(Obj(EventFields(e))).value)
    ensures Normal(Normalise(Obj(EventFields(e)))) && r == Utf8(Print(Normalise(Obj(EventFields(e)))))
  {
    EventFieldsData(e);
    SerializeMeaning(Obj(EventFields(e)));
    Utf8(Serialize(Obj(EventFields(e))).value)
  }

  function EventPreimage(prev: Digest, e: ChainableEvent): Bytes
    requires Hashable(e)
  {
    prev + EventBytes(e)
  }

  /** computeEventHash; None is the serializer's error. */
  function ComputeEventHash(h: Hmac, prev: Digest, e: ChainableEvent): (r: Option<Digest>)
    requires Data(e.payload)
    ensures e.payload != Undefined ==> (r.Some? <==> Hashable(e))
    ensures Hashable(e) ==> r == Some(h(EventPreimage(prev, e)))
  {
    var text := Serialize(Obj(EventFields(e)));
    EventFieldsData(e);
    SerializeMeaning(Obj(EventFields(e)));
    if text.None? then None else Some(h(prev + Utf8(text.value)))
  }

  function IdentityFields(tenantId: string, aggregateName: string, aggregateId: string): seq<Field>
  {
    [Field("tenantId", Str(tenantId)), Field("aggregateName", Str(aggregateName)), Field("aggregateId", Str(aggregateId))]
  }

  const STREAM_GENESIS: string := "eventfabric:stream-genesis:v1"
  const ANCHOR_GENESIS: string := "eventfabric:anchor-genesis:v1"

  /** canonicalJson of an object of strings and numbers, as bytes. */
  function ObjectBytes(fields: seq<Field>): (r: Bytes)
    requires Distinct(KeysOf(fields)) && forall i | 0 <= i < |fields| :: fields[i].value.Str? || (fields[i].value.Num? && IsNumberText(fields[i].value.digits))
    ensures Serialize(Obj(fields)).Some? && r == Utf8(Serialize(Obj(fields)).value)
    ensures Normal(Normalise(Obj(fields))) && r == Utf8(Print(Normalise(Obj(fields))))
  {
    assert Data(Obj(fields)) && Chainable(Obj(fields));
    SerializeMeaning(Obj(fields));
    Utf8(Serialize(Obj(fields)).value)
  }

  predicate Plain(fields: seq<Field>)
  {
    Distinct(KeysOf(fields)) &&
    forall i | 0 <= i < |fields| :: fields[i].value.Str? || (fields[i].value.Num? && IsNumberText(fields[i].value.digits))
  }

  lemma IdentityFieldsPlain(tenantId: string, aggregateName: string, aggregateId: string)
    ensures Plain(IdentityFields(tenantId, aggregateName, aggregateId))
  {
    var fs := IdentityFields(tenantId, aggregateName, aggregateId);
    var ks := ["tenantId", "aggregateName", "aggregateId"];
    assert KeysOf(fs) == ks;
    assert |ks[0]| == 8 && |ks[1]| == 13 && |ks[2]| == 11;
  }

  function StreamGenesisPreimage(tenantId: string, aggregateName: string, aggregateId: string): Bytes
  {
    IdentityFieldsPlain(tenantId, aggregateName, aggregateId);
    Utf8(STREAM_GENESIS) + ObjectBytes(IdentityFields(tenantId, aggregateName, aggregateId))
  }

  /** streamGenesis */
  function StreamGenesis(h: Hmac, tenantId: string, aggregateName: string, aggregateId: string): Digest
  {
    h(StreamGenesisPreimage(tenantId, aggregateName, aggregateId))
  }

  function TenantFields(tenantId: string): (r: seq<Field>)
    ensures Plain(r)
  {
    [Field("tenantId", Str(tenantId))]
  }

  function AnchorGenesisPreimage(tenantId: string): Bytes
  {
    Utf8(ANCHOR_GENESIS) + ObjectBytes(TenantFields(tenantId))
  }

  datatype AnchorMember = AnchorMember(aggregateName: string, aggregateId: string, version: int, headHash: Digest)

  function MemberFields(m: AnchorMember): seq<Field>
  {
    [Field("aggregateName", Str(m.aggregateName)), Field("aggregateId", Str(m.aggregateId)),
     Field("version", Num(Decimal(m.version)))]
  }

  lemma MemberFieldsPlain(m: AnchorMember)
    ensures Plain(MemberFields(m))
  {
    var ks := ["aggregateName", "aggregateId", "version"];
    assert KeysOf(MemberFields(m)) == ks;
    assert |ks[0]| == 13 && |ks[1]| == 11 && |ks[2]| == 7;
  }

  function MemberBytes(m: AnchorMember): Bytes
  {
    MemberFieldsPlain(m);
    ObjectBytes(MemberFields(m)) + m.headHash
  }

  function MembersBytes(ms: seq<AnchorMember>): Bytes
  {
    if ms == [] then [] else MemberBytes(ms[0]) + MembersBytes(ms[1..])
  }

  function AnchorPreimage(prev: Digest, ms: seq<AnchorMember>): Bytes { prev + MembersBytes(ms) }

  lemma {:induction false} MembersBytesSnoc(ms: seq<AnchorMember>, m: AnchorMember)
    ensures MembersBytes(ms + [m]) == MembersBytes(ms) + MemberBytes(m)
  {
    if ms == [] {
      assert MembersBytes([m]) == MemberBytes(m) + MembersBytes([]);
    } else {
      assert (ms + [m])[1..] == ms[1..] + [m];
      MembersBytesSnoc(ms[1..], m);
    }
  }

  /** computeAnchorHash: the HMAC accumulator fed member by member. */
  method ComputeAnchorHash(h: Hmac, prev: Digest, members: seq<AnchorMember>) returns (digest: Digest)
    ensures digest == h(AnchorPreimage(prev, members))
  {
    hide Serialize, Print, Normalise, Normal, Utf8;
    var fed: Bytes := prev;
    for i := 0 to |members|
      invariant fed == AnchorPreimage(prev, members[..i])
    {
      var m := members[i];
      MemberFieldsPlain(m);
      fed := fed + ObjectBytes(MemberFields(m));
      fed := fed + m.headHash;
      assert members[..i + 1] == members[..i] + [m];
      MembersBytesSnoc(members[..i], m);
    }
    assert members[..|members|] == members;
    digest := h(fed);
  }

  /** hashesEqual: a missing digest equals nothing. */
  predicate HashesEqual(a: Option<Digest>, b: Option<Digest>) { a.Some? && b.Some? && a.value == b.value }

  lemma HashesEqualMeans(a: Option<Digest>, b: Option<Digest>)
    ensures HashesEqual(a, b) <==> exists d: Digest :: a == Some(d) && b == Some(d)
  {
    if HashesEqual(a, b) { assert a == Some(a.value) && b == Some(a.value); }
  }

  // ---------------------------------------------------------------------------
  // Injectivity of each preimage
  // ---------------------------------------------------------------------------

  /** Equal in everything the event hash covers. */
  predicate SameEvent(e: ChainableEvent, f: ChainableEvent)
  {
    e.(payload := Null) == f.(payload := Null) && Normalise(e.payload) == Normalise(f.payload)
  }

  /** An event preimage determines the previous hash and every covered field. */
  lemma EventPreimageInjective(p: Digest, e: ChainableEvent, q: Digest, f: ChainableEvent)
    requires Hashable(e) && Hashable(f)
    ensures EventPreimage(p, e) == EventPreimage(q, f) <==> p == q && SameEvent(e, f)
  {
    if EventPreimage(p, e) == EventPreimage(q, f) {
      assert p == EventPreimage(p, e)[..32] && q == EventPreimage(q, f)[..32];
      assert EventBytes(e) == EventPreimage(p, e)[32..] && EventBytes(f) == EventPreimage(q, f)[32..];
      EventBytesInjective(e, f);
    }
    if p == q && SameEvent(e, f) { SameEventBytes(e, f); }
  }

  lemma EventBytesInjective(e: ChainableEvent, f: ChainableEvent)
    requires Hashable(e) && Hashable(f) && EventBytes(e) == EventBytes(f)
    ensures SameEvent(e, f)
  {
    var a, b := Normalise(Obj(EventFields(e))), Normalise(Obj(EventFields(f)));
    assert Utf8(Print(a)) + [] == Utf8(Print(b)) + [];
    ObjectBytesReadable(a, b, [], []);
    EventFieldsDistinct(e);
    EventFieldsDistinct(f);
    forall i | 0 <= i < 10 ensures Normalise(EventFields(e)[i].value) == Normalise(EventFields(f)[i].value) {
      EventFieldAgrees(e, f, i);
    }
    EventFieldsAgree(e, f);
  }

  lemma EventFieldAgrees(e: ChainableEvent, f: ChainableEvent, i: nat)
    requires Hashable(e) && Hashable(f) && Normalise(Obj(EventFields(e))) == Normalise(Obj(EventFields(f))) && i < 10
    ensures Normalise(EventFields(e)[i].value) == Normalise(EventFields(f)[i].value)
  {
    hide *;
    EventFieldsDistinct(e);
    SameEventKeys(e, f);
    EventFieldDefined(e, i);
    FieldAgrees(EventFields(e), EventFields(f), i);
  }

  lemma SameEventKeys(e: ChainableEvent, f: ChainableEvent)
    ensures |EventFields(e)| == |EventFields(f)| == 10 && KeysOf(EventFields(e)) == KeysOf(EventFields(f))
  {
  }

  lemma FieldAgrees(a: seq<Field>, b: seq<Field>, i: nat)
    requires KeysOf(a) == KeysOf(b) && Distinct(KeysOf(a)) && i < |a| && i < |b|
    requires Normalise(Obj(a)) == Normalise(Obj(b)) && a[i].value != Undefined
    ensures Normalise(a[i].value) == Normalise(b[i].value)
  {
    assert KeysOf(a)[i] == a[i].key && KeysOf(b)[i] == b[i].key;
    hide Normalise;
    IndexOfDistinct(a, i);
    IndexOfDistinct(b, i);
    SameLogicalField(a, b, a[i].key);
  }

  lemma EventFieldDefined(e: ChainableEvent, i: nat)
    requires Hashable(e) && i < 10
    ensures EventFields(e)[i].value != Undefined
  {
  }

  lemma EventFieldsAgree(e: ChainableEvent, f: ChainableEvent)
    requires forall i | 0 <= i < 10 :: Normalise(EventFields(e)[i].value) == Normalise(EventFields(f)[i].value)
    ensures SameEvent(e, f)
  {
    var a, b := EventFields(e), EventFields(f);
    assert Normalise(a[0].value) == Normalise(b[0].value) && Normalise(a[1].value) == Normalise(b[1].value);
    assert Normalise(a[2].value) == Normalise(b[2].value) && Normalise(a[3].value) == Normalise(b[3].value);
    assert Normalise(a[4].value) == Normalise(b[4].value) && Normalise(a[5].value) == Normalise(b[5].value);
    assert Normalise(a[6].value) == Normalise(b[6].value) && Normalise(a[7].value) == Normalise(b[7].value);
    assert Normalise(a[8].value) == Normalise(b[8].value) && Normalise(a[9].value) == Normalise(b[9].value);
    DecimalInjective(e.aggregateVersion, f.aggregateVersion);
    DecimalInjective(e.version, f.version);
  }

  lemma SameEventBytes(e: ChainableEvent, f: ChainableEvent)
    requires Hashable(e) && Hashable(f) && SameEvent(e, f)
    ensures EventBytes(e) == EventBytes(f)
  {
    var a, b := EventFields(e), EventFields(f);
    EventFieldsDistinct(e);
    EventFieldsDistinct(f);
    assert KeysOf(a) == KeysOf(b);
    forall i | 0 <= i < 10 ensures Normalise(a[i].value) == Normalise(b[i].value) && a[i].value != Undefined && b[i].value != Undefined { }
    SameFieldsNormalise(a, b);
  }

  lemma SameFieldsNormalise(a: seq<Field>, b: seq<Field>)
    requires Distinct(KeysOf(a)) && KeysOf(a) == KeysOf(b)
    requires forall i | 0 <= i < |a| :: Normalise(a[i].value) == Normalise(b[i].value) && a[i].value != Undefined && b[i].value != Undefined
    ensures Normalise(Obj(a)) == Normalise(Obj(b))
  {
    forall k ensures HasKey(a, k) <==> HasKey(b, k) {
      assert forall i | 0 <= i < |a| :: a[i].key == KeysOf(a)[i] == KeysOf(b)[i] == b[i].key;
    }
    forall k | HasKey(a, k) ensures IndexOf(a, k) == IndexOf(b, k) {
      var i := IndexOf(a, k);
      assert b[i].key == KeysOf(b)[i] == KeysOf(a)[i] == k;
      IndexOfDistinct(b, i);
    }
    forall k ensures Live(a, k) <==> Live(b, k) { }
    SameKeys(a, b);
    NormaliseMembersSame(a, b, PrintedKeys(a));
  }

  /** The logical value of a plain object determines each of its fields. */
  lemma PlainFieldAgrees(a: seq<Field>, b: seq<Field>, i: nat)
    requires Plain(a) && Plain(b) && i < |a| && i < |b| && a[i].key == b[i].key
    requires Normalise(Obj(a)) == Normalise(Obj(b))
    ensures a[i].value == b[i].value
  {
    IndexOfDistinct(a, i);
    IndexOfDistinct(b, i);
    SameLogicalField(a, b, a[i].key);
  }

  lemma PlainBytesReadable(a: seq<Field>, b: seq<Field>, x: Bytes, y: Bytes)
    requires Plain(a) && Plain(b) && ObjectBytes(a) + x == ObjectBytes(b) + y
    ensures Normalise(Obj(a)) == Normalise(Obj(b)) && x == y
  {
    ObjectBytesReadable(Normalise(Obj(a)), Normalise(Obj(b)), x, y);
  }

  lemma GenesisLengths()
    ensures |Utf8(STREAM_GENESIS)| == 29 && |Utf8(ANCHOR_GENESIS)| == 29
    ensures Utf8(STREAM_GENESIS)[12] == 's' as int && Utf8(ANCHOR_GENESIS)[12] == 'a' as int
  {
    hide Utf8, Utf8Char;
    Utf8AsciiLength(STREAM_GENESIS);
    Utf8AsciiLength(ANCHOR_GENESIS);
    Utf8Ascii(STREAM_GENESIS, 12);
    Utf8Ascii(ANCHOR_GENESIS, 12);
  }

  /** A stream genesis preimage determines the stream. */
  lemma StreamGenesisInjective(t: string, n: string, i: string, t': string, n': string, i': string)
    requires StreamGenesisPreimage(t, n, i) == StreamGenesisPreimage(t', n', i')
    ensures t == t' && n == n' && i == i'
  {
    hide ObjectBytes, Normalise, Plain, IdentityFields;
    IdentityFieldsPlain(t, n, i);
    IdentityFieldsPlain(t', n', i');
    var a, b := IdentityFields(t, n, i), IdentityFields(t', n', i');
    PrefixedSame(Utf8(STREAM_GENESIS), ObjectBytes(a), ObjectBytes(b));
    hide Utf8, StreamGenesisPreimage;
    PlainBytesReadable(a, b, [], []);
    IdentityFieldsAgree(t, n, i, t', n', i');
  }

  lemma PrefixedSame(g: Bytes, x: Bytes, y: Bytes)
    requires g + x == g + y
    ensures x + [] == y + []
  {
    assert x == (g + x)[|g|..] && y == (g + y)[|g|..];
  }

  lemma IdentityFieldsAgree(t: string, n: string, i: string, t': string, n': string, i': string)
    requires Plain(IdentityFields(t, n, i)) && Plain(IdentityFields(t', n', i'))
    requires Normalise(Obj(IdentityFields(t, n, i))) == Normalise(Obj(IdentityFields(t', n', i')))
    ensures t == t' && n == n' && i == i'
  {
    hide Normalise, Plain;
    var a, b := IdentityFields(t, n, i), IdentityFields(t', n', i');
    PlainFieldAgrees(a, b, 0);
    PlainFieldAgrees(a, b, 1);
    PlainFieldAgrees(a, b, 2);
  }

  /** An anchor genesis preimage determines the tenant. */
  lemma AnchorGenesisInjective(t: string, t': string)
    requires AnchorGenesisPreimage(t) == AnchorGenesisPreimage(t')
    ensures t == t'
  {
    var a, b := TenantFields(t), TenantFields(t');
    var g := Utf8(ANCHOR_GENESIS);
    assert ObjectBytes(a) == AnchorGenesisPreimage(t)[|g|..];
    assert ObjectBytes(b) == AnchorGenesisPreimage(t')[|g|..];
    assert ObjectBytes(a) + [] == ObjectBytes(b) + [];
    PlainBytesReadable(a, b, [], []);
    PlainFieldAgrees(a, b, 0);
  }

  /** The concatenation of member objects and 32-byte heads decodes uniquely. */
  lemma {:induction false} MembersReadableBytes(a: seq<AnchorMember>, b: seq<AnchorMember>)
    requires MembersBytes(a) == MembersBytes(b)
    ensures a == b
  {
    assert a != [] ==> |MemberBytes(a[0])| > 0;
    assert b != [] ==> |MemberBytes(b[0])| > 0;
    if a != [] {
      assert b != [];
      MemberBytesReadable(a[0], b[0], MembersBytes(a[1..]), MembersBytes(b[1..]));
      MembersReadableBytes(a[1..], b[1..]);
      assert a == [a[0]] + a[1..] && b == [b[0]] + b[1..];
    }
  }

  lemma MemberBytesReadable(a: AnchorMember, b: AnchorMember, x: Bytes, y: Bytes)
    requires MemberBytes(a) + x == MemberBytes(b) + y
    ensures a == b && x == y
  {
    var u, v := a.headHash + x, b.headHash + y;
    MemberFieldsPlain(a);
    MemberFieldsPlain(b);
    var p, q := ObjectBytes(MemberFields(a)), ObjectBytes(MemberFields(b));
    assert MemberBytes(a) + x == p + u && MemberBytes(b) + y == q + v;
    PlainBytesReadable(MemberFields(a), MemberFields(b), u, v);
    PlainFieldAgrees(MemberFields(a), MemberFields(b), 0);
    PlainFieldAgrees(MemberFields(a), MemberFields(b), 1);
    PlainFieldAgrees(MemberFields(a), MemberFields(b), 2);
    DecimalInjective(a.version, b.version);
    assert a.headHash == u[..32] && b.headHash == v[..32] && x == u[32..] && y == v[32..];
  }

  /** An anchor preimage determines the previous anchor and every member. */
  lemma AnchorPreimageInjective(p: Digest, a: seq<AnchorMember>, q: Digest, b: seq<AnchorMember>)
    requires AnchorPreimage(p, a) == AnchorPreimage(q, b)
    ensures p == q && a == b
  {
    assert p == AnchorPreimage(p, a)[..32] && q == AnchorPreimage(q, b)[..32];
    assert MembersBytes(a) == AnchorPreimage(p, a)[32..] && MembersBytes(b) == AnchorPreimage(q, b)[32..];
    MembersReadableBytes(a, b);
  }

  // ---------------------------------------------------------------------------
  // Domain separation
  // ---------------------------------------------------------------------------

  /** A key that prints as itself and cannot be mistaken for an object start. */
  predicate SimpleKey(k: string)
  {
    |k| >= 2 && 'a' <= k[0] <= 'z' && 'a' <= k[1] <= 'z'
  }

  /** The fourth byte of a printed object is the second letter of its first key. */
  lemma FourthByte(fields: seq<Field>)
    requires Plain(fields) && fields != [] && forall i | 0 <= i < |fields| :: SimpleKey(fields[i].key)
    ensures |ObjectBytes(fields)| > 3 && 'a' as int <= ObjectBytes(fields)[3] <= 'z' as int
  {
    var bytes := ObjectBytes(fields);
    var ms := NormaliseMembers(fields, PrintedKeys(fields));
    FirstPrintedKey(fields);
    hide Serialize, Chainable, Data, PrintedKeys, NormaliseMembers, Utf8, ObjectBytes;
    PrintStart(ms, ms[0].key);
    FourthChar(Print(Obj(ms)), ms[0].key);
    Utf8Ascii(Print(Obj(ms)), 3);
  }

  lemma FourthChar(text: string, k: string)
    requires SimpleKey(k)
    requires |text| > 3 && text[..4] == ['{', '"', k[0], k[1]]
    ensures text[3] == k[1] && forall j | 0 <= j <= 3 :: text[j] as int < 0x80
  {
    assert text[0] == text[..4][0] && text[1] == text[..4][1] && text[2] == text[..4][2] && text[3] == text[..4][3];
  }

  lemma FirstPrintedKey(fields: seq<Field>)
    requires Plain(fields) && fields != [] && forall i | 0 <= i < |fields| :: SimpleKey(fields[i].key)
    ensures NormaliseMembers(fields, PrintedKeys(fields)) != []
    ensures SimpleKey(NormaliseMembers(fields, PrintedKeys(fields))[0].key)
  {
    PrintedKeysMeaning(fields);
    IndexOfDistinct(fields, 0);
    assert Live(fields, fields[0].key);
    var ks := PrintedKeys(fields);
    assert fields[0].key in ks;
    assert HasKey(fields, ks[0]);
    assert SimpleKey(fields[IndexOf(fields, ks[0])].key);
    assert KeysOf(NormaliseMembers(fields, ks))[0] == ks[0];
  }

  lemma PrintStart(ms: seq<Field>, k: string)
    requires ms != [] && Normal(Obj(ms)) && ms[0].key == k && SimpleKey(k)
    ensures |Print(Obj(ms))| > 3 && Print(Obj(ms))[..4] == ['{', '"', k[0], k[1]]
  {
    var text := Print(Obj(ms));
    QuoteStart(k);
    var q := Quote(k);
    assert PrintMember(ms[0])[..3] == q[..3];
    assert PrintMembers(ms)[..3] == PrintMember(ms[0])[..3];
    assert text[1..4] == PrintMembers(ms)[..3];
    assert text[0] == '{';
  }

  lemma QuoteStart(k: string)
    requires SimpleKey(k)
    ensures |Quote(k)| > 3 && Quote(k)[..3] == ['"', k[0], k[1]]
  {
    assert EscapeChar(k[0]) == [k[0]] && EscapeChar(k[1]) == [k[1]];
    assert Escape(k) == [k[0]] + Escape(k[1..]);
    assert k[1..][0] == k[1];
    assert Escape(k[1..]) == [k[1]] + Escape(k[1..][1..]);
  }

  /** An event or an anchor preimage has an object or nothing after its first 32 bytes. */
  lemma ChainedStart(prev: Digest, e: ChainableEvent, ms: seq<AnchorMember>)
    requires Hashable(e)
    ensures |EventPreimage(prev, e)| > 32 && EventPreimage(prev, e)[32] == '{' as int
    ensures ms == [] ==> |AnchorPreimage(prev, ms)| == 32
    ensures ms != [] ==> |AnchorPreimage(prev, ms)| > 32 && AnchorPreimage(prev, ms)[32] == '{' as int
  {
    EventStart(prev, e);
    if ms != [] { AnchorStart(prev, ms); }
  }

  lemma EventStart(prev: Digest, e: ChainableEvent)
    requires Hashable(e)
    ensures |EventPreimage(prev, e)| > 32 && EventPreimage(prev, e)[32] == '{' as int
  {
    var bytes := EventBytes(e);
    ObjectStart(Normalise(Obj(EventFields(e))));
    hide EventBytes, Serialize, Print, Normalise, Normal, EventFields;
    assert (prev + bytes)[32] == bytes[0];
  }

  lemma AnchorStart(prev: Digest, ms: seq<AnchorMember>)
    requires ms != []
    ensures |AnchorPreimage(prev, ms)| > 32 && AnchorPreimage(prev, ms)[32] == '{' as int
  {
    MemberFieldsPlain(ms[0]);
    var first := ObjectBytes(MemberFields(ms[0]));
    ObjectStart(Normalise(Obj(MemberFields(ms[0]))));
    hide ObjectBytes, Serialize, Print, Normalise, Normal, MemberFields;
    assert MembersBytes(ms)[0] == first[0];
    assert (prev + MembersBytes(ms))[32] == MembersBytes(ms)[0];
  }

  lemma ObjectStart(v: Json)
    requires Normal(v) && v.Obj?
    ensures Utf8(Print(v)) != [] && Utf8(Print(v))[0] == '{' as int
  {
    assert Print(v)[0] == '{';
    Utf8Ascii(Print(v), 0);
  }

  lemma GenesisStart(t: string, n: string, i: string)
    ensures |StreamGenesisPreimage(t, n, i)| > 32 && StreamGenesisPreimage(t, n, i)[32] != '{' as int
    ensures |AnchorGenesisPreimage(t)| > 32 && AnchorGenesisPreimage(t)[32] != '{' as int
  {
    hide Utf8, ObjectBytes, Serialize, Print, Normalise, Normal;
    GenesisLengths();
    IdentityFieldsPlain(t, n, i);
    IdentityKeysSimple(t, n, i);
    PrefixedStart(Utf8(STREAM_GENESIS), IdentityFields(t, n, i));
    PrefixedStart(Utf8(ANCHOR_GENESIS), TenantFields(t));
  }

  lemma PrefixedStart(g: Bytes, fields: seq<Field>)
    requires |g| == 29
    requires Plain(fields) && fields != [] && forall i | 0 <= i < |fields| :: SimpleKey(fields[i].key)
    ensures |g + ObjectBytes(fields)| > 32 && (g + ObjectBytes(fields))[32] != '{' as int
  {
    FourthByte(fields);
  }

  lemma IdentityKeysSimple(t: string, n: string, i: string)
    ensures forall j | 0 <= j < 3 :: SimpleKey(IdentityFields(t, n, i)[j].key)
    ensures SimpleKey(TenantFields(t)[0].key)
  {
  }

  /** The four kinds of preimage never coincide. */
  lemma PreimagesDisjoint(prev: Digest, e: ChainableEvent, t: string, n: string, i: string, u: string, p: Digest, ms: seq<AnchorMember>)
    requires Hashable(e)
    ensures EventPreimage(prev, e) != StreamGenesisPreimage(t, n, i)
    ensures EventPreimage(prev, e) != AnchorGenesisPreimage(u)
    ensures EventPreimage(prev, e) != AnchorPreimage(p, ms)
    ensures StreamGenesisPreimage(t, n, i) != AnchorGenesisPreimage(u)
    ensures StreamGenesisPreimage(t, n, i) != AnchorPreimage(p, ms)
    ensures AnchorGenesisPreimage(u) != AnchorPreimage(p, ms)
  {
    ChainedStart(prev, e, ms);
    ChainedStart(p, e, ms);
    GenesisStart(t, n, i);
    GenesisStart(u, n, i);
    GenesisLengths();
    assert StreamGenesisPreimage(t, n, i)[12] == Utf8(STREAM_GENESIS)[12];
    assert AnchorGenesisPreimage(u)[12] == Utf8(ANCHOR_GENESIS)[12];
    EventIsNoAnchor(prev, e, p, ms);
  }

  lemma EventIsNoAnchor(prev: Digest, e: ChainableEvent, p: Digest, ms: seq<AnchorMember>)
    requires Hashable(e)
    ensures EventPreimage(prev, e) != AnchorPreimage(p, ms)
  {
    hide ObjectBytes, EventBytes, MembersBytes;
    if ms == [] {
      ChainedStart(prev, e, ms);
      ChainedStart(p, e, ms);
    } else {
      MemberFieldsPlain(ms[0]);
      var rest := ms[0].headHash + MembersBytes(ms[1..]);
      EventIsNoMember(e, ms[0], rest);
      MembersHead(ms);
      Tails32(prev, EventBytes(e), p, MembersBytes(ms));
    }
  }

  lemma Tails32(p: Digest, x: Bytes, q: Digest, y: Bytes)
    ensures p + x == q + y ==> p == q && x == y
  {
    assert p == (p + x)[..32] && q == (q + y)[..32];
    assert x == (p + x)[32..] && y == (q + y)[32..];
  }

  lemma MembersHead(ms: seq<AnchorMember>)
    requires ms != [] && Plain(MemberFields(ms[0]))
    ensures MembersBytes(ms) == ObjectBytes(MemberFields(ms[0])) + (ms[0].headHash + MembersBytes(ms[1..]))
  {
  }

  lemma EventIsNoMember(e: ChainableEvent, m: AnchorMember, rest: Bytes)
    requires Hashable(e) && Plain(MemberFields(m)) && rest != []
    ensures EventBytes(e) != ObjectBytes(MemberFields(m)) + rest
  {
    var a, b := Normalise(Obj(EventFields(e))), Normalise(Obj(MemberFields(m)));
    var bytes, first := EventBytes(e), ObjectBytes(MemberFields(m));
    hide Serialize, Print, Normalise, Normal, EventFields, MemberFields;
    if bytes == first + rest {
      assert bytes + [] == first + rest;
      ObjectBytesReadable(a, b, [], rest);
    }
  }
}
