/** Canonical JSON text, the hash preimage format of the event chain
    (packages/core/src/integrity/hash-chain.ts:41-66).

    A JavaScript string is a Dafny string, that is, a sequence of Unicode scalar
    values. A finite number is identified with the text JSON.stringify prints
    for it. An object is the list of its properties in insertion order. */
module CanonicalJson {
  import opened Wrappers

  datatype Json =
    | Undefined
    | Null
    | Bool(b: bool)
    | Num(digits: string)
    | NonFinite
    | BigInt
    | Callable
    | Str(s: string)
    | Arr(items: seq<Json>)
    | Obj(fields: seq<Field>)

  datatype Field = Field(key: string, value: Json)

  /** What the JavaScript type system promises of a value: number texts are
      number texts and an object has each key once. */
  predicate Data(v: Json)
  {
    match v
    case Num(d) => IsNumberText(d)
    case Arr(items) => forall i | 0 <= i < |items| :: Data(items[i])
    case Obj(fields) => Distinct(KeysOf(fields)) && forall i | 0 <= i < |fields| :: Data(fields[i].value)
    case _ => true
  }

  predicate IsNumberChar(c: char) { '0' <= c <= '9' || c == '-' || c == '+' || c == '.' || c == 'e' }

  predicate IsNumberText(d: string)
  {
    d != [] && ('0' <= d[0] <= '9' || d[0] == '-') && forall i | 0 <= i < |d| :: IsNumberChar(d[i])
  }

  function KeysOf(fields: seq<Field>): (r: seq<string>)
    ensures |r| == |fields| && forall i | 0 <= i < |r| :: r[i] == fields[i].key
  {
    seq(|fields|, i requires 0 <= i < |fields| => fields[i].key)
  }

  // ---------------------------------------------------------------------------
  // Property order: code-unit order of the keys (RFC 8785 section 3.2.3)
  // ---------------------------------------------------------------------------

  /** Position of a scalar value in UTF-16 code-unit order: the supplementary
      planes start with a surrogate, hence sort below U+E000. */
  function Weight(c: char): int
  {
    var u := c as int;
    if u < 0xD800 then u else if u < 0x10000 then u + 0x100000 else u - 0x10000 + 0xD800
  }

  predicate Less(a: string, b: string)
  {
    b != [] && (a == [] || Weight(a[0]) < Weight(b[0]) || (a[0] == b[0] && Less(a[1..], b[1..])))
  }

  lemma {:induction false} LessTotal(a: string, b: string)
    ensures Less(a, b) || Less(b, a) || a == b
    ensures !(Less(a, b) && Less(b, a))
    ensures !Less(a, a)
  {
    if a != [] && b != [] {
      LessTotal(a[1..], b[1..]);
      if a[0] == b[0] && a[1..] == b[1..] {
        assert a == [a[0]] + a[1..] && b == [b[0]] + b[1..];
      }
    }
    if a != [] { LessTotal(a[1..], a[1..]); }
  }

  lemma {:induction false} LessTransitive(a: string, b: string, c: string)
    requires Less(a, b) && Less(b, c)
    ensures Less(a, c)
  {
    if a != [] && a[0] == b[0] && b[0] == c[0] {
      LessTransitive(a[1..], b[1..], c[1..]);
    }
  }

  predicate Sorted(keys: seq<string>)
  {
    forall i, j | 0 <= i < j < |keys| :: Less(keys[i], keys[j])
  }

  function InsertKey(k: string, keys: seq<string>): (r: seq<string>)
  {
    if keys == [] then [k]
    else if Less(k, keys[0]) then [k] + keys
    else [keys[0]] + InsertKey(k, keys[1..])
  }

  function SortKeys(keys: seq<string>): (r: seq<string>)
  {
    if keys == [] then [] else InsertKey(keys[0], SortKeys(keys[1..]))
  }

  lemma {:induction false} InsertKeySorts(k: string, keys: seq<string>)
    requires Sorted(keys) && k !in keys
    ensures Sorted(InsertKey(k, keys))
    ensures forall x :: x in InsertKey(k, keys) <==> x == k || x in keys
  {
    if keys != [] {
      LessTotal(k, keys[0]);
      if Less(k, keys[0]) {
        forall j | 0 < j < |keys| ensures Less(k, keys[j]) { LessTransitive(k, keys[0], keys[j]); }
      } else {
        InsertKeySorts(k, keys[1..]);
        var rest := InsertKey(k, keys[1..]);
        forall j | 0 <= j < |rest| ensures Less(keys[0], rest[j]) {
          assert rest[j] in rest;
        }
      }
    }
  }

  /** Sorting distinct keys gives an ascending list of the same keys. */
  lemma {:induction false} SortKeysSorts(keys: seq<string>)
    requires Distinct(keys)
    ensures Sorted(SortKeys(keys))
    ensures forall x :: x in SortKeys(keys) <==> x in keys
  {
    if keys != [] {
      SortKeysSorts(keys[1..]);
      InsertKeySorts(keys[0], SortKeys(keys[1..]));
      assert keys == [keys[0]] + keys[1..];
    }
  }

  /** An ascending list is determined by its elements. */
  lemma {:induction false} SortedUnique(a: seq<string>, b: seq<string>)
    requires Sorted(a) && Sorted(b)
    requires forall x :: x in a <==> x in b
    ensures a == b
  {
    assert b != [] ==> b[0] in b;
    assert a != [] ==> a[0] in a;
    if a != [] {
      assert a[0] in b;
      assert b != [] && b[0] in a;
      FirstIsLeast(a, b[0]);
      FirstIsLeast(b, a[0]);
      LessTotal(a[0], b[0]);
      forall x ensures x in a[1..] <==> x in b[1..] {
        TailMembers(a, x);
        TailMembers(b, x);
      }
      SortedUnique(a[1..], b[1..]);
      assert a == [a[0]] + a[1..] && b == [b[0]] + b[1..];
    }
  }

  lemma FirstIsLeast(a: seq<string>, x: string)
    requires Sorted(a) && x in a
    ensures x == a[0] || Less(a[0], x)
  {
  }

  lemma TailMembers(a: seq<string>, x: string)
    requires a != [] && Sorted(a)
    ensures x in a[1..] <==> x in a && x != a[0]
  {
    LessTotal(a[0], a[0]);
    if x in a && x != a[0] {
      var i :| 0 <= i < |a| && a[i] == x;
      assert a[1..][i - 1] == x;
    }
  }

  // ---------------------------------------------------------------------------
  // Strings (RFC 8785 section 3.2.2.2)
  // ---------------------------------------------------------------------------

  function HexDigit(n: int): (c: char)
    requires 0 <= n < 16
  {
    if n < 10 then ('0' as int + n) as char else ('a' as int + n - 10) as char
  }

  function EscapeChar(c: char): (r: string)
  {
    var u := c as int;
    if u == 0x08 then "\\b"
    else if u == 0x09 then "\\t"
    else if u == 0x0A then "\\n"
    else if u == 0x0C then "\\f"
    else if u == 0x0D then "\\r"
    else if u == 0x22 then "\\\""
    else if u == 0x5C then "\\\\"
    else if u < 0x20 then "\\u00" + [HexDigit(u / 16), HexDigit(u % 16)]
    else [c]
  }

  function Escape(s: string): string
  {
    if s == [] then [] else EscapeChar(s[0]) + Escape(s[1..])
  }

  function Quote(s: string): string { "\"" + Escape(s) + "\"" }

  lemma HexDigitInjective(m: int, n: int)
    requires 0 <= m < 16 && 0 <= n < 16 && HexDigit(m) == HexDigit(n)
    ensures m == n
  {
  }

  lemma EscapeCharReadable(a: char, b: char, x: string, y: string)
    requires EscapeChar(a) + x == EscapeChar(b) + y
    ensures a == b && x == y
  {
    var p, q := EscapeChar(a), EscapeChar(b);
    assert p[0] == (p + x)[0] == (q + y)[0] == q[0];
    if |p| > 1 && |q| > 1 {
      assert p[1] == (p + x)[1] == (q + y)[1] == q[1];
      if |p| == 6 && |q| == 6 {
        assert p[4] == (p + x)[4] == (q + y)[4] == q[4];
        assert p[5] == (p + x)[5] == (q + y)[5] == q[5];
        HexDigitInjective(a as int / 16, b as int / 16);
        HexDigitInjective(a as int % 16, b as int % 16);
      }
    }
    assert a == b;
    assert x == (p + x)[|p|..] && y == (q + y)[|q|..];
  }

  lemma EscapeFirst(a: string, x: string)
    ensures (Escape(a) + "\"" + x)[0] == '"' <==> a == []
  {
    if a != [] {
      assert |EscapeChar(a[0])| > 0 && (Escape(a) + "\"" + x)[0] == EscapeChar(a[0])[0];
    }
  }

  lemma {:induction false} EscapeReadable(a: string, b: string, x: string, y: string)
    requires Escape(a) + "\"" + x == Escape(b) + "\"" + y
    ensures a == b && x == y
  {
    hide EscapeChar;
    var l, r := Escape(a) + "\"" + x, Escape(b) + "\"" + y;
    EscapeFirst(a, x);
    EscapeFirst(b, y);
    assert a == [] <==> b == [];
    if a == [] {
      assert x == l[1..] && y == r[1..];
    } else {
      var x', y' := Escape(a[1..]) + "\"" + x, Escape(b[1..]) + "\"" + y;
      assert l == EscapeChar(a[0]) + x' && r == EscapeChar(b[0]) + y';
      EscapeCharReadable(a[0], b[0], x', y');
      EscapeReadable(a[1..], b[1..], x, y);
      assert a == [a[0]] + a[1..] && b == [b[0]] + b[1..];
    }
  }

  lemma QuoteReadable(a: string, b: string, x: string, y: string)
    requires Quote(a) + x == Quote(b) + y
    ensures a == b && x == y
  {
    hide Escape;
    var l, r := Escape(a) + "\"" + x, Escape(b) + "\"" + y;
    assert Quote(a) + x == "\"" + l && Quote(b) + y == "\"" + r;
    assert ("\"" + l)[1..] == l && ("\"" + r)[1..] == r;
    EscapeReadable(a, b, x, y);
  }

  // ---------------------------------------------------------------------------
  // The serializer
  // ---------------------------------------------------------------------------

  /** The properties that are not undefined, as Object.keys(obj).filter lists them. */
  function DefinedKeys(fields: seq<Field>): (r: seq<string>)
    ensures forall k :: k in r ==> exists i :: 0 <= i < |fields| && fields[i].key == k
  {
    if fields == [] then []
    else if fields[0].value == Undefined then DefinedKeys(fields[1..])
    else [fields[0].key] + DefinedKeys(fields[1..])
  }

  predicate HasKey(fields: seq<Field>, k: string) { exists i :: 0 <= i < |fields| && fields[i].key == k }

  /** obj[k], by position. */
  function IndexOf(fields: seq<Field>, k: string): (i: nat)
    requires HasKey(fields, k)
    ensures i < |fields| && fields[i].key == k
  {
    if fields[0].key == k then 0 else 1 + IndexOf(fields[1..], k)
  }

  /** obj[k] is there and not undefined. */
  predicate Live(fields: seq<Field>, k: string) { HasKey(fields, k) && fields[IndexOf(fields, k)].value != Undefined }

  predicate AllIn(keys: seq<string>, fields: seq<Field>) { forall k | k in keys :: HasKey(fields, k) }

  lemma {:induction false} SortKeysMembers(keys: seq<string>, x: string)
    ensures x in SortKeys(keys) ==> x in keys
  {
    if keys != [] {
      SortKeysMembers(keys[1..], x);
      InsertKeyMembers(keys[0], SortKeys(keys[1..]), x);
    }
  }

  lemma {:induction false} InsertKeyMembers(k: string, keys: seq<string>, x: string)
    ensures x in InsertKey(k, keys) ==> x == k || x in keys
  {
    if keys != [] && !Less(k, keys[0]) { InsertKeyMembers(k, keys[1..], x); }
  }

  /** The keys of an object in the order they are printed. */
  function PrintedKeys(fields: seq<Field>): (r: seq<string>)
    ensures AllIn(r, fields)
  {
    var r := SortKeys(DefinedKeys(fields));
    assert AllIn(r, fields) by {
      forall k | k in r ensures HasKey(fields, k) { SortKeysMembers(DefinedKeys(fields), k); }
    }
    r
  }

  function Join(parts: seq<string>): string
  {
    if parts == [] then "" else if |parts| == 1 then parts[0] else parts[0] + "," + Join(parts[1..])
  }

  /** serialize(v); None is a thrown error. */
  function Serialize(v: Json): (r: Option<string>)
    decreases v, 0
  {
    match v
    case Null => Some("null")
    case Bool(b) => Some(if b then "true" else "false")
    case Str(s) => Some(Quote(s))
    case Num(d) => Some(d)
    case Arr(items) =>
      var parts := SerializeItems(items);
      if parts.None? then None else Some("[" + Join(parts.value) + "]")
    case Obj(fields) =>
      var parts := SerializeMembers(fields, PrintedKeys(fields));
      if parts.None? then None else Some("{" + Join(parts.value) + "}")
    case Undefined => None
    case NonFinite => None
    case BigInt => None
    case Callable => None
  }

  function SerializeItems(items: seq<Json>): (r: Option<seq<string>>)
    decreases items, 0
  {
    if items == [] then Some([]) else
    var first := if items[0] == Undefined then Some("null") else Serialize(items[0]);
    var rest := SerializeItems(items[1..]);
    if first.None? || rest.None? then None else Some([first.value] + rest.value)
  }

  function SerializeMembers(fields: seq<Field>, keys: seq<string>): (r: Option<seq<string>>)
    requires AllIn(keys, fields)
    decreases fields, |keys|
  {
    if keys == [] then Some([]) else
    var first := Serialize(fields[IndexOf(fields, keys[0])].value);
    var rest := SerializeMembers(fields, keys[1..]);
    if first.None? || rest.None? then None else Some([Quote(keys[0]) + ":" + first.value] + rest.value)
  }

  // ---------------------------------------------------------------------------
  // What the text means: the logical value, and the grammar it is printed in
  // ---------------------------------------------------------------------------

  /** The values the serializer accepts. */
  predicate Chainable(v: Json)
  {
    match v
    case Undefined => false
    case NonFinite => false
    case BigInt => false
    case Callable => false
    case Arr(items) => forall i | 0 <= i < |items| :: items[i] == Undefined || Chainable(items[i])
    case Obj(fields) => forall i | 0 <= i < |fields| :: fields[i].value == Undefined || Chainable(fields[i].value)
    case _ => true
  }

  /** The logical value: undefined properties gone, undefined items null, keys ascending. */
  function Normalise(v: Json): (r: Json)
    decreases v, 0
  {
    match v
    case Arr(items) => Arr(NormaliseItems(items))
    case Obj(fields) => Obj(NormaliseMembers(fields, PrintedKeys(fields)))
    case _ => v
  }

  function NormaliseItems(items: seq<Json>): (r: seq<Json>)
    ensures |r| == |items|
    decreases items, 0
  {
    if items == [] then [] else
    [if items[0] == Undefined then Null else Normalise(items[0])] + NormaliseItems(items[1..])
  }

  function NormaliseMembers(fields: seq<Field>, keys: seq<string>): (r: seq<Field>)
    requires AllIn(keys, fields)
    ensures KeysOf(r) == keys
    decreases fields, |keys|
  {
    if keys == [] then [] else
    var rest := NormaliseMembers(fields, keys[1..]);
    var r := [Field(keys[0], Normalise(fields[IndexOf(fields, keys[0])].value))] + rest;
    assert forall i | 0 < i < |r| :: KeysOf(r)[i] == KeysOf(rest)[i - 1] == keys[i];
    r
  }

  /** Normal values: nothing undefined or unprintable, object keys ascending. */
  predicate Normal(v: Json)
  {
    match v
    case Null => true
    case Bool(_) => true
    case Num(d) => IsNumberText(d)
    case Str(_) => true
    case Arr(items) => forall i | 0 <= i < |items| :: Normal(items[i])
    case Obj(fields) => Sorted(KeysOf(fields)) && forall i | 0 <= i < |fields| :: Normal(fields[i].value)
    case _ => false
  }

  /** The grammar of RFC 8785: a normal value printed without white space. */
  function Print(v: Json): (r: string)
    requires Normal(v)
    decreases v, 0
  {
    match v
    case Null => "null"
    case Bool(b) => if b then "true" else "false"
    case Num(d) => d
    case Str(s) => Quote(s)
    case Arr(items) => "[" + PrintItems(items) + "]"
    case Obj(fields) => "{" + PrintMembers(fields) + "}"
  }

  predicate NormalItems(items: seq<Json>) { forall i | 0 <= i < |items| :: Normal(items[i]) }

  predicate NormalFields(fields: seq<Field>) { forall i | 0 <= i < |fields| :: Normal(fields[i].value) }

  function PrintItems(items: seq<Json>): string
    requires NormalItems(items)
    decreases items, 0
  {
    if items == [] then ""
    else if |items| == 1 then Print(items[0])
    else Print(items[0]) + "," + PrintItems(items[1..])
  }

  function PrintMember(f: Field): string
    requires Normal(f.value)
    decreases f, 1
  {
    Quote(f.key) + ":" + Print(f.value)
  }

  function PrintMembers(fields: seq<Field>): string
    requires NormalFields(fields)
    decreases fields, 0
  {
    if fields == [] then ""
    else if |fields| == 1 then PrintMember(fields[0])
    else PrintMember(fields[0]) + "," + PrintMembers(fields[1..])
  }

  /** The serializer throws exactly on unchainable values and otherwise prints
      the logical value in the grammar. */
  lemma {:induction false} SerializeMeaning(v: Json)
    requires Data(v)
    ensures Chainable(v) ==> Normal(Normalise(v)) && Serialize(v) == Some(Print(Normalise(v)))
    ensures !Chainable(v) ==> Serialize(v) == None
    decreases v, 0
  {
    match v
    case Arr(items) => SerializeItemsMeaning(items);
    case Obj(fields) =>
      PrintedKeysMeaning(fields);
      SerializeMembersMeaning(fields, PrintedKeys(fields));
    case _ =>
  }

  /** The printed keys are ascending, and an object is chainable when every
      printed property is. */
  lemma PrintedKeysMeaning(fields: seq<Field>)
    requires Distinct(KeysOf(fields))
    ensures Sorted(PrintedKeys(fields))
    ensures forall k :: k in PrintedKeys(fields) <==> Live(fields, k)
    ensures Chainable(Obj(fields)) <==>
              MembersChainable(fields, PrintedKeys(fields))
  {
    DefinedKeysMeaning(fields);
    SortKeysSorts(DefinedKeys(fields));
    if MembersChainable(fields, PrintedKeys(fields)) {
      forall i | 0 <= i < |fields| && fields[i].value != Undefined ensures Chainable(fields[i].value) {
        IndexOfDistinct(fields, i);
        assert fields[i].key in PrintedKeys(fields);
      }
    }
  }

  predicate ChainableItems(items: seq<Json>)
  {
    forall i | 0 <= i < |items| :: items[i] == Undefined || Chainable(items[i])
  }

  lemma {:induction false} SerializeItemsMeaning(items: seq<Json>)
    requires forall i | 0 <= i < |items| :: Data(items[i])
    ensures ChainableItems(items) ==>
              NormalItems(NormaliseItems(items)) &&
              SerializeItems(items).Some? && Join(SerializeItems(items).value) == PrintItems(NormaliseItems(items)) &&
              |SerializeItems(items).value| == |items|
    ensures !ChainableItems(items) ==> SerializeItems(items) == None
    decreases items, 0
  {
    if items != [] {
      if items[0] != Undefined { SerializeMeaning(items[0]); }
      SerializeItemsMeaning(items[1..]);
      assert ChainableItems(items) <==> (items[0] == Undefined || Chainable(items[0])) && ChainableItems(items[1..]);
      if ChainableItems(items) {
        var ns := NormaliseItems(items);
        assert ns[1..] == NormaliseItems(items[1..]);
        var ps := SerializeItems(items).value;
        assert ps[1..] == SerializeItems(items[1..]).value;
      }
    }
  }

  predicate MembersChainable(fields: seq<Field>, keys: seq<string>)
    requires AllIn(keys, fields)
  {
    forall k | k in keys :: Chainable(fields[IndexOf(fields, k)].value)
  }

  lemma MembersChainableStep(fields: seq<Field>, keys: seq<string>)
    requires AllIn(keys, fields) && keys != []
    ensures AllIn(keys[1..], fields)
    ensures MembersChainable(fields, keys) <==>
              Chainable(fields[IndexOf(fields, keys[0])].value) && MembersChainable(fields, keys[1..])
  {
    assert keys == [keys[0]] + keys[1..];
  }

  lemma {:induction false} SerializeMembersMeaning(fields: seq<Field>, keys: seq<string>)
    requires forall i | 0 <= i < |fields| :: Data(fields[i].value)
    requires AllIn(keys, fields)
    ensures MembersChainable(fields, keys) ==>
              NormalFields(NormaliseMembers(fields, keys)) &&
              SerializeMembers(fields, keys).Some? &&
              Join(SerializeMembers(fields, keys).value) == PrintMembers(NormaliseMembers(fields, keys)) &&
              |SerializeMembers(fields, keys).value| == |keys|
    ensures !MembersChainable(fields, keys) ==> SerializeMembers(fields, keys) == None
    decreases fields, |keys|
  {
    if keys != [] {
      SerializeMeaning(fields[IndexOf(fields, keys[0])].value);
      MembersChainableStep(fields, keys);
      SerializeMembersMeaning(fields, keys[1..]);
      if MembersChainable(fields, keys) {
        hide Serialize, Print, Normalise, Normal, Chainable, MembersChainable, Quote;
        var ns := NormaliseMembers(fields, keys);
        assert ns[1..] == NormaliseMembers(fields, keys[1..]);
        var ps := SerializeMembers(fields, keys).value;
        assert ps[1..] == SerializeMembers(fields, keys[1..]).value;
      }
    }
  }

  lemma {:induction false} DefinedKeysMeaning(fields: seq<Field>)
    requires Distinct(KeysOf(fields))
    ensures Distinct(DefinedKeys(fields))
    ensures forall k :: k in DefinedKeys(fields) <==> Live(fields, k)
  {
    if fields != [] {
      var rest := fields[1..];
      assert KeysOf(rest) == KeysOf(fields)[1..];
      DefinedKeysMeaning(rest);
      FirstKeyNew(fields);
      assert fields[0].key !in DefinedKeys(rest);
      forall k ensures k in DefinedKeys(fields) <==> Live(fields, k) {
        HasKeyTail(fields, k);
      }
    }
  }

  lemma FirstKeyNew(fields: seq<Field>)
    requires fields != [] && Distinct(KeysOf(fields))
    ensures !HasKey(fields[1..], fields[0].key)
  {
    assert forall i | 0 <= i < |fields[1..]| :: fields[1..][i].key == KeysOf(fields)[i + 1];
  }

  lemma HasKeyTail(fields: seq<Field>, k: string)
    requires fields != []
    ensures HasKey(fields, k) <==> fields[0].key == k || HasKey(fields[1..], k)
  {
    var rest := fields[1..];
    if HasKey(fields, k) && fields[0].key != k {
      var i :| 0 <= i < |fields| && fields[i].key == k;
      assert rest[i - 1].key == k;
    }
    if HasKey(rest, k) {
      var i :| 0 <= i < |rest| && rest[i].key == k;
      assert fields[i + 1].key == k;
    }
  }

  lemma {:induction false} IndexOfDistinct(fields: seq<Field>, i: nat)
    requires Distinct(KeysOf(fields)) && i < |fields|
    ensures HasKey(fields, fields[i].key) && IndexOf(fields, fields[i].key) == i
  {
    var j := IndexOf(fields, fields[i].key);
    assert KeysOf(fields)[i] == KeysOf(fields)[j];
  }

  // ---------------------------------------------------------------------------
  // Unique readability
  // ---------------------------------------------------------------------------

  /** A number text is delimited by the character that follows it. */
  predicate Delimited(x: string) { x == [] || !IsNumberChar(x[0]) }

  lemma Overlap(a: string, b: string, x: string, y: string)
    requires a + x == b + y
    ensures |a| < |b| ==> x != [] && x[0] == b[|a|]
  {
    if |a| < |b| { assert (a + x)[|a|] == x[0] && (b + y)[|a|] == b[|a|]; }
  }

  lemma {:induction false} NumberReadable(a: string, b: string, x: string, y: string)
    requires Delimited(x) && Delimited(y)
    requires forall i | 0 <= i < |a| :: IsNumberChar(a[i])
    requires forall i | 0 <= i < |b| :: IsNumberChar(b[i])
    requires a + x == b + y
    ensures a == b && x == y
  {
    Overlap(a, b, x, y);
    Overlap(b, a, y, x);
    assert a == (a + x)[..|a|] && b == (b + y)[..|b|];
    assert x == (a + x)[|a|..] && y == (b + y)[|b|..];
  }

  /** The constructor of a value can be told from the first character. */
  function Kind(c: char): int
  {
    if c == 'n' then 0 else if c == 't' || c == 'f' then 1 else if c == '"' then 3
    else if c == '[' then 4 else if c == '{' then 5 else 2
  }

  lemma PrintFirst(v: Json)
    requires Normal(v)
    ensures Print(v) != [] && Print(v)[0] != ']'
    ensures Kind(Print(v)[0]) ==
              (match v case Null => 0 case Bool(_) => 1 case Num(_) => 2 case Str(_) => 3 case Arr(_) => 4 case _ => 5)
  {
  }

  /** Unique readability: from a text that starts with a printed value one can
      read back the value and the rest, provided a number is followed by a
      delimiter. */
  lemma {:induction false} UniqueReadability(a: Json, b: Json, x: string, y: string)
    requires Normal(a) && Normal(b)
    requires (Delimited(x) && Delimited(y)) || a.Obj?
    requires Print(a) + x == Print(b) + y
    ensures a == b && x == y
    decreases a, 0
  {
    SameKind(a, b, x, y);
    match a
    case Null => assert x == (Print(a) + x)[4..] && y == (Print(b) + y)[4..];
    case Bool(p) => BoolReadable(p, b.b, x, y);
    case Num(d) => NumberReadable(d, b.digits, x, y);
    case Str(s) => QuoteReadable(s, b.s, x, y);
    case Arr(items) =>
      Unbracket("[", PrintItems(items), "]", x);
      Unbracket("[", PrintItems(b.items), "]", y);
      ItemsReadable(items, b.items, "]" + x, "]" + y);
    case Obj(fields) =>
      Unbracket("{", PrintMembers(fields), "}", x);
      Unbracket("{", PrintMembers(b.fields), "}", y);
      MembersReadable(fields, b.fields, "}" + x, "}" + y);
  }

  lemma SameKind(a: Json, b: Json, x: string, y: string)
    requires Normal(a) && Normal(b)
    requires Print(a) + x == Print(b) + y
    ensures a.Null? == b.Null? && a.Bool? == b.Bool? && a.Num? == b.Num? && a.Str? == b.Str?
    ensures a.Arr? == b.Arr? && a.Obj? == b.Obj?
    ensures a.Bool? ==> a == b
  {
    PrintFirst(a);
    PrintFirst(b);
    assert (Print(a) + x)[0] == Print(a)[0];
    assert (Print(b) + y)[0] == Print(b)[0];
  }

  lemma BoolReadable(a: bool, b: bool, x: string, y: string)
    requires a == b && Print(Bool(a)) + x == Print(Bool(b)) + y
    ensures x == y
  {
    var t := Print(Bool(a));
    assert x == (t + x)[|t|..] && y == (t + y)[|t|..];
  }

  lemma Unbracket(open: string, body: string, close: string, x: string)
    requires |open| == |close| == 1
    ensures (open + body + close + x)[1..] == body + (close + x)
    ensures (close + x)[1..] == x && (close + x)[0] == close[0]
  {
  }

  lemma {:induction false} ItemsReadable(a: seq<Json>, b: seq<Json>, x: string, y: string)
    requires NormalItems(a) && NormalItems(b)
    requires x != [] && x[0] == ']' && y != [] && y[0] == ']'
    requires PrintItems(a) + x == PrintItems(b) + y
    ensures a == b && x == y
    decreases a, 0
  {
    var l, r := PrintItems(a) + x, PrintItems(b) + y;
    ItemsFirst(a, x);
    ItemsFirst(b, y);
    hide Print, Normal, AfterItem;
    assert a == [] <==> b == [];
    if a == [] {
      assert l == x && r == y;
    } else {
      var x1, y1 := AfterItem(a, x), AfterItem(b, y);
      UniqueReadability(a[0], b[0], x1, y1);
      assert (|a| == 1) == (|b| == 1);
      if |a| > 1 {
        ItemsReadable(a[1..], b[1..], x, y);
        assert a == [a[0]] + a[1..] && b == [b[0]] + b[1..];
      } else {
        assert a == [a[0]] && b == [b[0]];
      }
    }
  }

  lemma ItemsFirst(a: seq<Json>, x: string)
    requires NormalItems(a) && x != [] && x[0] == ']'
    ensures (PrintItems(a) + x)[0] == ']' <==> a == []
  {
    if a != [] {
      PrintFirst(a[0]);
      assert (PrintItems(a) + x)[0] == Print(a[0])[0];
    }
  }

  /** What follows the first item in a printed item list followed by x. */
  function AfterItem(a: seq<Json>, x: string): (r: string)
    requires a != [] && NormalItems(a) && x != [] && x[0] == ']'
    ensures Delimited(r) && r != [] && (r[0] == ',' <==> |a| > 1)
    ensures PrintItems(a) + x == Print(a[0]) + r
    ensures |a| > 1 ==> r[1..] == PrintItems(a[1..]) + x
    ensures |a| == 1 ==> r == x
  {
    if |a| == 1 then x else "," + (PrintItems(a[1..]) + x)
  }

  lemma {:induction false} MembersReadable(a: seq<Field>, b: seq<Field>, x: string, y: string)
    requires NormalFields(a) && NormalFields(b)
    requires x != [] && x[0] == '}' && y != [] && y[0] == '}'
    requires PrintMembers(a) + x == PrintMembers(b) + y
    ensures a == b && x == y
    decreases a, 0
  {
    var l, r := PrintMembers(a) + x, PrintMembers(b) + y;
    MembersFirst(a, x);
    MembersFirst(b, y);
    hide Quote, Print, Normal, PrintMember, PrintMembers, AfterMember;
    assert a == [] <==> b == [];
    if a == [] {
      assert l == x && r == y;
    } else {
      var x1, y1 := AfterMember(a, x), AfterMember(b, y);
      MemberReadable(a[0], b[0], x1, y1);
      assert (|a| == 1) == (|b| == 1);
      if |a| > 1 {
        MembersReadable(a[1..], b[1..], x, y);
        assert a == [a[0]] + a[1..] && b == [b[0]] + b[1..];
      } else {
        assert a == [a[0]] && b == [b[0]];
      }
    }
  }

  /** What follows the first member in a printed member list followed by x. */
  function AfterMember(a: seq<Field>, x: string): (r: string)
    requires a != [] && NormalFields(a) && x != [] && x[0] == '}'
    ensures Delimited(r) && r != [] && (r[0] == ',' <==> |a| > 1)
    ensures PrintMembers(a) + x == PrintMember(a[0]) + r
    ensures |a| > 1 ==> r[1..] == PrintMembers(a[1..]) + x
    ensures |a| == 1 ==> r == x
  {
    if |a| == 1 then x else "," + (PrintMembers(a[1..]) + x)
  }

  lemma MembersFirst(a: seq<Field>, x: string)
    requires NormalFields(a) && x != [] && x[0] == '}'
    ensures (PrintMembers(a) + x)[0] == if a == [] then '}' else '"'
  {
    if a != [] {
      assert PrintMember(a[0])[0] == '"';
      assert (PrintMembers(a) + x)[0] == PrintMember(a[0])[0];
    }
  }

  lemma {:induction false} MemberReadable(a: Field, b: Field, x: string, y: string)
    requires Normal(a.value) && Normal(b.value)
    requires Delimited(x) && Delimited(y)
    requires PrintMember(a) + x == PrintMember(b) + y
    ensures a == b && x == y
    decreases a, 1
  {
    hide Quote, Print, Normal;
    var x2, y2 := Print(a.value) + x, Print(b.value) + y;
    assert PrintMember(a) + x == Quote(a.key) + (":" + x2);
    assert PrintMember(b) + y == Quote(b.key) + (":" + y2);
    QuoteReadable(a.key, b.key, ":" + x2, ":" + y2);
    assert x2 == (":" + x2)[1..] && y2 == (":" + y2)[1..];
    UniqueReadability(a.value, b.value, x, y);
  }

  // ---------------------------------------------------------------------------
  // The jsonb round trip
  // ---------------------------------------------------------------------------

  /** w is what a jsonb column may give back after JSON.stringify(v) was stored:
      undefined properties are gone, undefined items are null, and the keys of
      an object come in any order. */
  predicate StoredAs(v: Json, w: Json)
    decreases v
  {
    match v
    case Arr(items) =>
      w.Arr? && |w.items| == |items| &&
      forall i | 0 <= i < |items| :: if items[i] == Undefined then w.items[i] == Null else StoredAs(items[i], w.items[i])
    case Obj(fields) =>
      w.Obj? && Distinct(KeysOf(w.fields)) &&
      (forall j | 0 <= j < |w.fields| :: w.fields[j].value != Undefined && HasKey(fields, w.fields[j].key)) &&
      forall i | 0 <= i < |fields| ::
        if fields[i].value == Undefined then !HasKey(w.fields, fields[i].key)
        else HasKey(w.fields, fields[i].key) && StoredAs(fields[i].value, w.fields[IndexOf(w.fields, fields[i].key)].value)
    case _ => w == v
  }

  /** Storing a chainable value does not change its logical value. */
  lemma {:induction false} StoredNormalise(v: Json, w: Json)
    requires Data(v) && Chainable(v) && StoredAs(v, w)
    ensures Normalise(v) == Normalise(w) && Data(w) && Chainable(w)
    decreases v
  {
    match v
    case Arr(items) =>
      forall i | 0 <= i < |items|
        ensures items[i] != Undefined ==> Normalise(items[i]) == Normalise(w.items[i])
        ensures Data(w.items[i]) && Chainable(w.items[i])
      {
        if items[i] != Undefined { StoredNormalise(items[i], w.items[i]); }
      }
      forall i | 0 <= i < |items| ensures NormaliseItems(items)[i] == NormaliseItems(w.items)[i] {
        NormaliseItemsAt(items, i);
        NormaliseItemsAt(w.items, i);
      }
    case Obj(fields) =>
      forall k | Live(fields, k)
        ensures HasKey(w.fields, k)
        ensures Normalise(fields[IndexOf(fields, k)].value) == Normalise(w.fields[IndexOf(w.fields, k)].value)
        ensures Data(w.fields[IndexOf(w.fields, k)].value) && Chainable(w.fields[IndexOf(w.fields, k)].value)
      {
        var i := IndexOf(fields, k);
        StoredNormalise(fields[i].value, w.fields[IndexOf(w.fields, k)].value);
      }
      forall j | 0 <= j < |w.fields|
        ensures Live(fields, w.fields[j].key) && Data(w.fields[j].value) && Chainable(w.fields[j].value)
      {
        IndexOfDistinct(w.fields, j);
        assert HasKey(fields, w.fields[j].key);
      }
      forall k ensures Live(fields, k) <==> Live(w.fields, k) { }
      SameKeys(fields, w.fields);
      PrintedKeysMeaning(fields);
      NormaliseMembersSame(fields, w.fields, PrintedKeys(fields));
    case _ =>
  }

  lemma SameKeys(a: seq<Field>, b: seq<Field>)
    requires Distinct(KeysOf(a)) && Distinct(KeysOf(b))
    requires forall k :: Live(a, k) <==> Live(b, k)
    ensures PrintedKeys(a) == PrintedKeys(b)
  {
    PrintedKeysMeaning(a);
    PrintedKeysMeaning(b);
    SortedUnique(PrintedKeys(a), PrintedKeys(b));
  }

  lemma {:induction false} NormaliseItemsAt(items: seq<Json>, i: nat)
    requires i < |items|
    ensures NormaliseItems(items)[i] == if items[i] == Undefined then Null else Normalise(items[i])
  {
    if i > 0 { NormaliseItemsAt(items[1..], i - 1); }
  }

  lemma {:induction false} NormaliseMembersSame(a: seq<Field>, b: seq<Field>, keys: seq<string>)
    requires AllIn(keys, a) && AllIn(keys, b)
    requires forall k | k in keys :: Normalise(a[IndexOf(a, k)].value) == Normalise(b[IndexOf(b, k)].value)
    ensures NormaliseMembers(a, keys) == NormaliseMembers(b, keys)
  {
    if keys != [] { NormaliseMembersSame(a, b, keys[1..]); }
  }

  lemma {:induction false} NormaliseMembersAt(fields: seq<Field>, keys: seq<string>, i: nat)
    requires AllIn(keys, fields) && i < |keys|
    ensures NormaliseMembers(fields, keys)[i] == Field(keys[i], Normalise(fields[IndexOf(fields, keys[i])].value))
  {
    if i > 0 { NormaliseMembersAt(fields, keys[1..], i - 1); }
  }

  /** The write-time and verify-time serializations of one value agree, whatever
      the storage did to undefined parts and to the key order. */
  lemma StoredSerializesAlike(v: Json, w: Json)
    requires Data(v) && Chainable(v) && StoredAs(v, w)
    ensures Serialize(v).Some? && Serialize(w) == Serialize(v)
  {
    StoredNormalise(v, w);
    SerializeMeaning(v);
    SerializeMeaning(w);
  }

  /** Two values serialize to the same text exactly when they are the same
      logical value. */
  lemma SerializeInjective(v: Json, w: Json)
    requires Data(v) && Data(w) && Chainable(v) && Chainable(w)
    ensures Serialize(v).Some? && Serialize(w).Some?
    ensures Serialize(v) == Serialize(w) <==> Normalise(v) == Normalise(w)
  {
    SerializeMeaning(v);
    SerializeMeaning(w);
    if Serialize(v) == Serialize(w) {
      assert Print(Normalise(v)) + "" == Print(Normalise(w)) + "";
      UniqueReadability(Normalise(v), Normalise(w), "", "");
    }
  }

  /** Two objects with one logical value have one logical value under every key. */
  lemma SameLogicalField(a: seq<Field>, b: seq<Field>, k: string)
    requires Distinct(KeysOf(a)) && Distinct(KeysOf(b))
    requires Normalise(Obj(a)) == Normalise(Obj(b))
    ensures Live(a, k) <==> Live(b, k)
    ensures Live(a, k) ==>
              Normalise(a[IndexOf(a, k)].value) == Normalise(b[IndexOf(b, k)].value)
  {
    var ka, kb := PrintedKeys(a), PrintedKeys(b);
    var na, nb := NormaliseMembers(a, ka), NormaliseMembers(b, kb);
    assert na == nb;
    assert ka == KeysOf(na) == KeysOf(nb) == kb;
    PrintedKeysMeaning(a);
    PrintedKeysMeaning(b);
    if k in ka {
      var i :| 0 <= i < |ka| && ka[i] == k;
      NormaliseMembersAt(a, ka, i);
      NormaliseMembersAt(b, kb, i);
    }
  }

  // ---------------------------------------------------------------------------
  // Version numbers
  // ---------------------------------------------------------------------------

  function Digits(n: nat): (r: string)
    ensures IsNumberText(r) && r[0] != '-'
  {
    var d := ('0' as int + n % 10) as char;
    if n < 10 then [d] else Digits(n / 10) + [d]
  }

  function Decimal(n: int): (r: string)
    ensures IsNumberText(r)
  {
    if n < 0 then "-" + Digits(-n) else Digits(n)
  }

  lemma {:induction false} DigitsInjective(m: nat, n: nat)
    requires Digits(m) == Digits(n)
    ensures m == n
  {
    var a, b := Digits(m), Digits(n);
    assert a[|a| - 1] == ('0' as int + m % 10) as char && b[|b| - 1] == ('0' as int + n % 10) as char;
    assert m % 10 == n % 10;
    assert m >= 10 ==> a[..|a| - 1] == Digits(m / 10) && |a| > 1;
    assert n >= 10 ==> b[..|b| - 1] == Digits(n / 10) && |b| > 1;
    if m >= 10 && n >= 10 {
      DigitsInjective(m / 10, n / 10);
    }
  }

  lemma DecimalInjective(m: int, n: int)
    requires Decimal(m) == Decimal(n)
    ensures m == n
  {
    var a, b := Decimal(m), Decimal(n);
    assert (m < 0) == (n < 0);
    if m < 0 {
      assert a[1..] == Digits(-m) && b[1..] == Digits(-n);
      DigitsInjective(-m, -n);
    } else {
      DigitsInjective(m, n);
    }
  }
}
