/** A reader for JSON text (RFC 8259), written apart from the serializer: what the
    canonical text of the event chain (packages/core/src/integrity/hash-chain.ts:41-66)
    says to anyone who reads it. */
module JsonReader {
  import opened Wrappers
  import opened CanonicalJson

  /** What was read, and the text behind it. */
  datatype Parsed<T> = Parsed(value: T, rest: string)

  // ---------------------------------------------------------------------------
  // Strings (section 7 of RFC 8259)
  // ---------------------------------------------------------------------------

  function HexValue(c: char): (n: Option<nat>)
    ensures n.Some? ==> n.value < 16
  {
    if '0' <= c <= '9' then Some(c as int - '0' as int)
    else if 'a' <= c <= 'f' then Some(c as int - 'a' as int + 10)
    else if 'A' <= c <= 'F' then Some(c as int - 'A' as int + 10)
    else None
  }

  /** The character after a backslash and u, of a text that has four more; halves of
      surrogate pairs are not read. */
  function ReadHex(t: string): (r: Option<char>)
    requires |t| >= 4
  {
    var a, b, c, d := HexValue(t[0]), HexValue(t[1]), HexValue(t[2]), HexValue(t[3]);
    if a.None? || b.None? || c.None? || d.None? then None
    else
      var u := a.value * 4096 + b.value * 256 + c.value * 16 + d.value;
      if 0xD800 <= u < 0xE000 then None else Some(u as char)
  }

  function Named(c: char): (r: Option<char>)
  {
    if c == '"' || c == '\\' || c == '/' then Some(c)
    else if c == 'b' then Some(8 as char)
    else if c == 't' then Some(9 as char)
    else if c == 'n' then Some(10 as char)
    else if c == 'f' then Some(12 as char)
    else if c == 'r' then Some(13 as char)
    else None
  }

  function ReadChar(t: string): (r: Option<Parsed<char>>)
    ensures r.Some? ==> |r.value.rest| < |t|
  {
    if t == [] || t[0] == '"' || t[0] as int < 0x20 then None
    else if t[0] != '\\' then Some(Parsed(t[0], t[1..]))
    else if |t| >= 6 && t[1] == 'u' then
      var c := ReadHex(t[2..]);
      if c.None? then None else Some(Parsed(c.value, t[6..]))
    else if |t| >= 2 && Named(t[1]).Some? then Some(Parsed(Named(t[1]).value, t[2..]))
    else None
  }

  /** The characters up to the closing quote. */
  function ReadString(t: string): (r: Option<Parsed<string>>)
    ensures r.Some? ==> |r.value.rest| < |t|
  {
    if t == [] then None
    else if t[0] == '"' then Some(Parsed("", t[1..]))
    else
      var c := ReadChar(t);
      if c.None? then None
      else
        var s := ReadString(c.value.rest);
        if s.None? then None else Some(Parsed([c.value.value] + s.value.value, s.value.rest))
  }

  lemma HexReadsBack(n: int)
    requires 0 <= n < 16
    ensures HexValue(HexDigit(n)) == Some(n)
  {
  }

  lemma CharReadsBack(c: char, x: string)
    ensures (EscapeChar(c) + x)[0] != '"' && ReadChar(EscapeChar(c) + x) == Some(Parsed(c, x))
  {
    var t := EscapeChar(c) + x;
    assert t[0] == EscapeChar(c)[0] && t[|EscapeChar(c)|..] == x;
    if |EscapeChar(c)| == 6 {
      HexReadsBack(c as int / 16);
      HexReadsBack(c as int % 16);
      assert t[2..6] == EscapeChar(c)[2..];
    } else if |EscapeChar(c)| == 2 {
      assert t[1] == EscapeChar(c)[1];
    }
  }

  /** An escaped string reads back as the string. */
  lemma {:induction false} StringReadsBack(s: string, x: string)
    ensures ReadString(Escape(s) + "\"" + x) == Some(Parsed(s, x))
  {
    hide EscapeChar, ReadChar;
    var t := Escape(s) + "\"" + x;
    if s == [] {
      assert t[1..] == x;
    } else {
      var t' := Escape(s[1..]) + "\"" + x;
      assert t == EscapeChar(s[0]) + t';
      CharReadsBack(s[0], t');
      StringReadsBack(s[1..], x);
      assert s == [s[0]] + s[1..];
    }
  }

  /** Escapes are the shortest there are, and hexadecimal digits are lower case
      (section 3.2.2.2 of RFC 8785). With StringReadsBack this fixes the text. */
  lemma EscapeShortest(c: char)
    ensures var r := EscapeChar(c);
            if c != '"' && c != '\\' && c as int >= 0x20 then r == [c]
            else if exists n :: n in "\"\\/btnfr" && Named(n) == Some(c) then |r| == 2
            else |r| == 6 && forall i | 2 <= i < 6 :: !('A' <= r[i] <= 'F')
  {
    assert forall n :: n in "\"\\/btnfr" ==> Named(n).Some?;
    var u := c as int;
    var r := EscapeChar(c);
    if |r| == 2 { assert r[1] in "\"\\/btnfr" && Named(r[1]) == Some(c); }
  }

  // ---------------------------------------------------------------------------
  // Values (sections 3 to 6 of RFC 8259), without white space
  // ---------------------------------------------------------------------------

  /** How many characters at the start of a text can belong to a number. */
  function NumberLength(t: string): (n: nat)
    ensures n <= |t|
  {
    if t == [] || !IsNumberChar(t[0]) then 0 else 1 + NumberLength(t[1..])
  }

  function ReadValue(t: string): (r: Option<Parsed<Json>>)
    ensures r.Some? ==> |r.value.rest| < |t|
    decreases |t|, 0
  {
    if t == [] then None
    else if t[0] == '"' then
      var s := ReadString(t[1..]);
      if s.None? then None else Some(Parsed(Str(s.value.value), s.value.rest))
    else if t[0] == '[' then
      if |t| > 1 && t[1] == ']' then Some(Parsed(Arr([]), t[2..]))
      else
        var items := ReadItems(t[1..]);
        if items.None? then None else Some(Parsed(Arr(items.value.value), items.value.rest))
    else if t[0] == '{' then
      if |t| > 1 && t[1] == '}' then Some(Parsed(Obj([]), t[2..]))
      else
        var fields := ReadMembers(t[1..]);
        if fields.None? then None else Some(Parsed(Obj(fields.value.value), fields.value.rest))
    else if "null" <= t then Some(Parsed(Null, t[4..]))
    else if "true" <= t then Some(Parsed(Bool(true), t[4..]))
    else if "false" <= t then Some(Parsed(Bool(false), t[5..]))
    else
      var n := NumberLength(t);
      if IsNumberText(t[..n]) then Some(Parsed(Num(t[..n]), t[n..])) else None
  }

  /** At least one item, and the closing bracket. */
  function ReadItems(t: string): (r: Option<Parsed<seq<Json>>>)
    ensures r.Some? ==> |r.value.rest| < |t|
    decreases |t|, 1
  {
    var v := ReadValue(t);
    if v.None? || v.value.rest == [] then None
    else if v.value.rest[0] == ']' then Some(Parsed([v.value.value], v.value.rest[1..]))
    else if v.value.rest[0] == ',' then
      var more := ReadItems(v.value.rest[1..]);
      if more.None? then None else Some(Parsed([v.value.value] + more.value.value, more.value.rest))
    else None
  }

  function ReadMember(t: string): (r: Option<Parsed<Field>>)
    ensures r.Some? ==> |r.value.rest| < |t|
    decreases |t|, 1
  {
    if t == [] || t[0] != '"' then None
    else
      var k := ReadString(t[1..]);
      if k.None? || k.value.rest == [] || k.value.rest[0] != ':' then None
      else
        var v := ReadValue(k.value.rest[1..]);
        if v.None? then None else Some(Parsed(Field(k.value.value, v.value.value), v.value.rest))
  }

  function ReadMembers(t: string): (r: Option<Parsed<seq<Field>>>)
    ensures r.Some? ==> |r.value.rest| < |t|
    decreases |t|, 2
  {
    var f := ReadMember(t);
    if f.None? || f.value.rest == [] then None
    else if f.value.rest[0] == '}' then Some(Parsed([f.value.value], f.value.rest[1..]))
    else if f.value.rest[0] == ',' then
      var more := ReadMembers(f.value.rest[1..]);
      if more.None? then None else Some(Parsed([f.value.value] + more.value.value, more.value.rest))
    else None
  }

  /** The integer that a numeral denotes: an optional minus and decimal digits
      without leading zeros (section 6 of RFC 8259). */
  function IntegerValue(d: string): Option<int>
  {
    if d != [] && d[0] == '-' then
      var n := NaturalValue(d[1..]);
      if n.None? then None else Some(-(n.value as int))
    else
      var n := NaturalValue(d);
      if n.None? then None else Some(n.value)
  }

  function NaturalValue(d: string): Option<nat>
  {
    if d == [] || !('0' <= d[|d| - 1] <= '9') then None
    else
      var last := d[|d| - 1] as int - '0' as int;
      if |d| == 1 then Some(last)
      else
        var n := NaturalValue(d[..|d| - 1]);
        if n.None? || n.value == 0 then None else Some(n.value * 10 + last)
  }

  lemma {:induction false} DigitsReadBack(n: nat)
    ensures NaturalValue(Digits(n)) == Some(n)
  {
    var d := Digits(n);
    assert d[|d| - 1] == ('0' as int + n % 10) as char;
    if n >= 10 {
      DigitsReadBack(n / 10);
      assert d[..|d| - 1] == Digits(n / 10);
    }
  }

  /** A printed version number reads back as the number. */
  lemma DecimalReadsBack(n: int)
    ensures IntegerValue(Decimal(n)) == Some(n)
  {
    if n < 0 {
      DigitsReadBack(-n);
      assert Decimal(n)[1..] == Digits(-n);
    } else {
      DigitsReadBack(n);
    }
  }

  // ---------------------------------------------------------------------------
  // The canonical text reads back
  // ---------------------------------------------------------------------------

  lemma {:induction false} NumberLengthIs(d: string, x: string)
    requires (forall i | 0 <= i < |d| :: IsNumberChar(d[i])) && Delimited(x)
    ensures NumberLength(d + x) == |d|
  {
    if d == [] {
      assert d + x == x;
    } else {
      assert (d + x)[1..] == d[1..] + x;
      NumberLengthIs(d[1..], x);
    }
  }

  lemma NumberReadsBack(d: string, x: string)
    requires IsNumberText(d) && Delimited(x)
    ensures ReadValue(d + x) == Some(Parsed(Num(d), x))
  {
    var t := d + x;
    NumberLengthIs(d, x);
    assert t[0] == d[0] && t[..|d|] == d && t[|d|..] == x;
  }

  lemma WordReadsBack(v: Json, x: string)
    requires v.Null? || v.Bool?
    ensures ReadValue(Print(v) + x) == Some(Parsed(v, x))
  {
    var w := Print(v);
    assert (w + x)[..|w|] == w && (w + x)[|w|..] == x;
    assert (w + x)[0] == w[0];
  }

  /** A printed normal value reads back as the value, whatever follows, provided a
      number is followed by a delimiter. */
  lemma {:induction false} ReadsBack(v: Json, x: string)
    requires Normal(v) && (Delimited(x) || v.Obj?)
    ensures ReadValue(Print(v) + x) == Some(Parsed(v, x))
    decreases v, 0
  {
    var t := Print(v) + x;
    match v
    case Null => WordReadsBack(v, x);
    case Bool(_) => WordReadsBack(v, x);
    case Num(d) => NumberReadsBack(d, x);
    case Str(s) =>
      assert t[1..] == Escape(s) + "\"" + x;
      StringReadsBack(s, x);
    case Arr(items) =>
      if items != [] { ItemsReadBack(items, x); }
      ArrayReadsBack(items, x);
    case Obj(fields) =>
      if fields != [] { MembersReadBack(fields, x); }
      ObjectReadsBack(fields, x);
  }

  lemma ArrayReadsBack(items: seq<Json>, x: string)
    requires Normal(Arr(items))
    requires items != [] ==> ReadItems(PrintItems(items) + ("]" + x)) == Some(Parsed(items, x))
    requires items != [] ==> (PrintItems(items) + ("]" + x))[0] != ']'
    ensures ReadValue(Print(Arr(items)) + x) == Some(Parsed(Arr(items), x))
  {
    hide ReadMembers, ReadItems, ReadString, PrintMembers;
    var t := Print(Arr(items)) + x;
    assert t[1..] == PrintItems(items) + ("]" + x);
    if items == [] { assert t[1] == ']' && t[2..] == x; }
  }

  lemma ObjectReadsBack(fields: seq<Field>, x: string)
    requires Normal(Obj(fields))
    requires fields != [] ==> ReadMembers(PrintMembers(fields) + ("}" + x)) == Some(Parsed(fields, x))
    requires fields != [] ==> (PrintMembers(fields) + ("}" + x))[0] != '}'
    ensures ReadValue(Print(Obj(fields)) + x) == Some(Parsed(Obj(fields), x))
  {
    hide ReadMembers, ReadItems, ReadString, PrintMember, PrintItems, Sorted;
    var t := Print(Obj(fields)) + x;
    assert t[1..] == PrintMembers(fields) + ("}" + x);
    if fields == [] { assert t[1] == '}' && t[2..] == x; }
  }

  lemma {:induction false} ItemsReadBack(items: seq<Json>, x: string)
    requires items != [] && NormalItems(items)
    ensures ReadItems(PrintItems(items) + ("]" + x)) == Some(Parsed(items, x))
    ensures (PrintItems(items) + ("]" + x))[0] != ']'
    decreases items, 0
  {
    hide Print, Normal, ReadValue;
    var behind := AfterItem(items, "]" + x);
    ItemsFirst(items, "]" + x);
    ReadsBack(items[0], behind);
    if |items| > 1 {
      ItemsReadBack(items[1..], x);
      assert items == [items[0]] + items[1..];
    } else {
      assert behind[1..] == x && items == [items[0]];
    }
  }

  lemma {:induction false} MemberReadsBack(f: Field, x: string)
    requires Normal(f.value) && Delimited(x)
    ensures ReadMember(PrintMember(f) + x) == Some(Parsed(f, x))
    decreases f, 1
  {
    hide Print, Normal, ReadValue, ReadString, Escape;
    var t, behind := PrintMember(f) + x, ":" + (Print(f.value) + x);
    assert t[1..] == Escape(f.key) + "\"" + behind;
    StringReadsBack(f.key, behind);
    assert behind[1..] == Print(f.value) + x;
    ReadsBack(f.value, x);
  }

  lemma {:induction false} MembersReadBack(fields: seq<Field>, x: string)
    requires fields != [] && NormalFields(fields)
    ensures ReadMembers(PrintMembers(fields) + ("}" + x)) == Some(Parsed(fields, x))
    ensures (PrintMembers(fields) + ("}" + x))[0] != '}'
    decreases fields, 0
  {
    hide Print, Normal, ReadMember, PrintMember;
    var behind := AfterMember(fields, "}" + x);
    MembersFirst(fields, "}" + x);
    MemberReadsBack(fields[0], behind);
    if |fields| > 1 {
      MembersReadBack(fields[1..], x);
      assert fields == [fields[0]] + fields[1..];
    } else {
      assert behind[1..] == x && fields == [fields[0]];
    }
  }

  /** What the logical content of an object is: its defined properties, with their
      logical contents, under ascending keys. */
  lemma ContentOf(fields: seq<Field>, at: seq<nat>, keys: seq<string>)
    requires Distinct(KeysOf(fields)) && |at| == |keys| && Sorted(keys)
    requires forall j | 0 <= j < |at| :: at[j] < |fields| && fields[at[j]].value != Undefined && fields[at[j]].key == keys[j]
    requires forall i: nat | i < |fields| && fields[i].value != Undefined :: i in at
    ensures Normalise(Obj(fields)).Obj? && |Normalise(Obj(fields)).fields| == |at|
    ensures forall j | 0 <= j < |at| :: Normalise(Obj(fields)).fields[j] == Field(keys[j], Normalise(fields[at[j]].value))
  {
    PrintedKeysAre(fields, at, keys);
    ContentUnder(fields, keys);
    hide Normalise, Distinct, Sorted;
    forall j | 0 <= j < |at| ensures Normalise(Obj(fields)).fields[j] == Field(keys[j], Normalise(fields[at[j]].value)) {
      IndexOfDistinct(fields, at[j]);
    }
  }

  lemma PrintedKeysAre(fields: seq<Field>, at: seq<nat>, keys: seq<string>)
    requires Distinct(KeysOf(fields)) && |at| == |keys| && Sorted(keys)
    requires forall j | 0 <= j < |at| :: at[j] < |fields| && fields[at[j]].value != Undefined && fields[at[j]].key == keys[j]
    requires forall i: nat | i < |fields| && fields[i].value != Undefined :: i in at
    ensures PrintedKeys(fields) == keys
  {
    PrintedKeysMeaning(fields);
    hide PrintedKeys, Sorted, MembersChainable, Chainable, Distinct;
    forall x ensures x in PrintedKeys(fields) <==> x in keys {
      if x in keys {
        var j :| 0 <= j < |keys| && keys[j] == x;
        IndexOfDistinct(fields, at[j]);
      }
      if x in PrintedKeys(fields) {
        var j :| 0 <= j < |at| && at[j] == IndexOf(fields, x);
        assert keys[j] == x;
      }
    }
    SortedUnique(PrintedKeys(fields), keys);
  }

  lemma ContentUnder(fields: seq<Field>, keys: seq<string>)
    requires PrintedKeys(fields) == keys
    ensures Normalise(Obj(fields)).Obj? && |Normalise(Obj(fields)).fields| == |keys|
    ensures forall j | 0 <= j < |keys| ::
              HasKey(fields, keys[j]) && Normalise(Obj(fields)).fields[j] == Field(keys[j], Normalise(fields[IndexOf(fields, keys[j])].value))
  {
    var r := NormaliseMembers(fields, keys);
    assert Normalise(Obj(fields)) == Obj(r) && |r| == |KeysOf(r)|;
    hide Normalise, NormaliseMembers, PrintedKeys;
    forall j | 0 <= j < |keys|
      ensures HasKey(fields, keys[j]) && r[j] == Field(keys[j], Normalise(fields[IndexOf(fields, keys[j])].value))
    {
      assert keys[j] in keys;
      NormaliseMembersAt(fields, keys, j);
    }
  }

  lemma ContentOfScalar(v: Json)
    requires v.Str? || v.Num? || v.Null? || v.Bool?
    ensures Normalise(v) == v
  {
  }

  /** The logical content of an array: its items in order, null where undefined. */
  lemma ContentOfItems(items: seq<Json>)
    ensures Normalise(Arr(items)) ==
              Arr(seq(|items|, i requires 0 <= i < |items| => if items[i] == Undefined then Null else Normalise(items[i])))
  {
    forall i | 0 <= i < |items|
      ensures NormaliseItems(items)[i] == if items[i] == Undefined then Null else Normalise(items[i])
    {
      NormaliseItemsAt(items, i);
    }
  }

  /** canonicalJson of a chainable value is JSON text, and reads back as the value's
      logical content: undefined properties gone, undefined items null, keys
      ascending. */
  lemma CanonicalReadsBack(v: Json)
    requires Data(v) && Chainable(v)
    ensures Serialize(v).Some? && ReadValue(Serialize(v).value) == Some(Parsed(Normalise(v), ""))
  {
    SerializeMeaning(v);
    ReadsBack(Normalise(v), "");
    assert Print(Normalise(v)) + "" == Print(Normalise(v));
  }
}
