/**
 * The canonical text of a JSON value, whose hash is the worker's acceptance evidence: two values have the same text
 * exactly when they are equal up to the order of object keys.
 */
module CanonicalJson {

  /** UTF-16 code units: what a string is made of, what keys are sorted by, and what quoting looks at. */
  type Unit = u: int | 0 <= u < 0x1_0000

  type Text = seq<Unit>

  /** A number is identified with the literal that the language prints for it. */
  datatype Json =
    | Null
    | Bool(value: bool)
    | Number(literal: Text)
    | Str(text: Text)
    | Arr(items: seq<Json>)
    | Obj(fields: seq<Field>)

  /** Fields in the order in which the object lists them. */
  datatype Field = Field(key: Text, value: Json)

  const QUOTE: Unit := 0x22
  const COMMA: Unit := 0x2C
  const COLON: Unit := 0x3A
  const BACKSLASH: Unit := 0x5C
  const OPEN_ARRAY: Unit := 0x5B
  const CLOSE_ARRAY: Unit := 0x5D
  const OPEN_OBJECT: Unit := 0x7B
  const CLOSE_OBJECT: Unit := 0x7D
  const LETTER_U: Unit := 0x75
  const NULL_TEXT: Text := [0x6E, 0x75, 0x6C, 0x6C]
  const TRUE_TEXT: Text := [0x74, 0x72, 0x75, 0x65]
  const FALSE_TEXT: Text := [0x66, 0x61, 0x6C, 0x73, 0x65]

  /** Digits, sign, point and exponent. */
  predicate NumberUnit(u: Unit) {
    0x30 <= u <= 0x39 || u in {0x2B, 0x2D, 0x2E, 0x45, 0x65}
  }

  predicate NumberLiteral(t: Text) {
    |t| > 0 && (0x30 <= t[0] <= 0x39 || t[0] == 0x2D) && forall i :: 0 <= i < |t| ==> NumberUnit(t[i])
  }

  predicate DistinctKeys(fields: seq<Field>) {
    forall i, j :: 0 <= i < j < |fields| ==> fields[i].key != fields[j].key
  }

  /** Number literals are literals, and no object has a key twice. */
  predicate Valid(j: Json) {
    match j
    case Number(literal) => NumberLiteral(literal)
    case Arr(items) => forall i :: 0 <= i < |items| ==> Valid(items[i])
    case Obj(fields) => DistinctKeys(fields) && forall i :: 0 <= i < |fields| ==> Valid(fields[i].value)
    case _ => true
  }

  // ---------------------------------------------------------------- quoting

  predicate IsHigh(u: Unit) {
    0xD800 <= u <= 0xDBFF
  }

  predicate IsLow(u: Unit) {
    0xDC00 <= u <= 0xDFFF
  }

  function HexDigit(d: int): (u: Unit)
    requires 0 <= d < 16
  {
    if d < 10 then 0x30 + d else 0x57 + d
  }

  function Hex4(u: Unit): (t: Text)
    ensures |t| == 4
  {
    [HexDigit(u / 0x1000), HexDigit(u / 0x100 % 16), HexDigit(u / 16 % 16), HexDigit(u % 16)]
  }

  /** The letter of a two-unit escape, or 0. */
  function ShortEscape(u: Unit): Unit {
    if u == 0x08 then 0x62
    else if u == 0x09 then 0x74
    else if u == 0x0A then 0x6E
    else if u == 0x0C then 0x66
    else if u == 0x0D then 0x72
    else if u == QUOTE || u == BACKSLASH then u
    else 0
  }

  function EscapeUnit(u: Unit): Text {
    if ShortEscape(u) != 0 then [BACKSLASH, ShortEscape(u)]
    else if u < 0x20 || IsHigh(u) || IsLow(u) then [BACKSLASH, LETTER_U] + Hex4(u)
    else [u]
  }

  /** How many units the next token stands for: a surrogate pair is copied whole. */
  function Used(s: Text): (n: nat)
    requires |s| > 0
    ensures 1 <= n <= |s|
  {
    if IsHigh(s[0]) && |s| > 1 && IsLow(s[1]) then 2 else 1
  }

  function Token(s: Text): Text
    requires |s| > 0
  {
    if Used(s) == 2 then s[..2] else EscapeUnit(s[0])
  }

  /** The escaped units and the closing quote. */
  function QuotedTail(s: Text): Text {
    if s == [] then [QUOTE] else Token(s) + QuotedTail(s[Used(s)..])
  }

  /** JSON.stringify of a string. */
  function Quote(s: Text): Text {
    [QUOTE] + QuotedTail(s)
  }

  // ---------------------------------------------------------------- sorting keys

  /** Comparison by code units, as the language sorts strings. */
  predicate Below(a: Text, b: Text) {
    if b == [] then false
    else if a == [] then true
    else a[0] < b[0] || (a[0] == b[0] && Below(a[1..], b[1..]))
  }

  function InsertKey(key: Text, keys: seq<Text>): seq<Text> {
    if keys == [] || Below(key, keys[0]) then [key] + keys else [keys[0]] + InsertKey(key, keys[1..])
  }

  function SortKeys(keys: seq<Text>): seq<Text> {
    if keys == [] then [] else InsertKey(keys[0], SortKeys(keys[1..]))
  }

  function KeysOf(fields: seq<Field>): (keys: seq<Text>)
    ensures |keys| == |fields| && forall i :: 0 <= i < |keys| ==> keys[i] == fields[i].key
  {
    seq(|fields|, i requires 0 <= i < |fields| => fields[i].key)
  }

  /** The value under a key. */
  function ValueOf(fields: seq<Field>, key: Text): (v: Json)
    requires key in KeysOf(fields)
    ensures exists i :: 0 <= i < |fields| && fields[i] == Field(key, v)
  {
    if fields[0].key == key then fields[0].value
    else
      assert key in KeysOf(fields[1..]) by {
        var i :| 0 <= i < |fields| && KeysOf(fields)[i] == key;
        assert KeysOf(fields[1..])[i - 1] == key;
      }
      ValueOf(fields[1..], key)
  }

  lemma {:induction false} InsertedKeys(key: Text, keys: seq<Text>)
    ensures forall k :: k in InsertKey(key, keys) <==> k == key || k in keys
  {
    if keys != [] && !Below(key, keys[0]) {
      InsertedKeys(key, keys[1..]);
      assert keys == [keys[0]] + keys[1..];
    }
  }

  lemma {:induction false} SortedKeys(keys: seq<Text>)
    ensures forall k :: k in SortKeys(keys) <==> k in keys
  {
    if keys != [] {
      SortedKeys(keys[1..]);
      InsertedKeys(keys[0], SortKeys(keys[1..]));
      assert keys == [keys[0]] + keys[1..];
    }
  }

  // ---------------------------------------------------------------- the canonical text

  predicate KnownKeys(j: Json, keys: seq<Text>)
    requires j.Obj?
  {
    forall i :: 0 <= i < |keys| ==> keys[i] in KeysOf(j.fields)
  }

  /** canonicalizeJson. */
  function Canonical(j: Json): Text
    decreases j, 1, 0
  {
    match j
    case Null => NULL_TEXT
    case Bool(b) => if b then TRUE_TEXT else FALSE_TEXT
    case Number(literal) => literal
    case Str(s) => Quote(s)
    case Arr(items) => [OPEN_ARRAY] + ItemsFrom(j, 0)
    case Obj(fields) =>
      SortedKeys(KeysOf(fields));
      [OPEN_OBJECT] + FieldsFrom(j, SortKeys(KeysOf(fields)), 0)
  }

  function Separator(k: nat): Text {
    if k == 0 then [] else [COMMA]
  }

  /** The items from a position on, joined with commas, and the closing bracket. */
  function ItemsFrom(j: Json, k: nat): Text
    requires j.Arr? && k <= |j.items|
    decreases j, 0, |j.items| - k
  {
    if k == |j.items| then [CLOSE_ARRAY] else Separator(k) + Canonical(j.items[k]) + ItemsFrom(j, k + 1)
  }

  /** The fields of some keys, joined with commas, and the closing brace. */
  function FieldsFrom(j: Json, keys: seq<Text>, k: nat): Text
    requires j.Obj? && k <= |keys| && KnownKeys(j, keys)
    decreases j, 0, |keys| - k
  {
    if k == |keys| then [CLOSE_OBJECT]
    else Separator(k) + Quote(keys[k]) + [COLON] + Canonical(ValueOf(j.fields, keys[k])) + FieldsFrom(j, keys, k + 1)
  }

  /** Equal up to the order of object keys, at every depth. */
  ghost predicate Same(a: Json, b: Json)
    decreases a
  {
    match a
    case Arr(items) => b.Arr? && |items| == |b.items| && forall i :: 0 <= i < |items| ==> Same(items[i], b.items[i])
    case Obj(fields) =>
      && b.Obj?
      && (forall key :: key in KeysOf(fields) <==> key in KeysOf(b.fields))
      && (forall key | key in KeysOf(fields) && key in KeysOf(b.fields) ::
            Same(ValueOf(fields, key), ValueOf(b.fields, key)))
    case _ => a == b
  }

  // ---------------------------------------------------------------- quoting is uniquely decodable

  lemma HexIsInjective(u: Unit, v: Unit)
    requires Hex4(u) == Hex4(v)
    ensures u == v
  {
    var a, b := Hex4(u), Hex4(v);
    assert a[0] == b[0] && a[1] == b[1] && a[2] == b[2] && a[3] == b[3];
    HexDigitIsInjective(u / 0x1000, v / 0x1000);
    HexDigitIsInjective(u / 0x100 % 16, v / 0x100 % 16);
    HexDigitIsInjective(u / 16 % 16, v / 16 % 16);
    HexDigitIsInjective(u % 16, v % 16);
    Nibbles(u);
    Nibbles(v);
  }

  lemma HexDigitIsInjective(c: int, d: int)
    requires 0 <= c < 16 && 0 <= d < 16 && HexDigit(c) == HexDigit(d)
    ensures c == d
  {
  }

  lemma Nibbles(u: Unit)
    ensures u == u / 0x1000 * 0x1000 + u / 0x100 % 16 * 0x100 + u / 16 % 16 * 16 + u % 16
  {
    assert u / 0x100 == u / 0x1000 * 16 + u / 0x100 % 16;
    assert u / 16 == u / 0x100 * 16 + u / 16 % 16;
  }

  lemma TokenShape(s: Text)
    requires |s| > 0
    ensures |Token(s)| > 0 && Token(s)[0] != QUOTE
    ensures Used(s) == 2 <==> IsHigh(Token(s)[0])
    ensures Used(s) == 2 ==> |Token(s)| == 2
    ensures Used(s) == 1 && Token(s)[0] != BACKSLASH ==> Token(s) == [s[0]]
    ensures Used(s) == 1 && Token(s)[0] == BACKSLASH ==> |Token(s)| >= 2
    ensures Used(s) == 1 && Token(s)[0] == BACKSLASH && Token(s)[1] != LETTER_U ==> Token(s) == [BACKSLASH, ShortEscape(s[0])]
    ensures Used(s) == 1 && Token(s)[0] == BACKSLASH && Token(s)[1] == LETTER_U ==> Token(s) == [BACKSLASH, LETTER_U] + Hex4(s[0])
  {
    hide Hex4;
  }

  lemma ShortEscapeIsInjective(u: Unit, v: Unit)
    requires ShortEscape(u) == ShortEscape(v) != 0
    ensures u == v
  {
  }

  /** Concatenation by name, so that proofs can keep it folded. */
  function Cat(a: Text, b: Text): Text {
    a + b
  }

  lemma Prefix(a: Text, x: Text, b: Text, y: Text)
    requires Cat(a, x) == Cat(b, y) && |a| == |b|
    ensures a == b && x == y
  {
    assert a == Cat(a, x)[..|a|] && b == Cat(b, y)[..|b|];
    assert x == Cat(a, x)[|a|..] && y == Cat(b, y)[|b|..];
  }

  /** A token and what follows it can be told apart, and the token tells its units. */
  lemma TokenIsUnique(s: Text, x: Text, t: Text, y: Text)
    requires |s| > 0 && |t| > 0 && Token(s) + x == Token(t) + y
    ensures Used(s) == Used(t) && s[..Used(s)] == t[..Used(t)] && x == y
  {
    TokenShape(s);
    TokenShape(t);
    var a, b := Token(s), Token(t);
    assert a[0] == (a + x)[0] && b[0] == (b + y)[0];
    assert Cat(a, x) == Cat(b, y);
    if Used(s) == 2 {
      Prefix(a, x, b, y);
    } else if a[0] != BACKSLASH {
      Prefix(a, x, b, y);
    } else {
      assert a[1] == (a + x)[1] && b[1] == (b + y)[1];
      Prefix(a, x, b, y);
      if a[1] == LETTER_U {
        assert Hex4(s[0]) == a[2..] && Hex4(t[0]) == b[2..];
        HexIsInjective(s[0], t[0]);
      } else {
        ShortEscapeIsInjective(s[0], t[0]);
      }
    }
  }

  lemma TailStart(s: Text)
    ensures |QuotedTail(s)| > 0 && (QuotedTail(s)[0] == QUOTE <==> s == [])
  {
    if s != [] {
      TokenShape(s);
    }
  }

  lemma TailSplits(s: Text, x: Text)
    requires s != []
    ensures QuotedTail(s) + x == Token(s) + (QuotedTail(s[Used(s)..]) + x)
  {
    hide Token;
    hide Used;
  }

  /** A quoted string ends where it says. */
  lemma {:induction false} QuotedTailIsUnique(s: Text, x: Text, t: Text, y: Text)
    requires QuotedTail(s) + x == QuotedTail(t) + y
    ensures s == t && x == y
    decreases |s|
  {
    TailStart(s);
    TailStart(t);
    assert QuotedTail(s)[0] == (QuotedTail(s) + x)[0] && QuotedTail(t)[0] == (QuotedTail(t) + y)[0];
    if s == [] {
      assert Cat(QuotedTail(s), x) == Cat(QuotedTail(t), y);
      Prefix(QuotedTail(s), x, QuotedTail(t), y);
    } else {
      hide QuotedTail;
      hide Token;
      TailSplits(s, x);
      TailSplits(t, y);
      var s', t' := s[Used(s)..], t[Used(t)..];
      TokenIsUnique(s, QuotedTail(s') + x, t, QuotedTail(t') + y);
      hide Used;
      QuotedTailIsUnique(s', x, t', y);
      assert s == s[..Used(s)] + s' && t == t[..Used(t)] + t';
    }
  }

  lemma QuoteStarts(s: Text, x: Text)
    ensures Cat(Quote(s), x) == Cat([QUOTE], QuotedTail(s) + x)
  {
    hide QuotedTail;
  }

  lemma QuoteIsUnique(s: Text, x: Text, t: Text, y: Text)
    requires Cat(Quote(s), x) == Cat(Quote(t), y)
    ensures s == t && x == y
  {
    hide *;
    QuoteStarts(s, x);
    QuoteStarts(t, y);
    Prefix([QUOTE], QuotedTail(s) + x, [QUOTE], QuotedTail(t) + y);
    QuotedTailIsUnique(s, x, t, y);
  }

  // ---------------------------------------------------------------- values are uniquely decodable

  /** What may follow a value: the end, a comma or a closing bracket, none of which continues a number. */
  predicate Delimited(x: Text) {
    |x| == 0 || x[0] in {COMMA, CLOSE_ARRAY, CLOSE_OBJECT}
  }

  /** The first unit of a value tells its kind. */
  lemma FirstUnit(j: Json)
    requires Valid(j)
    ensures |Canonical(j)| > 0
    ensures var u := Canonical(j)[0];
            && (u == 0x6E <==> j.Null?) && (u == 0x74 <==> j == Bool(true)) && (u == 0x66 <==> j == Bool(false))
            && (NumberUnit(u) <==> j.Number?) && (u == QUOTE <==> j.Str?)
            && (u == OPEN_ARRAY <==> j.Arr?) && (u == OPEN_OBJECT <==> j.Obj?)
  {
    hide QuotedTail;
    hide SortKeys;
    hide ItemsFrom;
    hide FieldsFrom;
  }

  lemma LiteralUnit(t: Text, i: nat)
    requires NumberLiteral(t) && i < |t|
    ensures NumberUnit(t[i])
  {
  }

  lemma LiteralEnds(a: Text, x: Text, b: Text, y: Text)
    requires NumberLiteral(b) && Delimited(x) && Cat(a, x) == Cat(b, y)
    ensures |a| >= |b|
  {
    if |a| < |b| {
      assert Cat(a, x)[|a|] == Cat(b, y)[|a|] == b[|a|];
      assert |x| > 0 && x[0] == b[|a|];
      LiteralUnit(b, |a|);
    }
  }

  lemma NumberIsUnique(a: Text, x: Text, b: Text, y: Text)
    requires NumberLiteral(a) && NumberLiteral(b) && Delimited(x) && Delimited(y) && Cat(a, x) == Cat(b, y)
    ensures a == b && x == y
  {
    LiteralEnds(a, x, b, y);
    LiteralEnds(b, y, a, x);
    Prefix(a, x, b, y);
  }

  lemma ItemsFromStart(j: Json, k: nat)
    requires j.Arr? && k <= |j.items| && Valid(j)
    ensures |ItemsFrom(j, k)| > 0
    ensures k == |j.items| ==> ItemsFrom(j, k)[0] == CLOSE_ARRAY
    ensures k < |j.items| ==> ItemsFrom(j, k)[0] != CLOSE_ARRAY
    ensures k > 0 ==> Delimited(ItemsFrom(j, k))
  {
    if k < |j.items| {
      FirstUnit(j.items[k]);
      hide Canonical;
      hide Valid;
    }
  }

  lemma Head(p: Text, x: Text)
    requires |p| > 0
    ensures |Cat(p, x)| > 0 && Cat(p, x)[0] == p[0]
    ensures Delimited(p) ==> Delimited(Cat(p, x))
  {
  }

  lemma ItemsStep(j: Json, k: nat, x: Text)
    requires j.Arr? && k < |j.items|
    ensures Cat(ItemsFrom(j, k), x) == Cat(Separator(k), Cat(Canonical(j.items[k]), Cat(ItemsFrom(j, k + 1), x)))
  {
    hide Canonical;
  }

  lemma ItemIsValid(j: Json, k: nat)
    requires j.Arr? && Valid(j) && k < |j.items|
    ensures Valid(j.items[k])
  {
  }

  /** Arrays: item by item, from a common position on. */
  lemma {:induction false} ItemsAreUnique(a: Json, x: Text, b: Json, y: Text, k: nat)
    requires a.Arr? && b.Arr? && k <= |a.items| && k <= |b.items| && Valid(a) && Valid(b)
    requires Cat(ItemsFrom(a, k), x) == Cat(ItemsFrom(b, k), y)
    ensures |a.items| == |b.items| && x == y && forall i :: k <= i < |a.items| ==> Same(a.items[i], b.items[i])
    decreases a, 0, |a.items| - k
  {
    hide *;
    ItemsFromStart(a, k);
    ItemsFromStart(b, k);
    Head(ItemsFrom(a, k), x);
    Head(ItemsFrom(b, k), y);
    if k == |a.items| {
      OneUnitLeft(a, b, k);
      Prefix(ItemsFrom(a, k), x, ItemsFrom(b, k), y);
    } else {
      var p, q := Cat(ItemsFrom(a, k + 1), x), Cat(ItemsFrom(b, k + 1), y);
      ItemsStep(a, k, x);
      ItemsStep(b, k, y);
      Prefix(Separator(k), Cat(Canonical(a.items[k]), p), Separator(k), Cat(Canonical(b.items[k]), q));
      ItemsFromStart(a, k + 1);
      ItemsFromStart(b, k + 1);
      Head(ItemsFrom(a, k + 1), x);
      Head(ItemsFrom(b, k + 1), y);
      ItemIsValid(a, k);
      ItemIsValid(b, k);
      ValueIsUnique(a.items[k], p, b.items[k], q);
      ItemsAreUnique(a, x, b, y, k + 1);
    }
  }

  lemma OneUnitLeft(a: Json, b: Json, k: nat)
    requires a.Arr? && b.Arr? && k == |a.items| == |b.items|
    ensures ItemsFrom(a, k) == ItemsFrom(b, k)
  {
  }

  lemma ValueIsValid(j: Json, key: Text)
    requires j.Obj? && Valid(j) && key in KeysOf(j.fields)
    ensures Valid(ValueOf(j.fields, key))
  {
  }

  lemma FieldsFromStart(j: Json, keys: seq<Text>, k: nat)
    requires j.Obj? && KnownKeys(j, keys) && k <= |keys|
    ensures |FieldsFrom(j, keys, k)| > 0
    ensures k == |keys| ==> FieldsFrom(j, keys, k)[0] == CLOSE_OBJECT
    ensures k < |keys| ==> FieldsFrom(j, keys, k)[0] != CLOSE_OBJECT
    ensures k > 0 ==> Delimited(FieldsFrom(j, keys, k))
  {
    hide Canonical;
    hide QuotedTail;
  }

  lemma FieldsStep(j: Json, keys: seq<Text>, k: nat, x: Text)
    requires j.Obj? && KnownKeys(j, keys) && k < |keys|
    ensures Cat(FieldsFrom(j, keys, k), x) ==
            Cat(Separator(k),
                Cat(Quote(keys[k]),
                    Cat([COLON], Cat(Canonical(ValueOf(j.fields, keys[k])), Cat(FieldsFrom(j, keys, k + 1), x)))))
  {
    hide Canonical;
    hide Quote;
  }

  lemma NoFieldLeft(a: Json, b: Json, ka: seq<Text>, kb: seq<Text>, k: nat)
    requires a.Obj? && b.Obj? && KnownKeys(a, ka) && KnownKeys(b, kb) && k == |ka| == |kb|
    ensures FieldsFrom(a, ka, k) == FieldsFrom(b, kb, k) && ka[k..] == kb[k..]
  {
  }

  lemma NextKeys(ka: seq<Text>, kb: seq<Text>, k: nat)
    requires k < |ka| == |kb| && ka[k] == kb[k] && ka[k + 1..] == kb[k + 1..]
    ensures ka[k..] == kb[k..]
  {
    assert ka[k..] == [ka[k]] + ka[k + 1..] && kb[k..] == [kb[k]] + kb[k + 1..];
  }

  lemma OneField(a: Json, x: Text, b: Json, y: Text, ka: seq<Text>, kb: seq<Text>, k: nat)
    requires a.Obj? && b.Obj? && KnownKeys(a, ka) && KnownKeys(b, kb) && k < |ka| && k < |kb| && Valid(a) && Valid(b)
    requires ka[k] in KeysOf(a.fields) && kb[k] in KeysOf(b.fields)
    requires Cat(FieldsFrom(a, ka, k), x) == Cat(FieldsFrom(b, kb, k), y)
    ensures var p, q := Cat(FieldsFrom(a, ka, k + 1), x), Cat(FieldsFrom(b, kb, k + 1), y);
            && ka[k] == kb[k] && Delimited(p) && Delimited(q)
            && Cat(Canonical(ValueOf(a.fields, ka[k])), p) == Cat(Canonical(ValueOf(b.fields, kb[k])), q)
  {
    hide *;
    var va, vb := ValueOf(a.fields, ka[k]), ValueOf(b.fields, kb[k]);
    var p, q := Cat(FieldsFrom(a, ka, k + 1), x), Cat(FieldsFrom(b, kb, k + 1), y);
    var m, n := Cat([COLON], Cat(Canonical(va), p)), Cat([COLON], Cat(Canonical(vb), q));
    FieldsStep(a, ka, k, x);
    FieldsStep(b, kb, k, y);
    Prefix(Separator(k), Cat(Quote(ka[k]), m), Separator(k), Cat(Quote(kb[k]), n));
    QuoteIsUnique(ka[k], m, kb[k], n);
    Prefix([COLON], Cat(Canonical(va), p), [COLON], Cat(Canonical(vb), q));
    FieldsFromStart(a, ka, k + 1);
    FieldsFromStart(b, kb, k + 1);
    Head(FieldsFrom(a, ka, k + 1), x);
    Head(FieldsFrom(b, kb, k + 1), y);
  }

  /** Either both lists of keys end here, or neither does. */
  lemma EndTogether(a: Json, x: Text, b: Json, y: Text, ka: seq<Text>, kb: seq<Text>, k: nat)
    requires a.Obj? && b.Obj? && KnownKeys(a, ka) && KnownKeys(b, kb) && k <= |ka| && k <= |kb|
    requires Cat(FieldsFrom(a, ka, k), x) == Cat(FieldsFrom(b, kb, k), y)
    ensures k == |ka| <==> k == |kb|
    ensures k == |ka| ==> x == y && ka[k..] == kb[k..]
  {
    hide *;
    FieldsFromStart(a, ka, k);
    FieldsFromStart(b, kb, k);
    Head(FieldsFrom(a, ka, k), x);
    Head(FieldsFrom(b, kb, k), y);
    if k == |ka| {
      NoFieldLeft(a, b, ka, kb, k);
      Prefix(FieldsFrom(a, ka, k), x, FieldsFrom(b, kb, k), y);
    }
  }

  /** The values of two objects under a key of each are the same. */
  ghost predicate SameUnder(a: Json, b: Json, ka: Text, kb: Text)
    requires a.Obj? && b.Obj?
  {
    ka in KeysOf(a.fields) && kb in KeysOf(b.fields) && Same(ValueOf(a.fields, ka), ValueOf(b.fields, kb))
  }

  lemma KeyIsKnown(j: Json, keys: seq<Text>, k: nat)
    requires j.Obj? && KnownKeys(j, keys) && k < |keys|
    ensures keys[k] in KeysOf(j.fields)
  {
  }

  lemma UnderIsSame(a: Json, b: Json, ka: Text, kb: Text)
    requires a.Obj? && b.Obj? && ka in KeysOf(a.fields) && kb in KeysOf(b.fields)
    ensures SameUnder(a, b, ka, kb) <==> Same(ValueOf(a.fields, ka), ValueOf(b.fields, kb))
  {
    hide Same;
  }

  /** Objects: field by field of the sorted keys. */
  lemma {:induction false} FieldsAreUnique(a: Json, x: Text, b: Json, y: Text, ka: seq<Text>, kb: seq<Text>, k: nat)
    requires a.Obj? && b.Obj? && KnownKeys(a, ka) && KnownKeys(b, kb) && k <= |ka| && k <= |kb| && Valid(a) && Valid(b)
    requires Cat(FieldsFrom(a, ka, k), x) == Cat(FieldsFrom(b, kb, k), y)
    ensures |ka| == |kb| && x == y && ka[k..] == kb[k..]
    ensures forall i :: k <= i < |ka| ==> SameUnder(a, b, ka[i], kb[i])
    decreases a, 0, |ka| - k
  {
    hide *;
    EndTogether(a, x, b, y, ka, kb, k);
    if k < |ka| {
      KeyIsKnown(a, ka, k);
      KeyIsKnown(b, kb, k);
      OneField(a, x, b, y, ka, kb, k);
      ValueIsValid(a, ka[k]);
      ValueIsValid(b, kb[k]);
      ValueIsUnique(ValueOf(a.fields, ka[k]), Cat(FieldsFrom(a, ka, k + 1), x),
                    ValueOf(b.fields, kb[k]), Cat(FieldsFrom(b, kb, k + 1), y));
      UnderIsSame(a, b, ka[k], kb[k]);
      FieldsAreUnique(a, x, b, y, ka, kb, k + 1);
      NextKeys(ka, kb, k);
    }
  }

  lemma SameFields(a: Json, b: Json, keys: seq<Text>)
    requires a.Obj? && b.Obj? && keys == SortKeys(KeysOf(a.fields)) == SortKeys(KeysOf(b.fields))
    requires forall i :: 0 <= i < |keys| ==> SameUnder(a, b, keys[i], keys[i])
    ensures Same(a, b)
  {
    SortedKeys(KeysOf(a.fields));
    SortedKeys(KeysOf(b.fields));
    forall key | key in KeysOf(a.fields) && key in KeysOf(b.fields)
      ensures Same(ValueOf(a.fields, key), ValueOf(b.fields, key))
    {
      assert key in keys;
      var i :| 0 <= i < |keys| && keys[i] == key;
      assert SameUnder(a, b, keys[i], keys[i]);
    }
  }

  lemma ArrText(j: Json, x: Text)
    requires j.Arr?
    ensures Cat(Canonical(j), x) == Cat([OPEN_ARRAY], Cat(ItemsFrom(j, 0), x))
  {
    hide ItemsFrom;
  }

  lemma ObjText(j: Json, x: Text)
    requires j.Obj?
    ensures KnownKeys(j, SortKeys(KeysOf(j.fields)))
    ensures Cat(Canonical(j), x) == Cat([OPEN_OBJECT], Cat(FieldsFrom(j, SortKeys(KeysOf(j.fields)), 0), x))
  {
    SortedKeys(KeysOf(j.fields));
    hide FieldsFrom;
    hide SortKeys;
  }

  lemma SameItems(a: Json, b: Json)
    requires a.Arr? && b.Arr? && |a.items| == |b.items| && forall i :: 0 <= i < |a.items| ==> Same(a.items[i], b.items[i])
    ensures Same(a, b)
  {
  }

  lemma ScalarIsUnique(a: Json, x: Text, b: Json, y: Text)
    requires !a.Arr? && !a.Obj? && Valid(a) && Valid(b) && Delimited(x) && Delimited(y)
    requires Cat(Canonical(a), x) == Cat(Canonical(b), y)
    ensures a == b && x == y
  {
    FirstUnit(a);
    FirstUnit(b);
    Head(Canonical(a), x);
    Head(Canonical(b), y);
    hide Quote;
    match a
    case Null => Prefix(NULL_TEXT, x, NULL_TEXT, y);
    case Bool(v) => Prefix(Canonical(a), x, Canonical(a), y);
    case Number(literal) => NumberIsUnique(literal, x, b.literal, y);
    case Str(s) => QuoteIsUnique(s, x, b.text, y);
  }

  lemma SameScalar(a: Json)
    requires !a.Arr? && !a.Obj?
    ensures Same(a, a)
  {
  }

  /** Equal texts before delimiters come from values that are the same, and end together. */
  lemma {:induction false} ValueIsUnique(a: Json, x: Text, b: Json, y: Text)
    requires Valid(a) && Valid(b) && Delimited(x) && Delimited(y)
    requires Cat(Canonical(a), x) == Cat(Canonical(b), y)
    ensures Same(a, b) && x == y
    decreases a, 1, 0
  {
    hide *;
    FirstUnit(a);
    FirstUnit(b);
    Head(Canonical(a), x);
    Head(Canonical(b), y);
    if a.Arr? {
      ArrText(a, x);
      ArrText(b, y);
      Prefix([OPEN_ARRAY], Cat(ItemsFrom(a, 0), x), [OPEN_ARRAY], Cat(ItemsFrom(b, 0), y));
      ItemsAreUnique(a, x, b, y, 0);
      SameItems(a, b);
    } else if a.Obj? {
      var ka, kb := SortKeys(KeysOf(a.fields)), SortKeys(KeysOf(b.fields));
      ObjText(a, x);
      ObjText(b, y);
      Prefix([OPEN_OBJECT], Cat(FieldsFrom(a, ka, 0), x), [OPEN_OBJECT], Cat(FieldsFrom(b, kb, 0), y));
      FieldsAreUnique(a, x, b, y, ka, kb, 0);
      assert ka == ka[0..] && kb == kb[0..];
      SameFields(a, b, ka);
    } else {
      ScalarIsUnique(a, x, b, y);
      SameScalar(a);
    }
  }

  // ---------------------------------------------------------------- the other direction: order does not matter

  lemma {:induction false} BelowIsStrict(a: Text, b: Text)
    ensures !(Below(a, b) && Below(b, a)) && (a == b ==> !Below(a, b))
    ensures !Below(a, b) && !Below(b, a) ==> a == b
  {
    if a != [] && b != [] {
      BelowIsStrict(a[1..], b[1..]);
      assert a == [a[0]] + a[1..] && b == [b[0]] + b[1..];
    }
  }

  lemma {:induction false} BelowIsTransitive(a: Text, b: Text, c: Text)
    requires Below(a, b) && Below(b, c)
    ensures Below(a, c)
  {
    if a != [] && a[0] == b[0] && b[0] == c[0] {
      BelowIsTransitive(a[1..], b[1..], c[1..]);
    }
  }

  predicate Ascending(keys: seq<Text>) {
    forall i, j :: 0 <= i < j < |keys| ==> Below(keys[i], keys[j])
  }

  lemma {:induction false} InsertAscends(key: Text, keys: seq<Text>)
    requires Ascending(keys) && key !in keys
    ensures Ascending(InsertKey(key, keys))
  {
    var r := InsertKey(key, keys);
    if keys == [] {
    } else if Below(key, keys[0]) {
      forall i, j | 0 <= i < j < |r|
        ensures Below(r[i], r[j])
      {
        if i == 0 && j > 1 {
          BelowIsTransitive(key, keys[0], keys[j - 1]);
        }
      }
    } else {
      BelowIsStrict(key, keys[0]);
      assert keys[0] in keys;
      InsertAscends(key, keys[1..]);
      InsertedKeys(key, keys[1..]);
      var rest := InsertKey(key, keys[1..]);
      forall j | 0 <= j < |rest|
        ensures Below(keys[0], rest[j])
      {
        assert rest[j] in rest;
        if rest[j] != key {
          var k :| 0 <= k < |keys[1..]| && keys[1..][k] == rest[j];
          assert Below(keys[0], keys[k + 1]);
        }
      }
    }
  }

  lemma {:induction false} SortAscends(keys: seq<Text>)
    requires forall i, j :: 0 <= i < j < |keys| ==> keys[i] != keys[j]
    ensures Ascending(SortKeys(keys))
  {
    if keys != [] {
      SortAscends(keys[1..]);
      SortedKeys(keys[1..]);
      InsertAscends(keys[0], SortKeys(keys[1..]));
    }
  }

  lemma BothEmpty(a: seq<Text>, b: seq<Text>)
    requires forall k :: k in a <==> k in b
    ensures a == [] <==> b == []
  {
    if a != [] {
      assert a[0] in b;
    }
    if b != [] {
      assert b[0] in a;
    }
  }

  /** Two ascending lists of the same keys are the same list. */
  lemma {:induction false} AscendingIsUnique(a: seq<Text>, b: seq<Text>)
    requires Ascending(a) && Ascending(b) && forall k :: k in a <==> k in b
    ensures a == b
    decreases |a|
  {
    BothEmpty(a, b);
    if a != [] {
      assert a[0] in a;
      LeastFirst(a, b);
      LeastFirst(b, a);
      BelowIsStrict(a[0], b[0]);
      forall k
        ensures k in a[1..] <==> k in b[1..]
      {
        TailKeys(a, k);
        TailKeys(b, k);
      }
      AscendingIsUnique(a[1..], b[1..]);
      assert a == [a[0]] + a[1..] && b == [b[0]] + b[1..];
    }
  }

  lemma LeastFirst(a: seq<Text>, b: seq<Text>)
    requires Ascending(a) && a != [] && b != [] && b[0] in a
    ensures a[0] == b[0] || Below(a[0], b[0])
  {
    var i :| 0 <= i < |a| && a[i] == b[0];
    if i > 0 {
      assert Below(a[0], a[i]);
    }
  }

  lemma TailKeys(a: seq<Text>, k: Text)
    requires Ascending(a) && a != []
    ensures k in a[1..] <==> k in a && k != a[0]
  {
    assert a == [a[0]] + a[1..];
    if k in a[1..] {
      var i :| 0 <= i < |a[1..]| && a[1..][i] == k;
      assert Below(a[0], a[i + 1]);
      BelowIsStrict(a[0], k);
    }
  }

  lemma {:induction false} SameItemsSameText(a: Json, b: Json, k: nat)
    requires Same(a, b) && a.Arr? && Valid(a) && Valid(b) && k <= |a.items|
    ensures ItemsFrom(a, k) == ItemsFrom(b, k)
    decreases a, 0, |a.items| - k
  {
    hide Canonical;
    if k < |a.items| {
      SameText(a.items[k], b.items[k]);
      SameItemsSameText(a, b, k + 1);
    }
  }

  lemma {:induction false} SameFieldsSameText(a: Json, b: Json, keys: seq<Text>, k: nat)
    requires Same(a, b) && a.Obj? && Valid(a) && Valid(b) && KnownKeys(a, keys) && KnownKeys(b, keys) && k <= |keys|
    ensures FieldsFrom(a, keys, k) == FieldsFrom(b, keys, k)
    decreases a, 0, |keys| - k
  {
    hide Canonical;
    if k < |keys| {
      ValueIsValid(a, keys[k]);
      ValueIsValid(b, keys[k]);
      hide Valid;
      SameText(ValueOf(a.fields, keys[k]), ValueOf(b.fields, keys[k]));
      SameFieldsSameText(a, b, keys, k + 1);
    }
  }

  lemma SameKeysSorted(a: Json, b: Json)
    requires Same(a, b) && a.Obj? && Valid(a) && Valid(b)
    ensures SortKeys(KeysOf(a.fields)) == SortKeys(KeysOf(b.fields))
  {
    SortAscends(KeysOf(a.fields));
    SortAscends(KeysOf(b.fields));
    SortedKeys(KeysOf(a.fields));
    SortedKeys(KeysOf(b.fields));
    AscendingIsUnique(SortKeys(KeysOf(a.fields)), SortKeys(KeysOf(b.fields)));
  }

  lemma {:induction false} SameText(a: Json, b: Json)
    requires Same(a, b) && Valid(a) && Valid(b)
    ensures Canonical(a) == Canonical(b)
    decreases a, 1, 0
  {
    if a.Arr? {
      SameItemsSameText(a, b, 0);
    } else if a.Obj? {
      SameKeysSorted(a, b);
      ObjText(a, []);
      ObjText(b, []);
      var keys := SortKeys(KeysOf(a.fields));
      SameFieldsSameText(a, b, keys, 0);
      hide FieldsFrom;
      hide SortKeys;
    }
  }

  /** Two values have the same canonical text exactly when they are equal up to the order of object keys. */
  lemma TextIsTheValue(a: Json, b: Json)
    requires Valid(a) && Valid(b)
    ensures Canonical(a) == Canonical(b) <==> Same(a, b)
  {
    if Canonical(a) == Canonical(b) {
      ValueIsUnique(a, [], b, []);
    }
    if Same(a, b) {
      SameText(a, b);
    }
  }
}
