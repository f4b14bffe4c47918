/**
 * A reader of JSON texts, written from the grammar of RFC 8259 (sections 2 to 7, without white space) and apart from the
 * writer: it reads the canonical text of a value back as that value, with the keys of every object in ascending order.
 */
module JsonReader {
  import opened Common
  import opened CanonicalJson

  // ---------------------------------------------------------------- the reader

  /** The value of a hexadecimal digit, or -1. */
  function HexValue(u: Unit): int {
    if 0x30 <= u <= 0x39 then u - 0x30
    else if 0x61 <= u <= 0x66 then u - 0x61 + 10
    else if 0x41 <= u <= 0x46 then u - 0x41 + 10
    else -1
  }

  /** What a letter after a backslash stands for. */
  function Unescaped(u: Unit): Option<Unit> {
    match u
    case 0x22 => Some(0x22)
    case 0x5C => Some(0x5C)
    case 0x2F => Some(0x2F)
    case 0x62 => Some(0x08)
    case 0x66 => Some(0x0C)
    case 0x6E => Some(0x0A)
    case 0x72 => Some(0x0D)
    case 0x74 => Some(0x09)
    case _ => None
  }

  /** The unit that four hexadecimal digits spell. */
  function FourDigits(t: Text): Option<Unit>
    requires |t| >= 4
  {
    var (a, b, c, d) := (HexValue(t[0]), HexValue(t[1]), HexValue(t[2]), HexValue(t[3]));
    if a < 0 || b < 0 || c < 0 || d < 0 then None else Some(((a * 16 + b) * 16 + c) * 16 + d)
  }

  function Prepended(u: Unit, r: Option<(Text, Text)>): Option<(Text, Text)> {
    match r
    case None => None
    case Some((s, rest)) => Some(([u] + s, rest))
  }

  /** The units of a string up to its closing quote, and what follows. */
  function ReadUnits(t: Text): (r: Option<(Text, Text)>)
    ensures r.Some? ==> |r.value.1| < |t|
  {
    if t == [] then None
    else if t[0] == 0x22 then Some(([], t[1..]))
    else if t[0] == 0x5C then
      if |t| >= 6 && t[1] == 0x75 then
        match FourDigits(t[2..6])
        case None => None
        case Some(u) => Prepended(u, ReadUnits(t[6..]))
      else if |t| >= 2 && Unescaped(t[1]).Some? then Prepended(Unescaped(t[1]).value, ReadUnits(t[2..]))
      else None
    else if t[0] < 0x20 then None
    else Prepended(t[0], ReadUnits(t[1..]))
  }

  predicate DigitOrSign(u: Unit) {
    0x30 <= u <= 0x39 || u == 0x2B || u == 0x2D || u == 0x2E || u == 0x45 || u == 0x65
  }

  /** How far a number goes. */
  function NumberLength(t: Text): (n: nat)
    ensures n <= |t|
  {
    if t == [] || !DigitOrSign(t[0]) then 0 else 1 + NumberLength(t[1..])
  }

  predicate StartsWithText(t: Text, word: Text) {
    |word| <= |t| && t[..|word|] == word
  }

  /** A value at the start of a text, and what follows. */
  function ReadValue(t: Text): (r: Option<(Json, Text)>)
    ensures r.Some? ==> |r.value.1| < |t|
    decreases |t|, 0
  {
    if t == [] then None
    else if StartsWithText(t, [0x6E, 0x75, 0x6C, 0x6C]) then Some((Null, t[4..]))
    else if StartsWithText(t, [0x74, 0x72, 0x75, 0x65]) then Some((Bool(true), t[4..]))
    else if StartsWithText(t, [0x66, 0x61, 0x6C, 0x73, 0x65]) then Some((Bool(false), t[5..]))
    else if t[0] == 0x22 then
      match ReadUnits(t[1..])
      case None => None
      case Some((s, rest)) => Some((Str(s), rest))
    else if t[0] == 0x5B then
      if |t| > 1 && t[1] == 0x5D then Some((Arr([]), t[2..]))
      else
        match ReadItems(t[1..])
        case None => None
        case Some((items, rest)) => Some((Arr(items), rest))
    else if t[0] == 0x7B then
      if |t| > 1 && t[1] == 0x7D then Some((Obj([]), t[2..]))
      else
        match ReadFields(t[1..])
        case None => None
        case Some((fields, rest)) => Some((Obj(fields), rest))
    else if NumberLength(t) > 0 then Some((Number(t[..NumberLength(t)]), t[NumberLength(t)..]))
    else None
  }

  /** One item or more, separated by commas, and the closing bracket. */
  function ReadItems(t: Text): (r: Option<(seq<Json>, Text)>)
    ensures r.Some? ==> |r.value.1| < |t|
    decreases |t|, 1
  {
    match ReadValue(t)
    case None => None
    case Some((v, rest)) =>
      if |rest| == 0 then None
      else if rest[0] == 0x5D then Some(([v], rest[1..]))
      else if rest[0] == 0x2C then
        match ReadItems(rest[1..])
        case None => None
        case Some((vs, end)) => Some(([v] + vs, end))
      else None
  }

  /** One field or more, separated by commas, and the closing brace. */
  function ReadFields(t: Text): (r: Option<(seq<Field>, Text)>)
    ensures r.Some? ==> |r.value.1| < |t|
    decreases |t|, 1
  {
    if |t| == 0 || t[0] != 0x22 then None
    else
      match ReadUnits(t[1..])
      case None => None
      case Some((key, afterKey)) =>
        if |afterKey| == 0 || afterKey[0] != 0x3A then None
        else
          match ReadValue(afterKey[1..])
          case None => None
          case Some((v, rest)) =>
            if |rest| == 0 then None
            else if rest[0] == 0x7D then Some(([Field(key, v)], rest[1..]))
            else if rest[0] == 0x2C then
              match ReadFields(rest[1..])
              case None => None
              case Some((fields, end)) => Some(([Field(key, v)] + fields, end))
            else None
  }

  // ---------------------------------------------------------------- strings are read back

  lemma HexIsRead(u: Unit, x: Text)
    ensures FourDigits(Hex4(u) + x) == Some(u)
  {
    var t := Hex4(u) + x;
    assert t[0] == HexDigit(u / 0x1000) && t[1] == HexDigit(u / 0x100 % 16) && t[2] == HexDigit(u / 16 % 16) && t[3] == HexDigit(u % 16);
    assert forall d :: 0 <= d < 16 ==> HexValue(HexDigit(d)) == d;
    Nibbles(u);
  }

  /** The writer escapes what JSON.stringify escapes: quotes, backslashes, controls and lone surrogates, in lower case. */
  lemma EscapesExactly(u: Unit)
    ensures EscapeUnit(u) == [u] <==> u >= 0x20 && u != 0x22 && u != 0x5C && !(0xD800 <= u <= 0xDFFF)
    ensures EscapeUnit(u) != [u] ==>
              if u in {0x08, 0x09, 0x0A, 0x0C, 0x0D, 0x22, 0x5C} then |EscapeUnit(u)| == 2
              else |EscapeUnit(u)| == 6 && forall k :: 2 <= k < 6 ==> HexValue(EscapeUnit(u)[k]) >= 0 && !(0x41 <= EscapeUnit(u)[k] <= 0x46)
  {
  }

  lemma EscapeIsRead(u: Unit, x: Text)
    ensures ReadUnits(Cat(EscapeUnit(u), x)) == Prepended(u, ReadUnits(x))
  {
    var t := Cat(EscapeUnit(u), x);
    if ShortEscape(u) != 0 {
      assert t[2..] == x && t[0] == 0x5C && t[1] == ShortEscape(u);
      assert Unescaped(ShortEscape(u)) == Some(u);
    } else if u < 0x20 || IsHigh(u) || IsLow(u) {
      assert t[0] == 0x5C && t[1] == 0x75 && t[6..] == x;
      assert t[2..6] == Hex4(u) + [];
      HexIsRead(u, []);
    } else {
      assert t[0] == u && t[1..] == x;
    }
    hide Hex4;
  }

  lemma PairIsRead(a: Unit, b: Unit, x: Text)
    requires IsHigh(a) && IsLow(b)
    ensures ReadUnits(Cat([a, b], x)) == Prepended(a, Prepended(b, ReadUnits(x)))
  {
    var t := Cat([a, b], x);
    assert t[0] == a && t[1..] == Cat([b], x);
    assert Cat([b], x)[0] == b && Cat([b], x)[1..] == x;
  }

  lemma TokenIsRead(s: Text, x: Text)
    requires s != []
    ensures ReadUnits(Cat(Token(s), x)) ==
            if Used(s) == 2 then Prepended(s[0], Prepended(s[1], ReadUnits(x))) else Prepended(s[0], ReadUnits(x))
  {
    hide ReadUnits;
    if Used(s) == 2 {
      assert s[..2] == [s[0], s[1]];
      PairIsRead(s[0], s[1], x);
    } else {
      EscapeIsRead(s[0], x);
    }
  }

  lemma TailCat(s: Text, x: Text)
    ensures s == [] ==> Cat(QuotedTail(s), x) == [QUOTE] + x
    ensures s != [] ==> Cat(QuotedTail(s), x) == Cat(Token(s), Cat(QuotedTail(s[Used(s)..]), x))
  {
    if s != [] {
      TailSplits(s, x);
    }
    hide Token;
    hide Used;
  }

  lemma ClosingQuote(x: Text)
    ensures ReadUnits([QUOTE] + x) == Some(([], x))
  {
    assert ([QUOTE] + x)[1..] == x;
  }

  /** Reading a quoted string gives the string. */
  lemma {:induction false} StringIsRead(s: Text, x: Text)
    ensures ReadUnits(Cat(QuotedTail(s), x)) == Some((s, x))
    decreases |s|
  {
    hide ReadUnits;
    hide QuotedTail;
    hide Token;
    hide Cat;
    TailCat(s, x);
    if s == [] {
      ClosingQuote(x);
    } else {
      StringIsRead(s[Used(s)..], x);
      TokenIsRead(s, Cat(QuotedTail(s[Used(s)..]), x));
      if Used(s) == 2 {
        assert s == [s[0]] + ([s[1]] + s[2..]);
      } else {
        assert s == [s[0]] + s[1..];
      }
    }
  }

  // ---------------------------------------------------------------- values are read back

  /** Every object lists its keys in ascending order. */
  ghost predicate KeysAscend(j: Json) {
    match j
    case Arr(items) => forall i :: 0 <= i < |items| ==> KeysAscend(items[i])
    case Obj(fields) => Ascending(KeysOf(fields)) && forall i :: 0 <= i < |fields| ==> KeysAscend(fields[i].value)
    case _ => true
  }

  /** The first of two texts is before the second where they first differ, or ends there. */
  lemma {:induction false} BelowExactly(a: Text, b: Text)
    ensures Below(a, b) <==>
            exists k :: 0 <= k <= |a| && k < |b| && a[..k] == b[..k] && (k == |a| || a[k] < b[k])
  {
    if b == [] {
    } else if a == [] {
      assert a[..0] == b[..0];
    } else {
      BelowExactly(a[1..], b[1..]);
      if a[0] < b[0] {
        assert a[..0] == b[..0];
      }
      if a[0] == b[0] && Below(a[1..], b[1..]) {
        var k :| 0 <= k <= |a[1..]| && k < |b[1..]| && a[1..][..k] == b[1..][..k] && (k == |a[1..]| || a[1..][k] < b[1..][k]);
        assert a[..k + 1] == [a[0]] + a[1..][..k] && b[..k + 1] == [b[0]] + b[1..][..k];
      }
      if k :| 0 <= k <= |a| && k < |b| && a[..k] == b[..k] && (k == |a| || a[k] < b[k]) {
        if k > 0 {
          assert a[0] == a[..k][0] == b[..k][0] == b[0];
          assert a[1..][..k - 1] == a[..k][1..] == b[..k][1..] == b[1..][..k - 1];
        }
      }
    }
  }

  lemma {:induction false} NumberEnds(t: Text, x: Text)
    requires (forall i :: 0 <= i < |t| ==> NumberUnit(t[i])) && Delimited(x)
    ensures NumberLength(Cat(t, x)) == |t|
    decreases |t|
  {
    if t != [] {
      NumberEnds(t[1..], x);
      assert Cat(t, x)[1..] == Cat(t[1..], x);
    } else {
      assert Cat(t, x) == x;
    }
  }

  lemma CatParts(a: Text, x: Text)
    ensures |Cat(a, x)| == |a| + |x| && Cat(a, x)[..|a|] == a && Cat(a, x)[|a|..] == x
    ensures |a| > 0 ==> Cat(a, x)[0] == a[0]
  {
  }

  lemma WordIsRead(word: Text, j: Json, x: Text)
    requires (word, j) in {(NULL_TEXT, Null), (TRUE_TEXT, Bool(true)), (FALSE_TEXT, Bool(false))}
    ensures ReadValue(Cat(word, x)) == Some((j, x))
  {
    CatParts(word, x);
    hide Cat;
    hide NumberLength;
    hide ReadUnits;
    hide ReadItems;
    hide ReadFields;
    var t := Cat(word, x);
    assert t[0] == word[0] && t[..|word|][0] == word[0];
    assert |t| >= 5 ==> t[..5][0] == t[0];
    assert |t| >= 4 ==> t[..4][0] == t[0];
  }

  lemma OtherWord(t: Text, word: Text)
    requires |t| > 0 && |word| > 0 && t[0] != word[0]
    ensures !StartsWithText(t, word)
  {
    assert |word| <= |t| ==> t[..|word|][0] == t[0];
  }

  /** The reader's choice by the first unit, for values that are not words. */
  lemma Chosen(t: Text)
    requires |t| > 0 && t[0] !in {0x6E, 0x74, 0x66}
    ensures t[0] == 0x22 ==>
              ReadValue(t) == match ReadUnits(t[1..]) case None => None case Some((s, rest)) => Some((Str(s), rest))
    ensures t[0] == 0x5B ==>
              ReadValue(t) == if |t| > 1 && t[1] == 0x5D then Some((Arr([]), t[2..]))
                              else match ReadItems(t[1..]) case None => None case Some((items, rest)) => Some((Arr(items), rest))
    ensures t[0] == 0x7B ==>
              ReadValue(t) == if |t| > 1 && t[1] == 0x7D then Some((Obj([]), t[2..]))
                              else match ReadFields(t[1..]) case None => None case Some((fields, rest)) => Some((Obj(fields), rest))
    ensures t[0] !in {0x22, 0x5B, 0x7B} ==>
              ReadValue(t) == if NumberLength(t) > 0 then Some((Number(t[..NumberLength(t)]), t[NumberLength(t)..])) else None
  {
    hide NumberLength;
    hide ReadUnits;
    hide ReadItems;
    hide ReadFields;
    hide StartsWithText;
    OtherWord(t, [0x6E, 0x75, 0x6C, 0x6C]);
    OtherWord(t, [0x74, 0x72, 0x75, 0x65]);
    OtherWord(t, [0x66, 0x61, 0x6C, 0x73, 0x65]);
  }

  lemma NumberIsRead(literal: Text, x: Text)
    requires NumberLiteral(literal) && Delimited(x)
    ensures ReadValue(Cat(literal, x)) == Some((Number(literal), x))
  {
    NumberEnds(literal, x);
    CatParts(literal, x);
    hide Cat;
    hide ReadValue;
    Chosen(Cat(literal, x));
  }

  lemma TextIsRead(s: Text, x: Text)
    ensures ReadValue(Cat(Quote(s), x)) == Some((Str(s), x))
  {
    QuoteStarts(s, x);
    StringIsRead(s, x);
    CatParts([QUOTE], Cat(QuotedTail(s), x));
    assert Cat(Quote(s), x) == Cat([QUOTE], Cat(QuotedTail(s), x));
    hide ReadValue;
    hide ReadUnits;
    Chosen(Cat(Quote(s), x));
    hide Quote;
    hide QuotedTail;
    hide Cat;
  }

  lemma ScalarIsRead(j: Json, x: Text)
    requires !j.Arr? && !j.Obj? && Valid(j) && Delimited(x)
    ensures ReadValue(Cat(Canonical(j), x)) == Some((j, x)) && Same(j, j) && KeysAscend(j)
  {
    hide ReadValue;
    hide Quote;
    SameScalar(j);
    match j
    case Null => WordIsRead(NULL_TEXT, Null, x);
    case Bool(b) => WordIsRead(if b then TRUE_TEXT else FALSE_TEXT, j, x);
    case Number(literal) => NumberIsRead(literal, x);
    case Str(s) => TextIsRead(s, x);
  }

  /** The items from a position on, without the separator before them. */
  function ItemsText(j: Json, k: nat, x: Text): Text
    requires j.Arr? && k < |j.items|
  {
    Cat(Canonical(j.items[k]), Cat(ItemsFrom(j, k + 1), x))
  }

  lemma AfterItem(j: Json, k: nat, x: Text)
    requires j.Arr? && k < |j.items| && Valid(j)
    ensures var rest := Cat(ItemsFrom(j, k + 1), x);
            && |rest| > 0 && Delimited(rest)
            && (k + 1 == |j.items| ==> rest[0] == 0x5D && rest[1..] == x)
            && (k + 1 < |j.items| ==> rest[0] == 0x2C && rest[1..] == ItemsText(j, k + 1, x))
  {
    ItemsFromStart(j, k + 1);
    Head(ItemsFrom(j, k + 1), x);
    if k + 1 < |j.items| {
      ItemsStep(j, k + 1, x);
      CatParts(Separator(k + 1), ItemsText(j, k + 1, x));
    }
    hide Canonical;
    hide Valid;
  }

  lemma ItemsReadStep(t: Text, v: Json, rest: Text)
    requires ReadValue(t) == Some((v, rest)) && |rest| > 0
    ensures rest[0] == 0x5D ==> ReadItems(t) == Some(([v], rest[1..]))
    ensures rest[0] == 0x2C ==>
              ReadItems(t) == match ReadItems(rest[1..]) case None => None case Some((vs, end)) => Some(([v] + vs, end))
  {
    hide ReadValue;
  }

  /** The items of an array are read back in order. */
  lemma {:induction false} ItemsAreRead(j: Json, k: nat, x: Text) returns (vs: seq<Json>)
    requires j.Arr? && k < |j.items| && Valid(j)
    ensures ReadItems(ItemsText(j, k, x)) == Some((vs, x)) && |vs| == |j.items| - k
    ensures forall i :: 0 <= i < |vs| ==> Same(vs[i], j.items[k + i]) && KeysAscend(vs[i])
    decreases j, 0, |j.items| - k
  {
    hide *;
    var rest := Cat(ItemsFrom(j, k + 1), x);
    AfterItem(j, k, x);
    ItemIsValid(j, k);
    ItemsTextIs(j, k, x);
    var v := ValueIsRead(j.items[k], rest);
    ItemsReadStep(ItemsText(j, k, x), v, rest);
    if k + 1 == |j.items| {
      vs := [v];
    } else {
      var more := ItemsAreRead(j, k + 1, x);
      vs := [v] + more;
      assert forall i :: 1 <= i < |vs| ==> vs[i] == more[i - 1];
    }
  }

  lemma ItemsTextIs(j: Json, k: nat, x: Text)
    requires j.Arr? && k < |j.items|
    ensures ItemsText(j, k, x) == Cat(Canonical(j.items[k]), Cat(ItemsFrom(j, k + 1), x))
  {
    hide Canonical;
    hide ItemsFrom;
  }

  /** The fields from a position on, without the separator before them. */
  function FieldsText(j: Json, keys: seq<Text>, k: nat, x: Text): Text
    requires j.Obj? && KnownKeys(j, keys) && k < |keys|
  {
    Cat(Quote(keys[k]), Cat([COLON], Cat(Canonical(ValueOf(j.fields, keys[k])), Cat(FieldsFrom(j, keys, k + 1), x))))
  }

  lemma AfterField(j: Json, keys: seq<Text>, k: nat, x: Text)
    requires j.Obj? && KnownKeys(j, keys) && k < |keys|
    ensures var rest := Cat(FieldsFrom(j, keys, k + 1), x);
            && |rest| > 0 && Delimited(rest)
            && (k + 1 == |keys| ==> rest[0] == 0x7D && rest[1..] == x)
            && (k + 1 < |keys| ==> rest[0] == 0x2C && rest[1..] == FieldsText(j, keys, k + 1, x))
  {
    FieldsFromStart(j, keys, k + 1);
    Head(FieldsFrom(j, keys, k + 1), x);
    if k + 1 < |keys| {
      FieldsStep(j, keys, k + 1, x);
      CatParts(Separator(k + 1), FieldsText(j, keys, k + 1, x));
    }
    hide Canonical;
    hide Quote;
  }

  /** A key, its colon, and what the reader makes of the rest. */
  lemma FieldsReadStep(key: Text, value: Text, v: Json, rest: Text)
    requires ReadValue(Cat(value, rest)) == Some((v, rest)) && |rest| > 0
    ensures var t := Cat(Quote(key), Cat([COLON], Cat(value, rest)));
            && (rest[0] == 0x7D ==> ReadFields(t) == Some(([Field(key, v)], rest[1..])))
            && (rest[0] == 0x2C ==>
                  ReadFields(t) == match ReadFields(rest[1..])
                                   case None => None
                                   case Some((fields, end)) => Some(([Field(key, v)] + fields, end)))
  {
    hide ReadValue;
    hide ReadUnits;
    hide Quote;
    hide QuotedTail;
    hide Cat;
    var afterKey := Cat([COLON], Cat(value, rest));
    KeyStarts(key, afterKey);
    StringIsRead(key, afterKey);
    CatParts([COLON], Cat(value, rest));
  }

  lemma KeyStarts(key: Text, x: Text)
    ensures |Cat(Quote(key), x)| > 0 && Cat(Quote(key), x)[0] == 0x22 && Cat(Quote(key), x)[1..] == Cat(QuotedTail(key), x)
  {
    hide QuotedTail;
  }

  /** The fields of an object are read back in the order of the keys. */
  lemma {:induction false} FieldsAreRead(j: Json, keys: seq<Text>, k: nat, x: Text) returns (fs: seq<Field>)
    requires j.Obj? && KnownKeys(j, keys) && k < |keys| && Valid(j)
    ensures ReadFields(FieldsText(j, keys, k, x)) == Some((fs, x)) && |fs| == |keys| - k
    ensures forall i :: 0 <= i < |fs| ==> Reads(fs[i], j, keys[k + i])
    decreases j, 0, |keys| - k
  {
    hide *;
    var rest := Cat(FieldsFrom(j, keys, k + 1), x);
    AfterField(j, keys, k, x);
    KeyIsKnown(j, keys, k);
    var value := ValueOf(j.fields, keys[k]);
    ValueIsValid(j, keys[k]);
    FieldsTextIs(j, keys, k, x);
    ValueIsSmaller(j, keys[k]);
    var v := ValueIsRead(value, rest);
    FieldsReadStep(keys[k], Canonical(value), v, rest);
    ReadsIs(Field(keys[k], v), j, keys[k]);
    if k + 1 == |keys| {
      fs := [Field(keys[k], v)];
    } else {
      var more := FieldsAreRead(j, keys, k + 1, x);
      fs := [Field(keys[k], v)] + more;
      assert forall i :: 1 <= i < |fs| ==> fs[i] == more[i - 1];
    }
  }

  /** The field is that of a key of the object, read back. */
  ghost predicate Reads(f: Field, j: Json, key: Text)
    requires j.Obj?
  {
    f.key == key && key in KeysOf(j.fields) && Same(f.value, ValueOf(j.fields, key)) && KeysAscend(f.value)
  }

  lemma ReadsIs(f: Field, j: Json, key: Text)
    requires j.Obj? && key in KeysOf(j.fields)
    ensures Reads(f, j, key) <==> f.key == key && Same(f.value, ValueOf(j.fields, key)) && KeysAscend(f.value)
  {
    hide Same;
    hide KeysAscend;
  }

  lemma ValueIsSmaller(j: Json, key: Text)
    requires j.Obj? && key in KeysOf(j.fields)
    ensures ValueOf(j.fields, key) < j
  {
  }

  lemma FieldsTextIs(j: Json, keys: seq<Text>, k: nat, x: Text)
    requires j.Obj? && KnownKeys(j, keys) && k < |keys|
    ensures keys[k] in KeysOf(j.fields)
    ensures FieldsText(j, keys, k, x) ==
            Cat(Quote(keys[k]), Cat([COLON], Cat(Canonical(ValueOf(j.fields, keys[k])), Cat(FieldsFrom(j, keys, k + 1), x))))
  {
    hide Canonical;
    hide FieldsFrom;
    hide Quote;
  }

  lemma ArrIsRead(j: Json, x: Text) returns (v: Json)
    requires j.Arr? && Valid(j)
    ensures ReadValue(Cat(Canonical(j), x)) == Some((v, x)) && Same(v, j) && KeysAscend(v)
    decreases j, 0, |j.items| + 1
  {
    var body := Cat(ItemsFrom(j, 0), x);
    ArrText(j, x);
    CatParts([OPEN_ARRAY], body);
    ItemsFromStart(j, 0);
    CatParts(ItemsFrom(j, 0), x);
    if j.items == [] {
      assert body[0] == 0x5D && body[1..] == x;
      v := Arr([]);
    } else {
      ItemsStep(j, 0, x);
      assert body == ItemsText(j, 0, x);
      var vs := ItemsAreRead(j, 0, x);
      v := Arr(vs);
    }
    hide ItemsFrom;
    hide Canonical;
    hide ReadValue;
    hide ReadItems;
    hide Cat;
    Chosen(Cat(Canonical(j), x));
  }

  lemma ObjIsRead(j: Json, x: Text) returns (v: Json)
    requires j.Obj? && Valid(j)
    ensures ReadValue(Cat(Canonical(j), x)) == Some((v, x)) && Same(v, j) && KeysAscend(v)
    decreases j, 0, |j.fields| + 1
  {
    var keys := SortKeys(KeysOf(j.fields));
    ObjText(j, x);
    SortedCount(KeysOf(j.fields));
    var body := Cat(FieldsFrom(j, keys, 0), x);
    CatParts([OPEN_OBJECT], body);
    FieldsFromStart(j, keys, 0);
    CatParts(FieldsFrom(j, keys, 0), x);
    if keys == [] {
      assert body[0] == 0x7D && body[1..] == x;
      v := Obj([]);
      EmptyIsRead(j);
    } else {
      FieldsStep(j, keys, 0, x);
      assert body == FieldsText(j, keys, 0, x);
      var fs := FieldsAreRead(j, keys, 0, x);
      v := Obj(fs);
      FieldsMakeIt(j, keys, fs);
    }
    hide FieldsFrom;
    hide Canonical;
    hide ReadValue;
    hide ReadFields;
    hide Cat;
    hide SortKeys;
    hide Same;
    hide KeysAscend;
    Chosen(Cat(Canonical(j), x));
  }

  lemma {:induction false} InsertedCount(key: Text, keys: seq<Text>)
    ensures |InsertKey(key, keys)| == |keys| + 1
  {
    if keys != [] && !Below(key, keys[0]) {
      InsertedCount(key, keys[1..]);
    }
  }

  lemma {:induction false} SortedCount(keys: seq<Text>)
    ensures |SortKeys(keys)| == |keys|
  {
    if keys != [] {
      SortedCount(keys[1..]);
      InsertedCount(keys[0], SortKeys(keys[1..]));
    }
  }

  lemma EmptyIsRead(j: Json)
    requires j.Obj? && SortKeys(KeysOf(j.fields)) == []
    ensures Same(Obj([]), j) && KeysAscend(Obj([]))
  {
    SortedCount(KeysOf(j.fields));
  }

  lemma {:induction false} ValueAt(fields: seq<Field>, i: nat)
    requires i < |fields| && forall k :: 0 <= k < i ==> fields[k].key != fields[i].key
    ensures fields[i].key in KeysOf(fields) && ValueOf(fields, fields[i].key) == fields[i].value
  {
    assert KeysOf(fields)[i] == fields[i].key;
    if i > 0 {
      ValueAt(fields[1..], i - 1);
    }
  }

  lemma SameObjects(j: Json, fs: seq<Field>)
    requires j.Obj? && forall key :: key in KeysOf(fs) <==> key in KeysOf(j.fields)
    requires forall key | key in KeysOf(fs) && key in KeysOf(j.fields) :: Same(ValueOf(fs, key), ValueOf(j.fields, key))
    ensures Same(Obj(fs), j)
  {
    hide ValueOf;
  }

  lemma ObjectAscends(fs: seq<Field>)
    requires Ascending(KeysOf(fs)) && forall i :: 0 <= i < |fs| ==> KeysAscend(fs[i].value)
    ensures KeysAscend(Obj(fs))
  {
    hide Below;
  }

  /** Fields that read back each key in ascending order make the same object. */
  lemma FieldsMakeIt(j: Json, keys: seq<Text>, fs: seq<Field>)
    requires j.Obj? && Valid(j) && keys == SortKeys(KeysOf(j.fields)) && |fs| == |keys|
    requires forall i :: 0 <= i < |fs| ==> Reads(fs[i], j, keys[i])
    ensures Same(Obj(fs), j) && KeysAscend(Obj(fs))
  {
    hide Same;
    hide KeysAscend;
    hide SortKeys;
    hide ValueOf;
    hide Below;
    SortedKeys(KeysOf(j.fields));
    SortAscends(KeysOf(j.fields));
    assert KeysOf(fs) == keys;
    forall i | 0 <= i < |fs|
      ensures ValueOf(fs, fs[i].key) == fs[i].value
    {
      forall k | 0 <= k < i
        ensures fs[k].key != fs[i].key
      {
        BelowIsStrict(keys[k], keys[i]);
      }
      ValueAt(fs, i);
    }
    forall key | key in KeysOf(fs) && key in KeysOf(j.fields)
      ensures Same(ValueOf(fs, key), ValueOf(j.fields, key))
    {
      var i :| 0 <= i < |keys| && keys[i] == key;
      assert Reads(fs[i], j, keys[i]);
    }
    SameObjects(j, fs);
    ObjectAscends(fs);
  }

  /**
   * Before a delimiter, the reader takes the canonical text of a value for that value, and its objects list their keys in
   * ascending order.
   */
  lemma {:induction false} ValueIsRead(j: Json, x: Text) returns (v: Json)
    requires Valid(j) && Delimited(x)
    ensures ReadValue(Cat(Canonical(j), x)) == Some((v, x)) && Same(v, j) && KeysAscend(v)
    decreases j, 1, 0
  {
    hide *;
    if j.Arr? {
      v := ArrIsRead(j, x);
    } else if j.Obj? {
      v := ObjIsRead(j, x);
    } else {
      v := j;
      ScalarIsRead(j, x);
    }
  }

  /** The canonical text is a JSON text of the value, with the keys of every object in ascending order. */
  lemma TextIsJson(j: Json) returns (v: Json)
    requires Valid(j)
    ensures ReadValue(Canonical(j)) == Some((v, [])) && Same(v, j) && KeysAscend(v)
  {
    v := ValueIsRead(j, []);
    assert Cat(Canonical(j), []) == Canonical(j);
    hide Canonical;
    hide ReadValue;
  }
}
