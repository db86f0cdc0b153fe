/** The stable serializer whose output is hashed into an input fingerprint. */
module InputFingerprint {
  import opened Common
  import opened Sorting

  // Texts are sequences of UTF-16 units. A value is what `typeof` and `Object.keys` can
  // see of it; objects list their entries in insertion order.

  /** A UTF-16 unit. */
  newtype Unit = x: int | 0 <= x < 0x1_0000

  type Text = seq<Unit>

  datatype Entry = Entry(key: Text, value: Json)

  datatype Json =
    | Undefined
    | Null
    | Bool(b: bool)
    | Num(numeral: Text)   // a finite number, as JSON.stringify writes it
    | NonFinite            // NaN and the infinities
    | Str(s: Text)
    | Arr(items: seq<Json>)
    | Obj(entries: seq<Entry>)

  function Ascii(s: string): (t: Text)
    requires forall i :: 0 <= i < |s| ==> s[i] < 128 as char
    ensures |t| == |s| && forall i :: 0 <= i < |s| ==> t[i] == s[i] as Unit
  {
    seq(|s|, i requires 0 <= i < |s| => s[i] as Unit)
  }

  const QUOTE: Unit := '\"' as Unit
  const BACKSLASH: Unit := '\\' as Unit
  const COMMA: Unit := ',' as Unit
  const COLON: Unit := ':' as Unit
  const OPEN_ARRAY: Unit := '[' as Unit
  const CLOSE_ARRAY: Unit := ']' as Unit
  const OPEN_OBJECT: Unit := '{' as Unit
  const CLOSE_OBJECT: Unit := '}' as Unit
  const LETTER_U: Unit := 'u' as Unit

  // ----- JSON.stringify of a string -----

  predicate IsHigh(c: Unit) { 0xD800 <= c < 0xDC00 }

  predicate IsLow(c: Unit) { 0xDC00 <= c < 0xE000 }

  function HexDigit(d: Unit): Unit
    requires d < 16
  {
    if d < 10 then '0' as Unit + d else 'a' as Unit + (d - 10)
  }

  function Hex4(c: Unit): Text {
    [HexDigit(c / 4096 % 16), HexDigit(c / 256 % 16), HexDigit(c / 16 % 16), HexDigit(c % 16)]
  }

  /** The letter after the backslash in a two-unit escape, or 0. */
  function ShortEscape(c: Unit): Unit {
    if c == 34 || c == 92 then c
    else if c == 8 then 'b' as Unit
    else if c == 9 then 't' as Unit
    else if c == 10 then 'n' as Unit
    else if c == 12 then 'f' as Unit
    else if c == 13 then 'r' as Unit
    else 0
  }

  predicate IsPair(s: Text) { |s| >= 2 && IsHigh(s[0]) && IsLow(s[1]) }

  /** How many units of s the first token of its quotation stands for. */
  function Used(s: Text): nat
    requires s != []
    ensures 1 <= Used(s) <= |s|
  {
    if IsPair(s) then 2 else 1
  }

  /** The first token of the quotation of s: a unit, a surrogate pair, or an escape. */
  function Token(s: Text): Text
    requires s != []
  {
    var c := s[0];
    if IsPair(s) then s[..2]
    else if ShortEscape(c) != 0 then [BACKSLASH, ShortEscape(c)]
    else if c < 32 || IsHigh(c) || IsLow(c) then [BACKSLASH, LETTER_U] + Hex4(c)
    else [c]
  }

  function Body(s: Text): Text {
    if s == [] then [] else Token(s) + Body(s[Used(s)..])
  }

  function Quoted(s: Text): Text {
    [QUOTE] + Body(s) + [QUOTE]
  }

  // ----- the serializer -----

  function Compare(a: Text, b: Text): int {
    if a == [] && b == [] then 0
    else if a == [] then -1
    else if b == [] then 1
    else if a[0] != b[0] then a[0] as int - b[0] as int
    else Compare(a[1..], b[1..])
  }

  predicate KeyBefore(a: Entry, b: Entry) { Compare(a.key, b.key) < 0 }

  /** Object.keys(record).sort(), each key with its value. */
  function SortedEntries(v: Json): (es: seq<Entry>)
    requires v.Obj?
    ensures forall e :: e in es <==> e in v.entries
  {
    SameMembers(Sort(v.entries, KeyBefore), v.entries);
    Sort(v.entries, KeyBefore)
  }

  /** The text of a value in a template literal. */
  function Print(v: Json): Text
    decreases v, 1, 0
  {
    match v
    case Undefined => Ascii("undefined")
    case Null => Ascii("null")
    case Bool(b) => if b then Ascii("true") else Ascii("false")
    case Num(numeral) => numeral
    case NonFinite => Ascii("null")
    case Str(s) => Quoted(s)
    case Arr(items) => [OPEN_ARRAY] + PrintItems(items) + [CLOSE_ARRAY]
    case Obj(_) => [OPEN_OBJECT] + PrintMembers(SortedEntries(v), v) + [CLOSE_OBJECT]
  }

  /** Array.prototype.join, which writes undefined as the empty text. */
  function PrintItems(items: seq<Json>): Text
    decreases items, 0, 0
  {
    if items == [] then []
    else
      var first := if items[0].Undefined? then [] else Print(items[0]);
      if |items| == 1 then first else first + [COMMA] + PrintItems(items[1..])
  }

  function Member(key: Text, value: Text): Text {
    Quoted(key) + [COLON] + value
  }

  function PrintMembers(es: seq<Entry>, ghost v: Json): Text
    requires v.Obj? && forall e :: e in es ==> e in v.entries
    decreases v, 0, |es|
  {
    if es == [] then []
    else
      assert es[0] in v.entries;
      var first := Member(es[0].key, Print(es[0].value));
      if |es| == 1 then first else first + [COMMA] + PrintMembers(es[1..], v)
  }

  /** stableSerialize: for undefined it returns no text. */
  function StableSerialize(v: Json): Option<Text> {
    if v.Undefined? then None else Some(Print(v))
  }

  // ----- reference: values as trees -----

  datatype Tree =
    | TUndefined
    | TNull
    | TBool(b: bool)
    | TNum(numeral: Text)
    | TStr(s: Text)
    | TArr(items: seq<Tree>)
    | TObj(members: map<Text, Tree>)

  /**
   The value as a tree with unordered keys. As in JSON, the non-finite numbers are null.
   An array of one undefined is identified with the empty array: the serializer does so.
   */
  function ToTree(v: Json): Tree
    decreases v, 1
  {
    match v
    case Undefined => TUndefined
    case Null => TNull
    case Bool(b) => TBool(b)
    case Num(numeral) => TNum(numeral)
    case NonFinite => TNull
    case Str(s) => TStr(s)
    case Arr(items) => if items == [Undefined] then TArr([]) else TArr(Trees(items))
    case Obj(entries) => TObj(TreeMap(entries))
  }

  function Trees(items: seq<Json>): (ts: seq<Tree>)
    ensures |ts| == |items| && forall i :: 0 <= i < |items| ==> ts[i] == ToTree(items[i])
    decreases items, 0
  {
    if items == [] then [] else [ToTree(items[0])] + Trees(items[1..])
  }

  function TreeMap(entries: seq<Entry>): map<Text, Tree>
    decreases entries, 0
  {
    if entries == [] then map[] else TreeMap(entries[1..])[entries[0].key := ToTree(entries[0].value)]
  }

  // ----- which values there are -----

  predicate IsNumberUnit(c: Unit) {
    '0' as Unit <= c <= '9' as Unit || c in [43, 45, 46, 101]  // + - . e
  }

  predicate IsNumeral(t: Text) {
    && t != [] && ('0' as Unit <= t[0] <= '9' as Unit || t[0] == 45)
    && forall i :: 0 <= i < |t| ==> IsNumberUnit(t[i])
  }

  function Keys(es: seq<Entry>): (ks: seq<Text>)
    ensures |ks| == |es| && forall i :: 0 <= i < |es| ==> ks[i] == es[i].key
  {
    seq(|es|, i requires 0 <= i < |es| => es[i].key)
  }

  ghost predicate DistinctKeys(es: seq<Entry>) {
    forall i, j :: 0 <= i < j < |es| ==> es[i].key != es[j].key
  }

  /** Numbers are numerals and no object lists a key twice. */
  ghost predicate Ok(v: Json) {
    match v
    case Num(t) => IsNumeral(t)
    case Arr(items) => forall i :: 0 <= i < |items| ==> Ok(items[i])
    case Obj(entries) => DistinctKeys(entries) && forall i :: 0 <= i < |entries| ==> Ok(entries[i].value)
    case _ => true
  }

  // ----- a quotation can be read back -----

  lemma StripSame(p: Text, q: Text, x: Text, y: Text)
    requires p + x == q + y && |p| == |q|
    ensures p == q && x == y
  {
    assert p == (p + x)[..|p|] && q == (q + y)[..|q|];
    assert x == (p + x)[|p|..] && y == (q + y)[|q|..];
  }

  /** The length of a token can be told from the text that follows. */
  function TokenLength(text: Text): nat
    requires text != []
  {
    if text[0] == BACKSLASH then (if |text| > 1 && text[1] == LETTER_U then 6 else 2)
    else if IsHigh(text[0]) then 2 else 1
  }

  lemma TokenLengthOf(s: Text, rest: Text)
    requires s != []
    ensures Token(s) != [] && Token(s)[0] != QUOTE
    ensures TokenLength(Token(s) + rest) == |Token(s)|
  {
  }

  lemma HexDigitInjective(d: Unit, e: Unit)
    requires d < 16 && e < 16 && HexDigit(d) == HexDigit(e)
    ensures d == e
  {
  }

  lemma Digits(c: Unit)
    ensures c == 4096 * (c / 4096 % 16) + 256 * (c / 256 % 16) + 16 * (c / 16 % 16) + c % 16
  {
    var a := c / 16;
    var b := a / 16;
    var d := b / 16;
    assert c / 256 == b && c / 4096 == d && d < 16;
  }

  lemma HexInjective(c: Unit, d: Unit)
    requires Hex4(c) == Hex4(d)
    ensures c == d
  {
    var p, q := Hex4(c), Hex4(d);
    HexDigitInjective(c / 4096 % 16, d / 4096 % 16) by { assert p[0] == q[0]; }
    HexDigitInjective(c / 256 % 16, d / 256 % 16) by { assert p[1] == q[1]; }
    HexDigitInjective(c / 16 % 16, d / 16 % 16) by { assert p[2] == q[2]; }
    HexDigitInjective(c % 16, d % 16) by { assert p[3] == q[3]; }
    Digits(c);
    Digits(d);
  }

  lemma TokenInjective(s: Text, t: Text)
    requires s != [] && t != [] && Token(s) == Token(t)
    ensures s[..Used(s)] == t[..Used(t)]
  {
    var p, q := Token(s), Token(t);
    if IsPair(s) || IsPair(t) {
      assert p[0] == q[0];
    } else if |p| == 6 {
      assert p[2..] == Hex4(s[0]) && q[2..] == Hex4(t[0]);
      HexInjective(s[0], t[0]);
    } else if |p| == 2 {
      assert p[1] == q[1];
    } else {
      assert p[0] == q[0];
    }
  }

  /** What is left to read: the quotation of s, its closing quote, and the text after it. */
  function Unread(s: Text, x: Text): Text {
    Body(s) + ([QUOTE] + x)
  }

  lemma ReadToken(s: Text, x: Text)
    requires s != []
    ensures Unread(s, x) == Token(s) + Unread(s[Used(s)..], x)
    ensures Unread(s, x)[0] != QUOTE
    ensures TokenLength(Unread(s, x)) == |Token(s)|
  {
    assert Unread(s, x) == Token(s) + Unread(s[Used(s)..], x);
    TokenLengthOf(s, Unread(s[Used(s)..], x));
  }

  lemma {:induction false} ReadQuotation(s: Text, t: Text, x: Text, y: Text)
    requires Unread(s, x) == Unread(t, y)
    ensures s == t && x == y
    decreases |s|
  {
    if s != [] { ReadToken(s, x); }
    if t != [] { ReadToken(t, y); }
    if s == [] || t == [] {
      assert s == [] ==> Unread(s, x) == [QUOTE] + x;
      assert t == [] ==> Unread(t, y) == [QUOTE] + y;
      StripSame([QUOTE], [QUOTE], x, y);
    } else {
      StripSame(Token(s), Token(t), Unread(s[Used(s)..], x), Unread(t[Used(t)..], y));
      TokenInjective(s, t);
      ReadQuotation(s[Used(s)..], t[Used(t)..], x, y);
      assert s == s[..Used(s)] + s[Used(s)..] && t == t[..Used(t)] + t[Used(t)..];
    }
  }

  // ----- the order of keys -----

  lemma {:induction false} CompareZero(a: Text, b: Text)
    ensures Compare(a, b) == 0 <==> a == b
  {
    if a != [] && b != [] && a[0] == b[0] {
      CompareZero(a[1..], b[1..]);
      assert a == [a[0]] + a[1..] && b == [b[0]] + b[1..];
    }
  }

  lemma {:induction false} CompareFlips(a: Text, b: Text)
    ensures Compare(a, b) < 0 <==> Compare(b, a) > 0
  {
    if a != [] && b != [] && a[0] == b[0] { CompareFlips(a[1..], b[1..]); }
  }

  lemma {:induction false} CompareChains(a: Text, b: Text, c: Text)
    requires Compare(a, b) < 0 && Compare(b, c) < 0
    ensures Compare(a, c) < 0
  {
    if a != [] && b != [] && c != [] && a[0] == b[0] == c[0] { CompareChains(a[1..], b[1..], c[1..]); }
  }

  ghost predicate Ascending(es: seq<Entry>) {
    forall i, j :: 0 <= i < j < |es| ==> KeyBefore(es[i], es[j])
  }

  lemma {:induction false} InsertAscending(x: Entry, es: seq<Entry>)
    requires Ascending(es) && forall e :: e in es ==> e.key != x.key
    ensures Ascending(Insert(x, es, KeyBefore))
  {
    if es == [] {
    } else if KeyBefore(es[0], x) {
      var rest := Insert(x, es[1..], KeyBefore);
      InsertAscending(x, es[1..]);
      SameMembers(rest, [x] + es[1..]);
      forall e | e in rest ensures KeyBefore(es[0], e) {
        assert e == x || e in es[1..];
      }
    } else {
      CompareZero(es[0].key, x.key);
      CompareFlips(x.key, es[0].key);
      forall i | 0 < i < |es| ensures KeyBefore(x, es[i]) {
        CompareChains(x.key, es[0].key, es[i].key);
      }
    }
  }

  lemma {:induction false} SortAscending(es: seq<Entry>)
    requires DistinctKeys(es)
    ensures Ascending(Sort(es, KeyBefore))
  {
    if es != [] {
      var rest := Sort(es[1..], KeyBefore);
      SortAscending(es[1..]);
      SameMembers(rest, es[1..]);
      InsertAscending(es[0], rest);
    }
  }

  // ----- equal texts come from equal trees -----

  /** What may follow a value: nothing, a separator, or the end of its container. */
  predicate IsEnd(x: Text) {
    x == [] || x[0] in [COMMA, CLOSE_ARRAY, CLOSE_OBJECT]
  }

  /** Which form a value prints in; the first unit of its text tells. */
  function Form(v: Json): Unit {
    match v
    case Undefined => LETTER_U
    case Null => 'n' as Unit
    case NonFinite => 'n' as Unit
    case Bool(b) => if b then 't' as Unit else 'f' as Unit
    case Num(_) => '0' as Unit
    case Str(_) => QUOTE
    case Arr(_) => OPEN_ARRAY
    case Obj(_) => OPEN_OBJECT
  }

  function FormOf(c: Unit): Unit {
    if IsNumberUnit(c) then '0' as Unit else c
  }

  lemma FirstUnit(v: Json)
    requires Ok(v)
    ensures Print(v) != [] && FormOf(Print(v)[0]) == Form(v)
    ensures Print(v)[0] !in [COMMA, CLOSE_ARRAY, CLOSE_OBJECT]
  {
    assert '-' as Unit == 45;
  }

  lemma NumeralNotShorter(p: Text, q: Text, x: Text, y: Text)
    requires IsNumeral(q) && IsEnd(x) && p + x == q + y
    ensures |q| <= |p|
  {
    assert x != [] ==> (p + x)[|p|] == x[0];
    assert forall i :: 0 <= i < |q| ==> IsNumberUnit((q + y)[i]);
  }

  lemma ReadNumeral(p: Text, q: Text, x: Text, y: Text)
    requires IsNumeral(p) && IsNumeral(q) && IsEnd(x) && IsEnd(y) && p + x == q + y
    ensures p == q && x == y
  {
    NumeralNotShorter(p, q, x, y);
    NumeralNotShorter(q, p, y, x);
    StripSame(p, q, x, y);
  }

  /** Values whose texts start alike are of one form. */
  lemma SameForm(v: Json, w: Json, x: Text, y: Text)
    requires Ok(v) && Ok(w) && Print(v) + x == Print(w) + y
    ensures Form(v) == Form(w)
  {
    FirstUnit(v);
    FirstUnit(w);
    assert Print(v)[0] == (Print(v) + x)[0] == (Print(w) + y)[0] == Print(w)[0];
  }

  lemma StringUnread(v: Json, x: Text)
    requires v.Str?
    ensures Print(v) + x == [QUOTE] + Unread(v.s, x)
  {
  }

  lemma DecodeString(v: Json, w: Json, x: Text, y: Text)
    requires v.Str? && w.Str? && Print(v) + x == Print(w) + y
    ensures v == w && x == y
  {
    StringUnread(v, x);
    StringUnread(w, y);
    StripSame([QUOTE], [QUOTE], Unread(v.s, x), Unread(w.s, y));
    ReadQuotation(v.s, w.s, x, y);
  }

  /** A text that starts like one printed value and like another was printed from equal trees. */
  lemma {:induction false} Decode(v: Json, w: Json, x: Text, y: Text)
    requires Ok(v) && Ok(w) && IsEnd(x) && IsEnd(y) && Print(v) + x == Print(w) + y
    ensures ToTree(v) == ToTree(w) && x == y
    decreases v, 1, 0
  {
    SameForm(v, w, x, y);
    match v
    case Num(p) => ReadNumeral(p, w.numeral, x, y);
    case Str(s) => DecodeString(v, w, x, y);
    case Arr(items) => DecodeArray(v, w, x, y);
    case Obj(entries) => DecodeObject(v, w, x, y);
    case _ => StripSame(Print(v), Print(w), x, y);
  }

  lemma {:induction false} DecodeArray(v: Json, w: Json, x: Text, y: Text)
    requires v.Arr? && w.Arr? && Ok(v) && Ok(w) && Print(v) + x == Print(w) + y
    ensures ToTree(v) == ToTree(w) && x == y
    decreases v, 0, 0
  {
    var x', y' := [CLOSE_ARRAY] + x, [CLOSE_ARRAY] + y;
    var a, b := PrintItems(v.items) + x', PrintItems(w.items) + y';
    assert Print(v) + x == [OPEN_ARRAY] + a && Print(w) + y == [OPEN_ARRAY] + b;
    StripSame([OPEN_ARRAY], [OPEN_ARRAY], a, b);
    if v.items == [] {
      assert a == x';
      NoItems(w.items, x', y');
    } else if w.items == [] {
      assert b == y';
      NoItems(v.items, y', x');
    } else {
      DecodeItems(v.items, w.items, x', y');
      if v.items == [Undefined] || w.items == [Undefined] {
        assert ToTree(v.items[0]) == ToTree(w.items[0]);
      }
    }
    StripSame([CLOSE_ARRAY], [CLOSE_ARRAY], x, y);
  }

  /** Only the array of one undefined prints like the empty array. */
  lemma NoItems(items: seq<Json>, x: Text, y: Text)
    requires (forall i :: 0 <= i < |items| ==> Ok(items[i]))
    requires x != [] && y != [] && x[0] == y[0] == CLOSE_ARRAY && x == PrintItems(items) + y
    ensures (items == [] || items == [Undefined]) && x == y
  {
    if items != [] {
      if !items[0].Undefined? { FirstUnit(items[0]); }
      assert x[0] == CLOSE_ARRAY;
    }
  }

  /** What stands after the first item of an array, or the first member of an object. */
  function After(more: bool, rest: Text, x: Text): Text {
    if more then [COMMA] + (rest + x) else x
  }

  function PrintItem(v: Json): Text {
    if v.Undefined? then [] else Print(v)
  }

  lemma FirstItem(items: seq<Json>, x: Text)
    requires items != []
    ensures PrintItems(items) + x
      == PrintItem(items[0]) + After(|items| > 1, PrintItems(items[1..]), x)
  {
    if |items| > 1 {
      Regroup(PrintItem(items[0]), [COMMA], PrintItems(items[1..]), x);
    }
  }

  lemma Regroup(a: Text, b: Text, c: Text, d: Text)
    ensures a + b + c + d == a + (b + (c + d))
  {
  }

  lemma ItemFirst(v: Json, x: Text)
    requires Ok(v) && IsEnd(x) && x != []
    ensures IsEnd(PrintItem(v) + x) <==> v.Undefined?
  {
    if v.Undefined? {
      assert PrintItem(v) + x == x;
    } else {
      FirstUnit(v);
      assert (Print(v) + x)[0] == Print(v)[0];
    }
  }

  lemma {:induction false} DecodeItem(v: Json, w: Json, x: Text, y: Text)
    requires Ok(v) && Ok(w) && IsEnd(x) && IsEnd(y) && x != [] && y != []
    requires PrintItem(v) + x == PrintItem(w) + y
    ensures ToTree(v) == ToTree(w) && x == y
    decreases v, 2, 0
  {
    ItemFirst(v, x);
    ItemFirst(w, y);
    if v.Undefined? {
      StripSame([], [], x, y);
    } else {
      Decode(v, w, x, y);
    }
  }

  lemma AfterSame(more: bool, rest: Text, x: Text, more': bool, rest': Text, y: Text)
    requires x != [] && y != [] && x[0] != COMMA && y[0] != COMMA
    requires After(more, rest, x) == After(more', rest', y)
    ensures more == more' && if more then rest + x == rest' + y else x == y
  {
    assert After(more, rest, x)[0] == After(more', rest', y)[0];
    if more {
      StripSame([COMMA], [COMMA], rest + x, rest' + y);
    }
  }

  ghost predicate SameTrees(a: seq<Json>, b: seq<Json>) {
    |a| == |b| && forall i :: 0 <= i < |a| ==> ToTree(a[i]) == ToTree(b[i])
  }

  lemma SameTreesCons(a: seq<Json>, b: seq<Json>)
    requires a != [] && b != [] && ToTree(a[0]) == ToTree(b[0]) && SameTrees(a[1..], b[1..])
    ensures SameTrees(a, b)
  {
    forall i | 0 < i < |a| ensures ToTree(a[i]) == ToTree(b[i]) {
      assert a[i] == a[1..][i - 1] && b[i] == b[1..][i - 1];
    }
  }

  lemma {:induction false} DecodeItems(a: seq<Json>, b: seq<Json>, x: Text, y: Text)
    requires a != [] && b != [] && x != [] && y != [] && x[0] == y[0] == CLOSE_ARRAY
    requires (forall i :: 0 <= i < |a| ==> Ok(a[i])) && (forall i :: 0 <= i < |b| ==> Ok(b[i]))
    requires PrintItems(a) + x == PrintItems(b) + y
    ensures SameTrees(a, b) && x == y
    decreases a, 0, 0
  {
    FirstItem(a, x);
    FirstItem(b, y);
    var more, more' := PrintItems(a[1..]), PrintItems(b[1..]);
    DecodeItem(a[0], b[0], After(|a| > 1, more, x), After(|b| > 1, more', y));
    AfterSame(|a| > 1, more, x, |b| > 1, more', y);
    if |a| > 1 {
      DecodeItems(a[1..], b[1..], x, y);
    }
    SameTreesCons(a, b);
  }

  lemma {:induction false} DecodeObject(v: Json, w: Json, x: Text, y: Text)
    requires v.Obj? && w.Obj? && Ok(v) && Ok(w) && Print(v) + x == Print(w) + y
    ensures ToTree(v) == ToTree(w) && x == y
    decreases v, 0, |v.entries| + 1
  {
    var es, fs := SortedEntries(v), SortedEntries(w);
    var x', y' := [CLOSE_OBJECT] + x, [CLOSE_OBJECT] + y;
    OpenObject(v, x);
    OpenObject(w, y);
    StripSame([OPEN_OBJECT], [OPEN_OBJECT], PrintMembers(es, v) + x', PrintMembers(fs, w) + y');
    DecodeMembers(v, w, es, fs, x', y');
    StripSame([CLOSE_OBJECT], [CLOSE_OBJECT], x, y);
    SameTreeMap(v.entries, w.entries, es, fs);
  }

  lemma OpenObject(v: Json, x: Text)
    requires v.Obj?
    ensures Print(v) + x == [OPEN_OBJECT] + (PrintMembers(SortedEntries(v), v) + ([CLOSE_OBJECT] + x))
  {
  }

  lemma FirstMember(v: Json, es: seq<Entry>, x: Text)
    requires v.Obj? && es != [] && forall e :: e in es ==> e in v.entries
    ensures PrintMembers(es, v) + x
      == Member(es[0].key, Print(es[0].value)) + After(|es| > 1, PrintMembers(es[1..], v), x)
  {
  }

  lemma MembersFirst(v: Json, es: seq<Entry>, x: Text)
    requires v.Obj? && x != [] && x[0] == CLOSE_OBJECT && forall e :: e in es ==> e in v.entries
    ensures (PrintMembers(es, v) + x)[0] == if es == [] then CLOSE_OBJECT else QUOTE
  {
    if es == [] {
      assert PrintMembers(es, v) + x == x;
    } else {
      assert PrintMembers(es, v) != [] && PrintMembers(es, v)[0] == QUOTE;
    }
  }

  lemma MemberUnread(key: Text, value: Text, x: Text)
    ensures Member(key, value) + x == [QUOTE] + Unread(key, [COLON] + (value + x))
  {
  }

  lemma {:induction false} DecodeMembers(v: Json, w: Json, es: seq<Entry>, fs: seq<Entry>, x: Text, y: Text)
    requires v.Obj? && w.Obj? && Ok(v) && Ok(w)
    requires (forall e :: e in es ==> e in v.entries) && (forall e :: e in fs ==> e in w.entries)
    requires x != [] && y != [] && x[0] == y[0] == CLOSE_OBJECT
    requires PrintMembers(es, v) + x == PrintMembers(fs, w) + y
    ensures x == y && SameMap(es, fs)
    decreases v, 0, |es|
  {
    MembersFirst(v, es, x);
    MembersFirst(w, fs, y);
    if es != [] {
      FirstMember(v, es, x);
      FirstMember(w, fs, y);
      var more, more' := PrintMembers(es[1..], v), PrintMembers(fs[1..], w);
      assert es[0] in v.entries && fs[0] in w.entries;
      DecodeMember(es[0], fs[0], After(|es| > 1, more, x), After(|fs| > 1, more', y));
      AfterSame(|es| > 1, more, x, |fs| > 1, more', y);
      if |es| > 1 {
        DecodeMembers(v, w, es[1..], fs[1..], x, y);
      }
      SameMapCons(es, fs);
    } else {
      assert PrintMembers(es, v) + x == x && PrintMembers(fs, w) + y == y;
    }
  }

  lemma {:induction false} DecodeMember(e: Entry, f: Entry, x: Text, y: Text)
    requires Ok(e.value) && Ok(f.value) && IsEnd(x) && IsEnd(y)
    requires Member(e.key, Print(e.value)) + x == Member(f.key, Print(f.value)) + y
    ensures e.key == f.key && ToTree(e.value) == ToTree(f.value) && x == y
    decreases e.value, 2, 0
  {
    var a, b := [COLON] + (Print(e.value) + x), [COLON] + (Print(f.value) + y);
    MemberUnread(e.key, Print(e.value), x);
    MemberUnread(f.key, Print(f.value), y);
    StripSame([QUOTE], [QUOTE], Unread(e.key, a), Unread(f.key, b));
    ReadQuotation(e.key, f.key, a, b);
    StripSame([COLON], [COLON], Print(e.value) + x, Print(f.value) + y);
    Decode(e.value, f.value, x, y);
  }

  /** The same keys with equal trees, in the same order. */
  ghost predicate SameMap(es: seq<Entry>, fs: seq<Entry>) {
    && |es| == |fs|
    && forall i :: 0 <= i < |es| ==> es[i].key == fs[i].key && ToTree(es[i].value) == ToTree(fs[i].value)
  }

  lemma SameMapCons(es: seq<Entry>, fs: seq<Entry>)
    requires es != [] && fs != [] && SameMap([es[0]], [fs[0]]) && SameMap(es[1..], fs[1..])
    ensures SameMap(es, fs)
  {
    assert es == [es[0]] + es[1..] && fs == [fs[0]] + fs[1..];
  }

  lemma {:induction false} TreeMapKeys(es: seq<Entry>)
    ensures forall k :: k in TreeMap(es) <==> k in Keys(es)
  {
    if es != [] {
      TreeMapKeys(es[1..]);
      assert Keys(es) == [es[0].key] + Keys(es[1..]);
    }
  }

  lemma {:induction false} TreeMapValues(es: seq<Entry>, i: nat)
    requires DistinctKeys(es) && i < |es|
    ensures es[i].key in TreeMap(es) && TreeMap(es)[es[i].key] == ToTree(es[i].value)
  {
    if i > 0 { TreeMapValues(es[1..], i - 1); }
  }

  lemma TreeMapOf(es: seq<Entry>)
    requires DistinctKeys(es)
    ensures forall e :: e in es ==> e.key in TreeMap(es) && TreeMap(es)[e.key] == ToTree(e.value)
    ensures forall k :: k in TreeMap(es) <==> k in Keys(es)
  {
    TreeMapKeys(es);
    forall i | 0 <= i < |es| ensures es[i].key in TreeMap(es) && TreeMap(es)[es[i].key] == ToTree(es[i].value) {
      TreeMapValues(es, i);
    }
  }

  lemma WithKey(es: seq<Entry>, k: Text) returns (e: Entry)
    requires k in Keys(es)
    ensures e in es && e.key == k
  {
    var i :| 0 <= i < |es| && Keys(es)[i] == k;
    e := es[i];
  }

  lemma KeyOf(es: seq<Entry>, e: Entry)
    requires e in es
    ensures e.key in Keys(es)
  {
    var i :| 0 <= i < |es| && es[i] == e;
    assert Keys(es)[i] == e.key;
  }

  lemma SameTreeMap(a: seq<Entry>, b: seq<Entry>, es: seq<Entry>, fs: seq<Entry>)
    requires DistinctKeys(a) && DistinctKeys(b) && SameMap(es, fs)
    requires (forall e :: e in es <==> e in a) && (forall e :: e in fs <==> e in b)
    ensures TreeMap(a) == TreeMap(b)
  {
    TreeMapKeys(a);
    TreeMapKeys(b);
    forall k | k in TreeMap(a) ensures k in TreeMap(b) && TreeMap(b)[k] == TreeMap(a)[k] {
      SameTreeAtKey(a, b, es, fs, k);
    }
    forall k | k in TreeMap(b) ensures k in TreeMap(a) {
      SameTreeAtKey(b, a, fs, es, k);
    }
  }

  lemma SameTreeAtKey(a: seq<Entry>, b: seq<Entry>, es: seq<Entry>, fs: seq<Entry>, k: Text)
    requires DistinctKeys(a) && DistinctKeys(b) && SameMap(es, fs) && k in Keys(a) && k in TreeMap(a)
    requires (forall e :: e in a ==> e in es) && (forall e :: e in fs ==> e in b)
    ensures k in TreeMap(b) && TreeMap(b)[k] == TreeMap(a)[k]
  {
    var e := TreeAtKey(a, k);
    var i :| 0 <= i < |es| && es[i] == e;
    assert fs[i] in b;
    TreeMapOf(b);
  }

  // ----- equal trees print equally -----

  ghost predicate AscendingKeys(ks: seq<Text>) {
    forall i, j :: 0 <= i < j < |ks| ==> Compare(ks[i], ks[j]) < 0
  }

  lemma FirstKey(ks: seq<Text>, ls: seq<Text>)
    requires ks != [] && AscendingKeys(ls) && ks[0] in ls
    ensures Compare(ls[0], ks[0]) <= 0
  {
    CompareZero(ks[0], ks[0]);
  }

  lemma RestKey(ks: seq<Text>, ls: seq<Text>, k: Text)
    requires ks != [] && ls != [] && AscendingKeys(ks) && ks[0] == ls[0] && k in ks[1..] && k in ls
    ensures k in ls[1..]
  {
    CompareZero(ks[0], k);
  }

  lemma SameEmptiness(ks: seq<Text>, ls: seq<Text>)
    requires forall k :: k in ks <==> k in ls
    ensures ks == [] <==> ls == []
  {
    if ks != [] { assert ks[0] in ls; }
    if ls != [] { assert ls[0] in ks; }
  }

  /** A set of keys has one ascending listing. */
  lemma {:induction false} AscendingUnique(ks: seq<Text>, ls: seq<Text>)
    requires AscendingKeys(ks) && AscendingKeys(ls)
    requires forall k :: k in ks <==> k in ls
    ensures ks == ls
  {
    SameEmptiness(ks, ls);
    if ks != [] {
      assert ks[0] in ls && ls[0] in ks;
      FirstKey(ks, ls);
      FirstKey(ls, ks);
      CompareFlips(ks[0], ls[0]);
      CompareZero(ks[0], ls[0]);
      forall k ensures k in ks[1..] <==> k in ls[1..] {
        if k in ks[1..] { RestKey(ks, ls, k); }
        if k in ls[1..] { RestKey(ls, ks, k); }
      }
      AscendingUnique(ks[1..], ls[1..]);
    }
  }

  lemma SortedKeys(v: Json)
    requires v.Obj? && Ok(v)
    ensures AscendingKeys(Keys(SortedEntries(v)))
    ensures forall k :: k in Keys(SortedEntries(v)) <==> k in ToTree(v).members
    ensures forall e :: e in SortedEntries(v) ==>
      e.key in ToTree(v).members && ToTree(v).members[e.key] == ToTree(e.value)
  {
    var es := SortedEntries(v);
    SortAscending(v.entries);
    TreeMapOf(v.entries);
    forall k ensures k in Keys(es) <==> k in Keys(v.entries) {
      if k in Keys(es) {
        var e := WithKey(es, k);
        KeyOf(v.entries, e);
      }
      if k in Keys(v.entries) {
        var e := WithKey(v.entries, k);
        KeyOf(es, e);
      }
    }
  }

  lemma EqualTreesSameMap(v: Json, w: Json)
    requires v.Obj? && w.Obj? && Ok(v) && Ok(w) && ToTree(v) == ToTree(w)
    ensures SameMap(SortedEntries(v), SortedEntries(w))
  {
    var es, fs := SortedEntries(v), SortedEntries(w);
    SortedKeys(v);
    SortedKeys(w);
    AscendingUnique(Keys(es), Keys(fs));
    forall i | 0 <= i < |es| ensures es[i].key == fs[i].key && ToTree(es[i].value) == ToTree(fs[i].value) {
      assert es[i] in es && fs[i] in fs && Keys(es)[i] == Keys(fs)[i];
    }
  }

  lemma {:induction false} Encode(v: Json, w: Json)
    requires Ok(v) && Ok(w) && ToTree(v) == ToTree(w)
    ensures Print(v) == Print(w)
    decreases v, 1, 0
  {
    match v
    case Arr(items) =>
      if items == [Undefined] || w.items == [Undefined] {
        assert PrintItems([Undefined]) == [];
      } else {
        EncodeItems(items, w.items);
      }
    case Obj(entries) =>
      EqualTreesSameMap(v, w);
      EncodeMembers(v, w, SortedEntries(v), SortedEntries(w));
    case _ =>
  }

  lemma {:induction false} EncodeItems(a: seq<Json>, b: seq<Json>)
    requires |a| == |b|
    requires forall i :: 0 <= i < |a| ==> Ok(a[i]) && Ok(b[i]) && ToTree(a[i]) == ToTree(b[i])
    ensures PrintItems(a) == PrintItems(b)
    decreases a, 0, 0
  {
    if a != [] {
      Encode(a[0], b[0]);
      EncodeItems(a[1..], b[1..]);
    }
  }

  lemma {:induction false} EncodeMembers(v: Json, w: Json, es: seq<Entry>, fs: seq<Entry>)
    requires v.Obj? && w.Obj? && Ok(v) && Ok(w) && SameMap(es, fs)
    requires (forall e :: e in es ==> e in v.entries) && (forall e :: e in fs ==> e in w.entries)
    ensures PrintMembers(es, v) == PrintMembers(fs, w)
    decreases v, 0, |es|
  {
    if es != [] {
      assert es[0] in v.entries && fs[0] in w.entries;
      Encode(es[0].value, fs[0].value);
      EncodeMembers(v, w, es[1..], fs[1..]);
    }
  }

  // ----- main results -----

  /** Two values serialize alike exactly when they are the same tree, whatever order their keys were set in. */
  lemma SerializesAlikeIffSameTree(v: Json, w: Json)
    requires Ok(v) && Ok(w)
    ensures StableSerialize(v) == StableSerialize(w) <==> ToTree(v) == ToTree(w)
  {
    if StableSerialize(v) == StableSerialize(w) {
      StripSame(Print(v), Print(w), [], []);
      Decode(v, w, [], []);
    }
    if ToTree(v) == ToTree(w) {
      Encode(v, w);
    }
  }

  /** Values that JSON can carry: no undefined and no non-finite number anywhere. */
  ghost predicate Plain(v: Json) {
    match v
    case Undefined => false
    case NonFinite => false
    case Arr(items) => forall i :: 0 <= i < |items| ==> Plain(items[i])
    case Obj(entries) => forall i :: 0 <= i < |entries| ==> Plain(entries[i].value)
    case _ => true
  }

  /** Equal up to the order of the entries of objects, at any depth. */
  ghost predicate Reordered(v: Json, w: Json)
    decreases v
  {
    match v
    case Arr(items) =>
      w.Arr? && |items| == |w.items| && forall i :: 0 <= i < |items| ==> Reordered(items[i], w.items[i])
    case Obj(entries) =>
      && w.Obj?
      && (forall k :: k in Keys(entries) <==> k in Keys(w.entries))
      && (forall e, f :: e in entries && f in w.entries && e.key == f.key ==> Reordered(e.value, f.value))
    case _ => v == w
  }

  lemma {:induction false} ReorderedIffSameTree(v: Json, w: Json)
    requires Ok(v) && Ok(w) && Plain(v) && Plain(w)
    ensures Reordered(v, w) <==> ToTree(v) == ToTree(w)
    decreases v
  {
    match v
    case Arr(items) =>
      if w.Arr? && |items| == |w.items| {
        forall i | 0 <= i < |items| ensures AgreesWithTrees(items[i], w.items[i]) {
          ReorderedIffSameTree(items[i], w.items[i]);
        }
      }
      if w.Arr? { ReorderedArrays(v, w); }
    case Obj(entries) =>
      if w.Obj? {
        forall e, f | e in entries && f in w.entries
          ensures AgreesWithTrees(e.value, f.value)
        {
          ReorderedIffSameTree(e.value, f.value);
        }
        ReorderedObjects(v, w);
      }
    case _ =>
  }

  ghost predicate AgreesWithTrees(v: Json, w: Json) {
    Reordered(v, w) <==> ToTree(v) == ToTree(w)
  }

  lemma ReorderedArrays(v: Json, w: Json)
    requires v.Arr? && w.Arr? && Plain(v) && Plain(w)
    requires |v.items| == |w.items| ==> forall i :: 0 <= i < |v.items| ==> AgreesWithTrees(v.items[i], w.items[i])
    ensures Reordered(v, w) <==> ToTree(v) == ToTree(w)
  {
    assert v.items != [Undefined] && w.items != [Undefined] by { assert !Plain(Undefined); }
    var ts, us := Trees(v.items), Trees(w.items);
    assert ToTree(v) == ToTree(w) <==> ts == us;
    if |v.items| == |w.items| {
      assert ts == us <==> forall i :: 0 <= i < |ts| ==> ts[i] == us[i];
      forall i | 0 <= i < |ts| ensures ts[i] == us[i] <==> Reordered(v.items[i], w.items[i]) {
        assert AgreesWithTrees(v.items[i], w.items[i]);
      }
    }
  }

  lemma {:induction false} ReorderedObjects(v: Json, w: Json)
    requires v.Obj? && w.Obj? && Ok(v) && Ok(w)
    requires forall e, f :: e in v.entries && f in w.entries ==> AgreesWithTrees(e.value, f.value)
    ensures Reordered(v, w) <==> TreeMap(v.entries) == TreeMap(w.entries)
  {
    if Reordered(v, w) { ReorderedObjectsAgree(v, w); }
    TreeMapOf(v.entries);
    TreeMapOf(w.entries);
    if TreeMap(v.entries) == TreeMap(w.entries) {
      forall e, f | e in v.entries && f in w.entries && e.key == f.key ensures Reordered(e.value, f.value) {
        assert AgreesWithTrees(e.value, f.value);
      }
    }
  }

  lemma {:induction false} ReorderedObjectsAgree(v: Json, w: Json)
    requires v.Obj? && w.Obj? && Ok(v) && Ok(w) && Reordered(v, w)
    requires forall e, f :: e in v.entries && f in w.entries ==> AgreesWithTrees(e.value, f.value)
    ensures TreeMap(v.entries) == TreeMap(w.entries)
  {
    var m, n := TreeMap(v.entries), TreeMap(w.entries);
    TreeMapKeys(v.entries);
    TreeMapKeys(w.entries);
    forall k | k in m ensures m[k] == n[k] {
      ReorderedAtKey(v, w, k);
    }
  }

  lemma {:induction false} ReorderedAtKey(v: Json, w: Json, k: Text)
    requires v.Obj? && w.Obj? && DistinctKeys(v.entries) && DistinctKeys(w.entries) && Reordered(v, w)
    requires forall e, f :: e in v.entries && f in w.entries ==> AgreesWithTrees(e.value, f.value)
    requires k in Keys(v.entries) && k in Keys(w.entries) && k in TreeMap(v.entries) && k in TreeMap(w.entries)
    ensures TreeMap(v.entries)[k] == TreeMap(w.entries)[k]
  {
    var e := TreeAtKey(v.entries, k);
    var f := TreeAtKey(w.entries, k);
    assert AgreesWithTrees(e.value, f.value);
  }

  lemma TreeAtKey(es: seq<Entry>, k: Text) returns (e: Entry)
    requires DistinctKeys(es) && k in Keys(es) && k in TreeMap(es)
    ensures e in es && e.key == k && TreeMap(es)[k] == ToTree(e.value)
  {
    e := WithKey(es, k);
    TreeMapOf(es);
  }

  /** On JSON values the serializer is injective up to the order of keys, and blind to that order. */
  lemma SerializesAlikeIffReordered(v: Json, w: Json)
    requires Ok(v) && Ok(w) && Plain(v) && Plain(w)
    ensures StableSerialize(v) == StableSerialize(w) <==> Reordered(v, w)
  {
    SerializesAlikeIffSameTree(v, w);
    ReorderedIffSameTree(v, w);
  }

  /** Outside JSON it is not injective: these two arrays, and NaN and null, print alike. */
  lemma UndefinedCollides()
    ensures StableSerialize(Arr([Undefined])) == StableSerialize(Arr([]))
    ensures StableSerialize(NonFinite) == StableSerialize(Null)
  {
    assert PrintItems([Undefined]) == [];
  }
}
