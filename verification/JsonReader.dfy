/**
 A reader of JSON texts after RFC 8259, written without reference to the serializer, and the
 proof that it reads back what the serializer writes. Code units are given by their numbers.
 */
module JsonReader {
  import opened Common
  import opened Sorting
  import opened InputFingerprint

  datatype Reading<T> = Failed | Done(value: T, rest: Text)

  // ----- strings -----

  /** What follows a backslash, other than the escape of four hexadecimal digits. */
  function Unescape(c: Unit): Option<Unit> {
    if c == 34 || c == 92 || c == 47 then Some(c)
    else if c == 98 then Some(8)
    else if c == 102 then Some(12)
    else if c == 110 then Some(10)
    else if c == 114 then Some(13)
    else if c == 116 then Some(9)
    else None
  }

  function HexValue(c: Unit): Option<Unit> {
    if 48 <= c <= 57 then Some(c - 48)
    else if 65 <= c <= 70 then Some(c - 55)
    else if 97 <= c <= 102 then Some(c - 87)
    else None
  }

  /** The unit written as four hexadecimal digits. */
  function FourDigits(t: Text): Option<Unit>
    requires |t| == 4
  {
    var a, b, c, d := HexValue(t[0]), HexValue(t[1]), HexValue(t[2]), HexValue(t[3]);
    if a.None? || b.None? || c.None? || d.None? then None
    else if a.value < 16 && b.value < 16 && c.value < 16 && d.value < 16 then
      Some((4096 * (a.value as int) + 256 * (b.value as int) + 16 * (c.value as int) + (d.value as int)) as Unit)
    else None
  }

  /** One unit of a string, or that the text does not go on with one. */
  function ReadUnit(t: Text): (r: Reading<Unit>)
    ensures r.Done? ==> |r.rest| < |t|
  {
    if t == [] || t[0] == 34 || t[0] < 32 then Failed
    else if t[0] != 92 then Done(t[0], t[1..])
    else if |t| == 1 then Failed
    else if t[1] == 117 then
      if |t| < 6 || FourDigits(t[2..6]).None? then Failed else Done(FourDigits(t[2..6]).value, t[6..])
    else if Unescape(t[1]).None? then Failed
    else Done(Unescape(t[1]).value, t[2..])
  }

  /** The units of a string up to its closing quotation mark. */
  function ReadString(t: Text): (r: Reading<Text>)
    ensures r.Done? ==> |r.rest| < |t|
    decreases |t|
  {
    if t != [] && t[0] == 34 then Done([], t[1..])
    else
      match ReadUnit(t)
      case Failed => Failed
      case Done(c, rest) =>
        match ReadString(rest)
        case Failed => Failed
        case Done(s, after) => Done([c] + s, after)
  }

  // ----- numbers and words -----

  predicate NumberUnit(c: Unit) { 48 <= c <= 57 || c == 43 || c == 45 || c == 46 || c == 101 }

  function NumberLength(t: Text): (n: nat)
    ensures n <= |t|
  {
    if t != [] && NumberUnit(t[0]) then 1 + NumberLength(t[1..]) else 0
  }

  /** A tree written as a fixed word. */
  function ReadWord(t: Text): (r: Reading<Tree>)
    ensures r.Done? ==> |r.rest| < |t|
  {
    if [110, 117, 108, 108] <= t then Done(TNull, t[4..])
    else if [116, 114, 117, 101] <= t then Done(TBool(true), t[4..])
    else if [102, 97, 108, 115, 101] <= t then Done(TBool(false), t[5..])
    else Failed
  }

  // ----- values -----

  /** The members of an object; of members with the same key the first counts. */
  function MapOf(members: seq<(Text, Tree)>): map<Text, Tree> {
    if members == [] then map[] else MapOf(members[1..])[members[0].0 := members[0].1]
  }

  function ReadValue(t: Text): (r: Reading<Tree>)
    ensures r.Done? ==> |r.rest| < |t|
    decreases |t|, 0
  {
    if t == [] then Failed
    else if t[0] == 34 then
      match ReadString(t[1..])
      case Failed => Failed
      case Done(s, rest) => Done(TStr(s), rest)
    else if t[0] == 91 then
      if |t| > 1 && t[1] == 93 then Done(TArr([]), t[2..])
      else
        match ReadItems(t[1..])
        case Failed => Failed
        case Done(items, rest) => Done(TArr(items), rest)
    else if t[0] == 123 then
      if |t| > 1 && t[1] == 125 then Done(TObj(map[]), t[2..])
      else
        match ReadMembers(t[1..])
        case Failed => Failed
        case Done(members, rest) => Done(TObj(MapOf(members)), rest)
    else if NumberUnit(t[0]) then
      Done(TNum(t[..NumberLength(t)]), t[NumberLength(t)..])
    else ReadWord(t)
  }

  /** Values separated by commas, up to the closing bracket. */
  function ReadItems(t: Text): (r: Reading<seq<Tree>>)
    ensures r.Done? ==> |r.rest| < |t|
    decreases |t|, 1
  {
    match ReadValue(t)
    case Failed => Failed
    case Done(v, rest) =>
      if rest == [] then Failed
      else if rest[0] == 93 then Done([v], rest[1..])
      else if rest[0] != 44 then Failed
      else
        match ReadItems(rest[1..])
        case Failed => Failed
        case Done(vs, after) => Done([v] + vs, after)
  }

  /** A key, a colon and a value. */
  function ReadMember(t: Text): (r: Reading<(Text, Tree)>)
    ensures r.Done? ==> |r.rest| < |t|
    decreases |t|, 1
  {
    if t == [] || t[0] != 34 then Failed
    else
      match ReadString(t[1..])
      case Failed => Failed
      case Done(key, rest) =>
        if rest == [] || rest[0] != 58 then Failed
        else
          match ReadValue(rest[1..])
          case Failed => Failed
          case Done(v, after) => Done((key, v), after)
  }

  /** Members separated by commas, up to the closing brace. */
  function ReadMembers(t: Text): (r: Reading<seq<(Text, Tree)>>)
    ensures r.Done? ==> |r.rest| < |t|
    decreases |t|, 2
  {
    match ReadMember(t)
    case Failed => Failed
    case Done(m, rest) =>
      if rest == [] then Failed
      else if rest[0] == 125 then Done([m], rest[1..])
      else if rest[0] != 44 then Failed
      else
        match ReadMembers(rest[1..])
        case Failed => Failed
        case Done(ms, after) => Done([m] + ms, after)
  }

  // ----- what the serializer writes is read back -----

  /** No undefined at any depth: what a JSON text can carry. */
  ghost predicate Definite(v: Json) {
    match v
    case Undefined => false
    case Arr(items) => forall i :: 0 <= i < |items| ==> Definite(items[i])
    case Obj(entries) => forall i :: 0 <= i < |entries| ==> Definite(entries[i].value)
    case _ => true
  }

  lemma HexBack(d: Unit)
    requires d < 16
    ensures HexValue(HexDigit(d)) == Some(d)
  {
  }

  lemma FourBack(c: Unit)
    ensures FourDigits(Hex4(c)) == Some(c)
  {
    HexBack(c / 4096 % 16);
    HexBack(c / 256 % 16);
    HexBack(c / 16 % 16);
    HexBack(c % 16);
    Digits(c);
  }

  lemma ShortBack(c: Unit)
    requires ShortEscape(c) != 0
    ensures ShortEscape(c) != 117 && Unescape(ShortEscape(c)) == Some(c)
  {
  }

  /** A single token is read back as its unit. */
  lemma UnitBack(s: Text, x: Text)
    requires s != [] && !IsPair(s)
    ensures ReadUnit(Token(s) + x) == Done(s[0], x)
  {
    var c, t := s[0], Token(s) + x;
    if ShortEscape(c) != 0 {
      ShortBack(c);
      assert t[0] == 92 && t[1] == ShortEscape(c) && t[2..] == x;
    } else if c < 32 || IsHigh(c) || IsLow(c) {
      FourBack(c);
      assert t[0] == 92 && t[1] == 117 && t[2..6] == Hex4(c) && t[6..] == x;
    } else {
      assert t[0] == c && t[1..] == x;
    }
  }

  lemma PairBack(s: Text, x: Text)
    requires IsPair(s)
    ensures ReadUnit(Token(s) + x) == Done(s[0], [s[1]] + x)
    ensures ReadUnit([s[1]] + x) == Done(s[1], x)
  {
    assert Token(s) + x == [s[0], s[1]] + x;
    assert ([s[0], s[1]] + x)[1..] == [s[1]] + x && ([s[1]] + x)[1..] == x;
  }

  lemma StringStep(t: Text, c: Unit, rest: Text, s: Text, x: Text)
    requires ReadUnit(t) == Done(c, rest) && ReadString(rest) == Done(s, x)
    ensures ReadString(t) == Done([c] + s, x)
  {
  }

  lemma PairStep(s: Text, rest: Text, x: Text)
    requires IsPair(s) && ReadString(rest) == Done(s[2..], x)
    ensures ReadString(Token(s) + rest) == Done(s, x)
  {
    PairBack(s, rest);
    StringStep([s[1]] + rest, s[1], rest, s[2..], x);
    StringStep(Token(s) + rest, s[0], [s[1]] + rest, [s[1]] + s[2..], x);
    assert s == [s[0]] + ([s[1]] + s[2..]);
  }

  lemma UnitStep(s: Text, rest: Text, x: Text)
    requires s != [] && !IsPair(s) && ReadString(rest) == Done(s[1..], x)
    ensures ReadString(Token(s) + rest) == Done(s, x)
  {
    UnitBack(s, rest);
    StringStep(Token(s) + rest, s[0], rest, s[1..], x);
    assert s == [s[0]] + s[1..];
  }

  lemma {:induction false} StringBack(s: Text, x: Text)
    ensures ReadString(Unread(s, x)) == Done(s, x)
    decreases |s|
  {
    if s == [] {
      assert Unread(s, x) == [QUOTE] + x && ([QUOTE] + x)[1..] == x;
    } else {
      ReadToken(s, x);
      StringBack(s[Used(s)..], x);
      if IsPair(s) {
        PairStep(s, Unread(s[Used(s)..], x), x);
      } else {
        UnitStep(s, Unread(s[Used(s)..], x), x);
      }
    }
  }

  lemma {:induction false} NumberBack(p: Text, x: Text)
    requires (forall i :: 0 <= i < |p| ==> IsNumberUnit(p[i])) && IsEnd(x)
    ensures NumberLength(p + x) == |p|
  {
    if p == [] {
      assert p + x == x;
    } else {
      assert (p + x)[1..] == p[1..] + x;
      NumberBack(p[1..], x);
    }
  }

  lemma NumeralBack(p: Text, x: Text)
    requires IsNumeral(p) && IsEnd(x)
    ensures ReadValue(p + x) == Done(TNum(p), x)
  {
    NumberBack(p, x);
    assert (p + x)[..|p|] == p && (p + x)[|p|..] == x;
    assert (p + x)[0] == p[0];
  }

  lemma WordBack(word: Text, x: Text, tree: Tree)
    requires || (word == [110, 117, 108, 108] && tree == TNull)
             || (word == [116, 114, 117, 101] && tree == TBool(true))
             || (word == [102, 97, 108, 115, 101] && tree == TBool(false))
    ensures ReadValue(word + x) == Done(tree, x)
  {
    assert word <= word + x && (word + x)[0] == word[0] && (word + x)[|word|..] == x;
  }

  lemma Words()
    ensures Ascii("null") == [110, 117, 108, 108] && Ascii("true") == [116, 114, 117, 101]
    ensures Ascii("false") == [102, 97, 108, 115, 101]
  {
  }

  lemma StrBack(v: Json, x: Text)
    requires v.Str?
    ensures ReadValue(Print(v) + x) == Done(TStr(v.s), x)
  {
    StringUnread(v, x);
    StringBack(v.s, x);
    assert ([QUOTE] + Unread(v.s, x))[1..] == Unread(v.s, x);
  }

  lemma {:induction false} ValueBack(v: Json, x: Text)
    requires Ok(v) && Definite(v) && IsEnd(x)
    ensures ReadValue(Print(v) + x) == Done(ToTree(v), x)
    decreases v, 1, 0
  {
    Words();
    match v
    case Null => WordBack(Print(v), x, TNull);
    case NonFinite => WordBack(Print(v), x, TNull);
    case Bool(b) => WordBack(Print(v), x, TBool(b));
    case Num(p) => NumeralBack(p, x);
    case Str(s) => StrBack(v, x);
    case Arr(items) => ArrayBack(v, x);
    case Obj(entries) => ObjectBack(v, x);
  }

  lemma OpenedArray(inner: Text, items: seq<Tree>, x: Text)
    requires ReadItems(inner) == Done(items, x) && inner != [] && inner[0] != 93
    ensures ReadValue([OPEN_ARRAY] + inner) == Done(TArr(items), x)
  {
    assert ([OPEN_ARRAY] + inner)[1..] == inner;
  }

  lemma EmptyArray(x: Text)
    ensures ReadValue([OPEN_ARRAY] + ([CLOSE_ARRAY] + x)) == Done(TArr([]), x)
  {
    assert ([OPEN_ARRAY] + ([CLOSE_ARRAY] + x))[2..] == x;
  }

  lemma FirstOfItems(items: seq<Json>, end: Text)
    requires items != [] && Ok(items[0]) && Definite(items[0])
    ensures (PrintItems(items) + end) != [] && (PrintItems(items) + end)[0] != 93
  {
    FirstItem(items, end);
    FirstUnit(items[0]);
  }

  lemma {:induction false} ArrayBack(v: Json, x: Text)
    requires v.Arr? && Ok(v) && Definite(v)
    ensures ReadValue(Print(v) + x) == Done(ToTree(v), x)
    decreases v, 0, 0
  {
    var inner := PrintItems(v.items) + ([CLOSE_ARRAY] + x);
    assert Print(v) + x == [OPEN_ARRAY] + inner;
    if v.items == [] {
      EmptyArray(x);
      assert inner == [CLOSE_ARRAY] + x;
    } else {
      ItemsBack(v.items, x);
      FirstOfItems(v.items, [CLOSE_ARRAY] + x);
      OpenedArray(inner, Trees(v.items), x);
      assert v.items != [Undefined] by { assert Definite(v.items[0]); }
    }
  }

  lemma ItemsStep(t: Text, v: Tree, rest: Text, vs: seq<Tree>, x: Text)
    requires ReadValue(t) == Done(v, [COMMA] + rest) && ReadItems(rest) == Done(vs, x)
    ensures ReadItems(t) == Done([v] + vs, x)
  {
    assert ([COMMA] + rest)[1..] == rest;
  }

  lemma LastItem(t: Text, v: Tree, x: Text)
    requires ReadValue(t) == Done(v, [CLOSE_ARRAY] + x)
    ensures ReadItems(t) == Done([v], x)
  {
    assert ([CLOSE_ARRAY] + x)[1..] == x;
  }

  lemma {:induction false} ItemsBack(items: seq<Json>, x: Text)
    requires items != [] && forall i :: 0 <= i < |items| ==> Ok(items[i]) && Definite(items[i])
    ensures ReadItems(PrintItems(items) + ([CLOSE_ARRAY] + x)) == Done(Trees(items), x)
    decreases items, 0, 0
  {
    var end := [CLOSE_ARRAY] + x;
    var after := After(|items| > 1, PrintItems(items[1..]), end);
    FirstItem(items, end);
    assert Definite(items[0]);
    ValueBack(items[0], after);
    if |items| > 1 {
      ItemsBack(items[1..], x);
      ItemsStep(PrintItems(items) + end, ToTree(items[0]), PrintItems(items[1..]) + end, Trees(items[1..]), x);
    } else {
      LastItem(PrintItems(items) + end, ToTree(items[0]), x);
      assert Trees(items) == [ToTree(items[0])];
    }
  }

  /** The members of a sorted listing as trees. */
  function MemberTrees(es: seq<Entry>): (ms: seq<(Text, Tree)>)
    ensures |ms| == |es| && forall i :: 0 <= i < |es| ==> ms[i] == (es[i].key, ToTree(es[i].value))
  {
    seq(|es|, i requires 0 <= i < |es| => (es[i].key, ToTree(es[i].value)))
  }

  lemma {:induction false} MemberBack(e: Entry, x: Text)
    requires Ok(e.value) && Definite(e.value) && IsEnd(x)
    ensures ReadMember(Member(e.key, Print(e.value)) + x) == Done((e.key, ToTree(e.value)), x)
    decreases e.value, 2, 0
  {
    var value := [COLON] + (Print(e.value) + x);
    MemberUnread(e.key, Print(e.value), x);
    StringBack(e.key, value);
    ValueBack(e.value, x);
    assert ([QUOTE] + Unread(e.key, value))[1..] == Unread(e.key, value);
    assert value[1..] == Print(e.value) + x;
  }

  lemma MembersStep(t: Text, m: (Text, Tree), rest: Text, ms: seq<(Text, Tree)>, x: Text)
    requires ReadMember(t) == Done(m, [COMMA] + rest) && ReadMembers(rest) == Done(ms, x)
    ensures ReadMembers(t) == Done([m] + ms, x)
  {
    assert ([COMMA] + rest)[1..] == rest;
  }

  lemma LastMember(t: Text, m: (Text, Tree), x: Text)
    requires ReadMember(t) == Done(m, [CLOSE_OBJECT] + x)
    ensures ReadMembers(t) == Done([m], x)
  {
    assert ([CLOSE_OBJECT] + x)[1..] == x;
  }

  lemma MemberTreesCons(es: seq<Entry>)
    requires es != []
    ensures MemberTrees(es) == [(es[0].key, ToTree(es[0].value))] + MemberTrees(es[1..])
    ensures |es| == 1 ==> MemberTrees(es) == [(es[0].key, ToTree(es[0].value))]
  {
  }

  lemma {:induction false} MembersBack(v: Json, es: seq<Entry>, x: Text)
    requires v.Obj? && Ok(v) && Definite(v) && es != [] && forall e :: e in es ==> e in v.entries
    ensures ReadMembers(PrintMembers(es, v) + ([CLOSE_OBJECT] + x)) == Done(MemberTrees(es), x)
    decreases v, 0, |es|
  {
    FirstMemberBack(v, es, x);
    var t, first := PrintMembers(es, v) + ([CLOSE_OBJECT] + x), (es[0].key, ToTree(es[0].value));
    if |es| > 1 {
      MembersBack(v, es[1..], x);
      MoreMembers(t, first, PrintMembers(es[1..], v) + ([CLOSE_OBJECT] + x), es, x);
    } else {
      LastMember(t, first, x);
      MemberTreesCons(es);
    }
  }

  lemma MoreMembers(t: Text, first: (Text, Tree), rest: Text, es: seq<Entry>, x: Text)
    requires es != [] && first == (es[0].key, ToTree(es[0].value))
    requires ReadMember(t) == Done(first, [COMMA] + rest) && ReadMembers(rest) == Done(MemberTrees(es[1..]), x)
    ensures ReadMembers(t) == Done(MemberTrees(es), x)
  {
    MembersStep(t, first, rest, MemberTrees(es[1..]), x);
    MemberTreesCons(es);
  }

  lemma {:induction false} FirstMemberBack(v: Json, es: seq<Entry>, x: Text)
    requires v.Obj? && Ok(v) && Definite(v) && es != [] && forall e :: e in es ==> e in v.entries
    ensures var end := [CLOSE_OBJECT] + x;
      ReadMember(PrintMembers(es, v) + end)
      == Done((es[0].key, ToTree(es[0].value)), After(|es| > 1, PrintMembers(es[1..], v), end))
    decreases v, 0, 0
  {
    var end := [CLOSE_OBJECT] + x;
    FirstMember(v, es, end);
    assert es[0] in v.entries;
    MemberBack(es[0], After(|es| > 1, PrintMembers(es[1..], v), end));
  }

  lemma {:induction false} MapOfTrees(es: seq<Entry>)
    ensures MapOf(MemberTrees(es)) == TreeMap(es)
  {
    if es != [] {
      assert MemberTrees(es)[1..] == MemberTrees(es[1..]);
      MapOfTrees(es[1..]);
    }
  }

  lemma OpenedObject(inner: Text, members: seq<(Text, Tree)>, x: Text)
    requires ReadMembers(inner) == Done(members, x) && inner != [] && inner[0] != 125
    ensures ReadValue([OPEN_OBJECT] + inner) == Done(TObj(MapOf(members)), x)
  {
    assert ([OPEN_OBJECT] + inner)[1..] == inner;
  }

  lemma EmptyObject(x: Text)
    ensures ReadValue([OPEN_OBJECT] + ([CLOSE_OBJECT] + x)) == Done(TObj(map[]), x)
  {
    assert ([OPEN_OBJECT] + ([CLOSE_OBJECT] + x))[2..] == x;
  }

  lemma {:induction false} ObjectBack(v: Json, x: Text)
    requires v.Obj? && Ok(v) && Definite(v)
    ensures ReadValue(Print(v) + x) == Done(ToTree(v), x)
    decreases v, 0, |v.entries| + 1
  {
    var es := SortedEntries(v);
    var inner := PrintMembers(es, v) + ([CLOSE_OBJECT] + x);
    OpenObject(v, x);
    SortedMap(v);
    if es == [] {
      EmptyObject(x);
      assert inner == [CLOSE_OBJECT] + x;
    } else {
      MembersFirst(v, es, [CLOSE_OBJECT] + x);
      MembersBack(v, es, x);
      MapOfTrees(es);
      OpenedObject(inner, MemberTrees(es), x);
    }
  }

  lemma SortedMap(v: Json)
    requires v.Obj? && Ok(v)
    ensures TreeMap(SortedEntries(v)) == TreeMap(v.entries)
  {
    var es := SortedEntries(v);
    SortAscending(v.entries);
    forall i, j | 0 <= i < j < |es| ensures es[i].key != es[j].key {
      assert KeyBefore(es[i], es[j]);
      CompareZero(es[i].key, es[j].key);
    }
    SameTreeMap(es, v.entries, es, es);
  }

  /** Reading the serialized value gives its tree, for every value without undefined. */
  lemma ReadBack(v: Json)
    requires Ok(v) && Definite(v)
    ensures StableSerialize(v).Some? && ReadValue(StableSerialize(v).value) == Done(ToTree(v), [])
  {
    ValueBack(v, []);
    assert Print(v) + [] == Print(v);
  }

  // ----- one text for one tree -----

  /** The first unit in which the texts differ is smaller in a, or a is where b goes on. */
  ghost predicate LexBefore(a: Text, b: Text) {
    exists n: nat :: LexAt(a, b, n)
  }

  ghost predicate LexAt(a: Text, b: Text, n: nat) {
    && n <= |a| && n < |b| && a[..n] == b[..n]
    && (n < |a| ==> a[n] < b[n])
  }

  lemma {:induction false} ComparedLex(a: Text, b: Text) returns (n: nat)
    requires Compare(a, b) < 0
    ensures LexAt(a, b, n)
  {
    n := 0;
    if a != [] && a[0] == b[0] {
      n := ComparedLex(a[1..], b[1..]);
      assert a[..n + 1] == [a[0]] + a[1..][..n] && b[..n + 1] == [b[0]] + b[1..][..n];
      n := n + 1;
    }
  }

  /** The members that a reader finds in a serialized object stand in the order of their keys, by code units. */
  lemma MembersInOrder(v: Json, x: Text)
    requires v.Obj? && Ok(v) && Definite(v) && v.entries != []
    ensures var t := Print(v) + x;
      var members := ReadMembers(t[1..]);
      && t[0] == 123 && members.Done? && members.rest == x
      && forall i, j :: 0 <= i < j < |members.value| ==> LexBefore(members.value[i].0, members.value[j].0)
  {
    var es := SortedEntries(v);
    var inner := PrintMembers(es, v) + ([CLOSE_OBJECT] + x);
    OpenObject(v, x);
    assert Print(v) + x == [OPEN_OBJECT] + inner && (Print(v) + x)[1..] == inner;
    assert v.entries[0] in es;
    MembersBack(v, es, x);
    SortAscending(v.entries);
    forall i, j | 0 <= i < j < |es| ensures LexBefore(es[i].key, es[j].key) {
      assert KeyBefore(es[i], es[j]);
      var n := ComparedLex(es[i].key, es[j].key);
    }
  }
}
