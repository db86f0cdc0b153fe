/**
 Quoted texts: a quote matches a text when it occurs in it, white space apart. The reference
 says so without trimming or collapsing anything.
 */
module Quotes {
  import opened Common

  /** White space as JavaScript's \\s and trim() see it. */
  predicate IsSpace(c: char) {
    || '\U{0009}' <= c <= '\U{000D}'
    || c in {' ', '\U{00A0}', '\U{1680}', '\U{2028}', '\U{2029}', '\U{202F}', '\U{205F}', '\U{3000}', '\U{FEFF}'}
    || '\U{2000}' <= c <= '\U{200A}'
  }

  function TrimStart(s: string): (r: string)
    ensures |r| <= |s|
  {
    if s != "" && IsSpace(s[0]) then TrimStart(s[1..]) else s
  }

  function TrimEnd(s: string): string {
    if s != "" && IsSpace(s[|s| - 1]) then TrimEnd(s[..|s| - 1]) else s
  }

  function Trim(s: string): string { TrimEnd(TrimStart(s)) }

  /** Every run of white space becomes one space. */
  function Collapse(s: string): string
    decreases |s|
  {
    if s == "" then ""
    else if IsSpace(s[0]) then " " + Collapse(TrimStart(s[1..]))
    else [s[0]] + Collapse(s[1..])
  }

  function NormalizeWhitespace(s: string): string { Trim(Collapse(s)) }

  predicate OccursAt(s: string, part: string, i: nat) {
    i + |part| <= |s| && s[i..i + |part|] == part
  }

  predicate Includes(s: string, part: string) {
    exists i: nat | i <= |s| :: OccursAt(s, part, i)
  }

  predicate QuotedTextMatches(quote: string, source: string) {
    NormalizeWhitespace(quote) != "" && Includes(NormalizeWhitespace(source), NormalizeWhitespace(quote))
  }

  // ----- what a match means -----

  /** The characters that are not white space, in order. */
  function Ink(s: string): string { Filter(s, (c: char) => !IsSpace(c)) }

  ghost predicate StretchOf(part: string, whole: string) {
    exists before: string, after: string :: whole == before + part + after
  }

  lemma InkAppend(a: string, b: string)
    ensures Ink(a + b) == Ink(a) + Ink(b)
  {
    FilterAppend(a, b, (c: char) => !IsSpace(c));
  }

  lemma InkOne(c: char)
    ensures Ink([c]) == if IsSpace(c) then "" else [c]
  {
    assert [c][1..] == [];
  }

  lemma {:induction false} TrimStartInk(s: string)
    ensures Ink(TrimStart(s)) == Ink(s)
  {
    if s != "" && IsSpace(s[0]) { TrimStartInk(s[1..]); }
  }

  lemma {:induction false} TrimEndInk(s: string)
    ensures Ink(TrimEnd(s)) == Ink(s)
  {
    if s != "" && IsSpace(s[|s| - 1]) {
      TrimEndInk(s[..|s| - 1]);
      TakeAll(s);
      InkAppend(s[..|s| - 1], [s[|s| - 1]]);
      InkOne(s[|s| - 1]);
    }
  }

  lemma {:induction false} CollapseInk(s: string)
    ensures Ink(Collapse(s)) == Ink(s)
    decreases |s|
  {
    if s != "" {
      var rest := if IsSpace(s[0]) then TrimStart(s[1..]) else s[1..];
      CollapseInk(rest);
      TrimStartInk(s[1..]);
      InkAppend([if IsSpace(s[0]) then ' ' else s[0]], Collapse(rest));
      InkOne(' ');
      InkOne(s[0]);
      InkAppend([s[0]], s[1..]);
      assert s == [s[0]] + s[1..];
    }
  }

  lemma NormalizedInk(s: string)
    ensures Ink(NormalizeWhitespace(s)) == Ink(s)
  {
    TrimStartInk(Collapse(s));
    TrimEndInk(TrimStart(Collapse(s)));
    CollapseInk(s);
  }

  lemma InkOfPart(s: string, part: string, i: nat)
    requires OccursAt(s, part, i)
    ensures StretchOf(Ink(part), Ink(s))
  {
    assert s == s[..i] + part + s[i + |part|..];
    InkAppend(s[..i] + part, s[i + |part|..]);
    InkAppend(s[..i], part);
    assert Ink(s) == Ink(s[..i]) + Ink(part) + Ink(s[i + |part|..]);
  }

  /** The ink of a matching quote stands in one stretch of the source's ink, and there is some. */
  lemma MatchIsStretch(quote: string, source: string)
    requires QuotedTextMatches(quote, source)
    ensures StretchOf(Ink(quote), Ink(source)) && Ink(quote) != ""
  {
    var i: nat :| OccursAt(NormalizeWhitespace(source), NormalizeWhitespace(quote), i);
    InkOfPart(NormalizeWhitespace(source), NormalizeWhitespace(quote), i);
    NormalizedInk(quote);
    NormalizedInk(source);
    if Ink(quote) == "" { NoInk(quote); }
  }

  lemma {:induction false} TrimStartBlank(s: string)
    requires forall i :: 0 <= i < |s| ==> IsSpace(s[i])
    ensures TrimStart(s) == ""
  {
    if s != "" { TrimStartBlank(s[1..]); }
  }

  lemma {:induction false} InkOfBlank(s: string)
    ensures Ink(s) == "" <==> forall i :: 0 <= i < |s| ==> IsSpace(s[i])
  {
    if s != "" { InkOfBlank(s[1..]); }
  }

  lemma NoInk(s: string)
    requires Ink(s) == ""
    ensures NormalizeWhitespace(s) == ""
  {
    InkOfBlank(s);
    if s != "" {
      TrimStartBlank(s[1..]);
      assert Collapse(s) == " ";
      assert TrimStart(" ") == "";
    }
  }

  /** A trimmed text is empty exactly when there is no ink. */
  lemma TrimmedAway(s: string)
    ensures Trim(s) != "" <==> Ink(s) != ""
  {
    TrimStartInk(s);
    TrimEndInk(TrimStart(s));
    if Ink(s) == "" {
      InkOfBlank(s);
      TrimStartBlank(s);
    }
  }

  // ----- a stretch of the text matches -----

  /** No white space at either end. */
  predicate Tight(s: string) { s != "" && !IsSpace(s[0]) && !IsSpace(s[|s| - 1]) }

  lemma {:induction false} TrimStartKeeps(a: string, b: string)
    requires b != "" && !IsSpace(b[0])
    ensures TrimStart(a + b) == TrimStart(a) + b
  {
    if a == "" {
      assert a + b == b;
    } else {
      assert (a + b)[1..] == a[1..] + b;
      if IsSpace(a[0]) { TrimStartKeeps(a[1..], b); }
    }
  }

  lemma {:induction false} TrimEndKeeps(a: string, b: string)
    requires a != "" && !IsSpace(a[|a| - 1])
    ensures TrimEnd(a + b) == a + TrimEnd(b)
  {
    if b == "" {
      assert a + b == a;
    } else {
      assert (a + b)[..|a + b| - 1] == a + b[..|b| - 1];
      if IsSpace(b[|b| - 1]) { TrimEndKeeps(a, b[..|b| - 1]); }
    }
  }

  /** Collapsing does not reach across a character that is not white space. */
  lemma {:induction false} CollapseBefore(a: string, b: string)
    requires b != "" && !IsSpace(b[0])
    ensures Collapse(a + b) == Collapse(a) + Collapse(b)
    decreases |a|
  {
    if a == "" {
      assert a + b == b;
    } else {
      assert (a + b)[0] == a[0] && (a + b)[1..] == a[1..] + b;
      if IsSpace(a[0]) {
        TrimStartKeeps(a[1..], b);
        CollapseBefore(TrimStart(a[1..]), b);
      } else {
        CollapseBefore(a[1..], b);
      }
    }
  }

  lemma {:induction false} TrimStartOf(a: string, b: string)
    requires a != "" && !IsSpace(a[|a| - 1])
    ensures TrimStart(a + b) == TrimStart(a) + b
    ensures TrimStart(a) != "" && TrimStart(a)[|TrimStart(a)| - 1] == a[|a| - 1]
  {
    assert (a + b)[0] == a[0] && (a + b)[1..] == a[1..] + b;
    if IsSpace(a[0]) { TrimStartOf(a[1..], b); }
  }

  lemma {:induction false} CollapseAfter(a: string, b: string)
    requires a != "" && !IsSpace(a[|a| - 1])
    ensures Collapse(a + b) == Collapse(a) + Collapse(b)
    decreases |a|
  {
    assert (a + b)[0] == a[0] && (a + b)[1..] == a[1..] + b;
    if |a| == 1 {
      assert a[1..] + b == b && a[1..] == "";
    } else if IsSpace(a[0]) {
      TrimStartOf(a[1..], b);
      CollapseAfter(TrimStart(a[1..]), b);
    } else {
      CollapseAfter(a[1..], b);
    }
  }

  lemma {:induction false} CollapsedEnd(s: string)
    requires s != "" && !IsSpace(s[|s| - 1])
    ensures Collapse(s) != "" && Collapse(s)[|Collapse(s)| - 1] == s[|s| - 1]
    decreases |s|
  {
    if |s| == 1 {
      assert s[1..] == "";
    } else if IsSpace(s[0]) {
      TrimStartOf(s[1..], "");
      CollapsedEnd(TrimStart(s[1..]));
    } else {
      CollapsedEnd(s[1..]);
    }
  }

  /** A tight part is collapsed by itself, and what stands around it is only trimmed at the outer ends. */
  lemma NormalizedAround(before: string, core: string, after: string)
    requires Tight(core)
    ensures NormalizeWhitespace(before + core + after)
      == TrimStart(Collapse(before)) + Collapse(core) + TrimEnd(Collapse(after))
  {
    var a, k, b := Collapse(before), Collapse(core), Collapse(after);
    CollapseAfter(before + core, after);
    CollapseBefore(before, core);
    CollapsedEnd(core);
    TrimStartKeeps(a, k + b);
    Associates(a, k, b);
    Associates(TrimStart(a), k, b);
    TrimEndKeeps(TrimStart(a) + k, b);
  }

  predicate Blank(s: string) { forall i :: 0 <= i < |s| ==> IsSpace(s[i]) }

  lemma {:induction false} TrimStartSplits(s: string) returns (space: string)
    ensures s == space + TrimStart(s) && Blank(space)
    ensures TrimStart(s) != "" ==> !IsSpace(TrimStart(s)[0])
  {
    if s != "" && IsSpace(s[0]) {
      space := TrimStartSplits(s[1..]);
      space := [s[0]] + space;
    } else {
      space := "";
    }
  }

  lemma {:induction false} TrimEndSplits(s: string) returns (space: string)
    ensures s == TrimEnd(s) + space && Blank(space)
    ensures TrimEnd(s) != "" ==> TrimEnd(s)[0] == s[0] && !IsSpace(TrimEnd(s)[|TrimEnd(s)| - 1])
  {
    if s != "" && IsSpace(s[|s| - 1]) {
      space := TrimEndSplits(s[..|s| - 1]);
      TakeAll(s);
      space := space + [s[|s| - 1]];
    } else {
      space := "";
    }
  }

  lemma {:induction false} TrimEndBlank(s: string)
    requires Blank(s)
    ensures TrimEnd(s) == ""
  {
    if s != "" { TrimEndBlank(s[..|s| - 1]); }
  }

  lemma CollapsedBlank(s: string)
    requires Blank(s)
    ensures TrimStart(Collapse(s)) == "" && TrimEnd(Collapse(s)) == ""
  {
    if s != "" {
      TrimStartBlank(s[1..]);
      assert Collapse(s) == " ";
    }
    TrimStartBlank(Collapse(s));
    TrimEndBlank(Collapse(s));
  }

  /** A text that is not blank is its trimmed text with white space around it. */
  lemma CoreOf(t: string) returns (before: string, core: string, after: string)
    requires Ink(t) != ""
    ensures t == before + core + after && Blank(before) && Blank(after) && Tight(core)
  {
    var rest := TrimStart(t);
    before := TrimStartSplits(t);
    after := TrimEndSplits(rest);
    core := TrimEnd(rest);
    TrimmedAway(t);
    Associates(before, core, after);
  }

  lemma Around(a: string, x: string, core: string, y: string, b: string)
    ensures a + (x + core + y) + b == (a + x) + core + (y + b)
  {
  }

  /** Every stretch of a text that is not blank matches the text. */
  lemma StretchMatches(before: string, t: string, after: string)
    requires Ink(t) != ""
    ensures QuotedTextMatches(t, before + t + after)
  {
    var x, core, y := CoreOf(t);
    NormalizedAround(x, core, y);
    CollapsedBlank(x);
    CollapsedBlank(y);
    Around(before, x, core, y, after);
    NormalizedAround(before + x, core, y + after);
    CollapsedEnd(core);
    var front, back := TrimStart(Collapse(before + x)), TrimEnd(Collapse(y + after));
    assert NormalizeWhitespace(t) == "" + Collapse(core) + "" == Collapse(core);
    assert OccursAt(front + Collapse(core) + back, Collapse(core), |front|);
    assert NormalizeWhitespace(before + t + after) == front + Collapse(core) + back;
  }

  /** The code points of JavaScript's white space and line terminators. */
  lemma SpaceCodes(c: char)
    ensures IsSpace(c) <==>
      || c as int in {9, 10, 11, 12, 13, 32, 160, 5760, 8232, 8233, 8239, 8287, 12288, 65279}
      || 8192 <= c as int <= 8202
  {
  }
}
