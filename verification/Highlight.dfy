/** Word-level highlighting: escaping tokens into markup with a marked range spliced in,
    and stripping the markup off again. */
module Highlight {
  import opened Prelude
  import opened DiffViews

  /** A lexed token: its CSS class ("" for none) and its text. */
  datatype Token = Token(css: string, text: string)

  const WORD := "span class=\"wd\""
  const CLOSE := "/span"

  // ---- escaping, as template.HTMLEscapeString ----

  function EscapeChar(c: char): string
  {
    match c
    case '&' => "&amp;"
    case '<' => "&lt;"
    case '>' => "&gt;"
    case '"' => "&#34;"
    case '\'' => "&#39;"
    case '\0' => "\U{FFFD}"
    case _ => [c]
  }

  function Escape(s: string): string
  {
    if s == "" then "" else EscapeChar(s[0]) + Escape(s[1..])
  }

  /** The rune a text starts with and how much of the text writes it. */
  function Reference(s: string): (r: (char, nat))
    requires s != ""
    ensures 0 < r.1 <= |s|
  {
    if s[0] != '&' then (s[0], 1)
    else if "&amp;" <= s then ('&', 5)
    else if "&lt;" <= s then ('<', 4)
    else if "&gt;" <= s then ('>', 4)
    else if "&#34;" <= s then ('"', 5)
    else if "&#39;" <= s then ('\'', 5)
    else ('&', 1)
  }

  /** html.UnescapeString, for the references that escaping writes. */
  function Unescape(s: string): string
    decreases |s|
  {
    if s == "" then ""
    else
      var (c, n) := Reference(s);
      [c] + Unescape(s[n..])
  }

  /** What a rune comes back as: escaping replaces NUL by the replacement character. */
  function Shown(c: char): char
  {
    if c == '\0' then '\U{FFFD}' else c
  }

  function ShownText(s: string): (t: string)
    ensures |t| == |s| && forall i :: 0 <= i < |s| ==> t[i] == Shown(s[i])
  {
    if s == "" then "" else [Shown(s[0])] + ShownText(s[1..])
  }

  lemma ReferenceOf(c: char, rest: string)
    ensures Reference(EscapeChar(c) + rest) == (Shown(c), |EscapeChar(c)|)
  {
    var s := EscapeChar(c) + rest;
    if |EscapeChar(c)| > 1 {
      assert s[..|EscapeChar(c)|] == EscapeChar(c);
      assert s[1] == EscapeChar(c)[1] && s[3] == EscapeChar(c)[3];
    }
  }

  lemma UnescapeChar(c: char, rest: string)
    ensures Unescape(EscapeChar(c) + rest) == [Shown(c)] + Unescape(rest)
  {
    ReferenceOf(c, rest);
    assert (EscapeChar(c) + rest)[|EscapeChar(c)|..] == rest;
  }

  lemma {:induction false} UnescapeShows(s: string)
    ensures Unescape(Escape(s)) == ShownText(s)
  {
    if s != "" {
      UnescapeShows(s[1..]);
      UnescapeChar(s[0], Escape(s[1..]));
    }
  }

  lemma ShownUnchanged(s: string)
    ensures ShownText(s) == s <==> '\0' !in s
  {
    if '\0' in s {
      var i :| 0 <= i < |s| && s[i] == '\0';
      assert ShownText(s)[i] != s[i];
    }
  }

  /** Unescaping undoes escaping for exactly the texts without a NUL rune. */
  lemma UnescapeInverts(s: string)
    ensures Unescape(Escape(s)) == s <==> '\0' !in s
  {
    UnescapeShows(s);
    ShownUnchanged(s);
  }

  lemma {:induction false} EscapeConcat(a: string, b: string)
    ensures Escape(a + b) == Escape(a) + Escape(b)
  {
    if a == "" {
      assert a + b == b;
    } else {
      assert (a + b)[1..] == a[1..] + b;
      EscapeConcat(a[1..], b);
    }
  }

  lemma {:induction false} EscapedHasNoTag(s: string)
    ensures '<' !in Escape(s)
  {
    if s != "" {
      EscapedHasNoTag(s[1..]);
    }
  }

  // ---- stripping tags ----

  function Find(c: char, s: string): (r: Option<nat>)
    ensures r.Some? ==> r.value < |s| && s[r.value] == c && c !in s[..r.value]
    ensures r.None? ==> c !in s
  {
    if s == "" then None
    else if s[0] == c then Some(0)
    else
      match Find(c, s[1..])
      case None => None
      case Some(i) => assert s[..i + 1] == [s[0]] + s[1..][..i]; Some(i + 1)
  }

  /** Replace every leftmost `<[^>]*>` by nothing. */
  function StripTags(s: string): string
    decreases |s|
  {
    if s == "" then ""
    else
      var end := Find('>', s);
      if s[0] == '<' && end.Some? then StripTags(s[end.value + 1..])
      else [s[0]] + StripTags(s[1..])
  }

  function StripHtml(s: string): string
  {
    Unescape(StripTags(s))
  }

  /** What stripping keeps when it looks only inside the word spans, or only outside. */
  function Pick(s: string, on: bool, inside: bool, outside: bool): string
    decreases |s|
  {
    if s == "" then ""
    else
      var end := Find('>', s);
      if s[0] == '<' && end.Some? then Pick(s[end.value + 1..], After(s[1..end.value], on), inside, outside)
      else (if Kept(on, inside, outside) then [s[0]] else "") + Pick(s[1..], on, inside, outside)
  }

  /** Whether a word span is open after a tag. */
  predicate After(tag: string, on: bool)
  {
    if tag == WORD then true else if tag == CLOSE then false else on
  }

  predicate Kept(on: bool, inside: bool, outside: bool)
  {
    if on then inside else outside
  }

  function Marked(s: string): string
  {
    Unescape(Pick(s, false, true, false))
  }

  function Unmarked(s: string): string
  {
    Unescape(Pick(s, false, false, true))
  }

  lemma {:induction false} StripKeepsBoth(s: string, on: bool)
    ensures StripTags(s) == Pick(s, on, true, true)
    decreases |s|
  {
    if s != "" {
      var end := Find('>', s);
      if s[0] == '<' && end.Some? {
        StripKeepsBoth(s[end.value + 1..], After(s[1..end.value], on));
      } else {
        StripKeepsBoth(s[1..], on);
      }
    }
  }

  lemma {:induction false} PickText(e: string, rest: string, on: bool, inside: bool, outside: bool)
    requires '<' !in e
    ensures Pick(e + rest, on, inside, outside) ==
            (if Kept(on, inside, outside) then e else "") + Pick(rest, on, inside, outside)
  {
    if e == "" {
      assert e + rest == rest;
    } else {
      assert (e + rest)[1..] == e[1..] + rest && (e + rest)[0] == e[0];
      PickText(e[1..], rest, on, inside, outside);
      assert e == [e[0]] + e[1..];
    }
  }

  lemma PickTag(tag: string, rest: string, on: bool, inside: bool, outside: bool)
    requires '>' !in tag
    ensures Pick("<" + tag + ">" + rest, on, inside, outside) == Pick(rest, After(tag, on), inside, outside)
  {
    var s := "<" + tag + ">" + rest;
    var end := Find('>', s);
    assert s[|tag| + 1] == '>';
    assert forall i :: 0 <= i < |tag| + 1 ==> s[i] != '>';
    assert end == Some(|tag| + 1);
    assert s[1..end.value] == tag && s[end.value + 1..] == rest;
  }

  // ---- emitting a line ----

  function Clamp(i: int, n: nat): (r: nat)
    ensures r <= n
  {
    if i < 0 then 0 else if i < n then i else n
  }

  function OpenTag(css: string): string
  {
    "<span class=\"" + css + "\">"
  }

  /** The text of a token starting at rune `pos`, its overlap with [lo, hi) wrapped. */
  function Body(text: string, pos: int, lo: int, hi: int): string
  {
    var l, h := Clamp(lo - pos, |text|), Clamp(hi - pos, |text|);
    if l < h then Wrapped(Escape(text[..l]), Escape(text[l..h]), Escape(text[h..])) else Escape(text)
  }

  function Wrapped(x: string, y: string, z: string): string
  {
    x + TagOf(WORD) + y + TagOf(CLOSE) + z
  }

  function TagOf(tag: string): string
  {
    "<" + tag + ">"
  }

  function EmitToken(t: Token, pos: int, lo: int, hi: int): string
  {
    if t.css == "" then Body(t.text, pos, lo, hi) else OpenTag(t.css) + Body(t.text, pos, lo, hi) + TagOf(CLOSE)
  }

  /** The markup of a line's tokens, the first of which starts at rune `pos`. */
  function Emitted(toks: seq<Token>, pos: int, lo: int, hi: int): string
  {
    if toks == [] then "" else EmitToken(toks[0], pos, lo, hi) + Emitted(toks[1..], pos + |toks[0].text|, lo, hi)
  }

  /** `b` and the markup of the tokens still to come make up `all`. */
  ghost predicate Leaves(b: string, toks: seq<Token>, pos: int, lo: int, hi: int, all: string)
  {
    b + Emitted(toks, pos, lo, hi) == all
  }

  lemma LeavesNext(b: string, toks: seq<Token>, pos: int, next: int, lo: int, hi: int, all: string)
    requires toks != [] && next == pos + |toks[0].text|
    requires Leaves(b, toks, pos, lo, hi, all)
    ensures Leaves(b + EmitToken(toks[0], pos, lo, hi), toks[1..], next, lo, hi, all)
  {
    var first, rest := EmitToken(toks[0], pos, lo, hi), Emitted(toks[1..], next, lo, hi);
    assert Emitted(toks, pos, lo, hi) == first + rest;
    assert b + (first + rest) == b + first + rest;
  }

  method Emit(toks: seq<Token>, lo: int, hi: int) returns (b: string)
    ensures b == Emitted(toks, 0, lo, hi)
  {
    b := "";
    var pos := 0;
    ghost var all, rest := Emitted(toks, 0, lo, hi), toks;
    for i := 0 to |toks|
      invariant rest == toks[i..] && Leaves(b, rest, pos, lo, hi, all)
    {
      var next := pos + |toks[i].text|;
      assert rest[0] == toks[i];
      LeavesNext(b, rest, pos, next, lo, hi, all);
      b := WriteToken(b, toks[i], pos, lo, hi);
      pos := next;
      rest := rest[1..];
    }
  }

  method WriteToken(before: string, t: Token, pos: int, lo: int, hi: int) returns (b: string)
    ensures b == before + EmitToken(t, pos, lo, hi)
  {
    if t.css == "" {
      b := WriteBody(before, t.text, pos, lo, hi);
    } else {
      b := before + OpenTag(t.css);
      b := WriteBody(b, t.text, pos, lo, hi);
      b := b + TagOf(CLOSE);
      Regroup(before, OpenTag(t.css), Body(t.text, pos, lo, hi), TagOf(CLOSE));
    }
  }

  method WriteBody(before: string, text: string, pos: int, lo: int, hi: int) returns (b: string)
    ensures b == before + Body(text, pos, lo, hi)
  {
    var l, h := Clamp(lo - pos, |text|), Clamp(hi - pos, |text|);
    b := before;
    if l < h {
      var x, y, z := Escape(text[..l]), Escape(text[l..h]), Escape(text[h..]);
      b := b + x;
      b := b + TagOf(WORD);
      b := b + y;
      b := b + TagOf(CLOSE);
      b := b + z;
      Regroup(before, x, TagOf(WORD), y);
      Regroup(before, x + TagOf(WORD) + y, TagOf(CLOSE), z);
    } else {
      b := b + Escape(text);
    }
  }

  lemma Regroup(b: string, x: string, y: string, z: string)
    ensures b + x + y + z == b + (x + y + z)
  {
  }

  function Text(toks: seq<Token>): string
  {
    if toks == [] then "" else toks[0].text + Text(toks[1..])
  }

  /** The runes of `text`, which starts at rune `pos`, inside [lo, hi), outside it, or both. */
  function Part(text: string, pos: int, lo: int, hi: int, inside: bool, outside: bool): string
  {
    if text == "" then ""
    else If(Kept(lo <= pos < hi, inside, outside), [text[0]]) + Part(text[1..], pos + 1, lo, hi, inside, outside)
  }

  function If(keep: bool, s: string): string
  {
    if keep then s else ""
  }

  /** A class that cannot end its own tag or pass for the word span. */
  predicate SafeClass(css: string)
  {
    '>' !in css && css != "wd"
  }

  ghost predicate Safe(toks: seq<Token>)
  {
    forall i :: 0 <= i < |toks| ==> SafeClass(toks[i].css)
  }

  /** Before `rest`, reading `e` from state `on` keeps `kept` and leaves the state `next`. */
  ghost predicate Picks(e: string, rest: string, on: bool, next: bool, kept: string, inside: bool, outside: bool)
  {
    Pick(e + rest, on, inside, outside) == kept + Pick(rest, next, inside, outside)
  }

  lemma PicksBoth(a: string, b: string, rest: string, on: bool, mid: bool, end: bool, x: string, y: string, inside: bool, outside: bool)
    requires Picks(a, b + rest, on, mid, x, inside, outside) && Picks(b, rest, mid, end, y, inside, outside)
    ensures Picks(a + b, rest, on, end, x + y, inside, outside)
  {
    assert a + b + rest == a + (b + rest);
    var tail := Pick(rest, end, inside, outside);
    assert x + y + tail == x + (y + tail);
  }

  lemma PicksEscaped(x: string, rest: string, on: bool, inside: bool, outside: bool)
    ensures Picks(Escape(x), rest, on, on, Escape(If(Kept(on, inside, outside), x)), inside, outside)
  {
    EscapedHasNoTag(x);
    PickText(Escape(x), rest, on, inside, outside);
  }

  lemma PicksTag(tag: string, rest: string, on: bool, inside: bool, outside: bool)
    requires '>' !in tag
    ensures Picks(TagOf(tag), rest, on, After(tag, on), "", inside, outside)
  {
    PickTag(tag, rest, on, inside, outside);
  }

  /** Text with a tag after it. */
  lemma PicksThenTag(x: string, tag: string, rest: string, on: bool, inside: bool, outside: bool)
    requires '>' !in tag
    ensures Picks(Escape(x) + TagOf(tag), rest, on, After(tag, on), Escape(If(Kept(on, inside, outside), x)), inside, outside)
  {
    var kept := Escape(If(Kept(on, inside, outside), x));
    PicksEscaped(x, TagOf(tag) + rest, on, inside, outside);
    PicksTag(tag, rest, on, inside, outside);
    PicksBoth(Escape(x), TagOf(tag), rest, on, on, After(tag, on), kept, "", inside, outside);
    assert kept + "" == kept;
  }

  lemma PicksWrapped(x: string, y: string, z: string, rest: string, inside: bool, outside: bool)
    ensures Picks(Wrapped(Escape(x), Escape(y), Escape(z)), rest, false, false,
                  Escape(If(outside, x) + If(inside, y) + If(outside, z)), inside, outside)
  {
    var px, py, pz := If(outside, x), If(inside, y), If(outside, z);
    var kx, ky, kz := Escape(px), Escape(py), Escape(pz);
    var a, b, c := Escape(x) + TagOf(WORD), Escape(y) + TagOf(CLOSE), Escape(z);
    PicksEscaped(z, rest, false, inside, outside);
    PicksThenTag(y, CLOSE, c + rest, true, inside, outside);
    PicksThenTag(x, WORD, b + c + rest, false, inside, outside);
    assert Picks(c, rest, false, false, kz, inside, outside);
    assert Picks(b, c + rest, true, false, ky, inside, outside);
    assert Picks(a, b + c + rest, false, true, kx, inside, outside);
    PicksThree(a, b, c, rest, kx, ky, kz, inside, outside);
    WrappedSplits(Escape(x), Escape(y), Escape(z));
    EscapeConcat(px, py);
    EscapeConcat(px + py, pz);
  }

  lemma PicksThree(a: string, b: string, c: string, rest: string, x: string, y: string, z: string, inside: bool, outside: bool)
    requires Picks(a, b + c + rest, false, true, x, inside, outside)
    requires Picks(b, c + rest, true, false, y, inside, outside)
    requires Picks(c, rest, false, false, z, inside, outside)
    ensures Picks(a + (b + c), rest, false, false, x + y + z, inside, outside)
  {
    PicksBoth(b, c, rest, true, false, false, y, z, inside, outside);
    PicksBoth(a, b + c, rest, false, true, false, x, y + z, inside, outside);
    assert x + (y + z) == x + y + z;
  }

  lemma WrappedSplits(x: string, y: string, z: string)
    ensures Wrapped(x, y, z) == x + TagOf(WORD) + (y + TagOf(CLOSE) + z)
  {
  }

  lemma PicksBody(text: string, rest: string, pos: int, lo: int, hi: int, inside: bool, outside: bool)
    ensures Picks(Body(text, pos, lo, hi), rest, false, false, Escape(Part(text, pos, lo, hi, inside, outside)), inside, outside)
  {
    var l, h := Clamp(lo - pos, |text|), Clamp(hi - pos, |text|);
    if l < h {
      PicksWrapped(text[..l], text[l..h], text[h..], rest, inside, outside);
      PartIsSlices(text, pos, lo, hi, l, h, inside, outside);
    } else {
      PicksEscaped(text, rest, false, inside, outside);
      PartOfEmptyRange(text, pos, lo, hi, inside, outside);
    }
  }

  lemma {:induction false} PartOfEmptyRange(text: string, pos: int, lo: int, hi: int, inside: bool, outside: bool)
    requires Clamp(lo - pos, |text|) >= Clamp(hi - pos, |text|)
    ensures Part(text, pos, lo, hi, inside, outside) == If(outside, text)
  {
    if text != "" {
      PartOfEmptyRange(text[1..], pos + 1, lo, hi, inside, outside);
      assert text == [text[0]] + text[1..];
    }
  }

  lemma PartNext(text: string, pos: int, next: int, lo: int, hi: int, inside: bool, outside: bool)
    requires text != "" && next == pos + 1
    ensures Part(text, pos, lo, hi, inside, outside) ==
            If(Kept(lo <= pos < hi, inside, outside), [text[0]]) + Part(text[1..], next, lo, hi, inside, outside)
  {
  }

  lemma {:induction false} PartIsSlices(text: string, pos: int, lo: int, hi: int, l: nat, h: nat, inside: bool, outside: bool)
    requires l == Clamp(lo - pos, |text|) && h == Clamp(hi - pos, |text|) && l < h
    ensures Part(text, pos, lo, hi, inside, outside) == Sliced(text, l, h, inside, outside)
  {
    var tail, next := text[1..], pos + 1;
    PartNext(text, pos, next, lo, hi, inside, outside);
    if l > 0 {
      var l', h' := l - 1, h - 1;
      PartIsSlices(tail, next, lo, hi, l', h', inside, outside);
      SlicedBefore(text, l, h, l', h', inside, outside);
    } else if h > 1 {
      var h' := h - 1;
      PartIsSlices(tail, next, lo, hi, 0, h', inside, outside);
      SlicedWithin(text, h, 0, h', inside, outside);
    } else {
      PartOfEmptyRange(tail, next, lo, hi, inside, outside);
      SlicedLast(text, inside, outside);
    }
  }

  function Sliced(text: string, l: nat, h: nat, inside: bool, outside: bool): string
    requires l <= h <= |text|
  {
    If(outside, text[..l]) + If(inside, text[l..h]) + If(outside, text[h..])
  }

  lemma SlicedBefore(text: string, l: nat, h: nat, l': nat, h': nat, inside: bool, outside: bool)
    requires 0 < l < h <= |text| && l' == l - 1 && h' == h - 1
    ensures Sliced(text, l, h, inside, outside) == If(outside, [text[0]]) + Sliced(text[1..], l', h', inside, outside)
  {
    var c, tail := [text[0]], text[1..];
    assert text[..l] == c + tail[..l'];
    assert text[l..h] == tail[l'..h'];
    assert text[h..] == tail[h'..];
    Regroup(If(outside, c), If(outside, tail[..l']), If(inside, tail[l'..h']), If(outside, tail[h'..]));
  }

  lemma SlicedWithin(text: string, h: nat, l': nat, h': nat, inside: bool, outside: bool)
    requires 1 < h <= |text| && l' == 0 && h' == h - 1
    ensures Sliced(text, 0, h, inside, outside) == If(inside, [text[0]]) + Sliced(text[1..], l', h', inside, outside)
  {
    var c, tail := [text[0]], text[1..];
    assert text[0..h] == c + tail[0..h'];
    assert text[h..] == tail[h'..];
    Regroup(If(inside, c), "", If(inside, tail[0..h']), If(outside, tail[h'..]));
  }

  lemma SlicedLast(text: string, inside: bool, outside: bool)
    requires text != ""
    ensures Sliced(text, 0, 1, inside, outside) == If(inside, [text[0]]) + If(outside, text[1..])
  {
    assert text[0..1] == [text[0]];
  }

  lemma PicksOpenTag(css: string, rest: string, inside: bool, outside: bool)
    requires SafeClass(css)
    ensures Picks(OpenTag(css), rest, false, false, "", inside, outside)
  {
    var tag := "span class=\"" + css + "\"";
    assert OpenTag(css) == TagOf(tag);
    assert tag != WORD by {
      assert tag[12..|tag| - 1] == css && WORD[12..|WORD| - 1] == "wd";
    }
    assert tag[0] != CLOSE[0];
    PicksTag(tag, rest, false, inside, outside);
  }

  lemma PicksToken(t: Token, rest: string, pos: int, lo: int, hi: int, inside: bool, outside: bool)
    requires SafeClass(t.css)
    ensures Picks(EmitToken(t, pos, lo, hi), rest, false, false, Escape(Part(t.text, pos, lo, hi, inside, outside)), inside, outside)
  {
    PicksBody(t.text, rest, pos, lo, hi, inside, outside);
    if t.css != "" {
      PicksBody(t.text, TagOf(CLOSE) + rest, pos, lo, hi, inside, outside);
      PicksClassed(t.css, Body(t.text, pos, lo, hi), rest, Escape(Part(t.text, pos, lo, hi, inside, outside)), inside, outside);
    }
  }

  lemma PicksClassed(css: string, body: string, rest: string, kept: string, inside: bool, outside: bool)
    requires SafeClass(css)
    requires Picks(body, TagOf(CLOSE) + rest, false, false, kept, inside, outside)
    ensures Picks(OpenTag(css) + body + TagOf(CLOSE), rest, false, false, kept, inside, outside)
  {
    var open, close := OpenTag(css), TagOf(CLOSE);
    PicksTag(CLOSE, rest, false, inside, outside);
    PicksBoth(body, close, rest, false, false, false, kept, "", inside, outside);
    PicksOpenTag(css, body + close + rest, inside, outside);
    PicksBoth(open, body + close, rest, false, false, false, "", kept + "", inside, outside);
    assert open + body + close == open + (body + close);
    assert "" + (kept + "") == kept;
  }

  lemma {:induction false} PartOfBoth(a: string, b: string, pos: int, mid: int, lo: int, hi: int, inside: bool, outside: bool)
    requires mid == pos + |a|
    ensures Part(a + b, pos, lo, hi, inside, outside) ==
            Part(a, pos, lo, hi, inside, outside) + Part(b, mid, lo, hi, inside, outside)
  {
    if a == "" {
      assert a + b == b;
    } else {
      var next := pos + 1;
      assert (a + b)[1..] == a[1..] + b && (a + b)[0] == a[0];
      PartOfBoth(a[1..], b, next, mid, lo, hi, inside, outside);
      Join3(If(Kept(lo <= pos < hi, inside, outside), [a[0]]), Part(a[1..], next, lo, hi, inside, outside),
            Part(b, mid, lo, hi, inside, outside));
    }
  }

  lemma Join3(x: string, y: string, z: string)
    ensures x + (y + z) == x + y + z
  {
  }

  lemma EscapedParts(a: string, b: string, pos: int, mid: int, lo: int, hi: int, inside: bool, outside: bool)
    requires mid == pos + |a|
    ensures Escape(Part(a + b, pos, lo, hi, inside, outside)) ==
            Escape(Part(a, pos, lo, hi, inside, outside)) + Escape(Part(b, mid, lo, hi, inside, outside))
  {
    PartOfBoth(a, b, pos, mid, lo, hi, inside, outside);
    EscapeConcat(Part(a, pos, lo, hi, inside, outside), Part(b, mid, lo, hi, inside, outside));
  }

  /** `markup` shows `text`, which starts at rune `pos`, with the runes in [lo, hi) marked. */
  ghost predicate Shows(markup: string, text: string, rest: string, pos: int, lo: int, hi: int, inside: bool, outside: bool)
  {
    Picks(markup, rest, false, false, Escape(Part(text, pos, lo, hi, inside, outside)), inside, outside)
  }

  lemma ShowsBoth(m: string, a: string, n: string, b: string, rest: string, pos: int, mid: int,
                  lo: int, hi: int, inside: bool, outside: bool)
    requires mid == pos + |a|
    requires Shows(m, a, n + rest, pos, lo, hi, inside, outside)
    requires Shows(n, b, rest, mid, lo, hi, inside, outside)
    ensures Shows(m + n, a + b, rest, pos, lo, hi, inside, outside)
  {
    EscapedParts(a, b, pos, mid, lo, hi, inside, outside);
    PicksBoth(m, n, rest, false, false, false, Escape(Part(a, pos, lo, hi, inside, outside)),
              Escape(Part(b, mid, lo, hi, inside, outside)), inside, outside);
  }

  /** A line is its first token's markup followed by the rest's. */
  lemma LineSplits(toks: seq<Token>, pos: int, mid: int, lo: int, hi: int)
    requires toks != [] && mid == pos + |toks[0].text|
    ensures Text(toks) == toks[0].text + Text(toks[1..])
    ensures Emitted(toks, pos, lo, hi) == EmitToken(toks[0], pos, lo, hi) + Emitted(toks[1..], mid, lo, hi)
  {
    var first, rest := EmitToken(toks[0], pos, lo, hi), Emitted(toks[1..], mid, lo, hi);
    assert Emitted(toks, pos, lo, hi) == first + rest;
  }

  lemma ShowsSame(m: string, text: string, m': string, text': string, rest: string, pos: int, lo: int, hi: int,
                  inside: bool, outside: bool)
    requires Shows(m, text, rest, pos, lo, hi, inside, outside) && m == m' && text == text'
    ensures Shows(m', text', rest, pos, lo, hi, inside, outside)
  {
  }

  lemma {:induction false} LineShows(toks: seq<Token>, rest: string, pos: int, lo: int, hi: int, inside: bool, outside: bool)
    requires Safe(toks)
    ensures Shows(Emitted(toks, pos, lo, hi), Text(toks), rest, pos, lo, hi, inside, outside)
  {
    if toks == [] {
      assert "" + rest == rest;
    } else {
      var a, mid := toks[0].text, pos + |toks[0].text|;
      LineShows(toks[1..], rest, mid, lo, hi, inside, outside);
      var first, others, b := EmitToken(toks[0], pos, lo, hi), Emitted(toks[1..], mid, lo, hi), Text(toks[1..]);
      TokenShows(toks[0], others + rest, pos, lo, hi, inside, outside);
      ShowsBoth(first, a, others, b, rest, pos, mid, lo, hi, inside, outside);
      LineSplits(toks, pos, mid, lo, hi);
      ShowsSame(first + others, a + b, Emitted(toks, pos, lo, hi), Text(toks), rest, pos, lo, hi, inside, outside);
    }
  }

  lemma TokenShows(t: Token, rest: string, pos: int, lo: int, hi: int, inside: bool, outside: bool)
    requires SafeClass(t.css)
    ensures Shows(EmitToken(t, pos, lo, hi), t.text, rest, pos, lo, hi, inside, outside)
  {
    PicksToken(t, rest, pos, lo, hi, inside, outside);
  }

  /** The runes of `text` in [lo, hi), and the runes outside it. */
  function Inside(text: string, lo: int, hi: int): string
  {
    var l, h := Clamp(lo, |text|), Clamp(hi, |text|);
    if l < h then text[l..h] else ""
  }

  function Outside(text: string, lo: int, hi: int): string
  {
    var l, h := Clamp(lo, |text|), Clamp(hi, |text|);
    if l < h then text[..l] + text[h..] else text
  }

  lemma PartIsWhole(text: string, lo: int, hi: int)
    ensures Part(text, 0, lo, hi, true, true) == text
  {
    var l, h := Clamp(lo, |text|), Clamp(hi, |text|);
    if l < h {
      PartIsSlices(text, 0, lo, hi, l, h, true, true);
      assert text == text[..l] + text[l..h] + text[h..];
    } else {
      PartOfEmptyRange(text, 0, lo, hi, true, true);
    }
  }

  lemma PartIsInside(text: string, lo: int, hi: int)
    ensures Part(text, 0, lo, hi, true, false) == Inside(text, lo, hi)
  {
    var l, h := Clamp(lo, |text|), Clamp(hi, |text|);
    if l < h {
      PartIsSlices(text, 0, lo, hi, l, h, true, false);
      assert "" + text[l..h] + "" == text[l..h];
    } else {
      PartOfEmptyRange(text, 0, lo, hi, true, false);
    }
  }

  lemma PartIsOutside(text: string, lo: int, hi: int)
    ensures Part(text, 0, lo, hi, false, true) == Outside(text, lo, hi)
  {
    var l, h := Clamp(lo, |text|), Clamp(hi, |text|);
    if l < h {
      PartIsSlices(text, 0, lo, hi, l, h, false, true);
      assert text[..l] + "" + text[h..] == text[..l] + text[h..];
    } else {
      PartOfEmptyRange(text, 0, lo, hi, false, true);
    }
  }

  lemma {:induction false} PartIsFree(c: char, text: string, pos: int, lo: int, hi: int, inside: bool, outside: bool)
    requires c !in text
    ensures c !in Part(text, pos, lo, hi, inside, outside)
  {
    if text != "" {
      PartIsFree(c, text[1..], pos + 1, lo, hi, inside, outside);
    }
  }

  lemma PickedText(toks: seq<Token>, lo: int, hi: int, inside: bool, outside: bool)
    requires Safe(toks)
    ensures Unescape(Pick(Emitted(toks, 0, lo, hi), false, inside, outside)) ==
            ShownText(Part(Text(toks), 0, lo, hi, inside, outside))
  {
    var m, kept := Emitted(toks, 0, lo, hi), Part(Text(toks), 0, lo, hi, inside, outside);
    LineShows(toks, "", 0, lo, hi, inside, outside);
    assert m + "" == m && Escape(kept) + "" == Escape(kept);
    UnescapeShows(kept);
  }

  lemma PickedFaithfully(toks: seq<Token>, lo: int, hi: int, inside: bool, outside: bool)
    requires Safe(toks) && '\0' !in Text(toks)
    ensures Unescape(Pick(Emitted(toks, 0, lo, hi), false, inside, outside)) == Part(Text(toks), 0, lo, hi, inside, outside)
  {
    PickedText(toks, lo, hi, inside, outside);
    PartIsFree('\0', Text(toks), 0, lo, hi, inside, outside);
    ShownUnchanged(Part(Text(toks), 0, lo, hi, inside, outside));
  }

  /** Stripping a line's markup gives its text back, whatever range was marked; what is
      marked is exactly the runes in [lo, hi). */
  lemma EmitRoundTrip(toks: seq<Token>, lo: int, hi: int)
    requires Safe(toks) && '\0' !in Text(toks)
    ensures StripHtml(Emitted(toks, 0, lo, hi)) == Text(toks)
    ensures Marked(Emitted(toks, 0, lo, hi)) == Inside(Text(toks), lo, hi)
    ensures Unmarked(Emitted(toks, 0, lo, hi)) == Outside(Text(toks), lo, hi)
  {
    StripKeepsBoth(Emitted(toks, 0, lo, hi), false);
    PickedFaithfully(toks, lo, hi, true, true);
    PickedFaithfully(toks, lo, hi, true, false);
    PickedFaithfully(toks, lo, hi, false, true);
    PartIsWhole(Text(toks), lo, hi);
    PartIsInside(Text(toks), lo, hi);
    PartIsOutside(Text(toks), lo, hi);
  }

  /** For every line and every range: stripping the markup gives the text with each NUL
      rune replaced, so it gives the text itself exactly when there is none. */
  lemma StripsExactly(toks: seq<Token>, lo: int, hi: int)
    requires Safe(toks)
    ensures StripHtml(Emitted(toks, 0, lo, hi)) == ShownText(Text(toks))
    ensures StripHtml(Emitted(toks, 0, lo, hi)) == Text(toks) <==> '\0' !in Text(toks)
  {
    StripKeepsBoth(Emitted(toks, 0, lo, hi), false);
    PickedText(toks, lo, hi, true, true);
    PartIsWhole(Text(toks), lo, hi);
    ShownUnchanged(Text(toks));
  }

  // ---- the changed range of a replaced pair ----

  function CommonPrefix(a: string, b: string, p: nat): (r: nat)
    requires p <= |a| && p <= |b|
    ensures p <= r <= |a| && r <= |b|
    decreases |a| - p
  {
    if p < |a| && p < |b| && a[p] == b[p] then CommonPrefix(a, b, p + 1) else p
  }

  /** How many more final runes agree, given `s` that do, short of the first `p`. */
  function CommonSuffix(a: string, b: string, p: nat, s: nat): (r: nat)
    requires p + s <= |a| && p + s <= |b|
    ensures s <= r && p + r <= |a| && p + r <= |b|
    decreases |a| - s
  {
    if s < |a| - p && s < |b| - p && a[|a| - 1 - s] == b[|b| - 1 - s] then CommonSuffix(a, b, p, s + 1) else s
  }

  datatype Ranges = Ranges(aLo: nat, aHi: nat, bLo: nat, bHi: nat)

  /** Trim the common prefix, then the common suffix of what is left; nothing in common
      means no range at all. */
  function DiffRanges(a: string, b: string): (r: Ranges)
    ensures r.aLo <= r.aHi <= |a| && r.bLo <= r.bHi <= |b|
  {
    var p := CommonPrefix(a, b, 0);
    var s := CommonSuffix(a, b, p, 0);
    if p == 0 && s == 0 then Ranges(0, 0, 0, 0) else Ranges(p, |a| - s, p, |b| - s)
  }

  method RuneDiffRange(a: string, b: string) returns (aLo: nat, aHi: nat, bLo: nat, bHi: nat)
    ensures Ranges(aLo, aHi, bLo, bHi) == DiffRanges(a, b)
  {
    var p := 0;
    while p < |a| && p < |b| && a[p] == b[p]
      invariant p <= |a| && p <= |b|
      invariant CommonPrefix(a, b, p) == CommonPrefix(a, b, 0)
    {
      p := p + 1;
    }
    var s := 0;
    while s < |a| - p && s < |b| - p && a[|a| - 1 - s] == b[|b| - 1 - s]
      invariant p + s <= |a| && p + s <= |b|
      invariant CommonSuffix(a, b, p, s) == CommonSuffix(a, b, p, 0)
    {
      s := s + 1;
    }
    if p == 0 && s == 0 {
      return 0, 0, 0, 0;
    }
    return p, |a| - s, p, |b| - s;
  }

  lemma {:induction false} PrefixAgrees(a: string, b: string, p: nat)
    requires p <= |a| && p <= |b|
    ensures var r := CommonPrefix(a, b, p);
            && (forall i :: p <= i < r ==> a[i] == b[i])
            && (r < |a| && r < |b| ==> a[r] != b[r])
    decreases |a| - p
  {
    if p < |a| && p < |b| && a[p] == b[p] {
      PrefixAgrees(a, b, p + 1);
    }
  }

  function FromEnd(a: string, i: nat): char
    requires i < |a|
  {
    a[|a| - 1 - i]
  }

  lemma {:induction false} SuffixAgrees(a: string, b: string, p: nat, s: nat)
    requires p + s <= |a| && p + s <= |b|
    ensures var r := CommonSuffix(a, b, p, s);
            && (forall i :: s <= i < r ==> FromEnd(a, i) == FromEnd(b, i))
            && (r < |a| - p && r < |b| - p ==> FromEnd(a, r) != FromEnd(b, r))
    decreases |a| - s
  {
    if s < |a| - p && s < |b| - p && a[|a| - 1 - s] == b[|b| - 1 - s] {
      SuffixAgrees(a, b, p, s + 1);
    }
  }

  lemma SameEnds(a: string, b: string, s: nat)
    requires s <= |a| && s <= |b| && forall i :: 0 <= i < s ==> FromEnd(a, i) == FromEnd(b, i)
    ensures a[|a| - s..] == b[|b| - s..]
  {
    var x, y := a[|a| - s..], b[|b| - s..];
    forall k | 0 <= k < s
      ensures x[k] == y[k]
    {
      assert FromEnd(a, s - 1 - k) == x[k] && FromEnd(b, s - 1 - k) == y[k];
    }
  }

  lemma RangesAgree(a: string, b: string)
    ensures var p := CommonPrefix(a, b, 0);
            var s := CommonSuffix(a, b, p, 0);
            a[..p] == b[..p] && a[|a| - s..] == b[|b| - s..]
  {
    var p := CommonPrefix(a, b, 0);
    PrefixAgrees(a, b, 0);
    SuffixAgrees(a, b, p, 0);
    SameEnds(a, b, CommonSuffix(a, b, p, 0));
  }

  lemma AffixIsFound(a: string, b: string)
    requires a != "" && b != "" && (a[0] == b[0] || a[|a| - 1] == b[|b| - 1])
    ensures var p := CommonPrefix(a, b, 0);
            p > 0 || CommonSuffix(a, b, p, 0) > 0
  {
    PrefixAgrees(a, b, 0);
    SuffixAgrees(a, b, 0, 0);
  }

  lemma RangesStop(a: string, b: string)
    ensures var p := CommonPrefix(a, b, 0);
            var s := CommonSuffix(a, b, p, 0);
            p < |a| - s && p < |b| - s ==> a[p] != b[p] && FromEnd(a, s) != FromEnd(b, s)
  {
    PrefixAgrees(a, b, 0);
    SuffixAgrees(a, b, CommonPrefix(a, b, 0), 0);
  }

  /** Where two lines share an affix, deleting the ranges leaves equal text. */
  lemma RangesCoverTheChange(a: string, b: string)
    requires a != "" && b != "" && (a[0] == b[0] || a[|a| - 1] == b[|b| - 1])
    ensures var r := DiffRanges(a, b);
            && a[..r.aLo] == b[..r.bLo] && a[r.aHi..] == b[r.bHi..]
  {
    AffixIsFound(a, b);
    RangesAgree(a, b);
  }

  /** And the ranges cannot be made smaller at either end. */
  lemma RangesAreTight(a: string, b: string)
    requires var r := DiffRanges(a, b); r.aLo < r.aHi && r.bLo < r.bHi
    ensures var r := DiffRanges(a, b);
            a[r.aLo] != b[r.bLo] && FromEnd(a, |a| - r.aHi) != FromEnd(b, |b| - r.bHi)
  {
    var p := CommonPrefix(a, b, 0);
    var s := CommonSuffix(a, b, p, 0);
    assert DiffRanges(a, b) == Ranges(p, |a| - s, p, |b| - s);
    RangesStop(a, b);
  }

  /** Lines with neither end in common are not marked at all. */
  lemma TotalChangeIsUnmarked(a: string, b: string)
    requires a != "" && b != "" ==> a[0] != b[0] && a[|a| - 1] != b[|b| - 1]
    ensures DiffRanges(a, b) == Ranges(0, 0, 0, 0)
  {
  }

  /** The affix law on the markup itself: taking the marked text out of both lines of a
      replaced pair that shares an affix leaves the same text. */
  lemma MarksLeaveEqualText(aToks: seq<Token>, bToks: seq<Token>)
    requires Safe(aToks) && Safe(bToks) && '\0' !in Text(aToks) && '\0' !in Text(bToks)
    requires var a, b := Text(aToks), Text(bToks);
             a != "" && b != "" && (a[0] == b[0] || a[|a| - 1] == b[|b| - 1])
    ensures var r := DiffRanges(Text(aToks), Text(bToks));
            Unmarked(Emitted(aToks, 0, r.aLo, r.aHi)) == Unmarked(Emitted(bToks, 0, r.bLo, r.bHi))
  {
    var a, b := Text(aToks), Text(bToks);
    var r := DiffRanges(a, b);
    RangesCoverTheChange(a, b);
    EmitRoundTrip(aToks, r.aLo, r.aHi);
    EmitRoundTrip(bToks, r.bLo, r.bHi);
    OutsideRange(a, r.aLo, r.aHi);
    OutsideRange(b, r.bLo, r.bHi);
  }

  lemma OutsideRange(text: string, lo: nat, hi: nat)
    requires lo <= hi <= |text|
    ensures Outside(text, lo, hi) == text[..lo] + text[hi..]
  {
    if lo == hi {
      assert text == text[..lo] + text[hi..];
    }
  }

  // ---- marking every replaced pair of a diff ----

  /** One side's source lines and their tokens. */
  datatype Doc = Doc(lines: seq<string>, toks: seq<seq<Token>>)

  function TrimNewlines(s: string): string
  {
    if s != "" && s[|s| - 1] == '\n' then TrimNewlines(s[..|s| - 1]) else s
  }

  /** Tokens that spell out their line and can be marked up faithfully. */
  ghost predicate Lexed(d: Doc)
  {
    |d.toks| == |d.lines| &&
    forall i :: 0 <= i < |d.lines| ==>
      && Text(d.toks[i]) == TrimNewlines(d.lines[i]) && Safe(d.toks[i])
      && '\0' !in Text(d.toks[i])
  }

  type Pairing = (nat, nat)

  /** The opcode replaces old line p.0 by new line p.1, counting from its start. */
  predicate PairedBy(op: OpCode, p: Pairing)
  {
    op.tag == Replace && op.i1 <= p.0 < op.i2 && op.j1 <= p.1 < op.j2 && p.0 - op.i1 == p.1 - op.j1
  }

  ghost predicate PairedIn(ops: seq<OpCode>, p: Pairing)
  {
    exists k :: 0 <= k < |ops| && PairedBy(ops[k], p)
  }

  ghost predicate Paired(groups: seq<seq<OpCode>>, p: Pairing)
  {
    exists g :: 0 <= g < |groups| && PairedIn(groups[g], p)
  }

  function LineOf(on: Half, p: Pairing): nat
  {
    if on == Old then p.0 else p.1
  }

  /** The new markup of one side of a pair; None where that side has nothing to mark. */
  function MarkOf(on: Half, o: Doc, n: Doc, p: Pairing): Option<string>
    requires p.0 < |o.lines| == |o.toks| && p.1 < |n.lines| == |n.toks|
  {
    var r := DiffRanges(TrimNewlines(o.lines[p.0]), TrimNewlines(n.lines[p.1]));
    if on == Old then
      if r.aHi > r.aLo then Some(Emitted(o.toks[p.0], 0, r.aLo, r.aHi)) else None
    else
      if r.bHi > r.bLo then Some(Emitted(n.toks[p.1], 0, r.bLo, r.bHi)) else None
  }

  ghost predicate InRange(o: Doc, n: Doc, pairs: set<Pairing>)
  {
    |o.lines| == |o.toks| && |n.lines| == |n.toks| && forall p :: p in pairs ==> p.0 < |o.lines| && p.1 < |n.lines|
  }

  /** Line `k` now shows the mark of one of its pairs, or has none to show and is as before. */
  ghost predicate RewrittenAt(on: Half, o: Doc, n: Doc, pairs: set<Pairing>, before: seq<string>, now: seq<string>, k: nat)
    requires InRange(o, n, pairs) && k < |before| && k < |now|
  {
    || (exists p :: p in pairs && LineOf(on, p) == k && MarkOf(on, o, n, p) == Some(now[k]))
    || (now[k] == before[k] && forall p :: p in pairs && LineOf(on, p) == k ==> MarkOf(on, o, n, p) == None)
  }

  ghost predicate Rewritten(on: Half, o: Doc, n: Doc, pairs: set<Pairing>, before: seq<string>, now: seq<string>)
    requires InRange(o, n, pairs)
  {
    |now| == |before| && forall k :: 0 <= k < |now| ==> RewrittenAt(on, o, n, pairs, before, now, k)
  }

  lemma RewriteNext(on: Half, o: Doc, n: Doc, pairs: set<Pairing>, p: Pairing, before: seq<string>, was: seq<string>, now: seq<string>)
    requires InRange(o, n, pairs + {p}) && LineOf(on, p) < |before|
    requires Rewritten(on, o, n, pairs, before, was)
    requires var m := MarkOf(on, o, n, p); now == if m.Some? then was[LineOf(on, p) := m.value] else was
    ensures Rewritten(on, o, n, pairs + {p}, before, now)
  {
    forall k | 0 <= k < |now|
      ensures RewrittenAt(on, o, n, pairs + {p}, before, now, k)
    {
      assert RewrittenAt(on, o, n, pairs, before, was, k);
      assert p in pairs + {p};
    }
  }

  method MarkPair(o: Doc, n: Doc, ah: array<string>, bh: array<string>, p: Pairing,
                  ghost a0: seq<string>, ghost b0: seq<string>, ghost pairs: set<Pairing>)
    requires ah != bh && InRange(o, n, pairs + {p}) && ah.Length == |o.lines| && bh.Length == |n.lines|
    requires Rewritten(Old, o, n, pairs, a0, ah[..]) && Rewritten(New, o, n, pairs, b0, bh[..])
    modifies ah, bh
    ensures Rewritten(Old, o, n, pairs + {p}, a0, ah[..]) && Rewritten(New, o, n, pairs + {p}, b0, bh[..])
  {
    ghost var wasA, wasB := ah[..], bh[..];
    assert p in pairs + {p};
    var aLo, aHi, bLo, bHi := RuneDiffRange(TrimNewlines(o.lines[p.0]), TrimNewlines(n.lines[p.1]));
    if aHi > aLo {
      ah[p.0] := Emit(o.toks[p.0], aLo, aHi);
    }
    if bHi > bLo {
      bh[p.1] := Emit(n.toks[p.1], bLo, bHi);
    }
    RewriteNext(Old, o, n, pairs, p, a0, wasA, ah[..]);
    RewriteNext(New, o, n, pairs, p, b0, wasB, bh[..]);
  }

  method MarkOp(o: Doc, n: Doc, ah: array<string>, bh: array<string>, op: OpCode,
                ghost a0: seq<string>, ghost b0: seq<string>, ghost pairs0: set<Pairing>) returns (ghost pairs: set<Pairing>)
    requires ah != bh && InRange(o, n, pairs0) && ah.Length == |o.lines| && bh.Length == |n.lines|
    requires WellFormedOp(op, |o.lines|, |n.lines|)
    requires Rewritten(Old, o, n, pairs0, a0, ah[..]) && Rewritten(New, o, n, pairs0, b0, bh[..])
    modifies ah, bh
    ensures InRange(o, n, pairs) && forall p: Pairing :: p in pairs <==> p in pairs0 || PairedBy(op, p)
    ensures Rewritten(Old, o, n, pairs, a0, ah[..]) && Rewritten(New, o, n, pairs, b0, bh[..])
  {
    pairs := pairs0;
    if op.tag != Replace {
      return;
    }
    for k := 0 to Min(op.i2 - op.i1, op.j2 - op.j1)
      invariant InRange(o, n, pairs)
      invariant forall p: Pairing :: p in pairs <==> p in pairs0 || (PairedBy(op, p) && p.0 < op.i1 + k)
      invariant Rewritten(Old, o, n, pairs, a0, ah[..]) && Rewritten(New, o, n, pairs, b0, bh[..])
    {
      var p := (op.i1 + k, op.j1 + k);
      MarkPair(o, n, ah, bh, p, a0, b0, pairs);
      pairs := pairs + {p};
    }
  }

  method MarkGroup(o: Doc, n: Doc, ah: array<string>, bh: array<string>, group: seq<OpCode>,
                   ghost a0: seq<string>, ghost b0: seq<string>, ghost pairs0: set<Pairing>) returns (ghost pairs: set<Pairing>)
    requires ah != bh && InRange(o, n, pairs0) && ah.Length == |o.lines| && bh.Length == |n.lines|
    requires Contiguous(group, |o.lines|, |n.lines|)
    requires Rewritten(Old, o, n, pairs0, a0, ah[..]) && Rewritten(New, o, n, pairs0, b0, bh[..])
    modifies ah, bh
    ensures InRange(o, n, pairs) && forall p: Pairing :: p in pairs <==> p in pairs0 || PairedIn(group, p)
    ensures Rewritten(Old, o, n, pairs, a0, ah[..]) && Rewritten(New, o, n, pairs, b0, bh[..])
  {
    pairs := pairs0;
    for k := 0 to |group|
      invariant InRange(o, n, pairs)
      invariant forall p: Pairing :: p in pairs <==> p in pairs0 || PairedIn(group[..k], p)
      invariant Rewritten(Old, o, n, pairs, a0, ah[..]) && Rewritten(New, o, n, pairs, b0, bh[..])
    {
      OpWellFormed(group, k, |o.lines|, |n.lines|);
      pairs := MarkOp(o, n, ah, bh, group[k], a0, b0, pairs);
      assert group[..k + 1] == group[..k] + [group[k]];
    }
    assert group[..|group|] == group;
  }

  /** Rewrite the markup of every replaced pair, in place on both sides. */
  method MarkIntraline(o: Doc, n: Doc, groups: seq<seq<OpCode>>, ah: array<string>, bh: array<string>) returns (ghost pairs: set<Pairing>)
    requires ah != bh && ah.Length == |o.lines| == |o.toks| && bh.Length == |n.lines| == |n.toks|
    requires Grouped(groups, |o.lines|, |n.lines|)
    modifies ah, bh
    ensures InRange(o, n, pairs) && forall p: Pairing :: p in pairs <==> Paired(groups, p)
    ensures Rewritten(Old, o, n, pairs, old(ah[..]), ah[..]) && Rewritten(New, o, n, pairs, old(bh[..]), bh[..])
  {
    ghost var a0, b0 := ah[..], bh[..];
    pairs := {};
    for g := 0 to |groups|
      invariant InRange(o, n, pairs)
      invariant forall p: Pairing :: p in pairs <==> Paired(groups[..g], p)
      invariant Rewritten(Old, o, n, pairs, a0, ah[..]) && Rewritten(New, o, n, pairs, b0, bh[..])
    {
      assert GroupOk(groups, g, |o.lines|, |n.lines|);
      pairs := MarkGroup(o, n, ah, bh, groups[g], a0, b0, pairs);
      assert groups[..g + 1] == groups[..g] + [groups[g]];
    }
    assert groups[..|groups|] == groups;
  }

  function StripLine(): string -> string
  {
    (s: string) => StripHtml(s)
  }

  /** A mark says what the tokens of its line say. */
  lemma MarkSpellsTokens(on: Half, o: Doc, n: Doc, p: Pairing)
    requires p.0 < |o.lines| == |o.toks| && p.1 < |n.lines| == |n.toks| && MarkOf(on, o, n, p).Some?
    requires var toks := if on == Old then o.toks[p.0] else n.toks[p.1]; Safe(toks) && '\0' !in Text(toks)
    ensures StripHtml(MarkOf(on, o, n, p).value) == Text(if on == Old then o.toks[p.0] else n.toks[p.1])
  {
    var r := DiffRanges(TrimNewlines(o.lines[p.0]), TrimNewlines(n.lines[p.1]));
    if on == Old {
      EmitRoundTrip(o.toks[p.0], r.aLo, r.aHi);
    } else {
      EmitRoundTrip(n.toks[p.1], r.bLo, r.bHi);
    }
  }

  /** So a line whose tokens are missing, as after a lexer error, is blanked by marking it. */
  lemma MissingTokensBlankTheLine(on: Half, o: Doc, n: Doc, p: Pairing)
    requires p.0 < |o.lines| == |o.toks| && p.1 < |n.lines| == |n.toks| && MarkOf(on, o, n, p).Some?
    requires (if on == Old then o.toks[p.0] else n.toks[p.1]) == []
    ensures StripHtml(MarkOf(on, o, n, p).value) == ""
    ensures TrimNewlines(if on == Old then o.lines[p.0] else n.lines[p.1]) != ""
  {
    MarkSpellsTokens(on, o, n, p);
    var a, b := TrimNewlines(o.lines[p.0]), TrimNewlines(n.lines[p.1]);
    var r := DiffRanges(a, b);
    assert if on == Old then r.aLo < r.aHi <= |a| else r.bLo < r.bHi <= |b|;
  }

  /** Marking never changes what a line says: markup of the source before is markup of the
      source after. */
  lemma MarkingKeepsText(on: Half, o: Doc, n: Doc, pairs: set<Pairing>, before: seq<string>, now: seq<string>, text: seq<string>)
    requires Lexed(o) && Lexed(n) && InRange(o, n, pairs) && Rewritten(on, o, n, pairs, before, now)
    requires Renders(StripLine(), before, text)
    requires var d := if on == Old then o else n;
             |text| == |d.lines| && forall k :: 0 <= k < |text| ==> text[k] == TrimNewlines(d.lines[k])
    ensures Renders(StripLine(), now, text)
  {
    forall k | 0 <= k < |text|
      ensures StripLine()(now[k]) == text[k]
    {
      assert RewrittenAt(on, o, n, pairs, before, now, k);
      if now[k] == before[k] {
        assert StripLine()(before[k]) == text[k];
      } else {
        var p :| p in pairs && LineOf(on, p) == k && MarkOf(on, o, n, p) == Some(now[k]);
        MarkSpellsTokens(on, o, n, p);
      }
    }
  }

  function Trimmed(lines: seq<string>): (t: seq<string>)
    ensures |t| == |lines| && forall k :: 0 <= k < |lines| ==> t[k] == TrimNewlines(lines[k])
  {
    if lines == [] then [] else [TrimNewlines(lines[0])] + Trimmed(lines[1..])
  }

  /** The whole way from two files to the unified view: after the marking, the view's two
      sides, stripped of their markup, still are the two files. */
  lemma MarkedViewIsLossless(o: Doc, n: Doc, groups: seq<seq<OpCode>>, pairs: set<Pairing>,
                             a0: seq<string>, b0: seq<string>, ah: seq<string>, bh: seq<string>)
    requires Lexed(o) && Lexed(n) && InRange(o, n, pairs)
    requires Rewritten(Old, o, n, pairs, a0, ah) && Rewritten(New, o, n, pairs, b0, bh)
    requires Renders(StripLine(), a0, Trimmed(o.lines)) && Renders(StripLine(), b0, Trimmed(n.lines))
    requires Grouped(groups, |o.lines|, |n.lines|) && groups != []
    requires Aligned(Trimmed(o.lines), Trimmed(n.lines), groups)
    ensures FilterMap(Unified(ah, bh, groups), OldOf) == Numbered(ah, 0, |ah|)
    ensures Renders(StripLine(), ah, Trimmed(o.lines))
    ensures FilterMap(Unified(ah, bh, groups), NewOf(StripLine())) == Numbered(Trimmed(n.lines), 0, |n.lines|)
  {
    MarkingKeepsText(Old, o, n, pairs, a0, ah, Trimmed(o.lines));
    MarkingKeepsText(New, o, n, pairs, b0, bh, Trimmed(n.lines));
    UnifiedIsLossless(StripLine(), ah, bh, Trimmed(o.lines), Trimmed(n.lines), groups);
  }
}
