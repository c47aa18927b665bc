/** Text put into a feed and read out of it again. */
module Feed {
  import opened Archive

  /** Every occurrence of one text replaced by another, from the left, each looked for after the one before. */
  function Replaced(s: string, from: string, to: string): string
    requires from != []
  {
    if s == [] then []
    else if from <= s then to + Replaced(s[|from|..], from, to)
    else [s[0]] + Replaced(s[1..], from, to)
  }

  const AMP := "&amp;"
  const LT := "&lt;"
  const GT := "&gt;"
  const QUOT := "&quot;"
  const APOS := "&#39;"

  /** Text escaped for a feed: one replacement after another. */
  function Xml(s: string): string {
    Replaced(Replaced(Replaced(Replaced(s, "&", AMP), "<", LT), ">", GT), "\"", QUOT)
  }

  const CDATA := "<![CDATA["
  const CDATA_END := "]]>"

  /** What a text holds that is wholly a CDATA section, and otherwise the text. */
  function Uncased(s: string): string {
    if CDATA <= s && |s| >= |CDATA| + |CDATA_END| && s[|s| - |CDATA_END|..] == CDATA_END
    then s[|CDATA|..|s| - |CDATA_END|] else s
  }

  /** Text out of a feed, its entities undone one after another, the ampersand's last. */
  function Decoded(s: string): string {
    Replaced(Replaced(Replaced(Replaced(Replaced(Uncased(s), LT, "<"), GT, ">"), QUOT, "\""), APOS, "'"), AMP, "&")
  }

  /** What an escaped character is written as. */
  function EntityOf(c: char): string {
    if c == '&' then AMP else if c == '<' then LT else if c == '>' then GT else QUOT
  }

  predicate IsSpecial(c: char) {
    c == '&' || c == '<' || c == '>' || c == '"'
  }

  /** Text with some characters escaped, each by itself. */
  function Escaped(s: string, chars: set<char>): string {
    if s == [] then [] else Piece(s[0], chars) + Escaped(s[1..], chars)
  }

  function Piece(c: char, chars: set<char>): (p: string)
    ensures p != []
  {
    if c in chars && IsSpecial(c) then EntityOf(c) else [c]
  }

  /** Replacing goes on where a text that holds no start of an occurrence ends. */
  lemma {:induction false} PassOver(p: string, rest: string, from: string, to: string)
    requires from != [] && forall i :: 0 <= i < |p| ==> p[i] != from[0]
    ensures Replaced(p + rest, from, to) == p + Replaced(rest, from, to)
  {
    if p == [] {
      assert p + rest == rest;
    } else {
      assert (p + rest)[0] == p[0] && (p + rest)[1..] == p[1..] + rest;
      PassOver(p[1..], rest, from, to);
      assert [p[0]] + (p[1..] + Replaced(rest, from, to)) == p + Replaced(rest, from, to);
    }
  }

  lemma ReplaceFirst(rest: string, from: string, to: string)
    requires from != []
    ensures Replaced(from + rest, from, to) == to + Replaced(rest, from, to)
  {
    assert (from + rest)[|from|..] == rest;
  }

  lemma NotFirst(s: string, from: string, to: string)
    requires from != [] && s != [] && !(from <= s)
    ensures Replaced(s, from, to) == [s[0]] + Replaced(s[1..], from, to)
  {
  }

  /** Escaping one more character, after those before it. */
  lemma {:induction false} EscapesOneMore(s: string, chars: set<char>, c: char)
    requires IsSpecial(c) && c !in chars && (c == '&' ==> chars == {})
    ensures Replaced(Escaped(s, chars), [c], EntityOf(c)) == Escaped(s, chars + {c})
  {
    if s != [] {
      EscapesOneMore(s[1..], chars, c);
      var rest := Escaped(s[1..], chars);
      if s[0] == c {
        ReplaceFirst(rest, [c], EntityOf(c));
      } else {
        assert forall i :: 0 <= i < |Piece(s[0], chars)| ==> Piece(s[0], chars)[i] != c;
        PassOver(Piece(s[0], chars), rest, [c], EntityOf(c));
      }
    }
  }

  lemma {:induction false} NothingEscaped(s: string)
    ensures Escaped(s, {}) == s
  {
    if s != [] {
      NothingEscaped(s[1..]);
    }
  }

  const SPECIALS := {'&', '<', '>', '"'}

  /** So one replacement after another escapes each character by itself. */
  lemma XmlEscapes(s: string)
    ensures Xml(s) == Escaped(s, SPECIALS)
  {
    NothingEscaped(s);
    EscapesOneMore(s, {}, '&');
    assert {} + {'&'} == {'&'};
    EscapesOneMore(s, {'&'}, '<');
    assert {'&'} + {'<'} == {'&', '<'};
    EscapesOneMore(s, {'&', '<'}, '>');
    assert {'&', '<'} + {'>'} == {'&', '<', '>'};
    EscapesOneMore(s, {'&', '<', '>'}, '"');
    assert {'&', '<', '>'} + {'"'} == {'&', '<', '>', '"'};
  }

  /** Two entities are never mistaken for each other, whatever follows. */
  lemma EntitiesDiffer(e: string, f: string, rest: string)
    requires e in [AMP, LT, GT, QUOT, APOS] && f in [AMP, LT, GT, QUOT, APOS] && e != f
    ensures !(e <= f + rest)
  {
    assert e[1] != f[1] || e[2] != f[2];
    assert (f + rest)[1] == f[1] && (f + rest)[2] == f[2];
  }

  /** An ampersand within what is escaped begins an entity, and there is none after it in one. */
  lemma PieceHasOneAmpersand(c: char, chars: set<char>)
    requires '&' in chars
    ensures var p := Piece(c, chars); (|p| == 1 && p[0] != '&') || p in [AMP, LT, GT, QUOT]
    ensures forall i :: 1 <= i < |Piece(c, chars)| ==> Piece(c, chars)[i] != '&'
  {
  }

  /** Passing over a piece that is not the entity looked for. */
  lemma PassPiece(p: string, rest: string, e: string, to: string)
    requires e in [AMP, LT, GT, QUOT, APOS] && ((|p| == 1 && p[0] != '&') || (p in [AMP, LT, GT, QUOT] && p != e))
    requires forall i :: 1 <= i < |p| ==> p[i] != '&'
    ensures Replaced(p + rest, e, to) == p + Replaced(rest, e, to)
  {
    assert e[0] == '&';
    if |p| == 1 && p[0] != '&' {
      hide Replaced;
      PassOver(p, rest, e, to);
    } else {
      assert |p| > 1;
      hide Replaced;
      EntitiesDiffer(e, p, rest);
      NotFirst(p + rest, e, to);
      assert (p + rest)[0] == p[0] && (p + rest)[1..] == p[1..] + rest;
      hide *;
      PassOver(p[1..], rest, e, to);
      FirstThenRest(p, Replaced(rest, e, to));
    }
  }

  lemma FirstThenRest(p: string, rest: string)
    requires p != []
    ensures [p[0]] + (p[1..] + rest) == p + rest
  {
  }

  /** Undoing one character's entity, while ampersands are still escaped. */
  lemma {:induction false} UndoesOne(s: string, chars: set<char>, c: char)
    requires '&' in chars && c in chars && c != '&' && IsSpecial(c)
    ensures Replaced(Escaped(s, chars), EntityOf(c), [c]) == Escaped(s, chars - {c})
  {
    if s != [] {
      UndoesOne(s[1..], chars, c);
      var p, rest := Piece(s[0], chars), Escaped(s[1..], chars);
      PieceHasOneAmpersand(s[0], chars);
      if s[0] == c {
        ReplaceFirst(rest, EntityOf(c), [c]);
      } else {
        assert p == Piece(s[0], chars - {c});
        assert p != EntityOf(c) by { EntityIsItsOwn(s[0], c, chars); }
        PassPiece(p, rest, EntityOf(c), [c]);
      }
    }
  }

  lemma EntityIsItsOwn(d: char, c: char, chars: set<char>)
    requires d != c && IsSpecial(c)
    ensures Piece(d, chars) != EntityOf(c)
  {
    assert |EntityOf(c)| > 1;
    if d in chars && IsSpecial(d) {
      assert EntityOf(d)[1] != EntityOf(c)[1];
    }
  }

  /** There is no apostrophe's entity to undo. */
  lemma {:induction false} NoApostrophes(s: string, chars: set<char>)
    requires '&' in chars
    ensures Replaced(Escaped(s, chars), APOS, "'") == Escaped(s, chars)
  {
    if s != [] {
      NoApostrophes(s[1..], chars);
      PieceHasOneAmpersand(s[0], chars);
      assert Piece(s[0], chars) != APOS by {
        assert APOS[1] == '#';
      }
      PassPiece(Piece(s[0], chars), Escaped(s[1..], chars), APOS, "'");
    }
  }

  /** The ampersands' own entities, last. */
  lemma {:induction false} UndoesAmpersands(s: string)
    ensures Replaced(Escaped(s, {'&'}), AMP, "&") == s
  {
    if s != [] {
      UndoesAmpersands(s[1..]);
      var rest := Escaped(s[1..], {'&'});
      if s[0] == '&' {
        ReplaceFirst(rest, AMP, "&");
      } else {
        PassPiece([s[0]], rest, AMP, "&");
      }
    }
  }

  lemma EscapedIsNoSection(s: string)
    ensures Uncased(Xml(s)) == Xml(s)
  {
    XmlEscapes(s);
    assert s != [] ==> Escaped(s, {'&', '<', '>', '"'})[0] == Piece(s[0], {'&', '<', '>', '"'})[0] != '<';
    assert CDATA[0] == '<';
  }

  /** Whatever a text holds, escaping it and undoing that gives it back. */
  lemma TextSurvives(s: string)
    ensures Decoded(Xml(s)) == s
  {
    hide *;
    var all := {'&', '<', '>', '"'};
    DecodedIs(Xml(s));
    EscapedIsNoSection(s);
    XmlEscapes(s);
    Specials();
    UndoesOne(s, all, '<');
    assert all - {'<'} == {'&', '>', '"'};
    UndoesOne(s, {'&', '>', '"'}, '>');
    assert {'&', '>', '"'} - {'>'} == {'&', '"'};
    UndoesOne(s, {'&', '"'}, '"');
    assert {'&', '"'} - {'"'} == {'&'};
    NoApostrophes(s, {'&'});
    UndoesAmpersands(s);
  }

  lemma DecodedIs(s: string)
    ensures var t := Replaced(Replaced(Uncased(s), EntityOf('<'), ['<']), EntityOf('>'), ['>']);
            Decoded(s) == Replaced(Replaced(Replaced(t, EntityOf('"'), ['"']), APOS, "'"), AMP, "&")
  {
    hide Replaced, Uncased;
  }

  lemma Specials()
    ensures IsSpecial('&') && IsSpecial('<') && IsSpecial('>') && IsSpecial('"')
    ensures EntityOf('<') != [] && EntityOf('>') != [] && EntityOf('"') != [] && APOS != [] && AMP != []
    ensures SPECIALS == {'&', '<', '>', '"'}
  {
  }

  // ---- Elements

  predicate IsSpace(c: char) {
    c == ' ' || c == '\t' || c == '\n' || c == '\r' || c == 11 as char || c == 12 as char || c == 0xA0 as char ||
    c == 0xFEFF as char || c == 0x2028 as char || c == 0x2029 as char || c == 0x1680 as char || c == 0x202F as char ||
    c == 0x205F as char || c == 0x3000 as char || 0x2000 as char <= c <= 0x200A as char
  }

  function TrimmedLeft(s: string): string {
    if s != [] && IsSpace(s[0]) then TrimmedLeft(s[1..]) else s
  }

  function TrimmedRight(s: string): string {
    if s != [] && IsSpace(s[|s| - 1]) then TrimmedRight(s[..|s| - 1]) else s
  }

  function Trimmed(s: string): string {
    TrimmedRight(TrimmedLeft(s))
  }

  lemma PieceEnds(c: char)
    ensures var p := Piece(c, SPECIALS);
            (IsSpace(c) ==> p == [c]) && (!IsSpace(c) ==> !IsSpace(p[0]) && !IsSpace(p[|p| - 1]))
    ensures forall i :: 0 <= i < |Piece(c, SPECIALS)| ==> Piece(c, SPECIALS)[i] != '<'
  {
  }

  lemma {:induction false} TrimsLeft(s: string)
    ensures TrimmedLeft(Escaped(s, SPECIALS)) == Escaped(TrimmedLeft(s), SPECIALS)
  {
    if s != [] {
      PieceEnds(s[0]);
      var rest := Escaped(s[1..], SPECIALS);
      if IsSpace(s[0]) {
        assert ([s[0]] + rest)[1..] == rest;
        TrimsLeft(s[1..]);
      } else {
        assert (Piece(s[0], SPECIALS) + rest)[0] == Piece(s[0], SPECIALS)[0];
      }
    }
  }

  lemma {:induction false} EscapedLast(s: string, c: char)
    ensures Escaped(s + [c], SPECIALS) == Escaped(s, SPECIALS) + Piece(c, SPECIALS)
  {
    if s == [] {
      assert s + [c] == [c];
    } else {
      assert (s + [c])[1..] == s[1..] + [c];
      EscapedLast(s[1..], c);
    }
  }

  lemma {:induction false} TrimsRight(s: string)
    ensures TrimmedRight(Escaped(s, SPECIALS)) == Escaped(TrimmedRight(s), SPECIALS)
  {
    if s != [] {
      var n := |s| - 1;
      assert s == s[..n] + [s[n]];
      EscapedLast(s[..n], s[n]);
      PieceEnds(s[n]);
      var rest, p := Escaped(s[..n], SPECIALS), Piece(s[n], SPECIALS);
      if IsSpace(s[n]) {
        assert (rest + p)[..|rest + p| - 1] == rest;
        TrimsRight(s[..n]);
      } else {
        assert (rest + p)[|rest + p| - 1] == p[|p| - 1];
      }
    }
  }

  /** Trimming comes to the same before escaping as after. */
  lemma TrimmingEscaped(s: string)
    ensures Trimmed(Xml(s)) == Xml(Trimmed(s))
  {
    XmlEscapes(s);
    XmlEscapes(Trimmed(s));
    TrimsLeft(s);
    TrimsRight(TrimmedLeft(s));
  }

  lemma {:induction false} EscapedHasNoTags(s: string)
    ensures forall i :: 0 <= i < |Escaped(s, SPECIALS)| ==> Escaped(s, SPECIALS)[i] != '<'
  {
    if s != [] {
      EscapedHasNoTags(s[1..]);
      PieceEnds(s[0]);
    }
  }

  function Lower(c: char): char {
    if 'A' <= c <= 'Z' then (c as int + 32) as char else c
  }

  predicate IsWord(c: char) {
    'a' <= c <= 'z' || 'A' <= c <= 'Z' || '0' <= c <= '9' || c == '_'
  }

  const UPPER := "ABCDEFGHIJKLMNOPQRSTUVWXYZ"
  const LOWER := "abcdefghijklmnopqrstuvwxyz"
  const DIGITS := "0123456789"

  /** Letters are alike in either case; names are of letters, digits and underscores; and these are trimmed. */
  lemma Characters(k: nat)
    ensures k < 26 ==> Lower(UPPER[k]) == Lower(LOWER[k]) == LOWER[k] && IsWord(UPPER[k]) && IsWord(LOWER[k])
    ensures k < 10 ==> Lower(DIGITS[k]) == DIGITS[k] && IsWord(DIGITS[k])
    ensures IsWord('_') && !IsWord('-') && !IsWord(':') && !IsWord(' ') && !IsWord('<') && !IsWord('>') && !IsWord('/')
    ensures IsSpace(' ') && IsSpace('\t') && IsSpace('\n') && IsSpace('\r') && !IsSpace('<') && !IsSpace('_')
  {
  }

  /** A text is at a place in another, whatever the case of its letters. */
  predicate HasAt(s: string, i: nat, p: string) {
    i + |p| <= |s| && forall k :: 0 <= k < |p| ==> Lower(s[i + k]) == Lower(p[k])
  }

  function FindFrom(s: string, i: nat, p: string): Option<nat>
    decreases |s| - i
  {
    if i + |p| > |s| || i >= |s| then None
    else if HasAt(s, i, p) then Some(i)
    else FindFrom(s, i + 1, p)
  }

  /** A start tag of this name, and of no longer one, begins here. */
  predicate OpensAt(s: string, i: nat, name: string) {
    HasAt(s, i, "<" + name) && (i + 1 + |name| == |s| || !IsWord(s[i + 1 + |name|]))
  }

  /** The text between the first start tag of a name and the first end tag after it. */
  function TextFrom(s: string, name: string, i: nat): Option<string>
    decreases |s| - i
  {
    if i >= |s| then None
    else
      var close := FindFrom(s, i + 1 + |name|, ">");
      var end := if close.Some? then FindFrom(s, close.value + 1, "</" + name + ">") else None;
      if OpensAt(s, i, name) && end.Some? &&
        close.value + 1 <= end.value <= |s| then Some(s[close.value + 1..end.value])
      else TextFrom(s, name, i + 1)
  }

  /** What an element of this name holds, if there is one. */
  function Tag(block: string, name: string): Option<string> {
    var text := TextFrom(block, name, 0);
    if text.None? then None else Some(Decoded(Trimmed(text.value)))
  }

  /** Names as elements have them, ending in a letter or a digit. */
  predicate IsName(name: string) {
    && name != [] && IsWord(name[0]) && IsWord(name[|name| - 1])
    && forall i :: 0 <= i < |name| ==> IsWord(name[i]) || name[i] == ':'
  }

  datatype Element = Element(name: string, attributes: string, text: string) {
    predicate Valid() {
      && IsName(name) && (attributes != [] ==> attributes[0] == ' ')
      && forall i :: 0 <= i < |attributes| ==> attributes[i] != '<' && attributes[i] != '>'
    }

    function Start(): string {
      "<" + name + attributes + ">"
    }

    function Rendered(): string {
      Start() + Xml(text) + "</" + name + ">"
    }
  }

  /** Nothing is found where it does not even begin. */
  lemma {:induction false} FindSkips(s: string, from: nat, until: nat, p: string)
    requires p != [] && from <= until <= |s| && forall k :: from <= k < until ==> Lower(s[k]) != Lower(p[0])
    ensures FindFrom(s, from, p) == FindFrom(s, until, p)
    decreases until - from
  {
    if from < until {
      assert !HasAt(s, from, p) by {
        assert Lower(s[from + 0]) != Lower(p[0]);
      }
      FindSkips(s, from + 1, until, p);
    }
  }

  lemma {:induction false} TextSkips(s: string, name: string, from: nat, until: nat)
    requires from <= until <= |s| && forall i :: from <= i < until ==> !OpensAt(s, i, name)
    ensures TextFrom(s, name, from) == TextFrom(s, name, until)
    decreases until - from
  {
    if from < until {
      TextSkips(s, name, from + 1, until);
    }
  }

  lemma PartsOf(before: string, e: Element, after: string)
    ensures var s, p := before + e.Rendered() + after, |before|;
            var q, r := p + |e.Start()|, p + |e.Start()| + |Xml(e.text)|;
            && s[p..q] == e.Start() && s[q..r] == Xml(e.text)
            && r + |e.name| + 3 <= |s| && s[r..r + |e.name| + 3] == "</" + e.name + ">"
  {
    hide Xml;
  }

  lemma IsAt(s: string, i: nat, p: string)
    requires i + |p| <= |s| && s[i..i + |p|] == p
    ensures HasAt(s, i, p)
  {
    forall k | 0 <= k < |p|
      ensures s[i + k] == p[k]
    {
      assert s[i..i + |p|][k] == p[k];
    }
  }

  lemma FindsHere(s: string, i: nat, p: string)
    requires p != [] && i + |p| <= |s| && s[i..i + |p|] == p
    ensures FindFrom(s, i, p) == Some(i)
  {
    hide *;
    IsAt(s, i, p);
    FoundHere(s, i, p);
  }

  lemma FoundHere(s: string, i: nat, p: string)
    requires p != [] && HasAt(s, i, p)
    ensures FindFrom(s, i, p) == Some(i)
  {
  }

  lemma BracketsApart(c: char)
    ensures (Lower(c) == '<' ==> c == '<') && (Lower(c) == '>' ==> c == '>')
    ensures Lower('<') == '<' && Lower('>') == '>'
  {
  }

  /** Its end tag is the first one after escaped text. */
  lemma EndTag(s: string, q: nat, r: nat, text: string, name: string)
    requires q <= r && r + |name| + 3 <= |s| && s[q..r] == Xml(text) && s[r..r + |name| + 3] == "</" + name + ">"
    ensures FindFrom(s, q, "</" + name + ">") == Some(r)
  {
    hide *;
    var end := "</" + name + ">";
    XmlEscapes(text);
    EscapedHasNoTags(text);
    forall k | q <= k < r
      ensures Lower(s[k]) != Lower(end[0])
    {
      assert s[k] == s[q..r][k - q] == Escaped(text, SPECIALS)[k - q];
      assert end[0] == '<';
      BracketsApart(s[k]);
    }
    FindSkips(s, q, r, end);
    FindsHere(s, r, end);
  }

  lemma TextIsBetween(s: string, name: string, i: nat, close: nat, end: nat)
    requires OpensAt(s, i, name) && close + 1 <= end <= |s|
    requires FindFrom(s, i + 1 + |name|, ">") == Some(close)
    requires FindFrom(s, close + 1, "</" + name + ">") == Some(end)
    ensures TextFrom(s, name, i) == Some(s[close + 1..end])
  {
    hide FindFrom, OpensAt, HasAt;
    if i >= |s| {
      FoundWithin(s, i + 1 + |name|, ">");
    }
  }

  lemma FoundWithin(s: string, i: nat, p: string)
    ensures i >= |s| ==> FindFrom(s, i, p) == None
  {
  }

  /** Read at its own start tag, an element gives the text that was escaped into it. */
  lemma ReadAtItsStart(before: string, e: Element, after: string)
    requires e.Valid()
    ensures TextFrom(before + e.Rendered() + after, e.name, |before|) == Some(Xml(e.text))
  {
    hide *;
    var s, p := before + e.Rendered() + after, |before|;
    var q, r := p + |e.Start()|, p + |e.Start()| + |Xml(e.text)|;
    PartsOf(before, e, after);
    StartTag(s, p, e);
    EndTag(s, q, r, e.text, e.name);
    StartIsLong(e);
    TextIsBetween(s, e.name, p, q - 1, r);
  }

  lemma StartIsLong(e: Element)
    ensures |e.Start()| == 2 + |e.name| + |e.attributes| && e.Start()[..1 + |e.name|] == "<" + e.name
    ensures e.Start()[1 + |e.name|..1 + |e.name| + |e.attributes|] == e.attributes
    ensures e.Start()[1 + |e.name| + |e.attributes|..] == ">"
  {
  }

  lemma SliceOfSlice(s: string, p: nat, t: string, i: nat, j: nat)
    requires p + |t| <= |s| && s[p..p + |t|] == t && i <= j <= |t|
    ensures s[p + i..p + j] == t[i..j]
  {
    assert t[i..j] == s[p..p + |t|][i..j];
    forall k | 0 <= k < j - i
      ensures s[p + i..p + j][k] == t[i..j][k]
    {
      assert t[i + k] == s[p..p + |t|][i + k];
    }
  }

  lemma AttributesClose(s: string, i: nat, attributes: string)
    requires i + |attributes| < |s| && s[i..i + |attributes|] == attributes && s[i + |attributes|] == '>'
    requires forall k :: 0 <= k < |attributes| ==> attributes[k] != '>'
    ensures FindFrom(s, i, ">") == Some(i + |attributes|)
  {
    hide *;
    var n := i + |attributes|;
    forall k | i <= k < n
      ensures Lower(s[k]) != Lower(">"[0])
    {
      assert s[k] == s[i..n][k - i] == attributes[k - i];
      BracketsApart(s[k]);
    }
    FindSkips(s, i, n, ">");
    assert s[n..n + 1] == ">";
    FindsHere(s, n, ">");
  }

  lemma Opens(s: string, p: nat, name: string)
    requires p + 1 + |name| < |s| && s[p..p + 1 + |name|] == "<" + name && !IsWord(s[p + 1 + |name|])
    ensures OpensAt(s, p, name)
  {
    hide HasAt, IsWord;
    var start := "<" + name;
    IsAt(s, p, start);
  }

  lemma AfterTheName(e: Element)
    requires e.Valid()
    ensures var n := 1 + |e.name|; n < |e.Start()| && !IsWord(e.Start()[n])
    ensures forall k :: 0 <= k < |e.attributes| ==> e.attributes[k] != '>'
  {
    hide IsName;
  }

  /** Its start tag opens it, and closes where its attributes end. */
  lemma StartTag(s: string, p: nat, e: Element)
    requires e.Valid() && p + |e.Start()| <= |s| && s[p..p + |e.Start()|] == e.Start()
    ensures OpensAt(s, p, e.name) && FindFrom(s, p + 1 + |e.name|, ">") == Some(p + |e.Start()| - 1)
  {
    hide *;
    var n, a, t := 1 + |e.name|, |e.attributes|, e.Start();
    StartIsLong(e);
    AfterTheName(e);
    SliceOfSlice(s, p, t, 0, n);
    assert s[p + n] == s[p..p + |t|][n];
    Opens(s, p, e.name);
    SliceOfSlice(s, p, t, n, n + a);
    SliceOfSlice(s, p, t, n + a, n + a + 1);
    assert s[p + n + a] == s[p + (n + a)..p + (n + a + 1)][0];
    AttributesClose(s, p + n, e.attributes);
  }

  /** An element is read back, trimmed, wherever it is, if no start tag of its name comes before it. */
  lemma ElementSurvives(before: string, e: Element, after: string)
    requires e.Valid() && forall i :: 0 <= i < |before| ==> !OpensAt(before + e.Rendered() + after, i, e.name)
    ensures Tag(before + e.Rendered() + after, e.name) == Some(Trimmed(e.text))
  {
    hide *;
    TextSkips(before + e.Rendered() + after, e.name, 0, |before|);
    ReadAtItsStart(before, e, after);
    TagIs(before + e.Rendered() + after, e.name);
    TrimmingEscaped(e.text);
    TextSurvives(Trimmed(e.text));
  }

  lemma TagIs(block: string, name: string)
    ensures var text := TextFrom(block, name, 0);
            Tag(block, name) == if text.None? then None else Some(Decoded(Trimmed(text.value)))
  {
    hide TextFrom, Decoded, Trimmed;
  }

  /** An element of one name is taken for one of another: the name is the same, or goes on past a colon. */
  predicate Shadows(longer: string, name: string) {
    && |name| <= |longer| && (forall k :: 0 <= k < |name| ==> Lower(longer[k]) == Lower(name[k]))
    && (|name| == |longer| || !IsWord(longer[|name|]))
  }

  /** What an item is made of: blanks and line breaks, elements, elements that hold nothing, and its own two tags. */
  datatype Part =
    | Text(text: string) | Whole(element: Element) | Empty(tag: string, rest: string)
    | Opening(tag: string) | Closing(tag: string)
  {
    predicate Valid() {
      match this
      case Text(t) => forall i :: 0 <= i < |t| ==> t[i] != '<'
      case Whole(e) => e.Valid()
      case Empty(t, r) => IsName(t) && (r != [] ==> r[0] == ' ') && forall i :: 0 <= i < |r| ==> r[i] != '<'
      case Opening(t) => IsName(t)
      case Closing(t) => IsName(t)
    }

    function Shown(): string {
      match this
      case Text(t) => t
      case Whole(e) => e.Rendered()
      case Empty(t, r) => "<" + t + r + "/>"
      case Opening(t) => "<" + t + ">"
      case Closing(t) => "</" + t + ">"
    }

    /** The name of its start tag, if it has one. */
    function Name(): Option<string> {
      match this
      case Text(_) => None
      case Whole(e) => Some(e.name)
      case Empty(t, _) => Some(t)
      case Opening(t) => Some(t)
      case Closing(_) => None
    }

    predicate IsTakenFor(name: string) {
      Name().Some? && Shadows(Name().value, name)
    }
  }

  function Block(parts: seq<Part>): string {
    if parts == [] then [] else parts[0].Shown() + Block(parts[1..])
  }

  /** Only a left angle bracket that no slash follows opens an element. */
  lemma OpensAtABracket(s: string, i: nat, name: string)
    requires OpensAt(s, i, name) && IsName(name)
    ensures i + 1 < |s| && s[i] == '<' && s[i + 1] != '/'
  {
    var start := "<" + name;
    assert Lower(s[i + 0]) == Lower(start[0]);
    assert Lower(s[i + 1]) == Lower(start[1]);
    BracketsApart(s[i]);
  }

  /** A start tag opens the elements it is taken for and no others. */
  lemma StartOpens(s: string, i: nat, longer: string, name: string)
    requires IsName(name) && IsName(longer) && i + 1 + |longer| < |s| && s[i..i + 1 + |longer|] == "<" + longer
    requires s[i + 1 + |longer|] in " />"
    ensures OpensAt(s, i, name) ==> Shadows(longer, name)
  {
    if OpensAt(s, i, name) {
      NoLonger(s, i, name);
      var n, l := "<" + name, "<" + longer;
      forall k | 0 <= k < |name|
        ensures Lower(longer[k]) == Lower(name[k])
      {
        assert s[i..i + 1 + |longer|][k + 1] == l[k + 1];
        assert Lower(s[i + (k + 1)]) == Lower(n[k + 1]);
      }
      if |name| < |longer| {
        assert s[i..i + 1 + |longer|][|name| + 1] == l[|name| + 1];
      }
    }
  }

  /** Where a name stands there is no blank, slash or right angle bracket. */
  lemma NoLonger(s: string, i: nat, name: string)
    requires OpensAt(s, i, name) && IsName(name)
    ensures forall j :: i + 1 <= j < i + 1 + |name| ==> s[j] !in " />"
  {
    var n := "<" + name;
    forall j | i + 1 <= j < i + 1 + |name|
      ensures s[j] !in " />"
    {
      assert Lower(s[i + (j - i)]) == Lower(n[j - i]);
      NamesHaveNoBlanks(name, j - i - 1);
    }
  }

  lemma NamesHaveNoBlanks(name: string, k: nat)
    requires IsName(name) && k < |name|
    ensures Lower(name[k]) !in " />"
  {
  }

  /** A tag has its bracket at its start alone. */
  lemma TagHasOneBracket(name: string, lead: string, rest: string)
    requires IsName(name) && '<' !in lead && '<' !in rest
    ensures forall i :: 0 < i < |"<" + lead + name + rest| ==> ("<" + lead + name + rest)[i] != '<'
  {
    forall k | 0 <= k < |name|
      ensures name[k] != '<'
    {
      assert IsWord(name[k]) || name[k] == ':';
    }
  }

  lemma StartHasOneBracket(e: Element)
    requires e.Valid()
    ensures forall i :: 0 < i < |e.Start()| ==> e.Start()[i] != '<'
  {
    TagHasOneBracket(e.name, "", e.attributes + ">");
    assert "<" + "" + e.name + (e.attributes + ">") == e.Start();
  }

  lemma EndHasOneBracket(e: Element)
    requires e.Valid()
    ensures forall i :: 0 < i < |"</" + e.name + ">"| ==> ("</" + e.name + ">")[i] != '<'
  {
    TagHasOneBracket(e.name, "/", ">");
    assert "<" + "/" + e.name + ">" == "</" + e.name + ">";
  }

  lemma EmptyHasOneBracket(part: Part)
    requires part.Valid() && part.Empty?
    ensures forall i :: 0 < i < |part.Shown()| ==> part.Shown()[i] != '<'
  {
    TagHasOneBracket(part.tag, "", part.rest + "/>");
    assert "<" + "" + part.tag + (part.rest + "/>") == part.Shown();
  }

  /** Where the brackets of a part are: at its start tag, and before the slash of its end tag. */
  lemma BracketsOf(part: Part, i: nat)
    requires part.Valid() && i < |part.Shown()| && part.Shown()[i] == '<'
    ensures (part.Name().Some? && i == 0) || (i + 1 < |part.Shown()| && part.Shown()[i + 1] == '/')
  {
    hide Xml, IsName, Element.Start, Element.Rendered;
    if part.Whole? {
      var e := part.element;
      XmlEscapes(e.text);
      EscapedHasNoTags(e.text);
      StartHasOneBracket(e);
      EndHasOneBracket(e);
      RenderedAt(e, i);
    } else if part.Empty? {
      EmptyHasOneBracket(part);
    } else if part.Opening? {
      TagHasOneBracket(part.tag, "", ">");
      assert "<" + "" + part.tag + ">" == part.Shown();
    } else if part.Closing? {
      TagHasOneBracket(part.tag, "/", ">");
      assert "<" + "/" + part.tag + ">" == part.Shown();
    }
  }

  lemma RenderedAt(e: Element, i: nat)
    requires i < |e.Rendered()|
    ensures var q := |e.Start()|;
            var r := q + |Xml(e.text)|;
            && |e.Rendered()| == r + 3 + |e.name|
            && (i < q ==> e.Rendered()[i] == e.Start()[i])
            && (q <= i < r ==> e.Rendered()[i] == Xml(e.text)[i - q])
            && (r <= i ==> e.Rendered()[i] == ("</" + e.name + ">")[i - r] && e.Rendered()[r + 1] == '/')
  {
    hide Xml, Element.Start;
  }

  /** A part begins with its name. */
  lemma NameComesFirst(part: Part)
    requires part.Valid() && part.Name().Some?
    ensures var n := 1 + |part.Name().value|;
            && IsName(part.Name().value) && n < |part.Shown()|
            && part.Shown()[..n] == "<" + part.Name().value && part.Shown()[n] in " />"
  {
    hide Xml, IsName;
  }

  /** Nothing opens inside a part but what it is taken for. */
  lemma PartOpensItself(s: string, p: nat, part: Part, i: nat, name: string)
    requires part.Valid() && IsName(name) && p <= i < p + |part.Shown()| <= |s|
    requires s[p..p + |part.Shown()|] == part.Shown() && OpensAt(s, i, name)
    ensures part.IsTakenFor(name)
  {
    hide *;
    var t := part.Shown();
    OpensAtABracket(s, i, name);
    assert s[i] == s[p..p + |t|][i - p];
    if i + 1 < p + |t| {
      assert s[i + 1] == s[p..p + |t|][i + 1 - p];
    }
    BracketsOf(part, i - p);
    NameComesFirst(part);
    var longer := part.Name().value;
    SliceOfSlice(s, p, t, 0, 1 + |longer|);
    assert t[0..1 + |longer|] == t[..1 + |longer|];
    assert s[p + 1 + |longer|] == s[p..p + |t|][1 + |longer|];
    StartOpens(s, p, longer, name);
    TakenIs(part, name);
  }

  lemma TakenIs(part: Part, name: string)
    ensures part.IsTakenFor(name) <==> part.Name().Some? && Shadows(part.Name().value, name)
  {
    hide Shadows;
  }

  /** Nothing opens in parts none of which is taken for it. */
  lemma {:induction false} PartsOpenThemselves(s: string, p: nat, parts: seq<Part>, i: nat, name: string)
    requires IsName(name) && p <= i < p + |Block(parts)| <= |s| && s[p..p + |Block(parts)|] == Block(parts)
    requires forall k :: 0 <= k < |parts| ==> parts[k].Valid() && !parts[k].IsTakenFor(name)
    ensures !OpensAt(s, i, name)
    decreases parts
  {
    hide *;
    BlockIs(parts);
    if parts != [] {
      var t, rest := parts[0].Shown(), Block(parts[1..]);
      SliceOfSlice(s, p, t + rest, 0, |t|);
      SliceOfSlice(s, p, t + rest, |t|, |t| + |rest|);
      if i < p + |t| {
        if OpensAt(s, i, name) {
          PartOpensItself(s, p, parts[0], i, name);
        }
      } else {
        PartsOpenThemselves(s, p + |t|, parts[1..], i, name);
      }
    }
  }

  lemma BlockIs(parts: seq<Part>)
    ensures Block(parts) == if parts == [] then [] else parts[0].Shown() + Block(parts[1..])
  {
    hide Part.Shown;
  }

  lemma {:induction false} BlockJoins(a: seq<Part>, b: seq<Part>)
    ensures Block(a + b) == Block(a) + Block(b)
  {
    hide *;
    BlockIs(a);
    BlockIs(a + b);
    if a == [] {
      assert a + b == b;
    } else {
      BlockJoins(a[1..], b);
      assert (a + b)[1..] == a[1..] + b;
    }
  }

  /**
   A field of an item is read back, trimmed: whatever the other fields hold, and
   whatever comes after it, as long as no element before it is taken for it.
   */
  lemma FieldSurvives(parts: seq<Part>, i: nat)
    requires i < |parts| && parts[i].Whole? && forall k :: 0 <= k <= i ==> parts[k].Valid()
    requires forall k :: 0 <= k < i ==> !parts[k].IsTakenFor(parts[i].element.name)
    ensures Tag(Block(parts), parts[i].element.name) == Some(Trimmed(parts[i].element.text))
  {
    hide *;
    var e, before, after := parts[i].element, Block(parts[..i]), Block(parts[i + 1..]);
    BlockSplits(parts, i);
    WholeIs(parts[i]);
    NothingOpensBefore(parts[..i], e.Rendered() + after, e.name);
    Regroups(before, e.Rendered(), after);
    ElementSurvives(before, e, after);
  }

  /** Nothing opens in parts none of which is taken for it, whatever comes after them. */
  lemma NothingOpensBefore(parts: seq<Part>, after: string, name: string)
    requires IsName(name)
    requires forall k :: 0 <= k < |parts| ==> parts[k].Valid() && !parts[k].IsTakenFor(name)
    ensures forall k :: 0 <= k < |Block(parts)| ==> !OpensAt(Block(parts) + after, k, name)
  {
    hide *;
    var before := Block(parts);
    var s := before + after;
    assert s[0..0 + |before|] == before;
    forall k | 0 <= k < |before|
      ensures !OpensAt(s, k, name)
    {
      PartsOpenThemselves(s, 0, parts, k, name);
    }
  }

  lemma Regroups(a: string, b: string, c: string)
    ensures a + b + c == a + (b + c)
  {
  }

  lemma SplitAt<T>(s: seq<T>, i: nat)
    requires i < |s|
    ensures s == s[..i] + ([s[i]] + s[i + 1..])
  {
  }

  lemma BlockSplits(parts: seq<Part>, i: nat)
    requires i < |parts|
    ensures Block(parts) == Block(parts[..i]) + parts[i].Shown() + Block(parts[i + 1..])
  {
    hide *;
    var a, p, b := parts[..i], parts[i], parts[i + 1..];
    SplitAt(parts, i);
    BlockJoins(a, [p] + b);
    BlockIs([p] + b);
    assert ([p] + b)[1..] == b;
    Regroups(Block(a), p.Shown(), Block(b));
  }

  lemma WholeIs(part: Part)
    requires part.Whole?
    ensures part.Shown() == part.element.Rendered() && (part.Valid() ==> part.element.Valid())
    ensures part.Valid() ==> IsName(part.element.name)
  {
    hide Element.Rendered, IsName;
  }

  /** A field no element is taken for is not there. */
  lemma NoField(parts: seq<Part>, name: string)
    requires IsName(name)
    requires forall k :: 0 <= k < |parts| ==> parts[k].Valid() && !parts[k].IsTakenFor(name)
    ensures Tag(Block(parts), name) == None
  {
    hide *;
    var s := Block(parts);
    forall k | 0 <= k < |s|
      ensures !OpensAt(s, k, name)
    {
      assert s[0..0 + |s|] == s;
      PartsOpenThemselves(s, 0, parts, k, name);
    }
    TextSkips(s, name, 0, |s|);
    NothingAtTheEnd(s, name);
    TagIs(s, name);
  }

  lemma NothingAtTheEnd(s: string, name: string)
    ensures TextFrom(s, name, |s|) == None
  {
  }

  // ---- What others write

  /** A text is nowhere in another. */
  ghost predicate IsNowhere(s: string, from: string) {
    forall i :: 0 <= i < |s| ==> !(from <= s[i..])
  }

  lemma {:induction false} NothingToReplace(s: string, from: string, to: string)
    requires from != [] && IsNowhere(s, from)
    ensures Replaced(s, from, to) == s
  {
    if s != [] {
      assert s[0..] == s;
      forall i | 0 <= i < |s[1..]|
        ensures !(from <= s[1..][i..])
      {
        assert s[1..][i..] == s[i + 1..];
      }
      NothingToReplace(s[1..], from, to);
    }
  }

  lemma NowhereWithout(s: string, from: string)
    requires from != [] && from[0] !in s
    ensures IsNowhere(s, from)
  {
    forall i | 0 <= i < |s|
      ensures !(from <= s[i..])
    {
      assert s[i..][0] == s[i];
    }
  }

  lemma {:induction false} ReplacedOnce(s: string, from: string, to: string, t: string)
    requires from != [] && from[0] !in s && from[0] !in t
    ensures Replaced(s + from + t, from, to) == s + to + t
  {
    var whole := s + from + t;
    if s == [] {
      assert whole == from + t && whole[|from|..] == t;
      assert s + to + t == to + t;
      NowhereWithout(t, from);
      NothingToReplace(t, from, to);
    } else {
      OneCharacterOn(s, from, t);
      OneCharacterOn(s, to, t);
      ReplacedOnce(s[1..], from, to, t);
    }
  }

  lemma OneCharacterOn(s: string, middle: string, t: string)
    requires s != []
    ensures var whole := s + middle + t;
            whole[0] == s[0] && whole[1..] == s[1..] + middle + t && whole == [s[0]] + whole[1..]
  {
    assert s == [s[0]] + s[1..];
  }

  /** What a CDATA section holds is its text. */
  lemma SectionIsItsText(s: string)
    requires '&' !in s
    ensures Decoded(CDATA + s + CDATA_END) == s
  {
    var section := CDATA + s + CDATA_END;
    assert section[|CDATA|..|section| - |CDATA_END|] == s;
    assert section[|section| - |CDATA_END|..] == CDATA_END;
    assert Uncased(section) == s;
    AmpersandsOnly(s);
  }

  /** Text without an ampersand stays as it is. */
  lemma AmpersandsOnly(s: string)
    requires '&' !in s
    ensures Replaced(Replaced(Replaced(Replaced(Replaced(s, LT, "<"), GT, ">"), QUOT, "\""), APOS, "'"), AMP, "&") == s
  {
    NowhereWithout(s, LT);
    NowhereWithout(s, GT);
    NowhereWithout(s, QUOT);
    NowhereWithout(s, APOS);
    NowhereWithout(s, AMP);
    NothingToReplace(s, LT, "<");
    NothingToReplace(s, GT, ">");
    NothingToReplace(s, QUOT, "\"");
    NothingToReplace(s, APOS, "'");
    NothingToReplace(s, AMP, "&");
    hide Replaced;
  }

  /** Where the only ampersand is of one entity, another is nowhere. */
  lemma OtherIsNowhere(s: string, entity: string, other: string, t: string)
    requires '&' !in s && '&' !in t && |entity| >= 2 && |other| >= 2
    requires entity[0] == other[0] == '&' && entity[1] != other[1]
    requires forall k :: 0 < k < |entity| ==> entity[k] != '&'
    ensures IsNowhere(s + entity + t, other)
  {
    var whole := s + entity + t;
    forall i | 0 <= i < |whole|
      ensures !(other <= whole[i..])
    {
      if i == |s| {
        assert whole[i..][1] == entity[1];
      } else {
        assert whole[i..][0] == whole[i] != '&';
      }
    }
  }

  /** An apostrophe that somebody escaped is read as one, though it is never escaped here. */
  lemma ApostropheIsRead(s: string, t: string)
    requires '&' !in s && '&' !in t && !(CDATA <= s + "&#39;" + t)
    ensures Decoded(s + "&#39;" + t) == s + "'" + t
  {
    var whole := s + "&#39;" + t;
    OtherIsNowhere(s, "&#39;", LT, t);
    OtherIsNowhere(s, "&#39;", GT, t);
    OtherIsNowhere(s, "&#39;", QUOT, t);
    NothingToReplace(whole, LT, "<");
    NothingToReplace(whole, GT, ">");
    NothingToReplace(whole, QUOT, "\"");
    ReplacedOnce(s, "&#39;", "'", t);
    NowhereWithout(s + "'" + t, AMP);
    NothingToReplace(s + "'" + t, AMP, "&");
    hide Replaced;
  }
}
