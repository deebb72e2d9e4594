/** Whole messages: fences, headings and inline lines, rendered line by line. */
module Document {
  import opened Base
  import opened Html
  import opened Tokens
  import Inline

  const MIN_FENCE: nat := 3

  // ----- lines -----

  /** strings.Split on newline: always at least one line. */
  function Lines(s: string): (r: seq<string>)
    ensures r != []
  {
    if s == "" then [""]
    else if s[0] == '\n' then [""] + Lines(s[1..])
    else var r := Lines(s[1..]); [[s[0]] + r[0]] + r[1..]
  }

  function Join(lines: seq<string>): string {
    if lines == [] then "" else if |lines| == 1 then lines[0] else lines[0] + "\n" + Join(lines[1..])
  }

  /** strings.ReplaceAll of CRLF by LF. */
  function Normalized(s: string): string {
    if s == "" then ""
    else if |s| >= 2 && s[0] == '\r' && s[1] == '\n' then "\n" + Normalized(s[2..])
    else [s[0]] + Normalized(s[1..])
  }

  /** No CRLF at `i`, nor anywhere else. */
  predicate NoCrlf(s: string) {
    forall i :: 0 <= i < |s| - 1 ==> !(s[i] == '\r' && s[i + 1] == '\n')
  }

  /** Text up to the first CRLF stays as it is, the CRLF becomes a newline, and so on. */
  lemma {:induction false} NormalizedMeans(a: string, b: string)
    requires NoCrlf(a)
    ensures Normalized(a) == a
    ensures Normalized(a + "\r\n" + b) == a + "\n" + Normalized(b)
  {
    var s := a + "\r\n" + b;
    if a == "" {
      assert s[2..] == b;
    } else {
      var rest := a[1..] + "\r\n" + b;
      assert NoCrlf(a[1..]) by { assert forall i :: 0 <= i < |a| - 1 ==> a[1..][i] == a[i + 1]; }
      NormalizedMeans(a[1..], b);
      NotYet(a, rest);
      assert a == [a[0]] + a[1..] && s == [a[0]] + rest;
      assert [a[0]] + (a[1..] + "\n" + Normalized(b)) == a + "\n" + Normalized(b);
    }
  }

  lemma NotYet(a: string, rest: string)
    requires a != "" && NoCrlf(a) && a[1..] <= rest && (|a| == 1 ==> rest != "" && rest[0] == '\r')
    ensures Normalized([a[0]] + rest) == [a[0]] + Normalized(rest)
    ensures Normalized(a) == [a[0]] + Normalized(a[1..])
  {
    var s := [a[0]] + rest;
    assert s[1..] == rest && (|a| > 1 ==> rest[0] == a[1..][0] == a[1]);
  }

  /** The lines hold no newline. */
  lemma {:induction false} LinesAreLines(s: string)
    ensures forall l :: l in Lines(s) ==> '\n' !in l
  {
    if s != "" { LinesAreLines(s[1..]); }
  }

  predicate Backtick(c: char) { c == '`' }

  predicate Blank(c: char) { c == ' ' || c == '\t' }

  // ----- fences and headings -----

  /** The language (empty when unusable) and run length of a fence the line opens. */
  function FenceStart(cc: CharClass, line: string): Option<(string, nat)> {
    var t := Trim(line, cc.isSpace);
    var rest := TrimLeft(t, Backtick);
    var size := |t| - |rest|;
    var info := Trim(rest, cc.isSpace);
    if size < MIN_FENCE || '`' in info then None
    else Some((if IsLang(info) then info else "", size))
  }

  predicate IsFenceEnd(cc: CharClass, line: string, size: nat) {
    var t := Trim(line, cc.isSpace);
    |t| >= size && Trim(t, Backtick) == ""
  }

  function Hashes(s: string): (n: nat)
    ensures n <= |s|
  {
    if s != "" && s[0] == '#' then 1 + Hashes(s[1..]) else 0
  }

  /** One to six hashes, a space and at least one more character; the rest without trailing blanks. */
  function HeadingText(line: string): Option<string> {
    var n := Hashes(line);
    if 1 <= n <= 6 && n + 1 < |line| && line[n] == ' '
    then Some(TrimRight(line[n + 1..], Blank))
    else None
  }

  // ----- blocks -----

  datatype Block =
    | Fence(opener: string, lang: string, body: seq<string>, closer: seq<string>)
    | Heading(line: string, text: string)
    | Paragraph(line: string)

  /** Lines before the one that closes a fence of `size`, or all of them. */
  function BodySize(cc: CharClass, lines: seq<string>, size: nat): (n: nat)
    ensures n <= |lines|
  {
    if lines == [] || IsFenceEnd(cc, lines[0], size) then 0 else 1 + BodySize(cc, lines[1..], size)
  }

  /** A fence ends at the first line that closes it, and only there. */
  lemma {:induction false} BodyEndsAtFirstFence(cc: CharClass, lines: seq<string>, size: nat)
    ensures var n := BodySize(cc, lines, size);
      && (forall i :: 0 <= i < n ==> !IsFenceEnd(cc, lines[i], size))
      && (n < |lines| ==> IsFenceEnd(cc, lines[n], size))
  {
    hide IsFenceEnd;
    if lines != [] && !IsFenceEnd(cc, lines[0], size) { BodyEndsAtFirstFence(cc, lines[1..], size); }
  }

  function FirstBlock(cc: CharClass, lines: seq<string>): (r: (Block, nat))
    requires lines != []
    ensures 0 < r.1 <= |lines|
  {
    match FenceStart(cc, lines[0])
    case Some((lang, size)) =>
      var n := BodySize(cc, lines[1..], size);
      var closer := if n + 1 < |lines| then [lines[n + 1]] else [];
      (Fence(lines[0], lang, lines[1..n + 1], closer), n + 1 + |closer|)
    case None =>
      match HeadingText(lines[0])
      case Some(text) => (Heading(lines[0], text), 1)
      case None => (Paragraph(lines[0]), 1)
  }

  function Blocks(cc: CharClass, lines: seq<string>): seq<Block> {
    if lines == [] then []
    else
      var (b, n) := FirstBlock(cc, lines);
      [b] + Blocks(cc, lines[n..])
  }

  function LinesOf(b: Block): seq<string> {
    match b
    case Fence(opener, _, body, closer) => [opener] + body + closer
    case Heading(line, _) => [line]
    case Paragraph(line) => [line]
  }

  function AllLines(blocks: seq<Block>): seq<string> {
    if blocks == [] then [] else LinesOf(blocks[0]) + AllLines(blocks[1..])
  }

  lemma FirstBlockLines(cc: CharClass, lines: seq<string>)
    requires lines != []
    ensures LinesOf(FirstBlock(cc, lines).0) == lines[..FirstBlock(cc, lines).1]
  {
    match FenceStart(cc, lines[0])
    case Some((_, size)) =>
      var n := BodySize(cc, lines[1..], size);
      assert lines[..n + 1] == [lines[0]] + lines[1..n + 1];
      if n + 1 < |lines| {
        assert lines[..n + 2] == lines[..n + 1] + [lines[n + 1]];
      }
    case None =>
  }

  lemma AllLinesCons(b: Block, rest: seq<Block>)
    ensures AllLines([b] + rest) == LinesOf(b) + AllLines(rest)
  {
    assert ([b] + rest)[1..] == rest;
  }

  lemma NoLines(cc: CharClass)
    ensures AllLines(Blocks(cc, [])) == []
  {
  }

  /** Every line of the message belongs to exactly one block, in order. */
  lemma {:induction false} BlocksCoverTheMessage(cc: CharClass, lines: seq<string>)
    ensures AllLines(Blocks(cc, lines)) == lines
  {
    if lines != [] {
      hide FirstBlock, LinesOf, AllLines;
      var (b, n) := FirstBlock(cc, lines);
      calc {
        AllLines(Blocks(cc, lines));
        AllLines([b] + Blocks(cc, lines[n..]));
        { AllLinesCons(b, Blocks(cc, lines[n..])); }
        LinesOf(b) + AllLines(Blocks(cc, lines[n..]));
        { FirstBlockLines(cc, lines); BlocksCoverTheMessage(cc, lines[n..]); }
        lines[..n] + lines[n..];
        lines;
      }
    } else {
      NoLines(cc);
    }
  }

  // ----- which lines are fences and headings -----

  /** What unicode.IsSpace says of backticks, hashes and the characters of a language name. */
  ghost predicate Sane(cc: CharClass) {
    !cc.isSpace('`') && !cc.isSpace('#') && forall c :: LangChar(c) ==> !cc.isSpace(c)
  }

  /** A line closes a fence exactly when, trimmed, it is nothing but at least as many backticks. */
  lemma FenceEndIff(cc: CharClass, line: string, size: nat)
    ensures IsFenceEnd(cc, line, size) <==>
      exists m: nat :: m >= size && Trim(line, cc.isSpace) == Repeat('`', m)
  {
    var t := Trim(line, cc.isSpace);
    TrimmedAway(t, Backtick);
    if IsFenceEnd(cc, line, size) { assert t == Repeat('`', |t|); }
  }

  /** A run of `m` backticks closes a fence of `size` exactly when it is no shorter. */
  lemma LongerRunsClose(cc: CharClass, m: nat, size: nat)
    requires Sane(cc) && size > 0
    ensures IsFenceEnd(cc, Repeat('`', m), size) <==> m >= size
  {
    var t := Repeat('`', m);
    TrimNothing(t, cc.isSpace);
    TrimmedAway(t, Backtick);
  }

  /** A run of three or more backticks and a language opens a fence of that length. */
  lemma FenceOpens(cc: CharClass, n: nat, lang: string)
    requires Sane(cc) && n >= MIN_FENCE && (lang == "" || IsLang(lang))
    ensures FenceStart(cc, Repeat('`', n) + lang) == Some((lang, n))
  {
    var t := Repeat('`', n) + lang;
    assert t[0] == '`' && t[|t| - 1] == (if lang == "" then '`' else lang[|lang| - 1]);
    TrimNothing(t, cc.isSpace);
    TrimLeftRun('`', n, lang, Backtick);
    TrimNothing(lang, cc.isSpace);
  }

  predicate IsOpener(cc: CharClass, line: string, n: nat, info: string) {
    n >= 3 && Trim(line, cc.isSpace) == Repeat('`', n) + info && '`' !in info
  }

  function LangOf(cc: CharClass, info: string): string {
    var lang := Trim(info, cc.isSpace);
    if IsLang(lang) then lang else ""
  }

  lemma OpenerOpens(cc: CharClass, line: string, n: nat, info: string)
    requires Sane(cc) && IsOpener(cc, line, n, info)
    ensures FenceStart(cc, line) == Some((LangOf(cc, info), n))
  {
    hide IsLang, Trim, TrimLeft, Repeat;
    TrimLeftRun('`', n, info, Backtick);
    TrimKeeps(info, cc.isSpace, '`');
  }

  lemma OpenersOpen(cc: CharClass, line: string)
    requires Sane(cc) && FenceStart(cc, line).Some?
    ensures exists info :: IsOpener(cc, line, FenceStart(cc, line).value.1, info)
  {
    hide IsLang, Trim, TrimLeft, Repeat;
    var t := Trim(line, cc.isSpace);
    var rest := TrimLeft(t, Backtick);
    TrimLeftSplits(t, Backtick, '`');
    TrimKeeps(rest, cc.isSpace, '`');
    assert IsOpener(cc, line, |t| - |rest|, rest);
  }

  /**
   Trimmed, an opener is a run of three or more backticks and an info string without any; the language
   is the info string when that is usable as one.
   */
  lemma FenceStartIff(cc: CharClass, line: string, n: nat, lang: string)
    requires Sane(cc)
    ensures FenceStart(cc, line) == Some((lang, n)) <==>
      exists info :: IsOpener(cc, line, n, info) && lang == LangOf(cc, info)
  {
    hide FenceStart, IsOpener, LangOf;
    if FenceStart(cc, line) == Some((lang, n)) {
      OpenersOpen(cc, line);
      var info :| IsOpener(cc, line, n, info);
      OpenerOpens(cc, line, n, info);
    }
    if info :| IsOpener(cc, line, n, info) && lang == LangOf(cc, info) { OpenerOpens(cc, line, n, info); }
  }

  lemma {:induction false} TrimLeftSplits(s: string, cut: char -> bool, c: char)
    requires forall x :: cut(x) <==> x == c
    ensures s == Repeat(c, |s| - |TrimLeft(s, cut)|) + TrimLeft(s, cut)
  {
    if s != "" && s[0] == c { TrimLeftSplits(s[1..], cut, c); }
  }

  /** Trimming keeps every character it does not cut. */
  lemma TrimKeeps(s: string, cut: char -> bool, c: char)
    requires !cut(c)
    ensures c in Trim(s, cut) <==> c in s
  {
    TrimLeftKeepsChar(s, cut, c);
    TrimRightKeepsChar(TrimLeft(s, cut), cut, c);
  }

  lemma {:induction false} TrimLeftKeepsChar(s: string, cut: char -> bool, c: char)
    requires !cut(c)
    ensures c in TrimLeft(s, cut) <==> c in s
  {
    if s != "" && cut(s[0]) {
      TrimLeftKeepsChar(s[1..], cut, c);
      assert s == [s[0]] + s[1..];
    }
  }

  lemma {:induction false} TrimRightKeepsChar(s: string, cut: char -> bool, c: char)
    requires !cut(c)
    ensures c in TrimRight(s, cut) <==> c in s
  {
    if s != "" && cut(s[|s| - 1]) {
      TrimRightKeepsChar(s[..|s| - 1], cut, c);
      assert s == s[..|s| - 1] + [s[|s| - 1]];
    }
  }

  lemma {:induction false} BodySizeIs(cc: CharClass, body: seq<string>, rest: seq<string>, size: nat)
    requires forall i :: 0 <= i < |body| ==> !IsFenceEnd(cc, body[i], size)
    requires rest != [] ==> IsFenceEnd(cc, rest[0], size)
    ensures BodySize(cc, body + rest, size) == |body|
  {
    hide IsFenceEnd;
    if body == [] {
      assert body + rest == rest;
    } else {
      assert (body + rest)[0] == body[0] && (body + rest)[1..] == body[1..] + rest;
      BodySizeIs(cc, body[1..], rest, size);
    }
  }

  lemma FenceLines(opener: string, body: seq<string>, closer: seq<string>, rest: seq<string>)
    ensures var (lines, n) := ([opener] + (body + (closer + rest)), |body|);
      && |lines| == 1 + n + |closer| + |rest| && lines[0] == opener
      && lines[1..] == body + (closer + rest) && lines[1..n + 1] == body
      && lines[n + 1..] == closer + rest && lines[n + 1 + |closer|..] == rest
      && (closer != [] ==> lines[n + 1] == closer[0])
  {
  }

  lemma FenceTaken(
      cc: CharClass, opener: string, lang: string, size: nat, body: seq<string>, closer: seq<string>,
      rest: seq<string>)
    requires FenceStart(cc, opener) == Some((lang, size)) && BodySize(cc, body + (closer + rest), size) == |body|
    requires |closer| <= 1 && (closer == [] ==> rest == [])
    ensures Blocks(cc, [opener] + (body + (closer + rest))) == [Fence(opener, lang, body, closer)] + Blocks(cc, rest)
  {
    hide IsFenceEnd, FenceStart, BodySize, HeadingText;
    var lines := [opener] + (body + (closer + rest));
    FenceLines(opener, body, closer, rest);
    var n := |body| + 1;
    assert closer == if n < |lines| then [lines[n]] else [];
    assert FirstBlock(cc, lines) == (Fence(opener, lang, body, closer), n + |closer|);
    assert lines[n + |closer|..] == rest;
  }

  /**
   The rule of section 4.5 of CommonMark: a fence keeps every line that does not close it, shorter fences
   included, and ends at the first line that does; what follows is read afresh.
   */
  lemma FencedCodeIsVerbatim(
      cc: CharClass, opener: string, lang: string, n: nat, body: seq<string>, closer: string, rest: seq<string>)
    requires FenceStart(cc, opener) == Some((lang, n)) && IsFenceEnd(cc, closer, n)
    requires forall i :: 0 <= i < |body| ==> !IsFenceEnd(cc, body[i], n)
    ensures Blocks(cc, [opener] + (body + ([closer] + rest))) ==
            [Fence(opener, lang, body, [closer])] + Blocks(cc, rest)
  {
    BodySizeIs(cc, body, [closer] + rest, n);
    FenceTaken(cc, opener, lang, n, body, [closer], rest);
  }

  /** A fence nothing closes runs to the end of the message. */
  lemma UnclosedFenceTakesTheRest(cc: CharClass, opener: string, lang: string, n: nat, body: seq<string>)
    requires FenceStart(cc, opener) == Some((lang, n))
    requires forall i :: 0 <= i < |body| ==> !IsFenceEnd(cc, body[i], n)
    ensures Blocks(cc, [opener] + body) == [Fence(opener, lang, body, [])]
  {
    BodySizeIs(cc, body, [], n);
    var none: seq<string> := [];
    assert none + none == none && body + none == body;
    FenceTaken(cc, opener, lang, n, body, none, none);
    assert Blocks(cc, []) == [];
  }

  /** Spelled out: `n` backticks and a language, and `m >= n` backticks, fence whatever does not close them. */
  lemma SpelledFence(cc: CharClass, n: nat, lang: string, body: seq<string>, m: nat, rest: seq<string>)
    requires Sane(cc) && MIN_FENCE <= n <= m && (lang == "" || IsLang(lang))
    requires forall i :: 0 <= i < |body| ==> !IsFenceEnd(cc, body[i], n)
    ensures var (opener, closer) := (Repeat('`', n) + lang, Repeat('`', m));
      Blocks(cc, [opener] + (body + ([closer] + rest))) == [Fence(opener, lang, body, [closer])] + Blocks(cc, rest)
  {
    FenceOpens(cc, n, lang);
    LongerRunsClose(cc, m, n);
    FencedCodeIsVerbatim(cc, Repeat('`', n) + lang, lang, n, body, Repeat('`', m), rest);
  }

  lemma {:induction false} HashesOf(n: nat, rest: string)
    requires rest != "" ==> rest[0] != '#'
    ensures Hashes(Repeat('#', n) + rest) == n
  {
    var s := Repeat('#', n) + rest;
    if n == 0 {
      assert s == rest;
    } else {
      assert s[1..] == Repeat('#', n - 1) + rest;
      HashesOf(n - 1, rest);
    }
  }

  lemma {:induction false} HashesSplit(s: string)
    ensures s == Repeat('#', Hashes(s)) + s[Hashes(s)..]
  {
    if s != "" && s[0] == '#' {
      HashesSplit(s[1..]);
      assert s == [s[0]] + s[1..];
    }
  }

  /** `n` hashes, a space and text. */
  predicate SpellsHeading(line: string, n: nat, text: string) {
    1 <= n <= 6 && text != "" && line == Repeat('#', n) + (" " + text)
  }

  /** A line that opens no fence is a heading if and only if it is one to six hashes, a space and some text. */
  lemma HeadingIff(cc: CharClass, line: string)
    requires FenceStart(cc, line).None?
    ensures FirstBlock(cc, [line]).0.Heading? <==> exists n: nat, text :: SpellsHeading(line, n, text)
  {
    hide FenceStart, Repeat, TrimRight;
    HashesSplit(line);
    var k := Hashes(line);
    if FirstBlock(cc, [line]).0.Heading? {
      assert line[k..] == " " + line[k + 1..];
      assert SpellsHeading(line, k, line[k + 1..]);
    }
    if n: nat, text :| SpellsHeading(line, n, text) {
      HashesOf(n, " " + text);
      assert |line| == n + 1 + |text| && line[n] == ' ';
    }
  }

  /** `t` is `text` without the blanks and tabs at its end. */
  ghost predicate WithoutEnd(text: string, t: string) {
    && (t != "" ==> t[|t| - 1] != ' ' && t[|t| - 1] != '\t')
    && exists b :: text == t + b && forall i :: 0 <= i < |b| ==> b[i] == ' ' || b[i] == '\t'
  }

  lemma HeadingEnd(text: string)
    ensures WithoutEnd(text, TrimRight(text, Blank))
  {
    var b := TrimRightMeans(text, Blank);
    assert text == TrimRight(text, Blank) + b;
  }

  /** Hashes, a space and text are a heading exactly up to level six; without the space they never are. */
  lemma HeadingLevels(cc: CharClass, n: nat, text: string)
    requires Sane(cc) && n >= 1
    ensures var line := Repeat('#', n) + (" " + text);
      var b := FirstBlock(cc, [line]).0;
      if n <= 6 && text != "" then b.Heading? && b.line == line && WithoutEnd(text, b.text) else b == Paragraph(line)
    ensures (text != "" ==> text[0] != ' ' && text[0] != '#') ==>
      FirstBlock(cc, [Repeat('#', n) + text]).0 == Paragraph(Repeat('#', n) + text)
  {
    NoFenceAtHash(cc, n, " " + text);
    NoFenceAtHash(cc, n, text);
    HashesOf(n, " " + text);
    HeadingEnd(text);
    hide FenceStart, Repeat, Hashes, WithoutEnd, TrimRight;
    var line := Repeat('#', n) + (" " + text);
    assert |Repeat('#', n)| == n;
    assert line[n] == ' ' && line[n + 1..] == text;
    if text != "" ==> text[0] != ' ' && text[0] != '#' {
      HashesOf(n, text);
      assert text != "" ==> (Repeat('#', n) + text)[n] == text[0];
    }
  }

  lemma NoFenceAtHash(cc: CharClass, n: nat, rest: string)
    requires Sane(cc) && n >= 1
    ensures FenceStart(cc, Repeat('#', n) + rest).None?
  {
    var line := Repeat('#', n) + rest;
    assert line[0] == '#';
    assert TrimLeft(line, cc.isSpace) == line;
    TrimRightFirst(line, cc.isSpace);
  }

  lemma {:induction false} TrimRightFirst(s: string, cut: char -> bool)
    requires s != "" && !cut(s[0])
    ensures TrimRight(s, cut) != "" && TrimRight(s, cut)[0] == s[0]
  {
    if cut(s[|s| - 1]) { TrimRightFirst(s[..|s| - 1], cut); }
  }

  // ----- pieces of a block -----

  predicate IsBold(p: Piece) { p == Open(Bold) || p == Close(NameB) }

  /** boldStripper on pieces. */
  function Unbolded(ps: seq<Piece>): seq<Piece> {
    if ps == [] then [] else Kept(ps[0]) + Unbolded(ps[1..])
  }

  function Kept(p: Piece): seq<Piece> {
    if IsBold(p) then [] else [p]
  }

  lemma UnboldedCons(p: Piece, rest: seq<Piece>)
    ensures Unbolded([p] + rest) == if IsBold(p) then Unbolded(rest) else [p] + Unbolded(rest)
  {
    assert ([p] + rest)[1..] == rest;
    assert [] + Unbolded(rest) == Unbolded(rest);
  }

  lemma {:induction false} UnboldedHolds(ps: seq<Piece>)
    ensures forall p :: p in Unbolded(ps) <==> p in ps && !IsBold(p)
  {
    if ps != [] {
      UnboldedHolds(ps[1..]);
      assert ps == [ps[0]] + ps[1..];
    }
  }

  function PiecesOf(cc: CharClass, b: Block): seq<Piece> {
    match b
    case Fence(_, lang, body, _) =>
      var text := Texts(Join(body));
      Wrap(Pre, if lang == "" then text else Wrap(LangCode(lang), text))
    case Heading(_, text) => Wrap(Bold, Unbolded(Inline.Rendered(cc, text, false)))
    case Paragraph(line) => Inline.Rendered(cc, line, false)
  }

  /** The markdown a block is read back as. */
  function SourceOf(cc: CharClass, b: Block): string
    requires ValidBlock(b)
  {
    match b
    case Fence(_, _, body, _) => Join(body)
    case Heading(_, text) => HeadingKept(cc, text); "**" + Source(Unbolded(Inline.Rendered(cc, text, false))) + "**"
    case Paragraph(line) => line
  }

  function JoinPieces(cc: CharClass, blocks: seq<Block>): seq<Piece> {
    if blocks == [] then []
    else if |blocks| == 1 then PiecesOf(cc, blocks[0])
    else PiecesOf(cc, blocks[0]) + ([Text('\n')] + JoinPieces(cc, blocks[1..]))
  }

  function SourcesOf(cc: CharClass, blocks: seq<Block>): seq<string>
    requires forall b :: b in blocks ==> ValidBlock(b)
  {
    if blocks == [] then [] else [SourceOf(cc, blocks[0])] + SourcesOf(cc, blocks[1..])
  }

  predicate ValidBlock(b: Block) {
    b.Fence? ==> b.lang == "" || IsLang(b.lang)
  }

  lemma {:induction false} BlocksAreValid(cc: CharClass, lines: seq<string>)
    ensures forall b :: b in Blocks(cc, lines) ==> ValidBlock(b)
  {
    if lines != [] { BlocksAreValid(cc, lines[FirstBlock(cc, lines).1..]); }
  }

  // ----- dropping bold keeps a fragment whole -----

  function NoBold(open: seq<Tag>): seq<Tag> {
    if open == [] then []
    else
      var below, top := open[..|open| - 1], open[|open| - 1];
      if top == Bold then NoBold(below) else NoBold(below) + [top]
  }

  lemma NoBoldPush(open: seq<Tag>, t: Tag)
    ensures NoBold(open + [t]) == if t == Bold then NoBold(open) else NoBold(open) + [t]
  {
    assert (open + [t])[..|open|] == open;
  }

  lemma {:induction false} NoBoldHolds(open: seq<Tag>, i: nat)
    requires i < |NoBold(open)|
    ensures NoBold(open)[i] in open
  {
    var below := open[..|open| - 1];
    assert open == below + [open[|open| - 1]];
    if i < |NoBold(below)| { NoBoldHolds(below, i); }
  }

  lemma NoBoldMayOpen(open: seq<Tag>, t: Tag)
    requires IsInline(t) && MayOpen(open, t)
    ensures MayOpen(NoBold(open), t)
  {
    forall i | 0 <= i < |NoBold(open)| ensures NoBold(open)[i] in open { NoBoldHolds(open, i); }
  }

  /** `t` is `s` with `n` pairs of asterisks cut out and everything else in place. */
  predicate StarsCut(s: string, t: string, n: nat)
    decreases |s|
  {
    || (s == "" && t == "" && n == 0)
    || (s != "" && t != "" && s[0] == t[0] && StarsCut(s[1..], t[1..], n))
    || (n > 0 && "**" <= s && StarsCut(s[2..], t, n - 1))
  }

  lemma {:induction false} StarsCutAfter(a: string, s: string, t: string, n: nat)
    requires StarsCut(s, t, n)
    ensures StarsCut(a + s, a + t, n)
  {
    if a == "" {
      assert a + s == s && a + t == t;
    } else {
      StarsCutAfter(a[1..], s, t, n);
      assert (a + s)[0] == (a + t)[0] && (a + s)[1..] == a[1..] + s && (a + t)[1..] == a[1..] + t;
    }
  }

  lemma OneMoreCut(s: string, t: string, n: nat)
    requires StarsCut(s, t, n)
    ensures StarsCut("**" + s, t, n + 1)
  {
    assert ("**" + s)[2..] == s;
  }

  function NoStars(s: string): string {
    if s == "" then "" else if s[0] == '*' then NoStars(s[1..]) else [s[0]] + NoStars(s[1..])
  }

  /** Nothing but asterisks is lost, and exactly two for each pair. */
  lemma {:induction false} OnlyStarsCut(s: string, t: string, n: nat)
    requires StarsCut(s, t, n)
    ensures NoStars(s) == NoStars(t) && |s| == |t| + 2 * n
    decreases |s|
  {
    if s != "" && t != "" && s[0] == t[0] && StarsCut(s[1..], t[1..], n) {
      OnlyStarsCut(s[1..], t[1..], n);
    } else if s != "" {
      OnlyStarsCut(s[2..], t, n - 1);
      assert s[1..][1..] == s[2..];
    }
  }

  function BoldTags(ps: seq<Piece>): nat {
    if ps == [] then 0 else (if IsBold(ps[0]) then 1 else 0) + BoldTags(ps[1..])
  }

  lemma BoldTagsCons(p: Piece, rest: seq<Piece>)
    ensures BoldTags([p] + rest) == (if IsBold(p) then 1 else 0) + BoldTags(rest)
  {
    assert ([p] + rest)[1..] == rest;
  }

  /** Without its bold tags a fragment stays nested and reads the same but for a pair of asterisks per tag. */
  predicate ReadsWithoutBold(ps: seq<Piece>, open: seq<Tag>)
    requires Read(ps, open).Some?
  {
    var (s, end) := Read(ps, open).value;
    var r := Read(Unbolded(ps), NoBold(open));
    r.Some? && r.value.1 == NoBold(end) && StarsCut(s, r.value.0, BoldTags(ps))
  }

  lemma UnboldedText(c: char, rest: seq<Piece>, open: seq<Tag>)
    requires Read(rest, open).Some? && ReadsWithoutBold(rest, open)
    ensures Read([Text(c)] + rest, open).Some? && ReadsWithoutBold([Text(c)] + rest, open)
  {
    hide Read, Unbolded, NoBold, StarsCut, BoldTags;
    ReadText(c, rest, open);
    ReadText(c, Unbolded(rest), NoBold(open));
    UnboldedCons(Text(c), rest);
    BoldTagsCons(Text(c), rest);
    StarsCutAfter([c], Read(rest, open).value.0, Read(Unbolded(rest), NoBold(open)).value.0, BoldTags(rest));
  }

  lemma UnboldedOpen(t: Tag, rest: seq<Piece>, open: seq<Tag>)
    requires IsInline(t) && MayOpen(open, t)
    requires Read(rest, open + [t]).Some? && ReadsWithoutBold(rest, open + [t])
    ensures Read([Open(t)] + rest, open).Some? && ReadsWithoutBold([Open(t)] + rest, open)
  {
    hide Read, Unbolded, NoBold, MayOpen, StarsCut, BoldTags;
    ReadOpen(t, rest, open);
    UnboldedCons(Open(t), rest);
    BoldTagsCons(Open(t), rest);
    NoBoldPush(open, t);
    var s, u := Read(rest, open + [t]).value.0, Read(Unbolded(rest), NoBold(open + [t])).value.0;
    if t == Bold {
      OneMoreCut(s, u, BoldTags(rest));
    } else {
      NoBoldMayOpen(open, t);
      ReadOpen(t, Unbolded(rest), NoBold(open));
      StarsCutAfter(OpenMark(t), s, u, BoldTags(rest));
    }
  }

  lemma UnboldedClose(top: Tag, rest: seq<Piece>, below: seq<Tag>)
    requires Read(rest, below).Some? && ReadsWithoutBold(rest, below)
    ensures var p, open := Close(NameOf(top)), below + [top];
      Read([p] + rest, open).Some? && ReadsWithoutBold([p] + rest, open)
  {
    hide Read, Unbolded, NoBold, StarsCut, BoldTags;
    ReadClose(top, rest, below);
    UnboldedCons(Close(NameOf(top)), rest);
    BoldTagsCons(Close(NameOf(top)), rest);
    NoBoldPush(below, top);
    var s, u := Read(rest, below).value.0, Read(Unbolded(rest), NoBold(below)).value.0;
    if top == Bold {
      OneMoreCut(s, u, BoldTags(rest));
    } else {
      ReadClose(top, Unbolded(rest), NoBold(below));
      StarsCutAfter(CloseMark(top), s, u, BoldTags(rest));
    }
  }

  /** Dropping every bold tag leaves a fragment well nested and cuts exactly their markers from its text. */
  lemma {:induction false} ReadUnbolded(ps: seq<Piece>, open: seq<Tag>)
    requires NoBlocks(ps) && Read(ps, open).Some?
    ensures ReadsWithoutBold(ps, open)
  {
    if ps != [] {
      var rest := ps[1..];
      assert ps == [ps[0]] + rest;
      match ps[0]
      case Text(c) =>
        ReadUnbolded(rest, open);
        UnboldedText(c, rest, open);
      case Open(t) =>
        ReadUnbolded(rest, open + [t]);
        UnboldedOpen(t, rest, open);
      case Close(_) =>
        var below, top := open[..|open| - 1], open[|open| - 1];
        assert open == below + [top];
        ReadUnbolded(rest, below);
        UnboldedClose(top, rest, below);
    }
  }

  /**
   A heading's inner markup without its bold is still a complete fragment, and stands for the heading's
   text with one pair of asterisks cut out for each bold tag dropped.
   */
  lemma HeadingKept(cc: CharClass, text: string)
    ensures Whole(Unbolded(Inline.Rendered(cc, text, false)))
    ensures forall p :: p in Unbolded(Inline.Rendered(cc, text, false)) ==> !IsBold(p)
    ensures var ps := Inline.Rendered(cc, text, false);
      StarsCut(text, Source(Unbolded(ps)), BoldTags(ps))
  {
    hide Inline.Rendered, StarsCut, Unbolded, BoldTags, Read;
    var ps := Inline.Rendered(cc, text, false);
    Inline.RenderingIsLossless(cc, text, false);
    ReadUnbolded(ps, []);
    UnboldedHolds(ps);
    var u := Unbolded(ps);
    forall i | 0 <= i < |u| && u[i].Open? ensures IsInline(u[i].tag) {
      assert u[i] in ps;
    }
  }

  // ----- the whole message -----

  lemma {:induction false} ReadTexts(s: string, open: seq<Tag>)
    ensures Read(Texts(s), open) == Some((s, open))
  {
    if s != "" {
      ReadTexts(s[1..], open);
      assert Texts(s)[1..] == Texts(s[1..]) && s == [s[0]] + s[1..];
    }
  }

  lemma FenceReads(lang: string, body: string)
    ensures var text := Texts(body);
      Read(Wrap(Pre, if lang == "" then text else Wrap(LangCode(lang), text)), []) == Some((body, []))
  {
    var text := Texts(body);
    assert [] + [Pre] == [Pre];
    assert "" + body + "" == body;
    if lang == "" {
      ReadTexts(body, [Pre]);
      WrapRead(Pre, text, body, []);
    } else {
      ReadTexts(body, [Pre] + [LangCode(lang)]);
      WrapRead(LangCode(lang), text, body, [Pre]);
      WrapRead(Pre, Wrap(LangCode(lang), text), body, []);
    }
  }

  /** Every block reads back, alone, as what it must. */
  lemma BlockReads(cc: CharClass, b: Block)
    requires ValidBlock(b)
    ensures Read(PiecesOf(cc, b), []) == Some((SourceOf(cc, b), []))
    ensures Spellable(PiecesOf(cc, b))
  {
    match b
    case Fence(_, lang, body, _) =>
      FenceReads(lang, Join(body));
    case Heading(_, text) =>
      HeadingKept(cc, text);
      WholeWrap(Bold, Unbolded(Inline.Rendered(cc, text, false)));
    case Paragraph(line) =>
      Inline.RenderingIsLossless(cc, line, false);
  }

  lemma {:induction false} JoinReads(cc: CharClass, blocks: seq<Block>)
    requires forall b :: b in blocks ==> ValidBlock(b)
    ensures Read(JoinPieces(cc, blocks), []) == Some((Join(SourcesOf(cc, blocks)), []))
    ensures Spellable(JoinPieces(cc, blocks))
  {
    if blocks != [] {
      BlockReads(cc, blocks[0]);
      var first := SourceOf(cc, blocks[0]);
      if |blocks| == 1 {
        assert SourcesOf(cc, blocks) == [first] + SourcesOf(cc, []);
      } else {
        JoinReads(cc, blocks[1..]);
        var rest := JoinPieces(cc, blocks[1..]);
        var tail := [Text('\n')] + rest;
        assert tail[1..] == rest;
        ReadConcat(PiecesOf(cc, blocks[0]), tail, []);
        var sources := SourcesOf(cc, blocks);
        assert sources[1..] == SourcesOf(cc, blocks[1..]) && |sources| > 1;
        ConcatAssoc(first, "\n", Join(sources[1..]));
      }
    }
  }

  /** What a block may read back as: code and paragraphs to the letter, a heading's text but for its bold. */
  ghost predicate ReadsAs(cc: CharClass, b: Block, s: string) {
    match b
    case Fence(_, _, body, _) => s == Join(body)
    case Heading(_, text) =>
      exists t :: s == "**" + t + "**" && StarsCut(text, t, BoldTags(Inline.Rendered(cc, text, false)))
    case Paragraph(line) => s == line
  }

  ghost predicate AllReadAs(cc: CharClass, blocks: seq<Block>, sources: seq<string>) {
    |sources| == |blocks| && forall i :: 0 <= i < |blocks| ==> ReadsAs(cc, blocks[i], sources[i])
  }

  lemma SourceReadsAs(cc: CharClass, b: Block)
    requires ValidBlock(b)
    ensures ReadsAs(cc, b, SourceOf(cc, b))
  {
    hide Inline.Rendered, StarsCut, BoldTags, Unbolded;
    if b.Heading? {
      HeadingKept(cc, b.text);
      var t := Source(Unbolded(Inline.Rendered(cc, b.text, false)));
      assert SourceOf(cc, b) == "**" + t + "**";
    }
  }

  lemma {:induction false} SourcesReadAs(cc: CharClass, blocks: seq<Block>)
    requires forall b :: b in blocks ==> ValidBlock(b)
    ensures AllReadAs(cc, blocks, SourcesOf(cc, blocks))
  {
    hide ReadsAs, SourceOf;
    if blocks != [] {
      SourceReadsAs(cc, blocks[0]);
      SourcesReadAs(cc, blocks[1..]);
    }
  }

  /** The pieces Render spells out for a message. */
  function Rendering(cc: CharClass, text: string): seq<Piece> {
    JoinPieces(cc, Blocks(cc, Lines(Normalized(text))))
  }

  /** The message as it is read back, one string a block. */
  function Sources(cc: CharClass, text: string): seq<string> {
    BlocksAreValid(cc, Lines(Normalized(text)));
    SourcesOf(cc, Blocks(cc, Lines(Normalized(text))))
  }

  /**
   Always balanced and fully escaped: lexing the html finds no stray `<`, `>` or `&`, reading it
   strictly closes everything, and what is read is the message again, block by block: code and
   paragraphs to the letter, a heading in bold with its text but for the bold inside it.
   */
  lemma RenderingIsValidHtml(cc: CharClass, text: string)
    ensures Lex(ShowAll(Rendering(cc, text))) == Some(Rendering(cc, text))
    ensures Read(Rendering(cc, text), []) == Some((Join(Sources(cc, text)), []))
    ensures AllReadAs(cc, Blocks(cc, Lines(Normalized(text))), Sources(cc, text))
  {
    hide AllReadAs, Blocks, Lines, Join, Read, Lex, ShowAll, Spellable, JoinPieces, SourcesOf;
    var blocks := Blocks(cc, Lines(Normalized(text)));
    BlocksAreValid(cc, Lines(Normalized(text)));
    SourcesReadAs(cc, blocks);
    JoinReads(cc, blocks);
    LexShown(JoinPieces(cc, blocks));
  }

  predicate Prose(cc: CharClass, line: string) {
    FenceStart(cc, line).None? && HeadingText(line).None?
  }

  lemma JoinOne(line: string)
    ensures Join([line]) == line
  {
  }

  lemma JoinPrefix(head: string, first: string, rest: seq<string>)
    ensures Join([head + first] + rest) == head + Join([first] + rest)
  {
    assert ([head + first] + rest)[1..] == rest && ([first] + rest)[1..] == rest;
    if rest != [] {
      ConcatAssoc(head, first + "\n", Join(rest));
      ConcatAssoc(head, first, "\n");
    }
  }

  lemma JoinNewline(rest: seq<string>)
    requires rest != []
    ensures Join([""] + rest) == "\n" + Join(rest)
  {
    assert ([""] + rest)[1..] == rest;
    assert "" + "\n" == "\n";
  }

  lemma {:induction false} JoinLines(s: string)
    ensures Join(Lines(s)) == s
  {
    hide Join;
    if s == "" {
      JoinOne("");
    } else {
      var r := Lines(s[1..]);
      JoinLines(s[1..]);
      assert s == [s[0]] + s[1..] && r == [r[0]] + r[1..];
      if s[0] == '\n' { JoinNewline(r); } else { JoinPrefix([s[0]], r[0], r[1..]); }
    }
  }

  lemma {:induction false} ProseReads(cc: CharClass, lines: seq<string>)
    requires forall l :: l in lines ==> Prose(cc, l)
    ensures forall b :: b in Blocks(cc, lines) ==> ValidBlock(b)
    ensures SourcesOf(cc, Blocks(cc, lines)) == lines
  {
    BlocksAreValid(cc, lines);
    if lines != [] {
      assert lines[0] in lines;
      assert FirstBlock(cc, lines) == (Paragraph(lines[0]), 1);
      ProseReads(cc, lines[1..]);
      assert Blocks(cc, lines)[1..] == Blocks(cc, lines[1..]);
    }
  }

  /** A message without fences and headings is read back exactly as typed, up to CRLF. */
  lemma ProseIsLossless(cc: CharClass, text: string)
    requires forall l :: l in Lines(Normalized(text)) ==> Prose(cc, l)
    ensures Read(Rendering(cc, text), []) == Some((Normalized(text), []))
  {
    RenderingIsValidHtml(cc, text);
    ProseReads(cc, Lines(Normalized(text)));
    JoinLines(Normalized(text));
  }

  // ----- the rendering loop -----

  /** boldStripper on the html itself. */
  function DropBold(s: string): string {
    if s == "" then ""
    else if "<b>" <= s then DropBold(s[3..])
    else if "</b>" <= s then DropBold(s[4..])
    else [s[0]] + DropBold(s[1..])
  }

  lemma {:induction false} DropBoldPast(s: string, rest: string)
    requires '<' !in s
    ensures DropBold(s + rest) == s + DropBold(rest)
  {
    if s == "" {
      assert s + rest == rest;
    } else {
      assert (s + rest)[0] == s[0] && (s + rest)[1..] == s[1..] + rest;
      DropBoldPast(s[1..], rest);
      ConcatAssoc([s[0]], s[1..], DropBold(rest));
      assert s == [s[0]] + s[1..];
    }
  }

  lemma DropBoldOther(s: string, rest: string)
    requires |s| >= 3 && s[0] == '<' && '<' !in s[1..]
    requires s[1] != 'b' && (s[1] == '/' ==> s[2] != 'b')
    ensures DropBold(s + rest) == s + DropBold(rest)
  {
    var t := s + rest;
    assert t[0] == '<' && t[1..] == s[1..] + rest && t[1] == s[1] && t[2] == s[2];
    AfterMiss("<b>", t, 1);
    AfterMiss("</b>", t, if s[1] == '/' then 2 else 1);
    DropBoldPast(s[1..], rest);
    assert s == ['<'] + s[1..];
    ConcatAssoc(['<'], s[1..], DropBold(rest));
  }

  lemma DropBoldPiece(p: Piece, rest: string)
    requires p.Open? ==> IsInline(p.tag)
    ensures DropBold(Show(p) + rest) == (if IsBold(p) then "" else Show(p)) + DropBold(rest)
  {
    match p
    case Text(c) =>
      DropBoldPast(EscapeChar(c), rest);
    case Open(t) =>
      if t == Bold {
        AfterHit("<b>", rest);
        assert "" + DropBold(rest) == DropBold(rest);
      } else {
        DropBoldOther(ShowTag(t), rest);
      }
    case Close(n) =>
      if n == NameB {
        AfterHit("</b>", rest);
        AfterMiss("<b>", "</b>" + rest, 1);
        assert "" + DropBold(rest) == DropBold(rest);
      } else {
        DropBoldOther(ShowClose(n), rest);
      }
  }

  /** Only generated tags can match: stripping the html is stripping the pieces. */
  lemma {:induction false} DropBoldShown(ps: seq<Piece>)
    requires NoBlocks(ps)
    ensures DropBold(ShowAll(ps)) == ShowAll(Unbolded(ps))
  {
    if ps != [] {
      var p, rest := ps[0], ps[1..];
      DropBoldPiece(p, ShowAll(rest));
      DropBoldShown(rest);
      assert ps == [p] + rest;
      UnboldedCons(p, rest);
      if IsBold(p) {
        assert "" + ShowAll(Unbolded(rest)) == ShowAll(Unbolded(rest));
      } else {
        ShowCons(p, Unbolded(rest));
      }
    }
  }

  method RenderFence(lang: string, body: seq<string>) returns (html: string)
    ensures var text := Texts(Join(body));
      html == ShowAll(Wrap(Pre, if lang == "" then text else Wrap(LangCode(lang), text)))
  {
    var content := EscapeText(Join(body));
    ShowTexts(Join(body));
    if lang == "" {
      Inline.ShowWrap(Pre, Texts(Join(body)));
      html := "<pre>" + content + "</pre>";
    } else {
      Inline.ShowWrap(LangCode(lang), Texts(Join(body)));
      Inline.ShowWrap(Pre, Wrap(LangCode(lang), Texts(Join(body))));
      html := "<pre><code class=\"language-" + lang + "\">" + content + "</code></pre>";
      FenceSpelling(lang, content);
    }
  }

  lemma FenceSpelling(lang: string, content: string)
    ensures "<pre><code class=\"language-" + lang + "\">" + content + "</code></pre>" ==
            "<pre>" + ("<code class=\"language-" + lang + "\">" + content + "</code>") + "</pre>"
  {
  }

  function Shown(cc: CharClass, blocks: seq<Block>): seq<string> {
    if blocks == [] then [] else [ShowAll(PiecesOf(cc, blocks[0]))] + Shown(cc, blocks[1..])
  }

  lemma ShowNone()
    ensures ShowAll([]) == ""
  {
  }

  lemma {:induction false} JoinShown(cc: CharClass, blocks: seq<Block>)
    ensures Join(Shown(cc, blocks)) == ShowAll(JoinPieces(cc, blocks))
  {
    hide PiecesOf, ShowAll;
    if blocks == [] {
      ShowNone();
    } else if |blocks| > 1 {
      var first, rest := PiecesOf(cc, blocks[0]), JoinPieces(cc, blocks[1..]);
      JoinShown(cc, blocks[1..]);
      ShowAllConcat(first, [Text('\n')] + rest);
      ShowAllConcat([Text('\n')], rest);
      ShowOne(Text('\n'));
      assert Shown(cc, blocks)[1..] == Shown(cc, blocks[1..]);
      ConcatAssoc(ShowAll(first), "\n", ShowAll(rest));
    }
  }

  lemma ShownCons(cc: CharClass, b: Block, rest: seq<Block>, out: seq<string>)
    ensures out + Shown(cc, [b] + rest) == out + [ShowAll(PiecesOf(cc, b))] + Shown(cc, rest)
  {
    assert ([b] + rest)[1..] == rest;
  }

  lemma BodySizeStep(cc: CharClass, lines: seq<string>, n: nat, size: nat)
    requires n < |lines| && !IsFenceEnd(cc, lines[n], size)
    ensures BodySize(cc, lines[n..], size) == 1 + BodySize(cc, lines[n + 1..], size)
  {
    assert lines[n..][1..] == lines[n + 1..];
  }

  /** The fence branch of Render: the lines up to the closing fence, or to the end of the message. */
  method RenderFenceBlock(cc: CharClass, lines: seq<string>, lang: string, size: nat) returns (html: string, n: nat)
    requires lines != [] && FenceStart(cc, lines[0]) == Some((lang, size))
    ensures html == ShowAll(PiecesOf(cc, FirstBlock(cc, lines).0)) && n == FirstBlock(cc, lines).1
  {
    hide FenceStart, IsFenceEnd, HeadingText, ShowAll, Join, Wrap, Inline.Rendered;
    var body: seq<string> := [];
    n := 1;
    while n < |lines| && !IsFenceEnd(cc, lines[n], size)
      invariant 1 <= n <= |lines| && body == lines[1..n]
      invariant BodySize(cc, lines[1..], size) == n - 1 + BodySize(cc, lines[n..], size)
    {
      BodySizeStep(cc, lines, n, size);
      body := body + [lines[n]];
      n := n + 1;
    }
    html := RenderFence(lang, body);
    if n < |lines| { n := n + 1; }
  }

  /** The heading branch of Render. */
  method RenderHeading(cc: CharClass, text: string) returns (html: string)
    ensures html == ShowAll(Wrap(Bold, Unbolded(Inline.Rendered(cc, text, false))))
  {
    hide Unbolded, DropBold, ShowAll;
    var inner := Inline.RenderInline(cc, text);
    var ps := Inline.Rendered(cc, text, false);
    Inline.RenderingIsLossless(cc, text, false);
    DropBoldShown(ps);
    Inline.ShowWrap(Bold, Unbolded(ps));
    html := "<b>" + DropBold(inner) + "</b>";
  }

  /** Render of one block at the head of `lines`: its html and how many lines it took. */
  method RenderBlock(cc: CharClass, lines: seq<string>) returns (html: string, n: nat)
    requires lines != []
    ensures html == ShowAll(PiecesOf(cc, FirstBlock(cc, lines).0)) && n == FirstBlock(cc, lines).1
  {
    hide FenceStart, HeadingText, ShowAll, Unbolded;
    var fence := FenceStart(cc, lines[0]);
    if fence.Some? {
      html, n := RenderFenceBlock(cc, lines, fence.value.0, fence.value.1);
      return;
    }
    n := 1;
    var heading := HeadingText(lines[0]);
    if heading.Some? {
      html := RenderHeading(cc, heading.value);
      return;
    }
    html := Inline.RenderInline(cc, lines[0]);
  }

  lemma BlocksStep(cc: CharClass, lines: seq<string>, i: nat)
    requires i < |lines|
    ensures var (b, n) := FirstBlock(cc, lines[i..]);
      i + n <= |lines| && Blocks(cc, lines[i..]) == [b] + Blocks(cc, lines[i + n..])
  {
    var n := FirstBlock(cc, lines[i..]).1;
    assert lines[i..][n..] == lines[i + n..];
  }

  method Render(cc: CharClass, text: string) returns (html: string)
    ensures html == ShowAll(Rendering(cc, text))
    ensures Lex(html) == Some(Rendering(cc, text))
    ensures Read(Rendering(cc, text), []) == Some((Join(Sources(cc, text)), []))
    ensures AllReadAs(cc, Blocks(cc, Lines(Normalized(text))), Sources(cc, text))
  {
    hide FirstBlock, PiecesOf, ShowAll, Read, Lex, Lines, Join, AllReadAs, Sources;
    var lines := Lines(Normalized(text));
    var out: seq<string> := [];
    var i := 0;
    while i < |lines|
      invariant 0 <= i <= |lines|
      invariant out + Shown(cc, Blocks(cc, lines[i..])) == Shown(cc, Blocks(cc, lines))
    {
      var block, n := RenderBlock(cc, lines[i..]);
      BlocksStep(cc, lines, i);
      ShownCons(cc, FirstBlock(cc, lines[i..]).0, Blocks(cc, lines[i + n..]), out);
      out := out + [block];
      i := i + n;
    }
    assert out == Shown(cc, Blocks(cc, lines));
    JoinShown(cc, Blocks(cc, lines));
    RenderingIsValidHtml(cc, text);
    html := Join(out);
  }
}
