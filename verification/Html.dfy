/**
 Telegram HTML as a language of its own, independent of the renderer that produces it: the pieces
 a document is made of, how they are spelled, a lexer for the spelling, and a reader that keeps the
 stack of open elements and gives back the markdown the document stands for.
 */
module Html {
  import opened Base

  datatype Name = NameB | NameI | NameCode | NameA | NamePre

  datatype Tag =
    | Bold
    | Italic
    | Code
    | Link(url: string)
    | Pre
    | LangCode(lang: string)

  datatype Piece = Text(c: char) | Open(tag: Tag) | Close(name: Name)

  function NameOf(t: Tag): Name {
    match t
    case Bold => NameB
    case Italic => NameI
    case Code => NameCode
    case Link(_) => NameA
    case Pre => NamePre
    case LangCode(_) => NameCode
  }

  // ----- spelling -----

  function EscapeChar(c: char): (s: string)
    ensures s != "" && '<' !in s && '>' !in s
  {
    if c == '&' then "&amp;" else if c == '<' then "&lt;" else if c == '>' then "&gt;" else [c]
  }

  function EscapeAttrChar(c: char): (s: string)
    ensures s != "" && '<' !in s && '>' !in s && '"' !in s
  {
    if c == '"' then "&quot;" else EscapeChar(c)
  }

  /** textEscaper */
  function EscapeText(s: string): string {
    if s == "" then "" else EscapeChar(s[0]) + EscapeText(s[1..])
  }

  /** attrEscaper */
  function EscapeAttr(s: string): (r: string)
    ensures '<' !in r && '>' !in r && '"' !in r
  {
    if s == "" then "" else EscapeAttrChar(s[0]) + EscapeAttr(s[1..])
  }

  predicate LangChar(c: char) {
    'A' <= c <= 'Z' || 'a' <= c <= 'z' || '0' <= c <= '9' || c in "+#._-"
  }

  /** fenceLang: one or more characters of the class, nothing else. */
  predicate IsLang(s: string) {
    s != "" && forall i :: 0 <= i < |s| ==> LangChar(s[i])
  }

  /** A language name is made of Latin letters, digits and five signs. */
  lemma IsLangIff(s: string)
    ensures IsLang(s) <==> s != "" && forall i :: 0 <= i < |s| ==>
      s[i] in SMALL || s[i] in CAPITAL || s[i] in DIGITS || s[i] in ['+', '#', '.', '_', '-']
  {
    forall i | 0 <= i < |s|
      ensures LangChar(s[i]) <==>
        s[i] in SMALL || s[i] in CAPITAL || s[i] in DIGITS || s[i] in ['+', '#', '.', '_', '-']
    {
      SmallLetters(s[i]);
      CapitalLetters(s[i]);
      DecimalDigits(s[i]);
    }
  }

  function ShowTag(t: Tag): string {
    match t
    case Bold => "<b>"
    case Italic => "<i>"
    case Code => "<code>"
    case Link(url) => "<a href=\"" + EscapeAttr(url) + "\">"
    case Pre => "<pre>"
    case LangCode(lang) => "<code class=\"language-" + lang + "\">"
  }

  function ShowClose(n: Name): string {
    match n
    case NameB => "</b>"
    case NameI => "</i>"
    case NameCode => "</code>"
    case NameA => "</a>"
    case NamePre => "</pre>"
  }

  function Show(p: Piece): (s: string)
    ensures s != ""
  {
    match p
    case Text(c) => EscapeChar(c)
    case Open(t) => ShowTag(t)
    case Close(n) => ShowClose(n)
  }

  function ShowAll(ps: seq<Piece>): string {
    if ps == [] then "" else Show(ps[0]) + ShowAll(ps[1..])
  }

  lemma ConcatAssoc(a: string, b: string, c: string)
    ensures a + (b + c) == (a + b) + c
  {
  }

  lemma ShowCons(p: Piece, rest: seq<Piece>)
    ensures ShowAll([p] + rest) == Show(p) + ShowAll(rest)
  {
    assert ([p] + rest)[1..] == rest;
  }

  lemma {:induction false} ShowAllConcat(a: seq<Piece>, b: seq<Piece>)
    ensures ShowAll(a + b) == ShowAll(a) + ShowAll(b)
  {
    if a == [] {
      assert a + b == b;
    } else {
      var p, tail := a[0], a[1..];
      calc {
        ShowAll(a + b);
        { assert a + b == [p] + (tail + b); }
        ShowAll([p] + (tail + b));
        { ShowCons(p, tail + b); }
        Show(p) + ShowAll(tail + b);
        { ShowAllConcat(tail, b); }
        Show(p) + (ShowAll(tail) + ShowAll(b));
        { ConcatAssoc(Show(p), ShowAll(tail), ShowAll(b)); }
        (Show(p) + ShowAll(tail)) + ShowAll(b);
        { ShowCons(p, tail); assert a == [p] + tail; }
        ShowAll(a) + ShowAll(b);
      }
    }
  }

  lemma ShowOne(p: Piece)
    ensures ShowAll([p]) == Show(p)
  {
    assert ShowAll([p]) == Show(p) + ShowAll([]);
  }

  /** Literal text as pieces. */
  function Texts(s: string): (ps: seq<Piece>)
    ensures |ps| == |s|
    ensures forall i :: 0 <= i < |s| ==> ps[i] == Text(s[i])
  {
    seq(|s|, i requires 0 <= i < |s| => Text(s[i]))
  }

  lemma {:induction false} ShowTexts(s: string)
    ensures ShowAll(Texts(s)) == EscapeText(s)
  {
    if s != "" {
      ShowTexts(s[1..]);
      assert Texts(s)[1..] == Texts(s[1..]);
    }
  }

  // ----- lexing -----

  function After(prefix: string, s: string): Option<string> {
    if prefix <= s then Some(s[|prefix|..]) else None
  }

  /** One character of character data: `<` and `>` never stand for themselves, `&` starts an entity. */
  function ReadChar(s: string): (r: Option<(char, string)>)
    ensures r.Some? ==> |r.value.1| < |s|
  {
    if s == "" || s[0] == '<' || s[0] == '>' then None
    else if s[0] != '&' then Some((s[0], s[1..]))
    else if After("&amp;", s).Some? then Some(('&', s[5..]))
    else if After("&lt;", s).Some? then Some(('<', s[4..]))
    else if After("&gt;", s).Some? then Some(('>', s[4..]))
    else if After("&quot;", s).Some? then Some(('"', s[6..]))
    else None
  }

  /** An attribute value up to the quote and the bracket that end the tag. */
  function ReadAttr(s: string): (r: Option<(string, string)>)
    ensures r.Some? ==> |r.value.1| < |s|
    decreases |s|
  {
    if After("\">", s).Some? then Some(("", s[2..]))
    else if s == "" || s[0] == '"' then None
    else
      match ReadChar(s)
      case None => None
      case Some((c, rest)) =>
        match ReadAttr(rest)
        case None => None
        case Some((v, end)) => Some(([c] + v, end))
  }

  function ReadPiece(s: string): (r: Option<(Piece, string)>)
    ensures r.Some? ==> |r.value.1| < |s|
  {
    if s != "" && s[0] == '<' then ReadTag(s)
    else
      match ReadChar(s)
      case None => None
      case Some((c, rest)) => Some((Text(c), rest))
  }

  function ReadTag(s: string): (r: Option<(Piece, string)>)
    ensures r.Some? ==> |r.value.1| < |s|
  {
    var bare := ReadBareTag(s);
    if bare.Some? then bare
    else
      match After("<a href=\"", s)
      case Some(tail) => ReadAttrTag(true, tail)
      case None =>
        match After("<code class=\"language-", s)
        case Some(tail) => ReadAttrTag(false, tail)
        case None => None
  }

  function ReadAttrTag(isLink: bool, s: string): (r: Option<(Piece, string)>)
    ensures r.Some? ==> |r.value.1| < |s|
  {
    match ReadAttr(s)
    case None => None
    case Some((value, rest)) => Some((Open(if isLink then Link(value) else LangCode(value)), rest))
  }

  /** A tag that carries no attribute. */
  function ReadBareTag(s: string): (r: Option<(Piece, string)>)
    ensures r.Some? ==> |r.value.1| < |s|
  {
    if |s| > 1 && s[1] == '/' then ReadEndTag(s) else ReadStartTag(s)
  }

  function ReadStartTag(s: string): (r: Option<(Piece, string)>)
    ensures r.Some? ==> |r.value.1| < |s|
  {
    if After("<b>", s).Some? then Some((Open(Bold), s[3..]))
    else if After("<i>", s).Some? then Some((Open(Italic), s[3..]))
    else if After("<code>", s).Some? then Some((Open(Code), s[6..]))
    else if After("<pre>", s).Some? then Some((Open(Pre), s[5..]))
    else None
  }

  function ReadEndTag(s: string): (r: Option<(Piece, string)>)
    ensures r.Some? ==> |r.value.1| < |s|
  {
    if After("</b>", s).Some? then Some((Close(NameB), s[4..]))
    else if After("</i>", s).Some? then Some((Close(NameI), s[4..]))
    else if After("</code>", s).Some? then Some((Close(NameCode), s[7..]))
    else if After("</pre>", s).Some? then Some((Close(NamePre), s[6..]))
    else if After("</a>", s).Some? then Some((Close(NameA), s[4..]))
    else None
  }

  /** The pieces a document is spelled with; None when some `<`, `>` or `&` is not one of ours. */
  function Lex(s: string): Option<seq<Piece>>
    decreases |s|
  {
    if s == "" then Some([])
    else
      match ReadPiece(s)
      case None => None
      case Some((p, rest)) =>
        match Lex(rest)
        case None => None
        case Some(ps) => Some([p] + ps)
  }

  predicate Spellable(ps: seq<Piece>) {
    forall i :: 0 <= i < |ps| && ps[i].Open? && ps[i].tag.LangCode? ==> IsLang(ps[i].tag.lang)
  }

  lemma AfterHit(prefix: string, rest: string)
    ensures After(prefix, prefix + rest) == Some(rest)
  {
    assert (prefix + rest)[|prefix|..] == rest;
    assert (prefix + rest)[..|prefix|] == prefix;
  }

  lemma AfterMiss(prefix: string, s: string, i: nat)
    requires i < |prefix| && (i < |s| ==> prefix[i] != s[i])
    ensures After(prefix, s).None?
  {
  }

  lemma ReadEscapedChar(c: char, rest: string)
    ensures ReadChar(EscapeChar(c) + rest) == Some((c, rest))
    ensures ReadChar(EscapeAttrChar(c) + rest) == Some((c, rest))
  {
    AfterHit("&amp;", rest);
    AfterHit("&lt;", rest);
    AfterHit("&gt;", rest);
    AfterHit("&quot;", rest);
    AfterMiss("&amp;", "&lt;" + rest, 1);
    AfterMiss("&amp;", "&gt;" + rest, 1);
    AfterMiss("&lt;", "&gt;" + rest, 1);
    forall p | p in ["&amp;", "&lt;", "&gt;"] ensures After(p, "&quot;" + rest).None? {
      AfterMiss(p, "&quot;" + rest, 1);
    }
    assert ([c] + rest)[1..] == rest;
  }

  lemma {:induction false} ReadEscapedAttr(v: string, rest: string)
    ensures ReadAttr(EscapeAttr(v) + ("\">" + rest)) == Some((v, rest))
  {
    var end := "\">" + rest;
    if v == "" {
      assert EscapeAttr(v) + end == end;
      AfterHit("\">", rest);
    } else {
      var tail := EscapeAttr(v[1..]) + end;
      var s := EscapeAttrChar(v[0]) + tail;
      ConcatAssoc(EscapeAttrChar(v[0]), EscapeAttr(v[1..]), end);
      ReadEscapedChar(v[0], tail);
      ReadEscapedAttr(v[1..], rest);
      assert s[0] == EscapeAttrChar(v[0])[0];
      AfterMiss("\">", s, 0);
      assert v == [v[0]] + v[1..];
    }
  }

  lemma {:induction false} LangNeedsNoEscape(s: string)
    requires forall i :: 0 <= i < |s| ==> LangChar(s[i])
    ensures EscapeAttr(s) == s
  {
    if s != "" {
      LangNeedsNoEscape(s[1..]);
      assert s == [s[0]] + s[1..];
    }
  }

  lemma ReadShownPiece(p: Piece, rest: string)
    requires p.Open? && p.tag.LangCode? ==> IsLang(p.tag.lang)
    ensures ReadPiece(Show(p) + rest) == Some((p, rest))
  {
    match p
    case Text(c) => ReadShownText(c, rest);
    case Open(t) =>
      ReadShownTag(t, rest);
      assert (ShowTag(t) + rest)[0] == '<';
    case Close(n) =>
      ReadShownClose(n, rest);
      assert (ShowClose(n) + rest)[0] == '<';
  }

  lemma ReadShownText(c: char, rest: string)
    ensures ReadPiece(EscapeChar(c) + rest) == Some((Text(c), rest))
  {
    var s := EscapeChar(c) + rest;
    ReadEscapedChar(c, rest);
    assert s[0] == EscapeChar(c)[0] && s[0] != '<';
  }

  lemma ReadShownClose(n: Name, rest: string)
    ensures ReadTag(ShowClose(n) + rest) == Some((Close(n), rest))
  {
    assert (ShowClose(n) + rest)[1] == '/';
    match n
    case NameB =>
      AfterHit("</b>", rest);
    case NameI =>
      AfterHit("</i>", rest);
      AfterMiss("</b>", "</i>" + rest, 2);
    case NameCode =>
      var s := "</code>" + rest;
      AfterHit("</code>", rest);
      AfterMiss("</b>", s, 2);
      AfterMiss("</i>", s, 2);
    case NamePre =>
      var s := "</pre>" + rest;
      AfterHit("</pre>", rest);
      AfterMiss("</b>", s, 2);
      AfterMiss("</i>", s, 2);
      AfterMiss("</code>", s, 2);
    case NameA =>
      var s := "</a>" + rest;
      AfterHit("</a>", rest);
      AfterMiss("</b>", s, 2);
      AfterMiss("</i>", s, 2);
      AfterMiss("</code>", s, 2);
      AfterMiss("</pre>", s, 2);
  }

  lemma ReadShownTag(t: Tag, rest: string)
    requires t.LangCode? ==> IsLang(t.lang)
    ensures ReadTag(ShowTag(t) + rest) == Some((Open(t), rest))
  {
    match t
    case Bold => AfterHit("<b>", rest);
    case Italic =>
      AfterHit("<i>", rest);
      AfterMiss("<b>", "<i>" + rest, 1);
    case Code =>
      var s := "<code>" + rest;
      AfterHit("<code>", rest);
      AfterMiss("<b>", s, 1);
      AfterMiss("<i>", s, 1);
    case Pre =>
      var s := "<pre>" + rest;
      AfterHit("<pre>", rest);
      AfterMiss("<b>", s, 1);
      AfterMiss("<i>", s, 1);
      AfterMiss("<code>", s, 1);
    case Link(url) => ReadShownLink(url, rest);
    case LangCode(lang) => ReadShownLang(lang, rest);
  }

  lemma NotBareTag(s: string)
    requires |s| > 5 && (s[1] == 'a' || (s[1] == 'c' && s[5] == ' '))
    ensures ReadBareTag(s) == None
  {
    AfterMiss("<b>", s, 1);
    AfterMiss("<i>", s, 1);
    AfterMiss("<pre>", s, 1);
    AfterMiss("<code>", s, if s[1] == 'a' then 1 else 5);
  }

  lemma AttrTag(a: string, b: string, c: string, d: string)
    ensures ((a + b) + c) + d == a + (b + (c + d))
  {
  }

  /** What an attribute tag's spelling leaves once its opening words are read. */
  lemma ReadEscapedTag(isLink: bool, value: string, rest: string)
    ensures ReadAttrTag(isLink, EscapeAttr(value) + ("\">" + rest)) ==
            Some((Open(if isLink then Link(value) else LangCode(value)), rest))
  {
    ReadEscapedAttr(value, rest);
  }

  lemma ReadLinkTag(tail: string)
    requires tail != ""
    ensures ReadTag("<a href=\"" + tail) == ReadAttrTag(true, tail)
  {
    NotBareTag("<a href=\"" + tail);
    AfterHit("<a href=\"", tail);
  }

  lemma ReadLangTag(tail: string)
    requires tail != ""
    ensures ReadTag("<code class=\"language-" + tail) == ReadAttrTag(false, tail)
  {
    var s := "<code class=\"language-" + tail;
    NotBareTag(s);
    AfterMiss("<a href=\"", s, 1);
    AfterHit("<code class=\"language-", tail);
  }

  lemma ReadShownLink(url: string, rest: string)
    ensures ReadTag(ShowTag(Link(url)) + rest) == Some((Open(Link(url)), rest))
  {
    calc {
      ReadTag(ShowTag(Link(url)) + rest);
      { AttrTag("<a href=\"", EscapeAttr(url), "\">", rest); }
      ReadTag("<a href=\"" + (EscapeAttr(url) + ("\">" + rest)));
      { ReadLinkTag(EscapeAttr(url) + ("\">" + rest)); }
      ReadAttrTag(true, EscapeAttr(url) + ("\">" + rest));
      { ReadEscapedTag(true, url, rest); }
      Some((Open(Link(url)), rest));
    }
  }

  lemma ReadShownLang(lang: string, rest: string)
    requires IsLang(lang)
    ensures ReadTag(ShowTag(LangCode(lang)) + rest) == Some((Open(LangCode(lang)), rest))
  {
    calc {
      ReadTag(ShowTag(LangCode(lang)) + rest);
      { AttrTag("<code class=\"language-", lang, "\">", rest); LangNeedsNoEscape(lang); }
      ReadTag("<code class=\"language-" + (EscapeAttr(lang) + ("\">" + rest)));
      { ReadLangTag(EscapeAttr(lang) + ("\">" + rest)); }
      ReadAttrTag(false, EscapeAttr(lang) + ("\">" + rest));
      { ReadEscapedTag(false, lang, rest); }
      Some((Open(LangCode(lang)), rest));
    }
  }

  lemma LexStep(s: string, p: Piece, rest: string)
    requires s != "" && ReadPiece(s) == Some((p, rest))
    ensures Lex(rest).Some? ==> Lex(s) == Some([p] + Lex(rest).value)
  {
  }

  /** Lexing undoes spelling: no text, url or language can be mistaken for markup. */
  lemma {:induction false} LexShown(ps: seq<Piece>)
    requires Spellable(ps)
    ensures Lex(ShowAll(ps)) == Some(ps)
  {
    if ps != [] {
      var p, tail := ps[0], ps[1..];
      ReadShownPiece(p, ShowAll(tail));
      LexShown(tail);
      LexStep(Show(p) + ShowAll(tail), p, ShowAll(tail));
      assert ps == [p] + tail;
    }
  }

  // ----- reading -----

  predicate Holds(open: seq<Tag>, p: Tag -> bool) {
    exists i :: 0 <= i < |open| && p(open[i])
  }

  /**
   Telegram's entity rules: emphasis may sit anywhere but in code, a link and a code span may not
   sit inside a link or code, a block stands alone and a language tag only directly inside one.
   */
  predicate MayOpen(open: seq<Tag>, t: Tag) {
    match t
    case Bold => !Holds(open, IsVerbatim)
    case Italic => !Holds(open, IsVerbatim)
    case Code => !Holds(open, IsVerbatim) && !Holds(open, IsLink)
    case Link(_) => !Holds(open, IsVerbatim) && !Holds(open, IsLink)
    case Pre => open == []
    case LangCode(_) => open == [Pre]
  }

  predicate IsVerbatim(t: Tag) { t.Code? || t.Pre? || t.LangCode? }

  predicate IsLink(t: Tag) { t.Link? }

  function OpenMark(t: Tag): string {
    match t
    case Bold => "**"
    case Italic => "*"
    case Code => "`"
    case Link(_) => "["
    case Pre => ""
    case LangCode(_) => ""
  }

  function CloseMark(t: Tag): string {
    match t
    case Link(url) => "](" + url + ")"
    case _ => OpenMark(t)
  }

  /**
   Reads pieces from left to right with the elements in `open` already open, innermost last. Refuses
   a close that does not match the innermost open element and an entity Telegram does not allow
   there. Gives the markdown read and the elements still open at the end.
   */
  function Read(ps: seq<Piece>, open: seq<Tag>): Option<(string, seq<Tag>)> {
    if ps == [] then Some(("", open))
    else
      match ps[0]
      case Text(c) => Prepend([c], Read(ps[1..], open))
      case Open(t) =>
        if MayOpen(open, t) then Prepend(OpenMark(t), Read(ps[1..], open + [t])) else None
      case Close(n) =>
        if open != [] && NameOf(open[|open| - 1]) == n
        then Prepend(CloseMark(open[|open| - 1]), Read(ps[1..], open[..|open| - 1]))
        else None
  }

  function Prepend(s: string, r: Option<(string, seq<Tag>)>): Option<(string, seq<Tag>)> {
    match r
    case None => None
    case Some((t, open)) => Some((s + t, open))
  }

  lemma PrependTwice(s: string, t: string, r: Option<(string, seq<Tag>)>)
    ensures Prepend(s, Prepend(t, r)) == Prepend(s + t, r)
  {
    if r.Some? { ConcatAssoc(s, t, r.value.0); }
  }

  lemma ReadText(c: char, rest: seq<Piece>, open: seq<Tag>)
    ensures Read([Text(c)] + rest, open) == Prepend([c], Read(rest, open))
  {
    assert ([Text(c)] + rest)[1..] == rest;
  }

  lemma ReadOpen(t: Tag, rest: seq<Piece>, open: seq<Tag>)
    requires MayOpen(open, t)
    ensures Read([Open(t)] + rest, open) == Prepend(OpenMark(t), Read(rest, open + [t]))
  {
    assert ([Open(t)] + rest)[1..] == rest;
  }

  lemma ReadClose(top: Tag, rest: seq<Piece>, below: seq<Tag>)
    ensures Read([Close(NameOf(top))] + rest, below + [top]) == Prepend(CloseMark(top), Read(rest, below))
  {
    assert ([Close(NameOf(top))] + rest)[1..] == rest;
    assert (below + [top])[..|below|] == below;
  }

  lemma {:induction false} ReadConcat(a: seq<Piece>, b: seq<Piece>, open: seq<Tag>)
    requires Read(a, open).Some?
    ensures Read(a + b, open) == Prepend(Read(a, open).value.0, Read(b, Read(a, open).value.1))
  {
    if a == [] {
      assert a + b == b;
      assert Read(b, open).Some? ==> "" + Read(b, open).value.0 == Read(b, open).value.0;
    } else {
      var p, tail := a[0], a[1..];
      assert a == [p] + tail && a + b == [p] + (tail + b);
      match p
      case Text(c) =>
        ReadText(c, tail, open);
        ReadText(c, tail + b, open);
        ReadConcat(tail, b, open);
        ReadStep([c], tail, b, open);
      case Open(t) =>
        ReadOpen(t, tail, open);
        ReadOpen(t, tail + b, open);
        ReadConcat(tail, b, open + [t]);
        ReadStep(OpenMark(t), tail, b, open + [t]);
      case Close(_) =>
        var below, top := open[..|open| - 1], open[|open| - 1];
        assert open == below + [top];
        ReadClose(top, tail, below);
        ReadClose(top, tail + b, below);
        ReadConcat(tail, b, below);
        ReadStep(CloseMark(top), tail, b, below);
    }
  }

  lemma ReadStep(mark: string, tail: seq<Piece>, b: seq<Piece>, open: seq<Tag>)
    requires Read(tail, open).Some?
    requires Read(tail + b, open) == Prepend(Read(tail, open).value.0, Read(b, Read(tail, open).value.1))
    ensures var first := Prepend(mark, Read(tail, open)).value;
      Prepend(mark, Read(tail + b, open)) == Prepend(first.0, Read(b, first.1))
  {
    PrependTwice(mark, Read(tail, open).value.0, Read(b, Read(tail, open).value.1));
  }

  /** What the reader accepts opens an entity only where the entities open around it allow one. */
  lemma {:induction false} OpensAreAllowed(ps: seq<Piece>, open: seq<Tag>, i: nat)
    requires Read(ps, open).Some? && i < |ps| && ps[i].Open?
    ensures Read(ps[..i], open).Some? && MayOpen(Read(ps[..i], open).value.1, ps[i].tag)
    decreases i
  {
    if i == 0 {
      assert ps[..0] == [];
    } else {
      var p, rest := ps[0], ps[1..];
      assert ps[..i] == [p] + rest[..i - 1];
      match p
      case Text(c) =>
        OpensAreAllowed(rest, open, i - 1);
        ReadText(c, rest[..i - 1], open);
      case Open(t) =>
        OpensAreAllowed(rest, open + [t], i - 1);
        ReadOpen(t, rest[..i - 1], open);
      case Close(_) =>
        var below, top := open[..|open| - 1], open[|open| - 1];
        assert open == below + [top];
        OpensAreAllowed(rest, below, i - 1);
        ReadClose(top, rest[..i - 1], below);
    }
  }

  predicate IsInline(t: Tag) { t.Bold? || t.Italic? || t.Code? || t.Link? }

  /** Only emphasis around text. */
  predicate Plain(ps: seq<Piece>) {
    forall i :: 0 <= i < |ps| && ps[i].Open? ==> ps[i].tag.Bold? || ps[i].tag.Italic?
  }

  /** No block elements. */
  predicate NoBlocks(ps: seq<Piece>) {
    forall i :: 0 <= i < |ps| && ps[i].Open? ==> IsInline(ps[i].tag)
  }

  /** What a fragment reads correctly alone, it reads the same way inside `base`. */
  lemma {:induction false} ReadUnder(base: seq<Tag>, ps: seq<Piece>, open: seq<Tag>)
    requires NoBlocks(ps) && Read(ps, open).Some?
    requires forall i :: 0 <= i < |ps| && ps[i].Open? ==> MayOpen(base, ps[i].tag)
    ensures Read(ps, base + open) == Some((Read(ps, open).value.0, base + Read(ps, open).value.1))
  {
    if ps != [] {
      match ps[0]
      case Text(_) =>
        ReadUnder(base, ps[1..], open);
      case Open(t) =>
        assert ps[0].Open? && MayOpen(base, t);
        MayOpenUnder(base, open, t);
        assert (base + open) + [t] == base + (open + [t]);
        ReadUnder(base, ps[1..], open + [t]);
      case Close(_) =>
        assert (base + open)[|base + open| - 1] == open[|open| - 1];
        assert (base + open)[..|base + open| - 1] == base + open[..|open| - 1];
        ReadUnder(base, ps[1..], open[..|open| - 1]);
    }
  }

  lemma MayOpenUnder(base: seq<Tag>, open: seq<Tag>, t: Tag)
    requires IsInline(t) && MayOpen(base, t) && MayOpen(open, t)
    ensures MayOpen(base + open, t)
  {
  }

  // ----- complete fragments -----

  /** A complete inline fragment: it opens and closes everything itself. */
  predicate Whole(ps: seq<Piece>) {
    NoBlocks(ps) && Read(ps, []).Some? && Read(ps, []).value.1 == []
  }

  /** The markdown a whole fragment stands for. */
  function Source(ps: seq<Piece>): string
    requires Whole(ps)
  {
    Read(ps, []).value.0
  }

  lemma WholeConcat(a: seq<Piece>, b: seq<Piece>)
    requires Whole(a) && Whole(b)
    ensures Whole(a + b) && Source(a + b) == Source(a) + Source(b)
  {
    ReadConcat(a, b, []);
  }

  lemma {:induction false} WholeTexts(s: string)
    ensures Whole(Texts(s)) && Source(Texts(s)) == s && Plain(Texts(s))
  {
    if s != "" {
      WholeTexts(s[1..]);
      assert Texts(s)[1..] == Texts(s[1..]);
      assert s == [s[0]] + s[1..];
    }
  }

  function Wrap(t: Tag, ps: seq<Piece>): seq<Piece> {
    [Open(t)] + ps + [Close(NameOf(t))]
  }

  /** What reads as `s` inside an element reads, wrapped in it, as `s` between the element's marks. */
  lemma WrapRead(t: Tag, ps: seq<Piece>, s: string, open: seq<Tag>)
    requires MayOpen(open, t) && Read(ps, open + [t]) == Some((s, open + [t]))
    ensures Read(Wrap(t, ps), open) == Some((OpenMark(t) + s + CloseMark(t), open))
  {
    var inside := open + [t];
    var close := [Close(NameOf(t))];
    assert close == close + [];
    ReadClose(t, [], open);
    assert Read(close, inside) == Some((CloseMark(t) + "", open));
    assert CloseMark(t) + "" == CloseMark(t);
    ReadConcat(ps, close, inside);
    assert Wrap(t, ps) == [Open(t)] + (ps + close);
    ReadOpen(t, ps + close, open);
    ConcatAssoc(OpenMark(t), s, CloseMark(t));
  }

  /** A whole fragment stays whole inside any element that may hold all of its parts. */
  lemma WholeWrap(t: Tag, ps: seq<Piece>)
    requires Whole(ps) && IsInline(t)
    requires t.Code? || t.Link? ==> Plain(ps)
    requires t.Code? ==> forall i :: 0 <= i < |ps| ==> ps[i].Text?
    ensures Whole(Wrap(t, ps))
    ensures Source(Wrap(t, ps)) == OpenMark(t) + Source(ps) + CloseMark(t)
  {
    forall i | 0 <= i < |ps| && ps[i].Open? ensures MayOpen([t], ps[i].tag) { }
    ReadUnder([t], ps, []);
    assert [t] + [] == [t] && [] + [t] == [t];
    WrapRead(t, ps, Source(ps), []);
  }
}
