/** Turning what a person types into an FTS expression and LIKE patterns, and the search that uses both. */
module Search {
  import opened Base
  import opened Tables
  import opened Queries
  import History

  /** unicode.IsSpace, IsLetter and IsDigit; all that is assumed of them is said where it is needed. */
  datatype WordClass = WordClass(isSpace: char -> bool, isLetter: char -> bool, isDigit: char -> bool)

  // ----- LIKE -----

  /** SQL LIKE with ESCAPE '\' and the database's case folding. */
  predicate Like(fold: char -> char, p: string, t: string)
    decreases |p|, |t|
  {
    if p == "" then t == ""
    else if p[0] == '%' then Like(fold, p[1..], t) || (t != "" && Like(fold, p, t[1..]))
    else if p[0] == '_' then t != "" && Like(fold, p[1..], t[1..])
    else if p[0] == '\\' then
      |p| > 1 && t != "" && fold(p[1]) == fold(t[0]) && Like(fold, p[2..], t[1..])
    else t != "" && fold(p[0]) == fold(t[0]) && Like(fold, p[1..], t[1..])
  }

  predicate Special(c: char) { c == '%' || c == '_' || c == '\\' }

  function Escaped(s: string): string {
    if s == "" then ""
    else Escaped(s[..|s| - 1]) + (if Special(s[|s| - 1]) then ['\\', s[|s| - 1]] else [s[|s| - 1]])
  }

  method EscapeLike(s: string) returns (r: string)
    ensures r == Escaped(s)
  {
    r := "";
    for i := 0 to |s|
      invariant r == Escaped(s[..i])
    {
      assert s[..i + 1][..i] == s[..i];
      if s[i] == '%' || s[i] == '_' || s[i] == '\\' {
        r := r + "\\";
      }
      r := r + [s[i]];
    }
    assert s[..|s|] == s;
  }

  predicate SameFolded(fold: char -> char, a: string, b: string) {
    |a| == |b| && forall i :: 0 <= i < |a| ==> fold(a[i]) == fold(b[i])
  }

  /** `q` occurs in `t`, up to case folding. */
  predicate Occurs(fold: char -> char, q: string, t: string) {
    exists i :: 0 <= i <= |t| && OccursAt(fold, q, t, i)
  }

  predicate OccursAt(fold: char -> char, q: string, t: string, i: nat) {
    i + |q| <= |t| && SameFolded(fold, q, t[i..i + |q|])
  }

  function Pattern(q: string): string {
    "%" + Escaped(q) + "%"
  }

  lemma {:induction false} EscapedHead(s: string)
    requires s != ""
    ensures Escaped(s) == (if Special(s[0]) then ['\\', s[0]] else [s[0]]) + Escaped(s[1..])
  {
    hide Special;
    var n := |s| - 1;
    if n == 0 {
      assert s[..n] == "" && s[1..] == "";
    } else {
      EscapedHead(s[..n]);
      assert s[..n][1..] == s[1..][..n - 1] && s[1..][n - 1] == s[n];
    }
  }

  lemma {:induction false} PercentMatchesAll(fold: char -> char, t: string)
    ensures Like(fold, "%", t)
  {
    if t != "" { PercentMatchesAll(fold, t[1..]); }
  }

  /** An escaped text followed by % matches exactly what starts with the text. */
  lemma {:induction false} EscapedIsLiteral(fold: char -> char, q: string, t: string)
    ensures Like(fold, Escaped(q) + "%", t) <==> |q| <= |t| && SameFolded(fold, q, t[..|q|])
  {
    if q == "" {
      assert Escaped(q) + "%" == "%";
      PercentMatchesAll(fold, t);
    } else {
      EscapedHead(q);
      var p, rest := Escaped(q) + "%", Escaped(q[1..]) + "%";
      var skip := if Special(q[0]) then 2 else 1;
      assert p[skip..] == rest;
      assert p[skip - 1] == q[0];
      if t != "" {
        EscapedIsLiteral(fold, q[1..], t[1..]);
        if |q| <= |t| { FoldedTail(fold, q, t); }
      }
    }
  }

  lemma FoldedTail(fold: char -> char, q: string, t: string)
    requires q != "" && t != "" && |q| <= |t|
    ensures SameFolded(fold, q, t[..|q|]) <==> fold(q[0]) == fold(t[0]) && SameFolded(fold, q[1..], t[1..][..|q| - 1])
  {
    var a, b := t[..|q|], t[1..][..|q| - 1];
    assert forall i :: 0 <= i < |q| - 1 ==> q[1..][i] == q[i + 1] && b[i] == a[i + 1];
    if fold(q[0]) == fold(t[0]) && SameFolded(fold, q[1..], b) {
      forall i | 0 <= i < |q| ensures fold(q[i]) == fold(a[i]) {
        if i > 0 { assert fold(q[1..][i - 1]) == fold(b[i - 1]); }
      }
    }
  }

  /** A leading % lets the rest match anywhere. */
  lemma {:induction false} PercentSlides(fold: char -> char, p: string, t: string)
    ensures Like(fold, "%" + p, t) <==> exists i :: 0 <= i <= |t| && Like(fold, p, t[i..])
  {
    var all := "%" + p;
    assert all[1..] == p;
    assert t[0..] == t;
    if t != "" {
      PercentSlides(fold, p, t[1..]);
      forall i | 0 <= i < |t| ensures t[1..][i..] == t[i + 1..] { }
      if exists i :: 0 <= i <= |t[1..]| && Like(fold, p, t[1..][i..]) {
        var i :| 0 <= i <= |t[1..]| && Like(fold, p, t[1..][i..]);
        assert Like(fold, p, t[i + 1..]);
      }
      if exists i :: 0 <= i <= |t| && Like(fold, p, t[i..]) {
        var i :| 0 <= i <= |t| && Like(fold, p, t[i..]);
        if i > 0 { assert t[1..][i - 1..] == t[i..]; }
      }
    }
  }

  /** LIKE is literal: the pattern matches exactly the texts the query occurs in, whatever it is made of. */
  lemma LikeIsLiteral(fold: char -> char, q: string, t: string)
    ensures Like(fold, Pattern(q), t) <==> Occurs(fold, q, t)
  {
    var p := Escaped(q) + "%";
    assert Pattern(q) == "%" + p;
    PercentSlides(fold, p, t);
    forall i | 0 <= i <= |t| ensures Like(fold, p, t[i..]) <==> OccursAt(fold, q, t, i) {
      EscapedIsLiteral(fold, q, t[i..]);
      if i + |q| <= |t| { assert t[i..][..|q|] == t[i..i + |q|]; }
    }
  }

  // ----- terms -----

  function Flush(cur: string): seq<string> {
    if cur == "" then [] else [cur]
  }

  /** The terms still to come, with `cur` being collected. */
  function Split(wc: WordClass, s: string, cur: string, inQuote: bool): seq<string> {
    if s == "" then Flush(cur)
    else if s[0] == '"' then Flush(cur) + Split(wc, s[1..], "", !inQuote)
    else if wc.isSpace(s[0]) && !inQuote then Flush(cur) + Split(wc, s[1..], "", inQuote)
    else Split(wc, s[1..], cur + [s[0]], inQuote)
  }

  function Terms(wc: WordClass, raw: string): seq<string> {
    Split(wc, raw, "", false)
  }

  method SplitTerms(wc: WordClass, raw: string) returns (terms: seq<string>)
    ensures terms == Terms(wc, raw)
  {
    terms := [];
    var cur, inQuote := "", false;
    for i := 0 to |raw|
      invariant terms + Split(wc, raw[i..], cur, inQuote) == Terms(wc, raw)
    {
      assert raw[i..][1..] == raw[i + 1..];
      ghost var rest := raw[i + 1..];
      if raw[i] == '"' {
        FlushFirst(terms, cur, Split(wc, rest, "", !inQuote));
        terms := terms + Flush(cur);
        cur, inQuote := "", !inQuote;
      } else if wc.isSpace(raw[i]) && !inQuote {
        FlushFirst(terms, cur, Split(wc, rest, "", inQuote));
        terms := terms + Flush(cur);
        cur := "";
      } else {
        cur := cur + [raw[i]];
      }
    }
    assert raw[|raw|..] == "";
    terms := terms + Flush(cur);
  }

  lemma FlushFirst(terms: seq<string>, cur: string, rest: seq<string>)
    ensures terms + (Flush(cur) + rest) == (terms + Flush(cur)) + rest
  {
  }

  // ----- what a person can type -----

  /** What a search box holds: words, quoted phrases and the spaces around them. */
  datatype Part = Word(text: string) | Phrase(text: string) | Gap(c: char)

  predicate PartOk(wc: WordClass, p: Part) {
    match p
    case Word(text) => text != "" && forall i :: 0 <= i < |text| ==> text[i] != '"' && !wc.isSpace(text[i])
    case Phrase(text) => '"' !in text
    case Gap(c) => c != '"' && wc.isSpace(c)
  }

  /** No two words touch: they would be one. */
  predicate Parsed(wc: WordClass, parts: seq<Part>) {
    && (forall i :: 0 <= i < |parts| ==> PartOk(wc, parts[i]))
    && forall i :: 0 < i < |parts| ==> !(parts[i - 1].Word? && parts[i].Word?)
  }

  function Spelled(p: Part): string {
    match p
    case Word(text) => text
    case Phrase(text) => "\"" + text + "\""
    case Gap(c) => [c]
  }

  function Typed(parts: seq<Part>): string {
    if parts == [] then "" else Spelled(parts[0]) + Typed(parts[1..])
  }

  function TermOf(p: Part): seq<string> {
    if p.Gap? || p.text == "" then [] else [p.text]
  }

  function TermsOf(parts: seq<Part>): seq<string> {
    if parts == [] then [] else TermOf(parts[0]) + TermsOf(parts[1..])
  }

  /** A quote that is opened and never closed, with all that follows it; nothing when there is none. */
  predicate Unclosed(open: string) {
    open == "" || (open[0] == '"' && '"' !in open[1..])
  }

  lemma {:induction false} SplitWord(wc: WordClass, w: string, rest: string, cur: string)
    requires forall i :: 0 <= i < |w| ==> w[i] != '"' && !wc.isSpace(w[i])
    ensures Split(wc, w + rest, cur, false) == Split(wc, rest, cur + w, false)
  {
    if w == "" {
      assert w + rest == rest && cur + w == cur;
    } else {
      assert (w + rest)[0] == w[0] && (w + rest)[1..] == w[1..] + rest;
      SplitWord(wc, w[1..], rest, cur + [w[0]]);
      assert cur + [w[0]] + w[1..] == cur + w;
    }
  }

  lemma SplitUnclosed(wc: WordClass, open: string, cur: string)
    requires Unclosed(open)
    ensures Split(wc, open, cur, false) == Flush(cur) + (if open == "" then [] else Flush(open[1..]))
  {
    if open != "" {
      SplitQuoted(wc, open[1..], "", "");
      assert open[1..] + "" == open[1..] && "" + open[1..] == open[1..];
    }
  }

  lemma SplitFirst(wc: WordClass, p: Part, rest: string, cur: string)
    requires PartOk(wc, p) && (p.Word? ==> cur == "")
    ensures Split(wc, Spelled(p) + rest, cur, false) ==
      if p.Word? then Split(wc, rest, p.text, false) else Flush(cur) + (TermOf(p) + Split(wc, rest, "", false))
  {
    match p
    case Word(text) =>
      SplitWord(wc, text, rest, "");
      assert "" + text == text;
    case Phrase(text) =>
      SplitPhrase(wc, text, rest, cur);
    case Gap(c) =>
      assert ([c] + rest)[1..] == rest;
      assert [] + Split(wc, rest, "", false) == Split(wc, rest, "", false);
  }

  /** A word still being collected ends where the parts after it begin. */
  lemma {:induction false} SplitParts(wc: WordClass, parts: seq<Part>, open: string, cur: string)
    requires Parsed(wc, parts) && Unclosed(open) && (cur != "" && parts != [] ==> !parts[0].Word?)
    ensures Split(wc, Typed(parts) + open, cur, false) ==
      Flush(cur) + (TermsOf(parts) + if open == "" then [] else Flush(open[1..]))
  {
    hide Split;
    var last := if open == "" then [] else Flush(open[1..]);
    if parts == [] {
      SplitUnclosed(wc, open, cur);
      assert Typed(parts) + open == open && TermsOf(parts) + last == last;
    } else {
      var p, rest := parts[0], Typed(parts[1..]) + open;
      TypedFirst(parts, open);
      assert PartOk(wc, p) && Parsed(wc, parts[1..]) && (p.Word? ==> p.text != "");
      assert TermsOf(parts) == TermOf(p) + TermsOf(parts[1..]);
      assert (p.Word? ==> Flush(p.text) == TermOf(p)) && Flush("") == [];
      hide Split, Typed, Spelled, TermOf, TermsOf, Flush, PartOk, Parsed;
      SplitFirst(wc, p, rest, cur);
      SplitParts(wc, parts[1..], open, if p.Word? then p.text else "");
      TermsJoin(TermOf(p), TermsOf(parts[1..]), last);
    }
  }

  lemma TermsJoin(a: seq<string>, b: seq<string>, c: seq<string>)
    ensures a + (b + c) == (a + b) + c
    ensures [] + (a + (b + c)) == (a + b) + c && [] + (b + c) == b + c
  {
  }

  lemma TypedFirst(parts: seq<Part>, open: string)
    requires parts != []
    ensures Typed(parts) + open == Spelled(parts[0]) + (Typed(parts[1..]) + open)
  {
  }

  lemma SplitPhrase(wc: WordClass, text: string, rest: string, cur: string)
    requires '"' !in text
    ensures Split(wc, "\"" + text + "\"" + rest, cur, false) ==
      Flush(cur) + (Flush(text) + Split(wc, rest, "", false))
  {
    var s, tail := "\"" + text + "\"" + rest, "\"" + rest;
    assert s[0] == '"' && s[1..] == text + tail && tail[1..] == rest;
    SplitQuoted(wc, text, tail, "");
    assert "" + text == text;
  }

  /**
   The terms of whatever is typed: each unquoted run between spaces is one, each quoted run that is not
   empty is one whatever it holds, and a quote that is never closed takes the rest.
   */
  lemma TermsOfTyped(wc: WordClass, parts: seq<Part>, open: string)
    requires Parsed(wc, parts) && Unclosed(open)
    ensures Terms(wc, Typed(parts) + open) ==
      TermsOf(parts) + if open == "" || open[1..] == "" then [] else [open[1..]]
  {
    SplitParts(wc, parts, open, "");
  }

  /** And everything that can be typed is such parts, in one way or another. */
  lemma {:induction false} AnythingIsTyped(wc: WordClass, raw: string) returns (parts: seq<Part>, open: string)
    ensures Parsed(wc, parts) && Unclosed(open) && raw == Typed(parts) + open
    decreases |raw|
  {
    hide Typed, Spelled;
    if raw == "" {
      parts, open := [], "";
      NothingTyped();
    } else if raw[0] == '"' {
      if '"' in raw[1..] {
        var n := FirstQuote(raw[1..]);
        PhraseFirst(wc, raw, n);
        parts, open := AnythingIsTyped(wc, raw[n + 2..]);
        parts := Prefixed(wc, Phrase(raw[1..n + 1]), parts, raw[n + 2..], open);
      } else {
        parts, open := [], raw;
        NothingTyped();
      }
    } else {
      parts, open := AnythingIsTyped(wc, raw[1..]);
      assert raw == [raw[0]] + raw[1..];
      if wc.isSpace(raw[0]) {
        assert Spelled(Gap(raw[0])) == [raw[0]] by { SpelledGap(raw[0]); }
        parts := Prefixed(wc, Gap(raw[0]), parts, raw[1..], open);
      } else {
        parts := Lengthened(wc, raw[0], parts, raw[1..], open);
      }
    }
  }

  lemma PhraseFirst(wc: WordClass, raw: string, n: nat)
    requires raw != "" && raw[0] == '"' && n < |raw| - 1 && raw[n + 1] == '"' && '"' !in raw[1..][..n]
    ensures var p := Phrase(raw[1..n + 1]); PartOk(wc, p) && raw == Spelled(p) + raw[n + 2..]
  {
    assert raw[1..][..n] == raw[1..n + 1];
    assert raw == "\"" + raw[1..n + 1] + "\"" + raw[n + 2..];
  }

  lemma Prefixed(wc: WordClass, p: Part, parts: seq<Part>, rest: string, open: string) returns (all: seq<Part>)
    requires Parsed(wc, parts) && PartOk(wc, p) && rest == Typed(parts) + open
    requires p.Word? && parts != [] ==> !parts[0].Word?
    ensures all == [p] + parts && Parsed(wc, all) && Spelled(p) + rest == Typed(all) + open
  {
    all := [p] + parts;
    PartFirst(wc, p, parts);
    hide Typed, Parsed, PartOk;
    assert Spelled(p) + (Typed(parts) + open) == (Spelled(p) + Typed(parts)) + open;
  }

  /** A character of a word goes in front of the word that follows, or is one. */
  lemma Lengthened(wc: WordClass, c: char, parts: seq<Part>, rest: string, open: string) returns (all: seq<Part>)
    requires Parsed(wc, parts) && rest == Typed(parts) + open && c != '"' && !wc.isSpace(c)
    ensures Parsed(wc, all) && [c] + rest == Typed(all) + open
  {
    if parts != [] && parts[0].Word? {
      var tail, w := parts[1..], parts[0].text;
      assert parts == [parts[0]] + tail;
      assert [c] + (w + (Typed(tail) + open)) == ([c] + w) + (Typed(tail) + open);
      assert w + (Typed(tail) + open) == (w + Typed(tail)) + open;
      assert PartOk(wc, Word([c] + w));
      assert Parsed(wc, tail);
      all := Prefixed(wc, Word([c] + w), tail, Typed(tail) + open, open);
    } else {
      all := Prefixed(wc, Word([c]), parts, rest, open);
    }
  }

  lemma PartFirst(wc: WordClass, p: Part, parts: seq<Part>)
    requires Parsed(wc, parts) && PartOk(wc, p) && (p.Word? && parts != [] ==> !parts[0].Word?)
    ensures Parsed(wc, [p] + parts)
    ensures Typed([p] + parts) == Spelled(p) + Typed(parts)
  {
    assert ([p] + parts)[1..] == parts;
  }

  lemma NothingTyped()
    ensures Typed([]) == ""
  {
  }

  lemma SpelledGap(c: char)
    ensures Spelled(Gap(c)) == [c]
  {
  }

  lemma {:induction false} FirstQuote(s: string) returns (n: nat)
    requires '"' in s
    ensures n < |s| && s[n] == '"' && '"' !in s[..n]
  {
    if s[0] == '"' {
      n := 0;
    } else {
      assert s == [s[0]] + s[1..];
      n := FirstQuote(s[1..]);
      n := n + 1;
      assert s[..n] == [s[0]] + s[1..][..n - 1];
    }
  }

  predicate WordChar(wc: WordClass, c: char) { wc.isLetter(c) || wc.isDigit(c) }

  predicate HasWordChar(wc: WordClass, s: string) {
    exists i :: 0 <= i < |s| && WordChar(wc, s[i])
  }

  predicate DroppedPunct(wc: WordClass, c: char) {
    !wc.isLetter(c) && !wc.isDigit(c) && !wc.isSpace(c)
  }

  predicate HasDroppedPunct(wc: WordClass, s: string) {
    exists i :: 0 <= i < |s| && DroppedPunct(wc, s[i])
  }

  function Quoted(t: string): string { "\"" + t + "\"" }

  function JoinSpaced(parts: seq<string>): string {
    if parts == [] then ""
    else if |parts| == 1 then parts[0]
    else parts[0] + " " + JoinSpaced(parts[1..])
  }

  function QuotedAll(terms: seq<string>): seq<string> {
    seq(|terms|, i requires 0 <= i < |terms| => Quoted(terms[i]))
  }

  /** The terms fts can match on. */
  function Words(wc: WordClass, raw: string): seq<string> {
    Where(Terms(wc, raw), t => HasWordChar(wc, t))
  }

  function FtsExpression(wc: WordClass, raw: string): string {
    JoinSpaced(QuotedAll(Words(wc, raw)))
  }

  method FtsQuery(wc: WordClass, raw: string) returns (match_: string)
    ensures match_ == FtsExpression(wc, raw)
  {
    var terms := SplitTerms(wc, raw);
    var parts: seq<string> := [];
    var has := (t: string) => HasWordChar(wc, t);
    for i := 0 to |terms|
      invariant parts == QuotedAll(Where(terms[..i], has))
    {
      assert terms[..i + 1][..i] == terms[..i];
      if !HasWordChar(wc, terms[i]) {
        assert Where(terms[..i + 1], has) == Where(terms[..i], has);
        continue;
      }
      parts := parts + [Quoted(terms[i])];
    }
    assert terms[..|terms|] == terms;
    WhereSame(terms, has, t => HasWordChar(wc, t));
    match_ := JoinSpaced(parts);
  }

  lemma {:induction false} WhereSame(xs: seq<string>, f: string -> bool, g: string -> bool)
    requires forall x :: f(x) == g(x)
    ensures Where(xs, f) == Where(xs, g)
  {
    if xs != [] { WhereSame(xs[..|xs| - 1], f, g); }
  }

  function Literals(wc: WordClass, raw: string): seq<string> {
    Where(Terms(wc, raw), t => HasWordChar(wc, t) && HasDroppedPunct(wc, t))
  }

  method LiteralTerms(wc: WordClass, raw: string) returns (res: seq<string>)
    ensures res == Literals(wc, raw)
  {
    var terms := SplitTerms(wc, raw);
    var has := (t: string) => HasWordChar(wc, t) && HasDroppedPunct(wc, t);
    res := [];
    for i := 0 to |terms|
      invariant res == Where(terms[..i], has)
    {
      assert terms[..i + 1][..i] == terms[..i];
      if HasWordChar(wc, terms[i]) && HasDroppedPunct(wc, terms[i]) {
        res := res + [terms[i]];
      }
    }
    assert terms[..|terms|] == terms;
    WhereSame(terms, has, t => HasWordChar(wc, t) && HasDroppedPunct(wc, t));
  }

  predicate CleanTerm(t: string) { t != "" && '"' !in t }

  /** No term is empty and none carries a quote, so each is safe to wrap in quotes. */
  lemma {:induction false} TermsAreClean(wc: WordClass, s: string, cur: string, inQuote: bool)
    requires '"' !in cur
    ensures forall t :: t in Split(wc, s, cur, inQuote) ==> CleanTerm(t)
  {
    if s != "" {
      if s[0] == '"' {
        TermsAreClean(wc, s[1..], "", !inQuote);
      } else if wc.isSpace(s[0]) && !inQuote {
        TermsAreClean(wc, s[1..], "", inQuote);
      } else {
        TermsAreClean(wc, s[1..], cur + [s[0]], inQuote);
      }
    }
  }

  /** Inside quotes a clean run is collected whole, spaces and all. */
  lemma {:induction false} SplitQuoted(wc: WordClass, t: string, rest: string, cur: string)
    requires '"' !in t
    ensures Split(wc, t + rest, cur, true) == Split(wc, rest, cur + t, true)
  {
    if t == "" {
      assert t + rest == rest && cur + t == cur;
    } else {
      assert (t + rest)[0] == t[0] && (t + rest)[1..] == t[1..] + rest;
      SplitQuoted(wc, t[1..], rest, cur + [t[0]]);
      assert cur + [t[0]] + t[1..] == cur + t;
    }
  }

  lemma SplitQuotedTerm(wc: WordClass, t: string, rest: string)
    requires CleanTerm(t)
    ensures Split(wc, Quoted(t) + rest, "", false) == [t] + Split(wc, rest, "", false)
  {
    var s := Quoted(t) + rest;
    var tail := "\"" + rest;
    assert s[0] == '"' && s[1..] == t + tail;
    assert Split(wc, s, "", false) == [] + Split(wc, t + tail, "", true);
    SplitQuoted(wc, t, tail, "");
    assert "" + t == t && tail[1..] == rest;
  }

  lemma {:induction false} SplitJoined(wc: WordClass, terms: seq<string>)
    requires wc.isSpace(' ') && forall t :: t in terms ==> CleanTerm(t)
    ensures Terms(wc, JoinSpaced(QuotedAll(terms))) == terms
  {
    if terms != [] {
      var parts := QuotedAll(terms);
      var first := Quoted(terms[0]);
      assert parts[0] == first && parts[1..] == QuotedAll(terms[1..]);
      SplitJoined(wc, terms[1..]);
      if |terms| == 1 {
        assert first + "" == first;
        SplitQuotedTerm(wc, terms[0], "");
      } else {
        var rest := JoinSpaced(parts[1..]);
        var tail := " " + rest;
        assert first + " " + rest == first + tail && tail[1..] == rest;
        SplitQuotedTerm(wc, terms[0], tail);
        assert Split(wc, tail, "", false) == [] + Split(wc, rest, "", false);
      }
    }
  }

  /** Splitting the expression again gives back exactly the terms it was built from, in order. */
  lemma QueryRoundTrip(wc: WordClass, raw: string)
    requires wc.isSpace(' ')
    ensures Terms(wc, FtsExpression(wc, raw)) == Words(wc, raw)
    ensures forall t :: t in Words(wc, raw) <==>
      t in Terms(wc, raw) && exists c :: c in t && (wc.isLetter(c) || wc.isDigit(c))
    ensures forall t :: t in Terms(wc, raw) ==> CleanTerm(t)
  {
    TermsAreClean(wc, raw, "", false);
    WhereMeans(Terms(wc, raw), t => HasWordChar(wc, t));
    SplitJoined(wc, Words(wc, raw));
    forall t ensures HasWordChar(wc, t) <==> exists c :: c in t && (wc.isLetter(c) || wc.isDigit(c)) {
      if c :| c in t && (wc.isLetter(c) || wc.isDigit(c)) {
        var i :| 0 <= i < |t| && t[i] == c;
        assert WordChar(wc, t[i]);
      }
    }
  }

  /** The terms checked literally: those with a letter or digit, and with something else that is no space. */
  lemma LiteralsAre(wc: WordClass, raw: string)
    ensures forall t :: t in Literals(wc, raw) <==>
      && t in Terms(wc, raw)
      && (exists c :: c in t && (wc.isLetter(c) || wc.isDigit(c)))
      && (exists c :: c in t && !wc.isLetter(c) && !wc.isDigit(c) && !wc.isSpace(c))
  {
    WhereMeans(Terms(wc, raw), t => HasWordChar(wc, t) && HasDroppedPunct(wc, t));
    forall t: string
      ensures HasWordChar(wc, t) <==> exists c :: c in t && (wc.isLetter(c) || wc.isDigit(c))
      ensures HasDroppedPunct(wc, t) <==>
        exists c :: c in t && !wc.isLetter(c) && !wc.isDigit(c) && !wc.isSpace(c)
    {
      if c :| c in t && (wc.isLetter(c) || wc.isDigit(c)) {
        var i :| 0 <= i < |t| && t[i] == c;
        assert WordChar(wc, t[i]);
      }
      if c :| c in t && !wc.isLetter(c) && !wc.isDigit(c) && !wc.isSpace(c) {
        var i :| 0 <= i < |t| && t[i] == c;
        assert DroppedPunct(wc, t[i]);
      }
    }
  }

  /** When there is a punctuated term to check, the expression has at least that term in it. */
  lemma LiteralsLeaveAMatch(wc: WordClass, raw: string)
    requires Literals(wc, raw) != []
    ensures FtsExpression(wc, raw) != ""
  {
    WhereMeans(Terms(wc, raw), t => HasWordChar(wc, t) && HasDroppedPunct(wc, t));
    WhereMeans(Terms(wc, raw), t => HasWordChar(wc, t));
    assert Literals(wc, raw)[0] in Literals(wc, raw);
    assert Literals(wc, raw)[0] in Words(wc, raw);
    var parts := QuotedAll(Words(wc, raw));
    assert parts[0] != "" && JoinSpaced(parts) != "";
  }

  // ----- the search -----

  function Unquoted(s: string): string {
    if s == "" then "" else (if s[0] == '"' then "" else [s[0]]) + Unquoted(s[1..])
  }

  /** What the LIKE scan looks for. */
  function Needle(wc: WordClass, query: string): string {
    Trim(Unquoted(Trim(query, wc.isSpace)), wc.isSpace)
  }

  lemma {:induction false} UnquotedMeans(s: string)
    ensures Unquoted(s) == Where(s, c => c != '"')
  {
    if s != "" {
      UnquotedMeans(s[1..]);
      assert s == [s[0]] + s[1..];
      WhereConcat([s[0]], s[1..], c => c != '"');
      WhereOne(s[0], c => c != '"');
    }
  }

  lemma {:induction false} WhereConcat<T>(a: seq<T>, b: seq<T>, keep: T -> bool)
    ensures Where(a + b, keep) == Where(a, keep) + Where(b, keep)
  {
    if b == [] {
      assert a + b == a;
    } else {
      var n := |b| - 1;
      assert (a + b)[..|a| + n] == a + b[..n] && (a + b)[|a| + n] == b[n];
      WhereConcat(a, b[..n], keep);
    }
  }

  /** What the LIKE scan looks for is the query without its quotes and the spaces around them. */
  lemma NeedleMeans(wc: WordClass, raw: string) returns (a: string, b: string, c: string, d: string)
    ensures raw == a + Trim(raw, wc.isSpace) + b
    ensures Where(Trim(raw, wc.isSpace), x => x != '"') == c + Needle(wc, raw) + d
    ensures forall x :: x in a + b + c + d ==> wc.isSpace(x)
    ensures var t := Needle(wc, raw); t != "" ==> !wc.isSpace(t[0]) && !wc.isSpace(t[|t| - 1]) && '"' !in t
  {
    a, b := TrimMeans(raw, wc.isSpace);
    UnquotedMeans(Trim(raw, wc.isSpace));
    WhereMeans(Trim(raw, wc.isSpace), x => x != '"');
    c, d := TrimMeans(Unquoted(Trim(raw, wc.isSpace)), wc.isSpace);
    var bare, t := Unquoted(Trim(raw, wc.isSpace)), Needle(wc, raw);
    assert bare == c + t + d && forall x :: x in t ==> x in bare;
  }

  /** ORDER BY sent DESC, id DESC with sqlLimit's reading of the limit. */
  function NewestFirst(rows: seq<Message>, keep: Message -> bool, limit: int): seq<Message> {
    if limit <= 0 then Reversed(Select(rows, keep)) else Newest(rows, keep, limit)
  }

  predicate CarriesAll(fold: char -> char, literals: seq<string>, text: string) {
    forall i :: 0 <= i < |literals| ==> Like(fold, Pattern(literals[i]), text)
  }

  /** The full-text engine: what each MATCH expression selects, None when it errors out. */
  type Engine = string -> Option<Message -> bool>

  function SearchFts(
      engine: Engine, fold: char -> char, rows: seq<Message>, r: History.Range, expr: string,
      literals: seq<string>, limit: int): Option<seq<Message>>
  {
    match engine(expr)
    case None => None
    case Some(matches) =>
      var keep := (m: Message) => matches(m) && CarriesAll(fold, literals, m.body.text) && History.InRange(r, m);
      Some(NewestFirst(rows, keep, limit))
  }

  function SearchLike(
      fold: char -> char, rows: seq<Message>, r: History.Range, needle: string, limit: int): seq<Message>
  {
    NewestFirst(rows, (m: Message) => Like(fold, Pattern(needle), m.body.text) && History.InRange(r, m), limit)
  }

  function Kept(all: seq<Message>, limit: int): seq<Message> {
    if limit > 0 then Last(all, limit) else all
  }

  lemma NewestFirstIsReversed(rows: seq<Message>, keep: Message -> bool, limit: int)
    ensures NewestFirst(rows, keep, limit) == Reversed(Kept(Select(rows, keep), limit))
  {
    if limit > 0 { NewestIsLast(rows, keep, limit); }
  }

  lemma KeptMeans(all: seq<Message>, limit: int)
    requires Chronological(all)
    ensures Chronological(Kept(all, limit)) && (limit > 0 ==> |Kept(all, limit)| <= limit)
    ensures forall m :: m in Kept(all, limit) ==> m in all
    ensures all != [] ==> Kept(all, limit) != []
  {
  }

  /** The limit is used up, by messages all newer than `m`. */
  predicate CutOff(limit: int, hits: seq<Message>, m: Message) {
    limit > 0 && |hits| == limit && forall i :: 0 <= i < |hits| ==> Before(PosOf(m), PosOf(hits[i]))
  }

  lemma KeptCutsOff(all: seq<Message>, limit: int, m: Message)
    requires Chronological(all) && m in all
    ensures m in Kept(all, limit) || CutOff(limit, Kept(all, limit), m)
  {
    var kept := Kept(all, limit);
    var i :| 0 <= i < |all| && all[i] == m;
    if i >= |all| - |kept| { assert kept[i - (|all| - |kept|)] == m; }
  }

  lemma NewestFirstMeans(rows: seq<Message>, keep: Message -> bool, limit: int)
    requires RowsOk(rows)
    ensures var hits := NewestFirst(rows, keep, limit);
      && (forall m :: m in hits ==> m in rows && keep(m))
      && Chronological(Reversed(hits))
      && (limit > 0 ==> |hits| <= limit)
      && ((exists m :: m in rows && keep(m)) ==> hits != [])
      && (forall m :: m in rows && keep(m) ==> m in hits || CutOff(limit, hits, m))
  {
    var all := Select(rows, keep);
    SelectMeans(rows, keep);
    KeptMeans(all, limit);
    NewestFirstIsReversed(rows, keep, limit);
    ReversedMeans(Kept(all, limit));
    hide Select, Kept;
    forall m | m in rows && keep(m)
      ensures m in Kept(all, limit) || CutOff(limit, Reversed(Kept(all, limit)), m)
    {
      KeptCutsOff(all, limit, m);
    }
    if m :| m in rows && keep(m) { assert m in all; }
  }

  /** In scope, matched by the expression and carrying every literal term as it was typed. */
  ghost predicate StrictHit(
      engine: Engine, fold: char -> char, r: History.Range, expr: string, literals: seq<string>, m: Message)
  {
    && engine(expr).Some? && engine(expr).value(m) && History.InRange(r, m)
    && forall i :: 0 <= i < |literals| ==> Occurs(fold, literals[i], m.body.text)
  }

  ghost predicate AnyStrict(
      engine: Engine, fold: char -> char, rows: seq<Message>, r: History.Range, expr: string,
      literals: seq<string>)
  {
    exists m :: m in rows && StrictHit(engine, fold, r, expr, literals, m)
  }

  /** Nothing but strict hits, at least one, and every other strict hit is older than a full page of them. */
  ghost predicate StrictAnswer(
      engine: Engine, fold: char -> char, rows: seq<Message>, r: History.Range,
      expr: string, literals: seq<string>, limit: int, hits: seq<Message>) {
    && hits != [] && (forall m :: m in hits ==> StrictHit(engine, fold, r, expr, literals, m))
    && (forall m :: m in rows && StrictHit(engine, fold, r, expr, literals, m) ==>
      m in hits || CutOff(limit, hits, m))
  }

  /** Nothing but messages carrying the needle, at least one, and every other is older than a full page of them. */
  ghost predicate LiteralAnswer(
      fold: char -> char, rows: seq<Message>, r: History.Range, needle: string, limit: int, hits: seq<Message>)
  {
    && hits != [] && (forall m :: m in hits ==> Occurs(fold, needle, m.body.text))
    && (forall m :: m in rows && History.InRange(r, m) && Occurs(fold, needle, m.body.text) ==>
      m in hits || CutOff(limit, hits, m))
  }

  /** In scope, newest first and within the limit. */
  ghost predicate Proper(rows: seq<Message>, r: History.Range, limit: int, hits: seq<Message>) {
    && (forall m :: m in hits ==> m in rows && History.InRange(r, m))
    && Chronological(Reversed(hits)) && (limit > 0 ==> |hits| <= limit)
  }

  /** Some message in scope carries the needle. */
  ghost predicate Carried(fold: char -> char, rows: seq<Message>, r: History.Range, needle: string) {
    exists m :: m in rows && History.InRange(r, m) && Occurs(fold, needle, m.body.text)
  }

  /**
   Search. Hits are in scope, newest first and within the limit, and what the limit cuts off is older. When
   some message is matched by the expression and carries every punctuated term literally, exactly such
   messages answer; failing that, exactly those that carry the query literally, quotes aside; failing both,
   and when a punctuated term was what stood in the way, exactly those the expression alone matches. Only
   an engine that errors out on that last query leaves no answer.
   */
  method Search(
      wc: WordClass, fold: char -> char, engine: Engine, rows: seq<Message>, r: History.Range, raw: string,
      limit: int)
    returns (hits: Option<seq<Message>>)
    requires RowsOk(rows)
    ensures hits.Some? ==> Proper(rows, r, limit, hits.value)
    ensures var query := Trim(raw, wc.isSpace);
      var (expr, literals, needle) := (FtsExpression(wc, query), Literals(wc, query), Needle(wc, raw));
      var strict := expr != "" && AnyStrict(engine, fold, rows, r, expr, literals);
      && (strict ==> hits.Some? && StrictAnswer(engine, fold, rows, r, expr, literals, limit, hits.value))
      && (!strict && needle != "" && Carried(fold, rows, r, needle) ==>
        hits.Some? && LiteralAnswer(fold, rows, r, needle, limit, hits.value))
      && (!strict && (needle == "" || !Carried(fold, rows, r, needle)) && hits.Some? && hits.value != [] ==>
        literals != [] && expr != "" && StrictAnswer(engine, fold, rows, r, expr, [], limit, hits.value))
      && (!strict && needle != "" && !Carried(fold, rows, r, needle) && literals != []
          && AnyStrict(engine, fold, rows, r, expr, []) ==>
        hits.Some? && StrictAnswer(engine, fold, rows, r, expr, [], limit, hits.value))
      && (hits.None? <==>
        r.chats != [] && needle != "" && !Carried(fold, rows, r, needle) && literals != [] && engine(expr).None?)
  {
    hide Needle, FtsExpression, Literals, SearchFts, SearchLike, Select, StrictHit, Proper, CutOff;
    var query := Trim(raw, wc.isSpace);
    NoHits(wc, fold, engine, rows, r, raw, limit);
    if query == "" || r.chats == [] { return Some([]); }
    var expr := FtsQuery(wc, query);
    var literals := LiteralTerms(wc, query);
    if expr != "" {
      var found := SearchFts(engine, fold, rows, r, expr, literals, limit);
      FtsMeans(engine, fold, rows, r, expr, literals, limit);
      if found.Some? && found.value != [] { return found; }
    }
    var needle := Trim(Unquoted(query), wc.isSpace);
    NeedleIs(wc, raw);
    if needle == "" { return Some([]); }
    var like := SearchLike(fold, rows, r, needle, limit);
    LikeMeans(fold, rows, r, needle, limit);
    if like != [] || literals == [] { return Some(like); }
    LiteralsLeaveAMatch(wc, query);
    FtsMeans(engine, fold, rows, r, expr, [], limit);
    hits := SearchFts(engine, fold, rows, r, expr, [], limit);
  }

  lemma NeedleIs(wc: WordClass, raw: string)
    ensures Needle(wc, raw) == Trim(Unquoted(Trim(raw, wc.isSpace)), wc.isSpace)
  {
  }

  /** An empty query, or no chats to search, selects nothing by either reading. */
  lemma NoHits(
      wc: WordClass, fold: char -> char, engine: Engine, rows: seq<Message>, r: History.Range, raw: string,
      limit: int)
    ensures Proper(rows, r, limit, [])
    ensures Trim(raw, wc.isSpace) == "" ==> FtsExpression(wc, "") == "" && Needle(wc, raw) == ""
    ensures r.chats == [] ==> !Carried(fold, rows, r, Needle(wc, raw))
    ensures r.chats == [] ==> forall expr, literals :: !AnyStrict(engine, fold, rows, r, expr, literals)
  {
    if Trim(raw, wc.isSpace) == "" {
      assert Unquoted("") == "" && Terms(wc, "") == [];
      assert Words(wc, "") == [];
    }
  }

  lemma FtsMeans(
      engine: Engine, fold: char -> char, rows: seq<Message>, r: History.Range, expr: string,
      literals: seq<string>, limit: int)
    requires RowsOk(rows)
    ensures var hits := SearchFts(engine, fold, rows, r, expr, literals, limit);
      && (hits.Some? <==> engine(expr).Some?)
      && (hits.Some? ==> Proper(rows, r, limit, hits.value))
      && (hits.Some? && hits.value != [] ==> StrictAnswer(engine, fold, rows, r, expr, literals, limit, hits.value))
      && (AnyStrict(engine, fold, rows, r, expr, literals) <==> hits.Some? && hits.value != [])
  {
    if engine(expr).None? { return; }
    var matches := engine(expr).value;
    var keep := (m: Message) => matches(m) && CarriesAll(fold, literals, m.body.text) && History.InRange(r, m);
    forall m: Message ensures keep(m) <==> StrictHit(engine, fold, r, expr, literals, m) {
      forall i | 0 <= i < |literals|
        ensures Like(fold, Pattern(literals[i]), m.body.text) <==> Occurs(fold, literals[i], m.body.text)
      {
        LikeIsLiteral(fold, literals[i], m.body.text);
      }
    }
    NewestFirstMeans(rows, keep, limit);
    hide NewestFirst, StrictHit, CarriesAll, CutOff;
    var hits := SearchFts(engine, fold, rows, r, expr, literals, limit).value;
    assert hits != [] ==> hits[0] in hits;
  }

  lemma LikeMeans(fold: char -> char, rows: seq<Message>, r: History.Range, needle: string, limit: int)
    requires RowsOk(rows)
    ensures var hits := SearchLike(fold, rows, r, needle, limit);
      && Proper(rows, r, limit, hits)
      && (hits != [] ==> LiteralAnswer(fold, rows, r, needle, limit, hits))
      && (Carried(fold, rows, r, needle) <==> hits != [])
  {
    var keep := (m: Message) => Like(fold, Pattern(needle), m.body.text) && History.InRange(r, m);
    forall m: Message ensures keep(m) <==> History.InRange(r, m) && Occurs(fold, needle, m.body.text) {
      LikeIsLiteral(fold, needle, m.body.text);
    }
    NewestFirstMeans(rows, keep, limit);
    hide NewestFirst, Like, Occurs, Pattern, CutOff;
    var hits := SearchLike(fold, rows, r, needle, limit);
    assert hits != [] ==> hits[0] in hits;
  }
}
