/** Which asterisks become emphasis: the decisions the renderer documents, for whole families of lines. */
module Emphasis {
  import opened Base
  import opened Html
  import opened Tokens
  import opened Inline

  /** A character the tokenizer passes through. */
  predicate Ordinary(c: char) {
    c != '`' && c != '[' && c != '*' && c != '\0'
  }

  predicate OrdinaryText(w: string) {
    w != "" && forall i :: 0 <= i < |w| ==> Ordinary(w[i])
  }

  /** A character a run of `n` may sit against. */
  predicate Flank(cc: CharClass, n: nat, c: char) {
    !cc.isSpace(c) && !Lone(cc, n, c)
  }

  /** Text a run of `n` may wrap: neither end is a space, nor punctuation against a single star. */
  predicate Wrappable(cc: CharClass, n: nat, w: string) {
    OrdinaryText(w) && Flank(cc, n, w[0]) && Flank(cc, n, w[|w| - 1])
  }

  lemma {:induction false} ScanOrdinary(cc: CharClass, s: string, i: nat, j: nat, lit: string)
    requires i <= j <= |s| && forall k :: i <= k < j ==> Ordinary(s[k])
    ensures Scan(cc, s, i, lit) == Scan(cc, s, j, lit + s[i..j])
    decreases j - i
  {
    hide Scan;
    if i == j {
      assert lit + s[i..j] == lit;
    } else {
      ScanChar(cc, s, i, lit);
      hide TokenAt;
      ScanOrdinary(cc, s, i + 1, j, lit + [s[i]]);
      assert [s[i]] + s[i + 1..j] == s[i..j];
      assert (lit + [s[i]]) + s[i + 1..j] == lit + s[i..j];
    }
  }

  lemma {:induction false} StarRunIs(s: string, i: nat, n: nat)
    requires i + n <= |s| && forall k :: i <= k < i + n ==> s[k] == '*'
    requires i + n < |s| ==> s[i + n] != '*'
    ensures StarRun(s, i) == n
    decreases n
  {
    if n > 0 { StarRunIs(s, i + 1, n - 1); }
  }

  /** A run of stars after literal text. */
  lemma ScanStars(cc: CharClass, s: string, i: nat, n: nat, lit: string)
    requires 0 < n && i + n <= |s| && forall k :: i <= k < i + n ==> s[k] == '*'
    requires i + n < |s| ==> s[i + n] != '*'
    ensures Scan(cc, s, i, lit) == Flushed(lit) + ([StarsToken(s, i, n)] + Scan(cc, s, i + n, ""))
  {
    StarRunIs(s, i, n);
    ScanToken(cc, s, i, lit, StarsToken(s, i, n), n);
  }

  lemma ScanOver(cc: CharClass, s: string)
    ensures Scan(cc, s, |s|, "") == []
  {
  }

  /** A code span or a link alone on its line is one token. */
  lemma MarkupIsOneToken(cc: CharClass, t: Token)
    requires Markup(cc, t)
    ensures Tokenized(cc, Spelling(t)) == [t]
  {
    var s := Spelling(t);
    assert |s| > 0;
    hide Scan, Markup, TokenAt, Spelling;
    MarkupRoundTrip(cc, "", t, "");
    assert "" + s + "" == s;
    ScanToken(cc, s, 0, "", t, |s|);
    ScanOver(cc, s);
  }

  /** Markup is rendered as what it says: code verbatim, a link with its text rendered inside. */
  lemma MarkupIsRendered(cc: CharClass, text: string, url: string)
    requires text != ""
    ensures '`' !in text ==> Rendered(cc, "`" + text + "`", false) == Wrap(Code, Texts(text))
    ensures '`' !in text ==> Rendered(cc, "`" + text + "`", true) == Texts("`" + text + "`")
    ensures ']' !in text && Linkable(cc, url) ==>
      Rendered(cc, SpellLink(text, url), false) == Wrap(Link(url), Rendered(cc, text, true))
  {
    hide Tokenized, Linkable, Texts, Wrap;
    if '`' !in text {
      MarkupIsOneToken(cc, CodeSpan(text));
      OneTurn(cc, CodeSpan(text), Wrap(Code, Texts(text)), false);
      OneTurn(cc, CodeSpan(text), Texts("`" + text + "`"), true);
    }
    if ']' !in text && Linkable(cc, url) {
      MarkupIsOneToken(cc, LinkTo(text, url));
      OneTurn(cc, LinkTo(text, url), Wrap(Link(url), Rendered(cc, text, true)), false);
    }
  }

  lemma OneTurn(cc: CharClass, t: Token, ps: seq<Piece>, inLink: bool)
    requires Turn(cc, EMPTY, t, inLink) == State([] + ps, [])
    ensures Finished(Run(cc, [t], EMPTY, inLink)) == ps
  {
    assert [t][1..] == [];
    assert [] + ps == ps;
  }

  /** The tokens of one run, ordinary text and the same run again. */
  lemma MatchedTokens(cc: CharClass, n: nat, w: string, s: string) returns (open: Token, close: Token)
    requires 0 < n && OrdinaryText(w) && s == Repeat('*', n) + w + Repeat('*', n)
    ensures Tokenized(cc, s) == [open, Literal(w), close]
    ensures open == Stars(n, '\0', '\0', w[0])
    ensures close.Stars? && close == Stars(n, w[|w| - 1], close.prev2, '\0')
  {
    hide TokenAt, Scan;
    var m := n + |w|;
    assert s[n..m] == w;
    forall k | n <= k < m ensures Ordinary(s[k]) { assert s[k] == w[k - n]; }
    ScanStars(cc, s, 0, n, "");
    ScanOrdinary(cc, s, n, m, "");
    assert "" + s[n..m] == w;
    ScanStars(cc, s, m, n, w);
    ScanOver(cc, s);
    open, close := StarsToken(s, 0, n), StarsToken(s, m, n);
    assert Tokenized(cc, s) == [open, Literal(w), close];
  }

  lemma RunCons(cc: CharClass, t: Token, rest: seq<Token>, st: State, inLink: bool)
    ensures Run(cc, [t] + rest, st, inLink) == Run(cc, rest, Turn(cc, st, t, inLink), inLink)
  {
    assert ([t] + rest)[1..] == rest;
  }

  lemma RunThree(cc: CharClass, a: Token, b: Token, c: Token, st: State, inLink: bool)
    ensures Run(cc, [a, b, c], st, inLink) == Turn(cc, Turn(cc, Turn(cc, st, a, inLink), b, inLink), c, inLink)
  {
    assert [a, b, c] == [a] + ([b] + ([c] + []));
    RunCons(cc, a, [b] + ([c] + []), st, inLink);
    RunCons(cc, b, [c] + [], Turn(cc, st, a, inLink), inLink);
    RunCons(cc, c, [], Turn(cc, Turn(cc, st, a, inLink), b, inLink), inLink);
  }

  /** A run of one, two or three around text it may wrap is emphasis, with nothing else around it. */
  lemma MatchedRunIsEmphasis(cc: CharClass, n: nat, w: string, inLink: bool)
    requires 1 <= n <= MAX_RUN && Wrappable(cc, n, w)
    ensures Rendered(cc, Repeat('*', n) + w + Repeat('*', n), inLink) == Inline.Emphasis(n, Texts(w))
  {
    hide Tokenized, Texts, Wrap, SpellAll, Repeat;
    var open, close := MatchedTokens(cc, n, w, Repeat('*', n) + w + Repeat('*', n));
    assert CanClose(cc, close);
    AroundOne(cc, open, Literal(w), close, Texts(w), inLink);
  }

  /** Two runs of one length around one token. */
  lemma AroundOne(cc: CharClass, open: Token, t: Token, close: Token, ps: seq<Piece>, inLink: bool)
    requires open.Stars? && close.Stars? && open.run == close.run && 1 <= open.run <= MAX_RUN
    requires CanOpen(cc, open) && CanClose(cc, close)
    requires forall st: State :: Turn(cc, st, t, inLink) == Written(st, ps)
    ensures Finished(Run(cc, [open, t, close], EMPTY, inLink)) == Inline.Emphasis(open.run, ps)
  {
    hide Wrap, CanClose, CanOpen;
    RunThree(cc, open, t, close, EMPTY, inLink);
    hide Run;
    var n := open.run;
    assert Turn(cc, EMPTY, open, inLink) == State([], [Frame(n, [])]);
    var inside := Turn(cc, State([], [Frame(n, [])]), t, inLink);
    assert [] + ps == ps;
    assert inside == State([], [Frame(n, ps)]);
    assert TopClosed(inside) == State([] + Inline.Emphasis(n, ps), []);
  }

  /** The tokens of a link inside a run on each side. */
  lemma AroundLink(cc: CharClass, n: nat, text: string, url: string, s: string) returns (open: Token, close: Token)
    requires 0 < n && text != "" && ']' !in text && Linkable(cc, url)
    requires s == Repeat('*', n) + SpellLink(text, url) + Repeat('*', n)
    ensures Tokenized(cc, s) == [open, LinkTo(text, url), close]
    ensures open == Stars(n, '\0', '\0', '[')
    ensures close.Stars? && close == Stars(n, ')', close.prev2, '\0')
  {
    hide TokenAt, Scan, Linkable;
    var link := SpellLink(text, url);
    var m := n + |link|;
    LinkCut(n, text, url);
    hide SpellLink, Repeat;
    LinkIsFound(cc, text, url, Repeat('*', n));
    LinkTokenAt(cc, s, n, LinkMatch(text, url, |link|));
    ScanStars(cc, s, 0, n, "");
    ScanToken(cc, s, n, "", LinkTo(text, url), |link|);
    ScanStars(cc, s, m, n, "");
    ScanOver(cc, s);
    open, close := StarsToken(s, 0, n), StarsToken(s, m, n);
    assert Tokenized(cc, s) == [open, LinkTo(text, url), close];
  }

  lemma LinkCut(n: nat, text: string, url: string)
    ensures var (stars, link) := (Repeat('*', n), SpellLink(text, url));
      var s := stars + link + stars;
      && |s| == n + |link| + n && link != "" && s[n..] == link + stars
      && s[n] == '[' && s[n + |link| - 1] == ')'
      && (forall k :: 0 <= k < n ==> s[k] == '*') && forall k :: n + |link| <= k < |s| ==> s[k] == '*'
  {
    var link := SpellLink(text, url);
    assert link[0] == '[' && link[|link| - 1] == ')';
  }

  lemma LinkTokenAt(cc: CharClass, s: string, i: nat, m: LinkMatch)
    requires i < |s| && s[i] == '[' && LinkAt(cc, s[i..]) == Some(m) && i + m.size <= |s|
    ensures TokenAt(cc, s, i) == Some((LinkTo(m.text, m.url), m.size))
  {
  }

  /**
   `**[**a**](https://b)**`: link text starts with nothing open, so a run around a link and the same run
   inside its text both become emphasis, one nested in the other.
   */
  lemma EmphasisNestsThroughLink(cc: CharClass, n: nat, w: string, url: string)
    requires 1 <= n <= MAX_RUN && Wrappable(cc, n, w) && ']' !in w && Linkable(cc, url)
    requires Flank(cc, n, '[') && Flank(cc, n, ')')
    ensures Rendered(cc, Repeat('*', n) + SpellLink(Repeat('*', n) + w + Repeat('*', n), url) + Repeat('*', n), false)
         == Inline.Emphasis(n, Wrap(Link(url), Inline.Emphasis(n, Texts(w))))
  {
    var text := Repeat('*', n) + w + Repeat('*', n);
    assert ']' !in text;
    MatchedRunIsEmphasis(cc, n, w, true);
    hide Tokenized, SpellAll, SpellLink, Linkable, Texts, Wrap, Rendered, Repeat, Run, Finished;
    var s := Repeat('*', n) + SpellLink(text, url) + Repeat('*', n);
    var open, close := AroundLink(cc, n, text, url, s);
    var ps := Wrap(Link(url), Inline.Emphasis(n, Texts(w)));
    assert CanClose(cc, close);
    AroundOne(cc, open, LinkTo(text, url), close, ps, false);
    RenderedIs(cc, s);
  }

  lemma RenderedIs(cc: CharClass, s: string)
    ensures Rendered(cc, s, false) == Finished(Run(cc, Tokenized(cc, s), EMPTY, false))
  {
  }

  // ----- one pair of runs in ordinary text -----

  /** Text the tokenizer passes through, if any. */
  predicate Passes(w: string) {
    forall i :: 0 <= i < |w| ==> Ordinary(w[i])
  }

  /**
   A run of `n` between `y` and `w` may open: at most three stars, against neither a space nor, alone,
   punctuation; and before it nothing, a space, or punctuation that no word is glued to.
   */
  predicate OpensBetween(cc: CharClass, y: string, n: nat, w: string)
    requires w != ""
  {
    && n <= 3 && !cc.isSpace(w[0]) && !(n == 1 && cc.isPunct(w[0]))
    && (|| y == ""
        || cc.isSpace(y[|y| - 1])
        || (cc.isPunct(y[|y| - 1]) && n != 1 && (|y| == 1 || cc.isSpace(y[|y| - 2]))))
  }

  /**
   A run of `n` between `w` and `x` may close: at most three stars, against neither a space nor, alone,
   punctuation; and after punctuation only before nothing, a space or more punctuation.
   */
  predicate ClosesBetween(cc: CharClass, w: string, n: nat, x: string)
    requires w != ""
  {
    var last := w[|w| - 1];
    && n <= 3 && !cc.isSpace(last) && !(n == 1 && cc.isPunct(last))
    && (cc.isPunct(last) ==> x == "" || cc.isSpace(x[0]) || cc.isPunct(x[0]))
  }

  lemma {:induction false} RunConcat(cc: CharClass, a: seq<Token>, b: seq<Token>, st: State, inLink: bool)
    ensures Run(cc, a + b, st, inLink) == Run(cc, b, Run(cc, a, st, inLink), inLink)
    decreases |a|
  {
    hide Turn;
    if a == [] {
      assert a + b == b;
    } else {
      assert (a + b)[0] == a[0] && (a + b)[1..] == a[1..] + b;
      RunConcat(cc, a[1..], b, Turn(cc, st, a[0], inLink), inLink);
    }
  }

  /** A line of ordinary text with two runs of stars in it. */
  function PairLine(y: string, n: nat, w: string, x: string): string {
    y + Repeat('*', n) + w + Repeat('*', n) + x
  }

  /** `s` is `y`, `n` stars, `w`, `n` stars and `x`. */
  predicate PairIn(s: string, y: string, n: nat, w: string, x: string) {
    var (i, j) := (|y|, |y| + n + |w|);
    && |s| == j + n + |x| && s[..i] == y && s[i + n..j] == w && s[j + n..] == x
    && (forall k :: i <= k < i + n ==> s[k] == '*') && (forall k :: j <= k < j + n ==> s[k] == '*')
  }

  lemma PairCut(y: string, n: nat, w: string, x: string)
    ensures PairIn(PairLine(y, n, w, x), y, n, w, x)
  {
    var s := PairLine(y, n, w, x);
    assert s == y + (Repeat('*', n) + w + Repeat('*', n) + x);
    assert s[|y| + n..] == w + (Repeat('*', n) + x);
    assert s[|y| + n + |w| + n..] == x;
  }

  lemma PairTokens(cc: CharClass, s: string, y: string, n: nat, w: string, x: string)
    requires n > 0 && w != "" && Passes(y) && Passes(w) && Passes(x) && PairIn(s, y, n, w, x)
    ensures var (open, close) := (StarsToken(s, |y|, n), StarsToken(s, |y| + n + |w|, n));
      Tokenized(cc, s) == Flushed(y) + [open, Literal(w), close] + Flushed(x)
  {
    var i, j := |y|, |y| + n + |w|;
    var open, close := StarsToken(s, i, n), StarsToken(s, j, n);
    assert s[0..i] == y && s[j + n..|s|] == x;
    hide TokenAt, Scan, StarsToken, Passes;
    PassedOver(cc, s, 0, i, y);
    RunThenText(cc, s, i, n, j, y, w);
    RunThenText(cc, s, j, n, |s|, w, x);
    ScanEnd(cc, s, x);
    hide PairIn;
    JoinTokens(Flushed(y), open, w, close, Flushed(x));
  }

  lemma RunThenText(cc: CharClass, s: string, i: nat, n: nat, m: nat, lit: string, w: string)
    requires n > 0 && i + n <= m <= |s| && s[i + n..m] == w && Passes(w) && (w == "" ==> m == |s|)
    requires forall k :: i <= k < i + n ==> s[k] == '*'
    ensures Scan(cc, s, i, lit) == Flushed(lit) + ([StarsToken(s, i, n)] + Scan(cc, s, m, w))
  {
    hide TokenAt, Scan, StarsToken;
    if w != "" { assert s[i + n] == w[0]; }
    ScanStars(cc, s, i, n, lit);
    PassedOver(cc, s, i + n, m, w);
  }

  lemma JoinTokens(a: seq<Token>, open: Token, w: string, close: Token, b: seq<Token>)
    requires w != ""
    ensures a + ([open] + (Flushed(w) + ([close] + b))) == a + [open, Literal(w), close] + b
  {
  }

  /** What the tokenizer hands over of the text around the two runs. */
  lemma PairFlanks(cc: CharClass, s: string, y: string, n: nat, w: string, x: string)
    requires n > 0 && w != "" && Passes(y) && Passes(w) && Passes(x) && PairIn(s, y, n, w, x)
    ensures CanOpen(cc, StarsToken(s, |y|, n)) <==> OpensBetween(cc, y, n, w)
    ensures CanClose(cc, StarsToken(s, |y| + n + |w|, n)) <==> ClosesBetween(cc, w, n, x)
  {
    var i, j := |y|, |y| + n + |w|;
    assert s[i + n] == w[0] && s[j - 1] == w[|w| - 1] && (x != "" ==> s[j + n] == x[0]);
    assert (y != "" ==> s[i - 1] == y[|y| - 1]) && (|y| > 1 ==> s[i - 2] == y[|y| - 2]);
  }

  lemma PassedOver(cc: CharClass, s: string, i: nat, j: nat, w: string)
    requires i <= j <= |s| && s[i..j] == w && Passes(w)
    ensures Scan(cc, s, i, "") == Scan(cc, s, j, w)
  {
    hide Scan;
    forall k | i <= k < j ensures Ordinary(s[k]) { assert s[k] == w[k - i]; }
    ScanOrdinary(cc, s, i, j, "");
    assert "" + s[i..j] == w;
  }

  lemma ScanEnd(cc: CharClass, s: string, lit: string)
    ensures Scan(cc, s, |s|, lit) == Flushed(lit)
  {
  }

  /** No markup yet: the root and every open buffer are text. */
  predicate AllText(ps: seq<Piece>) {
    forall i :: 0 <= i < |ps| ==> ps[i].Text?
  }

  predicate Unmarked(st: State) {
    AllText(st.root) && forall i :: 0 <= i < |st.stack| ==> AllText(st.stack[i].buf)
  }

  /** Text stays text, and so does a run that closes nothing. */
  lemma UnmarkedTurn(cc: CharClass, st: State, tk: Token, inLink: bool)
    requires Unmarked(st) && (tk.Literal? || (tk.Stars? && (st.stack == [] || !CanClose(cc, tk))))
    ensures Unmarked(Turn(cc, st, tk, inLink))
  {
    hide CanOpen, CanClose;
  }

  lemma {:induction false} UnmarkedFinished(st: State)
    requires Unmarked(st)
    ensures AllText(Finished(st))
    decreases |st.stack|
  {
    if st.stack != [] { UnmarkedFinished(Spill(st)); }
  }

  lemma {:induction false} TextReads(ps: seq<Piece>)
    requires AllText(ps) && Whole(ps)
    ensures ps == Texts(Source(ps))
  {
    if ps != [] {
      assert Whole(ps[1..]);
      TextReads(ps[1..]);
      assert Source(ps) == [ps[0].c] + Source(ps[1..]);
      assert Source(ps)[1..] == Source(ps[1..]);
    }
  }

  /** What is rendered without any tag is the line as typed. */
  lemma UnmarkedIsTyped(cc: CharClass, s: string)
    requires AllText(Rendered(cc, s, false))
    ensures Rendered(cc, s, false) == Texts(s)
  {
    RenderingIsLossless(cc, s, false);
    TextReads(Rendered(cc, s, false));
  }

  lemma FlushedText(cc: CharClass, st: State, y: string)
    requires st.stack == []
    ensures Run(cc, Flushed(y), st, false) == State(st.root + Texts(y), [])
  {
    if y == "" {
      assert st.root + Texts(y) == st.root;
    } else {
      assert [Literal(y)][1..] == [];
    }
  }

  /**
   The whole decision on a pair of runs: in ordinary text `y`, `w` and `x`, the stars around `w` become
   emphasis exactly when the first run may open where it stands and the second may close where it stands;
   otherwise the line stays as typed. `(**a) and (**b)` does: its second run is wedged between `(` and `b`.
   */
  lemma PairIsEmphasisIff(cc: CharClass, y: string, n: nat, w: string, x: string)
    requires n > 0 && w != "" && Passes(y) && Passes(w) && Passes(x)
    ensures Rendered(cc, PairLine(y, n, w, x), false) ==
      if OpensBetween(cc, y, n, w) && ClosesBetween(cc, w, n, x)
      then Texts(y) + Inline.Emphasis(n, Texts(w)) + Texts(x)
      else Texts(PairLine(y, n, w, x))
  {
    var s := PairLine(y, n, w, x);
    PairCut(y, n, w, x);
    PairFlanks(cc, s, y, n, w, x);
    PairTokens(cc, s, y, n, w, x);
    hide PairLine, PairIn, Tokenized, OpensBetween, ClosesBetween, CanOpen, CanClose, Texts, Passes, StarsToken;
    hide Inline.Emphasis, Rendered;
    PairRenders(cc, s, y, StarsToken(s, |y|, n), w, StarsToken(s, |y| + n + |w|, n), x);
  }

  lemma PairRenders(cc: CharClass, s: string, y: string, open: Token, w: string, close: Token, x: string)
    requires Tokenized(cc, s) == Flushed(y) + [open, Literal(w), close] + Flushed(x)
    requires open.Stars? && close.Stars? && open.run == close.run
    ensures Rendered(cc, s, false) ==
      if CanOpen(cc, open) && CanClose(cc, close)
      then Texts(y) + Inline.Emphasis(open.run, Texts(w)) + Texts(x)
      else Texts(s)
  {
    var three, st := [open, Literal(w), close], State(Texts(y), []);
    assert [] + Texts(y) == Texts(y);
    FlushedText(cc, EMPTY, y);
    hide CanOpen, CanClose, Inline.Emphasis, Run, Tokenized, Flushed, Rendered;
    RunConcat(cc, Flushed(y), three, EMPTY, false);
    RunConcat(cc, Flushed(y) + three, Flushed(x), EMPTY, false);
    RunConcat(cc, three, Flushed(x), st, false);
    RenderedIs(cc, s);
    if CanOpen(cc, open) && CanClose(cc, close) {
      PairCloses(cc, st, open, w, close);
      FlushedText(cc, Run(cc, three, st, false), x);
    } else {
      PairStays(cc, st, open, w, close, x);
      UnmarkedIsTyped(cc, s);
    }
  }

  /** A run that opens, text, and the run that closes it, on whatever is open around them. */
  lemma PairCloses(cc: CharClass, st: State, open: Token, w: string, close: Token)
    requires open.Stars? && close.Stars? && open.run == close.run && CanOpen(cc, open) && CanClose(cc, close)
    requires !IsOpen(st.stack, open.run) && (st.stack == [] || (open.run < 3 && !CanClose(cc, open)))
    ensures Run(cc, [open, Literal(w), close], st, false) == Written(st, Inline.Emphasis(open.run, Texts(w)))
  {
    hide CanOpen, CanClose, Texts, Inline.Emphasis, IsOpen;
    RunThree(cc, open, Literal(w), close, st, false);
    hide Run;
    var n := open.run;
    var before := State(st.root, st.stack + [Frame(n, [])]);
    assert Turn(cc, st, open, false) == before;
    assert [] + Texts(w) == Texts(w) && Below(before.stack) == st.stack;
    var inside := State(st.root, st.stack + [Frame(n, Texts(w))]);
    assert Turn(cc, before, Literal(w), false) == inside;
    assert Below(inside.stack) == st.stack;
    assert TopClosed(inside) == Written(st, Inline.Emphasis(n, Texts(w)));
  }

  lemma PairStays(cc: CharClass, st: State, open: Token, w: string, close: Token, x: string)
    requires st.stack == [] && Unmarked(st) && open.Stars? && close.Stars? && open.run == close.run
    requires !(CanOpen(cc, open) && CanClose(cc, close))
    ensures AllText(Finished(Run(cc, [open, Literal(w), close] + Flushed(x), st, false)))
  {
    var three := [open, Literal(w), close];
    RunConcat(cc, three, Flushed(x), st, false);
    RunThree(cc, open, Literal(w), close, st, false);
    var a := Turn(cc, st, open, false);
    var b := Turn(cc, a, Literal(w), false);
    UnmarkedTurn(cc, st, open, false);
    UnmarkedTurn(cc, a, Literal(w), false);
    assert !CanOpen(cc, open) ==> b.stack == [];
    UnmarkedTurn(cc, b, close, false);
    var c := Turn(cc, b, close, false);
    if x != "" {
      UnmarkedTurn(cc, c, Literal(x), false);
      assert [Literal(x)][1..] == [];
    }
    UnmarkedFinished(Run(cc, Flushed(x), c, false));
  }

  /** The html of such a line, to the letter. */
  lemma PairHtml(cc: CharClass, y: string, n: nat, w: string, x: string)
    requires n > 0 && w != "" && Passes(y) && Passes(w) && Passes(x)
    requires OpensBetween(cc, y, n, w) && ClosesBetween(cc, w, n, x)
    ensures ShowAll(Rendered(cc, PairLine(y, n, w, x), false)) ==
      EscapeText(y)
      + ((if n == 1 then "<i>" else if n == 2 then "<b>" else "<b><i>") + EscapeText(w) +
         (if n == 1 then "</i>" else if n == 2 then "</b>" else "</i></b>"))
      + EscapeText(x)
  {
    PairIsEmphasisIff(cc, y, n, w, x);
    hide Rendered, PairLine, OpensBetween, ClosesBetween, Passes, Inline.Emphasis, ShowAll, Texts, EscapeText;
    ShowTexts(y);
    ShowTexts(w);
    ShowTexts(x);
    ShowEmphasis(n, Texts(w));
    ShowAllConcat(Texts(y), Inline.Emphasis(n, Texts(w)));
    ShowAllConcat(Texts(y) + Inline.Emphasis(n, Texts(w)), Texts(x));
  }

  // ----- one pair inside another -----

  /** `n` stars, `u`, `m` stars, `v`, `m` stars, `w` and `n` stars. */
  function NestedLine(n: nat, u: string, m: nat, v: string, w: string): string {
    Repeat('*', n) + u + Repeat('*', m) + v + Repeat('*', m) + w + Repeat('*', n)
  }

  predicate StarsFrom(s: string, i: nat, n: nat) {
    i + n <= |s| && forall k :: i <= k < i + n ==> s[k] == '*'
  }

  lemma NestedCut(n: nat, u: string, m: nat, v: string, w: string)
    ensures var s := NestedLine(n, u, m, v, w);
      var (b, c, d) := (n + |u|, n + |u| + m + |v|, n + |u| + m + |v| + m + |w|);
      && |s| == d + n && s[n..b] == u && s[b + m..c] == v && s[c + m..d] == w
      && StarsFrom(s, 0, n) && StarsFrom(s, b, m) && StarsFrom(s, c, m) && StarsFrom(s, d, n)
  {
    var outer, inner := Repeat('*', n), Repeat('*', m);
    var s := NestedLine(n, u, m, v, w);
    var p2 := outer + u;
    var p3 := p2 + inner;
    var p4 := p3 + v;
    var p5 := p4 + inner;
    var p6 := p5 + w;
    assert s == p6 + outer;
    hide NestedLine, Repeat, StarsFrom;
    PrefixOf(p6, outer, s);
    PrefixOf(p5, w, s);
    PrefixOf(p4, inner, s);
    PrefixOf(p3, v, s);
    PrefixOf(p2, inner, s);
    PrefixOf(outer, u, s);
    assert "" + outer == outer;
    PrefixOf("", outer, s);
    StarsSlice(s, 0, n);
    StarsSlice(s, |p2|, m);
    StarsSlice(s, |p4|, m);
    StarsSlice(s, |p6|, n);
  }

  lemma PrefixOf(p: string, x: string, s: string)
    requires p + x <= s
    ensures p <= s && s[|p|..|p| + |x|] == x
  {
    assert s[..|p + x|] == p + x;
  }

  lemma StarsSlice(s: string, i: nat, n: nat)
    requires i + n <= |s| && s[i..i + n] == Repeat('*', n)
    ensures StarsFrom(s, i, n)
  {
    StarsAt(s, i, n);
  }

  /** The tokens of such a line when the inner pair has a space on each side. */
  lemma NestedTokens(cc: CharClass, n: nat, u: string, m: nat, v: string, w: string)
    requires n > 0 && m > 0 && OrdinaryText(u) && OrdinaryText(v) && OrdinaryText(w)
    ensures var s := NestedLine(n, u, m, v, w);
      var (b, c, d) := (n + |u|, n + |u| + m + |v|, n + |u| + m + |v| + m + |w|);
      Tokenized(cc, s) ==
        [StarsToken(s, 0, n), Literal(u), StarsToken(s, b, m), Literal(v), StarsToken(s, c, m), Literal(w),
         StarsToken(s, d, n)]
  {
    var s := NestedLine(n, u, m, v, w);
    var b, c, d := n + |u|, n + |u| + m + |v|, n + |u| + m + |v| + m + |w|;
    NestedCut(n, u, m, v, w);
    hide NestedLine, Scan, StarsToken, TokenAt;
    assert s[d + n..|s|] == "";
    RunThenText(cc, s, 0, n, b, "", u);
    RunThenText(cc, s, b, m, c, u, v);
    RunThenText(cc, s, c, m, d, v, w);
    RunThenText(cc, s, d, n, |s|, w, "");
    ScanEnd(cc, s, "");
    hide StarsFrom, OrdinaryText;
  }

  /** An outer pair of `n`, an inner one of `m` with a space on each side, and text they may wrap. */
  predicate Nestable(cc: CharClass, n: nat, u: string, m: nat, v: string, w: string) {
    && 1 <= n <= 2 && m == 3 - n
    && OrdinaryText(u) && Flank(cc, n, u[0]) && cc.isSpace(u[|u| - 1])
    && Wrappable(cc, m, v)
    && OrdinaryText(w) && cc.isSpace(w[0]) && Flank(cc, n, w[|w| - 1])
  }

  /** `**u *v* w**` and `*u **v** w*`: the inner run closes and leaves the outer one open. */
  lemma NestedPairIsEmphasis(cc: CharClass, n: nat, u: string, m: nat, v: string, w: string)
    requires Nestable(cc, n, u, m, v, w)
    ensures Rendered(cc, NestedLine(n, u, m, v, w), false) ==
      Inline.Emphasis(n, Texts(u) + Inline.Emphasis(m, Texts(v)) + Texts(w))
  {
    var s := NestedLine(n, u, m, v, w);
    var b, c, d := n + |u|, n + |u| + m + |v|, n + |u| + m + |v| + m + |w|;
    NestedTokens(cc, n, u, m, v, w);
    hide NestedLine, Tokenized, Flank, CanOpen, CanClose, Texts, Run, Finished, Rendered, Inline.Emphasis;
    NestedOuter(cc, n, u, m, v, w);
    NestedInner(cc, n, u, m, v, w);
    RenderedIs(cc, s);
    hide OrdinaryText;
    NestedRuns(cc, StarsToken(s, 0, n), u, StarsToken(s, b, m), v, StarsToken(s, c, m), w, StarsToken(s, d, n));
  }

  lemma NestedOuter(cc: CharClass, n: nat, u: string, m: nat, v: string, w: string)
    requires Nestable(cc, n, u, m, v, w)
    ensures var s := NestedLine(n, u, m, v, w);
      && CanOpen(cc, StarsToken(s, 0, n)) && CanClose(cc, StarsToken(s, n + |u| + m + |v| + m + |w|, n))
  {
    var s := NestedLine(n, u, m, v, w);
    OrdinaryEnds(u);
    OrdinaryEnds(w);
    NestedEnds(n, u, m, v, w);
    hide NestedLine, OrdinaryText, CanOpen, CanClose, Flank, StarsToken;
    OpensAt(cc, s, 0, n);
    ClosesAtEnd(cc, s, n + |u| + m + |v| + m + |w|, n);
  }

  lemma NestedInner(cc: CharClass, n: nat, u: string, m: nat, v: string, w: string)
    requires Nestable(cc, n, u, m, v, w)
    ensures var s := NestedLine(n, u, m, v, w);
      var (b, c) := (n + |u|, n + |u| + m + |v|);
      && CanOpen(cc, StarsToken(s, b, m)) && !CanClose(cc, StarsToken(s, b, m)) && CanClose(cc, StarsToken(s, c, m))
  {
    var s := NestedLine(n, u, m, v, w);
    OrdinaryEnds(v);
    NestedEnds(n, u, m, v, w);
    hide NestedLine, OrdinaryText, CanOpen, CanClose, Flank, StarsToken;
    OpensAt(cc, s, n + |u|, m);
    ClosesNot(cc, s, n + |u|, m);
    ClosesAtEnd(cc, s, n + |u| + m + |v|, m);
  }

  lemma NestedEnds(n: nat, u: string, m: nat, v: string, w: string)
    requires u != "" && v != "" && w != ""
    ensures var s := NestedLine(n, u, m, v, w);
      var (b, c, d) := (n + |u|, n + |u| + m + |v|, n + |u| + m + |v| + m + |w|);
      && |s| == d + n
      && s[n] == u[0] && s[b - 1] == u[|u| - 1] && s[b + m] == v[0] && s[c - 1] == v[|v| - 1]
      && s[c + m] == w[0] && s[d - 1] == w[|w| - 1]
  {
    var s := NestedLine(n, u, m, v, w);
    var b, c, d := n + |u|, n + |u| + m + |v|, n + |u| + m + |v| + m + |w|;
    NestedCut(n, u, m, v, w);
    hide NestedLine, StarsFrom;
    Ends(s, n, b, u);
    Ends(s, b + m, c, v);
    Ends(s, c + m, d, w);
  }

  /** The characters at the ends of a stretch of a line. */
  lemma Ends(s: string, i: nat, j: nat, w: string)
    requires i <= j <= |s| && s[i..j] == w && w != ""
    ensures s[i] == w[0] && s[j - 1] == w[|w| - 1]
  {
  }

  lemma OpensAt(cc: CharClass, s: string, i: nat, n: nat)
    requires n <= 3 && i + n < |s| && s[i + n] != '\0' && Flank(cc, n, s[i + n])
    requires i > 0 ==> cc.isSpace(s[i - 1])
    ensures CanOpen(cc, StarsToken(s, i, n))
  {
  }

  lemma ClosesAtEnd(cc: CharClass, s: string, i: nat, n: nat)
    requires n <= 3 && 0 < i && i + n <= |s| && s[i - 1] != '\0' && Flank(cc, n, s[i - 1])
    requires i + n < |s| ==> cc.isSpace(s[i + n])
    ensures CanClose(cc, StarsToken(s, i, n))
  {
  }

  lemma ClosesNot(cc: CharClass, s: string, i: nat, n: nat)
    requires 0 < i <= |s| && cc.isSpace(s[i - 1])
    ensures !CanClose(cc, StarsToken(s, i, n))
  {
  }

  lemma OrdinaryEnds(w: string)
    requires OrdinaryText(w)
    ensures Ordinary(w[0]) && Ordinary(w[|w| - 1])
  {
  }

  lemma NestedRuns(
      cc: CharClass, o: Token, a: string, open: Token, v: string, close: Token, z: string, e: Token)
    requires o.Stars? && open.Stars? && close.Stars? && e.Stars? && o.run == e.run && open.run == close.run
    requires 1 <= o.run <= 2 && open.run == 3 - o.run
    requires CanOpen(cc, o) && CanClose(cc, e)
    requires CanOpen(cc, open) && !CanClose(cc, open) && CanClose(cc, close)
    ensures Finished(Run(cc, [o, Literal(a), open, Literal(v), close, Literal(z), e], EMPTY, false)) ==
      Inline.Emphasis(o.run, Texts(a) + Inline.Emphasis(open.run, Texts(v)) + Texts(z))
  {
    var n := o.run;
    var inner := Inline.Emphasis(open.run, Texts(v));
    var st := State([], [Frame(n, Texts(a))]);
    hide CanOpen, CanClose, Texts, Inline.Emphasis;
    var first, pair, last := [o, Literal(a)], [open, Literal(v), close], [Literal(z), e];
    assert [o, Literal(a), open, Literal(v), close, Literal(z), e] == first + (pair + last);
    RunConcat(cc, first, pair + last, EMPTY, false);
    RunConcat(cc, pair, last, st, false);
    assert Run(cc, first, EMPTY, false) == st by {
      RunTwo(cc, o, Literal(a), EMPTY, false);
      assert [] + Texts(a) == Texts(a);
    }
    PairCloses(cc, st, open, v, close);
    var closed := State([], [Frame(n, Texts(a) + inner)]);
    assert Written(st, inner) == closed;
    RunTwo(cc, Literal(z), e, closed, false);
    hide Run;
    var full := State([], [Frame(n, Texts(a) + inner + Texts(z))]);
    assert Turn(cc, closed, Literal(z), false) == full;
    assert TopClosed(full).root == [] + Inline.Emphasis(n, Texts(a) + inner + Texts(z));
  }

  lemma RunTwo(cc: CharClass, a: Token, b: Token, st: State, inLink: bool)
    ensures Run(cc, [a, b], st, inLink) == Turn(cc, Turn(cc, st, a, inLink), b, inLink)
  {
    assert [a, b] == [a] + ([b] + []);
    RunCons(cc, a, [b] + [], st, inLink);
    RunCons(cc, b, [], Turn(cc, st, a, inLink), inLink);
  }

  // ----- markup wherever it stands -----

  /** `part` stands somewhere in `ps`. */
  ghost predicate Within(ps: seq<Piece>, part: seq<Piece>) {
    exists a, b :: ps == a + part + b
  }

  lemma WithinMore(a: seq<Piece>, ps: seq<Piece>, b: seq<Piece>, part: seq<Piece>)
    requires Within(ps, part)
    ensures Within(a + ps + b, part)
  {
    var x, y :| ps == x + part + y;
    assert a + ps + b == (a + x) + part + (y + b);
  }

  ghost predicate InState(st: State, part: seq<Piece>) {
    Within(st.root, part) || exists i :: 0 <= i < |st.stack| && Within(st.stack[i].buf, part)
  }

  lemma WrittenHas(st: State, ps: seq<Piece>, part: seq<Piece>)
    requires InState(st, part) || Within(ps, part)
    ensures InState(Written(st, ps), part)
  {
    hide Within;
    var after := Written(st, ps);
    var buf := if st.stack == [] then st.root else Top(st.stack).buf;
    if Within(buf, part) { WithinMore([], buf, ps, part); }
    if Within(ps, part) { WithinMore(buf, ps, [], part); }
    assert [] + buf + ps == buf + ps && buf + ps + [] == buf + ps;
    if st.stack == [] {
      assert after.root == buf + ps;
    } else {
      assert after.stack[|st.stack| - 1].buf == buf + ps;
      if i :| 0 <= i < |st.stack| - 1 && Within(st.stack[i].buf, part) { assert after.stack[i] == st.stack[i]; }
    }
  }

  /** A fragment made of the innermost buffer and more, written where that buffer was. */
  lemma PoppedHas(st: State, ps: seq<Piece>, part: seq<Piece>)
    requires st.stack != [] && InState(st, part)
    requires Within(Top(st.stack).buf, part) ==> Within(ps, part)
    ensures InState(Written(Popped(st), ps), part)
  {
    hide Within;
    if !Within(Top(st.stack).buf, part) && !Within(st.root, part) {
      var i :| 0 <= i < |st.stack| && Within(st.stack[i].buf, part);
      assert Popped(st).stack[i] == st.stack[i];
    }
    WrittenHas(Popped(st), ps, part);
  }

  lemma TopClosedHas(st: State, part: seq<Piece>)
    requires st.stack != [] && InState(st, part)
    ensures InState(TopClosed(st), part)
  {
    var f := Top(st.stack);
    hide Within, InState;
    if Within(f.buf, part) {
      WithinMore([Open(Italic)], f.buf, [Close(NameI)], part);
      WithinMore([Open(Bold)], f.buf, [Close(NameB)], part);
      WithinMore([Open(Bold)], Wrap(Italic, f.buf), [Close(NameB)], part);
    }
    PoppedHas(st, Inline.Emphasis(f.run, f.buf), part);
  }

  lemma SpillHas(st: State, part: seq<Piece>)
    requires st.stack != [] && InState(st, part)
    ensures InState(Spill(st), part)
  {
    var f := Top(st.stack);
    var stars := Texts(Repeat('*', f.run));
    hide Within, InState, Texts;
    if Within(f.buf, part) { WithinMore(stars, f.buf, [], part); }
    assert stars + f.buf + [] == stars + f.buf;
    PoppedHas(st, stars + f.buf, part);
  }

  lemma {:induction false} FinishedHas(st: State, part: seq<Piece>)
    requires InState(st, part)
    ensures Within(Finished(st), part)
    decreases |st.stack|
  {
    hide Within;
    if st.stack != [] {
      SpillHas(st, part);
      FinishedHas(Spill(st), part);
    }
  }

  lemma TurnHas(cc: CharClass, st: State, tk: Token, part: seq<Piece>)
    requires InState(st, part)
    ensures InState(Turn(cc, st, tk, false), part)
  {
    hide InState, TopClosed, CanOpen, CanClose;
    match tk
    case Literal(text) => WrittenHas(st, Texts(text), part);
    case CodeSpan(text) => WrittenHas(st, Wrap(Code, Texts(text)), part);
    case LinkTo(text, url) => WrittenHas(st, Wrap(Link(url), Rendered(cc, text, true)), part);
    case Stars(n, _, _, _) =>
      if st.stack != [] {
        TopClosedHas(st, part);
        if Fused(st.stack) { StillOpen(st); TopClosedHas(TopClosed(st), part); }
      }
      WrittenHas(st, Texts(Repeat('*', n)), part);
      PushHas(st, n, part);
  }

  lemma StillOpen(st: State)
    requires Fused(st.stack)
    ensures TopClosed(st).stack != []
  {
  }

  lemma PushHas(st: State, n: nat, part: seq<Piece>)
    requires InState(st, part)
    ensures InState(State(st.root, st.stack + [Frame(n, [])]), part)
  {
    hide Within;
    if i :| 0 <= i < |st.stack| && Within(st.stack[i].buf, part) {
      assert (st.stack + [Frame(n, [])])[i] == st.stack[i];
    }
  }

  lemma {:induction false} RunHas(cc: CharClass, toks: seq<Token>, st: State, part: seq<Piece>)
    requires InState(st, part)
    ensures InState(Run(cc, toks, st, false), part)
    decreases |toks|
  {
    hide InState, Turn;
    if toks != [] {
      TurnHas(cc, st, toks[0], part);
      RunHas(cc, toks[1..], Turn(cc, st, toks[0], false), part);
    }
  }

  /** What a token other than a run of stars is rendered as. */
  function MarkupOf(cc: CharClass, t: Token): seq<Piece>
    requires !t.Stars?
  {
    match t
    case Literal(text) => Texts(text)
    case CodeSpan(text) => Wrap(Code, Texts(text))
    case LinkTo(text, url) => Wrap(Link(url), Rendered(cc, text, true))
  }

  /** Markup in ordinary text is one token between two literals. */
  lemma MarkupInText(cc: CharClass, y: string, t: Token, x: string)
    requires Markup(cc, t) && Passes(y) && Passes(x)
    ensures Rendered(cc, y + Spelling(t) + x, false) == Texts(y) + MarkupOf(cc, t) + Texts(x)
  {
    var s, st, part := y + Spelling(t) + x, State(Texts(y), []), MarkupOf(cc, t);
    MarkupTokens(cc, y, t, x);
    assert [] + Texts(y) == Texts(y);
    FlushedText(cc, EMPTY, y);
    FlushedText(cc, State(Texts(y) + part, []), x);
    assert Turn(cc, st, t, false) == State(Texts(y) + part, []);
    hide Tokenized, Flushed, Run, Texts, Passes, Markup, MarkupOf, Rendered, Turn, Spelling;
    RunConcat(cc, Flushed(y), [t] + Flushed(x), EMPTY, false);
    RunCons(cc, t, Flushed(x), st, false);
    RenderedIs(cc, s);
  }

  lemma MarkupTokens(cc: CharClass, y: string, t: Token, x: string)
    requires Markup(cc, t) && Passes(y) && Passes(x)
    ensures Tokenized(cc, y + Spelling(t) + x) == Flushed(y) + ([t] + Flushed(x))
  {
    var mid := Spelling(t);
    assert mid != "";
    hide Scan, Markup, TokenAt, Spelling, Passes;
    MarkupRoundTrip(cc, y, t, x);
    TextTokenText(cc, y + mid + x, |y|, |y| + |mid|, y, t, x);
  }

  lemma TextTokenText(cc: CharClass, s: string, i: nat, j: nat, y: string, t: Token, x: string)
    requires i < j <= |s| && s[..i] == y && s[j..] == x && Passes(y) && Passes(x)
    requires TokenAt(cc, s, i) == Some((t, j - i))
    ensures Tokenized(cc, s) == Flushed(y) + ([t] + Flushed(x))
  {
    hide Scan, TokenAt, Passes;
    assert s[0..i] == y && s[j..|s|] == x;
    PassedOver(cc, s, 0, i, y);
    ScanToken(cc, s, i, y, t, j - i);
    PassedOver(cc, s, j, |s|, x);
    ScanEnd(cc, s, x);
  }

  /** Whatever emphasis stands around it, a code span of a line is code in the html and a link is a link. */
  lemma MarkupSurvives(cc: CharClass, s: string, t: Token)
    requires t in Tokenized(cc, s) && !t.Stars?
    ensures Within(Rendered(cc, s, false), MarkupOf(cc, t))
  {
    hide Tokenized, Run, Finished, InState, Within;
    var toks, part := Tokenized(cc, s), MarkupOf(cc, t);
    var i :| 0 <= i < |toks| && toks[i] == t;
    assert toks == toks[..i] + ([t] + toks[i + 1..]);
    var st := Run(cc, toks[..i], EMPTY, false);
    RunConcat(cc, toks[..i], [t] + toks[i + 1..], EMPTY, false);
    RunCons(cc, t, toks[i + 1..], st, false);
    assert Within(part, part) by { WithinItself(part); }
    WrittenHas(st, part, part);
    assert Turn(cc, st, t, false) == Written(st, part);
    RunHas(cc, toks[i + 1..], Written(st, part), part);
    FinishedHas(Run(cc, toks, EMPTY, false), part);
    RenderedIs(cc, s);
  }

  lemma WithinItself(part: seq<Piece>)
    ensures Within(part, part)
  {
    assert part == [] + part + [];
  }

  /** Four asterisks or more are never a delimiter, whatever they surround. */
  lemma LongRunsAreLiteral(cc: CharClass, n: nat, w: string)
    requires n > MAX_RUN && OrdinaryText(w)
    ensures Rendered(cc, Repeat('*', n) + w + Repeat('*', n), false) == Texts(Repeat('*', n) + w + Repeat('*', n))
  {
    hide Tokenized, SpellAll;
    var s := Repeat('*', n) + w + Repeat('*', n);
    var open, close := MatchedTokens(cc, n, w, s);
    RunThree(cc, open, Literal(w), close, EMPTY, false);
    var stars := Texts(Repeat('*', n));
    assert Turn(cc, EMPTY, open, false) == State([] + stars, []);
    assert [] + stars + Texts(w) + stars == Texts(s);
  }

  /** The line of `n` stars, `u`, a space, `3 - n` stars, `v` and three stars, cut at its second and third run. */
  predicate FusedLine(n: nat, u: string, v: string, s: string, i: nat, j: nat)
    requires 1 <= n <= 2
  {
    && u != "" && v != "" && i == n + |u| + 1 && j == i + (3 - n) + |v| && |s| == j + 3
    && s[..n] == Repeat('*', n) && s[n..i] == u + " " && s[i - 1] == ' '
    && s[i..i + (3 - n)] == Repeat('*', 3 - n) && s[i + (3 - n)..j] == v && s[j..] == Repeat('*', 3)
  }

  function FusedText(n: nat, u: string, v: string): string
    requires 1 <= n <= 2
  {
    Repeat('*', n) + (u + " ") + Repeat('*', 3 - n) + v + Repeat('*', 3)
  }

  lemma FusedCut(n: nat, u: string, v: string)
    requires 1 <= n <= 2 && u != "" && v != ""
    ensures FusedLine(n, u, v, FusedText(n, u, v), n + |u| + 1, n + |u| + 1 + (3 - n) + |v|)
  {
  }

  lemma StarsAt(s: string, i: nat, k: nat)
    requires i + k <= |s| && s[i..i + k] == Repeat('*', k)
    ensures forall x :: i <= x < i + k ==> s[x] == '*'
  {
    forall x | i <= x < i + k ensures s[x] == '*' { assert s[x] == s[i..i + k][x - i]; }
  }

  /** Ordinary text is collected whole. */
  lemma ScanText(cc: CharClass, s: string, i: nat, j: nat, w: string)
    requires i < j <= |s| && s[i..j] == w && forall k :: 0 <= k < |w| ==> Ordinary(w[k])
    ensures Scan(cc, s, i, "") == Scan(cc, s, j, w)
    ensures s[i] == w[0] && s[j - 1] == w[|w| - 1]
  {
    hide TokenAt, Scan;
    calc {
      Scan(cc, s, i, "");
      { forall k | i <= k < j ensures Ordinary(s[k]) { assert s[k] == w[k - i]; }
        ScanOrdinary(cc, s, i, j, ""); }
      Scan(cc, s, j, "" + s[i..j]);
      { assert "" + s[i..j] == w; }
      Scan(cc, s, j, w);
    }
  }

  /** A run of stars at the end of the line. */
  lemma ScanLastStars(cc: CharClass, s: string, i: nat, k: nat, lit: string)
    requires 0 < k && i + k == |s| && s[i..] == Repeat('*', k) && lit != ""
    ensures Scan(cc, s, i, lit) == [Literal(lit), StarsToken(s, i, k)]
  {
    hide TokenAt, Scan;
    assert s[i..i + k] == s[i..];
    StarsAt(s, i, k);
    ScanStars(cc, s, i, k, lit);
    ScanOver(cc, s);
  }

  /** The tokens of such a line. */
  lemma FusedTokens(cc: CharClass, n: nat, u: string, v: string, s: string, i: nat, j: nat)
    returns (a: Token, b: Token, c: Token)
    requires 1 <= n <= 2 && OrdinaryText(u) && OrdinaryText(v) && FusedLine(n, u, v, s, i, j)
    ensures Tokenized(cc, s) == [a, Literal(u + " "), b, Literal(v), c]
    ensures a == Stars(n, '\0', '\0', u[0])
    ensures b.Stars? && b == Stars(3 - n, ' ', b.prev2, v[0])
    ensures c.Stars? && c == Stars(3, v[|v| - 1], c.prev2, '\0')
  {
    hide TokenAt, Scan;
    a, b, c := StarsToken(s, 0, n), StarsToken(s, i, 3 - n), StarsToken(s, j, 3);
    ScanText(cc, s, n, i, u + " ");
    ScanText(cc, s, i + (3 - n), j, v);
    ScanLastStars(cc, s, j, 3, v);
    assert s[0..n] == s[..n];
    StarsAt(s, 0, n);
    StarsAt(s, i, 3 - n);
    ScanStars(cc, s, i, 3 - n, u + " ");
    ScanStars(cc, s, 0, n, "");
  }

  /**
   `**u *v***` and `*u **v***`: one run of three closes the inner emphasis and then the one around it,
   in either order.
   */
  lemma FusedCloseClosesBoth(cc: CharClass, n: nat, u: string, v: string)
    requires 1 <= n <= 2 && cc.isSpace(' ')
    requires OrdinaryText(u) && Flank(cc, n, u[0]) && Wrappable(cc, 3 - n, v)
    ensures Rendered(cc, FusedText(n, u, v), false) ==
            Inline.Emphasis(n, Texts(u + " ") + Inline.Emphasis(3 - n, Texts(v)))
  {
    hide Tokenized, SpellAll, Texts, Inline.Emphasis, Run, FusedText;
    FusedCut(n, u, v);
    var i := n + |u| + 1;
    var a, b, c := FusedTokens(cc, n, u, v, FusedText(n, u, v), i, i + (3 - n) + |v|);
    FusedTurns(cc, n, a, u + " ", b, v, c);
  }

  lemma RunFive(cc: CharClass, a: Token, b: Token, c: Token, d: Token, e: Token, st: State)
    ensures Run(cc, [a, b, c, d, e], st, false) ==
            Run(cc, [c, d, e], Turn(cc, Turn(cc, st, a, false), b, false), false)
  {
    hide Turn;
    assert [a, b, c, d, e] == [a] + ([b] + [c, d, e]);
    RunCons(cc, a, [b] + [c, d, e], st, false);
    RunCons(cc, b, [c, d, e], Turn(cc, st, a, false), false);
  }

  lemma FusedTurns(cc: CharClass, n: nat, a: Token, x: string, b: Token, y: string, c: Token)
    requires 1 <= n <= 2
    requires a.Stars? && a.run == n && CanOpen(cc, a)
    requires b.Stars? && b.run == 3 - n && CanOpen(cc, b) && !CanClose(cc, b)
    requires c.Stars? && c.run == 3 && CanClose(cc, c)
    ensures Run(cc, [a, Literal(x), b, Literal(y), c], EMPTY, false) ==
            State(Inline.Emphasis(n, Texts(x) + Inline.Emphasis(3 - n, Texts(y))), [])
  {
    hide Run, Texts, Inline.Emphasis, CanOpen, CanClose;
    RunFive(cc, a, Literal(x), b, Literal(y), c, EMPTY);
    OpenOn(cc, a, [], EMPTY);
    var two := State([], [Frame(n, Texts(x))]);
    FirstText(cc, n, x);
    RunThree(cc, b, Literal(y), c, two, false);
    OpenOn(cc, b, [Frame(n, Texts(x))], two);
    FusedEnd(cc, n, Texts(x), y, c);
  }

  lemma FirstText(cc: CharClass, n: nat, x: string)
    ensures Turn(cc, State([], [] + [Frame(n, [])]), Literal(x), false) == State([], [Frame(n, Texts(x))])
  {
    assert [] + Texts(x) == Texts(x);
  }

  lemma OpenOn(cc: CharClass, tk: Token, stack: seq<Frame<seq<Piece>>>, st: State)
    requires tk.Stars? && CanOpen(cc, tk) && st == State([], stack) && !IsOpen(stack, tk.run)
    requires stack == [] || !CanClose(cc, tk)
    ensures Turn(cc, st, tk, false) == State([], stack + [Frame(tk.run, [])])
  {
  }

  lemma FusedEnd(cc: CharClass, n: nat, x: seq<Piece>, y: string, c: Token)
    requires 1 <= n <= 2 && c.Stars? && c.run == 3 && CanClose(cc, c)
    ensures var both := State([], [Frame(n, x)] + [Frame(3 - n, [])]);
      Turn(cc, Turn(cc, both, Literal(y), false), c, false) ==
      State(Inline.Emphasis(n, x + Inline.Emphasis(3 - n, Texts(y))), [])
  {
    hide Inline.Emphasis, Texts;
    var inner := Inline.Emphasis(3 - n, Texts(y));
    var outer := Inline.Emphasis(n, x + inner);
    var both := State([], [Frame(n, x)] + [Frame(3 - n, [])]);
    var full := State([], [Frame(n, x), Frame(3 - n, Texts(y))]);
    assert [] + Texts(y) == Texts(y);
    assert Turn(cc, both, Literal(y), false) == full;
    assert Fused(full.stack);
    var once := State([], [Frame(n, x + inner)]);
    assert TopClosed(full) == once;
    assert TopClosed(once) == State([] + outer, []);
    assert [] + outer == outer;
  }

  /** The shape of `f(**kwargs)`: punctuation glued to a word in front of the run. */
  predicate CallShape(cc: CharClass, tk: Token)
    requires tk.Stars?
  {
    tk.prev != '\0' && cc.isPunct(tk.prev) && !cc.isSpace(tk.prev) && Wedged(cc, tk)
  }

  /** A word in front of the run: neither a space, nothing, nor punctuation. */
  predicate InsideWord(cc: CharClass, tk: Token)
    requires tk.Stars?
  {
    tk.prev != '\0' && !cc.isSpace(tk.prev) && !cc.isPunct(tk.prev)
  }

  /** The shape of globs and varargs, `*.*` or `(*args`: a single star with punctuation beside it. */
  predicate LoneShape(cc: CharClass, tk: Token)
    requires tk.Stars?
  {
    Lone(cc, tk.run, tk.next) || (Lone(cc, tk.run, tk.prev) && tk.prev != '\0' && !cc.isSpace(tk.prev))
  }

  /** Anything but a run that may open a context. */
  predicate Inert(cc: CharClass, tk: Token) {
    tk.Stars? ==> !CanOpen(cc, tk)
  }

  /**
   The shapes of the runs that cannot open, and there are no others: too long, facing a space or the
   end, lone against punctuation, inside a word, or glued to a call.
   */
  lemma InertIffShape(cc: CharClass, tk: Token)
    requires tk.Stars?
    ensures Inert(cc, tk) <==>
      || tk.run > MAX_RUN || tk.next == '\0' || cc.isSpace(tk.next)
      || LoneShape(cc, tk) || InsideWord(cc, tk) || CallShape(cc, tk)
  {
    assert tk.prev == '\0' || cc.isSpace(tk.prev) || cc.isPunct(tk.prev) || InsideWord(cc, tk);
  }

  function LiteralPiece(t: Token): seq<Piece> {
    if t.CodeSpan? then Wrap(Code, Texts(t.text)) else Texts(Spelling(t))
  }

  function LiteralPieces(toks: seq<Token>): seq<Piece> {
    if toks == [] then []
    else LiteralPieces(toks[..|toks| - 1]) + LiteralPiece(toks[|toks| - 1])
  }

  /**
   A command the customer is meant to run keeps its asterisks: when no run on the line can open and
   there is no link, nothing but code spans is marked up.
   */
  lemma {:induction false} InertRunsStayLiteral(cc: CharClass, toks: seq<Token>, k: nat)
    requires k <= |toks| && forall t :: t in toks ==> Inert(cc, t) && !t.LinkTo?
    ensures Run(cc, toks[k..], State(LiteralPieces(toks[..k]), []), false) == State(LiteralPieces(toks), [])
    decreases |toks| - k
  {
    hide Turn, Inert, LiteralPieces;
    if k == |toks| {
      assert toks[..k] == toks && toks[k..] == [];
    } else {
      InertTurn(cc, toks, k);
      assert toks[k..] == [toks[k]] + toks[k + 1..];
      RunCons(cc, toks[k], toks[k + 1..], State(LiteralPieces(toks[..k]), []), false);
      InertRunsStayLiteral(cc, toks, k + 1);
    }
  }

  lemma InertTurn(cc: CharClass, toks: seq<Token>, k: nat)
    requires k < |toks| && Inert(cc, toks[k]) && !toks[k].LinkTo?
    ensures Turn(cc, State(LiteralPieces(toks[..k]), []), toks[k], false) ==
            State(LiteralPieces(toks[..k + 1]), [])
  {
    assert toks[..k + 1][..k] == toks[..k];
  }

  lemma CommandLineStaysLiteral(cc: CharClass, s: string)
    requires forall t :: t in Tokenized(cc, s) ==> Inert(cc, t) && !t.LinkTo?
    ensures Rendered(cc, s, false) == LiteralPieces(Tokenized(cc, s))
  {
    var toks := Tokenized(cc, s);
    InertRunsStayLiteral(cc, toks, 0);
    assert toks[0..] == toks && toks[..0] == [];
  }
}
