/** The inline renderer: a stack machine of emphasis frames over the tokens of one line. */
module Inline {
  import opened Base
  import opened Html
  import opened Tokens

  /** Runs above this length stay as typed. */
  const MAX_RUN: nat := 3

  /** An open emphasis context and the content already rendered inside it. */
  datatype Frame<+T> = Frame(run: nat, buf: T)

  datatype State = State(root: seq<Piece>, stack: seq<Frame<seq<Piece>>>)

  const EMPTY := State([], [])

  predicate Lone(cc: CharClass, n: nat, flank: char) {
    n == 1 && cc.isPunct(flank)
  }

  predicate Wedged(cc: CharClass, tk: Token)
    requires tk.Stars?
  {
    tk.prev2 != '\0' && !cc.isSpace(tk.prev2)
  }

  predicate CanClose(cc: CharClass, tk: Token)
    requires tk.Stars?
  {
    if tk.run > MAX_RUN || tk.prev == '\0' || cc.isSpace(tk.prev) || Lone(cc, tk.run, tk.prev) then false
    else !cc.isPunct(tk.prev) || tk.next == '\0' || cc.isSpace(tk.next) || cc.isPunct(tk.next)
  }

  predicate CanOpen(cc: CharClass, tk: Token)
    requires tk.Stars?
  {
    if tk.run > MAX_RUN || tk.next == '\0' || cc.isSpace(tk.next) || Lone(cc, tk.run, tk.next) then false
    else
      || tk.prev == '\0'
      || cc.isSpace(tk.prev)
      || (cc.isPunct(tk.prev) && !Lone(cc, tk.run, tk.prev) && !Wedged(cc, tk))
  }

  // ----- the stack machine on pieces -----

  function Top<T>(stack: seq<Frame<T>>): Frame<T>
    requires stack != []
  {
    stack[|stack| - 1]
  }

  function Below<T>(stack: seq<Frame<T>>): seq<Frame<T>>
    requires stack != []
  {
    stack[..|stack| - 1]
  }

  function Written(st: State, ps: seq<Piece>): State {
    if st.stack == [] then State(st.root + ps, [])
    else State(st.root, Below(st.stack) + [Frame(Top(st.stack).run, Top(st.stack).buf + ps)])
  }

  function Popped(st: State): State
    requires st.stack != []
  {
    State(st.root, Below(st.stack))
  }

  /** openTag, content, closeTag */
  function Emphasis(run: nat, ps: seq<Piece>): seq<Piece> {
    if run == 1 then Wrap(Italic, ps)
    else if run == 2 then Wrap(Bold, ps)
    else Wrap(Bold, Wrap(Italic, ps))
  }

  function TopClosed(st: State): State
    requires st.stack != []
  {
    Written(Popped(st), Emphasis(Top(st.stack).run, Top(st.stack).buf))
  }

  predicate Fused<T>(stack: seq<Frame<T>>) {
    |stack| >= 2 && Top(stack).run + Top(Below(stack)).run == MAX_RUN
  }

  predicate IsOpen<T>(stack: seq<Frame<T>>, n: nat) {
    if n == MAX_RUN then stack != []
    else exists i :: 0 <= i < |stack| && (stack[i].run == n || stack[i].run == MAX_RUN)
  }

  function StarsTurn(cc: CharClass, st: State, tk: Token): State
    requires tk.Stars?
  {
    var n := tk.run;
    if CanClose(cc, tk) && n == MAX_RUN && Fused(st.stack) then TopClosed(TopClosed(st))
    else if CanClose(cc, tk) && st.stack != [] && Top(st.stack).run == n then TopClosed(st)
    else if CanOpen(cc, tk) && !IsOpen(st.stack, n) then State(st.root, st.stack + [Frame(n, [])])
    else Written(st, Texts(Repeat('*', n)))
  }

  function Turn(cc: CharClass, st: State, tk: Token, inLink: bool): State
    decreases |Spelling(tk)|, 0, 0
  {
    match tk
    case Literal(text) => Written(st, Texts(text))
    case CodeSpan(text) =>
      if inLink then Written(st, Texts("`" + text + "`")) else Written(st, Wrap(Code, Texts(text)))
    case LinkTo(text, url) => Written(st, Wrap(Link(url), Rendered(cc, text, true)))
    case Stars(_, _, _, _) => StarsTurn(cc, st, tk)
  }

  function Run(cc: CharClass, toks: seq<Token>, st: State, inLink: bool): State
    decreases |SpellAll(toks)|, 1, |toks|
  {
    if toks == [] then st else Run(cc, toks[1..], Turn(cc, st, toks[0], inLink), inLink)
  }

  /** What is left open at the end spills out literally, innermost first. */
  function Spill(st: State): (r: State)
    requires st.stack != []
    ensures |r.stack| == |st.stack| - 1
  {
    Written(Popped(st), Texts(Repeat('*', Top(st.stack).run)) + Top(st.stack).buf)
  }

  function Finished(st: State): seq<Piece>
    decreases |st.stack|
  {
    if st.stack == [] then st.root else Finished(Spill(st))
  }

  /** renderInline, and renderLinkText when `inLink`. */
  function Rendered(cc: CharClass, s: string, inLink: bool): seq<Piece>
    decreases |s|, 2, 0
  {
    TokenizeIsLossless(cc, s);
    Finished(Run(cc, Tokenized(cc, s), EMPTY, inLink))
  }

  // ----- what every reachable state keeps -----

  /** The runs open at once, outermost first: none, 1, 2, 3, 1 2 or 2 1. */
  predicate Shape(stack: seq<Frame<seq<Piece>>>) {
    || stack == []
    || (|stack| == 1 && 1 <= stack[0].run <= MAX_RUN)
    || (|stack| == 2 && 1 <= stack[0].run <= 2 && stack[1].run == MAX_RUN - stack[0].run)
  }

  /** Root and every open buffer are complete fragments, plain ones inside a link. */
  predicate Kept(st: State, plain: bool) {
    && Shape(st.stack)
    && Whole(st.root)
    && (plain ==> Plain(st.root))
    && forall i :: 0 <= i < |st.stack| ==> KeptBuf(st.stack[i].buf, plain)
  }

  predicate KeptBuf(ps: seq<Piece>, plain: bool) {
    Whole(ps) && (plain ==> Plain(ps))
  }

  function SpelledFrames(stack: seq<Frame<seq<Piece>>>): string
    requires forall i :: 0 <= i < |stack| ==> Whole(stack[i].buf)
  {
    if stack == [] then ""
    else SpelledFrames(Below(stack)) + (Repeat('*', Top(stack).run) + Source(Top(stack).buf))
  }

  /** The markdown consumed so far, read back from the state. */
  function Spelled(st: State): string
    requires Kept(st, false)
  {
    Source(st.root) + SpelledFrames(st.stack)
  }

  lemma SpelledPush(below: seq<Frame<seq<Piece>>>, f: Frame<seq<Piece>>)
    requires Whole(f.buf) && forall i :: 0 <= i < |below| ==> Whole(below[i].buf)
    ensures SpelledFrames(below + [f]) == SpelledFrames(below) + (Repeat('*', f.run) + Source(f.buf))
  {
    assert Below(below + [f]) == below && Top(below + [f]) == f;
  }

  lemma WriteKeepsRuns(st: State, ps: seq<Piece>)
    ensures Shape(st.stack) ==> Shape(Written(st, ps).stack)
    ensures |Written(st, ps).stack| == |st.stack|
    ensures forall i :: 0 <= i < |st.stack| ==> Written(st, ps).stack[i].run == st.stack[i].run
  {
  }

  lemma AppendInside(a: string, b: string, c: string, d: string, e: string)
    ensures a + (b + (c + (d + e))) == (a + (b + (c + d))) + e
  {
  }

  lemma KeptWrite(st: State, ps: seq<Piece>, plain: bool)
    requires Kept(st, plain) && KeptBuf(ps, plain)
    ensures Kept(Written(st, ps), plain) && Spelled(Written(st, ps)) == Spelled(st) + Source(ps)
  {
    hide Whole, Source, Repeat, Shape;
    WriteKeepsRuns(st, ps);
    if st.stack == [] {
      WholeConcat(st.root, ps);
      assert Source(st.root) + Source(ps) + "" == Source(st.root) + "" + Source(ps);
    } else {
      var f := Top(st.stack);
      WholeConcat(f.buf, ps);
      SpelledPush(Below(st.stack), Frame(f.run, f.buf + ps));
      AppendInside(Source(st.root), SpelledFrames(Below(st.stack)), Repeat('*', f.run), Source(f.buf), Source(ps));
    }
  }

  lemma PlainWrap(t: Tag, ps: seq<Piece>)
    requires Plain(ps) && (t.Bold? || t.Italic?)
    ensures Plain(Wrap(t, ps))
  {
  }

  lemma WholeNone()
    ensures Whole([]) && Source([]) == ""
  {
  }

  lemma KeptEmphasis(run: nat, ps: seq<Piece>, plain: bool)
    requires 1 <= run <= MAX_RUN && KeptBuf(ps, plain)
    ensures KeptBuf(Emphasis(run, ps), plain)
    ensures Source(Emphasis(run, ps)) == Repeat('*', run) + Source(ps) + Repeat('*', run)
  {
    hide Whole, Source, Wrap, Plain;
    if Plain(ps) {
      PlainWrap(Italic, ps);
      PlainWrap(Bold, ps);
      PlainWrap(Bold, Wrap(Italic, ps));
    }
    if run == 1 {
      WholeWrap(Italic, ps);
      assert Repeat('*', 1) == "*";
    } else if run == 2 {
      WholeWrap(Bold, ps);
      assert Repeat('*', 2) == "**";
    } else {
      WholeWrap(Italic, ps);
      WholeWrap(Bold, Wrap(Italic, ps));
      assert Repeat('*', 3) == "**" + "*" == "*" + "**";
      var t := Source(ps);
      assert "**" + ("*" + t + "*") + "**" == ("**" + "*") + t + ("*" + "**");
    }
  }

  lemma KeptPop(st: State, plain: bool)
    requires Kept(st, plain) && st.stack != []
    ensures Kept(Popped(st), plain) && KeptBuf(Top(st.stack).buf, plain)
    ensures Spelled(st) == Spelled(Popped(st)) + (Repeat('*', Top(st.stack).run) + Source(Top(st.stack).buf))
  {
    var a, b := Source(st.root), SpelledFrames(Below(st.stack));
    var c := Repeat('*', Top(st.stack).run) + Source(Top(st.stack).buf);
    assert a + (b + c) == (a + b) + c;
  }

  lemma KeptCloseTop(st: State, plain: bool)
    requires Kept(st, plain) && st.stack != []
    ensures Kept(TopClosed(st), plain)
    ensures Spelled(TopClosed(st)) == Spelled(st) + Repeat('*', Top(st.stack).run)
    ensures |TopClosed(st).stack| == |st.stack| - 1
    ensures |st.stack| >= 2 ==> Top(TopClosed(st).stack).run == Top(Below(st.stack)).run
  {
    hide Whole, Source, Emphasis, Plain, SpelledFrames;
    var f := Top(st.stack);
    KeptPop(st, plain);
    KeptEmphasis(f.run, f.buf, plain);
    WriteKeepsRuns(Popped(st), Emphasis(f.run, f.buf));
    KeptWrite(Popped(st), Emphasis(f.run, f.buf), plain);
    var a, b, c := Spelled(Popped(st)), Repeat('*', f.run), Source(f.buf);
    assert a + (b + c + b) == (a + (b + c)) + b;
  }

  /** Two open contexts already cover every run that could open a third. */
  lemma NeverThree(stack: seq<Frame<seq<Piece>>>, n: nat)
    requires Shape(stack) && 1 <= n <= MAX_RUN && !IsOpen(stack, n)
    ensures |stack| < 2
  {
  }

  lemma PushKeeps(st: State, n: nat, plain: bool)
    requires Kept(st, plain) && 1 <= n <= MAX_RUN && !IsOpen(st.stack, n)
    ensures Kept(State(st.root, st.stack + [Frame(n, [])]), plain)
  {
    hide Whole, Source;
    WholeNone();
    NeverThree(st.stack, n);
  }

  lemma KeptPush(st: State, n: nat, plain: bool)
    requires Kept(st, plain) && 1 <= n <= MAX_RUN && !IsOpen(st.stack, n)
    ensures var after := State(st.root, st.stack + [Frame(n, [])]);
      Kept(after, plain) && Spelled(after) == Spelled(st) + Repeat('*', n)
  {
    hide Whole, Source, Repeat, Shape, IsOpen, Plain;
    WholeNone();
    PushKeeps(st, n, plain);
    SpelledPush(st.stack, Frame(n, []));
    var a, b, c := Source(st.root), SpelledFrames(st.stack), Repeat('*', n);
    assert a + (b + (c + "")) == (a + b) + c;
  }

  lemma KeptFused(st: State, plain: bool)
    requires Kept(st, plain) && Fused(st.stack)
    ensures Kept(TopClosed(TopClosed(st)), plain)
    ensures Spelled(TopClosed(TopClosed(st))) == Spelled(st) + Repeat('*', MAX_RUN)
  {
    var r0, r1 := Top(st.stack).run, Top(Below(st.stack)).run;
    KeptCloseTop(st, plain);
    KeptCloseTop(TopClosed(st), plain);
    RepeatPlus('*', r0, r1);
    ConcatAssoc(Spelled(st), Repeat('*', r0), Repeat('*', r1));
  }

  /** An asterisk run keeps the state and is accounted for to the last asterisk, whatever it does. */
  lemma KeptStars(cc: CharClass, st: State, tk: Token, plain: bool)
    requires Kept(st, plain) && tk.Stars? && tk.run > 0
    ensures Kept(StarsTurn(cc, st, tk), plain)
    ensures Spelled(StarsTurn(cc, st, tk)) == Spelled(st) + Spelling(tk)
  {
    var n := tk.run;
    if CanClose(cc, tk) && n == MAX_RUN && Fused(st.stack) {
      KeptFused(st, plain);
    } else if CanClose(cc, tk) && st.stack != [] && Top(st.stack).run == n {
      KeptCloseTop(st, plain);
    } else if CanOpen(cc, tk) && !IsOpen(st.stack, n) {
      KeptPush(st, n, plain);
    } else {
      WholeTexts(Repeat('*', n));
      KeptWrite(st, Texts(Repeat('*', n)), plain);
    }
  }

  lemma KeptCode(text: string, inLink: bool)
    ensures var ps := if inLink then Texts("`" + text + "`") else Wrap(Code, Texts(text));
      KeptBuf(ps, inLink) && Source(ps) == "`" + text + "`"
  {
    WholeTexts(text);
    WholeTexts("`" + text + "`");
    WholeWrap(Code, Texts(text));
  }

  lemma KeptLink(text: string, url: string, inner: seq<Piece>)
    requires Whole(inner) && Plain(inner) && Source(inner) == text
    ensures Whole(Wrap(Link(url), inner))
    ensures Source(Wrap(Link(url), inner)) == "[" + text + "](" + url + ")"
  {
    WholeWrap(Link(url), inner);
    assert "[" + text + ("](" + url + ")") == "[" + text + "](" + url + ")";
  }

  /** `flat` lines hold no link; only those are rendered inside one. */
  lemma {:induction false} KeptTurn(cc: CharClass, st: State, tk: Token, inLink: bool)
    requires Kept(st, inLink) && Sound(tk, inLink)
    ensures Kept(Turn(cc, st, tk, inLink), inLink)
    ensures Spelled(Turn(cc, st, tk, inLink)) == Spelled(st) + Spelling(tk)
    decreases |Spelling(tk)|, 0, 0
  {
    match tk
    case Literal(text) =>
      WholeTexts(text);
      KeptWrite(st, Texts(text), inLink);
    case CodeSpan(text) =>
      var ps := if inLink then Texts("`" + text + "`") else Wrap(Code, Texts(text));
      KeptCode(text, inLink);
      KeptWrite(st, ps, inLink);
    case LinkTo(text, url) =>
      RenderingIsLossless(cc, text, true);
      var ps := Wrap(Link(url), Rendered(cc, text, true));
      KeptLink(text, url, Rendered(cc, text, true));
      KeptWrite(st, ps, inLink);
    case Stars(_, _, _, _) =>
      KeptStars(cc, st, tk, inLink);
  }

  lemma {:induction false} KeptRun(cc: CharClass, toks: seq<Token>, st: State, inLink: bool)
    requires Kept(st, inLink) && AllSound(toks, inLink)
    ensures Kept(Run(cc, toks, st, inLink), inLink)
    ensures Spelled(Run(cc, toks, st, inLink)) == Spelled(st) + SpellAll(toks)
    decreases |SpellAll(toks)|, 1, |toks|
  {
    hide Sound, Whole, Plain, Shape, Spelled, Spelling, Turn;
    if toks == [] {
      assert Spelled(st) + "" == Spelled(st);
    } else {
      KeptTurn(cc, st, toks[0], inLink);
      KeptRun(cc, toks[1..], Turn(cc, st, toks[0], inLink), inLink);
      ConcatAssoc(Spelled(st), Spelling(toks[0]), SpellAll(toks[1..]));
    }
  }

  lemma {:induction false} KeptFinished(st: State, plain: bool)
    requires Kept(st, plain)
    ensures KeptBuf(Finished(st), plain) && Source(Finished(st)) == Spelled(st)
    decreases |st.stack|
  {
    if st.stack == [] {
      assert Source(st.root) + "" == Source(st.root);
    } else {
      var f := Top(st.stack);
      var stars := Repeat('*', f.run);
      KeptPop(st, plain);
      WholeTexts(stars);
      WholeConcat(Texts(stars), f.buf);
      KeptWrite(Popped(st), Texts(stars) + f.buf, plain);
      KeptFinished(Spill(st), plain);
    }
  }

  /**
   The inline pass is lossless and its output is valid: read strictly, as Telegram does, it closes
   everything it opens and stands for exactly the line it was rendered from. Inside link text (which
   holds no `]`) it is nothing but emphasis around text.
   */
  lemma {:induction false} RenderingIsLossless(cc: CharClass, s: string, inLink: bool)
    requires inLink ==> ']' !in s
    ensures Whole(Rendered(cc, s, inLink)) && Source(Rendered(cc, s, inLink)) == s
    ensures inLink ==> Plain(Rendered(cc, s, inLink))
    decreases |s|, 2, 0
  {
    hide Tokenized, Run, Finished, Whole, Source, SpellAll, AllSound;
    TokenizeIsLossless(cc, s);
    TokensAreSound(cc, s, ']' !in s);
    SoundIfFlat(Tokenized(cc, s), ']' !in s, inLink);
    KeptEmpty(inLink);
    KeptRun(cc, Tokenized(cc, s), EMPTY, inLink);
    KeptFinished(Run(cc, Tokenized(cc, s), EMPTY, inLink), inLink);
    assert "" + s == s;
  }

  /** Whatever the line, the runs open after any of its tokens are none, 1, 2, 3, 1 2 or 2 1. */
  lemma ReachableStacks(cc: CharClass, s: string, inLink: bool, k: nat)
    requires inLink ==> ']' !in s
    requires k <= |Tokenized(cc, s)|
    ensures Shape(Run(cc, Tokenized(cc, s)[..k], EMPTY, inLink).stack)
  {
    hide Tokenized, Run, Whole, Source, SpellAll, Sound;
    TokensAreSound(cc, s, ']' !in s);
    SoundIfFlat(Tokenized(cc, s), ']' !in s, inLink);
    KeptEmpty(inLink);
    KeptRun(cc, Tokenized(cc, s)[..k], EMPTY, inLink);
  }

  /**
   No link or code span inside a link and nothing at all inside a code span: every tag of a rendered line
   opens only where the entities open around it allow it.
   */
  lemma EntitiesNest(cc: CharClass, s: string, i: nat)
    requires i < |Rendered(cc, s, false)| && Rendered(cc, s, false)[i].Open?
    ensures var ps := Rendered(cc, s, false);
      && Read(ps[..i], []).Some?
      && var around := Read(ps[..i], []).value.1;
         && !Holds(around, IsVerbatim)
         && (ps[i].tag.Code? || ps[i].tag.Link? ==> !Holds(around, IsLink))
  {
    hide Rendered, Read, Holds;
    RenderingIsLossless(cc, s, false);
    OpensAreAllowed(Rendered(cc, s, false), [], i);
  }

  lemma KeptEmpty(plain: bool)
    ensures Kept(EMPTY, plain) && Spelled(EMPTY) == ""
  {
    WholeNone();
  }

  lemma SoundIfFlat(toks: seq<Token>, flat: bool, inLink: bool)
    requires AllSound(toks, flat) && (inLink ==> flat)
    ensures AllSound(toks, inLink)
  {
  }

  // ----- the renderer itself, on strings -----

  function OpenTag(run: nat): string {
    if run == 1 then "<i>" else if run == 2 then "<b>" else "<b><i>"
  }

  function CloseTag(run: nat): string {
    if run == 1 then "</i>" else if run == 2 then "</b>" else "</i></b>"
  }

  lemma ShowWrap(t: Tag, ps: seq<Piece>)
    ensures ShowAll(Wrap(t, ps)) == ShowTag(t) + ShowAll(ps) + ShowClose(NameOf(t))
  {
    ShowOne(Open(t));
    ShowOne(Close(NameOf(t)));
    ShowAllConcat([Open(t)], ps);
    ShowAllConcat([Open(t)] + ps, [Close(NameOf(t))]);
  }

  lemma ShowEmphasis(run: nat, ps: seq<Piece>)
    ensures ShowAll(Emphasis(run, ps)) == OpenTag(run) + ShowAll(ps) + CloseTag(run)
  {
    hide ShowAll, Wrap;
    ShowWrap(Italic, ps);
    ShowWrap(Bold, ps);
    ShowWrap(Bold, Wrap(Italic, ps));
    var x := ShowAll(ps);
    assert "<b>" + ("<i>" + x + "</i>") + "</b>" == "<b><i>" + x + "</i></b>";
  }

  class Renderer {
    const inLink: bool
    var root: string
    var stack: seq<Frame<string>>
    /** The same state as pieces; `Valid` says the strings are its spelling. */
    ghost var state: State

    ghost predicate Valid()
      reads this
    {
      && root == ShowAll(state.root)
      && |stack| == |state.stack|
      && forall i :: 0 <= i < |stack| ==>
        stack[i].run == state.stack[i].run && stack[i].buf == ShowAll(state.stack[i].buf)
    }

    constructor (inLink: bool)
      ensures Valid() && state == EMPTY && this.inLink == inLink
    {
      this.inLink := inLink;
      root, stack := "", [];
      state := EMPTY;
    }

    method Write(s: string, ghost ps: seq<Piece>)
      requires Valid() && s == ShowAll(ps)
      modifies this
      ensures Valid() && state == Written(old(state), ps)
    {
      if stack == [] {
        ShowAllConcat(state.root, ps);
        root := root + s;
      } else {
        ShowAllConcat(Top(state.stack).buf, ps);
        stack := Below(stack) + [Frame(Top(stack).run, Top(stack).buf + s)];
      }
      state := Written(state, ps);
    }

    method Pop() returns (f: Frame<string>)
      requires Valid() && stack != []
      modifies this
      ensures Valid() && state == Popped(old(state))
      ensures f == Frame(Top(old(state).stack).run, ShowAll(Top(old(state).stack).buf))
    {
      f := Top(stack);
      stack := Below(stack);
      state := Popped(state);
    }

    method CloseTop()
      requires Valid() && stack != []
      modifies this
      ensures Valid() && state == TopClosed(old(state))
    {
      ghost var top := Top(state.stack);
      var f := Pop();
      ShowEmphasis(top.run, top.buf);
      Write(OpenTag(f.run) + f.buf + CloseTag(f.run), Emphasis(top.run, top.buf));
    }

    method Push(n: nat)
      requires Valid()
      modifies this
      ensures Valid() && state == State(old(state).root, old(state).stack + [Frame(n, [])])
    {
      stack := stack + [Frame(n, "")];
      state := State(state.root, state.stack + [Frame(n, [])]);
    }

    lemma SameRuns(n: nat)
      requires Valid()
      ensures Fused(stack) <==> Fused(state.stack)
      ensures IsOpen(stack, n) <==> IsOpen(state.stack, n)
      ensures stack != [] ==> state.stack != [] && Top(stack).run == Top(state.stack).run
    {
      hide ShowAll;
      assert forall i :: 0 <= i < |stack| ==> stack[i].run == state.stack[i].run;
    }

    method Stars(cc: CharClass, tk: Token)
      requires Valid() && tk.Stars?
      modifies this
      ensures Valid() && state == StarsTurn(cc, old(state), tk)
    {
      var n, opens, closes := tk.run, CanOpen(cc, tk), CanClose(cc, tk);
      SameRuns(n);
      if closes && n == MAX_RUN && Fused(stack) {
        CloseTop();
        CloseTop();
      } else if closes && stack != [] && Top(stack).run == n {
        CloseTop();
      } else if opens && !IsOpen(stack, n) {
        Push(n);
      } else {
        ShowStars(n);
        Write(Repeat('*', n), Texts(Repeat('*', n)));
      }
    }

    /** The switch of render. */
    method Token(cc: CharClass, tk: Token)
      requires Valid()
      modifies this
      ensures Valid() && state == Turn(cc, old(state), tk, inLink)
      decreases |Spelling(tk)|, 0
    {
      hide ShowAll, Texts, Wrap;
      match tk
      case Literal(text) =>
        ShowTexts(text);
        Write(EscapeText(text), Texts(text));
      case CodeSpan(text) =>
        if inLink {
          ShowTexts("`" + text + "`");
          Write(EscapeText("`" + text + "`"), Texts("`" + text + "`"));
        } else {
          ShowTexts(text);
          ShowWrap(Code, Texts(text));
          Write("<code>" + EscapeText(text) + "</code>", Wrap(Code, Texts(text)));
        }
      case LinkTo(text, url) =>
        var inner := RenderLinkText(cc, text);
        ShowWrap(Link(url), Rendered(cc, text, true));
        Write("<a href=\"" + EscapeAttr(url) + "\">" + inner + "</a>", Wrap(Link(url), Rendered(cc, text, true)));
      case Stars(_, _, _, _) =>
        Stars(cc, tk);
    }

    method Render(cc: CharClass, toks: seq<Token>)
      requires Valid()
      modifies this
      ensures Valid() && stack == []
      ensures state.root == Finished(Run(cc, toks, old(state), inLink))
      decreases |SpellAll(toks)|, 1
    {
      for i := 0 to |toks|
        invariant Valid() && Run(cc, toks[i..], state, inLink) == Run(cc, toks, old(state), inLink)
      {
        assert toks[i..][0] == toks[i] && toks[i..][1..] == toks[i + 1..];
        SpellPart(toks, i);
        Token(cc, toks[i]);
      }
      assert toks[|toks|..] == [];
      while stack != []
        invariant Valid() && Finished(state) == Finished(Run(cc, toks, old(state), inLink))
        decreases |stack|
      {
        SpillTop();
      }
    }

    method SpillTop()
      requires Valid() && stack != []
      modifies this
      ensures Valid() && state == Spill(old(state)) && |stack| == |old(stack)| - 1
    {
      ghost var top := Top(state.stack);
      var f := Pop();
      ShowStars(f.run);
      ShowAllConcat(Texts(Repeat('*', top.run)), top.buf);
      Write(Repeat('*', f.run) + f.buf, Texts(Repeat('*', top.run)) + top.buf);
    }
  }

  lemma {:induction false} ShowStars(n: nat)
    ensures ShowAll(Texts(Repeat('*', n))) == Repeat('*', n)
  {
    var s := Repeat('*', n);
    if n > 0 {
      ShowStars(n - 1);
      assert s[1..] == Repeat('*', n - 1) && Texts(s)[1..] == Texts(s[1..]);
    }
  }

  /** No token is longer than the line it is part of. */
  lemma {:induction false} SpellPart(toks: seq<Token>, i: nat)
    requires i < |toks|
    ensures |Spelling(toks[i])| <= |SpellAll(toks)|
  {
    hide Spelling;
    if i > 0 { SpellPart(toks[1..], i - 1); }
  }

  method RenderInline(cc: CharClass, s: string) returns (html: string)
    ensures html == ShowAll(Rendered(cc, s, false))
  {
    var r := new Renderer(false);
    var toks := Tokenize(cc, s);
    r.Render(cc, toks);
    html := r.root;
  }

  method RenderLinkText(cc: CharClass, s: string) returns (html: string)
    ensures html == ShowAll(Rendered(cc, s, true))
    decreases |s|, 2
  {
    var r := new Renderer(true);
    var toks := Tokenize(cc, s);
    TokenizeIsLossless(cc, s);
    r.Render(cc, toks);
    html := r.root;
  }
}
