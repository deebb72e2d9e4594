/**
 What the html of a message may hold beyond being well nested: every link goes where Telegram lets links
 go, and no emphasis sits in the same emphasis unless a link opens in between.
 */
module Entities {
  import opened Base
  import opened Html
  import opened Tokens
  import opened Inline
  import Document

  /** `t` is open, and no link opened after it. */
  predicate SinceLink(open: seq<Tag>, t: Tag) {
    if open == [] then false
    else
      var top := open[|open| - 1];
      !top.Link? && (top == t || SinceLink(open[..|open| - 1], t))
  }

  predicate MayNest(cc: CharClass, open: seq<Tag>, t: Tag) {
    && (t.Bold? || t.Italic? ==> !SinceLink(open, t))
    && (t.Link? ==> Linkable(cc, t.url))
  }

  /** Each entity of `ps` may nest in the ones open around it, given the ones already open. */
  predicate Fits(cc: CharClass, ps: seq<Piece>, open: seq<Tag>) {
    if ps == [] then true
    else
      match ps[0]
      case Text(_) => Fits(cc, ps[1..], open)
      case Open(t) => MayNest(cc, open, t) && Fits(cc, ps[1..], open + [t])
      case Close(_) => open != [] && Fits(cc, ps[1..], open[..|open| - 1])
  }

  lemma FitsText(cc: CharClass, c: char, rest: seq<Piece>, open: seq<Tag>)
    ensures Fits(cc, [Text(c)] + rest, open) <==> Fits(cc, rest, open)
  {
    assert ([Text(c)] + rest)[1..] == rest;
  }

  lemma FitsOpen(cc: CharClass, t: Tag, rest: seq<Piece>, open: seq<Tag>)
    ensures Fits(cc, [Open(t)] + rest, open) <==> MayNest(cc, open, t) && Fits(cc, rest, open + [t])
  {
    assert ([Open(t)] + rest)[1..] == rest;
  }

  lemma FitsClose(cc: CharClass, n: Name, rest: seq<Piece>, open: seq<Tag>)
    requires open != []
    ensures Fits(cc, [Close(n)] + rest, open) <==> Fits(cc, rest, open[..|open| - 1])
  {
    assert ([Close(n)] + rest)[1..] == rest;
  }

  lemma BasePush(base: seq<Tag>, open: seq<Tag>, t: Tag)
    ensures (base + open) + [t] == base + (open + [t])
  {
  }

  lemma BasePop(base: seq<Tag>, open: seq<Tag>)
    requires open != []
    ensures (base + open)[..|base + open| - 1] == base + open[..|open| - 1]
  {
  }

  /** What follows a fragment that fits must fit where the fragment leaves off. */
  lemma {:induction false} FitsThen(
      cc: CharClass, base: seq<Tag>, ps: seq<Piece>, open: seq<Tag>, rest: seq<Piece>)
    requires Read(ps, open).Some? && Fits(cc, ps, base + open)
    requires Fits(cc, rest, base + Read(ps, open).value.1)
    ensures Fits(cc, ps + rest, base + open)
  {
    hide MayNest, MayOpen, OpenMark, CloseMark;
    if ps == [] {
      assert ps + rest == rest;
    } else {
      var tail := ps[1..];
      assert ps == [ps[0]] + tail && ps + rest == [ps[0]] + (tail + rest);
      match ps[0]
      case Text(c) =>
        FitsText(cc, c, tail, base + open);
        FitsText(cc, c, tail + rest, base + open);
        ReadText(c, tail, open);
        hide Fits, Read;
        FitsThen(cc, base, tail, open, rest);
      case Open(t) =>
        BasePush(base, open, t);
        FitsOpen(cc, t, tail, base + open);
        FitsOpen(cc, t, tail + rest, base + open);
        ReadsOn(t, tail, open);
        hide Fits, Read;
        FitsThen(cc, base, tail, open + [t], rest);
      case Close(n) =>
        var below, top := open[..|open| - 1], open[|open| - 1];
        BasePop(base, open);
        FitsClose(cc, n, tail, base + open);
        FitsClose(cc, n, tail + rest, base + open);
        assert open == below + [top];
        ReadClose(top, tail, below);
        hide Fits, Read;
        FitsThen(cc, base, tail, below, rest);
    }
  }

  lemma ReadsOn(t: Tag, tail: seq<Piece>, open: seq<Tag>)
    requires Read([Open(t)] + tail, open).Some?
    ensures Read([Open(t)] + tail, open) == Prepend(OpenMark(t), Read(tail, open + [t]))
  {
    assert ([Open(t)] + tail)[1..] == tail;
  }

  /** `less` has no more open since its last link than `more`. */
  ghost predicate Looser(less: seq<Tag>, more: seq<Tag>) {
    forall t :: SinceLink(less, t) ==> SinceLink(more, t)
  }

  lemma {:induction false} LooserUnder(less: seq<Tag>, more: seq<Tag>, open: seq<Tag>, t: Tag)
    requires Looser(less, more) && SinceLink(less + open, t)
    ensures SinceLink(more + open, t)
  {
    if open == [] {
      assert less + open == less && more + open == more;
    } else {
      BasePop(less, open);
      BasePop(more, open);
      assert (less + open)[|less + open| - 1] == (more + open)[|more + open| - 1] == open[|open| - 1];
      if open[|open| - 1] != t { LooserUnder(less, more, open[..|open| - 1], t); }
    }
  }

  /** What fits in a place fits where less is open. */
  lemma {:induction false} FitsLooser(
      cc: CharClass, less: seq<Tag>, more: seq<Tag>, ps: seq<Piece>, open: seq<Tag>)
    requires Looser(less, more) && Read(ps, open).Some? && Fits(cc, ps, more + open)
    ensures Fits(cc, ps, less + open)
  {
    hide SinceLink, Looser;
    if ps != [] {
      match ps[0]
      case Text(_) =>
        FitsLooser(cc, less, more, ps[1..], open);
      case Open(t) =>
        BasePush(less, open, t);
        BasePush(more, open, t);
        FitsLooser(cc, less, more, ps[1..], open + [t]);
        if SinceLink(less + open, t) { LooserUnder(less, more, open, t); }
      case Close(_) =>
        BasePop(less, open);
        BasePop(more, open);
        FitsLooser(cc, less, more, ps[1..], open[..|open| - 1]);
    }
  }

  lemma {:induction false} FitsTexts(cc: CharClass, s: string, open: seq<Tag>)
    ensures Fits(cc, Texts(s), open)
  {
    if s != "" {
      FitsTexts(cc, s[1..], open);
      assert Texts(s)[1..] == Texts(s[1..]);
    }
  }

  lemma FitsWrap(cc: CharClass, t: Tag, ps: seq<Piece>, open: seq<Tag>)
    requires Whole(ps) && MayNest(cc, open, t) && Fits(cc, ps, open + [t])
    ensures Fits(cc, Wrap(t, ps), open)
  {
    hide MayNest, Read;
    var close := [Close(NameOf(t))];
    assert close == close + [] && (open + [t])[..|open|] == open;
    FitsClose(cc, NameOf(t), [], open + [t]);
    assert (open + [t]) + [] == open + [t];
    FitsThen(cc, open + [t], ps, [], close);
    assert Wrap(t, ps) == [Open(t)] + (ps + close);
    FitsOpen(cc, t, ps + close, open);
  }

  // ----- the stack machine -----

  /** What a run opens, outermost first. */
  function TagsOf(run: nat): seq<Tag> {
    if run == 1 then [Italic] else if run == 2 then [Bold] else [Bold, Italic]
  }

  /** What the contexts of a stack will have open around the innermost buffer. */
  function Around(stack: seq<Frame<seq<Piece>>>): seq<Tag> {
    if stack == [] then [] else Around(Below(stack)) + TagsOf(Top(stack).run)
  }

  /** Every buffer fits where closing the contexts around it will put it. */
  predicate Fit(cc: CharClass, st: State) {
    && Fits(cc, st.root, [])
    && forall i :: 0 <= i < |st.stack| ==> Fits(cc, st.stack[i].buf, Around(st.stack[..i + 1]))
  }

  lemma FitTop(cc: CharClass, st: State)
    requires Fit(cc, st) && st.stack != []
    ensures Fit(cc, Popped(st)) && Fits(cc, Top(st.stack).buf, Around(st.stack))
  {
    var n := |st.stack| - 1;
    assert st.stack[..n + 1] == st.stack;
    forall i | 0 <= i < n ensures Fits(cc, Below(st.stack)[i].buf, Around(Below(st.stack)[..i + 1])) {
      assert Below(st.stack)[i] == st.stack[i] && Below(st.stack)[..i + 1] == st.stack[..i + 1];
    }
  }

  lemma FitPush(cc: CharClass, root: seq<Piece>, below: seq<Frame<seq<Piece>>>, f: Frame<seq<Piece>>)
    requires Fit(cc, State(root, below)) && Fits(cc, f.buf, Around(below + [f]))
    ensures Fit(cc, State(root, below + [f]))
  {
    var stack := below + [f];
    assert stack[..|below| + 1] == stack;
    forall i | 0 <= i < |stack| ensures Fits(cc, stack[i].buf, Around(stack[..i + 1])) {
      if i < |below| { assert stack[i] == below[i] && stack[..i + 1] == below[..i + 1]; }
    }
  }

  lemma AroundPush(below: seq<Frame<seq<Piece>>>, f: Frame<seq<Piece>>)
    ensures Around(below + [f]) == Around(below) + TagsOf(f.run)
  {
    assert Below(below + [f]) == below && Top(below + [f]) == f;
  }

  lemma FitWrite(cc: CharClass, st: State, ps: seq<Piece>)
    requires Kept(st, false) && Fit(cc, st) && Fits(cc, ps, Around(st.stack))
    ensures Fit(cc, Written(st, ps))
  {
    hide Fits, Read, Around;
    if st.stack == [] {
      assert [] + Read(st.root, []).value.1 == [];
      assert Around(st.stack) == [] by { AroundNone(); }
      FitsThen(cc, [], st.root, [], ps);
    } else {
      var f := Top(st.stack);
      var around := Around(st.stack);
      FitTop(cc, st);
      assert around + [] == around && Whole(f.buf);
      FitsThen(cc, around, f.buf, [], ps);
      var g := Frame(f.run, f.buf + ps);
      assert st.stack == Below(st.stack) + [f];
      AroundPush(Below(st.stack), f);
      AroundPush(Below(st.stack), g);
      FitPush(cc, st.root, Below(st.stack), g);
    }
  }

  lemma AroundNone()
    ensures Around([]) == []
  {
  }

  /** A context open inside others never repeats their emphasis. */
  lemma EmphasisFits(cc: CharClass, stack: seq<Frame<seq<Piece>>>, ps: seq<Piece>)
    requires stack != [] && Shape(stack) && Whole(ps) && Fits(cc, ps, Around(stack))
    ensures Fits(cc, Emphasis(Top(stack).run, ps), Around(Below(stack)))
  {
    var run, below := Top(stack).run, Around(Below(stack));
    ShapeAround(stack);
    OneOpen(Bold, Italic);
    OneOpen(Italic, Bold);
    hide Fits, Wrap, Around, Shape, Whole, SinceLink;
    if run == 1 {
      FitsWrap(cc, Italic, ps, below);
    } else if run == 2 {
      FitsWrap(cc, Bold, ps, below);
    } else {
      assert below == [] && below + TagsOf(3) == [Bold] + [Italic] && below + [Bold] == [Bold];
      FitsWrap(cc, Italic, ps, [Bold]);
      WholeWrap(Italic, ps);
      FitsWrap(cc, Bold, Wrap(Italic, ps), below);
    }
  }

  lemma ShapeAround(stack: seq<Frame<seq<Piece>>>)
    requires stack != [] && Shape(stack)
    ensures var (run, below) := (Top(stack).run, Around(Below(stack)));
      && 1 <= run <= 3 && Around(stack) == below + TagsOf(run)
      && (below == [] || (run == 1 && below == [Bold]) || (run == 2 && below == [Italic]))
  {
    hide Around;
    AroundLast(stack);
    AroundNone();
    if |stack| == 2 {
      AroundLast(Below(stack));
      assert Below(Below(stack)) == [];
      var outer := Below(stack)[0].run;
      assert [] + TagsOf(outer) == TagsOf(outer);
    }
  }

  lemma AroundLast(stack: seq<Frame<seq<Piece>>>)
    requires stack != []
    ensures Around(stack) == Around(Below(stack)) + TagsOf(Top(stack).run)
  {
  }

  lemma OneOpen(u: Tag, t: Tag)
    requires u != t
    ensures !SinceLink([u], t) && !SinceLink([], t)
  {
    assert [u][..0] == [];
  }

  lemma FitCloseTop(cc: CharClass, st: State)
    requires Kept(st, false) && Fit(cc, st) && st.stack != []
    ensures Fit(cc, TopClosed(st))
  {
    hide Fits, Fit, Shape, Around, Whole;
    var f := Top(st.stack);
    KeptPop(st, false);
    FitTop(cc, st);
    EmphasisFits(cc, st.stack, f.buf);
    FitWrite(cc, Popped(st), Emphasis(f.run, f.buf));
  }

  lemma {:induction false} LooserPush(open: seq<Tag>, tags: seq<Tag>)
    requires forall t :: t in tags ==> !t.Link?
    ensures Looser(open, open + tags)
  {
    if tags == [] {
      assert open + tags == open;
    } else {
      var n := |tags| - 1;
      assert tags == tags[..n] + [tags[n]];
      LooserPush(open, tags[..n]);
      BasePop(open, tags);
      assert (open + tags)[|open + tags| - 1] == tags[n];
    }
  }

  lemma FitSpill(cc: CharClass, st: State)
    requires Kept(st, false) && Fit(cc, st) && st.stack != []
    ensures Fit(cc, Spill(st))
  {
    var f, below := Top(st.stack), Around(Below(st.stack));
    assert Around(st.stack) == below + TagsOf(f.run);
    hide Fits, Fit, Shape, Around, Read, Looser;
    KeptPop(st, false);
    FitTop(cc, st);
    LooserPush(below, TagsOf(f.run));
    assert below + [] == below && Around(st.stack) + [] == Around(st.stack);
    FitsLooser(cc, below, Around(st.stack), f.buf, []);
    var stars := Texts(Repeat('*', f.run));
    WholeTexts(Repeat('*', f.run));
    FitsTexts(cc, Repeat('*', f.run), below);
    FitsThen(cc, below, stars, [], f.buf);
    FitWrite(cc, Popped(st), stars + f.buf);
  }

  lemma {:induction false} FitFinished(cc: CharClass, st: State)
    requires Kept(st, false) && Fit(cc, st)
    ensures Fits(cc, Finished(st), [])
    decreases |st.stack|
  {
    if st.stack != [] {
      SpillKeeps(st);
      FitSpill(cc, st);
      FitFinished(cc, Spill(st));
    }
  }

  lemma SpillKeeps(st: State)
    requires Kept(st, false) && st.stack != []
    ensures Kept(Spill(st), false)
  {
    var f := Top(st.stack);
    KeptPop(st, false);
    WholeTexts(Repeat('*', f.run));
    WholeConcat(Texts(Repeat('*', f.run)), f.buf);
    KeptWrite(Popped(st), Texts(Repeat('*', f.run)) + f.buf, false);
  }

  lemma FitStars(cc: CharClass, st: State, tk: Token)
    requires Kept(st, false) && Fit(cc, st) && tk.Stars?
    ensures Fit(cc, StarsTurn(cc, st, tk))
  {
    var n := tk.run;
    hide Fits, Fit, Shape, Around, Kept, TopClosed;
    if CanClose(cc, tk) && n == MAX_RUN && Fused(st.stack) {
      KeptCloseTop(st, false);
      FitCloseTop(cc, st);
      FitCloseTop(cc, TopClosed(st));
    } else if CanClose(cc, tk) && st.stack != [] && Top(st.stack).run == n {
      FitCloseTop(cc, st);
    } else if CanOpen(cc, tk) && !IsOpen(st.stack, n) {
      FitsTexts(cc, "", Around(st.stack + [Frame(n, [])]));
      FitPush(cc, st.root, st.stack, Frame(n, []));
    } else {
      FitsTexts(cc, Repeat('*', n), Around(st.stack));
      FitWrite(cc, st, Texts(Repeat('*', n)));
    }
  }

  lemma FitLink(cc: CharClass, url: string, inner: seq<Piece>, around: seq<Tag>)
    requires Linkable(cc, url) && Whole(inner) && Fits(cc, inner, [])
    ensures Fits(cc, Wrap(Link(url), inner), around)
  {
    var base := around + [Link(url)];
    assert Looser(base, []);
    var none: seq<Tag> := [];
    assert base + none == base && none + none == none;
    FitsLooser(cc, base, none, inner, none);
    FitsWrap(cc, Link(url), inner, around);
  }

  predicate LinksOut(cc: CharClass, t: Token) {
    t.LinkTo? ==> Linkable(cc, t.url)
  }

  /** Every link token has a target Telegram takes. */
  lemma {:induction false} ScanLinksOut(cc: CharClass, s: string, i: nat, lit: string)
    requires i <= |s|
    ensures forall t :: t in Scan(cc, s, i, lit) ==> LinksOut(cc, t)
    decreases |s| - i
  {
    if i < |s| {
      if TokenAt(cc, s, i).None? {
        ScanLinksOut(cc, s, i + 1, lit + [s[i]]);
      } else {
        var (t, n) := TokenAt(cc, s, i).value;
        ScanToken(cc, s, i, lit, t, n);
        TokenLinksOut(cc, s, i);
        hide TokenAt, LinksOut, Scan;
        ScanLinksOut(cc, s, i + n, "");
      }
    }
  }

  lemma TokenLinksOut(cc: CharClass, s: string, i: nat)
    requires i < |s| && TokenAt(cc, s, i).Some?
    ensures LinksOut(cc, TokenAt(cc, s, i).value.0)
  {
    hide Linkable;
    if s[i] == '[' && LinkAt(cc, s[i..]).Some? { LinkAtIsItsSource(cc, s, i); }
  }

  lemma {:induction false} FitTurn(cc: CharClass, st: State, tk: Token, inLink: bool)
    requires Kept(st, inLink) && Fit(cc, st) && Sound(tk, inLink) && LinksOut(cc, tk)
    ensures Fit(cc, Turn(cc, st, tk, inLink))
    decreases |Spelling(tk)|, 0, 0
  {
    hide Fits, Fit, Around, Linkable, Whole, Plain, Shape, StarsTurn;
    match tk
    case Literal(text) =>
      FitsTexts(cc, text, Around(st.stack));
      FitWrite(cc, st, Texts(text));
    case CodeSpan(text) =>
      if inLink {
        FitsTexts(cc, "`" + text + "`", Around(st.stack));
        FitWrite(cc, st, Texts("`" + text + "`"));
      } else {
        WholeTexts(text);
        FitsTexts(cc, text, Around(st.stack) + [Code]);
        FitsWrap(cc, Code, Texts(text), Around(st.stack));
        FitWrite(cc, st, Wrap(Code, Texts(text)));
      }
    case LinkTo(text, url) =>
      RenderingIsLossless(cc, text, true);
      RenderedFits(cc, text, true);
      FitLink(cc, url, Rendered(cc, text, true), Around(st.stack));
      FitWrite(cc, st, Wrap(Link(url), Rendered(cc, text, true)));
    case Stars(_, _, _, _) =>
      FitStars(cc, st, tk);
  }

  lemma {:induction false} FitRun(cc: CharClass, toks: seq<Token>, st: State, inLink: bool)
    requires Kept(st, inLink) && Fit(cc, st) && AllSound(toks, inLink)
    requires forall t :: t in toks ==> LinksOut(cc, t)
    ensures Kept(Run(cc, toks, st, inLink), inLink) && Fit(cc, Run(cc, toks, st, inLink))
    decreases |SpellAll(toks)|, 1, |toks|
  {
    hide Sound, Kept, Fit, Spelling, Turn, LinksOut;
    if toks != [] {
      KeptTurn(cc, st, toks[0], inLink);
      FitTurn(cc, st, toks[0], inLink);
      FitRun(cc, toks[1..], Turn(cc, st, toks[0], inLink), inLink);
    }
  }

  /** Every entity of a rendered line may nest where it stands. */
  lemma {:induction false} RenderedFits(cc: CharClass, s: string, inLink: bool)
    requires inLink ==> ']' !in s
    ensures Fits(cc, Rendered(cc, s, inLink), [])
    decreases |s|, 2, 0
  {
    hide Tokenized, Run, Finished, Whole, SpellAll, AllSound, LinksOut;
    TokenizeIsLossless(cc, s);
    TokensAreSound(cc, s, ']' !in s);
    SoundIfFlat(Tokenized(cc, s), ']' !in s, inLink);
    LineLinksOut(cc, s);
    KeptEmpty(inLink);
    FitRun(cc, Tokenized(cc, s), EMPTY, inLink);
    FitFinished(cc, Run(cc, Tokenized(cc, s), EMPTY, inLink));
  }

  lemma LineLinksOut(cc: CharClass, s: string)
    ensures forall t :: t in Tokenized(cc, s) ==> LinksOut(cc, t)
  {
    ScanLinksOut(cc, s, 0, "");
  }

  // ----- what that means for the html -----

  /** What fits opens each entity only where it may nest. */
  lemma {:induction false} FitsAt(cc: CharClass, ps: seq<Piece>, open: seq<Tag>, i: nat)
    requires Read(ps, open).Some? && Fits(cc, ps, open) && i < |ps| && ps[i].Open?
    ensures Read(ps[..i], open).Some? && MayNest(cc, Read(ps[..i], open).value.1, ps[i].tag)
    decreases i
  {
    hide MayNest, MayOpen;
    if i == 0 {
      assert ps[..0] == [];
    } else {
      var rest := ps[1..];
      assert ps[..i][1..] == rest[..i - 1];
      match ps[0]
      case Text(_) => FitsAt(cc, rest, open, i - 1);
      case Open(t) => FitsAt(cc, rest, open + [t], i - 1);
      case Close(_) => FitsAt(cc, rest, open[..|open| - 1], i - 1);
    }
  }

  lemma {:induction false} SinceLinkMeans(open: seq<Tag>, t: Tag, j: nat)
    requires j < |open| && open[j] == t && !t.Link? && !SinceLink(open, t)
    ensures exists k :: j < k < |open| && open[k].Link?
  {
    var n := |open| - 1;
    if !open[n].Link? {
      SinceLinkMeans(open[..n], t, j);
      var k :| j < k < n && open[..n][k].Link?;
      assert open[k].Link?;
    }
  }

  /**
   Bold opens inside bold, or italic inside italic, only with a link opened in between: link text starts
   with nothing open, everything else keeps track of what is.
   */
  lemma EmphasisRepeatsOnlyThroughLinks(cc: CharClass, s: string, i: nat, j: nat)
    requires i < |Rendered(cc, s, false)| && Rendered(cc, s, false)[i].Open?
    requires Rendered(cc, s, false)[i].tag.Bold? || Rendered(cc, s, false)[i].tag.Italic?
    ensures var ps := Rendered(cc, s, false);
      && Read(ps[..i], []).Some?
      && var around := Read(ps[..i], []).value.1;
         j < |around| && around[j] == ps[i].tag ==> exists k :: j < k < |around| && around[k].Link?
  {
    hide Rendered, Read, Fits, SinceLink;
    var ps := Rendered(cc, s, false);
    RenderingIsLossless(cc, s, false);
    RenderedFits(cc, s, false);
    FitsAt(cc, ps, [], i);
    var around := Read(ps[..i], []).value.1;
    if j < |around| && around[j] == ps[i].tag { SinceLinkMeans(around, ps[i].tag, j); }
  }

  /** Every link of `ps` has a target Telegram takes. */
  predicate Accepted(cc: CharClass, ps: seq<Piece>) {
    forall p :: p in ps && p.Open? && p.tag.Link? ==> Linkable(cc, p.tag.url)
  }

  lemma LineIsAccepted(cc: CharClass, s: string)
    ensures Accepted(cc, Rendered(cc, s, false))
  {
    hide Rendered, Read, Fits, Linkable, SinceLink;
    var ps := Rendered(cc, s, false);
    RenderingIsLossless(cc, s, false);
    RenderedFits(cc, s, false);
    forall p | p in ps && p.Open? && p.tag.Link? ensures Linkable(cc, p.tag.url) {
      var i :| 0 <= i < |ps| && ps[i] == p;
      FitsAt(cc, ps, [], i);
    }
  }

  lemma BlockIsAccepted(cc: CharClass, b: Document.Block)
    ensures Accepted(cc, Document.PiecesOf(cc, b))
  {
    hide Rendered, Linkable, Document.Unbolded;
    match b
    case Fence(_, lang, body, _) =>
    case Heading(_, text) =>
      LineIsAccepted(cc, text);
      Document.UnboldedHolds(Rendered(cc, text, false));
    case Paragraph(line) =>
      LineIsAccepted(cc, line);
  }

  lemma {:induction false} JoinIsAccepted(cc: CharClass, blocks: seq<Document.Block>)
    ensures Accepted(cc, Document.JoinPieces(cc, blocks))
  {
    hide Linkable, Document.PiecesOf;
    if blocks != [] {
      BlockIsAccepted(cc, blocks[0]);
      JoinIsAccepted(cc, blocks[1..]);
    }
  }

  /** No link of any message makes Telegram refuse the reply. */
  lemma EveryTargetIsAccepted(cc: CharClass, text: string)
    ensures Accepted(cc, Document.Rendering(cc, text))
  {
    JoinIsAccepted(cc, Document.Blocks(cc, Document.Lines(Document.Normalized(text))));
  }
}
