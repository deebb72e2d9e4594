/** The inline tokenizer: a line becomes literals, code spans, links and asterisk runs. */
module Tokens {
  import opened Base

  /** unicode.IsSpace and isPunct; nothing below depends on which characters they hold of. */
  datatype CharClass = CharClass(isSpace: char -> bool, isPunct: char -> bool)

  /** `prev`, `prev2` and `next` are '\0' where the segment ends. */
  datatype Token =
    | Literal(text: string)
    | CodeSpan(text: string)
    | LinkTo(text: string, url: string)
    | Stars(run: nat, prev: char, prev2: char, next: char)

  datatype LinkMatch = LinkMatch(text: string, url: string, size: nat)

  const LINK_SCHEMES := ["https://", "http://", "tg://", "mailto:", "tel:"]

  /** The markdown a token was cut from. */
  function Spelling(t: Token): string {
    match t
    case Literal(text) => text
    case CodeSpan(text) => "`" + text + "`"
    case LinkTo(text, url) => SpellLink(text, url)
    case Stars(run, _, _, _) => Repeat('*', run)
  }

  function SpellAll(toks: seq<Token>): string {
    if toks == [] then "" else Spelling(toks[0]) + SpellAll(toks[1..])
  }

  /** strings.IndexByte */
  function IndexOf(s: string, c: char): (r: int)
    ensures -1 <= r < |s|
  {
    if s == "" then -1
    else if s[0] == c then 0
    else if IndexOf(s[1..], c) < 0 then -1
    else IndexOf(s[1..], c) + 1
  }

  /** It is the offset of the first `c`, and -1 only when there is none. */
  lemma {:induction false} IndexOfIsFirst(s: string, c: char)
    ensures IndexOf(s, c) < 0 ==> c !in s
    ensures IndexOf(s, c) >= 0 ==> s[IndexOf(s, c)] == c && c !in s[..IndexOf(s, c)]
  {
    if s != "" && s[0] != c {
      IndexOfIsFirst(s[1..], c);
      var r := IndexOf(s[1..], c);
      assert s == [s[0]] + s[1..];
      assert r >= 0 ==> s[..r + 1] == [s[0]] + s[1..][..r];
    }
  }

  // ----- links -----

  /** Parentheses opened and not yet closed in the first `i` characters. */
  function Depth(s: string, i: nat): int
    requires i <= |s|
  {
    if i == 0 then 0
    else Depth(s, i - 1) + (if s[i - 1] == '(' then 1 else if s[i - 1] == ')' then -1 else 0)
  }

  lemma {:induction false} DepthCounts(s: string, i: nat)
    requires i <= |s|
    ensures Depth(s, i) + multiset(s[..i])[')'] == multiset(s[..i])['(']
  {
    if i > 0 {
      DepthCounts(s, i - 1);
      assert s[..i] == s[..i - 1] + [s[i - 1]];
    }
  }

  predicate ClosesAt(s: string, i: nat)
    requires i < |s|
  {
    s[i] == ')' && Depth(s, i) == 0
  }

  function FirstClose(s: string, i: nat): (r: int)
    requires i <= |s|
    ensures r == -1 || i <= r < |s|
    decreases |s| - i
  {
    if i == |s| then -1 else if ClosesAt(s, i) then i else FirstClose(s, i + 1)
  }

  /** urlEnd: the first closing parenthesis that no opening one before it accounts for. */
  method UrlEnd(s: string) returns (r: int)
    ensures r == FirstClose(s, 0)
    ensures r >= 0 ==> r < |s| && ClosesAt(s, r)
    ensures forall j :: 0 <= j < (if r < 0 then |s| else r) ==> !ClosesAt(s, j)
  {
    var depth := 0;
    for i := 0 to |s|
      invariant depth == Depth(s, i) >= 0
      invariant FirstClose(s, 0) == FirstClose(s, i)
      invariant forall j :: 0 <= j < i ==> !ClosesAt(s, j)
    {
      if s[i] == '(' {
        depth := depth + 1;
      } else if s[i] == ')' {
        if depth == 0 { return i; }
        depth := depth - 1;
      }
    }
    return -1;
  }

  function Lower(c: char): char {
    if 'A' <= c <= 'Z' then c - 'A' + 'a' else c
  }

  /** strings.EqualFold against one of the ASCII schemes. */
  predicate EqualFold(s: string, t: string) {
    |s| == |t| && forall i :: 0 <= i < |s| ==> Lower(s[i]) == Lower(t[i])
  }

  predicate Targets(url: string, scheme: string) {
    |url| > |scheme| && EqualFold(url[..|scheme|], scheme)
  }

  predicate HasScheme(url: string) {
    exists i :: 0 <= i < |LINK_SCHEMES| && Targets(url, LINK_SCHEMES[i])
  }

  /** `url` goes on after `scheme`, written in letters of either case. */
  predicate StartsWith(url: string, scheme: string) {
    |url| > |scheme| && forall i :: 0 <= i < |scheme| ==>
      url[i] == scheme[i] || ('a' <= scheme[i] <= 'z' && url[i] as int == scheme[i] as int - 32)
  }

  /** The schemes Telegram takes, and no others. */
  lemma HasSchemeIff(url: string)
    ensures HasScheme(url) <==>
      || StartsWith(url, "https://") || StartsWith(url, "http://") || StartsWith(url, "tg://")
      || StartsWith(url, "mailto:") || StartsWith(url, "tel:")
  {
    forall scheme | scheme in LINK_SCHEMES ensures Targets(url, scheme) <==> StartsWith(url, scheme) {
      TargetsIff(url, scheme);
    }
    assert LINK_SCHEMES[0] == "https://" && LINK_SCHEMES[1] == "http://" && LINK_SCHEMES[2] == "tg://";
    assert LINK_SCHEMES[3] == "mailto:" && LINK_SCHEMES[4] == "tel:";
    hide StartsWith, Targets;
  }

  lemma TargetsIff(url: string, scheme: string)
    requires forall i :: 0 <= i < |scheme| ==> !('A' <= scheme[i] <= 'Z')
    ensures Targets(url, scheme) <==> StartsWith(url, scheme)
  {
    if |url| > |scheme| {
      forall i | 0 <= i < |scheme|
        ensures Lower(url[..|scheme|][i]) == Lower(scheme[i]) <==>
          url[i] == scheme[i] || ('a' <= scheme[i] <= 'z' && url[i] as int == scheme[i] as int - 32)
      {
        assert url[..|scheme|][i] == url[i];
      }
    }
  }

  /** The link at the start of `s`, given where its url ends. */
  function LinkWith(cc: CharClass, s: string, end: int, tail: int): Option<LinkMatch>
    requires 2 <= end && end + 2 <= |s| && -1 <= tail < |s| - (end + 2)
  {
    if tail < 1 then None
    else
      var url := s[end + 2..end + 2 + tail];
      if (exists i | 0 <= i < |url| :: cc.isSpace(url[i])) || !HasScheme(url) then None
      else Some(LinkMatch(s[1..end], url, end + tail + 3))
  }

  predicate LinkShape(s: string, end: int)
    requires -1 <= end < |s| || s == ""
  {
    2 <= end && end + 1 < |s| && s[end + 1] == '('
  }

  function LinkAt(cc: CharClass, s: string): Option<LinkMatch> {
    var end := IndexOf(s, ']');
    if !LinkShape(s, end) then None
    else LinkWith(cc, s, end, FirstClose(s[end + 2..], 0))
  }

  method ParseLink(cc: CharClass, s: string) returns (r: Option<LinkMatch>)
    ensures r == LinkAt(cc, s)
  {
    var end := IndexOf(s, ']');
    if !LinkShape(s, end) { return None; }
    var tail := UrlEnd(s[end + 2..]);
    return LinkWith(cc, s, end, tail);
  }

  /** Every parenthesis in `url` is matched inside it. */
  predicate Balanced(url: string) {
    Depth(url, |url|) == 0 && forall i :: 0 <= i < |url| ==> !ClosesAt(url, i)
  }

  /** A url Telegram takes in an href, whole between its parentheses. */
  predicate Linkable(cc: CharClass, url: string) {
    Balanced(url) && HasScheme(url) && forall i :: 0 <= i < |url| ==> !cc.isSpace(url[i])
  }

  /** No closing parenthesis comes before its opening one, and every opening one is closed. */
  predicate Paired(url: string) {
    && (forall i :: 0 <= i <= |url| ==> multiset(url[..i])[')'] <= multiset(url[..i])['('])
    && multiset(url)[')'] == multiset(url)['(']
  }

  lemma BalancedIff(url: string)
    ensures Balanced(url) <==> Paired(url)
  {
    assert url[..|url|] == url;
    DepthCounts(url, |url|);
    if Balanced(url) {
      forall i | 0 <= i <= |url| ensures multiset(url[..i])[')'] <= multiset(url[..i])['('] { NeverNegative(url, i); }
    }
    if Paired(url) {
      forall i | 0 <= i < |url| ensures !ClosesAt(url, i) {
        DepthCounts(url, i);
        DepthCounts(url, i + 1);
        assert multiset(url[..i + 1])[')'] <= multiset(url[..i + 1])['('];
      }
    }
  }

  lemma {:induction false} NeverNegative(url: string, i: nat)
    requires i <= |url| && forall j :: 0 <= j < |url| ==> !ClosesAt(url, j)
    ensures Depth(url, i) >= 0 && multiset(url[..i])[')'] <= multiset(url[..i])['(']
  {
    if i > 0 {
      NeverNegative(url, i - 1);
      assert !ClosesAt(url, i - 1);
    }
    DepthCounts(url, i);
  }

  /** A target Telegram takes: one of its schemes, no space, and parentheses in pairs. */
  lemma LinkableIff(cc: CharClass, url: string)
    ensures Linkable(cc, url) <==>
      && (|| StartsWith(url, "https://") || StartsWith(url, "http://") || StartsWith(url, "tg://")
          || StartsWith(url, "mailto:") || StartsWith(url, "tel:"))
      && (forall i :: 0 <= i < |url| ==> !cc.isSpace(url[i])) && Paired(url)
  {
    BalancedIff(url);
    HasSchemeIff(url);
    hide StartsWith, HasScheme, Balanced, Paired;
  }

  function SpellLink(text: string, url: string): string {
    "[" + text + "](" + url + ")"
  }

  lemma {:induction false} DepthPrefix(s: string, n: nat, i: nat)
    requires i <= n <= |s|
    ensures Depth(s[..n], i) == Depth(s, i)
  {
    if i > 0 { DepthPrefix(s, n, i - 1); }
  }

  lemma {:induction false} FirstCloseMeans(s: string, i: nat)
    requires i <= |s|
    ensures var r := FirstClose(s, i);
      && (r >= 0 ==> ClosesAt(s, r))
      && forall j :: i <= j < (if r < 0 then |s| else r) ==> !ClosesAt(s, j)
    decreases |s| - i
  {
    if i < |s| && !ClosesAt(s, i) { FirstCloseMeans(s, i + 1); }
  }

  lemma {:induction false} FirstCloseIs(s: string, i: nat, r: nat)
    requires i <= r < |s| && ClosesAt(s, r) && forall j :: i <= j < r ==> !ClosesAt(s, j)
    ensures FirstClose(s, i) == r
    decreases r - i
  {
    if i < r { FirstCloseIs(s, i + 1, r); }
  }

  /** The url ends where its parentheses balance, and only there. */
  lemma UrlEndsWhereBalanced(s: string, n: nat)
    requires n < |s|
    ensures FirstClose(s, 0) == n <==> s[n] == ')' && Balanced(s[..n])
  {
    DepthPrefix(s, n, n);
    forall j | 0 <= j < n ensures ClosesAt(s[..n], j) <==> ClosesAt(s, j) { DepthPrefix(s, n, j); }
    FirstCloseMeans(s, 0);
    if s[n] == ')' && Balanced(s[..n]) {
      assert ClosesAt(s, n);
      forall j | 0 <= j < n ensures !ClosesAt(s, j) { assert !ClosesAt(s[..n], j); }
      FirstCloseIs(s, 0, n);
    }
  }

  lemma {:induction false} IndexOfIs(s: string, c: char, i: nat)
    requires i < |s| && s[i] == c && c !in s[..i]
    ensures IndexOf(s, c) == i
  {
    if i > 0 {
      assert s[..i][0] == s[0];
      assert s[..i] == [s[0]] + s[1..][..i - 1];
      IndexOfIs(s[1..], c, i - 1);
    }
  }

  /** A parsed link is exactly the text it was parsed from, and its text holds no `]`. */
  lemma LinkIsItsSource(cc: CharClass, s: string)
    requires s != "" && s[0] == '[' && LinkAt(cc, s).Some?
    ensures var m := LinkAt(cc, s).value;
      && m.text != "" && ']' !in m.text && Linkable(cc, m.url)
      && 0 < m.size <= |s| && SpellLink(m.text, m.url) == s[..m.size]
  {
    var end := IndexOf(s, ']');
    IndexOfIsFirst(s, ']');
    var tail := FirstClose(s[end + 2..], 0);
    UrlEndsWhereBalanced(s[end + 2..], tail);
    var m := LinkAt(cc, s).value;
    assert m.url == s[end + 2..][..tail];
    hide Balanced, HasScheme, FirstClose, IndexOf;
    assert s[end + 2 + tail] == ')';
    assert s[..m.size] == [s[0]] + s[1..end] + [s[end], s[end + 1]] + s[end + 2..end + 2 + tail] + [s[end + 2 + tail]];
    assert s[..end] == [s[0]] + s[1..end];
  }

  lemma LinkParts(text: string, url: string, rest: string)
    ensures var (s, end) := (SpellLink(text, url) + rest, |text| + 1);
      && |SpellLink(text, url)| == end + |url| + 3 && |s| == |SpellLink(text, url)| + |rest|
      && s[..end] == "[" + text && s[1..end] == text && s[end] == ']' && s[end + 1] == '('
      && s[end + 2..] == url + (")" + rest) && s[end + 2..end + 2 + |url|] == url
  {
  }

  lemma TextEnds(text: string, url: string, rest: string)
    requires ']' !in text
    ensures IndexOf(SpellLink(text, url) + rest, ']') == |text| + 1
  {
    LinkParts(text, url, rest);
    hide SpellLink, IndexOf;
    assert ']' !in "[" + text;
    IndexOfIs(SpellLink(text, url) + rest, ']', |text| + 1);
  }

  lemma BalancedUrlEnds(url: string, rest: string)
    requires Balanced(url)
    ensures FirstClose(url + (")" + rest), 0) == |url|
  {
    hide Balanced, FirstClose;
    var s := url + (")" + rest);
    assert s[..|url|] == url && s[|url|] == ')';
    UrlEndsWhereBalanced(s, |url|);
  }

  /** Text without a `]` before a linkable url is parsed as the link it spells, whatever follows. */
  lemma LinkIsFound(cc: CharClass, text: string, url: string, rest: string)
    requires text != "" && ']' !in text && Linkable(cc, url)
    ensures LinkAt(cc, SpellLink(text, url) + rest) == Some(LinkMatch(text, url, |SpellLink(text, url)|))
  {
    var s := SpellLink(text, url) + rest;
    var end, tail := |text| + 1, |url|;
    assert url != "";
    hide Balanced, HasScheme, FirstClose, IndexOf, SpellLink;
    LinkParts(text, url, rest);
    TextEnds(text, url, rest);
    BalancedUrlEnds(url, rest);
  }

  /** parseLink takes a link exactly when one is spelled at the start of the text. */
  lemma LinkIffSpelled(cc: CharClass, s: string)
    requires s != "" && s[0] == '['
    ensures LinkAt(cc, s).Some? <==>
      exists text, url :: text != "" && ']' !in text && Linkable(cc, url) && SpellLink(text, url) <= s
  {
    if LinkAt(cc, s).Some? {
      LinkIsItsSource(cc, s);
      var m := LinkAt(cc, s).value;
      assert SpellLink(m.text, m.url) <= s;
    }
    if text, url :| text != "" && ']' !in text && Linkable(cc, url) && SpellLink(text, url) <= s {
      var n := |SpellLink(text, url)|;
      assert s == SpellLink(text, url) + s[n..];
      LinkIsFound(cc, text, url, s[n..]);
    }
  }

  // ----- tokens -----

  function StarRun(s: string, i: nat): (n: nat)
    requires i <= |s|
    ensures i + n <= |s|
    decreases |s| - i
  {
    if i == |s| || s[i] != '*' then 0 else 1 + StarRun(s, i + 1)
  }

  /** The run takes every asterisk there is and nothing else. */
  lemma {:induction false} StarRunIsMaximal(s: string, i: nat)
    requires i <= |s|
    ensures forall j :: i <= j < i + StarRun(s, i) ==> s[j] == '*'
    ensures i + StarRun(s, i) < |s| ==> s[i + StarRun(s, i)] != '*'
    decreases |s| - i
  {
    if i < |s| && s[i] == '*' { StarRunIsMaximal(s, i + 1); }
  }

  function CharAt(s: string, i: int): char {
    if 0 <= i < |s| then s[i] else '\0'
  }

  function StarsToken(s: string, i: nat, n: nat): Token {
    Stars(n, CharAt(s, i - 1), CharAt(s, i - 2), CharAt(s, i + n))
  }

  function Flushed(lit: string): seq<Token> {
    if lit == "" then [] else [Literal(lit)]
  }

  /** Length of the code span opening at `i`, 0 when the backtick there opens none. */
  function CodeSize(s: string, i: nat): (n: nat)
    requires i < |s|
    ensures i + n <= |s|
  {
    var end := IndexOf(s[i + 1..], '`');
    if end > 0 then end + 2 else 0
  }

  /** The code span, link or asterisk run starting at `i` and its size; None for a literal character. */
  function TokenAt(cc: CharClass, s: string, i: nat): Option<(Token, nat)>
    requires i < |s|
  {
    if s[i] == '`' && CodeSize(s, i) > 0 then
      Some((CodeSpan(s[i + 1..i + CodeSize(s, i) - 1]), CodeSize(s, i)))
    else if s[i] == '[' && LinkAt(cc, s[i..]).Some? then
      var m := LinkAt(cc, s[i..]).value;
      Some((LinkTo(m.text, m.url), m.size))
    else if s[i] == '*' then
      Some((StarsToken(s, i, StarRun(s, i)), StarRun(s, i)))
    else None
  }

  /** The code spans and links the tokenizer can produce. */
  predicate Markup(cc: CharClass, t: Token) {
    || (t.CodeSpan? && t.text != "" && '`' !in t.text)
    || (t.LinkTo? && t.text != "" && ']' !in t.text && Linkable(cc, t.url))
  }

  lemma CodeIsFound(text: string, rest: string)
    requires text != "" && '`' !in text
    ensures CodeSize("`" + text + "`" + rest, 0) == |text| + 2
    ensures ("`" + text + "`" + rest)[1..|text| + 1] == text
  {
    var s := "`" + text + "`" + rest;
    assert s[1..] == text + ("`" + rest);
    assert s[1..][..|text|] == text;
    IndexOfIs(s[1..], '`', |text|);
  }

  /** Spelling a code span or a link and tokenizing gives it back, whatever stands before and after it. */
  lemma MarkupRoundTrip(cc: CharClass, before: string, t: Token, rest: string)
    requires Markup(cc, t)
    ensures TokenAt(cc, before + Spelling(t) + rest, |before|) == Some((t, |Spelling(t)|))
  {
    hide LinkAt, CodeSize, Linkable, SpellLink;
    var s, i := before + Spelling(t) + rest, |before|;
    assert s[i..] == Spelling(t) + rest;
    if t.CodeSpan? { CodeThere(s, i, t.text, rest); } else { LinkThere(cc, s, i, t.text, t.url, rest); }
  }

  lemma CodeThere(s: string, i: nat, text: string, rest: string)
    requires i <= |s| && s[i..] == "`" + text + "`" + rest && text != "" && '`' !in text
    ensures i < |s| && s[i] == '`' && CodeSize(s, i) == |text| + 2 && s[i + 1..i + |text| + 1] == text
  {
    assert s[i..][0] == '`';
    CodeIsFound(text, rest);
    CodeFurtherOn(s, i);
    assert s[i + 1..i + |text| + 1] == s[i..][1..|text| + 1];
  }

  lemma LinkThere(cc: CharClass, s: string, i: nat, text: string, url: string, rest: string)
    requires i <= |s| && s[i..] == SpellLink(text, url) + rest && text != "" && ']' !in text && Linkable(cc, url)
    ensures i < |s| && s[i] == '[' && LinkAt(cc, s[i..]) == Some(LinkMatch(text, url, |SpellLink(text, url)|))
  {
    assert s[i..][0] == '[';
    LinkIsFound(cc, text, url, rest);
  }

  lemma CodeFurtherOn(s: string, i: nat)
    requires i < |s|
    ensures CodeSize(s, i) == CodeSize(s[i..], 0)
  {
    assert s[i + 1..] == s[i..][1..];
  }

  /** What every token promises the renderer; `flat` when the line holds no `]`. */
  predicate Sound(t: Token, flat: bool) {
    match t
    case Literal(text) => text != ""
    case CodeSpan(text) => text != "" && '`' !in text
    case LinkTo(text, url) => !flat && text != "" && ']' !in text
    case Stars(run, _, _, _) => run > 0
  }

  lemma CodeIsItsSource(s: string, i: nat)
    requires i < |s| && s[i] == '`' && CodeSize(s, i) > 0
    ensures var t := s[i + 1..i + CodeSize(s, i) - 1];
      t != "" && '`' !in t && "`" + t + "`" == s[i..i + CodeSize(s, i)]
  {
    var n := CodeSize(s, i);
    IndexOfIsFirst(s[i + 1..], '`');
    assert s[i + 1..i + n - 1] == s[i + 1..][..n - 2];
    assert s[i + n - 1] == '`';
  }

  lemma StarsAreTheirSource(s: string, i: nat)
    requires i < |s| && s[i] == '*'
    ensures StarRun(s, i) > 0 && Repeat('*', StarRun(s, i)) == s[i..i + StarRun(s, i)]
  {
    StarRunIsMaximal(s, i);
  }

  lemma LinkAtIsItsSource(cc: CharClass, s: string, i: nat)
    requires i < |s| && s[i] == '[' && LinkAt(cc, s[i..]).Some?
    ensures var m := LinkAt(cc, s[i..]).value;
      && m.text != "" && ']' !in m.text && Linkable(cc, m.url) && ']' in s
      && 0 < m.size && i + m.size <= |s| && SpellLink(m.text, m.url) == s[i..i + m.size]
  {
    LinkIsItsSource(cc, s[i..]);
    var m := LinkAt(cc, s[i..]).value;
    assert s[i..][..m.size] == s[i..i + m.size];
    assert SpellLink(m.text, m.url)[|m.text| + 1] == ']';
    assert s[i..i + m.size][|m.text| + 1] == s[i + |m.text| + 1];
  }

  /** A token is exactly the text it was cut from. */
  lemma TokenIsItsSource(cc: CharClass, s: string, i: nat)
    requires i < |s| && TokenAt(cc, s, i).Some?
    ensures var (t, n) := TokenAt(cc, s, i).value;
      0 < n && i + n <= |s| && Spelling(t) == s[i..i + n] && Sound(t, ']' !in s)
  {
    hide CodeSize, LinkAt, StarRun, Linkable, SpellLink, Repeat;
    if s[i] == '`' && CodeSize(s, i) > 0 {
      CodeIsItsSource(s, i);
    } else if s[i] == '[' && LinkAt(cc, s[i..]).Some? {
      LinkAtIsItsSource(cc, s, i);
    } else {
      StarsAreTheirSource(s, i);
    }
  }

  /** The tokens of `s` from `i` on, with `lit` the literal text still to be flushed. */
  function Scan(cc: CharClass, s: string, i: nat, lit: string): seq<Token>
    requires i <= |s|
    decreases |s| - i
  {
    if i == |s| then Flushed(lit)
    else
      match TokenAt(cc, s, i)
      case None => Scan(cc, s, i + 1, lit + [s[i]])
      case Some((t, n)) =>
        TokenIsItsSource(cc, s, i);
        Flushed(lit) + ([t] + Scan(cc, s, i + n, ""))
  }

  function Tokenized(cc: CharClass, s: string): seq<Token> {
    Scan(cc, s, 0, "")
  }

  lemma ScanToken(cc: CharClass, s: string, i: nat, lit: string, t: Token, n: nat)
    requires i < |s| && TokenAt(cc, s, i) == Some((t, n))
    ensures 0 < n && i + n <= |s| && Spelling(t) == s[i..i + n]
    ensures Scan(cc, s, i, lit) == Flushed(lit) + ([t] + Scan(cc, s, i + n, ""))
  {
    hide TokenAt, Spelling, Sound, Flushed;
    TokenIsItsSource(cc, s, i);
  }

  lemma ScanChar(cc: CharClass, s: string, i: nat, lit: string)
    requires i < |s| && TokenAt(cc, s, i).None?
    ensures Scan(cc, s, i, lit) == Scan(cc, s, i + 1, lit + [s[i]])
  {
    hide TokenAt, Spelling, Sound, Flushed;
  }

  lemma FlushFirst(toks: seq<Token>, lit: string, t: Token, rest: seq<Token>)
    ensures toks + (Flushed(lit) + ([t] + rest)) == (toks + Flushed(lit) + [t]) + rest
  {
  }

  /** The switch of tokenize: what starts at `i`. */
  method NextToken(cc: CharClass, s: string, i: nat) returns (r: Option<(Token, nat)>)
    requires i < |s|
    ensures r == TokenAt(cc, s, i)
  {
    r := None;
    if s[i] == '`' {
      var end := IndexOf(s[i + 1..], '`');
      if end > 0 {
        r := Some((CodeSpan(s[i + 1..i + 1 + end]), end + 2));
      }
    } else if s[i] == '[' {
      var link := ParseLink(cc, s[i..]);
      if link.Some? {
        r := Some((LinkTo(link.value.text, link.value.url), link.value.size));
      }
    } else if s[i] == '*' {
      var n := 1;
      while i + n < |s| && s[i + n] == '*'
        invariant 1 <= n && i + n <= |s|
        invariant StarRun(s, i) == n + StarRun(s, i + n)
      {
        n := n + 1;
      }
      r := Some((StarsToken(s, i, n), n));
    }
  }

  method Tokenize(cc: CharClass, s: string) returns (toks: seq<Token>)
    ensures toks == Tokenized(cc, s)
  {
    hide TokenAt;
    toks := [];
    var lit := "";
    var i := 0;
    while i < |s|
      invariant 0 <= i <= |s|
      invariant toks + Scan(cc, s, i, lit) == Tokenized(cc, s)
    {
      var next := NextToken(cc, s, i);
      match next
      case Some((t, n)) =>
        ScanToken(cc, s, i, lit, t, n);
        FlushFirst(toks, lit, t, Scan(cc, s, i + n, ""));
        toks := toks + Flushed(lit) + [t];
        lit, i := "", i + n;
      case None =>
        ScanChar(cc, s, i, lit);
        lit, i := lit + [s[i]], i + 1;
    }
    toks := toks + Flushed(lit);
  }

  // ----- what the tokens of a line are -----

  lemma SpellCons(t: Token, rest: seq<Token>)
    ensures SpellAll([t] + rest) == Spelling(t) + SpellAll(rest)
  {
    assert ([t] + rest)[1..] == rest;
  }

  lemma SpellFlushed(lit: string, rest: seq<Token>)
    ensures SpellAll(Flushed(lit) + rest) == lit + SpellAll(rest)
  {
    if lit == "" {
      assert Flushed(lit) + rest == rest;
    } else {
      SpellCons(Literal(lit), rest);
    }
  }

  lemma CutAfter(lit: string, s: string, i: nat, n: nat)
    requires i + n <= |s|
    ensures lit + (s[i..i + n] + ("" + s[i + n..])) == lit + s[i..]
  {
  }

  lemma CutChar(lit: string, s: string, i: nat)
    requires i < |s|
    ensures (lit + [s[i]]) + s[i + 1..] == lit + s[i..]
  {
  }

  lemma SpellStep(s: string, i: nat, n: nat, lit: string, t: Token, rest: seq<Token>)
    requires i + n <= |s| && Spelling(t) == s[i..i + n] && SpellAll(rest) == "" + s[i + n..]
    ensures SpellAll(Flushed(lit) + ([t] + rest)) == lit + s[i..]
  {
    calc {
      SpellAll(Flushed(lit) + ([t] + rest));
      { SpellFlushed(lit, [t] + rest); }
      lit + SpellAll([t] + rest);
      { SpellCons(t, rest); }
      lit + (Spelling(t) + SpellAll(rest));
      { CutAfter(lit, s, i, n); }
      lit + s[i..];
    }
  }

  /** Tokenizing loses nothing. */
  lemma {:induction false} ScanIsLossless(cc: CharClass, s: string, i: nat, lit: string)
    requires i <= |s|
    ensures SpellAll(Scan(cc, s, i, lit)) == lit + s[i..]
    decreases |s| - i
  {
    hide SpellAll, Spelling, TokenAt;
    if i == |s| {
      ScanEnd(cc, s, lit);
    } else {
      match TokenAt(cc, s, i)
      case Some((t, n)) =>
        calc {
          SpellAll(Scan(cc, s, i, lit));
          { ScanToken(cc, s, i, lit, t, n); }
          SpellAll(Flushed(lit) + ([t] + Scan(cc, s, i + n, "")));
          { TokenIsItsSource(cc, s, i); ScanIsLossless(cc, s, i + n, "");
            SpellStep(s, i, n, lit, t, Scan(cc, s, i + n, "")); }
          lit + s[i..];
        }
      case None =>
        calc {
          SpellAll(Scan(cc, s, i, lit));
          { ScanChar(cc, s, i, lit); }
          SpellAll(Scan(cc, s, i + 1, lit + [s[i]]));
          { ScanIsLossless(cc, s, i + 1, lit + [s[i]]); }
          (lit + [s[i]]) + s[i + 1..];
          { CutChar(lit, s, i); }
          lit + s[i..];
        }
    }
  }

  lemma ScanEnd(cc: CharClass, s: string, lit: string)
    ensures SpellAll(Scan(cc, s, |s|, lit)) == lit + s[|s|..]
  {
    SpellFlushed(lit, []);
    assert Flushed(lit) + [] == Flushed(lit);
  }

  lemma TokenizeIsLossless(cc: CharClass, s: string)
    ensures SpellAll(Tokenized(cc, s)) == s
  {
    ScanIsLossless(cc, s, 0, "");
  }

  predicate AllSound(toks: seq<Token>, flat: bool) {
    forall i :: 0 <= i < |toks| ==> Sound(toks[i], flat)
  }

  lemma FlushedIsSound(lit: string, flat: bool)
    ensures AllSound(Flushed(lit), flat)
  {
  }

  lemma SoundStep(lit: string, t: Token, rest: seq<Token>, flat: bool)
    requires Sound(t, flat) && AllSound(rest, flat)
    ensures AllSound(Flushed(lit) + ([t] + rest), flat)
  {
  }

  lemma TokensAreSound(cc: CharClass, s: string, flat: bool)
    requires flat <==> ']' !in s
    ensures AllSound(Tokenized(cc, s), flat)
  {
    ScanIsSound(cc, s, 0, "", flat);
  }

  lemma {:induction false} ScanIsSound(cc: CharClass, s: string, i: nat, lit: string, flat: bool)
    requires i <= |s| && (flat <==> ']' !in s)
    ensures AllSound(Scan(cc, s, i, lit), flat)
    decreases |s| - i
  {
    hide TokenAt, Spelling, Sound;
    FlushedIsSound(lit, flat);
    if i < |s| {
      match TokenAt(cc, s, i)
      case Some((t, n)) =>
        TokenIsItsSource(cc, s, i);
        ScanIsSound(cc, s, i + n, "", flat);
        SoundStep(lit, t, Scan(cc, s, i + n, ""), flat);
        ScanToken(cc, s, i, lit, t, n);
      case None =>
        ScanIsSound(cc, s, i + 1, lit + [s[i]], flat);
        ScanChar(cc, s, i, lit);
    }
  }
}
