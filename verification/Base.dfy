/** Small vocabulary shared by every module. */
module Base {
  datatype Option<+T> = None | Some(value: T)

  function Max(a: int, b: int): int { if a < b then b else a }

  const SMALL := "abcdefghijklmnopqrstuvwxyz"
  const CAPITAL := "ABCDEFGHIJKLMNOPQRSTUVWXYZ"
  const DIGITS := "0123456789"

  lemma SmallLetters(c: char)
    ensures c in SMALL <==> 'a' <= c <= 'z'
  {
    if 'a' <= c <= 'z' { assert SMALL[c as int - 'a' as int] == c; }
  }

  lemma CapitalLetters(c: char)
    ensures c in CAPITAL <==> 'A' <= c <= 'Z'
  {
    if 'A' <= c <= 'Z' { assert CAPITAL[c as int - 'A' as int] == c; }
  }

  lemma DecimalDigits(c: char)
    ensures c in DIGITS <==> '0' <= c <= '9'
  {
    if '0' <= c <= '9' { assert DIGITS[c as int - '0' as int] == c; }
  }

  /** The character `c` repeated `n` times. */
  function Repeat(c: char, n: nat): (s: string)
    ensures |s| == n
    ensures forall i :: 0 <= i < n ==> s[i] == c
  {
    seq(n, _ => c)
  }

  lemma RepeatPlus(c: char, m: nat, n: nat)
    ensures Repeat(c, m) + Repeat(c, n) == Repeat(c, m + n)
  {
  }

  function TrimLeft(s: string, cut: char -> bool): (r: string)
    ensures |r| <= |s|
  {
    if s != "" && cut(s[0]) then TrimLeft(s[1..], cut) else s
  }

  function TrimRight(s: string, cut: char -> bool): (r: string)
    ensures |r| <= |s|
  {
    if s != "" && cut(s[|s| - 1]) then TrimRight(s[..|s| - 1], cut) else s
  }

  function Trim(s: string, cut: char -> bool): string {
    TrimRight(TrimLeft(s, cut), cut)
  }

  /** Trimming leaves nothing exactly when there is nothing but what it cuts. */
  lemma {:induction false} TrimmedAway(s: string, cut: char -> bool)
    ensures Trim(s, cut) == "" <==> forall i :: 0 <= i < |s| ==> cut(s[i])
  {
    if s != "" && cut(s[0]) {
      TrimmedAway(s[1..], cut);
      assert forall i :: 1 <= i < |s| ==> s[i] == s[1..][i - 1];
    } else if s != "" {
      TrimRightKeeps(s, cut);
    }
  }

  lemma {:induction false} TrimRightKeeps(s: string, cut: char -> bool)
    requires s != "" && !cut(s[0])
    ensures TrimRight(s, cut) != ""
  {
    if cut(s[|s| - 1]) { TrimRightKeeps(s[..|s| - 1], cut); }
  }

  lemma TrimNothing(s: string, cut: char -> bool)
    requires s != "" ==> !cut(s[0]) && !cut(s[|s| - 1])
    ensures Trim(s, cut) == s
  {
  }

  /** Trimming takes away what it cuts at both ends, and stops at the first character it does not cut. */
  lemma TrimMeans(s: string, cut: char -> bool) returns (a: string, b: string)
    ensures s == a + Trim(s, cut) + b
    ensures (forall i :: 0 <= i < |a| ==> cut(a[i])) && forall i :: 0 <= i < |b| ==> cut(b[i])
    ensures var t := Trim(s, cut); t != "" ==> !cut(t[0]) && !cut(t[|t| - 1])
  {
    a := TrimLeftMeans(s, cut);
    b := TrimRightMeans(TrimLeft(s, cut), cut);
    assert a + (Trim(s, cut) + b) == a + Trim(s, cut) + b;
    var left, t := TrimLeft(s, cut), Trim(s, cut);
    if t != "" { assert left[0] == t[0]; }
  }

  lemma {:induction false} TrimLeftMeans(s: string, cut: char -> bool) returns (a: string)
    ensures s == a + TrimLeft(s, cut) && forall i :: 0 <= i < |a| ==> cut(a[i])
    ensures TrimLeft(s, cut) != "" ==> !cut(TrimLeft(s, cut)[0])
  {
    if s != "" && cut(s[0]) {
      var rest := TrimLeftMeans(s[1..], cut);
      a := [s[0]] + rest;
      assert TrimLeft(s, cut) == TrimLeft(s[1..], cut) && s == [s[0]] + s[1..];
      hide TrimLeft;
    } else {
      a := "";
    }
  }

  lemma {:induction false} TrimRightMeans(s: string, cut: char -> bool) returns (b: string)
    ensures s == TrimRight(s, cut) + b && forall i :: 0 <= i < |b| ==> cut(b[i])
    ensures TrimRight(s, cut) != "" ==> !cut(TrimRight(s, cut)[|TrimRight(s, cut)| - 1])
  {
    if s != "" && cut(s[|s| - 1]) {
      var rest := TrimRightMeans(s[..|s| - 1], cut);
      b := rest + [s[|s| - 1]];
      assert s == s[..|s| - 1] + [s[|s| - 1]];
    } else {
      b := "";
    }
  }

  lemma {:induction false} TrimLeftRun(c: char, n: nat, rest: string, cut: char -> bool)
    requires cut(c) && (rest != "" ==> !cut(rest[0]))
    ensures TrimLeft(Repeat(c, n) + rest, cut) == rest
  {
    var s := Repeat(c, n) + rest;
    if n == 0 {
      assert s == rest;
    } else {
      TrimLeftRun(c, n - 1, rest, cut);
      assert s[1..] == Repeat(c, n - 1) + rest;
    }
  }

  lemma EmptyOrSome<T>(xs: seq<T>)
    ensures xs == [] || exists x :: x in xs
  {
    assert xs == [] || xs[0] in xs;
  }

  ghost function AnyOf<T>(s: set<T>): (x: T)
    requires s != {}
    ensures x in s
  {
    var x :| x in s; x
  }

  lemma {:induction false} MinExists(s: set<int>)
    requires s != {}
    ensures exists m :: m in s && forall x :: x in s ==> m <= x
  {
    var x := AnyOf(s);
    var rest := s - {x};
    assert s == rest + {x};
    if rest != {} {
      MinExists(rest);
      var m :| m in rest && forall y :: y in rest ==> m <= y;
      var least := if m < x then m else x;
      assert least in s && forall y :: y in s ==> least <= y;
    }
  }

  function Least(s: set<int>): (m: int)
    requires s != {}
    ensures m in s && forall x :: x in s ==> m <= x
  {
    MinExists(s);
    var m :| m in s && forall x :: x in s ==> m <= x;
    m
  }

  /** The elements of a set from the least up. */
  function Ascending(s: set<int>): (r: seq<int>)
    ensures forall x :: x in r <==> x in s
    ensures forall i, j :: 0 <= i < j < |r| ==> r[i] < r[j]
  {
    if s == {} then []
    else
      var m := Least(s);
      var rest := Ascending(s - {m});
      assert forall i :: 0 <= i < |rest| ==> rest[i] in s - {m};
      [m] + rest
  }
}
