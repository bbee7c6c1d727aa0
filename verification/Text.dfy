/** The string operations the reference parsers are built from. */
module Text {

  import opened Basics

  /** The White_Space property, as `char::is_whitespace` uses it. */
  predicate IsWhitespace(c: char)
  {
    var x := c as int;
    || 0x09 <= x <= 0x0D || x == 0x20 || x == 0x85 || x == 0xA0 || x == 0x1680
    || 0x2000 <= x <= 0x200A || x == 0x2028 || x == 0x2029 || x == 0x202F || x == 0x205F || x == 0x3000
  }

  function TrimStart(s: string): string
  {
    if s != [] && IsWhitespace(s[0]) then TrimStart(s[1..]) else s
  }

  function TrimEnd(s: string): string
  {
    if s != [] && IsWhitespace(s[|s| - 1]) then TrimEnd(s[..|s| - 1]) else s
  }

  function Trim(s: string): string { TrimEnd(TrimStart(s)) }

  predicate Trimmed(s: string)
  {
    s != [] ==> !IsWhitespace(s[0]) && !IsWhitespace(s[|s| - 1])
  }

  lemma {:induction false} TrimEndTrims(s: string)
    ensures TrimEnd(s) != [] ==> !IsWhitespace(TrimEnd(s)[|TrimEnd(s)| - 1]) && TrimEnd(s)[0] == s[0]
    ensures TrimEnd(s) <= s
  {
    if s != [] && IsWhitespace(s[|s| - 1]) {
      TrimEndTrims(s[..|s| - 1]);
    }
  }

  lemma {:induction false} TrimStartTrims(s: string)
    ensures TrimStart(s) != [] ==> !IsWhitespace(TrimStart(s)[0])
  {
    if s != [] && IsWhitespace(s[0]) {
      TrimStartTrims(s[1..]);
    }
  }

  lemma TrimTrims(s: string)
    ensures Trimmed(Trim(s))
    ensures Trimmed(s) ==> Trim(s) == s
  {
    TrimStartTrims(s);
    TrimEndTrims(TrimStart(s));
  }

  predicate AllWhitespace(s: string) { forall i :: 0 <= i < |s| ==> IsWhitespace(s[i]) }

  lemma {:induction false} TrimStartCuts(s: string) returns (a: string)
    ensures s == a + TrimStart(s) && AllWhitespace(a)
  {
    a := [];
    if s != [] && IsWhitespace(s[0]) {
      var rest := TrimStartCuts(s[1..]);
      a := [s[0]] + rest;
      assert s == [s[0]] + s[1..];
    }
  }

  lemma {:induction false} TrimEndCuts(s: string) returns (b: string)
    ensures s == TrimEnd(s) + b && AllWhitespace(b)
  {
    b := [];
    if s != [] && IsWhitespace(s[|s| - 1]) {
      var rest := TrimEndCuts(s[..|s| - 1]);
      b := rest + [s[|s| - 1]];
      assert s == s[..|s| - 1] + [s[|s| - 1]];
    }
  }

  /** Trimming removes whitespace at both ends and nothing else. */
  lemma TrimCuts(s: string) returns (a: string, b: string)
    ensures s == a + Trim(s) + b && AllWhitespace(a) && AllWhitespace(b) && Trimmed(Trim(s))
  {
    a := TrimStartCuts(s);
    b := TrimEndCuts(TrimStart(s));
    TrimTrims(s);
  }

  /** What is left is determined by that. */
  lemma TrimIsUnique(s: string, a: string, t: string, b: string)
    requires s == a + t + b && AllWhitespace(a) && AllWhitespace(b) && Trimmed(t)
    ensures Trim(s) == t
  {
    SkipStart(a, t + b);
    assert s == a + (t + b);
    if t == [] {
      assert t + b == b;
      SkipStart(b, []);
      assert b + [] == b;
    } else {
      assert TrimStart(t + b) == t + b;
      SkipEnd(t, b);
    }
  }

  lemma {:induction false} SkipStart(a: string, t: string)
    requires AllWhitespace(a)
    ensures TrimStart(a + t) == TrimStart(t)
  {
    if a == [] {
      assert a + t == t;
    } else {
      assert (a + t)[1..] == a[1..] + t;
      SkipStart(a[1..], t);
    }
  }

  lemma {:induction false} SkipEnd(t: string, b: string)
    requires AllWhitespace(b)
    ensures TrimEnd(t + b) == TrimEnd(t)
  {
    if b == [] {
      assert t + b == t;
    } else {
      assert (t + b)[..|t + b| - 1] == t + b[..|b| - 1];
      SkipEnd(t, b[..|b| - 1]);
    }
  }

  /** The 25 characters with the White_Space property. */
  lemma WhitespaceListed(c: char)
    ensures IsWhitespace(c) <==>
            c in {'\t', '\n', '\U{0B}', '\U{0C}', '\r', ' ', '\U{85}', '\U{A0}', '\U{1680}',
                  '\U{2000}', '\U{2001}', '\U{2002}', '\U{2003}', '\U{2004}', '\U{2005}', '\U{2006}',
                  '\U{2007}', '\U{2008}', '\U{2009}', '\U{200A}', '\U{2028}', '\U{2029}', '\U{202F}',
                  '\U{205F}', '\U{3000}'}
  {
    if IsWhitespace(c) {
      var x := c as int;
      assert c == x as char;
    }
  }

  /** Split at the first occurrence of `c`. */
  function SplitOnce(s: string, c: char): (r: Option<(string, string)>)
    ensures r.None? <==> c !in s
    ensures r.Some? ==> s == r.value.0 + [c] + r.value.1 && c !in r.value.0
  {
    if s == [] then None
    else if s[0] == c then assert s == [] + [c] + s[1..]; Some(([], s[1..]))
    else
      match SplitOnce(s[1..], c)
      case None => None
      case Some((l, r)) =>
        assert s == [s[0]] + l + [c] + r;
        Some(([s[0]] + l, r))
  }

  /** Split at the last occurrence of `c`. */
  function RSplitOnce(s: string, c: char): (r: Option<(string, string)>)
    ensures r.None? <==> c !in s
    ensures r.Some? ==> s == r.value.0 + [c] + r.value.1 && c !in r.value.1
  {
    if s == [] then None
    else if s[|s| - 1] == c then
      assert s == s[..|s| - 1] + [c] + [];
      Some((s[..|s| - 1], []))
    else
      assert s == s[..|s| - 1] + [s[|s| - 1]];
      match RSplitOnce(s[..|s| - 1], c)
      case None => None
      case Some((l, r)) =>
        assert s == l + [c] + (r + [s[|s| - 1]]);
        Some((l, r + [s[|s| - 1]]))
  }

  /** Splitting undoes joining when the separator does not occur on the near side. */
  lemma {:induction false} SplitOnceJoins(l: string, c: char, r: string)
    requires c !in l
    ensures SplitOnce(l + [c] + r, c) == Some((l, r))
  {
    var s := l + [c] + r;
    if l == [] {
      assert s[1..] == r;
    } else {
      assert s[1..] == l[1..] + [c] + r;
      SplitOnceJoins(l[1..], c, r);
      assert [l[0]] + l[1..] == l;
    }
  }

  lemma {:induction false} RSplitOnceJoins(l: string, c: char, r: string)
    requires c !in r
    ensures RSplitOnce(l + [c] + r, c) == Some((l, r))
  {
    var s := l + [c] + r;
    if r == [] {
      assert s[..|s| - 1] == l;
    } else {
      assert s[..|s| - 1] == l + [c] + r[..|r| - 1];
      RSplitOnceJoins(l, c, r[..|r| - 1]);
      assert r[..|r| - 1] + [r[|r| - 1]] == r;
    }
  }
}
