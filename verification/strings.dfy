/** The pieces of Python's `str` behaviour the launcher relies on:
    `str.strip()` with Python's notion of whitespace, `str.split(sep, n)`,
    and the binary ordering of text the database sorts names by. */
module Strings {

  /** `c.isspace()`: the characters Python treats as whitespace. */
  predicate IsSpace(c: char)
  {
    || c == ' ' || c == '\t' || c == '\n' || c == '\r'
    || c == '\U{B}' || c == '\U{C}'
    || ('\U{1C}' <= c <= '\U{1F}')
    || c == '\U{85}' || c == '\U{A0}' || c == '\U{1680}'
    || ('\U{2000}' <= c <= '\U{200A}')
    || c == '\U{2028}' || c == '\U{2029}' || c == '\U{202F}' || c == '\U{205F}' || c == '\U{3000}'
  }

  predicate AllSpace(s: string)
  {
    forall i :: 0 <= i < |s| ==> IsSpace(s[i])
  }

  /** Neither end of `s` is whitespace. */
  predicate Trimmed(s: string)
  {
    |s| == 0 || (!IsSpace(s[0]) && !IsSpace(s[|s| - 1]))
  }

  /** `s.lstrip()` */
  function TrimStart(s: string): string
  {
    if |s| == 0 || !IsSpace(s[0]) then s else TrimStart(s[1..])
  }

  /** `s.lstrip()` drops a whitespace prefix and stops at the first other
      character. */
  lemma {:induction false} TrimStartShape(s: string)
    ensures var r := TrimStart(s);
      |r| <= |s| && r == s[|s| - |r|..] && AllSpace(s[..|s| - |r|]) && (|r| == 0 || !IsSpace(r[0]))
  {
    if |s| > 0 && IsSpace(s[0]) {
      TrimStartShape(s[1..]);
      var r := TrimStart(s[1..]);
      assert s[1..][..|s| - 1 - |r|] == s[1..|s| - |r|];
      assert s[1..][|s| - 1 - |r|..] == s[|s| - |r|..];
    } else {
      assert s[..0] == [];
    }
  }

  /** `s.rstrip()` */
  function TrimEnd(s: string): string
  {
    if |s| == 0 || !IsSpace(s[|s| - 1]) then s else TrimEnd(s[..|s| - 1])
  }

  /** `s.rstrip()` drops a whitespace suffix and stops at the last other
      character. */
  lemma {:induction false} TrimEndShape(s: string)
    ensures var r := TrimEnd(s);
      |r| <= |s| && r == s[..|r|] && AllSpace(s[|r|..]) && (|r| == 0 || !IsSpace(r[|r| - 1]))
  {
    if |s| > 0 && IsSpace(s[|s| - 1]) {
      TrimEndShape(s[..|s| - 1]);
      var r := TrimEnd(s[..|s| - 1]);
      assert s[..|s| - 1][..|r|] == s[..|r|];
      assert s[..|s| - 1][|r|..] == s[|r|..|s| - 1];
      assert s[|r|..] == s[|r|..|s| - 1] + [s[|s| - 1]];
    } else {
      assert s[|s|..] == [];
    }
  }

  /** `s.strip()` */
  function Strip(s: string): string
  {
    TrimEnd(TrimStart(s))
  }

  /** `s.strip()` cuts `s` into some whitespace, the result and some
      whitespace, and the result neither starts nor ends with whitespace. */
  lemma StripShape(s: string)
    ensures Trimmed(Strip(s))
    ensures var r := Strip(s);
      exists i :: 0 <= i <= |s| - |r| && s[i..i + |r|] == r && AllSpace(s[..i]) && AllSpace(s[i + |r|..])
  {
    var t := TrimStart(s);
    var r := TrimEnd(t);
    TrimStartShape(s);
    TrimEndShape(t);
    var i := |s| - |t|;
    assert s[i..i + |r|] == r;
    assert s[i + |r|..] == t[|r|..];
    if |r| > 0 {
      assert r[0] == t[0];
    }
  }

  /** Stripping text whose ends are not whitespace gives it back. */
  lemma StripTrimmed(s: string)
    requires Trimmed(s)
    ensures Strip(s) == s
  {
    assert TrimStart(s) == s;
    assert TrimEnd(s) == s;
  }

  /** `c` does not occur in `s`. */
  predicate Free(s: string, c: char)
  {
    forall j :: 0 <= j < |s| ==> s[j] != c
  }

  /** The number of occurrences of `c` in `s`. */
  function Count(s: string, c: char): (n: nat)
    ensures n <= |s|
  {
    if |s| == 0 then 0 else (if s[0] == c then 1 else 0) + Count(s[1..], c)
  }

  /** The position of the first `c` in `s`, or `|s|` when there is none. */
  function IndexOf(s: string, c: char): (i: nat)
    ensures i <= |s|
    ensures Free(s[..i], c)
    ensures i < |s| ==> s[i] == c
  {
    if |s| == 0 then 0
    else if s[0] == c then 0
    else 1 + IndexOf(s[1..], c)
  }

  /** `sep.join(parts)` */
  function Join(parts: seq<string>, sep: char): string
  {
    if |parts| == 0 then ""
    else if |parts| == 1 then parts[0]
    else parts[0] + [sep] + Join(parts[1..], sep)
  }

  lemma JoinCons(first: string, rest: seq<string>, sep: char)
    requires 1 <= |rest|
    ensures Join([first] + rest, sep) == first + [sep] + Join(rest, sep)
  {
    assert ([first] + rest)[1..] == rest;
  }

  /** Cutting `s` at a separator and joining the pieces back. */
  lemma JoinAtSeparator(s: string, sep: char, i: nat, rest: seq<string>)
    requires i < |s| && s[i] == sep && 1 <= |rest| && Join(rest, sep) == s[i + 1..]
    ensures Join([s[..i]] + rest, sep) == s
  {
    JoinCons(s[..i], rest, sep);
    assert s == s[..i] + [sep] + s[i + 1..];
  }

  /** `s.split(sep, maxsplit)`: cut at the first `maxsplit` separators,
      leaving any further ones inside the last part. */
  function Split(s: string, sep: char, maxsplit: nat): (parts: seq<string>)
    ensures 1 <= |parts| <= maxsplit + 1
    decreases |s|
  {
    var i := IndexOf(s, sep);
    if maxsplit == 0 || i == |s| then [s]
    else
      [s[..i]] + Split(s[i + 1..], sep, maxsplit - 1)
  }

  /** Joining the parts of a split gives the text back. */
  lemma {:induction false} JoinSplit(s: string, sep: char, maxsplit: nat)
    ensures Join(Split(s, sep, maxsplit), sep) == s
    decreases |s|
  {
    var i := IndexOf(s, sep);
    if maxsplit != 0 && i != |s| {
      var rest := Split(s[i + 1..], sep, maxsplit - 1);
      assert Split(s, sep, maxsplit) == [s[..i]] + rest;
      JoinSplit(s[i + 1..], sep, maxsplit - 1);
      JoinAtSeparator(s, sep, i, rest);
    } else {
      assert Split(s, sep, maxsplit) == [s];
    }
  }

  /** No part of a split but the last holds the separator. */
  lemma {:induction false} SplitPartsFree(s: string, sep: char, maxsplit: nat)
    ensures forall k :: 0 <= k < |Split(s, sep, maxsplit)| - 1 ==> Free(Split(s, sep, maxsplit)[k], sep)
    decreases |s|
  {
    var i := IndexOf(s, sep);
    if maxsplit != 0 && i != |s| {
      var rest := Split(s[i + 1..], sep, maxsplit - 1);
      var parts := [s[..i]] + rest;
      assert Split(s, sep, maxsplit) == parts;
      SplitPartsFree(s[i + 1..], sep, maxsplit - 1);
      forall k | 0 <= k < |parts| - 1 ensures Free(parts[k], sep) {
        if k > 0 {
          assert parts[k] == rest[k - 1];
          assert Free(rest[k - 1], sep);
        } else {
          assert parts[k] == s[..i];
          assert Free(s[..i], sep);
        }
      }
    } else {
      assert Split(s, sep, maxsplit) == [s];
    }
  }

  /** The split yields exactly `maxsplit + 1` parts iff `s` has at least
      `maxsplit` separators. */
  lemma {:induction false} SplitFull(s: string, sep: char, maxsplit: nat)
    ensures |Split(s, sep, maxsplit)| == maxsplit + 1 <==> Count(s, sep) >= maxsplit
    decreases |s|
  {
    var i := IndexOf(s, sep);
    if maxsplit == 0 {
      assert |Split(s, sep, maxsplit)| == 1;
    } else if i == |s| {
      CountPrefix(s, sep, i);
      assert s[i..] == [];
      assert Count(s, sep) == 0;
      assert |Split(s, sep, maxsplit)| == 1;
    } else {
      CountPrefix(s, sep, i);
      assert Count(s, sep) == 1 + Count(s[i + 1..], sep);
      var rest := Split(s[i + 1..], sep, maxsplit - 1);
      assert |Split(s, sep, maxsplit)| == 1 + |rest|;
      SplitFull(s[i + 1..], sep, maxsplit - 1);
    }
  }

  /** When `s[..i]` has no `c`, the occurrences of `c` in `s` are those of
      `s[i..]`. */
  lemma {:induction false} CountPrefix(s: string, c: char, i: nat)
    requires i <= |s| && Free(s[..i], c)
    ensures Count(s, c) == Count(s[i..], c)
    ensures i < |s| && s[i] == c ==> Count(s, c) == 1 + Count(s[i + 1..], c)
  {
    if i > 0 {
      assert s[0] == s[..i][0];
      assert s[1..][..i - 1] == s[1..i];
      CountPrefix(s[1..], c, i - 1);
      assert s[1..][i - 1..] == s[i..];
    }
    if i < |s| && s[i] == c {
      assert s[i..][1..] == s[i + 1..];
    }
  }

  /** Splitting the join of parts that hold no separator, the last of which
      may hold any, gives the parts back. */
  lemma {:induction false} SplitJoin(parts: seq<string>, sep: char)
    requires 1 <= |parts|
    requires forall k :: 0 <= k < |parts| - 1 ==> Free(parts[k], sep)
    ensures Split(Join(parts, sep), sep, |parts| - 1) == parts
  {
    if |parts| > 1 {
      var first, rest := parts[0], parts[1..];
      assert parts == [first] + rest;
      FreeTail(parts, sep);
      SplitJoin(rest, sep);
      SplitAfterFreePart(first, rest, sep);
    } else {
      assert Split(parts[0], sep, 0) == [parts[0]];
    }
  }

  lemma FreeTail(parts: seq<string>, sep: char)
    requires 1 <= |parts|
    requires forall k :: 0 <= k < |parts| - 1 ==> Free(parts[k], sep)
    ensures forall k :: 0 <= k < |parts[1..]| - 1 ==> Free(parts[1..][k], sep)
  {
    forall k | 0 <= k < |parts[1..]| - 1 ensures Free(parts[1..][k], sep) {
      assert parts[1..][k] == parts[k + 1];
    }
  }

  /** One step of `SplitJoin`: a separator-free first part is cut off first. */
  lemma SplitAfterFreePart(first: string, rest: seq<string>, sep: char)
    requires 1 <= |rest| && Free(first, sep)
    requires Split(Join(rest, sep), sep, |rest| - 1) == rest
    ensures Split(Join([first] + rest, sep), sep, |rest|) == [first] + rest
  {
    var tail := Join(rest, sep);
    JoinCons(first, rest, sep);
    CutAtFirst(first, tail, sep);
    var s := first + [sep] + tail;
    assert Split(s, sep, |rest|) == [s[..|first|]] + Split(s[|first| + 1..], sep, |rest| - 1);
  }

  /** In `a + [sep] + b` with no separator in `a`, the first separator sits
      right after `a`. */
  lemma CutAtFirst(a: string, b: string, sep: char)
    requires Free(a, sep)
    ensures var s := a + [sep] + b; IndexOf(s, sep) == |a| && s[..|a|] == a && s[|a| + 1..] == b
  {
    var s := a + [sep] + b;
    assert s[..|a|] == a;
    IndexOfPrefix(s, sep, |a|);
  }

  /** The first separator is where the separator-free prefix ends. */
  lemma IndexOfPrefix(s: string, c: char, i: nat)
    requires i < |s| && s[i] == c && Free(s[..i], c)
    ensures IndexOf(s, c) == i
  {
  }

  /** Binary (code point) order on text, the order SQLite's default
      collation gives `ORDER BY name`: a proper prefix comes first. */
  predicate Below(a: string, b: string)
  {
    if |a| == 0 then |b| > 0
    else if |b| == 0 then false
    else if a[0] != b[0] then a[0] < b[0]
    else Below(a[1..], b[1..])
  }

  lemma {:induction false} BelowIrreflexive(a: string)
    ensures !Below(a, a)
  {
    if |a| > 0 {
      BelowIrreflexive(a[1..]);
    }
  }

  lemma {:induction false} BelowTransitive(a: string, b: string, c: string)
    requires Below(a, b) && Below(b, c)
    ensures Below(a, c)
  {
    if |a| > 0 && |b| > 0 && |c| > 0 && a[0] == b[0] && b[0] == c[0] {
      BelowTransitive(a[1..], b[1..], c[1..]);
    }
  }

  /** Two different texts are ordered one way or the other. */
  lemma {:induction false} BelowTotal(a: string, b: string)
    requires a != b
    ensures Below(a, b) || Below(b, a)
  {
    if |a| > 0 && |b| > 0 && a[0] == b[0] {
      assert a == [a[0]] + a[1..] && b == [b[0]] + b[1..];
      BelowTotal(a[1..], b[1..]);
    }
  }
}
