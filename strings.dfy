/** The string operations of Python that the client uses — `str.split`, `str.join`,
    `str.replace` and decimal formatting — with the round trips between them. */
module Strings {

  /** The character class `\s` of Python's regular expressions, over ASCII. */
  predicate IsSpace(c: char)
  {
    c == ' ' || c == '\t' || c == '\n' || c == '\r' || c == '\U{000B}' || c == '\U{000C}'
  }

  /** Python's `str.split(sep)` for a one-character separator: always at least one piece,
      an empty piece between two adjacent separators. */
  function Split(s: string, sep: char): (parts: seq<string>)
    ensures |parts| >= 1
    decreases |s|
  {
    if s == [] then [""]
    else
      var rest := Split(s[1..], sep);
      if s[0] == sep then [""] + rest else [[s[0]] + rest[0]] + rest[1..]
  }

  /** Python's `sep.join(parts)`. */
  function Join(sep: string, parts: seq<string>): string
  {
    if |parts| == 0 then ""
    else if |parts| == 1 then parts[0]
    else parts[0] + sep + Join(sep, parts[1..])
  }

  /** No piece that `Split` produces contains the separator. */
  lemma {:induction false} SplitPiecesAvoidSep(s: string, sep: char)
    ensures forall i :: 0 <= i < |Split(s, sep)| ==> sep !in Split(s, sep)[i]
    decreases |s|
  {
    if s != [] {
      SplitPiecesAvoidSep(s[1..], sep);
    }
  }

  lemma JoinCons(sep: string, x: string, parts: seq<string>)
    requires |parts| >= 1
    ensures Join(sep, [x + parts[0]] + parts[1..]) == x + Join(sep, parts)
  {
    var ps := [x + parts[0]] + parts[1..];
    assert ps[1..] == parts[1..];
  }

  /** Joining the pieces of a split with the same separator gives the string back. */
  lemma {:induction false} JoinSplit(s: string, sep: char)
    ensures Join([sep], Split(s, sep)) == s
    decreases |s|
  {
    if s != [] {
      var rest := Split(s[1..], sep);
      JoinSplit(s[1..], sep);
      if s[0] == sep {
        assert ([""] + rest)[1..] == rest;
      } else {
        JoinCons([sep], [s[0]], rest);
      }
    }
  }

  /** A string without the separator splits into itself. */
  lemma {:induction false} SplitWithoutSep(a: string, sep: char)
    requires sep !in a
    ensures Split(a, sep) == [a]
    decreases |a|
  {
    if a != [] {
      SplitWithoutSep(a[1..], sep);
      assert [a[0]] + a[1..] == a;
    }
  }

  /** A separator-free prefix followed by the separator becomes the first piece. */
  lemma {:induction false} SplitAtFirstSep(a: string, sep: char, b: string)
    requires sep !in a
    ensures Split(a + [sep] + b, sep) == [a] + Split(b, sep)
    decreases |a|
  {
    if a == [] {
      assert a + [sep] + b == [sep] + b;
      assert ([sep] + b)[1..] == b;
    } else {
      var s := a + [sep] + b;
      assert s[0] == a[0] && s[1..] == a[1..] + [sep] + b;
      SplitAtFirstSep(a[1..], sep, b);
      assert [a[0]] + a[1..] == a;
    }
  }

  /** Splitting a join of separator-free pieces gives the pieces back. */
  lemma {:induction false} SplitJoin(parts: seq<string>, sep: char)
    requires |parts| >= 1
    requires forall i :: 0 <= i < |parts| ==> sep !in parts[i]
    ensures Split(Join([sep], parts), sep) == parts
    decreases |parts|
  {
    if |parts| == 1 {
      SplitWithoutSep(parts[0], sep);
    } else {
      SplitJoin(parts[1..], sep);
      SplitAtFirstSep(parts[0], sep, Join([sep], parts[1..]));
      assert [parts[0]] + parts[1..] == parts;
    }
  }

  /** `s.replace(c, rep)` for a one-character pattern. */
  function ReplaceChar(s: string, c: char, rep: string): string
    decreases |s|
  {
    if s == [] then ""
    else (if s[0] == c then rep else [s[0]]) + ReplaceChar(s[1..], c, rep)
  }

  /** Character-by-character replacement distributes over concatenation. */
  lemma {:induction false} ReplaceCharAppend(a: string, b: string, c: char, rep: string)
    ensures ReplaceChar(a + b, c, rep) == ReplaceChar(a, c, rep) + ReplaceChar(b, c, rep)
    decreases |a|
  {
    if a != [] {
      assert (a + b)[0] == a[0];
      assert (a + b)[1..] == a[1..] + b;
      ReplaceCharAppend(a[1..], b, c, rep);
      var head := if a[0] == c then rep else [a[0]];
      calc {
        ReplaceChar(a + b, c, rep);
        head + ReplaceChar(a[1..] + b, c, rep);
        head + (ReplaceChar(a[1..], c, rep) + ReplaceChar(b, c, rep));
        (head + ReplaceChar(a[1..], c, rep)) + ReplaceChar(b, c, rep);
      }
    } else {
      assert a + b == b;
    }
  }

  /** After replacing `c` by a text without `c`, no `c` is left, and no character
      appears that was neither in the input nor in the replacement. */
  lemma {:induction false} ReplaceCharRemoves(s: string, c: char, rep: string, d: char)
    requires c !in rep
    ensures c !in ReplaceChar(s, c, rep)
    ensures d in ReplaceChar(s, c, rep) ==> d in s || d in rep
    decreases |s|
  {
    if s != [] {
      ReplaceCharRemoves(s[1..], c, rep, d);
    }
  }

  /** Replacing `c` by `[d]` and then `d` by `[c]` gives back a text that held no `d`. */
  lemma {:induction false} ReplaceCharInverse(s: string, c: char, d: char)
    requires d !in s
    ensures ReplaceChar(ReplaceChar(s, c, [d]), d, [c]) == s
    decreases |s|
  {
    if s != [] {
      ReplaceCharInverse(s[1..], c, d);
      var head := if s[0] == c then [d] else [s[0]];
      ReplaceCharAppend(head, ReplaceChar(s[1..], c, [d]), d, [c]);
      assert ReplaceChar(head, d, [c]) == [s[0]];
      assert [s[0]] + s[1..] == s;
    }
  }

  /** One occurrence of `c` between texts without it is the only one replaced. */
  lemma ReplaceCharOne(a: string, c: char, rep: string, b: string)
    requires c !in a && c !in b
    ensures ReplaceChar(a + [c] + b, c, rep) == a + rep + b
  {
    ReplaceCharAppend(a + [c], b, c, rep);
    ReplaceCharAppend(a, [c], c, rep);
    ReplaceCharAbsent(a, c, rep);
    ReplaceCharAbsent(b, c, rep);
    assert ReplaceChar([c], c, rep) == rep;
  }

  /** A text without `c` is left as it is. */
  lemma {:induction false} ReplaceCharAbsent(s: string, c: char, rep: string)
    requires c !in s
    ensures ReplaceChar(s, c, rep) == s
    decreases |s|
  {
    if s != [] {
      ReplaceCharAbsent(s[1..], c, rep);
      assert [s[0]] + s[1..] == s;
    }
  }

  /** The text before the first `sep` and the text after it; the whole text and "" when
      there is no `sep` (Python's `s.partition(sep)` without the separator). */
  function SplitFirst(s: string, sep: char): (r: (string, string))
    ensures sep !in s ==> r == (s, "")
    ensures sep in s ==> s == r.0 + [sep] + r.1 && sep !in r.0
    decreases |s|
  {
    if s == [] then ("", "")
    else if s[0] == sep then ("", s[1..])
    else
      var r := SplitFirst(s[1..], sep);
      assert s == [s[0]] + s[1..];
      ([s[0]] + r.0, r.1)
  }

  /** Splitting at the first separator recovers both sides when the left one holds none. */
  lemma {:induction false} SplitFirstAt(a: string, sep: char, b: string)
    requires sep !in a
    ensures SplitFirst(a + [sep] + b, sep) == (a, b)
    decreases |a|
  {
    if a != [] {
      assert (a + [sep] + b)[1..] == a[1..] + [sep] + b;
      SplitFirstAt(a[1..], sep, b);
      assert [a[0]] + a[1..] == a;
    } else {
      assert a + [sep] + b == [sep] + b;
    }
  }

  /** A joined text starts with its first part. */
  lemma JoinHead(sep: string, parts: seq<string>)
    requires |parts| >= 1
    ensures |parts[0]| <= |Join(sep, parts)| && Join(sep, parts)[..|parts[0]|] == parts[0]
  {
    if |parts| > 1 {
      assert Join(sep, parts) == parts[0] + (sep + Join(sep, parts[1..]));
    }
  }

  /** `s.replace(pat, rep)` for a non-empty pattern: left to right, without overlaps. */
  function ReplaceAll(s: string, pat: string, rep: string): string
    requires pat != []
    decreases |s|
  {
    if |s| < |pat| then s
    else if s[..|pat|] == pat then rep + ReplaceAll(s[|pat|..], pat, rep)
    else [s[0]] + ReplaceAll(s[1..], pat, rep)
  }

  /** A prefix that cannot start the pattern is copied, the first occurrence after it is replaced. */
  lemma {:induction false} ReplaceAllAfterPrefix(p: string, pat: string, rep: string, q: string)
    requires pat != []
    requires pat[0] !in p
    ensures ReplaceAll(p + pat + q, pat, rep) == p + rep + ReplaceAll(q, pat, rep)
    decreases |p|
  {
    var s := p + pat + q;
    if p == [] {
      assert s == pat + q;
      assert s[..|pat|] == pat;
      assert s[|pat|..] == q;
    } else {
      assert s[0] == p[0];
      assert s[..|pat|][0] != pat[0];
      assert s[1..] == p[1..] + pat + q;
      ReplaceAllAfterPrefix(p[1..], pat, rep, q);
      assert ReplaceAll(s, pat, rep) == [p[0]] + ReplaceAll(s[1..], pat, rep);
      assert [p[0]] + p[1..] == p;
    }
  }

  /** The decimal digit of `d`. */
  function Digit(d: nat): char
    requires d < 10
  {
    "0123456789"[d]
  }

  /** Python's `str(n)` / `"{}".format(n)` for a natural number. */
  function NatToString(n: nat): (r: string)
    ensures r != []
    ensures forall i :: 0 <= i < |r| ==> '0' <= r[i] <= '9'
  {
    if n < 10 then [Digit(n)] else NatToString(n / 10) + [Digit(n % 10)]
  }
}
