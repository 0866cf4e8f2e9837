/** The two regular-expression rules of `Trial.cleanup_keywords` (trial.py:219-231):
    `re.split(r';\s+', keyword)` and `re.sub(r'[,\.]+\s*$', '', kw)`, written out as
    string functions, with the properties the cleanup promises. */
module Keywords {
  import opened Strings

  /** `s` with its leading whitespace removed. */
  function DropSpaces(s: string): (r: string)
    ensures |r| <= |s| && r == s[|s| - |r|..]
    ensures r == [] || !IsSpace(r[0])
    decreases |s|
  {
    if s != [] && IsSpace(s[0]) then DropSpaces(s[1..]) else s
  }

  /** A separator starts at the front of `s`: a `;` followed by whitespace. */
  predicate SeparatorAtFront(s: string)
  {
    |s| >= 2 && s[0] == ';' && IsSpace(s[1])
  }

  /** `re.split(r';\s+', s)`: cut at every `;` that is followed by whitespace, the
      separator taking all of that whitespace. */
  function SplitKeyword(s: string): (parts: seq<string>)
    ensures |parts| >= 1
    decreases |s|
  {
    if s == [] then [""]
    else if SeparatorAtFront(s) then [""] + SplitKeyword(DropSpaces(s[1..]))
    else
      var rest := SplitKeyword(s[1..]);
      [[s[0]] + rest[0]] + rest[1..]
  }

  /** The characters of the class `[,\.]`. */
  predicate IsPunct(c: char)
  {
    c == ',' || c == '.'
  }

  /** Where the run of whitespace at the end of `s` starts. */
  function SpaceRunStart(s: string): (q: nat)
    ensures q <= |s|
    ensures forall k :: q <= k < |s| ==> IsSpace(s[k])
    ensures q == 0 || !IsSpace(s[q - 1])
    decreases |s|
  {
    if s != [] && IsSpace(s[|s| - 1]) then SpaceRunStart(s[..|s| - 1]) else |s|
  }

  /** Where the run of `,` and `.` that ends at `q` starts. */
  function PunctRunStart(s: string, q: nat): (p: nat)
    requires q <= |s|
    ensures p <= q
    ensures forall k :: p <= k < q ==> IsPunct(s[k])
    ensures p == 0 || !IsPunct(s[p - 1])
    decreases q
  {
    if q > 0 && IsPunct(s[q - 1]) then PunctRunStart(s, q - 1) else q
  }

  /** `re.sub(r'[,\.]+\s*$', '', kw)`: drop trailing commas and full stops together with
      the whitespace after them. */
  function TrimTrailingPunct(kw: string): string
  {
    var q := SpaceRunStart(kw);
    var p := PunctRunStart(kw, q);
    if p < q then kw[..p] else kw
  }

  /** Every character of `s` is a `,` or a `.`. */
  predicate AllPunct(s: string)
  {
    forall k :: 0 <= k < |s| ==> IsPunct(s[k])
  }

  /** Every character of `s` is whitespace. */
  predicate AllSpace(s: string)
  {
    forall k :: 0 <= k < |s| ==> IsSpace(s[k])
  }

  /** `t` is matched in full by `[,\.]+\s*`. */
  predicate PunctTail(t: string)
  {
    exists m | 0 < m <= |t| :: AllPunct(t[..m]) && AllSpace(t[m..])
  }

  /** The trimmed keyword is what comes before the leftmost match of `[,\.]+\s*$` (the
      whole keyword when there is none): the independent definition of the `re.sub`. */
  lemma TrimIsLeftmostMatch(kw: string)
    ensures var r := TrimTrailingPunct(kw);
      && |r| <= |kw| && r == kw[..|r|]
      && (r != kw ==> PunctTail(kw[|r|..]))
      && (forall p :: 0 <= p < |r| ==> !PunctTail(kw[p..]))
  {
    var q := SpaceRunStart(kw);
    var p := PunctRunStart(kw, q);
    var r := TrimTrailingPunct(kw);
    if p < q {
      var t := kw[p..];
      assert t[..q - p] == kw[p..q] && t[q - p..] == kw[q..];
      assert AllPunct(t[..q - p]) && AllSpace(t[q - p..]);
    }
    forall p' | 0 <= p' < |r| ensures !PunctTail(kw[p'..]) {
      if PunctTail(kw[p'..]) {
        var t := kw[p'..];
        var m :| 0 < m <= |t| && AllPunct(t[..m]) && AllSpace(t[m..]);
        assert t[..m] == kw[p'..p' + m] && t[m..] == kw[p' + m..];
        PunctTailShape(kw, p', m);
      }
    }
  }

  /** A match of `[,\.]+\s*` at `p'` ends its punctuation where the trailing whitespace
      starts, so it begins inside the final punctuation run. */
  lemma PunctTailShape(kw: string, p': nat, m: nat)
    requires 0 < m && p' + m <= |kw|
    requires AllPunct(kw[p'..p' + m]) && AllSpace(kw[p' + m..])
    ensures SpaceRunStart(kw) == p' + m
    ensures PunctRunStart(kw, p' + m) <= p'
  {
    var e := p' + m;
    var run := kw[p'..e];
    assert IsPunct(run[m - 1]);
    assert run[m - 1] == kw[e - 1];
    MatchEndIsSpaceStart(kw, e);
    PunctRunCovers(kw, e, p');
  }

  /** Whitespace to the end after a `,` or `.` at `e - 1` is exactly the trailing
      whitespace run. */
  lemma MatchEndIsSpaceStart(kw: string, e: nat)
    requires 0 < e <= |kw| && IsPunct(kw[e - 1]) && AllSpace(kw[e..])
    ensures SpaceRunStart(kw) == e
  {
    assert !IsSpace(kw[e - 1]);
  }

  /** A run of `,` and `.` ending at `q` starts no earlier than `PunctRunStart`. */
  lemma {:induction false} PunctRunCovers(kw: string, q: nat, p': nat)
    requires p' < q <= |kw|
    requires AllPunct(kw[p'..q])
    ensures PunctRunStart(kw, q) <= p'
    ensures IsPunct(kw[q - 1])
    decreases q
  {
    assert IsPunct(kw[p'..q][q - 1 - p']);
    if p' < q - 1 {
      assert kw[p'..q - 1] == kw[p'..q][..q - 1 - p'];
      PunctRunCovers(kw, q - 1, p');
    }
  }

  /** A cleaned keyword never ends with `,` or `.`. */
  lemma TrimmedEndsClean(kw: string)
    ensures var r := TrimTrailingPunct(kw); r == [] || !IsPunct(r[|r| - 1])
  {
    var q := SpaceRunStart(kw);
    var p := PunctRunStart(kw, q);
    if p == q && q > 0 && q == |kw| {
      assert !IsPunct(kw[q - 1]);
    } else if p == q && q > 0 && q < |kw| {
      assert !IsPunct(kw[q - 1]) by {
        assert !IsPunct(kw[p - 1]);
      }
      assert IsSpace(kw[|kw| - 1]);
    }
  }

  /** The pieces of one keyword, each trimmed; empty pieces are skipped. */
  function CleanedPieces(pieces: seq<string>): seq<string>
  {
    if pieces == [] then []
    else
      var last := pieces[|pieces| - 1];
      CleanedPieces(pieces[..|pieces| - 1]) + (if last != "" then [TrimTrailingPunct(last)] else [])
  }

  /** What `cleanup_keywords` returns for `keywords`. */
  function CleanedKeywords(keywords: seq<string>): seq<string>
  {
    if keywords == [] then []
    else
      CleanedKeywords(keywords[..|keywords| - 1])
      + CleanedPieces(SplitKeyword(keywords[|keywords| - 1]))
  }

  /** A keyword with no `;` followed by whitespace is one piece: commas and bare `;`
      are never split on. */
  lemma {:induction false} NoSeparatorIsOnePiece(s: string)
    requires forall k :: 0 <= k < |s| - 1 ==> !(s[k] == ';' && IsSpace(s[k + 1]))
    ensures SplitKeyword(s) == [s]
    decreases |s|
  {
    if s != [] {
      assert !SeparatorAtFront(s);
      NoSeparatorIsOnePiece(s[1..]);
      assert [s[0]] + s[1..] == s;
    }
  }

  /** `a; b` splits after `a`, whatever whitespace follows the `;`, when `a` itself holds
      no separator; a bare `;` in `a` (as in `a;b; c`) stays inside the first piece. */
  lemma {:induction false} SplitAtSeparator(a: string, gap: string, b: string)
    requires forall k :: 0 <= k < |a| - 1 ==> !(a[k] == ';' && IsSpace(a[k + 1]))
    requires gap != [] && forall k :: 0 <= k < |gap| ==> IsSpace(gap[k])
    requires b == [] || !IsSpace(b[0])
    ensures SplitKeyword(a + [';'] + gap + b) == [a] + SplitKeyword(b)
    decreases |a|
  {
    var s := a + [';'] + gap + b;
    if a == [] {
      assert s == [';'] + gap + b;
      assert SeparatorAtFront(s);
      assert s[1..] == gap + b;
      DropSpacesPrefix(gap, b);
      assert SplitKeyword(s) == [""] + SplitKeyword(b);
    } else {
      assert s[0] == a[0];
      assert s[1] == (if |a| > 1 then a[1] else ';');
      assert !SeparatorAtFront(s);
      assert s[1..] == a[1..] + [';'] + gap + b;
      SplitAtSeparator(a[1..], gap, b);
      var rest := SplitKeyword(s[1..]);
      assert rest[0] == a[1..] && rest[1..] == SplitKeyword(b);
      assert SplitKeyword(s) == [[a[0]] + a[1..]] + SplitKeyword(b);
      assert [a[0]] + a[1..] == a;
    }
  }

  /** A `;` without whitespace after it does not split: `a;b; c` gives `a;b` and `c`. */
  lemma BareSemicolonStays()
    ensures SplitKeyword("a;b; c") == ["a;b", "c"]
  {
    SplitAtSeparator("a;b", " ", "c");
    NoSeparatorIsOnePiece("c");
    assert "a;b" + [';'] + " " + "c" == "a;b; c";
  }

  lemma {:induction false} DropSpacesPrefix(gap: string, b: string)
    requires forall k :: 0 <= k < |gap| ==> IsSpace(gap[k])
    requires b == [] || !IsSpace(b[0])
    ensures DropSpaces(gap + b) == b
    decreases |gap|
  {
    if gap != [] {
      assert (gap + b)[1..] == gap[1..] + b;
      DropSpacesPrefix(gap[1..], b);
    } else {
      assert gap + b == b;
    }
  }

  /** The first piece of a split that does not start at a separator begins with the first
      character of the keyword. */
  lemma FirstPieceHead(s: string)
    requires s != [] && !SeparatorAtFront(s)
    ensures SplitKeyword(s)[0] != [] && SplitKeyword(s)[0][0] == s[0]
  {
  }

  /** No piece holds a `;` directly followed by whitespace: every such pair was cut. */
  lemma {:induction false} PiecesHaveNoSeparator(s: string)
    ensures forall i, k :: 0 <= i < |SplitKeyword(s)| && 0 <= k < |SplitKeyword(s)[i]| - 1 ==>
      !SeparatorAtFront(SplitKeyword(s)[i][k..])
    decreases |s|
  {
    if s == [] {
    } else if SeparatorAtFront(s) {
      PiecesHaveNoSeparator(DropSpaces(s[1..]));
    } else {
      var rest := SplitKeyword(s[1..]);
      PiecesHaveNoSeparator(s[1..]);
      var first := [s[0]] + rest[0];
      forall k | 0 <= k < |first| - 1 ensures !SeparatorAtFront(first[k..]) {
        if k == 0 {
          if s[0] == ';' {
            assert |s| >= 2 && !IsSpace(s[1]);
            FirstPieceHead(s[1..]);
          }
        } else {
          assert first[k..] == rest[0][k - 1..];
        }
      }
    }
  }

  lemma CleanedPiecesAppend(a: seq<string>, b: seq<string>)
    ensures CleanedPieces(a + b) == CleanedPieces(a) + CleanedPieces(b)
    decreases |b|
  {
    if b != [] {
      var b' := b[..|b| - 1];
      assert (a + b)[..|a + b| - 1] == a + b';
      CleanedPiecesAppend(a, b');
    } else {
      assert a + b == a;
    }
  }

  /** Cleaning a concatenation of keyword lists concatenates the cleaned lists: input
      order is kept. */
  lemma {:induction false} CleanedKeywordsAppend(a: seq<string>, b: seq<string>)
    ensures CleanedKeywords(a + b) == CleanedKeywords(a) + CleanedKeywords(b)
    decreases |b|
  {
    if b != [] {
      var b' := b[..|b| - 1];
      assert (a + b)[..|a + b| - 1] == a + b';
      CleanedKeywordsAppend(a, b');
    } else {
      assert a + b == a;
    }
  }

  /** Every cleaned piece is the trimmed form of a non-empty piece, so none ends with `,`
      or `.`. */
  lemma {:induction false} CleanedPiecesEndClean(pieces: seq<string>)
    ensures forall i :: 0 <= i < |CleanedPieces(pieces)| ==>
      var r := CleanedPieces(pieces)[i]; r == [] || !IsPunct(r[|r| - 1])
    decreases |pieces|
  {
    if pieces != [] {
      CleanedPiecesEndClean(pieces[..|pieces| - 1]);
      TrimmedEndsClean(pieces[|pieces| - 1]);
    }
  }

  /** No element of the cleaned keyword list ends with `,` or `.`. */
  lemma {:induction false} CleanedKeywordsEndClean(keywords: seq<string>)
    ensures forall i :: 0 <= i < |CleanedKeywords(keywords)| ==>
      var r := CleanedKeywords(keywords)[i]; r == [] || !IsPunct(r[|r| - 1])
    decreases |keywords|
  {
    if keywords != [] {
      CleanedKeywordsEndClean(keywords[..|keywords| - 1]);
      CleanedPiecesEndClean(SplitKeyword(keywords[|keywords| - 1]));
    }
  }
}
