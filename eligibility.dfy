/** The eligibility text as `Trial.parse_eligibility` prepares it for Markdown
    (trial.py:125-127): each line's run of leading spaces collapsed to one space, then
    `>` and `<` escaped as HTML entities. */
module Eligibility {
  import Strings

  /** The number of spaces a line starts with. */
  function LeadingSpaces(line: string): (n: nat)
    ensures n <= |line|
    ensures forall k :: 0 <= k < n ==> line[k] == ' '
    ensures n == |line| || line[n] != ' '
    decreases |line|
  {
    if line != [] && line[0] == ' ' then 1 + LeadingSpaces(line[1..]) else 0
  }

  /** `re.sub(r'^ +', ' ', line)` for one line: a leading run of spaces becomes one space. */
  function CollapseLine(line: string): string
  {
    var n := LeadingSpaces(line);
    if n > 0 then " " + line[n..] else line
  }

  /** `re.sub(r'^ +', ' ', txt, flags=re.MULTILINE)`: `^` matches at the start of the text
      and after every newline, so the rule applies line by line. */
  function CollapseLeadingSpaces(txt: string): string
  {
    var lines := Strings.Split(txt, '\n');
    Strings.Join("\n", seq(|lines|, i requires 0 <= i < |lines| => CollapseLine(lines[i])))
  }

  /** `txt.replace('>', '&gt;').replace('<', '&lt;')`. */
  function EscapeAngles(txt: string): string
  {
    Strings.ReplaceChar(Strings.ReplaceChar(txt, '>', "&gt;"), '<', "&lt;")
  }

  /** The text handed to the Markdown renderer. */
  function PreparedText(txt: string): string
  {
    EscapeAngles(CollapseLeadingSpaces(txt))
  }

  /** The prepared text, line by line. */
  function PreparedLines(txt: string): (r: seq<string>)
    ensures |r| == |Strings.Split(txt, '\n')|
  {
    var lines := Strings.Split(txt, '\n');
    seq(|lines|, i requires 0 <= i < |lines| => EscapeAngles(CollapseLine(lines[i])))
  }

  /** The text sent to Markdown holds no `<` and no `>`: no input character can be read as
      markup. */
  lemma PreparedHasNoAngles(txt: string)
    ensures '<' !in PreparedText(txt) && '>' !in PreparedText(txt)
  {
    var t := CollapseLeadingSpaces(txt);
    var t1 := Strings.ReplaceChar(t, '>', "&gt;");
    Strings.ReplaceCharRemoves(t, '>', "&gt;", '<');
    Strings.ReplaceCharRemoves(t1, '<', "&lt;", '>');
  }

  /** Escaping adds no newline and removes none. */
  lemma EscapeKeepsNewlines(s: string)
    ensures '\n' in EscapeAngles(s) <==> '\n' in s
  {
    var s1 := Strings.ReplaceChar(s, '>', "&gt;");
    Strings.ReplaceCharRemoves(s, '>', "&gt;", '\n');
    Strings.ReplaceCharRemoves(s1, '<', "&lt;", '\n');
    if '\n' in s {
      ReplaceCharKeeps(s, '>', "&gt;", '\n');
      ReplaceCharKeeps(s1, '<', "&lt;", '\n');
    }
  }

  /** A character other than the replaced one survives the replacement. */
  lemma {:induction false} ReplaceCharKeeps(s: string, c: char, rep: string, d: char)
    requires d != c && d in s
    ensures d in Strings.ReplaceChar(s, c, rep)
    decreases |s|
  {
    if s[0] != d {
      ReplaceCharKeeps(s[1..], c, rep, d);
    }
  }

  /** Escaping a line that starts with a character other than `<`, `>` keeps that character
      in front. */
  lemma EscapeKeepsHead(x: char, rest: string)
    requires x != '<' && x != '>'
    ensures EscapeAngles([x] + rest) == [x] + EscapeAngles(rest)
  {
    Strings.ReplaceCharAppend([x], rest, '>', "&gt;");
    var r1 := Strings.ReplaceChar(rest, '>', "&gt;");
    assert Strings.ReplaceChar([x], '>', "&gt;") == [x];
    Strings.ReplaceCharAppend([x], r1, '<', "&lt;");
    assert Strings.ReplaceChar([x], '<', "&lt;") == [x];
  }

  /** Escaping never yields a space where the input had something else: the first
      character of an escaped text is a space only if the text started with one. */
  lemma EscapeHead(s: string)
    requires s != []
    ensures EscapeAngles(s) != []
    ensures EscapeAngles(s)[0] == ' ' <==> s[0] == ' '
  {
    var head, rest := s[0], s[1..];
    assert s == [head] + rest;
    if head != '<' && head != '>' {
      EscapeKeepsHead(head, rest);
    } else {
      Strings.ReplaceCharAppend([head], rest, '>', "&gt;");
      var r1 := Strings.ReplaceChar(rest, '>', "&gt;");
      if head == '>' {
        assert Strings.ReplaceChar([head], '>', "&gt;") == "&gt;";
        Strings.ReplaceCharAppend("&gt;", r1, '<', "&lt;");
        assert Strings.ReplaceChar("&gt;", '<', "&lt;") == "&gt;";
      } else {
        assert Strings.ReplaceChar([head], '>', "&gt;") == "<";
        Strings.ReplaceCharAppend("<", r1, '<', "&lt;");
        assert Strings.ReplaceChar("<", '<', "&lt;") == "&lt;";
      }
    }
  }

  /** Escaping distributes over the newline-joined lines. */
  lemma {:induction false} EscapeJoin(ls: seq<string>)
    ensures EscapeAngles(Strings.Join("\n", ls))
      == Strings.Join("\n", seq(|ls|, i requires 0 <= i < |ls| => EscapeAngles(ls[i])))
    decreases |ls|
  {
    var es := seq(|ls|, i requires 0 <= i < |ls| => EscapeAngles(ls[i]));
    if |ls| == 0 {
    } else if |ls| == 1 {
    } else {
      EscapeJoin(ls[1..]);
      var tail := Strings.Join("\n", ls[1..]);
      var r1 := Strings.ReplaceChar(ls[0] + "\n", '>', "&gt;");
      Strings.ReplaceCharAppend(ls[0] + "\n", tail, '>', "&gt;");
      Strings.ReplaceCharAppend(ls[0], "\n", '>', "&gt;");
      assert Strings.ReplaceChar("\n", '>', "&gt;") == "\n";
      var a := Strings.ReplaceChar(ls[0], '>', "&gt;");
      var b := Strings.ReplaceChar(tail, '>', "&gt;");
      Strings.ReplaceCharAppend(a + "\n", b, '<', "&lt;");
      Strings.ReplaceCharAppend(a, "\n", '<', "&lt;");
      assert Strings.ReplaceChar("\n", '<', "&lt;") == "\n";
      assert es[1..] == seq(|ls[1..]|, i requires 0 <= i < |ls[1..]| => EscapeAngles(ls[1..][i]));
    }
  }

  /** A line of the input holds no newline, and neither does its prepared form. */
  lemma PreparedLineHasNoNewline(line: string)
    requires '\n' !in line
    ensures '\n' !in EscapeAngles(CollapseLine(line))
  {
    var n := LeadingSpaces(line);
    if n > 0 {
      assert forall c :: c in line[n..] ==> c in line;
    }
    EscapeKeepsNewlines(CollapseLine(line));
  }

  /** Splitting the prepared text on newlines gives exactly the prepared lines: the rule
      and the escaping never join or break lines. */
  lemma PreparedTextLines(txt: string)
    ensures Strings.Split(PreparedText(txt), '\n') == PreparedLines(txt)
  {
    var lines := Strings.Split(txt, '\n');
    var collapsed := seq(|lines|, i requires 0 <= i < |lines| => CollapseLine(lines[i]));
    EscapeJoin(collapsed);
    Strings.SplitPiecesAvoidSep(txt, '\n');
    var out := PreparedLines(txt);
    assert out == seq(|collapsed|, i requires 0 <= i < |collapsed| => EscapeAngles(collapsed[i]));
    forall i | 0 <= i < |out| ensures '\n' !in out[i] {
      PreparedLineHasNoNewline(lines[i]);
    }
    Strings.SplitJoin(out, '\n');
  }

  /** The leading-space rule, line by line: the prepared text has one line per input line;
      a line that started with spaces starts with exactly one space; a line that did not
      start with a space still does not, and is only escaped. */
  lemma LeadingSpaceRule(txt: string, i: int)
    requires 0 <= i < |Strings.Split(txt, '\n')|
    ensures |Strings.Split(PreparedText(txt), '\n')| == |Strings.Split(txt, '\n')|
    ensures var line, out := Strings.Split(txt, '\n')[i], Strings.Split(PreparedText(txt), '\n')[i];
      && (line != [] && line[0] == ' ' ==>
            out != [] && out[0] == ' ' && (|out| == 1 || out[1] != ' '))
      && (line == [] || line[0] != ' ' ==>
            out == EscapeAngles(line) && (out == [] || out[0] != ' '))
  {
    PreparedTextLines(txt);
    var line := Strings.Split(txt, '\n')[i];
    var n := LeadingSpaces(line);
    if n > 0 {
      var rest := line[n..];
      EscapeKeepsHead(' ', rest);
      if rest != [] {
        EscapeHead(rest);
      }
    } else if line != [] {
      EscapeHead(line);
    }
  }
}
