/** Strings as the source treats them: white space, substrings, lines ended by a newline. */
module Text {
  import opened Sequences

  predicate IsSpace(c: char) {
    '\U{9}' <= c <= '\U{D}' || '\U{1C}' <= c <= ' ' || c == '\U{85}' || c == '\U{A0}' || c == '\U{1680}'
    || '\U{2000}' <= c <= '\U{200A}' || c == '\U{2028}' || c == '\U{2029}' || c == '\U{202F}' || c == '\U{205F}' || c == '\U{3000}'
  }

  predicate Blank(s: string) { forall i :: 0 <= i < |s| ==> IsSpace(s[i]) }

  /** The white space a line starts with. */
  function LeadingWs(s: string): (r: string)
    ensures r <= s && Blank(r) && (|r| < |s| ==> !IsSpace(s[|r|]))
  {
    if s != "" && IsSpace(s[0]) then [s[0]] + LeadingWs(s[1..]) else ""
  }

  function LStrip(s: string): string { s[|LeadingWs(s)|..] }

  function RStrip(s: string): (r: string)
    ensures r <= s && (r != "" ==> !IsSpace(r[|r|-1]))
  {
    if s != "" && IsSpace(s[|s|-1]) then RStrip(s[..|s|-1]) else s
  }

  function Strip(s: string): string { RStrip(LStrip(s)) }

  predicate OccursAt(s: string, p: string, k: nat) { k + |p| <= |s| && s[k..k + |p|] == p }

  predicate Contains(s: string, p: string) { exists k :: 0 <= k <= |s| && OccursAt(s, p, k) }

  predicate EndsWith(s: string, p: string) { |p| <= |s| && s[|s| - |p|..] == p }

  lemma CharOfPart(s: string, p: string, c: char)
    requires Contains(s, p) && c in p
    ensures c in s
  {
    var k :| 0 <= k <= |s| && OccursAt(s, p, k);
    var j :| 0 <= j < |p| && p[j] == c;
    assert s[k..k + |p|][j] == s[k + j];
  }

  lemma ContainsBehind(x: string, s: string, y: string, p: string)
    requires Contains(s, p)
    ensures Contains(x + s + y, p)
  {
    var k :| 0 <= k <= |s| && OccursAt(s, p, k);
    assert (x + s + y)[|x| + k..|x| + k + |p|] == s[k..k + |p|];
    assert OccursAt(x + s + y, p, |x| + k);
  }

  /** Words in front of which white space is put. */
  lemma {:induction false} LeadingWsOf(indent: string, word: string)
    requires Blank(indent) && word != "" && !IsSpace(word[0])
    ensures LeadingWs(indent + word) == indent && LStrip(indent + word) == word
  {
    if indent == "" {
      assert indent + word == word;
    } else {
      LeadingWsOf(indent[1..], word);
      assert (indent + word)[1..] == indent[1..] + word && indent == [indent[0]] + indent[1..];
      assert (indent + word)[|indent|..] == word;
    }
  }

  lemma StripWord(indent: string, word: string)
    requires Blank(indent) && word != "" && !IsSpace(word[0]) && !IsSpace(word[|word|-1])
    ensures Strip(indent + word) == word
  {
    LeadingWsOf(indent, word);
  }

  /** A line that ends in something other than white space ends like its stripped form. */
  lemma StripKeepsEnd(s: string)
    requires s != "" && !IsSpace(s[|s|-1])
    ensures Strip(s) == s[|LeadingWs(s)|..] != ""
  {
    var w := LeadingWs(s);
    assert forall i :: 0 <= i < |w| ==> IsSpace(w[i]) && w[i] == s[i];
    assert LStrip(s)[|LStrip(s)|-1] == s[|s|-1];
  }

  // ---------- lines ----------

  predicate OneLine(s: string) { '\n' !in s }

  predicate AllOneLine(lines: seq<string>) { forall i :: 0 <= i < |lines| ==> OneLine(lines[i]) }

  function FirstBreak(s: string): (k: nat)
    ensures k <= |s| && OneLine(s[..k]) && (k < |s| ==> s[k] == '\n')
  {
    if s == "" || s[0] == '\n' then 0
    else
      var k := FirstBreak(s[1..]);
      assert s[..k + 1] == [s[0]] + s[1..][..k];
      k + 1
  }

  /** `splitlines()` of a text whose only line breaks are newlines. */
  function SplitLines(s: string): (r: seq<string>)
    ensures AllOneLine(r) && (s == "" <==> r == [])
    decreases |s|
  {
    if s == "" then []
    else
      var k := FirstBreak(s);
      if k == |s| then assert s[..k] == s; [s] else [s[..k]] + SplitLines(s[k + 1..])
  }

  /** Every line followed by a newline. */
  function Terminated(lines: seq<string>): string {
    if lines == [] then "" else lines[0] + "\n" + Terminated(lines[1..])
  }

  /** The newline-joined lines, with a newline at the end or without. */
  function JoinLines(lines: seq<string>, newlineAtEnd: bool): string {
    if lines == [] then (if newlineAtEnd then "\n" else "")
    else if |lines| == 1 then lines[0] + (if newlineAtEnd then "\n" else "")
    else lines[0] + "\n" + JoinLines(lines[1..], newlineAtEnd)
  }

  predicate EndsInBreak(s: string) { s != "" && s[|s|-1] == '\n' }

  lemma {:induction false} BreakIs(s: string, k: nat)
    requires k <= |s| && (forall i :: 0 <= i < k ==> s[i] != '\n') && (k < |s| ==> s[k] == '\n')
    ensures FirstBreak(s) == k
  {
    if k > 0 { BreakIs(s[1..], k - 1); }
  }

  lemma BreakAfter(x: string, rest: string)
    requires OneLine(x)
    ensures FirstBreak(x + "\n" + rest) == |x|
    ensures SplitLines(x + "\n" + rest) == [x] + SplitLines(rest)
  {
    var s := x + "\n" + rest;
    assert forall i :: 0 <= i < |x| ==> s[i] == x[i] && x[i] in x;
    BreakIs(s, |x|);
    assert s[..|x|] == x && s[|x| + 1..] == rest;
  }

  lemma SplitSingle(x: string)
    requires OneLine(x) && x != ""
    ensures SplitLines(x) == [x]
  {
    assert forall i :: 0 <= i < |x| ==> x[i] in x;
    BreakIs(x, |x|);
    assert x[..|x|] == x;
  }

  /** Splitting what was joined, provided the end of the last line can be told. */
  lemma {:induction false} SplitJoined(lines: seq<string>, newlineAtEnd: bool)
    requires AllOneLine(lines) && lines != [] && (newlineAtEnd || lines[|lines|-1] != "")
    ensures SplitLines(JoinLines(lines, newlineAtEnd)) == lines
    ensures EndsInBreak(JoinLines(lines, newlineAtEnd)) <==> newlineAtEnd
  {
    hide SplitLines, EndsInBreak;
    if |lines| == 1 {
      LastLine(lines[0], newlineAtEnd);
      assert lines == [lines[0]];
    } else {
      SplitJoined(lines[1..], newlineAtEnd);
      LineBefore(lines[0], JoinLines(lines[1..], newlineAtEnd), lines[1..]);
      assert lines == [lines[0]] + lines[1..];
    }
  }

  lemma LastLine(x: string, newlineAtEnd: bool)
    requires OneLine(x) && (newlineAtEnd || x != "")
    ensures SplitLines(JoinLines([x], newlineAtEnd)) == [x]
    ensures EndsInBreak(JoinLines([x], newlineAtEnd)) <==> newlineAtEnd
  {
    if newlineAtEnd {
      BreakAfter(x, "");
      assert x + "\n" + "" == x + "\n";
    } else {
      assert x + "" == x;
      SplitSingle(x);
      assert x[|x|-1] in x;
    }
  }

  lemma LineBefore(x: string, rest: string, lines: seq<string>)
    requires OneLine(x) && SplitLines(rest) == lines != []
    ensures SplitLines(x + "\n" + rest) == [x] + lines
    ensures EndsInBreak(x + "\n" + rest) <==> EndsInBreak(rest)
  {
    BreakAfter(x, rest);
    EndAfter(x, rest);
  }

  /** Joining what was split. */
  lemma {:induction false} JoinSplit(s: string)
    ensures s != "" ==> JoinLines(SplitLines(s), EndsInBreak(s)) == s
    ensures s != "" && !EndsInBreak(s) ==> SplitLines(s)[|SplitLines(s)|-1] != ""
    decreases |s|
  {
    if s != "" {
      var k := FirstBreak(s);
      if k == |s| {
        assert s[..k] == s;
        assert s[|s|-1] in s[..k];
        assert s + "" == s;
      } else {
        var x, rest := s[..k], s[k + 1..];
        assert s == x + "\n" + rest;
        JoinSplit(rest);
        BreakAfter(x, rest);
        JoinFirst(x, rest, SplitLines(rest));
      }
    }
  }

  lemma JoinFirst(x: string, rest: string, lines: seq<string>)
    requires rest == "" <==> lines == []
    requires rest != "" ==> JoinLines(lines, EndsInBreak(rest)) == rest
    requires rest != "" && !EndsInBreak(rest) ==> lines[|lines|-1] != ""
    ensures var s := x + "\n" + rest;
            JoinLines([x] + lines, EndsInBreak(s)) == s && (!EndsInBreak(s) ==> ([x] + lines)[|lines|] != "")
  {
    if rest == "" {
      assert x + "\n" + rest == x + "\n";
    } else {
      EndAfter(x, rest);
      hide EndsInBreak;
      JoinCons(x, lines, EndsInBreak(rest));
    }
  }

  lemma JoinCons(x: string, lines: seq<string>, newlineAtEnd: bool)
    requires lines != []
    ensures JoinLines([x] + lines, newlineAtEnd) == x + "\n" + JoinLines(lines, newlineAtEnd)
  {
    assert ([x] + lines)[1..] == lines;
  }

  lemma EndAfter(x: string, rest: string)
    ensures EndsInBreak(x + "\n" + rest) <==> rest == "" || EndsInBreak(rest)
    ensures x + "\n" + rest != ""
  {
    var s := x + "\n" + rest;
    assert s[|s|-1] == if rest == "" then '\n' else rest[|rest|-1];
  }

  lemma {:induction false} JoinTerminated(lines: seq<string>)
    requires lines != []
    ensures JoinLines(lines, true) == Terminated(lines)
  {
    if |lines| == 1 {
      assert lines[1..] == [];
      assert lines[0] + "\n" + "" == lines[0] + "\n";
    } else {
      JoinTerminated(lines[1..]);
    }
  }

  /** A text that ends with a newline is its lines, each terminated. */
  lemma TerminatedSplit(s: string)
    requires EndsInBreak(s)
    ensures SplitLines(s) != [] && Terminated(SplitLines(s)) == s
  {
    hide SplitLines, JoinLines, Terminated;
    JoinSplit(s);
    JoinTerminated(SplitLines(s));
  }

  lemma {:induction false} TerminatedAt(lines: seq<string>, i: nat)
    requires i < |lines|
    ensures Terminated(lines) == Terminated(lines[..i]) + (lines[i] + "\n") + Terminated(lines[i + 1..])
  {
    if i == 0 {
      assert lines[..0] == [];
      assert "" + (lines[0] + "\n") == lines[0] + "\n";
    } else {
      var x, rest := lines[0] + "\n", lines[1..];
      TerminatedAt(rest, i - 1);
      assert lines[..i][0] == lines[0] && lines[..i][1..] == rest[..i - 1] && rest[i..] == lines[i + 1..] && rest[i - 1] == lines[i];
      TerminatedCons(lines);
      TerminatedCons(lines[..i]);
      hide Terminated;
      Assoc(x, Terminated(rest[..i - 1]), lines[i] + "\n");
      Assoc(x, Terminated(rest[..i - 1]) + (lines[i] + "\n"), Terminated(lines[i + 1..]));
    }
  }

  lemma TerminatedCons(lines: seq<string>)
    requires lines != []
    ensures Terminated(lines) == (lines[0] + "\n") + Terminated(lines[1..])
  {
  }

  /** A text cut just after a newline is split into the lines of the two parts. */
  lemma {:induction false} SplitAppend(a: string, b: string)
    requires EndsInBreak(a)
    ensures SplitLines(a + b) == SplitLines(a) + SplitLines(b)
    decreases |a|
  {
    var x, rest := FirstLine(a);
    hide *;
    NoLines();
    assert a + b == x + "\n" + (rest + b);
    BreakAfter(x, rest);
    BreakAfter(x, rest + b);
    if rest != "" { SplitAppend(rest, b); } else { assert rest + b == b; }
    Assoc([x], SplitLines(rest), SplitLines(b));
    assert rest == "" ==> [] + SplitLines(b) == SplitLines(b);
  }

  lemma NoLines()
    ensures SplitLines("") == []
  {
  }

  lemma FirstLine(a: string) returns (x: string, rest: string)
    requires EndsInBreak(a)
    ensures OneLine(x) && a == x + "\n" + rest && |rest| < |a| && (rest != "" ==> EndsInBreak(rest))
  {
    var k := FirstBreak(a);
    assert a[|a|-1] !in a[..k];
    assert forall i :: 0 <= i < k ==> a[i] in a[..k];
    x, rest := a[..k], a[k + 1..];
  }
}
