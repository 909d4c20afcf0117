/** The laws of the patcher on whole texts, and the texts of the script itself. */
module FlashPatchTwice {
  import opened Wrappers
  import opened Sequences
  import opened Text
  import opened FlashPatch
  import opened FlashPatchLaws

  // ---------- the lines written ----------

  lemma {:induction false} OutOneLine(c: Script, last: Option<string>, lines: seq<string>)
    requires Suitable(c) && AllOneLine(lines) && (last.Some? ==> OneLine(last.value))
    ensures AllOneLine(Normalize(c, last, lines).out)
    decreases |lines|
  {
    hide *;
    HasBlock(c);
    NormalizeOut(c, last, lines);
    if lines == [] {
      NoneOneLine();
    } else {
      var s := Read(c, last, lines);
      PieceOneLine(c, last, lines);
      LastIs(s.piece);
      RestOneLine(lines, s.used);
      LastOneLine(s.piece);
      OutOneLine(c, LastOf(s.piece), lines[s.used..]);
      BothOneLine(s.piece, Normalize(c, LastOf(s.piece), lines[s.used..]).out);
    }
  }

  lemma NoneOneLine()
    ensures AllOneLine([])
  {
  }

  lemma RestOneLine(lines: seq<string>, n: nat)
    requires AllOneLine(lines) && n <= |lines|
    ensures AllOneLine(lines[n..])
  {
    hide OneLine;
  }

  lemma LastOneLine(lines: seq<string>)
    requires AllOneLine(lines) && lines != []
    ensures OneLine(lines[|lines|-1])
  {
    hide OneLine;
  }

  lemma BothOneLine(x: seq<string>, y: seq<string>)
    requires AllOneLine(x) && AllOneLine(y)
    ensures AllOneLine(x + y)
  {
    hide OneLine;
  }

  lemma PieceOneLine(c: Script, last: Option<string>, lines: seq<string>)
    requires Suitable(c) && lines != [] && AllOneLine(lines) && (last.Some? ==> OneLine(last.value))
    ensures AllOneLine(Read(c, last, lines).piece)
  {
    assert c.block != [] && OneLine(lines[0]);
    hide *;
    IndentOneLine(lines[0], last);
    IndentedOneLine(c, InferIndent(lines[0], last));
    SingleOneLine(lines[0]);
    PieceIs(c, last, lines);
  }

  lemma SingleOneLine(line: string)
    requires OneLine(line)
    ensures AllOneLine([line])
  {
  }

  lemma IndentOneLine(line: string, last: Option<string>)
    requires OneLine(line) && (last.Some? ==> OneLine(last.value))
    ensures OneLine(InferIndent(line, last))
  {
  }

  lemma IndentedOneLine(c: Script, indent: string)
    requires Suitable(c) && OneLine(indent)
    ensures AllOneLine(Indented(c.block, indent))
  {
    forall i | 0 <= i < |c.block| ensures OneLine(Indented(c.block, indent)[i]) { assert OneLine(c.block[i]); }
  }

  /** Unless the last line is empty, so is the last line written. */
  lemma {:induction false} OutEnd(c: Script, last: Option<string>, lines: seq<string>)
    requires Suitable(c) && lines != []
    ensures var out := Normalize(c, last, lines).out;
            out != [] && (lines[|lines|-1] != "" ==> out[|out|-1] != "")
    decreases |lines|
  {
    hide *;
    HasBlock(c);
    var s := Read(c, last, lines);
    var more := lines[s.used..];
    var rest := Normalize(c, LastOf(s.piece), more).out;
    PieceEnd(c, last, lines);
    OutIs(c, last, lines);
    LastOfTail(lines, s.used);
    if more != [] { OutEnd(c, LastOf(s.piece), more); }
    JoinEnd(s.piece, rest);
  }

  lemma LastOfTail(lines: seq<string>, used: nat)
    requires 0 < used <= |lines|
    ensures var more := lines[used..]; if more == [] then used == |lines| else more[|more|-1] == lines[|lines|-1]
  {
  }

  lemma JoinEnd(x: seq<string>, y: seq<string>)
    ensures if y == [] then x + y == x else x + y != [] && (x + y)[|x + y|-1] == y[|y|-1]
  {
  }

  lemma OutIs(c: Script, last: Option<string>, lines: seq<string>)
    requires c.block != [] && lines != []
    ensures var s := Read(c, last, lines);
            && Normalize(c, last, lines).out == s.piece + Normalize(c, LastOf(s.piece), lines[s.used..]).out
            && (lines[s.used..] == [] ==> Normalize(c, LastOf(s.piece), lines[s.used..]).out == [])
  {
    hide Read;
  }

  lemma PieceEnd(c: Script, last: Option<string>, lines: seq<string>)
    requires Suitable(c) && lines != []
    ensures var s := Read(c, last, lines);
            s.piece[|s.piece|-1] != "" || (s.used == 1 && s.piece == [lines[0]])
  {
    hide *;
    var indented := AtTry(c, lines) || Contains(lines[0], c.importLine);
    IndentedEnd(c, InferIndent(lines[0], last));
    PieceIs(c, last, lines);
    if !indented { assert Read(c, last, lines).piece == [lines[0]]; }
  }

  lemma IndentedEnd(c: Script, indent: string)
    requires Suitable(c)
    ensures c.block != [] && var e := Indented(c.block, indent); e[|e|-1] != ""
  {
    hide *;
    BlockEnd(c);
    LastIndented(c, indent);
  }

  lemma BlockEnd(c: Script)
    requires Suitable(c)
    ensures c.block != [] && c.block[|c.block|-1] != ""
  {
    hide TailFits, TailClosed, Marks, Contains, EndsWith, OneLine, AllOneLine, Terminated;
  }

  lemma LastIndented(c: Script, indent: string)
    requires c.block != [] && c.block[|c.block|-1] != ""
    ensures var e := Indented(c.block, indent); e[|e|-1] != ""
  {
  }

  /** The lines of the normalized text. */
  lemma NormalizedLines(c: Script, text: string)
    requires Suitable(c) && text != ""
    ensures var (normal, _) := NormalizeText(c, text);
            && normal != "" && SplitLines(normal) == Normalize(c, None, SplitLines(text)).out
            && (EndsInBreak(normal) <==> EndsInBreak(text))
  {
    hide *;
    HasBlock(c);
    var lines := SplitLines(text);
    OutOneLine(c, None, lines);
    OutEnd(c, None, lines);
    JoinSplit(text);
    NormalizeIs(c, text);
    SplitJoined(Normalize(c, None, lines).out, EndsInBreak(text));
    NoLines();
  }

  /** Normal lines: the text is left as it is. */
  lemma NormalText(c: Script, text: string)
    requires Suitable(c) && text != "" && Normal(c, None, SplitLines(text))
    ensures NormalizeText(c, text) == (text, false)
  {
    ChangedIff(c, None, SplitLines(text));
    JoinSplit(text);
    hide *;
    assert NormalizeText(c, text) == (JoinLines(Normalize(c, None, SplitLines(text)).out, EndsInBreak(text)), Normalize(c, None, SplitLines(text)).changed) by {
      NormalizeIs(c, text);
    }
  }

  lemma NormalizeIs(c: Script, text: string)
    requires c.block != []
    ensures NormalizeText(c, text) == (JoinLines(Normalize(c, None, SplitLines(text)).out, EndsInBreak(text)), Normalize(c, None, SplitLines(text)).changed)
  {
  }

  /** Normalizing a normalized text changes nothing. */
  lemma NormalizeTwice(c: Script, text: string)
    requires Suitable(c) && text != ""
    ensures var (normal, _) := NormalizeText(c, text);
            normal != "" && Normal(c, None, SplitLines(normal)) && NormalizeText(c, normal) == (normal, false)
  {
    NormalizedLines(c, text);
    OutIsNormal(c, None, SplitLines(text));
    NormalText(c, NormalizeText(c, text).0);
  }

  /** The flag says whether the text was changed. */
  lemma NormalizeFlag(c: Script, text: string)
    requires Suitable(c) && text != ""
    ensures NormalizeText(c, text).1 <==> NormalizeText(c, text).0 != text
  {
    NormalizedLines(c, text);
    ChangedIff(c, None, SplitLines(text));
    if !NormalizeText(c, text).1 { NormalText(c, text); }
  }

  // ---------- the guard ----------

  lemma {:induction false} TerminatedLines(lines: seq<string>)
    requires AllOneLine(lines)
    ensures SplitLines(Terminated(lines)) == lines
    ensures lines != [] ==> Terminated(lines) != "" && EndsInBreak(Terminated(lines))
  {
    if lines != [] {
      var rest := Terminated(lines[1..]);
      TerminatedLines(lines[1..]);
      BreakAfter(lines[0], rest);
      assert lines == [lines[0]] + lines[1..];
      hide SplitLines;
      EndAfter(lines[0], rest);
    }
  }

  lemma {:induction false} LastLineEnds(front: string, branch: string)
    requires OneLine(branch) && branch != ""
    ensures var lines := SplitLines(front + branch + "\n");
            lines != [] && EndsWith(lines[|lines|-1], branch)
    decreases |front|
  {
    var k := FirstBreak(front);
    if k < |front| {
      var x, rest := front[..k], front[k + 1..];
      assert front + branch + "\n" == x + "\n" + (rest + branch + "\n");
      hide SplitLines, EndsWith;
      LastLineEnds(rest, branch);
      BreakAfter(x, rest + branch + "\n");
      var more := SplitLines(rest + branch + "\n");
      assert ([x] + more)[|[x] + more|-1] == more[|more|-1];
    } else {
      assert front[..k] == front;
      assert front + branch + "\n" == (front + branch) + "\n" + "";
      BreakAfter(front + branch, "");
      assert (front + branch)[|front|..] == branch;
    }
  }

  /** Inserting the guard behind a branch line of a text with normal lines leaves them normal. */
  lemma GuardKeepsNormal(c: Script, text: string)
    requires Suitable(c) && Normal(c, None, SplitLines(text)) && Contains(text, c.branch + "\n")
    ensures var r := InsertAfter(text, c.branch + "\n", Terminated(c.guard));
            r != "" && Normal(c, None, SplitLines(r)) && Contains(r, c.marker) && Contains(r, c.required) && |r| > |text|
  {
    var p, g := c.branch + "\n", Terminated(c.guard);
    hide *;
    GuardFacts(c);
    var front, b := Insertion(text, p, g);
    ContainsBehind(front + p, g, b, c.marker);
    ContainsBehind(front + p, g, b, c.required);
    assert front + p == front + c.branch + "\n";
    InsertedLines(c, front, b);
  }

  lemma Insertion(s: string, p: string, extra: string) returns (front: string, b: string)
    requires Contains(s, p)
    ensures s == front + p + b && InsertAfter(s, p, extra) == front + p + extra + b
    ensures forall j :: 0 <= j < |front| ==> !OccursAt(s, p, j)
  {
    var k := FindFrom(s, p, 0);
    front, b := s[..k], s[k + |p|..];
  }

  lemma GuardFacts(c: Script)
    requires Suitable(c)
    ensures Contains(Terminated(c.guard), c.marker) && Contains(Terminated(c.guard), c.required) && c.block != []
    ensures OneLine(c.branch) && c.branch != "" && AllOneLine(c.guard) && c.guard != [] && Terminated(c.guard) != ""
  {
    hide Contains, OneLine;
  }

  lemma InsertedLines(c: Script, front: string, b: string)
    requires Suitable(c) && Normal(c, None, SplitLines(front + c.branch + "\n" + b))
    ensures Normal(c, None, SplitLines(front + c.branch + "\n" + Terminated(c.guard) + b))
  {
    hide *;
    GuardFacts(c);
    var a := front + c.branch + "\n";
    BreakAtEnd(front + c.branch);
    LastLineEnds(front, c.branch);
    SplitAround(a, c.guard, b);
    InsertNormal(c, None, SplitLines(a), SplitLines(b));
  }

  lemma BreakAtEnd(x: string)
    ensures EndsInBreak(x + "\n")
  {
  }

  lemma SplitAround(a: string, guard: seq<string>, b: string)
    requires EndsInBreak(a) && AllOneLine(guard) && guard != []
    ensures SplitLines(a + b) == SplitLines(a) + SplitLines(b)
    ensures SplitLines(a + Terminated(guard) + b) == SplitLines(a) + (guard + SplitLines(b))
  {
    hide *;
    var g := Terminated(guard);
    TerminatedLines(guard);
    SplitAppend(a, b);
    assert a + (g + b) == a + g + b;
    SplitAppend(a, g + b);
    SplitAppend(g, b);
  }

  // ---------- the laws ----------

  /** A text on which the patcher succeeds is not patched again: the second time nothing changes and
      nothing is reported. */
  lemma PatchIsIdempotent(c: Script, text: string)
    requires Suitable(c) && PatchText(c, text).Patched?
    ensures PatchText(c, PatchText(c, text).text) == Patched(PatchText(c, text).text, false)
  {
    NotEmpty(c, text);
    hide *;
    HasBlock(c);
    var normal := NormalizeText(c, text).0;
    NormalizeTwice(c, text);
    PatchCases(c, text);
    if Contains(normal, c.required) {
      PatchCases(c, normal);
    } else {
      GuardKeepsNormal(c, normal);
      NormalText(c, InsertAfter(normal, c.branch + "\n", Terminated(c.guard)));
      PatchCases(c, InsertAfter(normal, c.branch + "\n", Terminated(c.guard)));
    }
  }

  lemma PatchCases(c: Script, text: string)
    requires c.block != []
    ensures var (normal, repaired) := NormalizeText(c, text);
            PatchText(c, text)
            == if !Contains(normal, c.marker) then NoImport
               else if Contains(normal, c.required) then Patched(normal, repaired)
               else if !Contains(normal, c.branch + "\n") then NoBranch
               else Patched(InsertAfter(normal, c.branch + "\n", Terminated(c.guard)), true)
  {
  }

  lemma NotEmpty(c: Script, text: string)
    requires Suitable(c) && PatchText(c, text).Patched?
    ensures text != ""
  {
  }

  /** The patcher reports a change exactly if it changed the text. */
  lemma PatchFlag(c: Script, text: string)
    requires Suitable(c) && PatchText(c, text).Patched?
    ensures PatchText(c, text).changed <==> PatchText(c, text).text != text
  {
    NotEmpty(c, text);
    hide *;
    HasBlock(c);
    var normal := NormalizeText(c, text).0;
    NormalizeTwice(c, text);
    NormalizeFlag(c, text);
    PatchCases(c, text);
    if !Contains(normal, c.required) && Contains(normal, c.branch + "\n") {
      GuardKeepsNormal(c, normal);
      NormalText(c, InsertAfter(normal, c.branch + "\n", Terminated(c.guard)));
    }
  }

  // ---------- what a patched text contains ----------

  /** In a patched text the import stands in complete blocks only, and the guard is there. */
  lemma PatchedHolds(c: Script, text: string, i: nat)
    requires Suitable(c) && PatchText(c, text).Patched?
    ensures Contains(PatchText(c, text).text, c.marker) && Contains(PatchText(c, text).text, c.required)
    ensures var lines := SplitLines(PatchText(c, text).text);
            i < |lines| && Contains(lines[i], c.importLine) ==> InBlock(c, lines, i)
  {
    NotEmpty(c, text);
    hide *;
    HasBlock(c);
    var normal := NormalizeText(c, text).0;
    NormalizeTwice(c, text);
    PatchCases(c, text);
    if !Contains(normal, c.required) { GuardKeepsNormal(c, normal); }
    var lines := SplitLines(PatchText(c, text).text);
    if i < |lines| && Contains(lines[i], c.importLine) { ImportsInBlocks(c, None, lines, i); }
  }

  /** The lines of a patched text are those of the original but for old imports, each replaced by a
      complete block; and the guard stands behind a branch line, if it was not there before. */
  lemma PatchedKeeps(c: Script, text: string)
    requires Suitable(c) && PatchText(c, text).Patched?
    ensures exists front, added, behind :: PatchedLines(c, SplitLines(text), SplitLines(PatchText(c, text).text), front, added, behind)
  {
    NotEmpty(c, text);
    hide *;
    HasBlock(c);
    var normal := NormalizeText(c, text).0;
    NormalizedLines(c, text);
    OnlyImportsRewritten(c, None, SplitLines(text));
    PatchCases(c, text);
    if Contains(normal, c.required) {
      NothingAdded(c, SplitLines(text), SplitLines(normal));
    } else {
      var front, behind := InsertedGuard(c, normal);
      GuardAdded(c, SplitLines(text), front, behind);
    }
  }

  ghost predicate PatchedLines(c: Script, lines: seq<string>, out: seq<string>, front: seq<string>, added: seq<string>, behind: seq<string>) {
    && Rewritten(c, None, lines, front + behind) && out == front + added + behind
    && (added == [] || (added == c.guard && FirstEnd(front, c.branch)))
  }

  /** The last of these lines ends like the branch line, and no other does. */
  predicate FirstEnd(lines: seq<string>, branch: string) {
    lines != [] && forall i :: 0 <= i < |lines| ==> (EndsWith(lines[i], branch) <==> i == |lines| - 1)
  }

  lemma NothingAdded(c: Script, lines: seq<string>, out: seq<string>)
    requires Rewritten(c, None, lines, out)
    ensures PatchedLines(c, lines, out, out, [], [])
  {
    hide Rewritten;
    assert out + [] == out && out + [] + [] == out;
  }

  lemma GuardAdded(c: Script, lines: seq<string>, front: seq<string>, behind: seq<string>)
    requires Rewritten(c, None, lines, front + behind) && FirstEnd(front, c.branch)
    ensures PatchedLines(c, lines, front + c.guard + behind, front, c.guard, behind)
  {
    hide Rewritten, FirstEnd;
  }

  lemma InsertedGuard(c: Script, text: string) returns (front: seq<string>, behind: seq<string>)
    requires Suitable(c) && Contains(text, c.branch + "\n")
    ensures SplitLines(text) == front + behind && FirstEnd(front, c.branch)
    ensures SplitLines(InsertAfter(text, c.branch + "\n", Terminated(c.guard))) == front + c.guard + behind
  {
    hide *;
    GuardFacts(c);
    var x, b := Insertion(text, c.branch + "\n", Terminated(c.guard));
    var a := x + (c.branch + "\n");
    BranchLines(c, x, a);
    SplitAround(a, c.guard, b);
    front, behind := SplitLines(a), SplitLines(b);
    Assoc(front, c.guard, behind);
    BranchFirst(x, c.branch, b, front);
  }

  /** The lines up to the first occurrence of the branch line and its newline. */
  lemma BranchFirst(x: string, branch: string, b: string, lines: seq<string>)
    requires var a := x + (branch + "\n"); EndsInBreak(a) && lines == SplitLines(a) && lines != [] && EndsWith(lines[|lines|-1], branch)
    requires forall j :: 0 <= j < |x| ==> !OccursAt(x + (branch + "\n") + b, branch + "\n", j)
    ensures FirstEnd(lines, branch)
  {
    var a := x + (branch + "\n");
    hide SplitLines, OccursAt, EndsInBreak, Terminated;
    TerminatedSplit(a);
    forall i | 0 <= i < |lines| - 1 ensures !EndsWith(lines[i], branch) {
      if EndsWith(lines[i], branch) {
        var j := EarlierEnd(a, branch, lines, i);
        OccursInFront(a, b, branch + "\n", j);
        assert false;
      }
    }
  }

  /** A line before the last one that ends like it puts an earlier occurrence into the text. */
  lemma EarlierEnd(a: string, branch: string, lines: seq<string>, i: nat) returns (j: nat)
    requires i < |lines| - 1 && Terminated(lines) == a && EndsWith(lines[i], branch) && EndsWith(lines[|lines|-1], branch)
    ensures j + |branch| + 1 < |a| && OccursAt(a, branch + "\n", j) && j < |a| - |branch + "\n"|
  {
    var line, front, rest := lines[i], Terminated(lines[..i]), lines[i + 1..];
    TerminatedAt(lines, i);
    TerminatedAt(rest, |rest| - 1);
    j := |front| + (|line| - |branch|);
    assert rest[|rest|-1] == lines[|lines|-1];
    hide Terminated;
    EndOccurs(front, line, branch, Terminated(rest));
  }

  lemma EndOccurs(front: string, line: string, branch: string, rest: string)
    requires EndsWith(line, branch)
    ensures OccursAt(front + (line + "\n") + rest, branch + "\n", |front| + (|line| - |branch|))
  {
    var all, k := front + (line + "\n") + rest, |front| + (|line| - |branch|);
    assert all[k..k + |branch| + 1] == line[|line| - |branch|..] + "\n";
  }

  lemma OccursInFront(a: string, b: string, p: string, j: nat)
    requires OccursAt(a, p, j)
    ensures OccursAt(a + b, p, j)
  {
    assert (a + b)[j..j + |p|] == a[j..j + |p|];
  }

  /** A text up to a branch line. */
  lemma BranchLines(c: Script, x: string, a: string)
    requires Suitable(c) && a == x + (c.branch + "\n")
    ensures EndsInBreak(a) && SplitLines(a) != [] && EndsWith(SplitLines(a)[|SplitLines(a)|-1], c.branch)
  {
    hide *;
    GuardFacts(c);
    assert a == x + c.branch + "\n";
    BreakAtEnd(x + c.branch);
    LastLineEnds(x, c.branch);
  }

  // ---------- when patching succeeds ----------

  lemma {:induction false} JoinHas(lines: seq<string>, newlineAtEnd: bool, k: nat, p: string)
    requires k < |lines| && Contains(lines[k], p)
    ensures Contains(JoinLines(lines, newlineAtEnd), p)
  {
    hide Contains;
    var end := if newlineAtEnd then "\n" else "";
    var more := lines[1..];
    var rest := if |lines| == 1 then end else "\n" + JoinLines(more, newlineAtEnd);
    assert JoinLines(lines, newlineAtEnd) == lines[0] + rest;
    if k == 0 {
      ContainsBehind("", lines[0], rest, p);
      assert "" + lines[0] + rest == lines[0] + rest;
    } else {
      JoinHas(more, newlineAtEnd, k - 1, p);
      ContainsBehind(lines[0] + "\n", JoinLines(more, newlineAtEnd), "", p);
      assert lines[0] + "\n" + JoinLines(more, newlineAtEnd) + "" == lines[0] + rest;
    }
  }

  /** The normalized text holds the marker exactly if the text holds it or the import. */
  lemma MarkerExact(c: Script, text: string)
    requires Suitable(c)
    ensures c.block != []
    ensures HasImport(c, SplitLines(text)) ==> Contains(NormalizeText(c, text).0, c.marker)
    ensures !HasImport(c, SplitLines(text)) ==> NormalizeText(c, text) == (text, false)
  {
    hide *;
    HasBlock(c);
    NormalizeIs(c, text);
    if HasImport(c, SplitLines(text)) {
      ImportMarks(c, None, SplitLines(text));
      var out := Normalize(c, None, SplitLines(text)).out;
      var k := MarkerAt(c, out);
      JoinHas(out, EndsInBreak(text), k, c.marker);
    } else if text == "" {
      EmptyText(c);
    } else {
      NoImportNormal(c, SplitLines(text));
      NormalText(c, text);
    }
  }

  lemma MarkerAt(c: Script, lines: seq<string>) returns (k: nat)
    requires HasMarker(c, lines)
    ensures k < |lines| && Contains(lines[k], c.marker)
  {
    hide Contains;
    k :| 0 <= k < |lines| && Contains(lines[k], c.marker);
  }

  lemma EmptyText(c: Script)
    requires c.block != []
    ensures NormalizeText(c, "") == ("", false)
  {
  }

  /** Patching fails for want of the import exactly if the text holds neither the import nor its marker;
      it then fails for want of a branch exactly if the guard is missing and no line ends like the
      branch line; and succeeds otherwise. */
  lemma PatchExact(c: Script, text: string)
    requires Suitable(c)
    ensures c.block != []
    ensures var found := HasImport(c, SplitLines(text)) || Contains(text, c.marker);
            var normal := NormalizeText(c, text).0;
            var guarded, branches := Contains(normal, c.required), Contains(normal, c.branch + "\n");
            && (PatchText(c, text).NoImport? <==> !found)
            && (PatchText(c, text).NoBranch? <==> found && !guarded && !branches)
            && (PatchText(c, text).Patched? <==> found && (guarded || branches))
  {
    hide *;
    HasBlock(c);
    MarkerExact(c, text);
    PatchCases(c, text);
  }

  // ---------- the method ----------

  /** Patching: what it returns when it succeeds is not patched again, and it is reported as changed
      exactly if it differs from the source. */
  method Patch(c: Script, source: string) returns (r: Outcome)
    requires Suitable(c)
    ensures c.block != [] && r == PatchText(c, source)
    ensures r.Patched? ==> PatchText(c, r.text) == Patched(r.text, false)
    ensures r.Patched? ==> (r.changed <==> r.text != source)
    ensures r.Patched? ==> Contains(r.text, c.marker) && Contains(r.text, c.required)
    ensures r.NoImport? <==> !HasImport(c, SplitLines(source)) && !Contains(source, c.marker)
  {
    PatchExact(c, source);
    if PatchText(c, source).Patched? {
      PatchIsIdempotent(c, source);
      PatchFlag(c, source);
      PatchedHolds(c, source, 0);
    }
    hide *;
    HasBlock(c);
    PatchCases(c, source);
    NormalizeIs(c, source);
    var text := source;
    var out, changed := NormalizeFlashImportBlock(c, SplitLines(text));
    text := JoinLines(out, EndsInBreak(text));
    if !Contains(text, c.marker) { return NoImport; }
    if !Contains(text, c.required) {
      if !Contains(text, c.branch + "\n") { return NoBranch; }
      text := InsertAfter(text, c.branch + "\n", Terminated(c.guard));
      changed := true;
    }
    return Patched(text, changed);
  }
}
