/** Patching twice is patching once. */
module FlashPatchLaws {
  import opened Wrappers
  import opened Sequences
  import opened Text
  import opened FlashPatch

  /** What the proof needs of the texts of the script. */
  predicate Suitable(c: Script) {
    && |c.block| >= 3 && c.block[0] == "try:" && Contains(c.block[1], c.importLine) && c.block[1] != "" && c.block[|c.block|-1] != ""
    && TailFits(c) && TailClosed(c) && Marks(c) && AllOneLine(c.block) && (forall i :: 0 <= i < |c.block| ==> !EndsWith(c.block[i], "g:") && |c.block[i]| != 1)
    && 'f' in c.importLine && ',' in c.importLine
    && OneLine(c.branch) && EndsWith(c.branch, "g:")
    && c.guard != [] && AllOneLine(c.guard) && (forall i :: 0 <= i < |c.guard| ==> ',' !in c.guard[i])
    && c.marker != "" && Contains(Terminated(c.guard), c.marker) && Contains(Terminated(c.guard), c.required)
  }

  /** From its third line on the block is a fallback, of which the last line switches the flag off. */
  predicate TailFits(c: Script) {
    forall i :: 2 <= i < |c.block| ==> Tail(c, c.block[i]) && (Strip(c.block[i]) == c.flagFalse <==> i == |c.block| - 1)
  }

  /** Some line of the fallback reads so. */
  predicate InFallback(c: Script, s: string) { exists i :: 2 <= i < |c.block| && Strip(c.block[i]) == s }

  /** All that is taken for a line of a fallback is in the block. */
  predicate TailClosed(c: Script) {
    && InFallback(c, c.flagTrue) && InFallback(c, c.exceptLine)
    && forall k :: 0 <= k < |c.fallbackNames| ==> InFallback(c, c.fallbackNames[k] + " = None")
  }

  /** The block holds what is looked for to see that it is there. */
  predicate Marks(c: Script) { exists k :: 0 <= k < |c.block| && Contains(c.block[k], c.marker) }

  // ---------- normal lines ----------

  /** Nothing is repaired in these lines. */
  predicate Normal(c: Script, last: Option<string>, lines: seq<string>)
    requires c.block != []
    decreases |lines|
  {
    lines == [] ||
    var s := Read(c, last, lines);
    !s.changed && Normal(c, LastOf(s.piece), lines[s.used..])
  }

  lemma UnchangedPiece(c: Script, last: Option<string>, lines: seq<string>)
    requires c.block != [] && lines != [] && !Read(c, last, lines).changed
    ensures var s := Read(c, last, lines); s.used == |s.piece| && s.piece == lines[..s.used]
  {
    hide Indented, InferIndent, Strip, Contains;
  }

  lemma ChangedPiece(c: Script, last: Option<string>, lines: seq<string>)
    requires Suitable(c) && lines != [] && Read(c, last, lines).changed
    ensures !(Read(c, last, lines).piece <= lines)
  {
    hide Indented, InferIndent, Strip, Contains, Suitable;
    var indent := InferIndent(lines[0], last);
    TryLine(c, indent);
    PrefixHead(Indented(c.block, indent), lines);
  }

  lemma PrefixHead(a: seq<string>, b: seq<string>)
    ensures a != [] && a <= b ==> b != [] && a[0] == b[0]
  {
  }

  /** The first two lines of a block. */
  lemma TryLine(c: Script, indent: string)
    requires Suitable(c) && Blank(indent)
    ensures |c.block| >= 2 && Indented(c.block, indent)[0] == indent + "try:" && !Contains(indent + "try:", c.importLine)
    ensures Strip(indent + "try:") == "try:" && LeadingWs(indent + "try:") == indent
    ensures Contains(Indented(c.block, indent)[1], c.importLine)
  {
    StripWord(indent, "try:");
    LeadingWsOf(indent, "try:");
    NoImportInTry(c, indent);
    ContainsBehind(indent, c.block[1], "", c.importLine);
    assert indent + c.block[1] + "" == indent + c.block[1];
    hide Contains, Strip, LeadingWs, AllOneLine;
  }

  lemma NoImportInTry(c: Script, indent: string)
    requires Suitable(c) && Blank(indent)
    ensures !Contains(indent + "try:", c.importLine)
  {
    hide Contains;
    assert 'f' !in indent && 'f' !in "try:";
    if Contains(indent + "try:", c.importLine) { CharOfPart(indent + "try:", c.importLine, 'f'); }
  }

  /** Lines are normal exactly if normalizing reports no change, exactly if it changes nothing. */
  lemma {:induction false} ChangedIff(c: Script, last: Option<string>, lines: seq<string>)
    requires Suitable(c)
    ensures Normal(c, last, lines) <==> !Normalize(c, last, lines).changed
    ensures Normal(c, last, lines) <==> Normalize(c, last, lines).out == lines
    decreases |lines|
  {
    if lines != [] {
      hide Suitable, Read;
      var s := Read(c, last, lines);
      ChangedIff(c, LastOf(s.piece), lines[s.used..]);
      if s.changed { ChangedPiece(c, last, lines); } else { UnchangedPiece(c, last, lines); }
      SameAfter(s.piece, Normalize(c, LastOf(s.piece), lines[s.used..]).out, lines, s.used);
    }
  }

  lemma SameAfter(piece: seq<string>, rest: seq<string>, lines: seq<string>, used: nat)
    requires used <= |lines|
    ensures !(piece <= lines) ==> piece + rest != lines
    ensures used == |piece| && piece == lines[..used] ==> (piece + rest == lines <==> rest == lines[used..])
  {
    assert piece <= piece + rest && (piece + rest)[|piece|..] == rest;
    assert lines == lines[..used] + lines[used..];
  }

  // ---------- normalizing makes lines normal ----------

  predicate CleanStart(c: Script, lines: seq<string>) { lines != [] ==> !Contains(lines[0], c.importLine) }

  lemma InferAgain(c: Script, line: string, last: Option<string>)
    requires Suitable(c)
    ensures var indent := InferIndent(line, last); InferIndent(indent + "try:", last) == indent
  {
    TryLine(c, InferIndent(line, last));
    hide LeadingWs, RStrip, EndsWith;
  }

  /** A block written is read back as it is, if its indentation is what would be inferred. */
  lemma BlockBack(c: Script, last: Option<string>, indent: string, rest: seq<string>)
    requires Suitable(c) && Blank(indent) && InferIndent(indent + "try:", last) == indent
    ensures var e := Indented(c.block, indent);
            c.block != [] && Read(c, last, e + rest) == Step(e, |e|, false) && CleanStart(c, e + rest)
  {
    TryLine(c, indent);
    hide Strip, Contains, InferIndent, Suitable, Indented;
    var e := Indented(c.block, indent);
    assert (e + rest)[0] == e[0] && (e + rest)[1] == e[1] && e <= e + rest;
  }

  /** So is a line without the import, unless the import follows it. */
  lemma CopyBack(c: Script, last: Option<string>, line: string, rest: seq<string>)
    requires c.block != [] && !Contains(line, c.importLine) && (Strip(line) != "try:" || CleanStart(c, rest))
    ensures Read(c, last, [line] + rest) == Step([line], 1, false) && CleanStart(c, [line] + rest)
  {
    hide Strip, Contains, InferIndent, Indented;
    assert ([line] + rest)[0] == line && (rest != [] ==> ([line] + rest)[1] == rest[0]);
  }

  lemma ReadBack(c: Script, last: Option<string>, lines: seq<string>, rest: seq<string>)
    requires Suitable(c) && lines != [] && CleanStart(c, rest)
    ensures var s := Read(c, last, lines);
            && Read(c, last, s.piece + rest) == Step(s.piece, |s.piece|, false) && CleanStart(c, s.piece + rest)
  {
    var indent := InferIndent(lines[0], last);
    PieceIs(c, last, lines);
    InferAgain(c, lines[0], last);
    hide *;
    if AtTry(c, lines) || Contains(lines[0], c.importLine) {
      BlockBack(c, last, indent, rest);
    } else {
      CopyBack(c, last, lines[0], rest);
    }
  }

  lemma PieceIs(c: Script, last: Option<string>, lines: seq<string>)
    requires c.block != [] && lines != []
    ensures Read(c, last, lines).piece
         == if AtTry(c, lines) || Contains(lines[0], c.importLine) then Indented(c.block, InferIndent(lines[0], last)) else [lines[0]]
    ensures !AtTry(c, lines) && !Contains(lines[0], c.importLine) ==> Read(c, last, lines).used == 1
  {
    hide AtTry, Contains, Indented, InferIndent;
  }

  lemma {:induction false} OutIsNormal(c: Script, last: Option<string>, lines: seq<string>)
    requires Suitable(c)
    ensures Normal(c, last, Normalize(c, last, lines).out) && CleanStart(c, Normalize(c, last, lines).out)
    decreases |lines|
  {
    if lines != [] {
      hide Suitable, Read, CleanStart;
      var s := Read(c, last, lines);
      var rest := Normalize(c, LastOf(s.piece), lines[s.used..]).out;
      OutIsNormal(c, LastOf(s.piece), lines[s.used..]);
      ReadBack(c, last, lines, rest);
      assert (s.piece + rest)[|s.piece|..] == rest;
    } else {
      assert Normalize(c, last, lines).out == [];
    }
  }

  // ---------- guard lines do not disturb ----------

  /** No line of a block ends like the branch line. */
  lemma BlockHasNoBranch(c: Script, indent: string, k: nat, branch: string)
    requires Suitable(c) && Blank(indent) && k < |c.block| && EndsWith(branch, "g:")
    ensures !EndsWith(Indented(c.block, indent)[k], branch)
  {
    var b, line := c.block[k], Indented(c.block, indent)[k];
    assert !EndsWith(b, "g:") && |b| != 1;
    EndsTwice(line, branch, "g:");
    if b != "" { SameEnd(indent, b, "g:"); }
  }

  lemma SameEnd(x: string, s: string, p: string)
    requires |p| <= |s|
    ensures EndsWith(x + s, p) <==> EndsWith(s, p)
  {
    assert (x + s)[|x + s| - |p|..] == s[|s| - |p|..];
  }

  lemma EndsTwice(s: string, p: string, q: string)
    requires EndsWith(p, q)
    ensures EndsWith(s, p) ==> EndsWith(s, q)
  {
    if EndsWith(s, p) { assert s[|s| - |q|..] == s[|s| - |p|..][|p| - |q|..]; }
  }

  lemma BranchIsNoTry(line: string)
    requires EndsWith(line, "g:")
    ensures Strip(line) != "try:" && EndsWith(RStrip(line), ":")
  {
    LastTwo(line, 'g', ':');
    hide *;
    StripLastTwo(line);
    NothingStripped(line);
    LastTwoIs(line, ":");
  }

  lemma LastTwo(s: string, x: char, y: char)
    requires EndsWith(s, [x, y])
    ensures |s| >= 2 && s[|s|-2] == x && s[|s|-1] == y && !IsSpace(':')
  {
    assert s[|s|-2..][0] == s[|s|-2] && s[|s|-2..][1] == s[|s|-1];
  }

  lemma LastTwoIs(s: string, p: string)
    requires s != "" && p == [s[|s|-1]]
    ensures EndsWith(s, p)
  {
  }

  lemma NothingStripped(s: string)
    requires s != "" && !IsSpace(s[|s|-1])
    ensures RStrip(s) == s
  {
  }

  lemma StripLastTwo(s: string)
    requires |s| >= 2 && s[|s|-2] == 'g' && s[|s|-1] == ':' && !IsSpace(':')
    ensures Strip(s) != "try:"
  {
    StripKeepsEnd(s);
    hide LeadingWs, Strip;
    var w := |LeadingWs(s)|;
    assert |s[w..]| >= 2 ==> s[w..][|s[w..]|-2] == 'g' != "try:"[2];
  }

  /** Behind a line that opens a block, normal lines do not depend on that line. */
  lemma AnyLast(c: Script, last: string, other: Option<string>, lines: seq<string>)
    requires Suitable(c) && EndsWith(RStrip(last), ":") && Normal(c, Some(last), lines)
    ensures Normal(c, other, lines)
  {
    if lines != [] {
      var indent := InferIndent(lines[0], Some(last));
      OpenIndent(lines[0], last);
      SameRead(c, Some(last), other, lines, indent);
      hide Read;
    }
  }

  lemma OpenIndent(line: string, last: string)
    requires EndsWith(RStrip(last), ":")
    ensures LeadingWs(line) == "" ==> InferIndent(line, Some(last)) != ""
  {
  }

  lemma SameRead(c: Script, last: Option<string>, other: Option<string>, lines: seq<string>, indent: string)
    requires Suitable(c) && lines != [] && !Read(c, last, lines).changed && Blank(indent) && indent == InferIndent(lines[0], last)
    requires LeadingWs(lines[0]) == "" ==> indent != ""
    ensures Read(c, other, lines) == Read(c, last, lines)
  {
    TryIndent(c, last, other, lines, indent);
    hide Strip, Contains, Indented, Suitable, LeadingWs, InferIndent, AtTry, Blank;
  }

  lemma TryIndent(c: Script, last: Option<string>, other: Option<string>, lines: seq<string>, indent: string)
    requires Suitable(c) && lines != [] && !Read(c, last, lines).changed && Blank(indent) && indent == InferIndent(lines[0], last)
    requires LeadingWs(lines[0]) == "" ==> indent != ""
    ensures AtTry(c, lines) ==> InferIndent(lines[0], other) == indent && Indented(c.block, indent) <= lines
    ensures !AtTry(c, lines) ==> !Contains(lines[0], c.importLine)
  {
    hide Strip, Contains, Indented, Suitable, LeadingWs, InferIndent, AtTry, Blank;
    HasBlock(c);
    TryLine(c, indent);
    PrefixHead(Indented(c.block, indent), lines);
    SameIndent(lines[0], last, other);
  }

  lemma SameIndent(line: string, last: Option<string>, other: Option<string>)
    ensures LeadingWs(line) != "" ==> InferIndent(line, last) == InferIndent(line, other)
  {
  }

  lemma NormalCopy(c: Script, last: Option<string>, line: string, rest: seq<string>)
    requires c.block != [] && Read(c, last, [line] + rest) == Step([line], 1, false) && Normal(c, Some(line), rest)
    ensures Normal(c, last, [line] + rest)
  {
    hide Read;
    assert ([line] + rest)[1..] == rest;
  }

  predicate NoImports(c: Script, lines: seq<string>) { forall i :: 0 <= i < |lines| ==> !Contains(lines[i], c.importLine) }

  lemma {:induction false} GuardIsNormal(c: Script, last: Option<string>, guard: seq<string>, rest: seq<string>)
    requires c.block != [] && NoImports(c, guard) && CleanStart(c, rest)
    requires Normal(c, if guard == [] then last else Some(guard[|guard|-1]), rest)
    ensures Normal(c, last, guard + rest) && CleanStart(c, guard + rest)
    decreases |guard|
  {
    hide *;
    if guard == [] {
      assert guard + rest == rest;
    } else {
      var more := guard[1..];
      NoImportsTail(c, guard);
      assert more != [] ==> more[|more|-1] == guard[|guard|-1];
      GuardIsNormal(c, Some(guard[0]), more, rest);
      CopyNormal(c, last, guard[0], more + rest);
      assert guard + rest == [guard[0]] + (more + rest);
    }
  }

  lemma NoImportsTail(c: Script, lines: seq<string>)
    requires NoImports(c, lines) && lines != []
    ensures !Contains(lines[0], c.importLine) && NoImports(c, lines[1..])
  {
  }

  lemma CopyNormal(c: Script, last: Option<string>, line: string, rest: seq<string>)
    requires c.block != [] && !Contains(line, c.importLine) && CleanStart(c, rest) && Normal(c, Some(line), rest)
    ensures Normal(c, last, [line] + rest) && CleanStart(c, [line] + rest)
  {
    hide *;
    CopyBack(c, last, line, rest);
    NormalCopy(c, last, line, rest);
  }

  lemma NormalStart(c: Script, last: Option<string>, lines: seq<string>)
    requires Suitable(c) && Normal(c, last, lines)
    ensures CleanStart(c, lines)
  {
    hide Strip, Contains, Indented, Suitable, InferIndent;
    HasBlock(c);
    if lines != [] {
      var indent := InferIndent(lines[0], last);
      TryLine(c, indent);
      PrefixHead(Indented(c.block, indent), lines);
    }
  }

  /** Guard lines behind a line that ends like the branch line leave normal lines normal. */
  lemma {:induction false} InsertNormal(c: Script, last: Option<string>, before: seq<string>, behind: seq<string>)
    requires Suitable(c) && before != [] && EndsWith(before[|before|-1], c.branch) && Normal(c, last, before + behind)
    ensures Normal(c, last, before + (c.guard + behind))
    decreases |before|
  {
    hide *;
    HasBlock(c);
    assert before + behind != [];
    var s := NormalStep(c, last, before + behind);
    PieceInFront(c, last, before, behind);
    var more := before[s.used..];
    MoreBehind(before, behind, s.used);
    if more == [] {
      assert [] + behind == behind;
      LastOfOne(before[0]);
      InsertHere(c, last, before[0], behind);
    } else {
      InsertNormal(c, LastOf(s.piece), more, behind);
      assert (more + behind)[0] == more[0] == (more + (c.guard + behind))[0];
      PieceOnward(c, last, s.piece, more + behind, more + (c.guard + behind));
      Assoc(s.piece, more, c.guard + behind);
    }
  }

  lemma LastOfOne(line: string)
    ensures LastOf([line]) == Some(line)
  {
  }

  lemma NormalStep(c: Script, last: Option<string>, lines: seq<string>) returns (s: Step)
    requires c.block != [] && lines != [] && Normal(c, last, lines)
    ensures s == Read(c, last, lines) && !s.changed && s.used <= |lines| && Normal(c, LastOf(s.piece), lines[s.used..])
  {
    s := Read(c, last, lines);
  }

  lemma MoreBehind(before: seq<string>, behind: seq<string>, used: nat)
    requires 0 < used <= |before|
    ensures (before + behind)[used..] == before[used..] + behind && before == before[..used] + before[used..]
    ensures before + behind == before[..used] + (before[used..] + behind)
    ensures used < |before| ==> before[used..][|before[used..]|-1] == before[|before|-1]
    ensures |before| == 1 ==> before == [before[0]] && before[used..] == []
  {
    CutLines(before, used);
    Assoc(before[..used], before[used..], behind);
  }

  lemma PieceInFront(c: Script, last: Option<string>, before: seq<string>, behind: seq<string>)
    requires Suitable(c) && before != [] && EndsWith(before[|before|-1], c.branch)
    requires !Read(c, last, before + behind).changed
    ensures var s := Read(c, last, before + behind);
            && 0 < s.used <= |before| && s == Step(before[..s.used], s.used, false)
            && (s.used == |before| ==> |before| == 1 && !Contains(before[0], c.importLine))
  {
    hide *;
    HasBlock(c);
    var all := before + behind;
    var s := Read(c, last, all);
    UnchangedPiece(c, last, all);
    UnchangedCases(c, last, all);
    BlockLong(c, InferIndent(all[0], last), before, behind);
    SameFront(before, behind, s.used);
  }

  lemma SameFront(x: seq<string>, y: seq<string>, n: nat)
    requires x != []
    ensures (x + y)[0] == x[0] && (n <= |x| ==> (x + y)[..n] == x[..n])
  {
  }

  /** A block at the start of lines of which the k-th ends like the branch line is shorter than k. */
  lemma BlockLong(c: Script, indent: string, before: seq<string>, behind: seq<string>)
    requires Suitable(c) && Blank(indent) && before != [] && EndsWith(before[|before|-1], c.branch)
    ensures |c.block| <= |before + behind| && Indented(c.block, indent) == (before + behind)[..|c.block|] ==> |c.block| < |before|
  {
    if |c.block| >= |before| {
      BlockHasNoBranch(c, indent, |before| - 1, c.branch);
      hide Suitable, EndsWith, Indented;
      if |c.block| <= |before + behind| { PieceAt(before, behind, |c.block|); }
    }
  }

  lemma PieceAt(before: seq<string>, behind: seq<string>, used: nat)
    requires 0 < |before| <= used <= |before + behind|
    ensures (before + behind)[..used][|before| - 1] == before[|before|-1]
  {
  }

  lemma UnchangedCases(c: Script, last: Option<string>, lines: seq<string>)
    requires c.block != [] && lines != [] && !Read(c, last, lines).changed
    ensures var s := Read(c, last, lines);
            (s.used == |c.block| && s.piece == Indented(c.block, InferIndent(lines[0], last)))
            || (s.used == 1 && !Contains(lines[0], c.importLine))
  {
    hide Strip, Contains, Indented, InferIndent;
  }

  lemma GuardNoImports(c: Script)
    requires Suitable(c)
    ensures NoImports(c, c.guard)
  {
    hide Contains;
    forall i | 0 <= i < |c.guard| ensures !Contains(c.guard[i], c.importLine) {
      if Contains(c.guard[i], c.importLine) { CharOfPart(c.guard[i], c.importLine, ','); }
    }
  }

  lemma InsertHere(c: Script, last: Option<string>, line: string, behind: seq<string>)
    requires Suitable(c) && EndsWith(line, c.branch) && !Contains(line, c.importLine) && Normal(c, Some(line), behind)
    ensures Normal(c, last, [line] + (c.guard + behind))
  {
    hide *;
    HasBlock(c);
    BranchEnds(c, line);
    BranchIsNoTry(line);
    AnyLast(c, line, Some(c.guard[|c.guard|-1]), behind);
    NormalStart(c, Some(line), behind);
    GuardNoImports(c);
    GuardIsNormal(c, Some(line), c.guard, behind);
    CopyNormal(c, last, line, c.guard + behind);
  }

  lemma BranchEnds(c: Script, line: string)
    requires Suitable(c) && EndsWith(line, c.branch)
    ensures EndsWith(line, "g:")
  {
    EndsTwice(line, c.branch, "g:");
  }

  lemma PieceOnward(c: Script, last: Option<string>, piece: seq<string>, x: seq<string>, y: seq<string>)
    requires c.block != [] && piece != [] && x != [] && y != [] && x[0] == y[0]
    requires Read(c, last, piece + x) == Step(piece, |piece|, false) && Normal(c, LastOf(piece), y)
    ensures Normal(c, last, piece + y)
  {
    var p, q := piece + x, piece + y;
    assert p[0] == q[0] && p[1] == q[1] && q[|piece|..] == y;
    hide Strip, Contains, Indented, InferIndent, Normal;
    assert piece <= q;
    assert Read(c, last, q) == Step(piece, |piece|, false);
    NormalFrom(c, last, q);
  }

  lemma NormalFrom(c: Script, last: Option<string>, lines: seq<string>)
    requires c.block != [] && lines != []
    requires var s := Read(c, last, lines); !s.changed && Normal(c, LastOf(s.piece), lines[s.used..])
    ensures Normal(c, last, lines)
  {
  }

  // ---------- what normalizing achieves, said of the lines alone ----------

  /** A complete block at this indentation begins at line j. */
  predicate BlockAt(c: Script, lines: seq<string>, j: nat, indent: string) {
    j + |c.block| <= |lines| && Blank(indent) && lines[j..j + |c.block|] == Indented(c.block, indent)
  }

  /** Line i belongs to a complete block. */
  ghost predicate InBlock(c: Script, lines: seq<string>, i: nat) {
    exists j: nat, indent :: j <= i < j + |c.block| && BlockAt(c, lines, j, indent)
  }

  lemma InBlockHere(c: Script, lines: seq<string>, indent: string, i: nat)
    requires Blank(indent) && i < |c.block| <= |lines| && lines[..|c.block|] == Indented(c.block, indent)
    ensures InBlock(c, lines, i)
  {
    assert lines[0..0 + |c.block|] == lines[..|c.block|];
    assert BlockAt(c, lines, 0, indent);
  }

  lemma InBlockBehind(c: Script, lines: seq<string>, used: nat, i: nat)
    requires used <= i && used <= |lines| && InBlock(c, lines[used..], i - used)
    ensures InBlock(c, lines, i)
  {
    var j: nat, indent :| j <= i - used < j + |c.block| && BlockAt(c, lines[used..], j, indent);
    assert lines[used..][j..j + |c.block|] == lines[used + j..used + j + |c.block|];
    assert BlockAt(c, lines, used + j, indent);
  }

  /** In normal lines the import occurs inside complete blocks only. */
  lemma {:induction false} ImportsInBlocks(c: Script, last: Option<string>, lines: seq<string>, i: nat)
    requires Suitable(c) && Normal(c, last, lines) && i < |lines| && Contains(lines[i], c.importLine)
    ensures InBlock(c, lines, i)
    decreases |lines|
  {
    hide *;
    HasBlock(c);
    var s := NormalStep(c, last, lines);
    if i < s.used {
      FirstPieceInBlock(c, last, lines, i);
    } else {
      var rest := LinesFrom(lines, s.used, i);
      ImportsInBlocks(c, LastOf(s.piece), rest, i - s.used);
      InBlockBehind(c, lines, s.used, i);
    }
  }

  lemma HasBlock(c: Script)
    requires Suitable(c)
    ensures c.block != [] && c.guard != []
  {
  }

  lemma LinesFrom(lines: seq<string>, used: nat, i: nat) returns (rest: seq<string>)
    requires 0 < used <= i < |lines|
    ensures rest == lines[used..] && |rest| < |lines| && i - used < |rest| && rest[i - used] == lines[i]
  {
    rest := lines[used..];
  }

  lemma FirstPieceInBlock(c: Script, last: Option<string>, lines: seq<string>, i: nat)
    requires c.block != [] && lines != [] && i < Read(c, last, lines).used
    requires !Read(c, last, lines).changed && Contains(lines[i], c.importLine)
    ensures InBlock(c, lines, i)
  {
    hide *;
    UnchangedPiece(c, last, lines);
    UnchangedCases(c, last, lines);
    if i > 0 || Contains(lines[0], c.importLine) { InBlockHere(c, lines, InferIndent(lines[0], last), i); }
  }

  /** Lines of an old fallback from n on: the flag is switched off in the last of them at most. */
  predicate OldTail(c: Script, lines: seq<string>, n: nat) {
    forall i :: n <= i < |lines| ==> Tail(c, lines[i]) && (i < |lines| - 1 ==> Strip(lines[i]) != c.flagFalse)
  }

  /** The first n lines are an old import: the import line, perhaps a `try:` line before it, and behind
      it all of the old fallback, up to the line that switches the flag off or a line that is not part
      of it. */
  predicate OldImport(c: Script, lines: seq<string>, n: nat) {
    var head := if AtTry(c, lines) then 2 else 1;
    && head <= n <= |lines| && (AtTry(c, lines) || Contains(lines[0], c.importLine))
    && OldTail(c, lines[..n], head)
    && (n == |lines| || (n > head && Strip(lines[n - 1]) == c.flagFalse) || !Tail(c, lines[n]))
  }

  /** The white space a line starts with is w. */
  predicate Leads(line: string, w: string) { w <= line && Blank(w) && (|w| < |line| ==> !IsSpace(line[|w|])) }

  /** A colon is the last character of the line that is not white space. */
  predicate Opens(line: string) { exists k :: 0 <= k < |line| && line[k] == ':' && Blank(line[k + 1..]) }

  /** Where a block that stands for `line` belongs: where the line is; if that is not indented, one level
      below a line written last that opens a block. */
  predicate BelongsAt(line: string, last: Option<string>, indent: string) {
    if line != "" && IsSpace(line[0]) then Leads(line, indent)
    else if last.Some? && Opens(last.value) then |indent| >= 4 && indent[|indent| - 4..] == "    " && Leads(last.value, indent[..|indent| - 4])
    else indent == ""
  }

  /** The lines of `out` are those of `lines`, one after the other, except that complete blocks stand
      for old imports; `last` is the line written before. */
  ghost predicate Rewritten(c: Script, last: Option<string>, lines: seq<string>, out: seq<string>)
    decreases |lines|
  {
    if lines == [] then out == []
    else
      || (out != [] && out[0] == lines[0] && Rewritten(c, Some(lines[0]), lines[1..], out[1..]))
      || exists n, indent :: 0 < n <= |lines| && Replaces(c, last, lines, n, out, indent)
                             && Rewritten(c, LastOf(out[..|c.block|]), lines[n..], out[|c.block|..])
  }

  /** A complete block at the start of `out` stands for an old import of n lines. */
  predicate Replaces(c: Script, last: Option<string>, lines: seq<string>, n: nat, out: seq<string>, indent: string) {
    && OldImport(c, lines, n) && Blank(indent) && BelongsAt(lines[0], last, indent)
    && |c.block| <= |out| && out[..|c.block|] == Indented(c.block, indent)
  }

  lemma RewrittenCopy(c: Script, last: Option<string>, line: string, lines: seq<string>, out: seq<string>)
    requires Rewritten(c, Some(line), lines, out)
    ensures Rewritten(c, last, [line] + lines, [line] + out)
  {
    assert ([line] + lines)[1..] == lines && ([line] + out)[1..] == out;
    hide Replaces;
  }

  lemma {:induction false} RewrittenCopies(c: Script, last: Option<string>, front: seq<string>, lines: seq<string>, out: seq<string>)
    requires Rewritten(c, if front == [] then last else Some(front[|front|-1]), lines, out)
    ensures Rewritten(c, last, front + lines, front + out)
    decreases |front|
  {
    hide *;
    if front == [] {
      assert front + lines == lines && front + out == out;
    } else {
      var more := front[1..];
      assert more != [] ==> more[|more|-1] == front[|front|-1];
      RewrittenCopies(c, Some(front[0]), more, lines, out);
      RewrittenCopy(c, last, front[0], more + lines, more + out);
      assert front + lines == [front[0]] + (more + lines) && front + out == [front[0]] + (more + out);
    }
  }

  lemma RewrittenBlock(c: Script, last: Option<string>, lines: seq<string>, n: nat, indent: string, out: seq<string>)
    requires 0 < n <= |lines| && OldImport(c, lines, n) && Blank(indent) && BelongsAt(lines[0], last, indent)
    requires Rewritten(c, LastOf(Indented(c.block, indent)), lines[n..], out)
    ensures Rewritten(c, last, lines, Indented(c.block, indent) + out)
  {
    var all := Indented(c.block, indent) + out;
    assert all[..|c.block|] == Indented(c.block, indent) && all[|c.block|..] == out;
    hide OldImport, Indented, Blank, BelongsAt, LastOf;
    assert Replaces(c, last, lines, n, all, indent);
  }

  lemma LeadingIs(line: string)
    ensures Leads(line, LeadingWs(line))
    ensures LeadingWs(line) != "" <==> line != "" && IsSpace(line[0])
  {
  }

  lemma {:induction false} OpensIff(line: string)
    ensures Opens(line) <==> EndsWith(RStrip(line), ":")
  {
    if line != "" && IsSpace(line[|line|-1]) {
      var init := line[..|line|-1];
      OpensIff(init);
      hide RStrip;
      OpensLonger(init, line[|line|-1]);
      assert line == init + [line[|line|-1]];
    } else if line != "" {
      OpensEnd(line);
    }
  }

  lemma OpensLonger(line: string, c: char)
    requires IsSpace(c)
    ensures Opens(line + [c]) <==> Opens(line)
  {
    var s := line + [c];
    assert !IsSpace(':');
    hide IsSpace;
    forall k | 0 <= k < |line| ensures s[k] == line[k] && (Blank(s[k + 1..]) <==> Blank(line[k + 1..])) {
      BlankLonger(line[k + 1..], c);
      assert s[k + 1..] == line[k + 1..] + [c];
    }
  }

  lemma BlankLonger(s: string, c: char)
    requires IsSpace(c)
    ensures Blank(s + [c]) <==> Blank(s)
  {
    hide IsSpace;
    if Blank(s + [c]) {
      forall i | 0 <= i < |s| ensures IsSpace(s[i]) { assert (s + [c])[i] == s[i]; }
    }
  }

  lemma OpensEnd(line: string)
    requires line != "" && !IsSpace(line[|line|-1])
    ensures Opens(line) <==> EndsWith(line, ":")
  {
    var n := |line| - 1;
    hide IsSpace;
    assert line[n..] == [line[n]];
    forall k | 0 <= k < n ensures line[k] == ':' ==> !Blank(line[k + 1..]) { assert line[k + 1..][n - k - 1] == line[n]; }
    assert line[n + 1..] == "";
    if EndsWith(line, ":") { assert line[n] == ':' && Blank(line[n + 1..]); }
  }

  /** The indentation inferred is where the block belongs. */
  lemma InferBelongs(line: string, last: Option<string>)
    ensures BelongsAt(line, last, InferIndent(line, last))
  {
    LeadingIs(line);
    hide IsSpace, RStrip, LeadingWs, Leads, Opens;
    if last.Some? {
      LeadingIs(last.value);
      OpensIff(last.value);
      var w := LeadingWs(last.value);
      assert (w + "    ")[|w|..] == "    " && (w + "    ")[..|w|] == w;
    }
  }

  lemma {:induction false} TailLines(c: Script, lines: seq<string>)
    ensures var n := TailLength(c, lines);
            && OldTail(c, lines[..n], 0)
            && (n == |lines| || (n > 0 && Strip(lines[n - 1]) == c.flagFalse) || !Tail(c, lines[n]))
  {
    hide Tail, Strip;
    if lines != [] && Tail(c, lines[0]) && Strip(lines[0]) != c.flagFalse {
      TailLines(c, lines[1..]);
      TailCons(c, lines, TailLength(c, lines[1..]));
    }
  }

  lemma TailCons(c: Script, lines: seq<string>, n: nat)
    requires lines != [] && n <= |lines| - 1 && OldTail(c, lines[1..][..n], 0)
    requires Tail(c, lines[0]) && Strip(lines[0]) != c.flagFalse
    ensures OldTail(c, lines[..1 + n], 0)
  {
    hide Tail, Strip;
    var rest := lines[1..][..n];
    forall i | 0 <= i < 1 + n ensures Tail(c, lines[i]) && (i < n ==> Strip(lines[i]) != c.flagFalse) {
      if i > 0 { assert rest[i - 1] == lines[i]; }
    }
  }

  lemma TailBehind(c: Script, lines: seq<string>, head: nat)
    requires head <= |lines|
    ensures var n := head + TailLength(c, lines[head..]);
            && OldTail(c, lines[..n], head)
            && (n == |lines| || (n > head && Strip(lines[n - 1]) == c.flagFalse) || !Tail(c, lines[n]))
  {
    hide Tail, Strip;
    var m := TailLength(c, lines[head..]);
    TailLines(c, lines[head..]);
    var rest := lines[head..][..m];
    forall i | head <= i < head + m ensures Tail(c, lines[i]) && (i < head + m - 1 ==> Strip(lines[i]) != c.flagFalse) {
      assert rest[i - head] == lines[i];
    }
    assert m > 0 ==> lines[head..][m - 1] == lines[head + m - 1];
    assert head + m < |lines| ==> lines[head..][m] == lines[head + m];
  }

  /** What a repair reads is an old import. */
  lemma ReadOldImport(c: Script, last: Option<string>, lines: seq<string>)
    requires c.block != [] && lines != [] && Read(c, last, lines).changed
    ensures var s := Read(c, last, lines); OldImport(c, lines, s.used) && s.piece == Indented(c.block, InferIndent(lines[0], last))
  {
    hide Strip, Contains, Indented, InferIndent, OldTail, Tail;
    TailBehind(c, lines, 1);
    if |lines| >= 2 { TailBehind(c, lines, 2); }
  }

  /** Normalizing keeps every line, in order, but for old imports, each of which it replaces by a
      complete block. */
  lemma {:induction false} OnlyImportsRewritten(c: Script, last: Option<string>, lines: seq<string>)
    requires c.block != []
    ensures Rewritten(c, last, lines, Normalize(c, last, lines).out)
    decreases |lines|
  {
    hide *;
    NormalizeOut(c, last, lines);
    if lines == [] {
      NothingRewritten(c, last);
    } else {
      var s := Read(c, last, lines);
      OnlyImportsRewritten(c, LastOf(s.piece), lines[s.used..]);
      StepRewrites(c, last, lines, Normalize(c, LastOf(s.piece), lines[s.used..]).out);
    }
  }

  lemma NothingRewritten(c: Script, last: Option<string>)
    ensures Rewritten(c, last, [], [])
  {
  }

  /** One step: a repair writes a block for an old import, any other step copies. */
  lemma StepRewrites(c: Script, last: Option<string>, lines: seq<string>, rest: seq<string>)
    requires c.block != [] && lines != []
    requires var s := Read(c, last, lines); Rewritten(c, LastOf(s.piece), lines[s.used..], rest)
    ensures Rewritten(c, last, lines, Read(c, last, lines).piece + rest)
  {
    hide *;
    var s := Read(c, last, lines);
    if s.changed {
      ReadOldImport(c, last, lines);
      InferBelongs(lines[0], last);
      RewrittenBlock(c, last, lines, s.used, InferIndent(lines[0], last), rest);
    } else {
      UnchangedPiece(c, last, lines);
      LastIs(s.piece);
      RewrittenCopies(c, last, lines[..s.used], lines[s.used..], rest);
      CutLines(lines, s.used);
    }
  }

  lemma LastIs(piece: seq<string>)
    requires piece != []
    ensures LastOf(piece) == Some(piece[|piece|-1])
  {
  }

  lemma CutLines(lines: seq<string>, n: nat)
    requires n <= |lines|
    ensures lines[..n] + lines[n..] == lines
  {
  }

  lemma NormalizeOut(c: Script, last: Option<string>, lines: seq<string>)
    requires c.block != []
    ensures if lines == [] then Normalize(c, last, lines).out == []
            else
              var s := Read(c, last, lines);
              Normalize(c, last, lines).out == s.piece + Normalize(c, LastOf(s.piece), lines[s.used..]).out
  {
    hide Read;
  }

  // ---------- broken blocks ----------

  /** The lines of a block with their indentation broken. */
  predicate Broken(c: Script, lines: seq<string>) {
    && |lines| == |c.block| >= 2 && Contains(lines[1], c.importLine)
    && forall i :: 0 <= i < |lines| ==> Strip(lines[i]) == Strip(c.block[i])
  }

  /** However the indentation of a block was broken, it is mended: the block is read as a whole, and one
      complete block is written for it, where it belongs. */
  lemma MendsBlock(c: Script, last: Option<string>, lines: seq<string>, rest: seq<string>) returns (indent: string)
    requires Suitable(c) && Broken(c, lines)
    ensures c.block != [] && lines != [] && BelongsAt(lines[0], last, indent)
    ensures var block := Indented(c.block, indent);
            Normalize(c, last, lines + rest).out == block + Normalize(c, LastOf(block), rest).out
  {
    hide *;
    HasBlock(c);
    BrokenStart(c, lines, rest);
    var all := lines + rest;
    indent := InferIndent(all[0], last);
    InferBelongs(all[0], last);
    BrokenTail(c, lines, rest, 2);
    ReadBroken(c, last, all);
    NormalizeOut(c, last, all);
    assert all[|lines|..] == rest;
  }

  lemma BrokenStart(c: Script, lines: seq<string>, rest: seq<string>)
    requires Suitable(c) && Broken(c, lines)
    ensures |lines| == |c.block| >= 3 && (lines + rest)[0] == lines[0] && AtTry(c, lines + rest)
  {
    hide Strip, Contains, TailFits, AllOneLine, EndsWith;
    TryStrips();
    assert (lines + rest)[0] == lines[0] && (lines + rest)[1] == lines[1];
    assert Strip(lines[0]) == Strip(c.block[0]);
  }

  lemma TryStrips()
    ensures Strip("try:") == "try:"
  {
    assert "" + "try:" == "try:";
    StripWord("", "try:");
  }

  lemma {:induction false} BrokenTail(c: Script, lines: seq<string>, rest: seq<string>, i: nat)
    requires Suitable(c) && Broken(c, lines) && 2 <= i < |lines|
    ensures TailLength(c, (lines + rest)[i..]) == |lines| - i
    decreases |lines| - i
  {
    hide *;
    var all := lines + rest;
    BrokenLine(c, lines, i);
    assert all[i] == lines[i];
    TailNext(c, all, i);
    if i < |lines| - 1 { BrokenTail(c, lines, rest, i + 1); }
  }

  lemma TailNext(c: Script, lines: seq<string>, i: nat)
    requires i < |lines| && Tail(c, lines[i])
    ensures TailLength(c, lines[i..]) == if Strip(lines[i]) == c.flagFalse then 1 else 1 + TailLength(c, lines[i + 1..])
  {
    hide Tail, Strip;
    assert lines[i..][0] == lines[i] && lines[i..][1..] == lines[i + 1..];
  }

  lemma BrokenLine(c: Script, lines: seq<string>, i: nat)
    requires Suitable(c) && Broken(c, lines) && 2 <= i < |lines|
    ensures Tail(c, lines[i]) && (Strip(lines[i]) == c.flagFalse <==> i == |lines| - 1)
  {
    hide Strip, Contains, EndsWith, AllOneLine, Terminated, OneLine;
    assert Strip(lines[i]) == Strip(c.block[i]) && Tail(c, c.block[i]);
  }

  /** A block is read as a whole, whether it is complete or repaired. */
  lemma ReadBroken(c: Script, last: Option<string>, lines: seq<string>)
    requires c.block != [] && AtTry(c, lines) && |lines| >= 2 && 2 + TailLength(c, lines[2..]) == |c.block|
    ensures var s := Read(c, last, lines); s.used == |c.block| && s.piece == Indented(c.block, InferIndent(lines[0], last))
  {
    hide AtTry, Contains, Indented, InferIndent, TailLength;
  }

  // ---------- when the import is found ----------

  predicate HasImport(c: Script, lines: seq<string>) { exists i :: 0 <= i < |lines| && Contains(lines[i], c.importLine) }

  predicate HasMarker(c: Script, lines: seq<string>) { exists i :: 0 <= i < |lines| && Contains(lines[i], c.marker) }

  lemma BlockMarks(c: Script, indent: string)
    requires Suitable(c)
    ensures HasMarker(c, Indented(c.block, indent))
  {
    hide Contains, TailFits, EndsWith, OneLine, AllOneLine, Terminated, Strip;
    var k :| 0 <= k < |c.block| && Contains(c.block[k], c.marker);
    var b := Indented(c.block, indent);
    ContainsBehind(indent, c.block[k], "", c.marker);
    assert indent + c.block[k] + "" == indent + c.block[k];
    EmptyHolds(c.block[k], c.marker);
    assert b[k] == indent + c.block[k];
  }

  lemma EmptyHolds(s: string, p: string)
    requires Contains(s, p) && p != ""
    ensures s != ""
  {
  }

  /** Lines with the import are normalized to lines with the marker. */
  lemma {:induction false} ImportMarks(c: Script, last: Option<string>, lines: seq<string>)
    requires Suitable(c) && HasImport(c, lines)
    ensures c.block != [] && HasMarker(c, Normalize(c, last, lines).out)
    decreases |lines|
  {
    hide *;
    HasBlock(c);
    ImportHas(c, lines);
    var s := Read(c, last, lines);
    var rest := Normalize(c, LastOf(s.piece), lines[s.used..]).out;
    NormalizeOut(c, last, lines);
    PieceIs(c, last, lines);
    if AtTry(c, lines) || Contains(lines[0], c.importLine) {
      BlockMarks(c, InferIndent(lines[0], last));
    } else {
      ImportBehind(c, lines);
      ImportMarks(c, LastOf(s.piece), lines[1..]);
    }
    MarkerJoins(c, s.piece, rest);
  }

  lemma ImportHas(c: Script, lines: seq<string>)
    requires HasImport(c, lines)
    ensures lines != []
  {
  }

  lemma ImportBehind(c: Script, lines: seq<string>)
    requires HasImport(c, lines) && lines != [] && !Contains(lines[0], c.importLine)
    ensures HasImport(c, lines[1..])
  {
    hide Contains;
    var i :| 0 <= i < |lines| && Contains(lines[i], c.importLine);
    assert lines[1..][i - 1] == lines[i];
  }

  lemma MarkerJoins(c: Script, x: seq<string>, y: seq<string>)
    requires HasMarker(c, x) || HasMarker(c, y)
    ensures HasMarker(c, x + y)
  {
    hide Contains;
    if i :| 0 <= i < |x| && Contains(x[i], c.marker) {
      assert (x + y)[i] == x[i];
    } else {
      var j :| 0 <= j < |y| && Contains(y[j], c.marker);
      assert (x + y)[|x| + j] == y[j];
    }
  }

  /** Lines without the import are normal. */
  lemma NoImportNormal(c: Script, lines: seq<string>)
    requires Suitable(c) && !HasImport(c, lines)
    ensures c.block != [] && Normal(c, None, lines)
  {
    hide Contains, Normal, Suitable;
    HasBlock(c);
    NormalNothing(c, if lines == [] then None else Some(lines[|lines|-1]));
    GuardIsNormal(c, None, lines, []);
    assert lines + [] == lines;
  }

  lemma NormalNothing(c: Script, last: Option<string>)
    requires c.block != []
    ensures Normal(c, last, []) && CleanStart(c, [])
  {
  }

  // ---------- what belongs to a fallback ----------

  /** A line is taken for part of an old fallback exactly if it is blank or reads, but for indentation,
      like a line of the block behind the import. */
  lemma TailExact(c: Script, line: string)
    requires Suitable(c)
    ensures Tail(c, line) <==> Blank(line) || InFallback(c, Strip(line))
  {
    hide Strip, Contains, EndsWith, AllOneLine, Terminated, OneLine, Marks, Blank;
    StripsToNothing(line);
    if Tail(c, line) && Strip(line) != "" {
      FlagInFallback(c);
    }
    if InFallback(c, Strip(line)) {
      var i :| 2 <= i < |c.block| && Strip(c.block[i]) == Strip(line);
      assert Tail(c, c.block[i]);
    }
  }

  lemma FlagInFallback(c: Script)
    requires |c.block| >= 3 && TailFits(c)
    ensures InFallback(c, c.flagFalse)
  {
    hide Strip, Tail;
    var n := |c.block| - 1;
    assert Strip(c.block[n]) == c.flagFalse;
  }

  /** Blank is what strips to nothing. */
  lemma StripsToNothing(line: string)
    ensures Strip(line) == "" <==> Blank(line)
  {
    hide IsSpace;
    var w := LeadingWs(line);
    LeadingIs(line);
    assert LStrip(line) == line[|w|..];
    NothingLeft(line, w);
  }

  lemma NothingLeft(line: string, w: string)
    requires Leads(line, w)
    ensures RStrip(line[|w|..]) == "" <==> Blank(line)
  {
    hide IsSpace;
    var rest := line[|w|..];
    if rest == "" {
      assert line == w;
    } else {
      assert rest[0] == line[|w|];
      StartStays(rest);
    }
  }

  lemma {:induction false} StartStays(s: string)
    requires s != "" && !IsSpace(s[0])
    ensures RStrip(s) != ""
  {
    hide IsSpace;
    if IsSpace(s[|s|-1]) { StartStays(s[..|s|-1]); }
  }
}
