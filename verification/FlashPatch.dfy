/** The patcher that makes the flash-attn import optional. The texts it looks for and puts in are a
    parameter; `FlashText.Script()` are those of the script. */
module FlashPatch {
  import opened Wrappers
  import opened Sequences
  import opened Text

  /** `block` are the lines of the fallback import, the second of which contains `importLine`;
      `branch` is the line behind which the `guard` lines go; `marker` and `required` are looked for
      to see whether import and guard are there. */
  datatype Script = Script(importLine: string, block: seq<string>, fallbackNames: seq<string>, flagTrue: string, flagFalse: string,
                           exceptLine: string, marker: string, branch: string, guard: seq<string>, required: string)

  // ---------- lines of the fallback block ----------

  predicate Tail(c: Script, line: string) {
    var stripped := Strip(line);
    stripped == "" || stripped == c.flagTrue || stripped == c.exceptLine || stripped == c.flagFalse
    || exists k :: 0 <= k < |c.fallbackNames| && stripped == c.fallbackNames[k] + " = None"
  }

  /** How many lines the rest of an old block takes. */
  function TailLength(c: Script, lines: seq<string>): (n: nat)
    ensures n <= |lines|
  {
    if lines == [] || !Tail(c, lines[0]) then 0
    else if Strip(lines[0]) == c.flagFalse then 1
    else 1 + TailLength(c, lines[1..])
  }

  /** The block at an indentation; the empty line stays empty. */
  function Indented(block: seq<string>, indent: string): (r: seq<string>)
    ensures |r| == |block| && forall i :: 0 <= i < |r| ==> r[i] == if block[i] == "" then "" else indent + block[i]
  {
    seq(|block|, i requires 0 <= i < |block| => if block[i] == "" then "" else indent + block[i])
  }

  /** The line's own indentation, or one level below the line written last if that opens a block. */
  function InferIndent(line: string, last: Option<string>): (r: string)
    ensures Blank(r)
  {
    if LeadingWs(line) != "" then LeadingWs(line)
    else if last.Some? && EndsWith(RStrip(last.value), ":") then LeadingWs(last.value) + "    "
    else ""
  }

  // ---------- normalizing the import ----------

  predicate AtTry(c: Script, lines: seq<string>) {
    |lines| >= 2 && Strip(lines[0]) == "try:" && Contains(lines[1], c.importLine)
  }

  /** What one turn writes, how many lines it reads, and whether it repairs something. */
  datatype Step = Step(piece: seq<string>, used: nat, changed: bool)

  function Read(c: Script, last: Option<string>, lines: seq<string>): (s: Step)
    requires c.block != [] && lines != []
    ensures s.piece != [] && 0 < s.used <= |lines|
  {
    var expected := Indented(c.block, InferIndent(lines[0], last));
    if AtTry(c, lines) then
      if expected <= lines then Step(expected, |expected|, false) else Step(expected, 2 + TailLength(c, lines[2..]), true)
    else if Contains(lines[0], c.importLine) then Step(expected, 1 + TailLength(c, lines[1..]), true)
    else Step([lines[0]], 1, false)
  }

  datatype Normalized = Normalized(out: seq<string>, changed: bool)

  /** What is written for the lines still to be read, given the line written last. */
  function Normalize(c: Script, last: Option<string>, lines: seq<string>): Normalized
    requires c.block != []
    decreases |lines|
  {
    if lines == [] then Normalized([], false)
    else
      var s := Read(c, last, lines);
      var rest := Normalize(c, LastOf(s.piece), lines[s.used..]);
      Normalized(s.piece + rest.out, s.changed || rest.changed)
  }

  function LastOf(out: seq<string>): Option<string> { if out == [] then None else Some(out[|out|-1]) }

  method SkipTail(c: Script, lines: seq<string>, from: nat) returns (i: nat)
    requires from <= |lines|
    ensures i == from + TailLength(c, lines[from..])
  {
    i := from;
    hide Tail, Strip;
    while i < |lines| && Tail(c, lines[i])
      invariant from <= i <= |lines| && from + TailLength(c, lines[from..]) == i + TailLength(c, lines[i..])
    {
      assert lines[i..][0] == lines[i] && lines[i..][1..] == lines[i + 1..];
      if Strip(lines[i]) == c.flagFalse { return i + 1; }
      i := i + 1;
    }
  }

  /** The body of the loop. */
  method ReadFrom(c: Script, last: Option<string>, lines: seq<string>, i: nat) returns (piece: seq<string>, next: nat, changed: bool)
    requires c.block != [] && i < |lines|
    ensures i < next <= |lines| && Step(piece, next - i, changed) == Read(c, last, lines[i..])
  {
    var expected := Indented(c.block, InferIndent(lines[i], last));
    ReadHere(c, last, lines, i, expected);
    hide *;
    if i + 1 < |lines| && Strip(lines[i]) == "try:" && Contains(lines[i + 1], c.importLine) {
      if i + |expected| <= |lines| && lines[i..i + |expected|] == expected {
        return expected, i + |expected|, false;
      }
      next := SkipTail(c, lines, i + 2);
      return expected, next, true;
    }
    if Contains(lines[i], c.importLine) {
      next := SkipTail(c, lines, i + 1);
      return expected, next, true;
    }
    return [lines[i]], i + 1, false;
  }

  /** One turn at line i, said of the lines themselves. */
  lemma ReadHere(c: Script, last: Option<string>, lines: seq<string>, i: nat, expected: seq<string>)
    requires c.block != [] && i < |lines| && expected == Indented(c.block, InferIndent(lines[i], last))
    ensures Read(c, last, lines[i..])
         == if i + 1 < |lines| && Strip(lines[i]) == "try:" && Contains(lines[i + 1], c.importLine) then
              if i + |expected| <= |lines| && lines[i..i + |expected|] == expected then Step(expected, |expected|, false)
              else Step(expected, 2 + TailLength(c, lines[i + 2..]), true)
            else if Contains(lines[i], c.importLine) then Step(expected, 1 + TailLength(c, lines[i + 1..]), true)
            else Step([lines[i]], 1, false)
  {
    hide Indented, InferIndent, Strip, Contains, TailLength;
    FromHere(lines, i, expected);
  }

  lemma FromHere(lines: seq<string>, i: nat, expected: seq<string>)
    requires i < |lines|
    ensures lines[i..][0] == lines[i] && lines[i..][1..] == lines[i + 1..]
    ensures i + 1 < |lines| ==> lines[i..][1] == lines[i + 1] && lines[i..][2..] == lines[i + 2..]
    ensures expected <= lines[i..] <==> i + |expected| <= |lines| && lines[i..i + |expected|] == expected
  {
    if i + |expected| <= |lines| { assert lines[i..i + |expected|] == lines[i..][..|expected|]; }
  }

  method NormalizeFlashImportBlock(c: Script, lines: seq<string>) returns (out: seq<string>, changed: bool)
    requires c.block != []
    ensures Normalized(out, changed) == Normalize(c, None, lines)
  {
    out, changed := [], false;
    var i := 0;
    assert lines[0..] == lines;
    while i < |lines|
      invariant i <= |lines|
      invariant Sofar(out, changed, Normalize(c, LastOf(out), lines[i..])) == Normalize(c, None, lines)
      decreases |lines| - i
    {
      var piece, next, repaired := ReadFrom(c, LastOf(out), lines, i);
      ReadTurn(c, out, changed, lines, i, next);
      out, changed, i := out + piece, changed || repaired, next;
    }
    assert lines[|lines|..] == [];
    assert out + [] == out;
  }

  /** The result of a run that has written `out` and goes on with `rest`. */
  function Sofar(out: seq<string>, changed: bool, rest: Normalized): Normalized {
    Normalized(out + rest.out, changed || rest.changed)
  }

  lemma ReadTurn(c: Script, out: seq<string>, changed: bool, lines: seq<string>, i: nat, next: nat)
    requires c.block != [] && i < |lines| && next == i + Read(c, LastOf(out), lines[i..]).used
    ensures var s := Read(c, LastOf(out), lines[i..]);
            && next <= |lines| && LastOf(out + s.piece) == LastOf(s.piece)
            && Sofar(out, changed, Normalize(c, LastOf(out), lines[i..]))
            == Sofar(out + s.piece, changed || s.changed, Normalize(c, LastOf(s.piece), lines[next..]))
  {
    hide Read;
    var s := Read(c, LastOf(out), lines[i..]);
    assert lines[i..][s.used..] == lines[next..];
    Assoc(out, s.piece, Normalize(c, LastOf(s.piece), lines[next..]).out);
  }

  // ---------- the whole text ----------

  function NormalizeText(c: Script, text: string): (string, bool)
    requires c.block != []
  {
    var n := Normalize(c, None, SplitLines(text));
    (JoinLines(n.out, EndsInBreak(text)), n.changed)
  }

  function FindFrom(s: string, p: string, from: nat): (k: nat)
    requires from <= |s| && exists j :: from <= j <= |s| && OccursAt(s, p, j)
    ensures from <= k <= |s| && OccursAt(s, p, k) && forall j :: from <= j < k ==> !OccursAt(s, p, j)
    decreases |s| - from
  {
    if OccursAt(s, p, from) then from else FindFrom(s, p, from + 1)
  }

  /** Puts `extra` behind the first occurrence of p: `replace(p, p + extra, 1)`. */
  function InsertAfter(s: string, p: string, extra: string): string
    requires Contains(s, p)
  {
    var k := FindFrom(s, p, 0) + |p|;
    s[..k] + extra + s[k..]
  }

  datatype Outcome = Patched(text: string, changed: bool) | NoImport | NoBranch

  function PatchText(c: Script, text: string): Outcome
    requires c.block != []
  {
    var (normal, repaired) := NormalizeText(c, text);
    if !Contains(normal, c.marker) then NoImport
    else if Contains(normal, c.required) then Patched(normal, repaired)
    else if !Contains(normal, c.branch + "\n") then NoBranch
    else Patched(InsertAfter(normal, c.branch + "\n", Terminated(c.guard)), true)
  }
}
