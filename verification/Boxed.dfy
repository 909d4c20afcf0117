/** Extracting the last boxed answer of a solution by counting braces. */
module Boxed {
  import opened Wrappers
  import opened Text

  const BOX := "\\boxed"
  const BOX_SPACE := "\\boxed "
  const BOX_BRACE := "\\boxed{"
  const FBOX := "\\fbox"

  /** `rfind`: the last occurrence at or before k. */
  function LastFrom(s: string, p: string, k: nat): (r: Option<nat>)
    requires k <= |s|
    ensures r.Some? ==> r.value <= k && OccursAt(s, p, r.value) && forall j :: r.value < j <= k ==> !OccursAt(s, p, j)
    ensures r.None? ==> forall j :: 0 <= j <= k ==> !OccursAt(s, p, j)
  {
    if OccursAt(s, p, k) then Some(k) else if k == 0 then None else LastFrom(s, p, k - 1)
  }

  function RFind(s: string, p: string): Option<nat> { LastFrom(s, p, |s|) }

  function Weight(c: char): int { if c == '{' then 1 else if c == '}' then -1 else 0 }

  /** Opened minus closed braces. */
  function Depth(s: string): int { if s == "" then 0 else Depth(s[..|s|-1]) + Weight(s[|s|-1]) }

  /** Every closing brace closes one opened before it, and all are closed. */
  predicate Balanced(s: string) { Depth(s) == 0 && forall k :: 0 <= k <= |s| ==> Depth(s[..k]) >= 0 }

  /** Where the count of open braces, `open` before position i, comes back to zero. */
  function CloseFrom(s: string, i: nat, open: int): (r: Option<nat>)
    requires i <= |s|
    ensures r.Some? ==> i <= r.value < |s| && s[r.value] == '}'
    decreases |s| - i
  {
    if i == |s| then None
    else
      var now := open + Weight(s[i]);
      if s[i] == '}' && now == 0 then Some(i) else CloseFrom(s, i + 1, now)
  }

  /** The text behind the last `\boxed `, up to the next dollar sign. */
  function SpaceAnswer(s: string): string
    requires Contains(s, BOX_SPACE)
  {
    var k := RFind(s, BOX_SPACE);
    if k.None? then "" else BOX_SPACE + UpTo(s[k.value + |BOX_SPACE|..], '$')
  }

  function UpTo(s: string, c: char): string { if s == "" || s[0] == c then "" else [s[0]] + UpTo(s[1..], c) }

  function BoxStart(s: string): Option<nat> { if RFind(s, BOX).Some? then RFind(s, BOX) else RFind(s, FBOX) }

  function LastBoxed(s: string): Option<string> {
    if Contains(s, BOX_SPACE) then Some(SpaceAnswer(s))
    else
      match BoxStart(s)
      case None => None
      case Some(idx) =>
        match CloseFrom(s, idx, 0)
        case None => None
        case Some(k) => Some(s[idx..k + 1])
  }

  method LastBoxedOnlyString(s: string) returns (r: Option<string>)
    ensures r == LastBoxed(s)
  {
    if Contains(s, BOX_SPACE) { return Some(SpaceAnswer(s)); }
    var start := BoxStart(s);
    if start.None? { return None; }
    var idx := start.value;
    var i, rightBraceIdx, numLeftBracesOpen := idx, None, 0;
    while i < |s|
      invariant idx <= i <= |s| && rightBraceIdx.None?
      invariant CloseFrom(s, i, numLeftBracesOpen) == CloseFrom(s, idx, 0)
    {
      if s[i] == '{' { numLeftBracesOpen := numLeftBracesOpen + 1; }
      if s[i] == '}' {
        numLeftBracesOpen := numLeftBracesOpen - 1;
        if numLeftBracesOpen == 0 {
          rightBraceIdx := Some(i);
          break;
        }
      }
      i := i + 1;
    }
    if rightBraceIdx.None? { return None; }
    return Some(s[idx..rightBraceIdx.value + 1]);
  }

  /** None where an assertion fails. */
  function RemoveBoxed(s: string): Option<string> {
    if Contains(s, BOX_SPACE) then (if BOX_SPACE <= s then Some(s[|BOX_SPACE|..]) else None)
    else if BOX_BRACE <= s && s[|s|-1] == '}' then Some(s[|BOX_BRACE|..|s|-1]) else None
  }

  // ---------- round trip ----------

  /** The closing brace found behind x, starting with one open brace. */
  lemma {:induction false} CloseBehind(s: string, at: nat, x: string, n: nat)
    requires at + |x| <= |s| && s[at..at + |x|] == x && n <= |x|
    requires forall k :: 0 <= k <= n ==> Depth(x[..k]) >= 0
    ensures CloseFrom(s, at, 1) == CloseFrom(s, at + n, 1 + Depth(x[..n]))
  {
    if n > 0 {
      CloseBehind(s, at, x, n - 1);
      assert x[..n][..n - 1] == x[..n - 1] && x[..n][n - 1] == x[n - 1] == s[at + n - 1];
    }
  }

  /** A closing brace too many is taken for the end. */
  lemma {:induction false} CloseEarly(s: string, at: nat, x: string, n: nat)
    requires at + |x| <= |s| && s[at..at + |x|] == x && n <= |x| && Depth(x[..n]) < 0
    ensures CloseFrom(s, at, 1).Some? && CloseFrom(s, at, 1).value < at + n
    decreases n
  {
    if j :| 0 <= j < n && Depth(x[..j]) < 0 {
      CloseEarly(s, at, x, j);
    } else {
      assert n > 0 && x[..n][..n - 1] == x[..n - 1] && x[..n][n - 1] == x[n - 1] == s[at + n - 1];
      CloseBehind(s, at, x, n - 1);
    }
  }

  /** The brace behind x is the one found, exactly if x is balanced. */
  lemma CloseExact(s: string, at: nat, x: string)
    requires at + |x| < |s| && s[at..at + |x|] == x && s[at + |x|] == '}'
    ensures CloseFrom(s, at, 1) == Some(at + |x|) <==> Balanced(x)
  {
    assert x[..|x|] == x;
    if forall k :: 0 <= k <= |x| ==> Depth(x[..k]) >= 0 {
      CloseBehind(s, at, x, |x|);
    } else {
      var k :| 0 <= k <= |x| && Depth(x[..k]) < 0;
      CloseEarly(s, at, x, k);
    }
  }

  /** The box around x is the last one. */
  lemma BoxIsLast(front: string, x: string, back: string)
    requires !Contains(x, BOX) && !Contains(back, BOX)
    ensures RFind(front + BOX_BRACE + x + "}" + back, BOX) == Some(|front|)
  {
    var s := front + BOX_BRACE + x + "}" + back;
    assert OccursAt(s, BOX, |front|);
    forall j | |front| < j <= |s| ensures !OccursAt(s, BOX, j) { NoLaterBox(front, x, back, j); }
  }

  lemma NoLaterBox(front: string, x: string, back: string, j: nat)
    requires !Contains(x, BOX) && !Contains(back, BOX) && j > |front|
    ensures !OccursAt(front + BOX_BRACE + x + "}" + back, BOX, j)
  {
    var s := front + BOX_BRACE + x + "}" + back;
    if OccursAt(s, BOX, j) {
      SplitOccurs(front + BOX_BRACE + x, '}', back, BOX, j);
      OpenedBox(front, x);
      SplitOccurs(front + BOX, '{', x, BOX, j);
      hide Contains;
      NotWithin(back, BOX, j - |front + BOX_BRACE + x| - 1);
      NotWithin(x, BOX, j - |front + BOX| - 1);
    }
  }

  lemma OpenedBox(front: string, x: string)
    ensures front + BOX_BRACE + x == front + BOX + ['{'] + x
  {
  }

  lemma NotWithin(s: string, p: string, k: int)
    requires !Contains(s, p)
    ensures 0 <= k ==> !OccursAt(s, p, k)
  {
  }

  /** What occurs around a character it does not have occurs on one side of it. */
  lemma SplitOccurs(u: string, c: char, v: string, p: string, j: nat)
    requires c !in p && p != "" && OccursAt(u + [c] + v, p, j)
    ensures OccursAt(u, p, j) || (j > |u| && OccursAt(v, p, j - |u| - 1))
  {
    var s := u + [c] + v;
    if j + |p| <= |u| {
      assert s[j..j + |p|] == u[j..j + |p|];
    } else if j > |u| {
      assert s[j..j + |p|] == v[j - |u| - 1..j - |u| - 1 + |p|];
    } else {
      InPart(s, p, j, |u|);
    }
  }

  lemma InPart(s: string, p: string, j: nat, k: nat)
    requires OccursAt(s, p, j) && j <= k < j + |p|
    ensures s[k] in p
  {
    assert p[k - j] == s[k];
  }

  /** Extracting and unboxing gives back what is in the last box if and only if its braces balance. */
  lemma BoxedExact(front: string, x: string, back: string)
    requires !Contains(x, BOX) && !Contains(back, BOX) && !Contains(front + BOX_BRACE + x + "}" + back, BOX_SPACE)
    ensures var r := LastBoxed(front + BOX_BRACE + x + "}" + back);
            (r.Some? && RemoveBoxed(r.value) == Some(x)) <==> Balanced(x)
  {
    var s := front + BOX_BRACE + x + "}" + back;
    var at := |front| + 7;
    BoxIsLast(front, x, back);
    hide Contains, Balanced, CloseFrom, RemoveBoxed, RFind;
    CloseExact(s, at, x);
    OpenBrace(s, front);
    var k := CloseFrom(s, at, 1);
    if k.Some? { UnboxSlice(s, front, x, k.value); }
  }

  /** What unboxing makes of the slice up to brace k. */
  lemma UnboxSlice(s: string, front: string, x: string, k: nat)
    requires front + BOX_BRACE + x + "}" <= s && |front| + 7 <= k < |s| && s[k] == '}' && !Contains(s, BOX_SPACE)
    ensures RemoveBoxed(s[|front|..k + 1]) == Some(x) <==> k == |front| + 7 + |x|
  {
    var t, y := s[|front|..k + 1], s[|front| + 7..k];
    hide Contains, RemoveBoxed;
    if Contains(t, BOX_SPACE) {
      ContainsPart(s, |front|, k + 1, BOX_SPACE);
    }
    SlicePrefix(front + BOX_BRACE + x + "}", s, |front| + 7, |front| + 7 + |x|);
    BoxSlice(s, front, k);
    Unbox(y);
    assert k == |front| + 7 + |x| ==> y == x;
  }

  lemma Unbox(y: string)
    requires !Contains(BOX_BRACE + y + "}", BOX_SPACE)
    ensures RemoveBoxed(BOX_BRACE + y + "}") == Some(y)
  {
    var t := BOX_BRACE + y + "}";
    assert BOX_BRACE <= t && t[7..|t|-1] == y;
  }

  lemma BoxSlice(s: string, front: string, k: nat)
    requires front + BOX_BRACE <= s && |front| + 7 <= k < |s| && s[k] == '}'
    ensures s[|front|..k + 1] == BOX_BRACE + s[|front| + 7..k] + "}"
  {
    assert (front + BOX_BRACE)[|front|..] == BOX_BRACE;
    SlicePrefix(front + BOX_BRACE, s, |front|, |front| + 7);
    assert s[|front|..k + 1] == s[|front|..|front| + 7] + s[|front| + 7..k] + [s[k]];
  }

  lemma SlicePrefix(u: string, s: string, lo: nat, hi: nat)
    requires u <= s && lo <= hi <= |u|
    ensures s[lo..hi] == u[lo..hi]
  {
  }

  lemma ContainsPart(s: string, lo: nat, hi: nat, p: string)
    requires lo <= hi <= |s| && Contains(s[lo..hi], p)
    ensures Contains(s, p)
  {
    var t := s[lo..hi];
    ContainsBehind(s[..lo], t, s[hi..], p);
    assert s == s[..lo] + t + s[hi..];
  }

  lemma OpenBrace(s: string, front: string)
    requires front + BOX_BRACE <= s
    ensures CloseFrom(s, |front|, 0) == CloseFrom(s, |front| + 7, 1)
  {
    assert forall k :: |front| <= k < |front| + 7 ==> s[k] == (front + BOX_BRACE)[k] == BOX_BRACE[k - |front|];
    assert forall m :: 0 <= m < 6 ==> BOX_BRACE[m] != '{' && BOX_BRACE[m] != '}';
    SkipPlain(s, |front|, 6);
  }

  lemma {:induction false} SkipPlain(s: string, i: nat, n: nat)
    requires i + n <= |s| && forall k :: i <= k < i + n ==> s[k] != '{' && s[k] != '}'
    ensures CloseFrom(s, i, 0) == CloseFrom(s, i + n, 0)
  {
    if n > 0 { SkipPlain(s, i, n - 1); }
  }

  // ---------- the other ways to box ----------

  /** A word whose first character occurs once in it does not occur behind its last occurrence. */
  lemma NoneLater(front: string, p: string, tail: string, j: nat)
    requires p != "" && (forall m :: 0 < m < |p| ==> p[m] != p[0]) && !Contains(tail, p) && j > |front|
    ensures !OccursAt(front + p + tail, p, j)
  {
    var s := front + p + tail;
    if OccursAt(s, p, j) {
      FirstChar(s, p, j);
      BehindFirst(front, p, tail, j);
    }
  }

  lemma FirstChar(s: string, p: string, j: nat)
    requires p != "" && OccursAt(s, p, j)
    ensures j < |s| && s[j] == p[0]
  {
    assert s[j..j + |p|][0] == s[j];
  }

  lemma BehindFirst(front: string, p: string, tail: string, j: nat)
    requires p != "" && j > |front| && j + |p| <= |front + p + tail|
    requires forall m :: 0 < m < |p| ==> p[m] != p[0]
    ensures (front + p + tail)[j] == p[0] ==> j >= |front| + |p|
    ensures j >= |front| + |p| && OccursAt(front + p + tail, p, j) ==> Contains(tail, p)
  {
    var s := front + p + tail;
    assert j < |front| + |p| ==> s[j] == p[j - |front|];
    var k := j - |front| - |p|;
    if k >= 0 && OccursAt(s, p, j) {
      assert s[j..j + |p|] == tail[k..k + |p|];
      assert OccursAt(tail, p, k);
    }
  }

  lemma LastPlace(front: string, p: string, tail: string)
    requires p != "" && (forall m :: 0 < m < |p| ==> p[m] != p[0]) && !Contains(tail, p)
    ensures RFind(front + p + tail, p) == Some(|front|) && Contains(front + p + tail, p)
  {
    var s := front + p + tail;
    assert s[|front|..|front| + |p|] == p;
    assert OccursAt(s, p, |front|);
    forall j | |front| < j <= |s| ensures !OccursAt(s, p, j) { NoneLater(front, p, tail, j); }
    hide OccursAt;
    var r := RFind(s, p);
  }

  lemma BoxWords()
    ensures |BOX_SPACE| == 7 && forall m :: 0 < m < 7 ==> BOX_SPACE[m] != BOX_SPACE[0]
    ensures |FBOX| == 5 && forall m :: 0 < m < 5 ==> FBOX[m] != FBOX[0]
    ensures BOX_SPACE == BOX + " " && BOX_SPACE != "" && FBOX != ""
  {
  }

  lemma {:induction false} UpToStops(x: string, rest: string, c: char)
    requires c !in x && (rest == "" || rest[0] == c)
    ensures UpTo(x + rest, c) == x
  {
    if x == "" {
      assert x + rest == rest;
    } else {
      UpToStops(x[1..], rest, c);
      assert (x + rest)[0] == x[0] && (x + rest)[1..] == x[1..] + rest && x == [x[0]] + x[1..];
    }
  }

  /** A box followed by a space reaches to the next dollar sign or to the end; unboxing gives back what is
      in it. */
  lemma SpacedExact(front: string, x: string, rest: string)
    requires '$' !in x && (rest == "" || rest[0] == '$') && !Contains(x + rest, BOX_SPACE)
    ensures LastBoxed(front + BOX_SPACE + (x + rest)) == Some(BOX_SPACE + x) && RemoveBoxed(BOX_SPACE + x) == Some(x)
  {
    var s := front + BOX_SPACE + (x + rest);
    BoxWords();
    hide BOX_SPACE, Contains, RFind, UpTo;
    LastPlace(front, BOX_SPACE, x + rest);
    assert s[|front| + |BOX_SPACE|..] == x + rest;
    UpToStops(x, rest, '$');
    assert SpaceAnswer(s) == BOX_SPACE + x;
    HasStart(BOX_SPACE, x);
    assert (BOX_SPACE + x)[|BOX_SPACE|..] == x;
  }

  lemma HasStart(p: string, x: string)
    ensures Contains(p + x, p) && p <= p + x
  {
    assert (p + x)[0..0 + |p|] == p;
    assert OccursAt(p + x, p, 0);
  }

  /** Without any box, a framed box is looked for instead. It is found whole exactly if what is in it
      balances; unboxing then fails. */
  lemma FramedExact(front: string, x: string, back: string)
    requires !Contains(front + FBOX + ("{" + x + "}" + back), BOX) && !Contains("{" + x + "}" + back, FBOX)
    ensures var r := LastBoxed(front + FBOX + ("{" + x + "}" + back)); r == Some(FBOX + "{" + x + "}") <==> Balanced(x)
    ensures RemoveBoxed(FBOX + "{" + x + "}") == None
  {
    var s := front + FBOX + ("{" + x + "}" + back);
    var at := |front| + 6;
    BoxWords();
    FramedNotBoxed(x);
    hide Contains, Balanced, CloseFrom, RemoveBoxed, RFind, LastFrom;
    NoSpacedBox(s);
    LastPlace(front, FBOX, "{" + x + "}" + back);
    NoBox(s);
    assert s[at..at + |x|] == x && s[at + |x|] == '}';
    CloseExact(s, at, x);
    OpenFrame(s, front);
    FrameSlice(s, front, x, back);
    var k := CloseFrom(s, at, 1);
    if k.Some? { assert |s[|front|..k.value + 1]| == k.value + 1 - |front|; }
  }

  lemma NoSpacedBox(s: string)
    requires !Contains(s, BOX)
    ensures !Contains(s, BOX_SPACE)
  {
    if Contains(s, BOX_SPACE) {
      BoxWords();
      var k :| 0 <= k <= |s| && OccursAt(s, BOX_SPACE, k);
      assert s[k..k + 6] == s[k..k + 7][..6];
      assert OccursAt(s, BOX, k);
    }
  }

  lemma NoBox(s: string)
    requires !Contains(s, BOX)
    ensures RFind(s, BOX) == None
  {
    hide OccursAt;
    var r := RFind(s, BOX);
  }

  lemma OpenFrame(s: string, front: string)
    requires front + FBOX + "{" <= s
    ensures CloseFrom(s, |front|, 0) == CloseFrom(s, |front| + 6, 1)
  {
    var w := FBOX + "{";
    assert front + FBOX + "{" == front + w;
    assert forall k :: |front| <= k < |front| + 6 ==> s[k] == (front + w)[k] == w[k - |front|];
    assert forall m :: 0 <= m < 5 ==> w[m] != '{' && w[m] != '}';
    SkipPlain(s, |front|, 5);
  }

  lemma FrameSlice(s: string, front: string, x: string, back: string)
    requires s == front + FBOX + ("{" + x + "}" + back)
    ensures var end := |front| + 6 + |x|; end < |s| && s[|front|..end + 1] == FBOX + "{" + x + "}"
    ensures front + FBOX + "{" <= s
  {
  }

  lemma FramedNotBoxed(x: string)
    ensures RemoveBoxed(FBOX + "{" + x + "}") == None
  {
    var t := FBOX + "{" + x + "}";
    assert t[1] == 'f' && BOX_SPACE[1] == 'b' && BOX_BRACE[1] == 'b';
  }

  /** Without either box there is no answer. */
  lemma NothingBoxed(s: string)
    requires !Contains(s, BOX) && !Contains(s, FBOX)
    ensures LastBoxed(s) == None
  {
    NoSpacedBox(s);
    hide OccursAt;
  }
}
