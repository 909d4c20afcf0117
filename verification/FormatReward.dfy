/** The format check of multi-turn conversations and the extraction of the final answer. */
module FormatReward {
  import opened Wrappers
  import opened Sequences
  import opened Text

  const REASON := "<reason>"
  const END_REASON := "</reason>"
  const ANSWER := "<answer>"
  const END_ANSWER := "</answer>"
  const IMAGE_SEARCH := "<search><img></search>"
  const TEXT_SEARCH := "<text_search>"
  const END_TEXT_SEARCH := "</text_search>"

  // ---------- occurrences ----------

  /** `count`: occurrences from position k on that do not overlap, taken from the left. */
  function CountFrom(s: string, p: string, k: nat): nat
    requires p != "" && k <= |s|
    decreases |s| - k
  {
    if k + |p| > |s| then 0
    else if OccursAt(s, p, k) then 1 + CountFrom(s, p, k + |p|)
    else CountFrom(s, p, k + 1)
  }

  function Count(s: string, p: string): nat
    requires p != ""
  {
    CountFrom(s, p, 0)
  }

  /** The first occurrence at or behind k. */
  function FirstFrom(s: string, p: string, k: nat): (r: Option<nat>)
    requires k <= |s|
    ensures r.Some? ==> k <= r.value <= |s| && OccursAt(s, p, r.value) && forall j :: k <= j < r.value ==> !OccursAt(s, p, j)
    ensures r.None? ==> forall j :: k <= j <= |s| ==> !OccursAt(s, p, j)
    decreases |s| - k
  {
    if OccursAt(s, p, k) then Some(k) else if k == |s| then None else FirstFrom(s, p, k + 1)
  }

  /** A tag: its first character occurs once, so that occurrences never overlap; no white space. */
  predicate Tag(p: string) {
    p != "" && (forall i :: 0 < i < |p| ==> p[i] != p[0]) && forall i :: 0 <= i < |p| ==> !IsSpace(p[i])
  }

  lemma CharAt(s: string, p: string, k: nat)
    ensures OccursAt(s, p, k) ==> forall i :: 0 <= i < |p| ==> s[k + i] == p[i]
  {
    if OccursAt(s, p, k) {
      forall i | 0 <= i < |p| ensures s[k + i] == p[i] { assert s[k..k + |p|][i] == s[k + i]; }
    }
  }

  /** Occurrences of a tag are at least its length apart. */
  lemma NoOverlap(s: string, p: string, j: nat, d: nat)
    requires Tag(p) && OccursAt(s, p, j) && 0 < d < |p|
    ensures !OccursAt(s, p, j + d)
  {
    CharAt(s, p, j);
    assert s[j + d] == p[d] != p[0];
    CharFirst(s, p, j + d);
  }

  lemma CharFirst(s: string, p: string, k: nat)
    requires p != ""
    ensures OccursAt(s, p, k) ==> k < |s| && s[k] == p[0]
  {
    if OccursAt(s, p, k) { assert s[k..k + |p|][0] == s[k]; }
  }

  /** Some occurrence at or behind k. */
  predicate Occurs(s: string, p: string, k: nat) { exists j :: k <= j <= |s| && OccursAt(s, p, j) }

  predicate Once(s: string, p: string, k: nat) {
    Occurs(s, p, k) && forall i, j :: k <= i <= |s| && k <= j <= |s| && OccursAt(s, p, i) && OccursAt(s, p, j) ==> i == j
  }

  /** Counting none means there is none, counting one that there is exactly one. */
  lemma {:induction false} CountMeans(s: string, p: string, k: nat)
    requires Tag(p) && k <= |s|
    ensures CountFrom(s, p, k) > 0 <==> Occurs(s, p, k)
    ensures CountFrom(s, p, k) == 1 <==> Once(s, p, k)
    decreases |s| - k
  {
    assert p != "";
    hide Tag;
    if k + |p| > |s| {
    } else if OccursAt(s, p, k) {
      CountMeans(s, p, k + |p|);
      forall j | k < j <= |s| && OccursAt(s, p, j) ensures k + |p| <= j { if j < k + |p| { NoOverlap(s, p, k, j - k); } }
      assert OccursAt(s, p, k);
    } else {
      CountMeans(s, p, k + 1);
    }
  }

  // ---------- formats ----------

  /** `^<reason>.*</reason>.*<open>.*<close>$` over all characters. */
  predicate Structured(s: string, open: string, close: string) {
    REASON <= s && EndsWith(s, close)
    && exists i, j :: |REASON| <= i <= |s| && i + |END_REASON| <= j <= |s|
                   && OccursAt(s, END_REASON, i) && OccursAt(s, open, j) && j + |open| + |close| <= |s|
  }

  /** `^<reason>.*</reason>.*<end>$`. */
  predicate EndingIn(s: string, end: string) {
    REASON <= s && EndsWith(s, end)
    && exists i :: |REASON| <= i <= |s| && OccursAt(s, END_REASON, i) && i + |END_REASON| + |end| <= |s|
  }

  predicate OneReason(s: string) { Count(s, REASON) == 1 && Count(s, END_REASON) == 1 }

  predicate ValidDirectAnswer(s: string) {
    && Structured(s, ANSWER, END_ANSWER) && OneReason(s) && Count(s, ANSWER) == 1 && Count(s, END_ANSWER) == 1
    && !Contains(s, IMAGE_SEARCH) && !Contains(s, TEXT_SEARCH) && !Contains(s, END_TEXT_SEARCH)
  }

  predicate ValidImageSearch(s: string) {
    && EndingIn(s, IMAGE_SEARCH) && OneReason(s) && Count(s, IMAGE_SEARCH) == 1
    && !Contains(s, ANSWER) && !Contains(s, END_ANSWER) && !Contains(s, TEXT_SEARCH) && !Contains(s, END_TEXT_SEARCH)
  }

  predicate ValidTextSearch(s: string) {
    && Structured(s, TEXT_SEARCH, END_TEXT_SEARCH) && OneReason(s) && Count(s, TEXT_SEARCH) == 1 && Count(s, END_TEXT_SEARCH) == 1
    && !Contains(s, ANSWER) && !Contains(s, END_ANSWER) && !Contains(s, IMAGE_SEARCH)
  }

  predicate Searches(s: string) { Contains(s, IMAGE_SEARCH) || (Contains(s, TEXT_SEARCH) && Contains(s, END_TEXT_SEARCH)) }

  datatype Reward = Reward(formatScore: nat, searchCount: nat)

  /** None for a number of responses that is not supported. */
  method FormatReward(responses: seq<string>) returns (r: Option<Reward>)
    ensures r.None? <==> |responses| !in {1, 2, 3}
    ensures r.Some? ==> r.value.formatScore == (if WellFormed(responses) then 1 else 0) && r.value.searchCount == SearchCount(responses)
  {
    hide ValidDirectAnswer, ValidImageSearch, ValidTextSearch, Searches, Strip;
    var score, count := 0, 0;
    if |responses| == 1 {
      var response1 := Strip(responses[0]);
      if Searches(response1) { count := count + 1; }
      if ValidDirectAnswer(response1) { score := 1; }
    } else if |responses| == 2 {
      var response1, response2 := Strip(responses[0]), Strip(responses[1]);
      if Searches(response1) { count := count + 1; }
      if ValidImageSearch(response1) && ValidDirectAnswer(response2) {
        score := 1;
      } else if ValidTextSearch(response1) && ValidDirectAnswer(response2) {
        score := 1;
      }
    } else if |responses| == 3 {
      var response1, response2, response3 := Strip(responses[0]), Strip(responses[1]), Strip(responses[2]);
      if Searches(response1) { count := count + 1; }
      if Searches(response2) { count := count + 1; }
      if ValidImageSearch(response1) && ValidTextSearch(response2) && ValidDirectAnswer(response3) { score := 1; }
    } else {
      return None;
    }
    return Some(Reward(score, count));
  }

  /** One answer; one search and an answer; an image search, a text search and an answer. */
  predicate WellFormed(responses: seq<string>) {
    var n := |responses|;
    n in {1, 2, 3} && ValidDirectAnswer(Strip(responses[n - 1]))
    && (n == 2 ==> ValidImageSearch(Strip(responses[0])) || ValidTextSearch(Strip(responses[0])))
    && (n == 3 ==> ValidImageSearch(Strip(responses[0])) && ValidTextSearch(Strip(responses[1])))
  }

  /** The responses that call a search; of several, the last one is not looked at. */
  function SearchCount(responses: seq<string>): nat {
    var n := |responses|;
    (if n >= 1 && Searches(Strip(responses[0])) then 1 else 0) + (if n >= 3 && Searches(Strip(responses[1])) then 1 else 0)
  }

  lemma Tags()
    ensures Tag(ANSWER) && Tag(END_ANSWER)
  {
    AnswerTag();
    EndAnswerTag();
  }

  lemma AnswerTag()
    ensures Tag(ANSWER)
  {
  }

  lemma EndAnswerTag()
    ensures Tag(END_ANSWER)
  {
  }

  lemma CountContains(s: string, p: string)
    requires p != "" && Count(s, p) > 0
    ensures Contains(s, p)
  {
    CountFromContains(s, p, 0);
  }

  lemma {:induction false} CountFromContains(s: string, p: string, k: nat)
    requires p != "" && k <= |s| && CountFrom(s, p, k) > 0
    ensures Contains(s, p)
    decreases |s| - k
  {
    if !OccursAt(s, p, k) { CountFromContains(s, p, k + 1); }
  }

  lemma ImageSearchSearches(s: string)
    requires ValidImageSearch(s)
    ensures Searches(s)
  {
    CountContains(s, IMAGE_SEARCH);
  }

  lemma TextSearchSearches(s: string)
    requires ValidTextSearch(s)
    ensures Searches(s)
  {
    CountContains(s, TEXT_SEARCH);
    CountContains(s, END_TEXT_SEARCH);
  }

  /** A well-formed conversation calls a search in every round but the last, and is counted so. */
  lemma WellFormedSearches(responses: seq<string>)
    requires WellFormed(responses)
    ensures SearchCount(responses) == |responses| - 1 && !Searches(Strip(responses[|responses|-1]))
  {
    hide Strip, ValidImageSearch, ValidTextSearch, Contains, Count;
    if |responses| >= 2 {
      if ValidImageSearch(Strip(responses[0])) { ImageSearchSearches(Strip(responses[0])); } else { TextSearchSearches(Strip(responses[0])); }
    }
    if |responses| == 3 { TextSearchSearches(Strip(responses[1])); }
  }

  // ---------- the answer ----------

  /** A match: where its opening and its closing tag begin. */
  datatype Match = Match(open: nat, close: nat)

  /** The first match of `<answer>(.*?)</answer>` from position k on. */
  function NextMatch(s: string, k: nat): (r: Option<Match>)
    requires k <= |s|
    ensures r.Some? ==> k <= r.value.open && r.value.open + |ANSWER| <= r.value.close && r.value.close + |END_ANSWER| <= |s|
  {
    match FirstFrom(s, ANSWER, k)
    case None => None
    case Some(i) =>
      if i + |ANSWER| > |s| then None
      else
        match FirstFrom(s, END_ANSWER, i + |ANSWER|)
        case None => None
        case Some(j) => if j + |END_ANSWER| > |s| then None else Some(Match(i, j))
  }

  /** The group of the last match from position k on. */
  function LastGroup(s: string, k: nat): Option<string>
    requires k <= |s|
    decreases |s| - k
  {
    match NextMatch(s, k)
    case None => None
    case Some(m) =>
      var later := LastGroup(s, m.close + |END_ANSWER|);
      if later.Some? then later else Some(s[m.open + |ANSWER|..m.close])
  }

  function ExtractSolution(s: string): Option<string> {
    var g := LastGroup(s, 0);
    if g.Some? then Some(Strip(g.value)) else None
  }

  /** Stripping removes white space around the rest. */
  lemma StripParts(s: string) returns (a: string, b: string)
    ensures s == a + Strip(s) + b && Blank(a) && Blank(b)
  {
    a := LeadingWs(s);
    var rest := LStripParts(s, a);
    hide LeadingWs, LStrip, RStrip, IsSpace;
    b := RStripParts(rest);
    Assoc(a, RStrip(rest), b);
  }

  lemma LStripParts(s: string, a: string) returns (rest: string)
    requires a == LeadingWs(s)
    ensures s == a + rest && rest == LStrip(s)
  {
    rest := s[|a|..];
  }

  lemma {:induction false} RStripParts(s: string) returns (b: string)
    ensures s == RStrip(s) + b && Blank(b)
  {
    hide IsSpace;
    if s != "" && IsSpace(s[|s|-1]) {
      var x, c := s[..|s|-1], s[|s|-1];
      b := RStripParts(x);
      assert RStrip(s) == RStrip(x);
      hide RStrip;
      Assoc(RStrip(x), b, [c]);
      assert s == x + [c];
      b := b + [c];
    } else {
      b := "";
    }
  }

  /** Occurrences of a tag are not affected by white space around. */
  lemma OccursInside(a: string, t: string, b: string, p: string, k: nat)
    requires Blank(a) && Blank(b) && Tag(p) && OccursAt(a + t + b, p, k)
    ensures |a| <= k && k + |p| <= |a| + |t| && OccursAt(t, p, k - |a|)
  {
    var s := a + t + b;
    CharAt(s, p, k);
    assert s[k + 0] == p[0] && s[k + (|p| - 1)] == p[|p|-1];
    assert forall i :: 0 <= i < |a| ==> s[i] == a[i] && IsSpace(a[i]);
    assert forall i :: |a| + |t| <= i < |s| ==> s[i] == b[i - |a| - |t|];
    assert t[k - |a|..k - |a| + |p|] == s[k..k + |p|];
  }

  lemma OccursOutside(a: string, t: string, b: string, p: string, k: nat)
    requires OccursAt(t, p, k)
    ensures OccursAt(a + t + b, p, |a| + k)
  {
    assert (a + t + b)[|a| + k..|a| + k + |p|] == t[k..k + |p|];
  }

  /** The last response of a well-formed conversation holds one opening and, behind it, one closing
      answer tag; what is extracted is the stripped text between them. */
  lemma ExtractsOnlyAnswer(s: string, i: nat, j: nat)
    requires ValidDirectAnswer(Strip(s)) && OccursAt(s, ANSWER, i) && OccursAt(s, END_ANSWER, j)
    ensures i + |ANSWER| <= j && ExtractSolution(s) == Some(Strip(s[i + |ANSWER|..j]))
  {
    hide *;
    var t := Strip(s);
    var a, b := StripParts(s);
    Tags();
    TagsOnce(t);
    OccursInside(a, t, b, ANSWER, i);
    OccursInside(a, t, b, END_ANSWER, j);
    AnswerBeforeEnd(t, i - |a|, j - |a|);
    OnlyInside(a, t, b, ANSWER, i);
    OnlyInside(a, t, b, END_ANSWER, j);
    OnlyGroup(s, i, j);
    GroupIs(s);
  }

  lemma TagsOnce(t: string)
    requires ValidDirectAnswer(t)
    ensures Once(t, ANSWER, 0) && Once(t, END_ANSWER, 0)
  {
    Tags();
    hide Tag, Once, Structured, OneReason, Contains, CountFrom;
    CountMeans(t, ANSWER, 0);
    CountMeans(t, END_ANSWER, 0);
  }

  lemma GroupIs(s: string)
    ensures LastGroup(s, 0).Some? ==> ExtractSolution(s) == Some(Strip(LastGroup(s, 0).value))
  {
  }

  /** In a structured answer the one opening tag lies before the one closing tag. */
  lemma AnswerBeforeEnd(t: string, i: nat, j: nat)
    requires ValidDirectAnswer(t) && Once(t, ANSWER, 0) && Once(t, END_ANSWER, 0) && OccursAt(t, ANSWER, i) && OccursAt(t, END_ANSWER, j)
    ensures i + |ANSWER| <= j
  {
    var x, y :| |REASON| <= x <= |t| && x + |END_REASON| <= y <= |t|
             && OccursAt(t, END_REASON, x) && OccursAt(t, ANSWER, y) && y + |ANSWER| + |END_ANSWER| <= |t|;
    var z := |t| - |END_ANSWER|;
    assert OccursAt(t, END_ANSWER, z);
    assert i == y && j == z;
  }

  /** k is the only place p occurs at. */
  predicate OnlyAt(s: string, p: string, k: nat) {
    k <= |s| && OccursAt(s, p, k) && forall j :: 0 <= j <= |s| && OccursAt(s, p, j) ==> j == k
  }

  lemma OnlyInside(a: string, t: string, b: string, p: string, k: nat)
    requires Blank(a) && Blank(b) && Tag(p) && Once(t, p, 0) && OccursAt(a + t + b, p, k)
    ensures OnlyAt(a + t + b, p, k)
  {
    AtMost(a + t + b, p, k);
    OccursInside(a, t, b, p, k);
    hide IsSpace, OccursAt;
    forall j | 0 <= j <= |a + t + b| && OccursAt(a + t + b, p, j) ensures j == k {
      OccursInside(a, t, b, p, j);
      assert 0 <= j - |a| <= |t| && 0 <= k - |a| <= |t|;
    }
  }

  lemma AtMost(s: string, p: string, k: nat)
    requires OccursAt(s, p, k)
    ensures k <= k + |p| <= |s|
  {
  }

  lemma OnlyGroup(s: string, i: nat, j: nat)
    requires OnlyAt(s, ANSWER, i) && OnlyAt(s, END_ANSWER, j) && i + |ANSWER| <= j && j + |END_ANSWER| <= |s|
    ensures LastGroup(s, 0) == Some(s[i + |ANSWER|..j])
  {
    FirstIs(s, ANSWER, i, 0);
    FirstIs(s, END_ANSWER, j, i + |ANSWER|);
    FirstIs(s, ANSWER, i, j + |END_ANSWER|);
    hide *;
    NoGroup(s, j + |END_ANSWER|);
    GroupStep(s, 0, i, j);
  }

  lemma NoGroup(s: string, k: nat)
    requires k <= |s| && FirstFrom(s, ANSWER, k) == None
    ensures LastGroup(s, k) == None
  {
    hide FirstFrom, ANSWER, END_ANSWER;
  }

  /** One match of the pattern. */
  lemma GroupStep(s: string, k: nat, i: nat, j: nat)
    requires k <= |s| && i + |ANSWER| <= j && j + |END_ANSWER| <= |s|
    requires FirstFrom(s, ANSWER, k) == Some(i) && FirstFrom(s, END_ANSWER, i + |ANSWER|) == Some(j)
    ensures var later := LastGroup(s, j + |END_ANSWER|);
            LastGroup(s, k) == if later.Some? then later else Some(s[i + |ANSWER|..j])
  {
    hide *;
    MatchIs(s, k, i, j);
    GroupOf(s, k, Match(i, j));
  }

  lemma GroupOf(s: string, k: nat, m: Match)
    requires k <= |s| && NextMatch(s, k) == Some(m)
    ensures m.open + |ANSWER| <= m.close && m.close + |END_ANSWER| <= |s|
    ensures LastGroup(s, k) == if LastGroup(s, m.close + |END_ANSWER|).Some? then LastGroup(s, m.close + |END_ANSWER|)
                               else Some(s[m.open + |ANSWER|..m.close])
  {
    hide NextMatch, FirstFrom, ANSWER, END_ANSWER;
  }

  lemma MatchIs(s: string, k: nat, i: nat, j: nat)
    requires k <= |s| && i + |ANSWER| <= j && j + |END_ANSWER| <= |s|
    requires FirstFrom(s, ANSWER, k) == Some(i) && FirstFrom(s, END_ANSWER, i + |ANSWER|) == Some(j)
    ensures NextMatch(s, k) == Some(Match(i, j))
  {
    hide FirstFrom, ANSWER, END_ANSWER;
  }

  /** The first occurrence of what occurs once. */
  lemma FirstIs(s: string, p: string, k: nat, from: nat)
    requires OnlyAt(s, p, k) && from <= |s|
    ensures FirstFrom(s, p, from) == if from <= k then Some(k) else None
  {
    hide OccursAt;
    var r := FirstFrom(s, p, from);
  }

  /** And both tags are there. */
  lemma AnswerTagsOccur(s: string)
    requires ValidDirectAnswer(Strip(s))
    ensures exists i, j :: 0 <= i <= |s| && 0 <= j <= |s| && OccursAt(s, ANSWER, i) && OccursAt(s, END_ANSWER, j)
  {
    var t := Strip(s);
    var a, b := StripParts(s);
    CountContains(t, ANSWER);
    CountContains(t, END_ANSWER);
    var i :| 0 <= i <= |t| && OccursAt(t, ANSWER, i);
    var j :| 0 <= j <= |t| && OccursAt(t, END_ANSWER, j);
    OccursOutside(a, t, b, ANSWER, i);
    OccursOutside(a, t, b, END_ANSWER, j);
    assert OccursAt(s, ANSWER, |a| + i) && OccursAt(s, END_ANSWER, |a| + j);
  }
}
