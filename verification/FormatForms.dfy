/** Which conversations the format check accepts, and what is extracted from several answers. */
module FormatForms {
  import opened Wrappers
  import opened Sequences
  import opened Text
  import opened FormatReward

  // ---------- what a well-formed conversation looks like ----------

  /** It begins with the one opening reason tag and holds one closing reason tag. */
  predicate Reasoned(s: string) { REASON <= s && Once(s, REASON, 0) && Once(s, END_REASON, 0) }

  lemma ReasonTags()
    ensures Tag(REASON) && Tag(END_REASON)
  {
    assert REASON[0] == '<' && END_REASON[0] == '<';
  }

  lemma OneReasonMeans(s: string)
    requires REASON <= s && OneReason(s)
    ensures Reasoned(s)
  {
    ReasonTags();
    hide Tag, Once, CountFrom;
    CountMeans(s, REASON, 0);
    CountMeans(s, END_REASON, 0);
  }

  lemma ValidReasons(s: string)
    requires ValidDirectAnswer(s) || ValidImageSearch(s) || ValidTextSearch(s)
    ensures Reasoned(s)
  {
    hide OneReason, Contains, Count, OccursAt;
    OneReasonMeans(s);
  }

  /** Every response reasons once, at its beginning. */
  lemma WellFormedReasons(responses: seq<string>, i: nat)
    requires WellFormed(responses) && i < |responses|
    ensures Reasoned(Strip(responses[i]))
  {
    hide Strip, ValidDirectAnswer, ValidImageSearch, ValidTextSearch, Reasoned;
    ValidReasons(Strip(responses[i]));
  }

  /** The reason is closed before the call or the answer begins, which ends the response. */
  lemma ReasonThenCall(s: string, i: nat, j: nat, open: string, close: string)
    requires (ValidDirectAnswer(s) && open == ANSWER && close == END_ANSWER) || (ValidTextSearch(s) && open == TEXT_SEARCH && close == END_TEXT_SEARCH)
    requires OccursAt(s, END_REASON, i) && OccursAt(s, open, j)
    ensures |REASON| <= i && i + |END_REASON| <= j && EndsWith(s, close)
  {
    ValidReasons(s);
    CalledOnce(s, open);
    hide REASON, END_REASON, ANSWER, END_ANSWER, TEXT_SEARCH, END_TEXT_SEARCH, OccursAt, EndsWith, Count, Contains, IMAGE_SEARCH;
    Bounded(s, END_REASON, i);
    Bounded(s, open, j);
  }

  /** So it is before the image search is called. */
  lemma ReasonThenLook(s: string, i: nat)
    requires ValidImageSearch(s) && OccursAt(s, END_REASON, i)
    ensures |REASON| <= i && i + |END_REASON| + |IMAGE_SEARCH| <= |s| && EndsWith(s, IMAGE_SEARCH)
  {
    ValidReasons(s);
    hide REASON, END_REASON, IMAGE_SEARCH, ANSWER, END_ANSWER, TEXT_SEARCH, END_TEXT_SEARCH, OccursAt, EndsWith, Count, Contains;
    Bounded(s, END_REASON, i);
  }

  /** The responses whose calls are counted: all but the last of several. */
  function Calls(responses: seq<string>): set<nat> {
    set i: nat | i < |responses| && (i < |responses| - 1 || |responses| == 1) && Calling(Strip(responses[i]))
  }

  /** An image search, or an opened and closed text search. */
  predicate Calling(s: string) { Contains(s, IMAGE_SEARCH) || (Contains(s, TEXT_SEARCH) && Contains(s, END_TEXT_SEARCH)) }

  /** The search count is the number of responses with a call, the last of several not counted. */
  lemma SearchCountExact(responses: seq<string>)
    requires |responses| in {1, 2, 3}
    ensures SearchCount(responses) == |Calls(responses)|
  {
    hide Strip, Contains, IMAGE_SEARCH, TEXT_SEARCH, END_TEXT_SEARCH;
    var one: set<nat> := if Calling(Strip(responses[0])) then {0} else {};
    var two: set<nat> := if |responses| == 3 && Calling(Strip(responses[1])) then {1} else {};
    assert Calls(responses) == one + two;
  }

  lemma Bounded(s: string, p: string, j: nat)
    requires OccursAt(s, p, j)
    ensures j <= |s|
  {
  }

  lemma CalledOnce(s: string, open: string)
    requires (ValidDirectAnswer(s) && open == ANSWER) || (ValidTextSearch(s) && open == TEXT_SEARCH)
    ensures Once(s, open, 0)
  {
    Tags();
    SearchTags();
    hide Tag, Once, CountFrom, Contains, OccursAt;
    CountMeans(s, open, 0);
  }

  lemma ImageCalls(s: string)
    requires ValidImageSearch(s)
    ensures Contains(s, IMAGE_SEARCH) && !Contains(s, TEXT_SEARCH) && !Contains(s, ANSWER)
  {
    hide Contains, OneReason, OccursAt, EndingIn;
    CountContains(s, IMAGE_SEARCH);
  }

  lemma TextCalls(s: string)
    requires ValidTextSearch(s)
    ensures Contains(s, TEXT_SEARCH) && Contains(s, END_TEXT_SEARCH) && !Contains(s, IMAGE_SEARCH) && !Contains(s, ANSWER)
  {
    hide Contains, OneReason, OccursAt, Structured;
    CountContains(s, TEXT_SEARCH);
    CountContains(s, END_TEXT_SEARCH);
  }

  /** Of two responses the first calls one search, by image or by text; of three the first calls the
      image search and the second the text search. None but the last answers. */
  lemma WellFormedCalls(responses: seq<string>)
    requires WellFormed(responses)
    ensures forall i :: 0 <= i < |responses| - 1 ==> !Contains(Strip(responses[i]), ANSWER)
    ensures |responses| >= 2 ==> (Contains(Strip(responses[0]), IMAGE_SEARCH) <==> !Contains(Strip(responses[0]), TEXT_SEARCH))
    ensures |responses| == 3 ==> Contains(Strip(responses[0]), IMAGE_SEARCH)
                                 && Contains(Strip(responses[1]), TEXT_SEARCH) && !Contains(Strip(responses[1]), IMAGE_SEARCH)
  {
    hide Strip, ValidDirectAnswer, ValidImageSearch, ValidTextSearch, Contains;
    if |responses| >= 2 {
      if ValidImageSearch(Strip(responses[0])) { ImageCalls(Strip(responses[0])); } else { TextCalls(Strip(responses[0])); }
    }
    if |responses| == 3 { TextCalls(Strip(responses[1])); }
  }

  // ---------- responses that are accepted ----------

  /** Text without angle brackets. */
  predicate Plain(s: string) { '<' !in s }

  /** A short tag: an angle bracket at its beginning and nowhere else. */
  predicate Angled(p: string) { |p| >= 3 && p[0] == '<' && '<' !in p[1..] }

  /** What tells the tags apart. */
  predicate Alike(p: string, q: string) { |p| >= 3 && |q| >= 3 && p[1] == q[1] && p[2] == q[2] }

  /** Plain text alternating with tags. */
  datatype Part = Part(plain: string, tag: string)

  predicate Parts(ps: seq<Part>) { forall i :: 0 <= i < |ps| ==> Plain(ps[i].plain) && Angled(ps[i].tag) }

  function Join(ps: seq<Part>): string { if ps == [] then "" else Join(ps[..|ps|-1]) + ps[|ps|-1].plain + ps[|ps|-1].tag }

  /** Where the i-th tag begins. */
  function TagAt(ps: seq<Part>, i: nat): nat
    requires i < |ps|
  {
    |Join(ps[..i])| + |ps[i].plain|
  }

  /** An angle bracket is the beginning of a tag. */
  lemma {:induction false} AngleIsTag(ps: seq<Part>, j: nat) returns (i: nat)
    requires Parts(ps) && j < |Join(ps)| && Join(ps)[j] == '<'
    ensures i < |ps| && j == TagAt(ps, i)
  {
    var n := |ps| - 1;
    var front, p := Join(ps[..n]), ps[n];
    assert Join(ps) == front + p.plain + p.tag;
    if j < |front| {
      i := AngleIsTag(ps[..n], j);
      assert ps[..n][..i] == ps[..i];
    } else {
      i := n;
      AngleFirst(front, p, j);
    }
  }

  lemma AngleFirst(front: string, p: Part, j: nat)
    requires Plain(p.plain) && Angled(p.tag) && |front| <= j < |front + p.plain + p.tag|
    ensures (front + p.plain + p.tag)[j] == '<' ==> j == |front| + |p.plain|
  {
    var all := front + p.plain + p.tag;
    var k := j - |front| - |p.plain|;
    assert k < 0 ==> all[j] == p.plain[j - |front|];
    assert k > 0 ==> all[j] == p.tag[1..][k - 1];
  }

  lemma {:induction false} JoinSplits(ps: seq<Part>, i: nat) returns (rest: string)
    requires i < |ps|
    ensures Join(ps) == Join(ps[..i]) + ps[i].plain + ps[i].tag + rest
    decreases |ps|
  {
    var n := |ps| - 1;
    if i == n {
      rest := "";
      assert Join(ps) + "" == Join(ps);
    } else {
      var more := JoinSplits(ps[..n], i);
      rest := more + ps[n].plain + ps[n].tag;
      assert ps[..n][..i] == ps[..i];
      Assoc(Join(ps[..i]) + ps[i].plain + ps[i].tag, more, ps[n].plain);
      Assoc(Join(ps[..i]) + ps[i].plain + ps[i].tag, more + ps[n].plain, ps[n].tag);
    }
  }

  /** The i-th tag occurs at its place. */
  lemma TagOccurs(ps: seq<Part>, i: nat)
    requires i < |ps|
    ensures OccursAt(Join(ps), ps[i].tag, TagAt(ps, i))
  {
    var rest := JoinSplits(ps, i);
    var front := Join(ps[..i]) + ps[i].plain;
    hide Join;
    PlacedAt(front, ps[i].tag, rest);
  }

  lemma PlacedAt(front: string, tag: string, rest: string)
    ensures OccursAt(front + tag + rest, tag, |front|)
  {
    assert (front + tag + rest)[|front|..|front| + |tag|] == tag;
  }

  /** A tag occurs only where a tag with the same beginning stands. */
  lemma OccursAsTag(ps: seq<Part>, p: string, j: nat) returns (i: nat)
    requires Parts(ps) && |p| >= 3 && p[0] == '<' && OccursAt(Join(ps), p, j)
    ensures i < |ps| && j == TagAt(ps, i) && Alike(p, ps[i].tag)
  {
    CharAt(Join(ps), p, j);
    assert Join(ps)[j + 0] == p[0];
    i := AngleIsTag(ps, j);
    TagOccurs(ps, i);
    CharAt(Join(ps), ps[i].tag, j);
    hide Join;
    assert Join(ps)[j + 1] == p[1] == ps[i].tag[1] && Join(ps)[j + 2] == p[2] == ps[i].tag[2];
  }

  /** A tag like none of those there does not occur. */
  lemma NotThere(ps: seq<Part>, p: string)
    requires Parts(ps) && |p| >= 3 && p[0] == '<' && forall i :: 0 <= i < |ps| ==> !Alike(p, ps[i].tag)
    ensures !Contains(Join(ps), p)
  {
    hide Join, Alike, OccursAt;
    if Contains(Join(ps), p) {
      var j :| 0 <= j <= |Join(ps)| && OccursAt(Join(ps), p, j);
      var i := OccursAsTag(ps, p, j);
    }
  }

  /** A tag like no other there is counted once. */
  lemma CountedOnce(ps: seq<Part>, k: nat)
    requires Parts(ps) && k < |ps| && Tag(ps[k].tag) && forall i :: 0 <= i < |ps| && i != k ==> !Alike(ps[k].tag, ps[i].tag)
    ensures ps[k].tag != "" && Count(Join(ps), ps[k].tag) == 1
  {
    var s, p := Join(ps), ps[k].tag;
    TagOccurs(ps, k);
    OccursFits(s, p, TagAt(ps, k));
    assert Angled(p);
    hide Join, Alike, OccursAt, TagAt, Tag;
    forall j | 0 <= j <= |s| && OccursAt(s, p, j) ensures j == TagAt(ps, k) { var i := OccursAsTag(ps, p, j); }
    CountMeans(s, p, 0);
  }

  lemma OccursFits(s: string, p: string, j: nat)
    requires OccursAt(s, p, j)
    ensures j + |p| <= |s|
  {
  }

  function Answered(reason: string, between: string, answer: string): seq<Part> {
    [Part("", REASON), Part(reason, END_REASON), Part(between, ANSWER), Part(answer, END_ANSWER)]
  }

  function Called(reason: string, between: string, query: string): seq<Part> {
    [Part("", REASON), Part(reason, END_REASON), Part(between, TEXT_SEARCH), Part(query, END_TEXT_SEARCH)]
  }

  lemma TagChars()
    ensures Angled(REASON) && Angled(END_REASON) && Angled(ANSWER) && Angled(END_ANSWER) && Angled(TEXT_SEARCH) && Angled(END_TEXT_SEARCH)
    ensures REASON[1] == 'r' && END_REASON[1] == '/' && END_REASON[2] == 'r' && ANSWER[1] == 'a' && END_ANSWER[1] == '/'
    ensures END_ANSWER[2] == 'a' && TEXT_SEARCH[1] == 't' && END_TEXT_SEARCH[1] == '/' && END_TEXT_SEARCH[2] == 't'
    ensures IMAGE_SEARCH[0] == '<' && IMAGE_SEARCH[1] == 's' && |IMAGE_SEARCH| >= 3
  {
  }

  lemma AnsweredParts(reason: string, between: string, answer: string)
    requires Plain(reason) && Plain(between) && Plain(answer)
    ensures var ps := Answered(reason, between, answer); Parts(ps) && forall i, j :: 0 <= i < 4 && 0 <= j < 4 && i != j ==> !Alike(ps[i].tag, ps[j].tag)
    ensures forall i :: 0 <= i < 4 ==> !Alike(IMAGE_SEARCH, Answered(reason, between, answer)[i].tag)
    ensures forall i :: 0 <= i < 4 ==> !Alike(TEXT_SEARCH, Answered(reason, between, answer)[i].tag)
    ensures forall i :: 0 <= i < 4 ==> !Alike(END_TEXT_SEARCH, Answered(reason, between, answer)[i].tag)
  {
    TagChars();
    hide Angled, REASON, END_REASON, ANSWER, END_ANSWER, TEXT_SEARCH, END_TEXT_SEARCH, IMAGE_SEARCH;
  }

  lemma CalledParts(reason: string, between: string, query: string)
    requires Plain(reason) && Plain(between) && Plain(query)
    ensures var ps := Called(reason, between, query); Parts(ps) && forall i, j :: 0 <= i < 4 && 0 <= j < 4 && i != j ==> !Alike(ps[i].tag, ps[j].tag)
    ensures forall i :: 0 <= i < 4 ==> !Alike(IMAGE_SEARCH, Called(reason, between, query)[i].tag)
    ensures forall i :: 0 <= i < 4 ==> !Alike(ANSWER, Called(reason, between, query)[i].tag)
    ensures forall i :: 0 <= i < 4 ==> !Alike(END_ANSWER, Called(reason, between, query)[i].tag)
  {
    TagChars();
    hide Angled, REASON, END_REASON, ANSWER, END_ANSWER, TEXT_SEARCH, END_TEXT_SEARCH, IMAGE_SEARCH;
  }

  /** Four tags one after the other, the first at the beginning, the last at the end. */
  lemma FourParts(ps: seq<Part>)
    requires |ps| == 4 && ps[0].plain == "" && ps[0].tag == REASON && ps[1].tag == END_REASON && Parts(ps)
    ensures Structured(Join(ps), ps[2].tag, ps[3].tag)
  {
    hide *;
    var s := Join(ps);
    TagOccurs(ps, 0);
    TagOccurs(ps, 1);
    TagOccurs(ps, 2);
    TagOccurs(ps, 3);
    TagOrder(ps, 0);
    TagOrder(ps, 1);
    TagOrder(ps, 2);
    JoinEnd(ps);
    FirstTag(ps);
    StartsWith(s, REASON);
    EndsAt(s, ps[3].tag, TagAt(ps, 3));
    StructuredIf(s, ps[2].tag, ps[3].tag, TagAt(ps, 1), TagAt(ps, 2));
  }

  lemma FirstTag(ps: seq<Part>)
    requires ps != [] && ps[0].plain == ""
    ensures TagAt(ps, 0) == 0
  {
    assert ps[..0] == [];
  }

  lemma StructuredIf(s: string, open: string, close: string, i: nat, j: nat)
    requires REASON <= s && EndsWith(s, close) && OccursAt(s, END_REASON, i) && OccursAt(s, open, j)
    requires |REASON| <= i && i + |END_REASON| <= j && j + |open| + |close| <= |s|
    ensures Structured(s, open, close)
  {
    hide OccursAt, EndsWith, REASON, END_REASON;
  }

  lemma StartsWith(s: string, p: string)
    requires OccursAt(s, p, 0)
    ensures p <= s
  {
  }

  lemma EndsAt(s: string, p: string, k: nat)
    requires OccursAt(s, p, k) && k + |p| == |s|
    ensures EndsWith(s, p)
  {
  }

  lemma TagOrder(ps: seq<Part>, i: nat)
    requires i + 1 < |ps|
    ensures TagAt(ps, i) + |ps[i].tag| <= TagAt(ps, i + 1)
  {
    assert ps[..i + 1][..i] == ps[..i] && ps[..i + 1][i] == ps[i];
  }

  lemma JoinEnd(ps: seq<Part>)
    requires ps != []
    ensures TagAt(ps, |ps| - 1) + |ps[|ps|-1].tag| == |Join(ps)|
  {
  }

  /** A response that reasons and answers is accepted, with any text between the tags. */
  lemma AnswerAccepted(reason: string, between: string, answer: string)
    requires Plain(reason) && Plain(between) && Plain(answer)
    ensures ValidDirectAnswer(Join(Answered(reason, between, answer)))
  {
    var ps := Answered(reason, between, answer);
    hide Join, Plain, Tag, Structured, Count, Contains, Alike, Parts;
    AnsweredParts(reason, between, answer);
    ReasonTags();
    Tags();
    FourParts(ps);
    CountedOnce(ps, 0);
    CountedOnce(ps, 1);
    CountedOnce(ps, 2);
    CountedOnce(ps, 3);
    TagChars();
    NotThere(ps, IMAGE_SEARCH);
    NotThere(ps, TEXT_SEARCH);
    NotThere(ps, END_TEXT_SEARCH);
  }

  /** So is one that reasons and calls the text search. */
  lemma TextSearchAccepted(reason: string, between: string, query: string)
    requires Plain(reason) && Plain(between) && Plain(query)
    ensures ValidTextSearch(Join(Called(reason, between, query)))
  {
    var ps := Called(reason, between, query);
    hide Join, Plain, Tag, Structured, Count, Contains, Alike, Parts;
    CalledParts(reason, between, query);
    ReasonTags();
    SearchTags();
    FourParts(ps);
    CountedOnce(ps, 0);
    CountedOnce(ps, 1);
    CountedOnce(ps, 2);
    CountedOnce(ps, 3);
    TagChars();
    NotThere(ps, IMAGE_SEARCH);
    NotThere(ps, ANSWER);
    NotThere(ps, END_ANSWER);
  }

  lemma SearchTags()
    ensures Tag(TEXT_SEARCH) && Tag(END_TEXT_SEARCH)
  {
    TextTag();
    EndTextTag();
  }

  lemma TextTag()
    ensures Tag(TEXT_SEARCH)
  {
  }

  lemma EndTextTag()
    ensures Tag(END_TEXT_SEARCH)
  {
  }

  // ---------- the image search ----------

  const SEARCH := "<search>"
  const IMG := "<img>"
  const END_SEARCH := "</search>"

  function Looked(reason: string, between: string): seq<Part> {
    [Part("", REASON), Part(reason, END_REASON), Part(between, SEARCH), Part("", IMG), Part("", END_SEARCH)]
  }

  lemma {:induction false} CountNone(s: string, p: string, k: nat)
    requires p != "" && k <= |s| && forall j :: k <= j <= |s| ==> !OccursAt(s, p, j)
    ensures CountFrom(s, p, k) == 0
    decreases |s| - k
  {
    hide OccursAt;
    if k + |p| <= |s| { CountNone(s, p, k + 1); }
  }

  lemma {:induction false} CountSingle(s: string, p: string, k: nat, at: nat)
    requires p != "" && k <= at && at + |p| <= |s| && OccursAt(s, p, at)
    requires forall j :: k <= j <= |s| && OccursAt(s, p, j) ==> j == at
    ensures CountFrom(s, p, k) == 1
    decreases at - k
  {
    hide OccursAt;
    if k == at { CountNone(s, p, k + |p|); } else { CountSingle(s, p, k + 1, at); }
  }

  lemma LookTags()
    ensures Angled(SEARCH) && Angled(IMG) && Angled(END_SEARCH)
    ensures SEARCH[1] == 's' && IMG[1] == 'i' && END_SEARCH[1] == '/' && END_SEARCH[2] == 's' && IMAGE_SEARCH == SEARCH + IMG + END_SEARCH
  {
  }

  lemma LookedParts(reason: string, between: string)
    requires Plain(reason) && Plain(between)
    ensures var ps := Looked(reason, between);
            Parts(ps) && forall i, j :: 0 <= i < 5 && 0 <= j < 5 && i != j ==> !Alike(ps[i].tag, ps[j].tag)
    ensures forall i :: 0 <= i < 5 ==> !Alike(TEXT_SEARCH, Looked(reason, between)[i].tag) && !Alike(END_TEXT_SEARCH, Looked(reason, between)[i].tag)
    ensures forall i :: 0 <= i < 5 ==> !Alike(ANSWER, Looked(reason, between)[i].tag) && !Alike(END_ANSWER, Looked(reason, between)[i].tag)
    ensures forall i :: 0 <= i < 5 && i != 2 ==> !Alike(IMAGE_SEARCH, Looked(reason, between)[i].tag)
  {
    TagChars();
    LookTags();
    hide Angled, REASON, END_REASON, ANSWER, END_ANSWER, TEXT_SEARCH, END_TEXT_SEARCH, IMAGE_SEARCH, SEARCH, IMG, END_SEARCH;
  }

  /** The image call is the last three tags. */
  lemma LookPlace(reason: string, between: string)
    requires Plain(reason) && Plain(between)
    ensures var ps := Looked(reason, between);
            OccursAt(Join(ps), IMAGE_SEARCH, TagAt(ps, 2)) && TagAt(ps, 2) + |IMAGE_SEARCH| == |Join(ps)|
  {
    var ps := Looked(reason, between);
    LookTags();
    hide REASON, END_REASON, IMAGE_SEARCH, SEARCH, IMG, END_SEARCH, OccursAt;
    var front := Join(ps[..2]) + between;
    assert ps[..3][..2] == ps[..2] && ps[..4][..3] == ps[..3] && ps[..5] == ps && ps[..5][..4] == ps[..4];
    assert Join(ps[..3]) == front + SEARCH;
    assert Join(ps[..4]) == Join(ps[..3]) + "" + IMG && Join(ps) == Join(ps[..4]) + "" + END_SEARCH;
    hide Join;
    JoinThree(front, SEARCH, IMG, END_SEARCH);
    PlacedAt(front, IMAGE_SEARCH, "");
    assert front + IMAGE_SEARCH + "" == Join(ps);
  }

  lemma JoinThree(front: string, x: string, y: string, z: string)
    ensures front + x + "" + y + "" + z == front + (x + y + z)
  {
  }

  /** A response that reasons and calls the image search is accepted. */
  lemma ImageSearchAccepted(reason: string, between: string)
    requires Plain(reason) && Plain(between)
    ensures ValidImageSearch(Join(Looked(reason, between)))
  {
    var ps := Looked(reason, between);
    var s := Join(ps);
    hide Join, Plain, Tag, EndingIn, CountFrom, Contains, Alike, Parts, OccursAt, TagAt;
    LookedParts(reason, between);
    ReasonTags();
    CountedOnce(ps, 0);
    CountedOnce(ps, 1);
    TagChars();
    NotThere(ps, TEXT_SEARCH);
    NotThere(ps, END_TEXT_SEARCH);
    NotThere(ps, ANSWER);
    NotThere(ps, END_ANSWER);
    LookPlace(reason, between);
    forall j | 0 <= j <= |s| && OccursAt(s, IMAGE_SEARCH, j) ensures j == TagAt(ps, 2) { var i := OccursAsTag(ps, IMAGE_SEARCH, j); }
    CountSingle(s, IMAGE_SEARCH, 0, TagAt(ps, 2));
    LookEnds(reason, between);
  }

  lemma LookEnds(reason: string, between: string)
    requires Plain(reason) && Plain(between)
    ensures EndingIn(Join(Looked(reason, between)), IMAGE_SEARCH)
  {
    var ps := Looked(reason, between);
    LookedParts(reason, between);
    LookPlace(reason, between);
    TagOccurs(ps, 0);
    TagOccurs(ps, 1);
    TagOrder(ps, 0);
    TagOrder(ps, 1);
    FirstTag(ps);
    hide Join, TagAt;
    StartsWith(Join(ps), REASON);
    EndsAt(Join(ps), IMAGE_SEARCH, TagAt(ps, 2));
  }

  // ---------- several answers ----------

  /** Text with answers: plain text, an answer in its tags, and so on. */
  datatype Block = Block(plain: string, answer: string)

  function Written(bs: seq<Block>, rest: string): string {
    if bs == [] then rest else bs[0].plain + ANSWER + bs[0].answer + END_ANSWER + Written(bs[1..], rest)
  }

  predicate AllPlain(bs: seq<Block>) { forall i :: 0 <= i < |bs| ==> Plain(bs[i].plain) && Plain(bs[i].answer) }

  /** The first place of a tag behind plain text. */
  lemma FirstBehind(front: string, plain: string, p: string, rest: string)
    requires Plain(plain) && p != "" && p[0] == '<'
    ensures FirstFrom(front + plain + p + rest, p, |front|) == Some(|front| + |plain|)
  {
    var s, at := front + plain + p + rest, |front| + |plain|;
    assert front + plain + p + rest == (front + plain) + p + rest;
    PlacedAt(front + plain, p, rest);
    OccursFits(s, p, at);
    forall j | |front| <= j < at ensures !OccursAt(s, p, j) {
      assert s[j] == plain[j - |front|];
      CharFirst(s, p, j);
    }
    hide OccursAt;
    var r := FirstFrom(s, p, |front|);
  }

  lemma NoneBehind(front: string, plain: string, p: string)
    requires Plain(plain) && p != "" && p[0] == '<'
    ensures FirstFrom(front + plain, p, |front|) == None
  {
    var s := front + plain;
    forall j | |front| <= j <= |s| ensures !OccursAt(s, p, j) {
      CharFirst(s, p, j);
      if j < |s| { assert s[j] == plain[j - |front|]; }
    }
    hide OccursAt;
    var r := FirstFrom(s, p, |front|);
  }

  /** The last answer is the one taken, whatever came before. */
  lemma {:induction false} LastOfBlocks(front: string, bs: seq<Block>, rest: string)
    requires AllPlain(bs) && Plain(rest)
    ensures LastGroup(front + Written(bs, rest), |front|) == if bs == [] then None else Some(bs[|bs|-1].answer)
    decreases |bs|
  {
    hide FirstFrom, LastGroup, ANSWER, END_ANSWER;
    AnswerAngles();
    if bs == [] {
      NoneBehind(front, rest, ANSWER);
      NoGroup(front + rest, |front|);
    } else {
      var b, more := bs[0], Written(bs[1..], rest);
      var front' := front + b.plain + ANSWER + b.answer + END_ANSWER;
      LastOfBlocks(front', bs[1..], rest);
      BlockTurn(front, b, more);
    }
  }

  lemma AnswerAngles()
    ensures ANSWER != "" && ANSWER[0] == '<' && END_ANSWER != "" && END_ANSWER[0] == '<'
  {
  }

  lemma BlockTurn(front: string, b: Block, more: string)
    requires Plain(b.plain) && Plain(b.answer)
    ensures var s, front' := front + (b.plain + ANSWER + b.answer + END_ANSWER + more), front + b.plain + ANSWER + b.answer + END_ANSWER;
            s == front' + more && LastGroup(s, |front|) == if LastGroup(s, |front'|).Some? then LastGroup(s, |front'|) else Some(b.answer)
  {
    var s := front + (b.plain + ANSWER + b.answer + END_ANSWER + more);
    var front' := front + b.plain + ANSWER + b.answer + END_ANSWER;
    hide *;
    AnswerAngles();
    assert s == front' + more;
    assert s == front + b.plain + ANSWER + (b.answer + END_ANSWER + more);
    FirstBehind(front, b.plain, ANSWER, b.answer + END_ANSWER + more);
    var f := front + b.plain + ANSWER;
    assert s == f + b.answer + END_ANSWER + more;
    FirstBehind(f, b.answer, END_ANSWER, more);
    assert s[|f|..|f| + |b.answer|] == b.answer;
    GroupStep(s, |front|, |front| + |b.plain|, |f| + |b.answer|);
  }

  /** Of several answers the last one is extracted, without the white space around it. */
  lemma ExtractsLast(bs: seq<Block>, rest: string)
    requires AllPlain(bs) && Plain(rest)
    ensures ExtractSolution(Written(bs, rest)) == if bs == [] then None else Some(Strip(bs[|bs|-1].answer))
  {
    hide Written, LastGroup, Strip;
    LastOfBlocks("", bs, rest);
    assert "" + Written(bs, rest) == Written(bs, rest);
  }
}
