/** The offline text index: term counts, document frequencies and the ranked search, over exact reals. */
module OfflineIndex {
  import opened Variance

  datatype Doc = Doc(tokens: seq<string>, tf: map<string, nat>)

  /** `docs`, with `docFreq` as the constructor counts it and the average length. */
  datatype Index = Index(docs: seq<Doc>, docFreq: map<string, nat>, avgDocLen: real)

  function Get(m: map<string, nat>, t: string): nat { if t in m then m[t] else 0 }

  /** `tf` counts every token as often as it occurs. */
  ghost predicate Counted(tf: map<string, nat>, tokens: seq<string>) {
    forall t :: Get(tf, t) == multiset(tokens)[t]
  }

  method MakeDoc(tokens: seq<string>) returns (d: Doc)
    ensures d.tokens == tokens && Counted(d.tf, tokens)
  {
    var tf: map<string, nat> := map[];
    for k := 0 to |tokens|
      invariant Counted(tf, tokens[..k])
    {
      assert tokens[..k + 1] == tokens[..k] + [tokens[k]];
      tf := tf[tokens[k] := Get(tf, tokens[k]) + 1];
    }
    assert tokens[..|tokens|] == tokens;
    d := Doc(tokens, tf);
  }

  /** The number of documents that contain t. */
  function DocCount(docs: seq<Doc>, t: string): nat {
    if docs == [] then 0 else DocCount(docs[..|docs|-1], t) + if t in docs[|docs|-1].tokens then 1 else 0
  }

  ghost predicate Frequencies(df: map<string, nat>, docs: seq<Doc>) { forall t :: Get(df, t) == DocCount(docs, t) }

  /** While the tokens in `left` of the last document are still to be counted. */
  ghost predicate Halfway(df: map<string, nat>, docs: seq<Doc>, d: Doc, left: set<string>) {
    forall t :: Get(df, t) == DocCount(docs, t) + if t in d.tokens && t !in left then 1 else 0
  }

  method CountDocs(docs: seq<Doc>) returns (df: map<string, nat>)
    ensures Frequencies(df, docs)
  {
    df := map[];
    for k := 0 to |docs|
      invariant Frequencies(df, docs[..k])
    {
      var left := set t | t in docs[k].tokens;
      while left != {}
        invariant left <= set t | t in docs[k].tokens
        invariant Halfway(df, docs[..k], docs[k], left)
      {
        var token :| token in left;
        df := df[token := Get(df, token) + 1];
        left := left - {token};
      }
      assert docs[..k + 1][..k] == docs[..k];
    }
    assert docs[..|docs|] == docs;
  }

  /** An index as it is built. */
  ghost predicate Built(x: Index) {
    && (forall i :: 0 <= i < |x.docs| ==> Counted(x.docs[i].tf, x.docs[i].tokens))
    && Frequencies(x.docFreq, x.docs)
    && x.avgDocLen == AverageLength(x.docs)
  }

  function AverageLength(docs: seq<Doc>): real { if docs == [] then 0.0 else Over(TotalLength(docs) as real, |docs| as real) }

  function TotalLength(docs: seq<Doc>): nat {
    if docs == [] then 0 else TotalLength(docs[..|docs|-1]) + |docs[|docs|-1].tokens|
  }

  method BuildIndex(docs: seq<Doc>) returns (x: Index)
    requires forall i :: 0 <= i < |docs| ==> Counted(docs[i].tf, docs[i].tokens)
    ensures x.docs == docs && Built(x)
  {
    var df := CountDocs(docs);
    var total := 0;
    for k := 0 to |docs|
      invariant total == TotalLength(docs[..k])
    {
      assert docs[..k + 1][..k] == docs[..k];
      total := total + |docs[k].tokens|;
    }
    assert docs[..|docs|] == docs;
    hide Over;
    x := Index(docs, df, if docs == [] then 0.0 else Over(total as real, |docs| as real));
  }

  // ---------- scores ----------

  const K1 := 1.5
  const B := 0.75

  function OrOne(x: real): (r: real)
    ensures r != 0.0
  {
    if x == 0.0 then 1.0 else x
  }

  function MaxZero(x: real): real { if x > 0.0 then x else 0.0 }

  function Idf(n: nat, df: nat): real { MaxZero(Over(n as real - df as real + 0.5, df as real + 0.5)) }

  function Denominator(tf: nat, len: nat, avg: real): real {
    tf as real + Times(K1, 1.0 - B + Times(B, Over(len as real, OrOne(avg))))
  }

  function TokenScore(x: Index, d: Doc, token: string): real {
    var tf := Get(d.tf, token);
    if tf == 0 then 0.0
    else Over(Times(Idf(|x.docs|, Get(x.docFreq, token)), Times(tf as real, K1 + 1.0)),
              OrOne(Denominator(tf, |d.tokens|, x.avgDocLen)))
  }

  function Score(x: Index, d: Doc, query: seq<string>): real {
    if query == [] then 0.0 else Score(x, d, query[..|query|-1]) + TokenScore(x, d, query[|query|-1])
  }

  /** The documents among the first n that contain t. */
  function Containing(docs: seq<Doc>, t: string, n: nat): set<nat>
    requires n <= |docs|
  {
    set i: nat | i < n && t in docs[i].tokens
  }

  lemma {:induction false} DocCountExact(docs: seq<Doc>, t: string)
    ensures DocCount(docs, t) == |Containing(docs, t, |docs|)|
  {
    hide Containing;
    ContainingNext(docs, t);
    if docs != [] { DocCountExact(docs[..|docs|-1], t); }
  }

  lemma ContainingNext(docs: seq<Doc>, t: string)
    ensures docs == [] ==> Containing(docs, t, |docs|) == {}
    ensures docs != [] ==>
              var n := |docs| - 1;
              |Containing(docs, t, |docs|)| == |Containing(docs[..n], t, n)| + if t in docs[n].tokens then 1 else 0
  {
    if docs != [] {
      var n := |docs| - 1;
      var before := Containing(docs, t, n);
      assert Containing(docs[..n], t, n) == before;
      assert Containing(docs, t, n + 1) == if t in docs[n].tokens then before + {n} else before;
    }
  }

  lemma {:induction false} DocCountBounds(docs: seq<Doc>, t: string)
    ensures DocCount(docs, t) <= |docs|
    ensures DocCount(docs, t) > 0 <==> exists i :: 0 <= i < |docs| && t in docs[i].tokens
  {
    if docs != [] {
      var init := docs[..|docs|-1];
      DocCountBounds(init, t);
      assert forall i :: 0 <= i < |init| ==> init[i] == docs[i];
    }
  }

  lemma IdfPositive(n: nat, df: nat)
    requires df <= n
    ensures Idf(n, df) > 0.0
  {
    OverSign(n as real - df as real + 0.5, df as real + 0.5);
  }

  lemma DenominatorPositive(tf: nat, len: nat, avg: real)
    requires tf > 0 && avg >= 0.0
    ensures Denominator(tf, len, avg) > 0.0
  {
    hide Times, Over;
    var q := Over(len as real, OrOne(avg));
    OverSign(len as real, OrOne(avg));
    TimesSigns(B, q);
    TimesSigns(q, B);
    TimesZero(B, q);
    TimesSigns(K1, 1.0 - B + Times(B, q));
  }

  lemma TimesZero(x: real, y: real)
    ensures y == 0.0 ==> Times(x, y) == 0.0
  {
  }

  lemma AverageSign(docs: seq<Doc>)
    ensures AverageLength(docs) >= 0.0
  {
    hide Over;
    if docs != [] { OverSign(TotalLength(docs) as real, |docs| as real); }
  }

  /** A token adds to the score of a document exactly if the document contains it. */
  lemma TokenScoreSign(x: Index, i: nat, token: string)
    requires Built(x) && i < |x.docs|
    ensures TokenScore(x, x.docs[i], token) >= 0.0
    ensures TokenScore(x, x.docs[i], token) > 0.0 <==> token in x.docs[i].tokens
  {
    var d := x.docs[i];
    assert Counted(d.tf, d.tokens);
    var tf := Get(d.tf, token);
    assert tf == multiset(d.tokens)[token];
    if tf > 0 {
      assert Get(x.docFreq, token) == DocCount(x.docs, token);
      DocCountBounds(x.docs, token);
      hide Times, Over, Idf, Denominator, Counted, Frequencies, DocCount;
      var idf := Idf(|x.docs|, Get(x.docFreq, token));
      IdfPositive(|x.docs|, Get(x.docFreq, token));
      TimesSigns(tf as real, K1 + 1.0);
      TimesSigns(idf, Times(tf as real, K1 + 1.0));
      AverageSign(x.docs);
      DenominatorPositive(tf, |d.tokens|, x.avgDocLen);
      OverSign(Times(idf, Times(tf as real, K1 + 1.0)), Denominator(tf, |d.tokens|, x.avgDocLen));
    }
  }

  /** The weight s of a token, as one equation between integers and s: tf occurrences in a document of
      len tokens, df of n documents with it, total tokens in all. */
  predicate WeightIs(s: real, tf: nat, len: nat, df: nat, total: nat, n: nat) {
    s * ((2 * df + 1) * (8 * tf * total + 3 * total + 9 * len * n)) as real == (20 * (2 * n - 2 * df + 1) * tf * total) as real
  }

  predicate RarityIs(idf: real, df: nat, n: nat) { idf * (2 * df + 1) as real == (2 * n - 2 * df + 1) as real }

  predicate LengthIs(den: real, tf: nat, len: nat, total: nat, n: nat) {
    den * (8 * total) as real == (8 * tf * total + 3 * total + 9 * len * n) as real
  }

  predicate QuotientIs(s: real, den: real, idf: real, tf: nat) { s * den == idf * (2.5 * tf as real) }

  /** What a token the document contains adds to its score. */
  lemma TokenScoreExact(x: Index, i: nat, token: string)
    requires Built(x) && i < |x.docs| && token in x.docs[i].tokens
    ensures var d, n, total := x.docs[i], |x.docs|, TotalLength(x.docs);
            var tf, len, df := multiset(d.tokens)[token], |d.tokens|, |Containing(x.docs, token, n)|;
            WeightIs(TokenScore(x, d, token), tf, len, df, total, n)
  {
    var d, n, total := x.docs[i], |x.docs|, TotalLength(x.docs);
    var tf, len, df := multiset(d.tokens)[token], |d.tokens|, |Containing(x.docs, token, n)|;
    hide *;
    TokenFacts(x, i, token);
    IdfExact(n, df);
    DenominatorExact(tf, len, total, n);
    DenominatorPositive(tf, len, x.avgDocLen);
    TokenScoreIs(x, d, token, tf, df);
    WeightExact(TokenScore(x, d, token), Idf(n, df), Denominator(tf, len, x.avgDocLen), tf, len, df, total, n);
  }

  lemma TokenFacts(x: Index, i: nat, token: string)
    requires Built(x) && i < |x.docs| && token in x.docs[i].tokens
    ensures var d, n := x.docs[i], |x.docs|;
            && Get(d.tf, token) == multiset(d.tokens)[token] > 0 && Get(x.docFreq, token) == |Containing(x.docs, token, n)| <= n
            && TotalLength(x.docs) > 0 && x.avgDocLen == Over(TotalLength(x.docs) as real, n as real) && x.avgDocLen >= 0.0
  {
    hide Over, TotalLength, DocCount;
    assert Counted(x.docs[i].tf, x.docs[i].tokens);
    assert Get(x.docFreq, token) == DocCount(x.docs, token);
    DocCountExact(x.docs, token);
    DocCountBounds(x.docs, token);
    LengthAtLeast(x.docs, i);
    AverageSign(x.docs);
  }

  lemma {:induction false} LengthAtLeast(docs: seq<Doc>, i: nat)
    requires i < |docs|
    ensures TotalLength(docs) >= |docs[i].tokens|
  {
    if i < |docs| - 1 { LengthAtLeast(docs[..|docs|-1], i); }
  }

  lemma IdfExact(n: nat, df: nat)
    requires df <= n
    ensures RarityIs(Idf(n, df), df, n)
  {
    var a, b := n as real - df as real + 0.5, df as real + 0.5;
    OverTimes(a, b);
    OverSign(a, b);
    assert b * Over(a, b) == a;
    hide Over;
    DoubleExact(Over(a, b), df, n);
  }

  lemma DoubleExact(q: real, df: nat, n: nat)
    requires (df as real + 0.5) * q == n as real - df as real + 0.5
    ensures q * (2 * df + 1) as real == (2 * n - 2 * df + 1) as real
  {
    var b := df as real + 0.5;
    assert (2 * df + 1) as real == 2.0 * b;
    assert q * (2.0 * b) == 2.0 * (b * q);
  }

  lemma DenominatorExact(tf: nat, len: nat, total: nat, n: nat)
    requires n > 0 && total > 0
    ensures var avg := Over(total as real, n as real);
            LengthIs(Denominator(tf, len, avg), tf, len, total, n)
  {
    var avg := Over(total as real, n as real);
    OverSign(total as real, n as real);
    hide Over;
    var q := Over(len as real, avg);
    assert q * total as real == (len * n) as real by { RatioExact(len, total, n); }
    assert Denominator(tf, len, avg) == tf as real + 1.5 * (0.25 + 0.75 * q);
    hide Denominator;
    SumExact(tf, q, total, len * n);
  }

  lemma RatioExact(len: nat, total: nat, n: nat)
    requires n > 0 && total > 0
    ensures var avg := Over(total as real, n as real); avg != 0.0 && Over(len as real, avg) * total as real == (len * n) as real
  {
    var t, m, avg := total as real, n as real, Over(total as real, n as real);
    OverSign(t, m);
    OverTimes(t, m);
    OverTimes(len as real, avg);
    hide Over;
    var q := Over(len as real, avg);
    assert t == m * avg && avg * q == len as real;
    assert q * (m * avg) == m * (avg * q);
    assert m * len as real == (len * n) as real;
  }

  lemma SumExact(tf: nat, q: real, total: nat, product: nat)
    requires q * total as real == product as real
    ensures (tf as real + 1.5 * (0.25 + 0.75 * q)) * (8 * total) as real == (8 * tf * total + 3 * total + 9 * product) as real
  {
    var t, f := total as real, tf as real;
    assert (tf * total) as real == f * t;
    assert (f + 1.5 * (0.25 + 0.75 * q)) * (8.0 * t) == 8.0 * (f * t) + 3.0 * t + 9.0 * (q * t);
  }

  lemma TokenScoreIs(x: Index, d: Doc, token: string, tf: nat, df: nat)
    requires Get(d.tf, token) == tf > 0 && Get(x.docFreq, token) == df && Denominator(tf, |d.tokens|, x.avgDocLen) > 0.0
    ensures QuotientIs(TokenScore(x, d, token), Denominator(tf, |d.tokens|, x.avgDocLen), Idf(|x.docs|, df), tf)
  {
    hide Idf, Denominator;
    OverTimes(Times(Idf(|x.docs|, df), Times(tf as real, K1 + 1.0)), Denominator(tf, |d.tokens|, x.avgDocLen));
  }

  lemma WeightExact(s: real, idf: real, den: real, tf: nat, len: nat, df: nat, total: nat, n: nat)
    requires df <= n && QuotientIs(s, den, idf, tf) && RarityIs(idf, df, n) && LengthIs(den, tf, len, total, n)
    ensures WeightIs(s, tf, len, df, total, n)
  {
    var a, b, e := (2 * df + 1) as real, (8 * total) as real, (2 * n - 2 * df + 1) as real;
    var right := 8 * tf * total + 3 * total + 9 * len * n;
    assert ((2 * df + 1) * right) as real == a * (den * b) by { Product(2 * df + 1, right); }
    assert s * (a * (den * b)) == (s * den) * (a * b);
    assert (idf * (2.5 * tf as real)) * (a * b) == (idf * a) * (2.5 * tf as real * b);
    assert e * (2.5 * tf as real * b) == (20 * (2 * n - 2 * df + 1) * tf * total) as real by {
      Product(tf, total);
      Product(2 * n - 2 * df + 1, tf * total);
      assert 2.5 * tf as real * b == 20.0 * (tf as real * total as real);
    }
  }

  lemma Product(a: nat, b: nat)
    ensures (a * b) as real == a as real * b as real
  {
  }

  predicate Shares(d: Doc, query: seq<string>) { exists k :: 0 <= k < |query| && query[k] in d.tokens }

  /** The score of a document is positive exactly if it shares a token with the query. */
  lemma {:induction false} ScorePositive(x: Index, i: nat, query: seq<string>)
    requires Built(x) && i < |x.docs|
    ensures Score(x, x.docs[i], query) >= 0.0
    ensures Score(x, x.docs[i], query) > 0.0 <==> Shares(x.docs[i], query)
  {
    if query != [] {
      var n := |query| - 1;
      hide Built, TokenScore;
      ScorePositive(x, i, query[..n]);
      TokenScoreSign(x, i, query[n]);
      assert Shares(x.docs[i], query) <==> Shares(x.docs[i], query[..n]) || query[n] in x.docs[i].tokens by {
        assert forall k :: 0 <= k < n ==> query[..n][k] == query[k];
      }
    }
  }

  /** What each token of the query adds. */
  function TokenScores(x: Index, d: Doc, query: seq<string>): (r: seq<real>)
    ensures |r| == |query| && forall k :: 0 <= k < |r| ==> r[k] == TokenScore(x, d, query[k])
  {
    seq(|query|, k requires 0 <= k < |query| => TokenScore(x, d, query[k]))
  }

  /** The score is the sum over the tokens of the query, each as often as it occurs there. */
  lemma {:induction false} ScoreIsSum(x: Index, d: Doc, query: seq<string>)
    ensures Score(x, d, query) == Sum(TokenScores(x, d, query))
  {
    hide TokenScore;
    if query != [] {
      var n := |query| - 1;
      ScoreIsSum(x, d, query[..n]);
      assert TokenScores(x, d, query)[..n] == TokenScores(x, d, query[..n]);
    }
  }

  // ---------- ranking ----------

  /** A document, by its position, and its score. */
  datatype Hit = Hit(doc: nat, score: real)

  /** Descending scores, and equal scores in document order. */
  predicate Ordered(hs: seq<Hit>) {
    forall i, j :: 0 <= i < j < |hs| ==> hs[i].score > hs[j].score || (hs[i].score == hs[j].score && hs[i].doc < hs[j].doc)
  }

  /** The position behind all hits at the front that score at least as much. */
  function Place(hs: seq<Hit>, h: Hit): (p: nat)
    ensures p <= |hs| && (forall i :: 0 <= i < p ==> hs[i].score >= h.score) && (p < |hs| ==> hs[p].score < h.score)
  {
    if hs == [] || hs[0].score < h.score then 0 else 1 + Place(hs[1..], h)
  }

  function Insert(hs: seq<Hit>, h: Hit): seq<Hit> {
    var p := Place(hs, h);
    hs[..p] + [h] + hs[p..]
  }

  /** `sort(key=score, reverse=True)`, which keeps the order of equal scores. */
  function Ranked(hs: seq<Hit>): seq<Hit> {
    if hs == [] then [] else Insert(Ranked(hs[..|hs|-1]), hs[|hs|-1])
  }

  lemma InsertOrders(hs: seq<Hit>, h: Hit)
    requires Ordered(hs) && forall i :: 0 <= i < |hs| ==> hs[i].doc < h.doc
    ensures Ordered(Insert(hs, h))
  {
    hide Place;
  }

  lemma InsertKeeps(hs: seq<Hit>, h: Hit)
    ensures multiset(Insert(hs, h)) == multiset(hs) + multiset{h}
  {
    hide Place;
    var p := Place(hs, h);
    assert hs == hs[..p] + hs[p..];
  }

  lemma {:induction false} RankedKeeps(hs: seq<Hit>)
    ensures multiset(Ranked(hs)) == multiset(hs)
  {
    if hs != [] {
      RankedKeeps(hs[..|hs|-1]);
      InsertKeeps(Ranked(hs[..|hs|-1]), hs[|hs|-1]);
      assert hs == hs[..|hs|-1] + [hs[|hs|-1]];
    }
  }

  lemma {:induction false} RankedOrders(hs: seq<Hit>, n: nat)
    requires Ascending(hs, n)
    ensures Ordered(Ranked(hs))
  {
    if hs != [] {
      var init, last := hs[..|hs|-1], hs[|hs|-1];
      RankedOrders(init, n);
      RankedKeeps(init);
      var r := Ranked(init);
      forall i | 0 <= i < |r| ensures r[i].doc < last.doc {
        assert r[i] in multiset(init);
        var k :| 0 <= k < |init| && init[k] == r[i];
      }
      hide Ordered, Insert;
      InsertOrders(r, last);
    }
  }

  /** `hits[:topk]`, which counts from the end for a negative bound. */
  function Top<T>(hs: seq<T>, topk: int): seq<T> {
    if topk >= 0 then (if topk <= |hs| then hs[..topk] else hs) else if |hs| + topk >= 0 then hs[..|hs| + topk] else []
  }

  /** The documents with a positive score among the first n. */
  function Scored(x: Index, query: seq<string>, n: nat): seq<Hit>
    requires n <= |x.docs|
  {
    if n == 0 then []
    else
      var s := Score(x, x.docs[n - 1], query);
      Scored(x, query, n - 1) + if s > 0.0 then [Hit(n - 1, s)] else []
  }

  /** What a search returns. */
  function Hits(x: Index, query: seq<string>, topk: int): seq<Hit> {
    if query == [] then [] else Top(Ranked(Scored(x, query, |x.docs|)), topk)
  }

  method SearchText(x: Index, query: seq<string>, topk: int) returns (hits: seq<Hit>)
    ensures hits == Hits(x, query, topk)
  {
    if query == [] { return []; }
    var scored: seq<Hit> := [];
    for i := 0 to |x.docs|
      invariant scored == Scored(x, query, i)
    {
      var score := 0.0;
      for k := 0 to |query|
        invariant score == Score(x, x.docs[i], query[..k])
      {
        assert query[..k + 1][..k] == query[..k];
        score := score + TokenScore(x, x.docs[i], query[k]);
      }
      assert query[..|query|] == query;
      if score > 0.0 { scored := scored + [Hit(i, score)]; }
    }
    return Top(Ranked(scored), topk);
  }

  lemma {:induction false} ScoredMember(x: Index, query: seq<string>, n: nat, h: Hit)
    requires n <= |x.docs|
    ensures h in Scored(x, query, n) <==> h.doc < n && h.score == Score(x, x.docs[h.doc], query) && h.score > 0.0
  {
    if n > 0 { ScoredMember(x, query, n - 1, h); }
  }

  predicate Ascending(hs: seq<Hit>, n: nat) {
    (forall i :: 0 <= i < |hs| ==> hs[i].doc < n) && forall i, j :: 0 <= i < j < |hs| ==> hs[i].doc < hs[j].doc
  }

  lemma {:induction false} ScoredAscending(x: Index, query: seq<string>, n: nat)
    requires n <= |x.docs|
    ensures Ascending(Scored(x, query, n), n)
  {
    if n > 0 {
      hide Score;
      ScoredAscending(x, query, n - 1);
      AscendingNext(Scored(x, query, n - 1), n - 1, Score(x, x.docs[n - 1], query));
    }
  }

  lemma AscendingNext(hs: seq<Hit>, n: nat, s: real)
    requires Ascending(hs, n)
    ensures Ascending(hs + [Hit(n, s)], n + 1) && Ascending(hs, n + 1) && hs + [] == hs
  {
  }

  lemma TopBest(hs: seq<Hit>, topk: int, h: Hit)
    requires Ordered(hs)
    ensures var top := Top(hs, topk);
            && Ordered(top) && (h in top ==> h in hs)
            && (h in hs && h !in top ==> Beats(top, h) && (topk >= 0 ==> |top| == topk))
  {
    var top := Top(hs, topk);
    assert top <= hs;
    assert forall m :: 0 <= m < |top| ==> top[m] == hs[m] && top[m] in top;
    if h in hs && h !in top { var k :| 0 <= k < |hs| && hs[k] == h; }
  }

  predicate Beats(hs: seq<Hit>, h: Hit) { forall i :: 0 <= i < |hs| ==> hs[i].score >= h.score }

  /** The hits are in descending order, equal scores in document order; each is a document that shares a
      token; and a document that shares a token but is missing scores no more than any hit. With a
      bound that is not negative none is missing before it is reached. */
  lemma SearchBest(x: Index, query: seq<string>, topk: int, h: Hit)
    requires Built(x) && query != [] && h.doc < |x.docs| && h.score == Score(x, x.docs[h.doc], query)
    ensures var hits, shares := Hits(x, query, topk), Shares(x.docs[h.doc], query);
            && Ordered(hits) && (h in hits ==> shares)
            && (shares && h !in hits ==> Beats(hits, h) && (topk >= 0 ==> |hits| == topk))
  {
    hide *;
    var all := Scored(x, query, |x.docs|);
    ScoredMember(x, query, |x.docs|, h);
    ScoredAscending(x, query, |x.docs|);
    ScorePositive(x, h.doc, query);
    RankedOrders(all, |x.docs|);
    RankedKeeps(all);
    SameMembers(all, Ranked(all), h);
    TopBest(Ranked(all), topk, h);
    HitsAre(x, query, topk);
  }

  lemma HitsAre(x: Index, query: seq<string>, topk: int)
    requires query != []
    ensures Hits(x, query, topk) == Top(Ranked(Scored(x, query, |x.docs|)), topk)
  {
    hide Top, Ranked, Scored;
  }

  /** The documents among the first n that share a token with the query. */
  function Sharing(x: Index, query: seq<string>, n: nat): set<nat>
    requires n <= |x.docs|
  {
    set i: nat | i < n && Shares(x.docs[i], query)
  }

  lemma {:induction false} ScoredCount(x: Index, query: seq<string>, n: nat)
    requires Built(x) && n <= |x.docs|
    ensures |Scored(x, query, n)| == |Sharing(x, query, n)|
  {
    hide Built, Score, Shares, Sharing;
    SharingNext(x, query, n);
    if n > 0 {
      ScoredCount(x, query, n - 1);
      ScorePositive(x, n - 1, query);
    }
  }

  lemma SharingNext(x: Index, query: seq<string>, n: nat)
    requires n <= |x.docs|
    ensures n == 0 ==> Sharing(x, query, n) == {}
    ensures n > 0 ==> |Sharing(x, query, n)| == |Sharing(x, query, n - 1)| + if Shares(x.docs[n - 1], query) then 1 else 0
  {
    hide Shares;
    if n > 0 {
      var before := Sharing(x, query, n - 1);
      assert Sharing(x, query, n) == if Shares(x.docs[n - 1], query) then before + {n - 1} else before;
    }
  }

  /** The number of hits: as many as asked for, if so many documents share a token; counted from the end
      for a negative bound. */
  lemma SearchCount(x: Index, query: seq<string>, topk: int)
    requires Built(x)
    ensures var hits, n := |Hits(x, query, topk)|, |Sharing(x, query, |x.docs|)|;
            hits == if topk >= 0 then (if topk <= n then topk else n) else if n + topk >= 0 then n + topk else 0
  {
    hide *;
    if query == [] {
      NothingShared(x, topk);
    } else {
      var all := Scored(x, query, |x.docs|);
      ScoredCount(x, query, |x.docs|);
      RankedLength(all);
      TopLength(Ranked(all), topk);
      HitsAre(x, query, topk);
    }
  }

  lemma NothingShared(x: Index, topk: int)
    ensures Hits(x, [], topk) == [] && Sharing(x, [], |x.docs|) == {}
  {
  }

  lemma RankedLength(hs: seq<Hit>)
    ensures |Ranked(hs)| == |hs|
  {
    RankedKeeps(hs);
    assert |Ranked(hs)| == |multiset(Ranked(hs))| == |multiset(hs)| == |hs|;
  }

  lemma TopLength(hs: seq<Hit>, topk: int)
    ensures var n := |hs|;
            |Top(hs, topk)| == if topk >= 0 then (if topk <= n then topk else n) else if n + topk >= 0 then n + topk else 0
  {
  }

  lemma SameMembers(a: seq<Hit>, b: seq<Hit>, h: Hit)
    requires multiset(a) == multiset(b)
    ensures h in a <==> h in b
  {
    assert h in a <==> h in multiset(a);
    assert h in b <==> h in multiset(b);
  }
}
