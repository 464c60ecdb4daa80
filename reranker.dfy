/** The result reranker (aurora_mcp/services/reranker.py): the model answers
    with 1-based document numbers separated by commas; the named documents
    come first in that order, every other document follows in its original
    order, and the list is cut to `top_k`. The prompt is not modelled. */
module Reranker {
  import opened Text
  import opened Llm

  /** `content.replace("\n", " ").split(",")`. */
  function Tokens(reply: string): (r: seq<string>)
    ensures forall k :: 0 <= k < |r| ==> ',' !in r[k]
    ensures Join(",", r) == Replace(reply, '\n', ' ')
  {
    JoinSplit(Replace(reply, '\n', ' '), ',');
    Split(Replace(reply, '\n', ' '), ',')
  }

  /** The 0-based indices the tokens name, in order: a stripped all-digit
      token `n` stands for the index `n - 1`; any other token names nothing. */
  function RankingOf(tokens: seq<string>): (r: seq<int>)
    ensures |r| <= |tokens|
    ensures forall k :: 0 <= k < |r| ==> r[k] >= -1
  {
    if tokens == [] then []
    else
      var tok := Strip(tokens[|tokens| - 1]);
      var init := RankingOf(tokens[..|tokens| - 1]);
      if IsDigits(tok) then init + [DigitsValue(tok) - 1] else init
  }

  lemma RankingOfPrefix(tokens: seq<string>, i: nat)
    requires i < |tokens|
    ensures tokens[..i + 1][..i] == tokens[..i]
    ensures tokens[..i + 1][i] == tokens[i]
  {
  }

  lemma RankingOfSnoc(tokens: seq<string>, token: string)
    ensures (tokens + [token])[..|tokens|] == tokens
  {
  }

  /** The loop at lines 84-88, appending to `ranking` one token at a time. */
  method ParseRanking(reply: string) returns (ranking: seq<int>)
    ensures ranking == RankingOf(Tokens(reply))
  {
    var tokens := Split(Replace(reply, '\n', ' '), ',');
    ranking := [];
    var i := 0;
    while i < |tokens|
      invariant 0 <= i <= |tokens|
      invariant ranking == RankingOf(tokens[..i])
    {
      RankingOfPrefix(tokens, i);
      var tok := Strip(tokens[i]);
      if IsDigits(tok) {
        ranking := ranking + [DigitsValue(tok) - 1];
      }
      i := i + 1;
    }
    assert tokens[..i] == tokens;
  }

  /** A ranking written the way the prompt asks ("3,1,2") is read back exactly. */
  lemma {:induction false} FormattedRankingParsed(indices: seq<nat>)
    ensures RankingOf(Tokens(Join(",", Numbers(indices)))) == indices
  {
    var parts := Numbers(indices);
    var text := Join(",", parts);
    forall k | 0 <= k < |parts| ensures ',' !in parts[k] && '\n' !in parts[k] {
      NumbersAreDigits(indices, k);
      assert forall j :: 0 <= j < |parts[k]| ==> IsDigit(parts[k][j]);
    }
    JoinNoChar(",", parts, '\n');
    ReplaceAbsent(text, '\n', ' ');
    if parts == [] {
      assert Tokens(text) == [[]];
    } else {
      SplitJoin(parts, ',');
      NumbersParsed(indices);
    }
  }

  /** The 1-based numbers of the given indices, as text. */
  function Numbers(indices: seq<nat>): (r: seq<string>)
    ensures |r| == |indices|
  {
    if indices == [] then [] else Numbers(indices[..|indices| - 1]) + [NatToString(indices[|indices| - 1] + 1)]
  }

  lemma {:induction false} NumbersAreDigits(indices: seq<nat>, k: int)
    requires 0 <= k < |indices|
    ensures IsDigits(Numbers(indices)[k])
  {
    if k < |indices| - 1 {
      var init := indices[..|indices| - 1];
      NumbersAreDigits(init, k);
      assert Numbers(indices)[k] == Numbers(init)[k];
    }
  }

  lemma {:induction false} NumbersParsed(indices: seq<nat>)
    ensures RankingOf(Numbers(indices)) == indices
  {
    if indices != [] {
      var n := |indices|;
      var init := indices[..n - 1];
      var last := NatToString(indices[n - 1] + 1);
      assert Numbers(indices) == Numbers(init) + [last];
      NumbersParsed(init);
      assert RankingOf(Numbers(indices)) == init + [DigitsValue(last) - 1] by {
        DigitTokenParsed(Numbers(init), last);
      }
      assert DigitsValue(last) - 1 == indices[n - 1] by {
        NatToStringRoundTrip(indices[n - 1] + 1);
      }
      LastSplit(indices);
    }
  }

  lemma LastSplit<T>(s: seq<T>)
    requires s != []
    ensures s == s[..|s| - 1] + [s[|s| - 1]]
  {
  }

  /** A token of digits, with or without surrounding blanks, adds its number minus one. */
  lemma DigitTokenParsed(tokens: seq<string>, tok: string)
    requires IsDigits(tok)
    ensures RankingOf(tokens + [tok]) == RankingOf(tokens) + [DigitsValue(tok) - 1]
  {
    DigitsTrimmed(tok);
    StripTrimmed(tok);
    RankingOfSnoc(tokens, tok);
  }

  lemma DigitsTrimmed(tok: string)
    requires IsDigits(tok)
    ensures IsTrimmed(tok)
  {
    assert IsDigit(tok[0]) && IsDigit(tok[|tok| - 1]);
  }

  /** `[i for i in ranking if 0 <= i < n]`: the named indices that exist, in
      reply order, repeats kept. */
  function Named(ranking: seq<int>, n: nat): (r: seq<int>)
    ensures |r| <= |ranking|
    ensures forall k :: 0 <= k < |r| ==> 0 <= r[k] < n
  {
    if ranking == [] then []
    else (if 0 <= ranking[0] < n then [ranking[0]] else []) + Named(ranking[1..], n)
  }

  /** `[idx for idx in range(lo, n) if idx not in ranking]`, in ascending order. */
  function Unnamed(ranking: seq<int>, lo: nat, n: nat): (r: seq<int>)
    ensures forall k :: 0 <= k < |r| ==> lo <= r[k] < n
    decreases n - lo
  {
    if lo >= n then []
    else (if lo in ranking then [] else [lo]) + Unnamed(ranking, lo + 1, n)
  }

  /** The remaining documents keep their original order. */
  lemma {:induction false} UnnamedAscending(ranking: seq<int>, lo: nat, n: nat)
    ensures forall k, l :: 0 <= k < l < |Unnamed(ranking, lo, n)| ==>
      Unnamed(ranking, lo, n)[k] < Unnamed(ranking, lo, n)[l]
    decreases n - lo
  {
    if lo < n {
      UnnamedAscending(ranking, lo + 1, n);
    }
  }

  /** The indices of the reranked list before truncation. */
  function Order(ranking: seq<int>, n: nat): (r: seq<int>)
    ensures forall k :: 0 <= k < |r| ==> 0 <= r[k] < n
  {
    Named(ranking, n) + Unnamed(ranking, 0, n)
  }

  /** `s[:k]`, where a negative `k` counts from the end. */
  function SliceTo<T>(s: seq<T>, k: int): (r: seq<T>)
    ensures k >= 0 ==> |r| == if k < |s| then k else |s|
    ensures k < 0 ==> |r| == if |s| + k > 0 then |s| + k else 0
    ensures r == s[..|r|]
  {
    if k >= 0 then (if k < |s| then s[..k] else s)
    else if |s| + k > 0 then s[..|s| + k] else []
  }

  function Pick<T>(documents: seq<T>, indices: seq<int>): (r: seq<T>)
    requires forall k :: 0 <= k < |indices| ==> 0 <= indices[k] < |documents|
    ensures |r| == |indices|
    ensures forall k :: 0 <= k < |r| ==> r[k] == documents[indices[k]]
  {
    if indices == [] then [] else [documents[indices[0]]] + Pick(documents, indices[1..])
  }

  lemma PickConcat<T>(documents: seq<T>, a: seq<int>, b: seq<int>)
    requires forall k :: 0 <= k < |a| ==> 0 <= a[k] < |documents|
    requires forall k :: 0 <= k < |b| ==> 0 <= b[k] < |documents|
    ensures Pick(documents, a + b) == Pick(documents, a) + Pick(documents, b)
  {
  }

  /** The list `rerank` returns once the reply has been parsed into `ranking`. */
  function Reordered<T>(documents: seq<T>, ranking: seq<int>, topK: int): (r: seq<T>)
    ensures |r| <= |Order(ranking, |documents|)|
    ensures forall k :: 0 <= k < |r| ==> r[k] == documents[Order(ranking, |documents|)[k]]
  {
    SliceTo(Pick(documents, Order(ranking, |documents|)), topK)
  }

  /** `rerank(query, documents, top_k)`, with `reply` the outcome of the
      completion call; `None` stands for the exception the call (or reading
      `choices[0]` of an empty response) raises to the caller. */
  method Rerank<T>(documents: seq<T>, topK: int, reply: Completion) returns (r: Option<seq<T>>, calledModel: bool)
    ensures documents == [] ==> r == Some([]) && !calledModel
    ensures documents != [] ==> calledModel
    ensures documents != [] && !reply.Reply? ==> r == None
    ensures documents != [] && reply.Reply? ==>
      r == Some(Reordered(documents, RankingOf(Tokens(ReplyText(reply))), topK))
  {
    if documents == [] {
      return Some([]), false;
    }
    calledModel := true;
    if !reply.Reply? {
      return None, calledModel;
    }
    var ranking := ParseRanking(ReplyText(reply));
    var reranked := Pick(documents, Named(ranking, |documents|));
    var remaining := Pick(documents, Unnamed(ranking, 0, |documents|));
    reranked := reranked + remaining;
    PickConcat(documents, Named(ranking, |documents|), Unnamed(ranking, 0, |documents|));
    r := Some(SliceTo(reranked, topK));
  }

  lemma {:induction false} NamedHas(ranking: seq<int>, n: nat, j: int)
    requires 0 <= j < n && j in ranking
    ensures j in Named(ranking, n)
  {
    if ranking[0] != j {
      NamedHas(ranking[1..], n, j);
    }
  }

  lemma {:induction false} UnnamedHas(ranking: seq<int>, lo: nat, n: nat, j: int)
    requires lo <= j < n && j !in ranking
    ensures j in Unnamed(ranking, lo, n)
    decreases n - lo
  {
    if lo < j {
      UnnamedHas(ranking, lo + 1, n, j);
    }
  }

  /** Every document index appears in the reranked order: the named ones
      through the reply, the others among the remaining. */
  lemma OrderCoversAll(ranking: seq<int>, n: nat, j: int)
    requires 0 <= j < n
    ensures j in Order(ranking, n)
  {
    if j in ranking {
      NamedHas(ranking, n, j);
    } else {
      UnnamedHas(ranking, 0, n, j);
    }
  }

  predicate NoDuplicates(s: seq<int>) {
    forall k, l :: 0 <= k < l < |s| ==> s[k] != s[l]
  }

  /** `[0, 1, ..., n - 1]`. */
  function Range(n: nat): (r: seq<int>)
    ensures |r| == n
  {
    if n == 0 then [] else Range(n - 1) + [n - 1]
  }

  lemma {:induction false} RangeCount(n: nat, j: int)
    ensures multiset(Range(n))[j] == if 0 <= j < n then 1 else 0
  {
    if n > 0 {
      RangeCount(n - 1, j);
      assert multiset(Range(n)) == multiset(Range(n - 1)) + multiset([n - 1]);
    }
  }

  lemma {:induction false} NamedCount(ranking: seq<int>, n: nat, j: int)
    ensures multiset(Named(ranking, n))[j] == if 0 <= j < n then multiset(ranking)[j] else 0
  {
    if ranking != [] {
      NamedCount(ranking[1..], n, j);
      var head: seq<int> := if 0 <= ranking[0] < n then [ranking[0]] else [];
      assert Named(ranking, n) == head + Named(ranking[1..], n);
      assert multiset(Named(ranking, n)) == multiset(head) + multiset(Named(ranking[1..], n));
      assert multiset(ranking) == multiset{ranking[0]} + multiset(ranking[1..]) by {
        assert ranking == [ranking[0]] + ranking[1..];
      }
    }
  }

  lemma {:induction false} UnnamedCount(ranking: seq<int>, lo: nat, n: nat, j: int)
    ensures multiset(Unnamed(ranking, lo, n))[j] == if lo <= j < n && j !in ranking then 1 else 0
    decreases n - lo
  {
    if lo < n {
      UnnamedCount(ranking, lo + 1, n, j);
      var head: seq<int> := if lo in ranking then [] else [lo];
      assert Unnamed(ranking, lo, n) == head + Unnamed(ranking, lo + 1, n);
      assert multiset(Unnamed(ranking, lo, n)) == multiset(head) + multiset(Unnamed(ranking, lo + 1, n));
    }
  }

  lemma {:induction false} DistinctCount(s: seq<int>, x: int)
    requires NoDuplicates(s)
    ensures multiset(s)[x] == if x in s then 1 else 0
  {
    if s != [] {
      DistinctCount(s[1..], x);
      assert s == [s[0]] + s[1..];
      assert multiset(s) == multiset{s[0]} + multiset(s[1..]);
      assert s[0] !in s[1..];
    }
  }

  /** When the reply names no index twice, the reranked order (before
      truncation) is a permutation of all document indices. */
  lemma OrderIsPermutation(ranking: seq<int>, n: nat)
    requires NoDuplicates(ranking)
    ensures multiset(Order(ranking, n)) == multiset(Range(n))
  {
    var a, b := multiset(Order(ranking, n)), multiset(Range(n));
    forall j: int
      ensures a[j] == b[j]
    {
      NamedCount(ranking, n, j);
      UnnamedCount(ranking, 0, n, j);
      DistinctCount(ranking, j);
      RangeCount(n, j);
    }
  }

  /** What `rerank` returns: only input documents; at most `top_k` of them
      when `top_k` is not negative (a negative `top_k` drops that many from
      the end); and no document is lost except by the final cut. */
  lemma RerankedShape<T>(documents: seq<T>, ranking: seq<int>, topK: int)
    ensures forall x :: x in Reordered(documents, ranking, topK) ==> x in documents
    ensures topK >= 0 ==> |Reordered(documents, ranking, topK)| <= topK
    ensures topK >= |Order(ranking, |documents|)| ==>
      forall j :: 0 <= j < |documents| ==> documents[j] in Reordered(documents, ranking, topK)
  {
    var order := Order(ranking, |documents|);
    var full := Pick(documents, order);
    var r := Reordered(documents, ranking, topK);
    forall x | x in r ensures x in documents {
      var k :| 0 <= k < |r| && r[k] == x;
      assert full[k] == documents[order[k]];
    }
    if topK >= |order| {
      forall j | 0 <= j < |documents| ensures documents[j] in r {
        OrderCoversAll(ranking, |documents|, j);
        var k :| 0 <= k < |order| && order[k] == j;
        assert r[k] == documents[j];
      }
    }
  }

  /** The test's example: the reply "2,1" (the ranking [1, 0], as
      `FormattedRankingParsed` shows for any reply in that format) on
      documents [a, b] with top_k 2 gives [b, a]. */
  lemma SwapExample<T>(a: T, b: T)
    ensures Reordered([a, b], [1, 0], 2) == [b, a]
  {
    SwapOrder();
    var picked := Pick([a, b], [1, 0]);
    assert picked == [b, a];
    assert SliceTo(picked, 2) == picked;
  }

  lemma SwapOrder()
    ensures Order([1, 0], 2) == [1, 0]
  {
    assert Named([1, 0], 2) == [1, 0];
    assert Unnamed([1, 0], 0, 2) == [];
  }
}
