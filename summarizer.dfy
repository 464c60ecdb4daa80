/** The summarization service (aurora_mcp/services/summarizer.py): a
    completion is checked and normalised into a brief summary, and accepted
    summaries are memoised in a cache shared by all Summarizer objects. */
module Summarizer {
  import opened Text
  import opened Llm

  /** Validation 3: a stripped reply shorter than this is rejected. */
  const MinSummaryLength: nat := 50
  /** A reply longer than this is truncated to this many characters ... */
  const MaxSummaryLength: nat := 1000
  /** ... followed by this marker. */
  const TruncationMarker: string := "..."
  /** A reply with more newlines than this is collapsed onto one line. */
  const MaxNewlines: nat := 5

  /** What every summary the service returns or keeps in its cache looks like. */
  predicate IsServedSummary(s: string) {
    s != [] && |s| <= MaxSummaryLength + |TruncationMarker| && Count(s, '\n') <= MaxNewlines
  }

  /** Validations 1-3, applied to the stripped reply before any rewriting. */
  predicate PassesChecks(content: string, summary: string) {
    summary != [] && |summary| < |content| && |summary| >= MinSummaryLength
  }

  /** `summary[:1000] + "..."` when the summary is too long. */
  function Truncate(s: string): string {
    if |s| > MaxSummaryLength then s[..MaxSummaryLength] + TruncationMarker else s
  }

  /** `line.strip() for line in lines if line.strip()`. */
  function CleanLines(lines: seq<string>): (r: seq<string>)
    ensures forall i :: 0 <= i < |r| ==> r[i] != [] && IsTrimmed(r[i])
    ensures SumLengths(r) + |r| <= SumLengths(lines) + |lines|
  {
    if lines == [] then []
    else
      var l := Strip(lines[0]);
      var rest := CleanLines(lines[1..]);
      if l != [] then
        assert ([l] + rest)[1..] == rest;
        [l] + rest
      else rest
  }

  lemma {:induction false} CleanLinesLack(lines: seq<string>, c: char)
    requires forall i :: 0 <= i < |lines| ==> c !in lines[i]
    ensures forall i :: 0 <= i < |CleanLines(lines)| ==> c !in CleanLines(lines)[i]
  {
    if lines != [] {
      CleanLinesLack(lines[1..], c);
      StripLacks(lines[0], c);
      var l := Strip(lines[0]);
      var rest := CleanLines(lines[1..]);
      if l != [] {
        assert CleanLines(lines) == [l] + rest;
      }
    }
  }

  /** `" ".join(line.strip() for line in s.split("\n") if line.strip())`. */
  function CollapseLines(s: string): string {
    Join(" ", CleanLines(Split(s, '\n')))
  }

  /** The rewriting chain applied to an accepted reply: truncate, then
      collapse the lines if there are still too many newlines. */
  function Normalize(s: string): (r: string)
    ensures s != [] && IsTrimmed(s) ==> IsServedSummary(r)
  {
    var t := Truncate(s);
    assert s != [] ==> t[0] == s[0];
    if Count(t, '\n') <= MaxNewlines then t
    else if t != [] && !IsSpace(t[0]) then
      CollapseShape(t);
      CollapseLines(t)
    else CollapseLines(t)
  }

  /** The reply as `summarize` turns it into its result on a cache miss. */
  function ValidateSummary(content: string, reply: Completion): (r: Option<string>)
    ensures r.Some? <==> reply.Reply? && PassesChecks(content, Strip(ReplyText(reply)))
    ensures r.Some? ==> IsServedSummary(r.value)
  {
    if !reply.Reply? then None
    else
      var s := Strip(ReplyText(reply));
      if !PassesChecks(content, s) then None
      else Some(Normalize(s))
  }

  /** Collapsing a text that starts with a visible character yields a
      non-empty single line no longer than the text. */
  lemma CollapseShape(t: string)
    requires t != [] && !IsSpace(t[0])
    ensures CollapseLines(t) != []
    ensures '\n' !in CollapseLines(t)
    ensures |CollapseLines(t)| <= |t|
  {
    var lines := Split(t, '\n');
    var clean := CleanLines(lines);
    JoinSplit(t, '\n');
    JoinLength("\n", lines);
    JoinLength(" ", clean);
    CleanLinesLack(lines, '\n');
    JoinNoChar(" ", clean, '\n');
    // The first line starts with t[0], so it survives the cleaning.
    var rest := Split(t[1..], '\n');
    assert lines == [[t[0]] + rest[0]] + rest[1..];
    assert lines[0][0] == t[0];
    assert !IsBlank(lines[0]);
    assert clean == [Strip(lines[0])] + CleanLines(lines[1..]);
    assert SumLengths(clean) >= |clean[0]| > 0;
  }

  /** A reply of at most 1000 characters and at most five newlines is served
      exactly as the model wrote it (after stripping). */
  lemma ShortTidyReplyKept(content: string, text: string)
    requires PassesChecks(content, Strip(text))
    requires |Strip(text)| <= MaxSummaryLength && Count(Strip(text), '\n') <= MaxNewlines
    ensures ValidateSummary(content, Reply(Some(text))) == Some(Strip(text))
  {
  }

  /** A longer reply keeps its first 1000 characters and gains "..."; if the
      result has at most five newlines that is the summary. */
  lemma LongReplyTruncated(content: string, text: string)
    requires PassesChecks(content, Strip(text)) && |Strip(text)| > MaxSummaryLength
    requires Count(Strip(text)[..MaxSummaryLength], '\n') <= MaxNewlines
    ensures ValidateSummary(content, Reply(Some(text)))
         == Some(Strip(text)[..MaxSummaryLength] + TruncationMarker)
  {
    var s := Strip(text);
    CountConcat(s[..MaxSummaryLength], TruncationMarker, '\n');
  }

  /** A reply with too many newlines comes back on one line. */
  lemma ManyNewlinesCollapsed(content: string, text: string)
    requires PassesChecks(content, Strip(text))
    requires Count(Truncate(Strip(text)), '\n') > MaxNewlines
    ensures ValidateSummary(content, Reply(Some(text))).Some?
    ensures '\n' !in ValidateSummary(content, Reply(Some(text))).value
  {
    var s := Strip(text);
    var t := Truncate(s);
    assert t[0] == s[0];
    CollapseShape(t);
  }

  /** `hashlib` digests are not modelled; what the key is built from is. The
      text hashed by md5 in `_get_cache_key`. */
  function KeyData(contentHash: string, model: string, temperature: string, maxTokens: int): string {
    contentHash + "|" + model + "|" + temperature + "|" + IntToString(maxTokens)
  }

  /** The key text determines the content hash, the model, the temperature
      and max_tokens: sha256 hex digests all have the same length, and neither
      a printed float nor a printed integer contains '|'. */
  lemma {:induction false} KeyDataInjective(h1: string, m1: string, t1: string, k1: int,
                                            h2: string, m2: string, t2: string, k2: int)
    requires |h1| == |h2|
    requires '|' !in t1 && '|' !in t2
    requires KeyData(h1, m1, t1, k1) == KeyData(h2, m2, t2, k2)
    ensures h1 == h2 && m1 == m2 && t1 == t2 && k1 == k2
  {
    var d1, d2 := IntToString(k1), IntToString(k2);
    assert '|' !in d1 && '|' !in d2 by {
      assert forall i :: 0 <= i < |d1| ==> d1[i] != '|';
      assert forall i :: 0 <= i < |d2| ==> d2[i] != '|';
    }
    var p1, p2 := h1 + "|" + m1 + "|" + t1, h2 + "|" + m2 + "|" + t2;
    var s := KeyData(h1, m1, t1, k1);
    assert s == p1 + "|" + d1 == p2 + "|" + d2;
    LastIndexOfSeparator(p1, '|', d1);
    LastIndexOfSeparator(p2, '|', d2);
    assert |p1| == |p2|;
    assert p1 == s[..|p1|] == p2;
    assert d1 == s[|p1| + 1..] == d2;
    var q1, q2 := h1 + "|" + m1, h2 + "|" + m2;
    assert p1 == q1 + "|" + t1 && p2 == q2 + "|" + t2;
    LastIndexOfSeparator(q1, '|', t1);
    LastIndexOfSeparator(q2, '|', t2);
    assert q1 == p1[..|q1|] && q2 == p2[..|q2|] && |q1| == |q2|;
    assert t1 == p1[|q1| + 1..] == t2;
    assert h1 == q1[..|h1|] && h2 == q2[..|h2|];
    assert m1 == q1[|h1| + 1..] && m2 == q2[|h2| + 1..];
    IntToStringInjective(k1, k2);
  }

  lemma IntToStringInjective(a: int, b: int)
    requires IntToString(a) == IntToString(b)
    ensures a == b
  {
    if a >= 0 && b >= 0 {
      NatToStringRoundTrip(a);
      NatToStringRoundTrip(b);
    } else if a < 0 && b < 0 {
      assert NatToString(-a) == IntToString(a)[1..] == NatToString(-b);
      NatToStringRoundTrip(-a);
      NatToStringRoundTrip(-b);
    }
  }

  /** The class-level `_cache`, one object shared by every Summarizer. Entries
      may disappear at any time (TTL expiry and size eviction live in a
      library and are modelled only as `Evict`). */
  class SummaryCache {
    var entries: map<string, string>
    /** `hashlib.sha256(...).hexdigest()` and `hashlib.md5(...).hexdigest()`:
        module-level functions, so one pair for every user of the cache. */
    const sha256: string -> string
    const md5: string -> string

    ghost predicate Valid()
      reads this
    {
      forall k :: k in entries ==> IsServedSummary(entries[k])
    }

    constructor (sha256: string -> string, md5: string -> string)
      ensures Valid() && entries == map[]
      ensures this.sha256 == sha256 && this.md5 == md5
    {
      entries := map[];
      this.sha256 := sha256;
      this.md5 := md5;
    }

    /** `_cache[key] = summary`. */
    method Put(key: string, summary: string)
      requires Valid() && IsServedSummary(summary)
      modifies this
      ensures Valid()
      ensures entries == old(entries)[key := summary]
    {
      entries := entries[key := summary];
    }

    /** An entry expires or is evicted. */
    method Evict(key: string)
      requires Valid()
      modifies this
      ensures Valid()
      ensures entries == old(entries) - {key}
    {
      entries := entries - {key};
    }
  }

  class Summarizer {
    const model: string
    /** The temperature as `str()` prints it; it only enters the cache key. */
    const temperature: string
    const maxTokens: int
    const cache: SummaryCache

    constructor (model: string, temperature: string, maxTokens: int, cache: SummaryCache)
      ensures this.model == model && this.temperature == temperature
      ensures this.maxTokens == maxTokens && this.cache == cache
    {
      this.model := model;
      this.temperature := temperature;
      this.maxTokens := maxTokens;
      this.cache := cache;
    }

    /** `_get_cache_key`: depends on the content only through its hash. */
    function CacheKey(content: string): string {
      cache.md5(KeyData(cache.sha256(content), model, temperature, maxTokens))
    }

    /** `summarize(content)`, with `reply` the outcome of the completion call
        it would make. `calledModel` tells whether that call is made. */
    method Summarize(content: string, reply: Completion) returns (r: Option<string>, calledModel: bool)
      requires cache.Valid()
      modifies cache
      ensures cache.Valid()
      ensures r.Some? ==> IsServedSummary(r.value)
      ensures IsBlank(content) ==>
        r == None && !calledModel && cache.entries == old(cache.entries)
      ensures !IsBlank(content) && CacheKey(content) in old(cache.entries) ==>
        r == Some(old(cache.entries)[CacheKey(content)]) && !calledModel
        && cache.entries == old(cache.entries)
      ensures !IsBlank(content) && CacheKey(content) !in old(cache.entries) ==>
        calledModel && r == ValidateSummary(content, reply)
        && cache.entries == if r.Some? then old(cache.entries)[CacheKey(content) := r.value]
                            else old(cache.entries)
    {
      if content == [] || Strip(content) == [] {
        return None, false;
      }
      var key := CacheKey(content);
      if key in cache.entries {
        return Some(cache.entries[key]), false;
      }
      calledModel := true;
      if !reply.Reply? {
        return None, calledModel;
      }
      var summary := ReplyText(reply);
      summary := Strip(summary);
      if summary == [] {
        return None, calledModel;
      }
      if |summary| >= |content| {
        return None, calledModel;
      }
      if |summary| < MinSummaryLength {
        return None, calledModel;
      }
      ghost var accepted := summary;
      if |summary| > MaxSummaryLength {
        summary := summary[..MaxSummaryLength] + TruncationMarker;
      }
      if Count(summary, '\n') > MaxNewlines {
        summary := Join(" ", CleanLines(Split(summary, '\n')));
      }
      assert summary == Normalize(accepted);
      if summary != [] {
        cache.Put(key, summary);
      }
      r := Some(summary);
    }
  }

  /** Two summarizers sharing the cache hit the same entry for the same
      content exactly when their model, temperature and max_tokens agree:
      a key is shared only by content with the same sha256 digest under the
      same settings, given that md5 separates the key texts, sha256 digests
      have one length and a printed temperature has no '|'. */
  lemma CacheKeysSeparate(a: Summarizer, b: Summarizer, c1: string, c2: string)
    requires a.cache == b.cache
    requires forall x, y :: a.cache.md5(x) == a.cache.md5(y) ==> x == y
    requires forall x, y :: |a.cache.sha256(x)| == |a.cache.sha256(y)|
    requires '|' !in a.temperature && '|' !in b.temperature
    requires a.CacheKey(c1) == b.CacheKey(c2)
    ensures a.model == b.model && a.temperature == b.temperature && a.maxTokens == b.maxTokens
    ensures a.cache.sha256(c1) == a.cache.sha256(c2)
  {
    KeyDataInjective(a.cache.sha256(c1), a.model, a.temperature, a.maxTokens,
                     a.cache.sha256(c2), b.model, b.temperature, b.maxTokens);
  }
}
