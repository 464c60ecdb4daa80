/** The query-expansion service (aurora_mcp/services/query_expander.py): a
    completion is accepted as the expanded query only if it still contains
    the query and has a plausible length and shape; accepted expansions are
    memoised in a cache shared by all QueryExpander objects. */
module QueryExpander {
  import opened Text
  import opened Llm

  /** Validation 3: an expansion may be at most this many times as long as the query. */
  const MaxGrowth: nat := 5
  /** Validation 4: at most this many '.' characters. */
  const MaxPeriods: nat := 2

  /** `expanded[1:-1]` when the stripped reply starts and ends with '"'.
      A lone '"' both starts and ends with one, and becomes empty. */
  function Unquote(s: string): (r: string)
    ensures |r| <= |s|
  {
    if s != [] && s[0] == '"' && s[|s| - 1] == '"' then
      (if |s| >= 2 then s[1..|s| - 1] else [])
    else s
  }

  /** Unquoting removes one pair of surrounding quotes (a lone '"' counts as
      a pair) and changes nothing else. */
  lemma UnquoteShape(s: string)
    ensures Unquote(s) == s || s == "\"" + Unquote(s) + "\"" || (s == "\"" && Unquote(s) == [])
    ensures Unquote(s) != s <==> s != [] && s[0] == '"' && s[|s| - 1] == '"'
  {
  }

  /** What `expand` does to the reply text before validating it. */
  function Cleaned(reply: Completion): (r: string)
    requires reply.Reply?
    ensures |r| <= |ReplyText(reply)|
    ensures r == Strip(ReplyText(reply)) || Strip(ReplyText(reply)) == "\"" + r + "\""
            || (Strip(ReplyText(reply)) == "\"" && r == [])
  {
    UnquoteShape(Strip(ReplyText(reply)));
    Unquote(Strip(ReplyText(reply)))
  }

  /** Validations 1-4, in the order the service applies them. */
  predicate Acceptable(query: string, expanded: string) {
    expanded != []
    && Contains(Lower(expanded), Lower(query))
    && |expanded| >= |query|
    && |expanded| <= |query| * MaxGrowth
    && '\n' !in expanded
    && Count(expanded, '.') <= MaxPeriods
  }

  /** The shape every expansion the service keeps in its cache has, whatever
      query it was made for. */
  predicate IsWellFormed(expanded: string) {
    expanded != [] && '\n' !in expanded && Count(expanded, '.') <= MaxPeriods
  }

  /** The reply as `expand` turns it into its result on a cache miss. */
  function ValidateExpansion(query: string, reply: Completion): (r: Option<string>)
    ensures r.Some? <==> reply.Reply? && Acceptable(query, Cleaned(reply))
    ensures r.Some? ==> r.value == Cleaned(reply)
    ensures r.Some? ==> IsWellFormed(r.value)
    ensures r.Some? ==> Contains(Lower(r.value), Lower(query))
    ensures r.Some? ==> |query| <= |r.value| <= MaxGrowth * |query|
  {
    if reply.Reply? && Acceptable(query, Cleaned(reply)) then Some(Cleaned(reply)) else None
  }

  /** Validation 3's lower bound never rejects anything: an expansion that
      contains the query (ignoring case) is at least as long as it. */
  lemma ContainsIsLongEnough(query: string, expanded: string)
    requires Contains(Lower(expanded), Lower(query))
    ensures |expanded| >= |query|
  {
    var i: nat :| i <= |Lower(expanded)| && OccursAt(Lower(expanded), Lower(query), i);
  }

  /** A reply that is a lone '"' (after stripping) is emptied and rejected. */
  lemma LoneQuoteRejected(query: string, text: string)
    requires Strip(text) == "\""
    ensures ValidateExpansion(query, Reply(Some(text))) == None
  {
  }

  /** One pair of surrounding quotes is removed before validation. */
  lemma QuotedReplyUnwrapped(query: string, inner: string)
    requires IsTrimmed(inner)
    requires Acceptable(query, inner)
    ensures ValidateExpansion(query, Reply(Some("\"" + inner + "\""))) == Some(inner)
  {
    var s := "\"" + inner + "\"";
    QuotesRemoved(s, inner);
    assert Acceptable(query, Cleaned(Reply(Some(s))));
  }

  lemma QuotesRemoved(s: string, inner: string)
    requires IsTrimmed(inner)
    requires s == "\"" + inner + "\""
    ensures Cleaned(Reply(Some(s))) == inner
  {
    StripTrimmed(s);
    assert ReplyText(Reply(Some(s))) == s;
    MiddleOf("\"", inner, "\"");
  }

  /** A reply that starts with the query itself and otherwise has the right
      length and shape is accepted as it is. */
  lemma ExtendingReplyAccepted(query: string, expanded: string)
    requires IsTrimmed(expanded) && expanded != [] && expanded[0] != '"'
    requires |query| <= |expanded| && expanded[..|query|] == query
    requires |expanded| <= MaxGrowth * |query|
    requires '\n' !in expanded && Count(expanded, '.') <= MaxPeriods
    ensures ValidateExpansion(query, Reply(Some(expanded))) == Some(expanded)
  {
    UnquotedTrimmed(expanded);
    PrefixContainedIgnoringCase(expanded, query);
    assert Acceptable(query, expanded);
  }

  lemma UnquotedTrimmed(expanded: string)
    requires IsTrimmed(expanded) && (expanded == [] || expanded[0] != '"')
    ensures Cleaned(Reply(Some(expanded))) == expanded
  {
    StripTrimmed(expanded);
  }

  /** The test's example: "database query" expands to
      "database query optimization indexing". */
  lemma DatabaseQueryExample()
    ensures ValidateExpansion("database query", Reply(Some("database query optimization indexing")))
         == Some("database query optimization indexing")
  {
    var q := "database query";
    var e := "database query optimization indexing";
    assert '.' !in e && '\n' !in e;
    ExtendingReplyAccepted(q, e);
  }

  /** The text hashed by md5 in `_get_cache_key`. */
  function KeyData(query: string, model: string, temperature: string): string {
    query + "|" + model + "|" + temperature
  }

  /** For one model and temperature, distinct queries have distinct key texts. */
  lemma KeyDataInjectiveOnQuery(q1: string, q2: string, model: string, temperature: string)
    requires KeyData(q1, model, temperature) == KeyData(q2, model, temperature)
    ensures q1 == q2
  {
    var k := KeyData(q1, model, temperature);
    assert |q1| == |q2|;
    assert q1 == k[..|q1|] && q2 == k[..|q2|];
  }

  /** Across models the key text is ambiguous: a '|' in the query can stand in
      for the separator. */
  lemma KeyDataAmbiguousAcrossModels(temperature: string)
    ensures KeyData("a|b", "c", temperature) == KeyData("a", "b|c", temperature)
  {
  }

  /** The class-level `_cache`, one object shared by every QueryExpander.
      Entries may disappear at any time (TTL expiry and size eviction live in
      a library and are modelled only as `Evict`). */
  class ExpansionCache {
    var entries: map<string, string>
    /** `hashlib.md5(...).hexdigest()`: a module-level function, so one for
        every user of the cache. */
    const md5: string -> string

    ghost predicate Valid()
      reads this
    {
      forall k :: k in entries ==> IsWellFormed(entries[k])
    }

    constructor (md5: string -> string)
      ensures Valid() && entries == map[] && this.md5 == md5
    {
      entries := map[];
      this.md5 := md5;
    }

    /** `_cache[key] = expanded`. */
    method Put(key: string, expanded: string)
      requires Valid() && IsWellFormed(expanded)
      modifies this
      ensures Valid()
      ensures entries == old(entries)[key := expanded]
    {
      entries := entries[key := expanded];
    }

    /** An entry expires or is evicted. */
    method Evict(key: string)
      requires Valid()
      modifies this
      ensures Valid()
      ensures entries == old(entries) - {key}
    {
      entries := entries - {key};
    }
  }

  class QueryExpander {
    const model: string
    /** The temperature as `str()` prints it; it only enters the cache key. */
    const temperature: string
    const cache: ExpansionCache

    constructor (model: string, temperature: string, cache: ExpansionCache)
      ensures this.model == model && this.temperature == temperature
      ensures this.cache == cache
    {
      this.model := model;
      this.temperature := temperature;
      this.cache := cache;
    }

    /** `_get_cache_key`: a function of the query, the model and the temperature. */
    function CacheKey(query: string): string {
      cache.md5(KeyData(query, model, temperature))
    }

    /** `expand(query)`, with `reply` the outcome of the completion call it
        would make. `calledModel` tells whether that call is made. */
    method Expand(query: string, reply: Completion) returns (r: Option<string>, calledModel: bool)
      requires cache.Valid()
      modifies cache
      ensures cache.Valid()
      ensures r.Some? ==> IsWellFormed(r.value)
      ensures IsBlank(query) ==>
        r == None && !calledModel && cache.entries == old(cache.entries)
      ensures !IsBlank(query) && CacheKey(query) in old(cache.entries) ==>
        r == Some(old(cache.entries)[CacheKey(query)]) && !calledModel
        && cache.entries == old(cache.entries)
      ensures !IsBlank(query) && CacheKey(query) !in old(cache.entries) ==>
        calledModel && r == ValidateExpansion(query, reply)
        && cache.entries == if r.Some? then old(cache.entries)[CacheKey(query) := r.value]
                            else old(cache.entries)
    {
      if query == [] || Strip(query) == [] {
        return None, false;
      }
      var key := CacheKey(query);
      if key in cache.entries {
        return Some(cache.entries[key]), false;
      }
      calledModel := true;
      if !reply.Reply? {
        return None, calledModel;
      }
      var expanded := ReplyText(reply);
      expanded := Strip(expanded);
      ghost var stripped := expanded;
      if |expanded| >= 1 && expanded[0] == '"' && expanded[|expanded| - 1] == '"' {
        expanded := if |expanded| >= 2 then expanded[1..|expanded| - 1] else [];
      }
      assert expanded == Unquote(stripped) == Cleaned(reply);
      // Validations 1-4 reject the reply with None.
      if !Acceptable(query, expanded) {
        r := None;
      } else {
        assert ValidateExpansion(query, reply) == Some(expanded);
        if expanded != [] {
          cache.Put(key, expanded);
        }
        r := Some(expanded);
      }
    }
  }

  /** Two expanders sharing the cache and configured alike hit the same entry
      only for the same query, given that md5 separates the key texts. */
  lemma CacheKeysSeparate(a: QueryExpander, b: QueryExpander, q1: string, q2: string)
    requires a.cache == b.cache
    requires forall x, y :: a.cache.md5(x) == a.cache.md5(y) ==> x == y
    requires a.model == b.model && a.temperature == b.temperature
    requires a.CacheKey(q1) == b.CacheKey(q2)
    ensures q1 == q2
  {
    KeyDataInjectiveOnQuery(q1, q2, a.model, a.temperature);
  }
}
