/** agents/cache_sql/tools.py: the cache keys, the cacheability rules and the two-layer
    cache state shared by every caller of `run_sql`. */
module CacheSqlTools {
  import opened Wrappers
  import opened Text
  import opened Patterns
  import opened Records

  // ---------------------------------------------------------------------------
  // Constants
  // ---------------------------------------------------------------------------

  /** Markers of dates relative to the clock; a query containing one is never cached. */
  const RelativeKeywords: seq<string> := [
    "today", "yesterday", "now()", "current_timestamp", "current_date",
    "this month", "this year", "this week", "last month", "last year",
    "last week", "interval", "date_add", "date_sub"
  ]

  /** English month names; a query naming one is cached. */
  const MonthKeywords: seq<string> := [
    "january", "february", "march", "april", "may", "june",
    "july", "august", "september", "october", "november", "december"
  ]

  /** `\d{4}-\d{2}-\d{2}` */
  const IsoDate: seq<Token> :=
    [Repeat(Digit, 4, Some(4)), Char('-'), Repeat(Digit, 2, Some(2)), Char('-'), Repeat(Digit, 2, Some(2))]

  /** `\d{2}/\d{2}/\d{4}` */
  const DayFirstDate: seq<Token> :=
    [Repeat(Digit, 2, Some(2)), Char('/'), Repeat(Digit, 2, Some(2)), Char('/'), Repeat(Digit, 4, Some(4))]

  /** `\d{4}/\d{2}/\d{2}` */
  const SlashDate: seq<Token> :=
    [Repeat(Digit, 4, Some(4)), Char('/'), Repeat(Digit, 2, Some(2)), Char('/'), Repeat(Digit, 2, Some(2))]

  /** `\b\d{8}\b` */
  const CompactDate: seq<Token> := [Boundary, Repeat(Digit, 8, Some(8)), Boundary]

  /** The absolute date literals, in the order they are tried. */
  const DatePatterns: seq<seq<Token>> := [IsoDate, DayFirstDate, SlashDate, CompactDate]

  /** `\btop\s+\d+` */
  const TopN: seq<Token> := [Boundary] + Lit("top") + [Repeat(Space, 1, None), Repeat(Digit, 1, None)]

  /** `\d{4}` */
  const FourDigits: seq<Token> := [Repeat(Digit, 4, Some(4))]

  /** `extract\s*\(\s*<part>\s+from\s+\w+\s*\)\s*=\s*` followed by `digits`. */
  function ExtractEquals(part: string, digits: Token): seq<Token> {
    Lit("extract") + [Repeat(Space, 0, None), Char('('), Repeat(Space, 0, None)]
    + Lit(part) + [Repeat(Space, 1, None)] + Lit("from")
    + [Repeat(Space, 1, None), Repeat(WordChar, 1, None), Repeat(Space, 0, None), Char(')'),
       Repeat(Space, 0, None), Char('='), Repeat(Space, 0, None), digits]
  }

  /** `extract\s*\(\s*year\s+from\s+\w+\s*\)\s*=\s*\d{4}` */
  const ExtractYear: seq<Token> := ExtractEquals("year", Repeat(Digit, 4, Some(4)))

  /** `extract\s*\(\s*month\s+from\s+\w+\s*\)\s*=\s*\d{1,2}` */
  const ExtractMonth: seq<Token> := ExtractEquals("month", Repeat(Digit, 1, Some(2)))

  /** 180 days, in seconds. */
  const TtlSeconds: int := 60 * 60 * 24 * 180

  // ---------------------------------------------------------------------------
  // Cache keys
  // ---------------------------------------------------------------------------

  /** `normalize_sql`: "" for empty input, otherwise `" ".join(sql.lower().split())`.
      The key is collapsed (single inner spaces, none leading or trailing), has no
      upper-case letter, and has exactly the words of the lower-cased input. */
  function NormalizeSql(sql: string): (key: string)
    ensures IsCollapsed(key) && NoUpper(key)
    ensures Split(key) == Split(Lower(sql))
  {
    var words := Split(Lower(sql));
    LowerFixedPoint(sql);
    JoinCollapsed(words);
    SplitJoin(words);
    if sql == "" then "" else Join(words, " ")
  }

  /** `normalize_question`: "" for empty input, otherwise
      `" ".join(question.lower().strip().split())`. */
  function NormalizeQuestion(question: string): (key: string)
    ensures key == NormalizeSql(question)
  {
    SplitStrip(Lower(question));
    if question == "" then "" else Join(Split(Strip(Lower(question))), " ")
  }

  /** Both normalisers are `" ".join(lower.split())` whether or not the input is empty. */
  lemma NormalizeSqlIsJoinedWords(sql: string)
    ensures NormalizeSql(sql) == Join(Split(Lower(sql)), " ")
  {
    if sql == "" {
      assert Lower(sql) == [];
    }
  }

  /** Two inputs share a key exactly when their lower-cased forms have the same words:
      the key ignores case and the amount and kind of whitespace, and nothing else. */
  lemma NormalizeSqlSameKey(a: string, b: string)
    ensures NormalizeSql(a) == NormalizeSql(b) <==> Split(Lower(a)) == Split(Lower(b))
  {
    NormalizeSqlIsJoinedWords(a);
    NormalizeSqlIsJoinedWords(b);
  }

  /** Normalising a key again leaves it unchanged. */
  lemma NormalizeSqlIdempotent(sql: string)
    ensures NormalizeSql(NormalizeSql(sql)) == NormalizeSql(sql)
  {
    var key := NormalizeSql(sql);
    LowerFixedPoint(key);
    JoinSplitCollapsed(key);
    NormalizeSqlIsJoinedWords(key);
  }

  lemma NormalizeQuestionIdempotent(question: string)
    ensures NormalizeQuestion(NormalizeQuestion(question)) == NormalizeQuestion(question)
  {
    NormalizeSqlIdempotent(question);
  }

  /** Changing the case of letters never changes a key. */
  lemma NormalizeSqlIgnoresCase(a: string, b: string)
    requires Lower(a) == Lower(b)
    ensures NormalizeSql(a) == NormalizeSql(b)
  {
    NormalizeSqlSameKey(a, b);
  }

  /** Whitespace around the text never changes a key. */
  lemma NormalizeSqlIgnoresPadding(s: string, left: string, right: string)
    requires forall i | 0 <= i < |left| :: IsSpace(left[i])
    requires forall i | 0 <= i < |right| :: IsSpace(right[i])
    ensures NormalizeSql(left + s + right) == NormalizeSql(s)
  {
    var l, m, r := Lower(left), Lower(s), Lower(right);
    assert Lower(left + s + right) == l + (m + r);
    SplitAfterSpaces(l, m + r);
    SplitBeforeSpaces(m, r);
    NormalizeSqlSameKey(left + s + right, s);
  }

  /** Leading whitespace never changes the words. */
  lemma {:induction false} SplitAfterSpaces(spaces: string, s: string)
    requires forall i | 0 <= i < |spaces| :: IsSpace(spaces[i])
    ensures Split(spaces + s) == Split(s)
    decreases |spaces|
  {
    if spaces != [] {
      assert (spaces + s)[1..] == spaces[1..] + s;
      SplitAfterSpaces(spaces[1..], s);
    } else {
      assert spaces + s == s;
    }
  }

  /** Trailing whitespace never changes the words. */
  lemma {:induction false} SplitBeforeSpaces(s: string, spaces: string)
    requires forall i | 0 <= i < |spaces| :: IsSpace(spaces[i])
    ensures Split(s + spaces) == Split(s)
    decreases |spaces|
  {
    if spaces != [] {
      var shorter := spaces[..|spaces| - 1];
      assert s + spaces == (s + shorter) + [spaces[|spaces| - 1]];
      SplitAppendSpace(s + shorter, spaces[|spaces| - 1]);
      SplitBeforeSpaces(s, shorter);
    } else {
      assert s + spaces == s;
    }
  }

  // ---------------------------------------------------------------------------
  // Cacheability
  // ---------------------------------------------------------------------------

  /** `is_cacheable_impl`: the ordered rules over the lower-cased SQL text, the first
      that applies deciding. */
  function IsCacheable(sql: string): (cacheable: bool)
    ensures var s := Lower(sql);
      cacheable <==>
        && !HasRelativeKeyword(s)
        && !HasRowLimit(s)
        && (HasDateLiteral(s) || HasMonthName(s) || HasBetweenYear(s) || HasExtractYearAndMonth(s))
  {
    var s := Lower(sql);
    if ContainsAny(s, RelativeKeywords) then false
    else if Contains(s, "limit") || Search(s, TopN) then false
    else if SearchAny(s, DatePatterns) then true
    else if ContainsAny(s, MonthKeywords) then true
    else if Contains(s, "between") && Search(s, FourDigits) then true
    else if Search(s, ExtractYear) && Search(s, ExtractMonth) then true
    else false
  }

  // The rules of `is_cacheable_impl`, each stated by the positions where its text or
  // pattern occurs.

  ghost predicate HasRelativeKeyword(s: string) {
    exists k, j | 0 <= k < |RelativeKeywords| && 0 <= j <= |s| :: OccursAt(s, j, RelativeKeywords[k])
  }

  ghost predicate HasRowLimit(s: string) {
    (exists j | 0 <= j <= |s| :: OccursAt(s, j, "limit"))
    || (exists j | 0 <= j <= |s| :: MatchStartsAt(s, j, TopN))
  }

  ghost predicate HasDateLiteral(s: string) {
    exists k, j | 0 <= k < |DatePatterns| && 0 <= j <= |s| :: MatchStartsAt(s, j, DatePatterns[k])
  }

  ghost predicate HasMonthName(s: string) {
    exists k, j | 0 <= k < |MonthKeywords| && 0 <= j <= |s| :: OccursAt(s, j, MonthKeywords[k])
  }

  ghost predicate HasBetweenYear(s: string) {
    (exists j | 0 <= j <= |s| :: OccursAt(s, j, "between"))
    && (exists j | 0 <= j <= |s| :: MatchStartsAt(s, j, FourDigits))
  }

  ghost predicate HasExtractYearAndMonth(s: string) {
    (exists j | 0 <= j <= |s| :: MatchStartsAt(s, j, ExtractYear))
    && (exists j | 0 <= j <= |s| :: MatchStartsAt(s, j, ExtractMonth))
  }

  /** The rules look only at the lower-cased text, so the decision ignores case. */
  lemma IsCacheableIgnoresCase(sql: string)
    ensures IsCacheable(Lower(sql)) == IsCacheable(sql)
  {
    LowerIdempotent(sql);
  }

  /** A relative-date marker wins over everything else, an absolute date included. */
  lemma RelativeKeywordPreventsCaching(sql: string, k: nat, j: nat)
    requires k < |RelativeKeywords| && j <= |sql|
    requires OccursAt(Lower(sql), j, RelativeKeywords[k])
    ensures !IsCacheable(sql)
  {
  }

  /** A row limit, `limit` anywhere or `top n` at a word start, wins over every date rule. */
  lemma RowLimitPreventsCaching(sql: string, j: nat)
    requires j <= |sql|
    requires OccursAt(Lower(sql), j, "limit") || MatchStartsAt(Lower(sql), j, TopN)
    ensures !IsCacheable(sql)
  {
  }

  /** `CURRENT_DATE()` and `DATE_SUB(..., INTERVAL ...)` make a query uncacheable. */
  lemma RelativeDateExample()
    ensures !IsCacheable(RelativeDateQuery)
  {
    RelativeDateQueryMentionsCurrentDate();
    RelativeKeywordPreventsCaching(RelativeDateQuery, 4, |RelativeDateHead|);
  }

  /** The query from the repository's tests, written around its `CURRENT_DATE` call. */
  const RelativeDateHead: string := "SELECT * FROM clicks WHERE date = DATE_SUB("
  const RelativeDateTail: string := "(), INTERVAL 1 DAY)"
  const RelativeDateQuery: string := RelativeDateHead + "CURRENT_DATE" + RelativeDateTail

  lemma RelativeDateQueryMentionsCurrentDate()
    ensures OccursAt(Lower(RelativeDateQuery), |RelativeDateHead|, "current_date")
  {
    var head, tail := RelativeDateHead, RelativeDateTail;
    LowerAround(head, "CURRENT_DATE", tail);
    assert Lower("CURRENT_DATE") == "current_date" by {
      var low := Lower("CURRENT_DATE");
      assert low[0] == 'c' && low[1] == 'u' && low[2] == 'r' && low[3] == 'r';
      assert low[4] == 'e' && low[5] == 'n' && low[6] == 't' && low[7] == '_';
      assert low[8] == 'd' && low[9] == 'a' && low[10] == 't' && low[11] == 'e';
    }
    ThreePartsMiddle(Lower(head), "current_date", Lower(tail));
  }

  /** Lower-casing works character by character, so it distributes over concatenation. */
  lemma LowerAround(a: string, m: string, b: string)
    ensures Lower(a + m + b) == Lower(a) + Lower(m) + Lower(b)
  {
  }

  lemma ThreePartsMiddle(a: string, m: string, b: string)
    ensures OccursAt(a + m + b, |a|, m)
  {
    assert (a + m + b)[|a|..|a| + |m|] == m;
  }

  /** `LIMIT n` makes a query uncacheable. */
  lemma LimitExample()
    ensures !IsCacheable(LimitQuery)
  {
    LimitQueryMentionsLimit();
    RowLimitPreventsCaching(LimitQuery, |LimitHead|);
  }

  const LimitHead: string := "SELECT * FROM clicks "
  /** `SELECT * FROM clicks LIMIT 10`, from the repository's tests. */
  const LimitQuery: string := LimitHead + "LIMIT" + " 10"

  lemma LimitQueryMentionsLimit()
    ensures OccursAt(Lower(LimitQuery), |LimitHead|, "limit")
  {
    LowerAround(LimitHead, "LIMIT", " 10");
    assert Lower("LIMIT") == "limit" by {
      var low := Lower("LIMIT");
      assert low[0] == 'l' && low[1] == 'i' && low[2] == 'm' && low[3] == 'i' && low[4] == 't';
    }
    ThreePartsMiddle(Lower(LimitHead), "limit", Lower(" 10"));
  }

  /** `TOP n` makes a query uncacheable. */
  lemma TopExample()
    ensures !IsCacheable(TopQuery)
  {
    TopQueryHasTopN();
    RowLimitPreventsCaching(TopQuery, 7);
  }

  /** `SELECT TOP 5 * FROM clicks`, from the repository's tests. */
  const TopQuery: string := "SELECT " + "TOP 5" + " * FROM clicks"

  lemma TopQueryHasTopN()
    ensures MatchStartsAt(Lower(TopQuery), 7, TopN)
  {
    var head, tail := "SELECT ", " * FROM clicks";
    LowerAround(head, "TOP 5", tail);
    assert Lower("TOP 5") == "top 5" by {
      var low := Lower("TOP 5");
      assert low[0] == 't' && low[1] == 'o' && low[2] == 'p' && low[3] == ' ' && low[4] == '5';
    }
    var top := Lower(head) + "top 5" + Lower(tail);
    assert top[6] == ' ' by {
      assert Lower(head)[6] == LowerChar(head[6]);
    }
    assert top[7..10] == "top" && top[10] == ' ' && top[11] == '5';
    TopNMatches(top, 7);
  }

  /** `\btop\s+\d+` matches where "top" starts a word and is followed by a space and a digit. */
  lemma TopNMatches(s: string, i: nat)
    requires 0 < i && i + 5 <= |s|
    requires !IsWordChar(s[i - 1])
    requires s[i..i + 3] == "top" && IsSpace(s[i + 3]) && IsDigit(s[i + 4])
    ensures MatchStartsAt(s, i, TopN)
  {
    var digits := [Repeat(Digit, 1, None)];
    var rest := [Repeat(Space, 1, None)] + digits;
    assert MatchAt(s, i + 4, digits) by {
      assert InClass(s[i + 4], Digit);
      assert AllIn(s, i + 4, i + 5, Digit);
      assert digits[1..] == [];
      assert MatchAt(s, i + 5, digits[1..]);
    }
    assert MatchAt(s, i + 3, rest) by {
      assert InClass(s[i + 3], Space);
      assert AllIn(s, i + 3, i + 4, Space);
      assert rest[1..] == digits;
    }
    MatchLitThen(s, i, "top", rest);
    assert TopN == [Boundary] + (Lit("top") + rest);
    assert AtBoundary(s, i);
  }

  /** A literal followed by more pattern: the literal must stand there, then the rest
      must match after it. */
  lemma {:induction false} MatchLitThen(s: string, i: nat, w: string, rest: seq<Token>)
    requires i <= |s|
    requires OccursAt(s, i, w)
    requires MatchAt(s, i + |w|, rest)
    ensures MatchAt(s, i, Lit(w) + rest)
    decreases |w|
  {
    if w != [] {
      assert (Lit(w) + rest)[1..] == Lit(w[1..]) + rest;
      assert OccursAt(s, i + 1, w[1..]) by {
        assert s[i + 1..i + |w|] == s[i..i + |w|][1..];
      }
      MatchLitThen(s, i + 1, w[1..], rest);
    } else {
      assert Lit(w) + rest == rest;
    }
  }

  // ---------------------------------------------------------------------------
  // Cache state
  // ---------------------------------------------------------------------------

  /** One cache layer: the stored results and the time each was stored. */
  datatype Layer = Layer(values: map<string, QueryResult>, stamps: map<string, real>) {
    /** Removal and insertion always touch both dictionaries together. */
    predicate Paired() {
      values.Keys == stamps.Keys
    }
  }

  /** The contents of a `CacheState`: the question layer and the SQL layer. */
  datatype CacheLayers = CacheLayers(question: Layer, sql: Layer) {
    predicate Paired() {
      question.Paired() && sql.Paired()
    }
  }

  /** `CacheState`: the four dictionaries behind the two cache layers. */
  class CacheState {
    var questionCache: map<string, QueryResult>
    var questionTtl: map<string, real>
    var cache: map<string, QueryResult>
    var ttl: map<string, real>

    constructor ()
      ensures questionCache == map[] && questionTtl == map[] && cache == map[] && ttl == map[]
      ensures Layers().Paired()
    {
      questionCache, questionTtl := map[], map[];
      cache, ttl := map[], map[];
    }

    ghost function Layers(): CacheLayers
      reads this
    {
      CacheLayers(Layer(questionCache, questionTtl), Layer(cache, ttl))
    }
  }

  /** What `get_cache_stats` reports. */
  datatype CacheStats = CacheStats(
    questionCacheSize: nat,
    sqlCacheSize: nat,
    questionCacheKeys: seq<string>,
    sqlCacheKeys: seq<string>)

  /** At most `limit` keys are listed in a report. */
  const SampleLimit: nat := 5

  /** `sample` lists min(limit, |keys|) distinct members of `keys`. */
  predicate IsSample(sample: seq<string>, keys: set<string>, limit: nat) {
    && |sample| == (if |keys| < limit then |keys| else limit)
    && (forall i | 0 <= i < |sample| :: sample[i] in keys)
    && (forall i, j | 0 <= i < j < |sample| :: sample[i] != sample[j])
  }

  /** `list(keys)[:limit]`, with the keys taken in an unspecified order. */
  method SampleKeys(keys: set<string>, limit: nat) returns (sample: seq<string>)
    ensures IsSample(sample, keys, limit)
  {
    sample := [];
    var remaining := keys;
    while |sample| < limit && remaining != {}
      invariant remaining <= keys
      invariant |sample| + |remaining| == |keys|
      invariant |sample| <= limit
      invariant forall i | 0 <= i < |sample| :: sample[i] in keys && sample[i] !in remaining
      invariant forall i, j | 0 <= i < j < |sample| :: sample[i] != sample[j]
      decreases remaining
    {
      var k :| k in remaining;
      sample := sample + [k];
      remaining := remaining - {k};
    }
  }

  /** `get_cache_stats`: the size of each layer and a few of its keys. */
  method GetCacheStats(state: CacheState) returns (stats: CacheStats)
    ensures stats.questionCacheSize == |state.questionCache|
    ensures stats.sqlCacheSize == |state.cache|
    ensures IsSample(stats.questionCacheKeys, state.questionCache.Keys, SampleLimit)
    ensures IsSample(stats.sqlCacheKeys, state.cache.Keys, SampleLimit)
  {
    var questionKeys := SampleKeys(state.questionCache.Keys, SampleLimit);
    var sqlKeys := SampleKeys(state.cache.Keys, SampleLimit);
    stats := CacheStats(|state.questionCache|, |state.cache|, questionKeys, sqlKeys);
  }
}
