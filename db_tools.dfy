/** agents/db/tools.py: `run_sql`, the two-layer cached path from a SQL text to its rows.
    The warehouse client is a parameter (a function from the SQL text to rows or an
    error), and so is the clock reading `now`. */
module DbTools {
  import opened Wrappers
  import opened Text
  import opened Records
  import opened CacheSqlTools

  /** How `execute_query` fails: access refused, or a query the warehouse rejects. */
  datatype WarehouseError = PermissionDenied(message: string) | QueryFailed(message: string)

  /** The warehouse as `run_sql` sees it: the SQL text in, the rows or an error out. */
  type Warehouse = string -> Result<seq<Row>, WarehouseError>

  /** `RunSQLInput`: the SQL text and, optionally, the question it answers. */
  datatype RunSqlInput = RunSqlInput(sql: string, finalQuestion: Option<string>)

  /** The question-layer key, or None when the question is missing or normalises to
      the empty (falsy) string. */
  function QuestionKey(question: Option<string>): (key: Option<string>)
    ensures key.Some? <==> question.Some? && NormalizeQuestion(question.value) != ""
    ensures key.Some? ==> key.value == NormalizeQuestion(question.value) && IsCollapsed(key.value)
  {
    if question.None? || question.value == "" then None
    else
      var normalized := NormalizeQuestion(question.value);
      if normalized == "" then None else Some(normalized)
  }

  /** An entry stored at `stamp` is stale at `now` only strictly past the TTL. */
  predicate Expired(stamp: real, now: real) {
    now - stamp > TtlSeconds as real
  }

  /** `layer` with some of its entries removed and nothing else changed. */
  predicate Shrunk(after: Layer, before: Layer) {
    && after.values.Keys <= before.values.Keys
    && after.stamps.Keys <= before.stamps.Keys
    && (forall k | k in after.values :: after.values[k] == before.values[k])
    && (forall k | k in after.stamps :: after.stamps[k] == before.stamps[k])
  }

  /** The lazy TTL check on one key: a stale entry is popped from both dictionaries. */
  function Evict(layer: Layer, key: string, now: real): (r: Layer)
    ensures Shrunk(r, layer)
    ensures key in r.stamps ==> !Expired(r.stamps[key], now)
    ensures forall k | k != key :: (k in r.values <==> k in layer.values) && (k in r.stamps <==> k in layer.stamps)
    ensures key in r.values <==> key in layer.values && !(key in layer.stamps && Expired(layer.stamps[key], now))
    ensures layer.Paired() ==> r.Paired()
  {
    if key in layer.stamps && Expired(layer.stamps[key], now) then
      Layer(layer.values - {key}, layer.stamps - {key})
    else
      layer
  }

  /** Stores `result` under `key`, stamped `now`, in both dictionaries of the layer. */
  function Put(layer: Layer, key: string, result: QueryResult, now: real): (r: Layer)
    ensures r.values == layer.values[key := result] && r.stamps == layer.stamps[key := now]
    ensures layer.Paired() ==> r.Paired()
  {
    Layer(layer.values[key := result], layer.stamps[key := now])
  }

  /** The answer for a cache hit: the caller's SQL text, the stored rows, a summary
      recounted from them, and `from_cache` set. */
  function Served(sql: string, entry: QueryResult): (r: QueryResult)
    ensures r.sql == sql && r.rows == entry.rows && r.fromCache
  {
    QueryResult(sql, entry.rows, Summary(|entry.rows|), true)
  }

  /** Everything one call of `run_sql` does: the cache layers afterwards, the value it
      returns (or the warehouse error it raises), and the SQL texts it sent to the
      warehouse. */
  datatype Outcome = Outcome(
    layers: CacheLayers,
    result: Result<QueryResult, WarehouseError>,
    queries: seq<string>)

  /** `run_sql` step by step: the question layer (lazy eviction, then lookup), the SQL
      layer (the same), and on a miss one warehouse query whose result is stored in
      both layers when the SQL is cacheable. */
  function RunSqlOutcome(layers: CacheLayers, sql: string, question: Option<string>, now: real,
                         warehouse: Warehouse): Outcome
  {
    var questionKey := QuestionKey(question);
    if questionKey.None? then
      SqlLayerStep(layers, sql, questionKey, now, warehouse)
    else
      var questionLayer := Evict(layers.question, questionKey.value, now);
      if questionKey.value in questionLayer.values then
        var entry := questionLayer.values[questionKey.value];
        Outcome(CacheLayers(questionLayer, layers.sql), Success(Served(sql, entry)), [])
      else
        SqlLayerStep(CacheLayers(questionLayer, layers.sql), sql, questionKey, now, warehouse)
  }

  /** Step 2 of `run_sql`: the SQL layer, reached when the question layer had nothing. */
  function SqlLayerStep(layers: CacheLayers, sql: string, questionKey: Option<string>, now: real,
                        warehouse: Warehouse): Outcome
  {
    var sqlKey := NormalizeSql(sql);
    var sqlLayer := Evict(layers.sql, sqlKey, now);
    if sqlKey in sqlLayer.values then
      Outcome(CacheLayers(layers.question, sqlLayer), Success(Served(sql, sqlLayer.values[sqlKey])), [])
    else
      WarehouseStep(CacheLayers(layers.question, sqlLayer), sql, questionKey, now, warehouse)
  }

  /** Steps 3 and 4 of `run_sql`: one warehouse query, and the store when cacheable. */
  function WarehouseStep(layers: CacheLayers, sql: string, questionKey: Option<string>, now: real,
                         warehouse: Warehouse): Outcome
  {
    match warehouse(sql)
    case Failure(e) => Outcome(layers, Failure(e), [sql])
    case Success(rows) =>
      var computed := QueryResult(sql, rows, Summary(|rows|), false);
      if IsCacheable(sql) then
        var question :=
          if questionKey.Some? then Put(layers.question, questionKey.value, computed, now)
          else layers.question;
        Outcome(CacheLayers(question, Put(layers.sql, NormalizeSql(sql), computed, now)), Success(computed), [sql])
      else
        Outcome(layers, Success(computed), [sql])
  }

  /** `run_sql` on the shared cache state. */
  method RunSql(state: CacheState, sql: string, question: Option<string>, now: real,
                warehouse: Warehouse)
    returns (result: Result<QueryResult, WarehouseError>, ghost queries: seq<string>)
    modifies state
    ensures var o := RunSqlOutcome(old(state.Layers()), sql, question, now, warehouse);
      state.Layers() == o.layers && result == o.result && queries == o.queries
  {
    var sqlKey := NormalizeSql(sql);
    var questionKey := QuestionKey(question);
    queries := [];
    ghost var before := state.Layers();
    RunSqlPaths(before, sql, question, now, warehouse);

    // The question layer, preferred.
    if questionKey.Some? {
      var key := questionKey.value;
      ExpireQuestion(state, key, now);
      if key in state.questionCache {
        result := Success(Served(sql, state.questionCache[key]));
        return;
      }
    }
    assert state.Layers().question == QuestionLayerAfterEviction(before, question, now);
    assert !QuestionHit(before, question, now);

    // The SQL layer.
    ExpireSql(state, sqlKey, now);
    if sqlKey in state.cache {
      result := Success(Served(sql, state.cache[sqlKey]));
      return;
    }

    // A miss: one warehouse query.
    ghost var missed := state.Layers();
    assert RunSqlOutcome(before, sql, question, now, warehouse)
        == WarehouseStep(missed, sql, questionKey, now, warehouse);
    var response := warehouse(sql);
    queries := [sql];
    if response.Failure? {
      result := Failure(response.error);
      return;
    }
    var rows := response.value;
    var computed := QueryResult(sql, rows, Summary(|rows|), false);

    assert WarehouseStep(missed, sql, questionKey, now, warehouse).result == Success(computed);
    if IsCacheable(sql) {
      Store(state, sqlKey, questionKey, computed, now);
    }
    result := Success(computed);
  }

  /** The lazy eviction of a question entry older than the TTL, from both dictionaries. */
  method ExpireQuestion(state: CacheState, key: string, now: real)
    modifies state
    ensures state.Layers() == CacheLayers(Evict(old(state.Layers()).question, key, now), old(state.Layers()).sql)
  {
    if key in state.questionTtl && Expired(state.questionTtl[key], now) {
      state.questionCache := state.questionCache - {key};
      state.questionTtl := state.questionTtl - {key};
    }
  }

  /** The lazy eviction of an SQL entry older than the TTL, from both dictionaries. */
  method ExpireSql(state: CacheState, key: string, now: real)
    modifies state
    ensures state.Layers() == CacheLayers(old(state.Layers()).question, Evict(old(state.Layers()).sql, key, now))
  {
    if key in state.ttl && Expired(state.ttl[key], now) {
      state.cache := state.cache - {key};
      state.ttl := state.ttl - {key};
    }
  }

  /** Step 4 of `run_sql`: the result goes into the SQL layer, and into the question layer
      when there is a question key, each stamped `now`. */
  method Store(state: CacheState, sqlKey: string, questionKey: Option<string>, computed: QueryResult,
               now: real)
    modifies state
    ensures state.Layers() == CacheLayers(
      if questionKey.Some? then Put(old(state.Layers()).question, questionKey.value, computed, now)
      else old(state.Layers()).question,
      Put(old(state.Layers()).sql, sqlKey, computed, now))
  {
    state.cache := state.cache[sqlKey := computed];
    state.ttl := state.ttl[sqlKey := now];
    if questionKey.Some? {
      state.questionCache := state.questionCache[questionKey.value := computed];
      state.questionTtl := state.questionTtl[questionKey.value := now];
    }
  }

  /** `run_sql_tool`: the agent-facing name of `run_sql`, unchanged. */
  method RunSqlTool(state: CacheState, input: RunSqlInput, now: real, warehouse: Warehouse)
    returns (result: Result<QueryResult, WarehouseError>, ghost queries: seq<string>)
    modifies state
    ensures var o := RunSqlOutcome(old(state.Layers()), input.sql, input.finalQuestion, now, warehouse);
      state.Layers() == o.layers && result == o.result && queries == o.queries
  {
    result, queries := RunSql(state, input.sql, input.finalQuestion, now, warehouse);
  }

  // ---------------------------------------------------------------------------
  // The three paths through `run_sql`
  // ---------------------------------------------------------------------------

  /** The question layer after its lazy eviction (untouched when there is no key). */
  function QuestionLayerAfterEviction(layers: CacheLayers, question: Option<string>, now: real): Layer {
    var key := QuestionKey(question);
    if key.Some? then Evict(layers.question, key.value, now) else layers.question
  }

  /** The question layer answers the call. */
  predicate QuestionHit(layers: CacheLayers, question: Option<string>, now: real) {
    var key := QuestionKey(question);
    key.Some? && key.value in QuestionLayerAfterEviction(layers, question, now).values
  }

  /** A call takes one of three paths: a question-layer hit, an SQL-layer hit, or the
      warehouse with both layers evicted first. */
  lemma {:induction false} RunSqlPaths(layers: CacheLayers, sql: string, question: Option<string>,
                                        now: real, warehouse: Warehouse)
    ensures var o := RunSqlOutcome(layers, sql, question, now, warehouse);
      var questionLayer := QuestionLayerAfterEviction(layers, question, now);
      var sqlKey := NormalizeSql(sql);
      var sqlLayer := Evict(layers.sql, sqlKey, now);
      if QuestionHit(layers, question, now) then
        var entry := questionLayer.values[QuestionKey(question).value];
        o == Outcome(CacheLayers(questionLayer, layers.sql), Success(Served(sql, entry)), [])
      else if sqlKey in sqlLayer.values then
        o == Outcome(CacheLayers(questionLayer, sqlLayer), Success(Served(sql, sqlLayer.values[sqlKey])), [])
      else
        o == WarehouseStep(CacheLayers(questionLayer, sqlLayer), sql, QuestionKey(question), now, warehouse)
  {
  }

  /** What the warehouse path does: one query with the caller's text; its error is raised
      with the cache as it was; its rows are answered, and stored in both layers (stamped
      `now`) exactly when the SQL is cacheable. */
  lemma {:induction false} WarehouseStepFacts(layers: CacheLayers, sql: string, questionKey: Option<string>,
                                              now: real, warehouse: Warehouse)
    ensures var o := WarehouseStep(layers, sql, questionKey, now, warehouse);
      && o.queries == [sql]
      && (o.result.Failure? ==> warehouse(sql) == Failure(o.result.error) && o.layers == layers)
      && (o.result.Success? ==>
            && warehouse(sql) == Success(o.result.value.rows)
            && o.result.value == QueryResult(sql, o.result.value.rows, Summary(|o.result.value.rows|), false))
      && (o.result.Success? && IsCacheable(sql) ==>
            && StoredOnly(o.layers.sql, layers.sql, NormalizeSql(sql), o.result.value, now)
            && (questionKey.Some? ==>
                  StoredOnly(o.layers.question, layers.question, questionKey.value, o.result.value, now))
            && (questionKey.None? ==> o.layers.question == layers.question))
      && (!(o.result.Success? && IsCacheable(sql)) ==> o.layers == layers)
  {
  }

  // ---------------------------------------------------------------------------
  // Properties of one call
  // ---------------------------------------------------------------------------

  /** A live entry in the question layer is answered first, without a query and without
      any change to the cache, whatever the SQL layer holds for this SQL. */
  lemma QuestionLayerServesFirst(layers: CacheLayers, sql: string, question: string, now: real,
                                 warehouse: Warehouse)
    requires NormalizeQuestion(question) != ""
    requires NormalizeQuestion(question) in layers.question.values
    requires NormalizeQuestion(question) !in layers.question.stamps
             || !Expired(layers.question.stamps[NormalizeQuestion(question)], now)
    ensures var o := RunSqlOutcome(layers, sql, Some(question), now, warehouse);
      && o.result == Success(Served(sql, layers.question.values[NormalizeQuestion(question)]))
      && o.queries == []
      && o.layers == layers
  {
  }

  /** Without a live question entry, a live SQL entry is answered, without a query; only
      the lazy eviction may have touched the question layer. */
  lemma SqlLayerServesOnQuestionMiss(layers: CacheLayers, sql: string, question: Option<string>,
                                     now: real, warehouse: Warehouse)
    requires !QuestionHit(layers, question, now)
    requires NormalizeSql(sql) in layers.sql.values
    requires NormalizeSql(sql) !in layers.sql.stamps || !Expired(layers.sql.stamps[NormalizeSql(sql)], now)
    ensures var o := RunSqlOutcome(layers, sql, question, now, warehouse);
      && o.result == Success(Served(sql, layers.sql.values[NormalizeSql(sql)]))
      && o.queries == []
      && o.layers.sql == layers.sql
      && Shrunk(o.layers.question, layers.question)
  {
    RunSqlPaths(layers, sql, question, now, warehouse);
  }

  /** The warehouse is asked at most once, with the caller's SQL text unchanged, and it
      is asked exactly when the answer does not come from the cache. What it returns is
      passed on: its rows, or its error. Every answer carries the caller's SQL text and
      a summary that counts its rows. */
  lemma AtMostOneQuery(layers: CacheLayers, sql: string, question: Option<string>, now: real,
                       warehouse: Warehouse)
    ensures var o := RunSqlOutcome(layers, sql, question, now, warehouse);
      && (o.queries == [] || o.queries == [sql])
      && (o.queries == [] <==> o.result.Success? && o.result.value.fromCache)
      && (o.queries == [sql] && o.result.Success? ==> warehouse(sql) == Success(o.result.value.rows))
      && (o.result.Failure? ==> warehouse(sql) == Failure(o.result.error))
      && (o.result.Success? ==>
            o.result.value.sql == sql && o.result.value.summary == Summary(|o.result.value.rows|))
  {
    RunSqlPaths(layers, sql, question, now, warehouse);
    var sqlLayer := Evict(layers.sql, NormalizeSql(sql), now);
    if !QuestionHit(layers, question, now) && NormalizeSql(sql) !in sqlLayer.values {
      var questionLayer := QuestionLayerAfterEviction(layers, question, now);
      WarehouseStepFacts(CacheLayers(questionLayer, sqlLayer), sql, QuestionKey(question), now, warehouse);
    }
  }

  /** Expiry is strict: an entry exactly TTL_SECONDS old is still live, one older is not. */
  lemma ExpiryIsStrict(stamp: real, now: real)
    ensures Expired(stamp, now) <==> now > stamp + TtlSeconds as real
    ensures !Expired(stamp, stamp + TtlSeconds as real)
  {
  }

  /** An expired question entry behaves exactly as if it were absent. */
  lemma ExpiredQuestionEntryIsColdMiss(layers: CacheLayers, sql: string, question: string, now: real,
                                       warehouse: Warehouse)
    requires NormalizeQuestion(question) != ""
    requires NormalizeQuestion(question) in layers.question.stamps
    requires Expired(layers.question.stamps[NormalizeQuestion(question)], now)
    ensures var key := NormalizeQuestion(question);
      var without := Layer(layers.question.values - {key}, layers.question.stamps - {key});
      RunSqlOutcome(layers, sql, Some(question), now, warehouse)
        == RunSqlOutcome(CacheLayers(without, layers.sql), sql, Some(question), now, warehouse)
  {
    var key := NormalizeQuestion(question);
    var without := Layer(layers.question.values - {key}, layers.question.stamps - {key});
    assert Evict(without, key, now) == without;
    assert Evict(layers.question, key, now) == without;
  }

  /** An expired SQL entry behaves exactly as if it were absent: the same answer and the
      same queries, and, unless the question layer answered first (which leaves the
      stale entry in place), the same cache afterwards. */
  lemma ExpiredSqlEntryIsColdMiss(layers: CacheLayers, sql: string, question: Option<string>, now: real,
                                  warehouse: Warehouse)
    requires NormalizeSql(sql) in layers.sql.stamps
    requires Expired(layers.sql.stamps[NormalizeSql(sql)], now)
    ensures var key := NormalizeSql(sql);
      var without := Layer(layers.sql.values - {key}, layers.sql.stamps - {key});
      var o := RunSqlOutcome(layers, sql, question, now, warehouse);
      var cold := RunSqlOutcome(CacheLayers(layers.question, without), sql, question, now, warehouse);
      && o.result == cold.result
      && o.queries == cold.queries
      && (!QuestionHit(layers, question, now) ==> o.layers == cold.layers)
  {
    var key := NormalizeSql(sql);
    var without := Layer(layers.sql.values - {key}, layers.sql.stamps - {key});
    assert Evict(without, key, now) == without;
    assert Evict(layers.sql, key, now) == without;
    var lighter := CacheLayers(layers.question, without);
    assert QuestionLayerAfterEviction(lighter, question, now) == QuestionLayerAfterEviction(layers, question, now);
    assert QuestionHit(lighter, question, now) == QuestionHit(layers, question, now);
    RunSqlPaths(layers, sql, question, now, warehouse);
    RunSqlPaths(lighter, sql, question, now, warehouse);
  }

  /** A missing question, or one that normalises to nothing, never reads or writes the
      question layer: the call behaves as a call without a question. */
  lemma BlankQuestionSkipsQuestionLayer(layers: CacheLayers, sql: string, question: Option<string>,
                                        now: real, warehouse: Warehouse)
    requires question.None? || NormalizeQuestion(question.value) == ""
    ensures var o := RunSqlOutcome(layers, sql, question, now, warehouse);
      && o.layers.question == layers.question
      && o == RunSqlOutcome(layers, sql, None, now, warehouse)
  {
    RunSqlPaths(layers, sql, question, now, warehouse);
    var sqlLayer := Evict(layers.sql, NormalizeSql(sql), now);
    if NormalizeSql(sql) !in sqlLayer.values {
      WarehouseStepFacts(CacheLayers(layers.question, sqlLayer), sql, None, now, warehouse);
    }
  }

  /** `key` holds `result`, stamped `now`, and no other entry changed. */
  predicate StoredOnly(after: Layer, before: Layer, key: string, result: QueryResult, now: real) {
    && after.values == before.values[key := result]
    && after.stamps == before.stamps[key := now]
  }

  /** The cache is written exactly when a cacheable SQL text missed both layers and the
      warehouse answered: then the fresh result is stored under the SQL key and, when
      there is a question, under the question key, both stamped `now`. Every other call,
      cache hits included, only removes expired entries, so a hit never refreshes a
      stamp. */
  lemma WritesOnlyCacheableMisses(layers: CacheLayers, sql: string, question: Option<string>,
                                  now: real, warehouse: Warehouse)
    ensures var o := RunSqlOutcome(layers, sql, question, now, warehouse);
      var stores := IsCacheable(sql) && o.queries == [sql] && o.result.Success?;
      var evictedQuestion := QuestionLayerAfterEviction(layers, question, now);
      var evictedSql := Evict(layers.sql, NormalizeSql(sql), now);
      && (!stores ==> Shrunk(o.layers.question, layers.question) && Shrunk(o.layers.sql, layers.sql))
      && (!stores ==> o.layers.question == evictedQuestion
                      && (o.layers.sql == layers.sql || o.layers.sql == evictedSql))
      && (stores ==>
            && StoredOnly(o.layers.sql, evictedSql, NormalizeSql(sql), o.result.value, now)
            && (QuestionKey(question).Some? ==>
                  StoredOnly(o.layers.question, evictedQuestion, QuestionKey(question).value, o.result.value, now))
            && (QuestionKey(question).None? ==> o.layers.question == layers.question))
  {
    RunSqlPaths(layers, sql, question, now, warehouse);
    var questionLayer := QuestionLayerAfterEviction(layers, question, now);
    var sqlLayer := Evict(layers.sql, NormalizeSql(sql), now);
    assert Shrunk(questionLayer, layers.question);
    if !QuestionHit(layers, question, now) && NormalizeSql(sql) !in sqlLayer.values {
      WarehouseStepFacts(CacheLayers(questionLayer, sqlLayer), sql, QuestionKey(question), now, warehouse);
    }
  }

  /** Every call keeps each layer's two dictionaries on the same keys. */
  lemma PairingPreserved(layers: CacheLayers, sql: string, question: Option<string>, now: real,
                         warehouse: Warehouse)
    requires layers.Paired()
    ensures RunSqlOutcome(layers, sql, question, now, warehouse).layers.Paired()
  {
    RunSqlPaths(layers, sql, question, now, warehouse);
    var questionLayer := QuestionLayerAfterEviction(layers, question, now);
    var sqlLayer := Evict(layers.sql, NormalizeSql(sql), now);
    if !QuestionHit(layers, question, now) && NormalizeSql(sql) !in sqlLayer.values {
      WarehouseStepFacts(CacheLayers(questionLayer, sqlLayer), sql, QuestionKey(question), now, warehouse);
    }
  }

  // ---------------------------------------------------------------------------
  // Properties of two calls
  // ---------------------------------------------------------------------------

  /** A cacheable call that went to the warehouse and got rows leaves the fresh result,
      stamped `now`, under the SQL key and, when there is a question, under its key. */
  lemma CacheableMissStores(layers: CacheLayers, sql: string, question: Option<string>,
                            now: real, warehouse: Warehouse)
    requires IsCacheable(sql)
    requires RunSqlOutcome(layers, sql, question, now, warehouse).queries == [sql]
    requires warehouse(sql).Success?
    ensures var o := RunSqlOutcome(layers, sql, question, now, warehouse);
      var computed := QueryResult(sql, warehouse(sql).value, Summary(|warehouse(sql).value|), false);
      && o.result == Success(computed)
      && NormalizeSql(sql) in o.layers.sql.values && o.layers.sql.values[NormalizeSql(sql)] == computed
      && NormalizeSql(sql) in o.layers.sql.stamps && o.layers.sql.stamps[NormalizeSql(sql)] == now
      && (QuestionKey(question).Some? ==>
            && QuestionKey(question).value in o.layers.question.values
            && o.layers.question.values[QuestionKey(question).value] == computed
            && QuestionKey(question).value in o.layers.question.stamps
            && o.layers.question.stamps[QuestionKey(question).value] == now)
  {
    WritesOnlyCacheableMisses(layers, sql, question, now, warehouse);
    AtMostOneQuery(layers, sql, question, now, warehouse);
  }

  /** After a cacheable miss, the same SQL (up to case and whitespace) asked again within
      the TTL, with no question or with one the question layer does not answer, is
      answered from the SQL layer with the same rows, whatever the warehouse would now
      say. */
  lemma RepeatedSqlIsServedFromCache(layers: CacheLayers, sql: string, question: Option<string>,
                                     now: real, warehouse: Warehouse,
                                     again: string, question2: Option<string>, later: real,
                                     laterWarehouse: Warehouse)
    requires IsCacheable(sql)
    requires RunSqlOutcome(layers, sql, question, now, warehouse).queries == [sql]
    requires warehouse(sql).Success?
    requires NormalizeSql(again) == NormalizeSql(sql)
    requires later - now <= TtlSeconds as real
    requires !QuestionHit(RunSqlOutcome(layers, sql, question, now, warehouse).layers, question2, later)
    ensures var first := RunSqlOutcome(layers, sql, question, now, warehouse);
      var second := RunSqlOutcome(first.layers, again, question2, later, laterWarehouse);
      var rows := warehouse(sql).value;
      && second.queries == []
      && second.result == Success(QueryResult(again, rows, Summary(|rows|), true))
  {
    var first := RunSqlOutcome(layers, sql, question, now, warehouse);
    var cache, key := first.layers, NormalizeSql(sql);
    assert && first.result.Success?
           && first.result.value.rows == warehouse(sql).value
           && key in cache.sql.values && cache.sql.values[key] == first.result.value
           && key in cache.sql.stamps && cache.sql.stamps[key] == now by {
      CacheableMissStores(layers, sql, question, now, warehouse);
    }
    SqlLayerServesOnQuestionMiss(cache, again, question2, later, laterWarehouse);
  }

  /** After a cacheable miss with a question, the same question (up to case and
      whitespace) asked again within the TTL is answered from the question layer, even
      when the SQL written for it this time differs. */
  lemma RepeatedQuestionIsServedFromCache(layers: CacheLayers, sql: string, question: string,
                                          now: real, warehouse: Warehouse,
                                          again: string, otherSql: string, later: real,
                                          laterWarehouse: Warehouse)
    requires IsCacheable(sql)
    requires NormalizeQuestion(question) != ""
    requires RunSqlOutcome(layers, sql, Some(question), now, warehouse).queries == [sql]
    requires warehouse(sql).Success?
    requires NormalizeQuestion(again) == NormalizeQuestion(question)
    requires later - now <= TtlSeconds as real
    ensures var first := RunSqlOutcome(layers, sql, Some(question), now, warehouse);
      var second := RunSqlOutcome(first.layers, otherSql, Some(again), later, laterWarehouse);
      var rows := warehouse(sql).value;
      && second.queries == []
      && second.result == Success(QueryResult(otherSql, rows, Summary(|rows|), true))
  {
    var first := RunSqlOutcome(layers, sql, Some(question), now, warehouse);
    CacheableMissStores(layers, sql, Some(question), now, warehouse);
    assert !Expired(first.layers.question.stamps[NormalizeQuestion(again)], later);
    QuestionLayerServesFirst(first.layers, otherSql, again, later, laterWarehouse);
  }
}
