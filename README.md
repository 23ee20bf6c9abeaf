# click_inflation_chatbot: the SQL result cache and the answer formatter

This project models three parts of the chatbot's query path:

- **The SQL execution tool with its two-layer cache.** This is `run_sql` and `run_sql_tool` in `agents/db/tools.py`.
  - Before sending a query to the warehouse, the tool looks in two places. First it checks a cache keyed by the normalized user question. Then it checks a cache keyed by the normalized SQL text.
  - A cache entry older than 180 days is evicted when it is looked up.
  - On a miss, the tool queries the warehouse once. It stores the result only when the SQL passes the cacheability rules: always in the SQL layer, and in the question layer only when there is a question.
- **The cache helpers.** These are in `agents/cache_sql/tools.py`:
  - the key normalizers `normalize_sql` and `normalize_question`;
  - the cacheability rules `is_cacheable_impl`, covering relative-date keywords, `LIMIT`/`TOP`, absolute date literals, month names, `BETWEEN` with a year, and `EXTRACT` of a year and a month;
  - the `CacheState` class;
  - `get_cache_stats`.
- **`format_answer`** (`agent.py`). It turns the tool's result dictionary into the Markdown answer. The possible answers are:
  - "No results found.";
  - a scalar `**Result**` line with thousands separators;
  - a table of at most twenty rows, with a footer when rows were cut off.

Modules:

| file | module | contents |
|---|---|---|
| `wrappers.dfy` | `Wrappers` | `Option` and `Result` |
| `text.dfy` | `Text` | the string operations the source uses: `str.lower` (ASCII), `str.split()`/`str.strip()` on Python's whitespace set, `" ".join`, `str(int)` and the `{:,}` format |
| `patterns.dfy` | `Patterns` | the subset of `re.search` that the cacheability rules use. Patterns are built from literals, `\d`, `\s`, `\w`, bounded and unbounded repetition, and `\b`. Matching has backtracking semantics, and the leftmost-first search is proved equal to "some position matches" |
| `records.dfy` | `Records` | the values, the rows and the result dictionary that flow between the parts |
| `cache_sql_tools.dfy` | `CacheSqlTools` | `agents/cache_sql/tools.py` |
| `db_tools.dfy` | `DbTools` | `agents/db/tools.py` |
| `agent.dfy` | `Agent` | `format_answer` in `agent.py`, and the orchestrator's use of it on the tool's output |

### How `run_sql` is modelled

`run_sql` changes the shared cache state in place, so it is a method that takes the `CacheState` object and modifies it:

- The object holds the four dictionaries.
- The current time is a parameter.
- The BigQuery client is a function parameter from SQL text to rows or an error.

The method's body follows the source step by step. Its postcondition ties the new state, the returned result and the queries sent to the warehouse to the function `RunSqlOutcome`. That function has three stages, one per step of the source, and the lemmas state the cache's promises about it:

- a question hit is served first;
- a question miss falls back to the SQL layer;
- each call sends the warehouse at most one query;
- an expired entry acts like a missing one;
- only cacheable misses are written, and only under their own keys;
- the two dictionaries of each layer keep the same keys;
- a cacheable miss followed, within the TTL, by the same question is answered from the cache with the stored rows. The same SQL is answered that way too when the question layer does not answer it: it comes with no question, or with one that has no live entry.

The SQL-layer key ignores letter case everywhere in the text, string literals included (`CacheSqlTools.NormalizeSqlSameKey`). Two queries that differ only in the case of a literal, such as `= 'FB'` and `= 'fb'`, therefore share one entry, and the second is answered with the first one's rows (`agents/cache_sql/tools.py:114`).

### Where the repository's test scripts and the code differ (the model follows the code)

- `scripts/test_cache_and_counter.py:676` expects a Hebrew month name to make a query cacheable. `MONTH_KEYWORDS` has only English names, so the model does not cache it.
- `scripts/test_state_comprehensive.py:215` calls `format_answer` with a second, question argument. The function takes only the result dictionary (`agent.py:35`).
- `scripts/test_state_comprehensive.py:243` looks for "no results" in lower case. The code returns "No results found.", with a capital N and a full stop (`agent.py:37`).

## Model

| member | source | states |
|---|---|---|
| CacheSqlTools.NormalizeSql | agents/cache_sql/tools.py:98-114 | The key is collapsed: single inner spaces and no leading or trailing space. It has no upper-case letter. It has the same words as the lower-cased input. |
| CacheSqlTools.NormalizeSqlIsJoinedWords | agents/cache_sql/tools.py:112-114 | The key is the words of the lower-cased SQL joined by one space. The empty input gives the same key as the general rule. |
| CacheSqlTools.NormalizeSqlSameKey | agents/cache_sql/tools.py:98-114 | Two texts get the same key if and only if their lower-cased words are the same. |
| CacheSqlTools.NormalizeSqlIdempotent | agents/cache_sql/tools.py:98-114 | Normalizing a key again leaves it unchanged. |
| CacheSqlTools.NormalizeSqlIgnoresCase | agents/cache_sql/tools.py:114 | Texts that differ only in letter case get the same key. |
| CacheSqlTools.NormalizeSqlIgnoresPadding | agents/cache_sql/tools.py:114 | Leading and trailing whitespace does not change the key. |
| CacheSqlTools.NormalizeQuestion | agents/cache_sql/tools.py:117-136 | The question key equals the SQL key of the same text, because stripping before splitting changes nothing. |
| CacheSqlTools.NormalizeQuestionIdempotent | agents/cache_sql/tools.py:117-136 | Normalizing a question key again leaves it unchanged. |
| CacheSqlTools.IsCacheable | agents/cache_sql/tools.py:142-192 | On the lower-cased SQL, cacheable holds if and only if: no relative keyword occurs, no `limit` and no `\btop\s+\d+` occurs, and at least one of these occurs: a date literal of the four patterns, a month name, `between` together with four digits, or both `EXTRACT` patterns. |
| CacheSqlTools.IsCacheableIgnoresCase | agents/cache_sql/tools.py:158 | The decision is the same for a text and its lower-cased form. |
| CacheSqlTools.RelativeKeywordPreventsCaching | agents/cache_sql/tools.py:161-163 | Any occurrence of any relative keyword, in any letter case, makes the query not cacheable. |
| CacheSqlTools.RowLimitPreventsCaching | agents/cache_sql/tools.py:165-167 | A `limit` anywhere, or a `\btop\s+\d+` match anywhere, in the lower-cased SQL makes the query not cacheable. |
| CacheSqlTools.RelativeDateExample | scripts/test_cache_and_counter.py:633 | The tests' `DATE_SUB(CURRENT_DATE(), INTERVAL 1 DAY)` query is not cacheable. |
| CacheSqlTools.LimitExample | scripts/test_cache_and_counter.py:646 | `SELECT * FROM clicks LIMIT 10` is not cacheable. |
| CacheSqlTools.TopExample | scripts/test_cache_and_counter.py:647 | `SELECT TOP 5 * FROM clicks` is not cacheable. The `\btop\s+\d+` rule matches it. |
| CacheSqlTools.CacheState.constructor | agents/cache_sql/tools.py:52-59 | All four dictionaries start empty, so each layer's two dictionaries have the same keys. |
| CacheSqlTools.SampleKeys | agents/cache_sql/tools.py:225-226 | Returns min(5, n) distinct keys of the layer, and all of them when there are at most five. `list(keys)[:5]` takes the five oldest; the model keeps no insertion order (see Left out). |
| CacheSqlTools.GetCacheStats | agents/cache_sql/tools.py:212-227 | Reports the size of each layer and a sample of each layer's keys. |
| DbTools.QuestionKey | agents/db/tools.py:115 | A question key exists if and only if a question was given and it normalizes to a non-empty key. The key is that normalized, collapsed text. |
| DbTools.Evict | agents/db/tools.py:124-128 | Removes the entry exactly when its stamp is over the TTL, from both dictionaries. It never adds anything and touches no other key. It keeps the two dictionaries' keys equal. |
| DbTools.Put | agents/db/tools.py:189-190 | Stores the result and the time under the key, in both dictionaries. |
| DbTools.Served | agents/db/tools.py:136-141 | A hit answers with the caller's SQL, the stored rows and `from_cache` set. |
| DbTools.RunSqlOutcome | agents/db/tools.py:113-201 | Reference definition of one call: the question layer is evicted and looked up first, then the SQL layer, then the warehouse. The lemmas below state its properties. |
| DbTools.SqlLayerStep | agents/db/tools.py:147-163 | Reference definition of the SQL layer's step: evict under the SQL key, answer from the cache on a hit, otherwise go to the warehouse. |
| DbTools.WarehouseStep | agents/db/tools.py:174-201 | Reference definition of the miss path: one query with the caller's SQL, the error passed on, and the result stored in both layers only when the SQL is cacheable. |
| DbTools.RunSql | agents/db/tools.py:84-201 | The new cache state, the result and the warehouse queries are those of `RunSqlOutcome`: question layer, then SQL layer, then one warehouse query and a store if cacheable. |
| DbTools.ExpireQuestion | agents/db/tools.py:122-128 | The question layer becomes its eviction under the key. The SQL layer is unchanged. |
| DbTools.ExpireSql | agents/db/tools.py:147-151 | The SQL layer becomes its eviction under the key. The question layer is unchanged. |
| DbTools.Store | agents/db/tools.py:187-196 | The SQL layer gains the result under the SQL key. The question layer gains it under the question key, if there is one, and is otherwise unchanged. |
| DbTools.RunSqlTool | agents/db/tools.py:208-222 | Behaves exactly as `RunSql` on the input's SQL and question. |
| DbTools.RunSqlPaths | agents/db/tools.py:122-201 | Every call takes one of three paths: a question-layer hit, an SQL-layer hit after question-layer eviction, or the warehouse after both evictions. |
| DbTools.QuestionLayerServesFirst | agents/db/tools.py:122-141 | A live question entry is returned, marked as from cache. The warehouse is not asked and the cache is unchanged. |
| DbTools.SqlLayerServesOnQuestionMiss | agents/db/tools.py:147-163 | Without a question hit, a live SQL entry is returned and the warehouse is not asked. |
| DbTools.AtMostOneQuery | agents/db/tools.py:174-201 | The warehouse gets no query or exactly the caller's SQL. No query happens exactly when the answer is from cache. A fresh answer carries the warehouse's rows, and an error is passed on. The summary counts the rows. |
| DbTools.ExpiryIsStrict | agents/db/tools.py:125 | An entry expires only when more than 180 days have passed. At exactly 180 days it is still live. |
| DbTools.ExpiredQuestionEntryIsColdMiss | agents/db/tools.py:124-128 | An expired question entry gives the same outcome as if it were absent. |
| DbTools.ExpiredSqlEntryIsColdMiss | agents/db/tools.py:147-151 | An expired SQL entry gives the same answer and the same warehouse queries as if it were absent. |
| DbTools.BlankQuestionSkipsQuestionLayer | agents/db/tools.py:113-122 | With no question, or one that normalizes to "", the question layer is neither read nor written. |
| DbTools.WritesOnlyCacheableMisses | agents/db/tools.py:187-199 | Outside a successful cacheable warehouse query, the question layer is exactly its eviction under the question key, and the SQL layer is either unchanged (a question hit) or exactly its eviction under the SQL key. Nothing is added. Such a query stores the result under the SQL key and under the question key, if there is one, and nowhere else. |
| DbTools.PairingPreserved | agents/db/tools.py:124-196 | Every call keeps each layer's result and timestamp dictionaries on the same keys. |
| DbTools.CacheableMissStores | agents/db/tools.py:177-196 | A successful cacheable warehouse query stores its result, stamped with the current time, under the SQL key and under the question key. |
| DbTools.RepeatedSqlIsServedFromCache | agents/db/tools.py:147-163 | After a cacheable miss, SQL with the same key sent within 180 days is answered from cache with the stored rows, and no query is sent, when the question layer does not answer: there is no question, or the question has no live entry. |
| DbTools.RepeatedQuestionIsServedFromCache | agents/db/tools.py:122-141 | After a cacheable miss, the same question asked within 180 days is answered from cache with the stored rows, whatever SQL comes with it. |
| Agent.CellText | agent.py:64 | `str(value)`: "None" for None, the decimal text of an integer, the text itself. |
| Agent.Lookup | agent.py:64 | A value is found if and only if the row has the column, and it is that column's value. |
| Agent.ScalarAnswer | agent.py:47-52 | Reference definition of the one-cell answer: "No data found", the grouped number, or an error for text, each followed by the source note. |
| Agent.TableAnswer | agent.py:54-69 | Reference definition of the table answer: head lines, the first twenty row lines and the footer, joined by newlines, or the first row's `KeyError`. |
| Agent.FormattedAnswer | agent.py:35-69 | Reference definition of `format_answer`: "No results found." for no rows, the scalar answer for one cell, otherwise the table. The lemmas below state its properties. |
| Agent.Cells | agent.py:64 | A row's cells are produced if and only if every header column is present. Each cell is the text of its value, and a missing column is a `KeyError`. |
| Agent.LookupOwnColumn | agent.py:64 | A row's own column looks up its own value. |
| Agent.CellsOfOwnColumns | agent.py:55-64 | The first row always has all of its own columns, in order. |
| Agent.RowLines | agent.py:63-64 | The row lines exist if and only if every row has every header column. Line k is the table line of row k. |
| Agent.RowLinesFirstFailure | agent.py:63-64 | The error raised is that of the first row that misses a column. |
| Agent.FormatAnswer | agent.py:35-69 | The imperative formatter with its row loop returns exactly `FormattedAnswer`. |
| Agent.NoResultsExactlyWhenEmpty | agent.py:36-43 | The answer is "No results found." if and only if the output is missing or has no rows. |
| Agent.ScalarAnswerShowsValue | agent.py:47-52 | A one-cell result shows "No data found" for None, and a number as `{value:,}` renders it (`FormatThousands`), which strips back to its decimal digits. A text value raises. |
| Agent.TableLinesLayout | agent.py:55-67 | The table has the count line with the note, an empty line, the header line, the `---` separator with one cell per header, one line per shown row and the footer exactly when rows were cut off. |
| Agent.TableShowsFirstTwentyRows | agent.py:54-69 | A successful table answer is that layout, every one of its lines fixed, joined by newlines. |
| Agent.TableFailsOnlyOnMissingColumn | agent.py:55-64 | A table fails if and only if a shown row after the first lacks one of the first row's columns. The error names that column. |
| Agent.RowsPastTwentyIgnored | agent.py:63-67 | Rows past the twentieth do not change the answer, only their count does. |
| Agent.FirstLineNamesSource | agent.py:45-57 | Every non-empty answer's first line ends with "(from cache)" or "(from database)", matching the flag. |
| Agent.AnswerReportsCacheUse | agent.py:271-278 | The answer built from the tool's output says "(from cache)" exactly when the warehouse was not queried. |
| Text.Lower | agents/cache_sql/tools.py:114 | Lower-cases character by character and keeps the length. |
| Text.LowerIdempotent | agents/cache_sql/tools.py:114 | Lower-casing twice equals lower-casing once. |
| Text.Split | agents/cache_sql/tools.py:114 | The pieces are non-empty and contain no whitespace. |
| Text.SplitJoin | agents/cache_sql/tools.py:114 | Splitting words joined by one space gives back the words. |
| Text.JoinSplitCollapsed | agents/cache_sql/tools.py:114 | A collapsed text is its own split-and-join. |
| Text.SplitStrip | agents/cache_sql/tools.py:136 | Stripping before splitting does not change the words. |
| Text.Strip | agents/cache_sql/tools.py:136 | The result is a slice of the input with no whitespace at either end. |
| Text.Join | agents/cache_sql/tools.py:114 | `sep.join(parts)`: the parts in order with the separator between neighbours. `Text.SplitJoin` and `Text.JoinSplitCollapsed` relate it to `Split`. |
| Text.NatToString | agents/db/tools.py:180 | `str(n)`: a non-empty string of decimal digits, with no leading zero except for 0 itself. |
| Text.IntToString | agent.py:52 | `str(i)`: a minus sign for negatives, then `str` of the magnitude. |
| Text.NatToStringValue | agents/db/tools.py:180 | The decimal digits denote the number. |
| Text.FormatThousands | agent.py:52 | `{value:,}`: a minus sign exactly for negatives, then digits that start with a digit and have a comma at every fourth place from the right end and nowhere else, which strip back to `str(value)`. |
| Text.GroupThousandsUngroup | agent.py:52 | Removing the commas from grouped digits gives back the digits. |
| Text.GroupThousandsShape | agent.py:52 | Commas stand at every fourth place from the right, and only there. |
| Text.FormatThousandsSmallExample | scripts/test_state_comprehensive.py:216 | 12345 is shown as "12,345". |
| Text.FormatThousandsLargeExample | scripts/test_state_comprehensive.py:256 | 1234567890 is shown as "1,234,567,890". |
| Patterns.SearchFrom | agents/cache_sql/tools.py:166 | The leftmost-first search finds a match if and only if some start position matches. |
| Patterns.Search | agents/cache_sql/tools.py:166 | `re.search(p, s) is not None` holds if and only if the pattern matches at some position. |
| Patterns.Contains | agents/cache_sql/tools.py:162 | `w in s` holds if and only if the text occurs at some position. |
| Patterns.MatchLit | agents/cache_sql/tools.py:162 | A literal pattern matches exactly where its text occurs, which is how `word in sql` behaves. |
| Records.Summary | agents/db/tools.py:180 | `f"Query returned {len(rows)} rows"`. `Records.SummaryReportsCount` shows that it determines the count. |
| Records.SummaryReportsCount | agents/db/tools.py:180 | Different row counts give different summaries. |

## Left out

- The BigQuery client (`get_bq`, `bq_client.execute_query`) is a function parameter. Its singleton creation, its job label and network failures other than the error it returns are not modelled.
- `time.time()` is a parameter `now`, as a real number. Floating-point rounding of timestamps is not modelled.
- The module-level `_global_cache_state` and `get_global_cache_state` are modelled by passing the one `CacheState` object explicitly.
- The `print` diagnostics and the unused `tool_context` argument are left out.
- Concurrency is left out. The source does not lock the shared dictionaries, and the model treats each call as atomic.
- Aliasing is not modelled. The source stores the same result dictionary in both layers and returns it on a miss. The model stores values, so a later change to a returned dictionary cannot reach the cache.
- CacheSqlTools.GetCacheStats: the sample keys it reports come from `CacheSqlTools.SampleKeys`, so they are some min(5, n) keys of each layer, not the five oldest. The reason is on the next line.
- CacheSqlTools.SampleKeys: Python dictionaries keep insertion order, so `list(keys)[:5]` gives the five oldest keys. The model's maps have no order, so the sample is some min(5, n) distinct keys.
- Text.Lower: lower-cases ASCII letters only. `\d` is ASCII digits and `\w` is ASCII letters, digits and `_`. Python's Unicode case mapping and Unicode digit and word classes are not modelled. Whitespace is Python's `str.isspace` set.
- Records.Value: cell values are None, integers or text. BigQuery floats, booleans, dates and decimals are not modelled. On a scalar text value, `{value:,}` raises, and the model returns `NotANumber`.
- The orchestrator and the other agents in `agent.py` are not part of this model. Only the call that formats the tool's result (`agent.py:271-278`) is stated, in `Agent.AnswerReportsCacheUse`.
- DbTools.ExpiredSqlEntryIsColdMiss: on a question-layer hit, the source does not reach the SQL layer. The expired SQL entry then stays in place, so the resulting state equals the cold-miss state only when there is no question hit. The answer and the warehouse queries are always equal.
- DbTools.RunSql: the list of queries sent to the warehouse is a ghost out-parameter. It records what the model promises about warehouse traffic; the source has no such value.
- The positive cases of the cacheability tests, such as `'2025-10-15'` or `EXTRACT(YEAR …) = 2025`, are not stated as lemmas. The rule for them is in `CacheSqlTools.IsCacheable`'s postcondition.
