# Course-catalog webhook: intent router and course lookups

This project models the Flask webhook of a course-advice chatbot (`main.py`).
A dialogue front end posts an intent name and its parameters; the handler
picks one of four intents (`FindCourseByTitle`, `FindCourseByCategory`,
`FindCourseByTopic`, `FindCourseByPrice`), checks that intent's parameter,
runs one PostgreSQL lookup over the `courses` table and returns a single
Vietnamese `fulfillmentText`: a fallback apology, a clarifying question, a
"not found" text, or an answer that quotes course fields or lists titles
joined by `", "`.

Modules:

- `Wrappers`, `Text` (text.dfy): `Option`; ASCII lower-casing; substring
  containment (what `LOWER(title) LIKE '%q%'` tests); `", ".join` with its
  inverse `Split` and the round-trip lemma.
- `Catalog` (catalog.dfy): the course record; the four SQL statements as a
  `Condition` plus optional `LIMIT`; `Select` is the WHERE clause evaluated
  over the rows in store order.
- `Storage` (storage.dfy): the server (`Database`, holding what a request
  would meet: reachable or not, statements raising or not, the rows) and the
  `Connection` and `Cursor` objects with their `open` flags.
- `Lookups` (lookups.dfy): the four lookups as methods that connect, open a
  cursor, execute, fetch, and close cursor and connection whether or not the
  statement raised (cursor creation itself is taken to succeed);
  each is proved equal to a pure lookup function, whose meaning is
  proved against the rows.
- `Webhook` (webhook.dfy): the request, the handler's if/elif chain as the
  function `Fulfil`, the lookup each request causes (`LookupFor`), and the
  method `Handle`, which calls the lookup methods and is proved to return
  `Fulfil`, to attempt a connection exactly when `LookupFor` names a lookup,
  and to leave every connection and cursor it obtained closed.

`main.py` has exactly these four intents; its category and topic lookups
match by equality of the lower-cased values, with no limit on the number of
rows, and only the title lookup matches by substring and returns one row.

## Model

| member | source | states |
|---|---|---|
| `Storage.Database.Connect` | main.py:8-22 | counts the attempt; returns a fresh open connection without cursors exactly when the server is reachable, null otherwise; a returned connection is appended to the server's record of handed-out connections |
| `Storage.Connection.constructor` | main.py:11-17 | a new open connection without cursors, recorded at the end of its server's handed-out connections; the server's attempt count is unchanged |
| `Storage.Cursor.constructor` | main.py:29 | a new open cursor with an empty result set, recorded among its connection's cursors; the connection's open flag is unchanged |
| `Storage.Connection.NewCursor` | main.py:29 | a fresh open cursor on this connection with an empty result set, added to the connection's cursors; the connection stays open |
| `Storage.Connection.Close` | main.py:39 | the connection is closed afterwards and its cursors are unchanged |
| `Storage.Cursor.Execute` | main.py:31-32 | reports whether the statement raised; if not, the result set is exactly the rows the query selects; the cursor stays open |
| `Storage.Cursor.FetchOne` | main.py:33 | the first row of the result set, or None when it is empty |
| `Storage.Cursor.FetchAll` | main.py:50 | the whole result set |
| `Storage.Cursor.Close` | main.py:38 | the cursor is closed afterwards and its result set is unchanged |
| `Catalog.Satisfies` | main.py:31-32 | the four WHERE clauses: lower-cased title contains the needle, lower-cased category or topic equals the argument, is_paid equals the flag |
| `Catalog.Run` | main.py:31-33 | a statement's result set: the WHERE clause, then the LIMIT |
| `Catalog.TitleQuery` | main.py:31-32 | `LOWER(title) LIKE '%' + title.lower() + '%' LIMIT 1` |
| `Catalog.CategoryQuery` | main.py:48-49 | `LOWER(category) = category_name.lower()`, no limit |
| `Catalog.TopicQuery` | main.py:65-66 | `LOWER(topic) = topic.lower()`, no limit |
| `Catalog.PriceQuery` | main.py:82-83 | `is_paid = is_paid`, no limit |
| `Catalog.Select` | main.py:48 | the WHERE clause: at most as many rows as the catalog, each satisfying the condition |
| `Catalog.Take` | main.py:31 | the LIMIT clause: a prefix of the rows, of length min(limit, rows), all rows without a limit |
| `Catalog.First` | main.py:33 | fetchone: None exactly on an empty result, else its first row |
| `Catalog.SelectMembers` | main.py:48 | a row is selected if and only if it is in the catalog and satisfies the condition |
| `Catalog.SelectConcat` | main.py:48 | selection keeps store order: selecting over a+b is selecting over a followed by selecting over b |
| `Catalog.SelectAllMatch` | main.py:48-50 | nothing matching is dropped: if every row matches, all rows come back |
| `Catalog.SelectFirst` | main.py:31-33 | the selection is empty iff no row matches; otherwise its head is the first matching row in store order |
| `Catalog.FirstOfLimitOne` | main.py:31-33 | LIMIT 1 does not change the row fetchone returns |
| `Text.LowerChar` | main.py:32 | lower-casing maps A-Z to a-z, leaves every other character alone, and never yields an upper-case letter |
| `Text.LowerStr` | main.py:32 | lower-casing a string keeps its length and lower-cases each character in place |
| `Text.LowerIdempotent` | main.py:32 | lower-casing twice equals lower-casing once |
| `Text.Contains` | main.py:31-32 | the substring test `LOWER(title) LIKE '%q%'` performs: t is a prefix of s or of one of its suffixes (its meaning is pinned by `Text.ContainsIff`) |
| `Text.ContainsPosition` | main.py:31-32 | a string that contains t has a position where t occurs |
| `Text.OccursContains` | main.py:31-32 | an occurrence of t at any position makes the string contain t |
| `Text.ContainsIff` | main.py:31-32 | the recursive containment test agrees with "t occurs at some position" |
| `Text.ContainsInfix` | main.py:105 | a text built as a + t + b contains t |
| `Text.ContainsAfter` | main.py:117 | containment survives a prefix put in front |
| `Text.Split` | main.py:117 | splitting at ", " always yields at least one piece |
| `Text.Join` | main.py:117 | `", ".join`: the parts with ", " between consecutive ones (its meaning is given by the split round trip and `Text.JoinContainsParts`) |
| `Text.JoinContainsParts` | main.py:117 | every joined part occurs in the joined text |
| `Text.SplitPart` | main.py:117 | a part without ", " followed by ", " splits off whole |
| `Text.SplitWhole` | main.py:117 | a string without ", " splits into itself alone |
| `Text.SplitJoin` | main.py:117 | round trip: splitting the join of non-empty parts that hold no ", " gives the parts back |
| `Lookups.TitleLookupSpec` | main.py:24-36 | None when the server is unreachable or the query raises; otherwise None exactly when no lower-cased title contains the lower-cased query, else the first such row in store order |
| `Lookups.TitleLookupIgnoresCase` | main.py:31-32 | lower-casing the query beforehand finds the same course |
| `Lookups.CategoryLookupSpec` | main.py:41-53 | [] on any failure; otherwise a course is returned iff it is in the catalog and its lower-cased category equals the lower-cased argument |
| `Lookups.TopicLookupSpec` | main.py:58-70 | [] on any failure; otherwise a course is returned iff it is in the catalog and its lower-cased topic equals the lower-cased argument |
| `Lookups.PriceLookupSpec` | main.py:75-87 | [] on any failure; otherwise a course is returned iff it is in the catalog and its is_paid equals the flag |
| `Lookups.ListLookupOrder` | main.py:48-50 | a lookup without LIMIT returns matches in store order: over rows a+b it is the answer over a, then over b |
| `Lookups.ListLookupComplete` | main.py:48-50 | a lookup without LIMIT has no count limit: if every row matches, every row is returned |
| `Lookups.ListLookupEmpty` | main.py:50-53 | a lookup without LIMIT is empty exactly when it fails or no row matches |
| `Lookups.Available` | main.py:26-36 | a statement can run: `get_db_connection` did not return None and `execute` did not raise `psycopg2.Error` |
| `Lookups.ReleasedSince` | main.py:37-39 | the `finally` closes: every connection handed out since a point, and every cursor created on it, is closed |
| `Lookups.TitleLookup` | main.py:24-36 | the value `get_course_by_title` returns: fetchone of the title statement when the server is reachable and the statement does not raise, None otherwise |
| `Lookups.ListLookup` | main.py:41-53 | the value a fetchall lookup returns: the statement's result set when it can run, [] otherwise |
| `Lookups.CategoryLookup` | main.py:41-53 | the value `get_courses_by_category` returns |
| `Lookups.TopicLookup` | main.py:58-70 | the value `get_courses_by_topic` returns |
| `Lookups.PriceLookup` | main.py:75-87 | the value `get_courses_by_price` returns |
| `Lookups.GetCourseByTitle` | main.py:24-39 | returns the title lookup's result; one connection attempt; exactly one connection handed out when the server is reachable, none otherwise; that connection has exactly one cursor, and it and every cursor on it are closed on exit, whether or not the statement raised; the connections handed out before the call keep their places in the record |
| `Lookups.FetchAllLookup` | main.py:46-56 | returns the list lookup's result for the query; one attempt; the connection handed out, if any, has one cursor, and it and its cursor are closed on exit; the connections handed out before the call keep their places in the record |
| `Lookups.GetCoursesByCategory` | main.py:41-56 | returns the category lookup's result; the connection handed out, if any, and its one cursor are closed on exit, on the success and the error path; the connections handed out before the call keep their places in the record |
| `Lookups.GetCoursesByTopic` | main.py:58-73 | returns the topic lookup's result; the connection handed out, if any, and its one cursor are closed on exit, on the success and the error path; the connections handed out before the call keep their places in the record |
| `Lookups.GetCoursesByPrice` | main.py:75-90 | returns the price lookup's result; the connection handed out, if any, and its one cursor are closed on exit, on the success and the error path; the connections handed out before the call keep their places in the record |
| `Webhook.Recognised` | main.py:100-135 | the intent is one of the four names the if/elif chain tests (main.py:100, 111, 123, 135) |
| `Webhook.Given` | main.py:102 | Python truthiness of a string parameter: present and non-empty (also main.py:113 and main.py:125) |
| `Webhook.LookupFor` | main.py:100-147 | which lookup the handler calls: by title, category or topic when that parameter is given, by price when is_paid is present, none otherwise |
| `Webhook.Fulfil` | main.py:100-149 | the fulfilment text chosen by the if/elif chain for a request against a store |
| `Webhook.TitleAnswer` | main.py:105 | the answer quoting a found course's title, topic and category |
| `Webhook.CategoryPrefix` | main.py:117 | the category list prefix quoting the category as given |
| `Webhook.TopicPrefix` | main.py:129 | the topic list prefix quoting the topic as given |
| `Webhook.PriceLabel` | main.py:141 | "trả phí" when is_paid is true, "miễn phí" otherwise |
| `Webhook.PricePrefix` | main.py:142 | the price list prefix built around the label |
| `Webhook.ListAnswer` | main.py:116-117 | a list answer: the prefix followed by the result's titles joined by ", " |
| `Webhook.Titles` | main.py:116 | the titles of the result, one per course, in result order |
| `Webhook.FallbackForUnknownIntent` | main.py:100-149 | any intent other than the four, absent included, yields exactly the apology and no lookup |
| `Webhook.NoLookupNoStore` | main.py:100-149 | when no lookup runs, the answer is the same whatever the store holds |
| `Webhook.TitleAnswerQuotes` | main.py:105 | the title answer contains the course's title, topic and category verbatim |
| `Webhook.TitleBranch` | main.py:100-109 | absent or empty title: the clarifying question and no lookup; otherwise a title lookup, and the answer quotes the found course's title, topic and category, or is the "not found" text |
| `Webhook.ListAnswerSpec` | main.py:116-117 | a list answer starts with its prefix, contains every result title, and the text after the prefix splits back into exactly the result's titles in order when no title holds ", " |
| `Webhook.ListBranch` | main.py:113-119 | a list branch gives "not found" when the lookup fails or nothing matches, otherwise the list answer, quoting the title of every matching row |
| `Webhook.CategoryBranch` | main.py:111-121 | absent or empty category: the question and no lookup; otherwise a category lookup, "not found" when it fails or no category matches, else the list of the lookup's result quoting every matching title |
| `Webhook.TopicBranch` | main.py:123-133 | the same for topics |
| `Webhook.PriceBranch` | main.py:135-146 | only an absent is_paid asks and skips the lookup; true and false both look up that flag and answer with the list or the "not found" text |
| `Webhook.PricePrefixLabels` | main.py:141-142 | the list prefix says "trả phí" for paid and "miễn phí" for free |
| `Webhook.Handle` | main.py:93-151 | the handler's text equals `Fulfil` for the request against the server's store; it makes one connection attempt when `LookupFor` names a lookup and none otherwise, and every connection it obtained, with every cursor on it, is closed when it returns; the record of earlier connections is kept as a prefix, so releases compose over successive requests |

## Left out

- Flask plumbing (`Blueprint`, the route, `request.get_json`, `jsonify`): the request arrives as an already-decoded intent name and typed optional parameters, and the handler returns the `fulfillmentText` string only.
- A request body that is not a JSON object, and parameters of other types (a non-boolean `is_paid`, a non-string `title`): outside the typed request.
- psycopg2 and the environment configuration: the server is the `Database` object; whether it is reachable and whether statements raise are given in its `Store` rather than produced by a driver.
- The `print` diagnostics: no effect on results.
- SQL `LIKE` wildcards: a `%` or `_` inside the title parameter acts as a wildcard in `main.py`; the model tests plain substring containment.
- Unicode case mapping: `main.py` lower-cases the argument with Python's `str.lower`, which maps all of Unicode, and the column with PostgreSQL's `LOWER`, which follows the database's LC_CTYPE (under the C locale it changes only ASCII), so the two case maps may disagree on letters such as Vietnamese capitals; the model applies one map, `Text.LowerChar`, to both sides, and it maps only A-Z.
- Row order: the statements have no `ORDER BY`, so the server's order is unspecified; the model fixes it as the order of the catalog sequence.
- The `level` and `price` columns: the core never reads them, so `Course` has no fields for them.
- `Storage.Cursor.Execute`: a statement either raises for every query on that server or for none; in `main.py` each statement can fail on its own.
- `Storage.Connection.NewCursor`: creating the cursor always succeeds in the model. In `main.py` `conn.cursor(...)` is called before the `try` (main.py:29, 46, 63, 80), so an error there would skip both `close()` calls, leave the connection open and escape `webhook`.
- NULL columns: no `Course` field can be NULL. In `main.py` a NULL `topic` or `category` would be printed as `None` in the title answer (main.py:105), and a NULL `title` in a list result would make `", ".join` raise (main.py:117), an exception that escapes `webhook`. A row whose `is_paid` is NULL is returned by neither price lookup, since `is_paid = %s` is NULL for it whichever flag is given (main.py:82); the model's `Course.isPaid` is a `bool`, so every row falls in exactly one of the two price results.
- The LIKE escape character: in `main.py` a `\` in the title parameter makes the next pattern character literal; a title ending in `\` escapes the closing `%` of the pattern, so only titles ending in the query without its final `\` followed by a literal `%` match (the query `c\` gives the pattern `%c\%`). The model does a plain substring match on such titles.
