# ClickHouse HTTP client: request assembly and the query builder

This project models, in Dafny, the part of the ClickHouse analytics client
(`src/clickhouse_client.py`) that decides what is sent to the server. It does not model
how the request is sent.

- **Connection settings and request URLs.** The URL string the client builds for every request is
  `http://{host}:{port}/?database={database}`. A query also carries `&format={format}`.
  `&user=` and `&password=` are appended only when the credential is a non-empty string.
  Nothing is URL-escaped.
- **Queries.** `query` and `query_df` post the SQL text as the body, with a
  `Content-Type: text/plain` header. `query_df` asks for the JSON format.
- **Batch insert.** An empty batch sends nothing and reports success. Otherwise:
  - the column list is the key order of the first row;
  - every row is projected onto that list: a missing key gives an empty field, and any other key is dropped;
  - fields are joined by tabs and rows by newlines;
  - the statement `INSERT INTO t (c1, c2) FORMAT TabSeparated` travels in the `X-ClickHouse-Query` header.
- **The fluent `SELECT` builder.** `ClickHouseQuery` accumulates:
  - select columns, WHERE conditions, GROUP BY columns and ORDER BY columns (each call appends);
  - a table and a limit (a later call replaces an earlier one);
  - a descending flag. Every `order_by` call sets it, and a call without `desc` sets it to false.

  `build` renders the clauses in the fixed order SELECT, FROM, WHERE, GROUP BY, ORDER BY, LIMIT, separated by single spaces:
  - SELECT is always there, and is `SELECT *` without columns;
  - each other clause is there only when its input is truthy in Python's sense, so an empty table name and a limit of `0` are left out.

Layout:

| file | module | what it holds |
|---|---|---|
| `wrappers.dfy` | `Wrappers` | `Option` |
| `text.dfy` | `Text` | `str.join`, `str.split` on one character, `str()` of an integer, with their round trips |
| `connection.dfy` | `Connection` | settings, base URL, query parameters, the URL-building method |
| `tab_separated.dfy` | `TabSeparated` | rows as ordered dicts, `dict.get`, the TSV payload and the INSERT statement |
| `client.dfy` | `Client` | the requests built by `query`, `query_df` and `insert` |
| `query_builder.dfy` | `QueryBuilder` | the builder: a `Query` class whose methods update its fields, and the specification of `build` |

A Python dict is modelled as a sequence of `(key, value)` entries in insertion order. The
lemmas that depend on keys being unique ask for that with `DistinctKeys`.

`Build` in the source is one method of six `if` statements. In the model, the SELECT
choice stays in `Build`. Each of the five optional clauses is appended by its own step
method, for example `Query.AppendFrom`. Each step holds the same `if` as the source.
Each step's contract says that the parts so far are the texts of the clauses up to and
including that kind. Chained, these contracts give `Build`'s postcondition: the result is
`Render` of the builder's state. `Render` is the clause list joined by spaces.

## Model

| member | source | states |
|---|---|---|
| Connection.WithDefaults | src/clickhouse_client.py:17-24 | a client made with only a host gets port 8123, database `default`, user `default` and an empty password |
| Connection.RequestUrl | src/clickhouse_client.py:54-59 | the URL grown by appending `&format=`, `&user=` and `&password=` equals `Url`: the base URL, `/?`, and the parameter list joined with `&` |
| Connection.AppendCredentials | src/clickhouse_client.py:98-102 | appending the user and the password, each only when non-empty, extends the URL by exactly the credential parameters |
| Connection.AppendParam | src/clickhouse_client.py:57 | `url += "&name=value"` on a URL carrying parameters `ps` gives the URL carrying `ps` followed by that parameter |
| Connection.ParamsPresence | src/clickhouse_client.py:54-59 | the format, user and password parameters appear exactly when a format is given or the credential is non-empty |
| Connection.ParamsOrder | src/clickhouse_client.py:54-59 | the database comes first and the format right after it; a user parameter carries the configured user right after them; a password parameter carries the configured password and is last |
| Client.Query | src/clickhouse_client.py:52-67 | the request goes to the URL with the given format; its body is the SQL text, and the only header the client adds is `Content-Type: text/plain` |
| Client.QueryDf | src/clickhouse_client.py:75-77 | a query with the JSON format |
| Client.Insert | src/clickhouse_client.py:79-111 | an empty batch sends nothing, and only an empty batch does; otherwise one request goes to the URL without a format parameter. Its body is the TSV payload over the first row's keys, and its headers are the content type and the INSERT statement naming those keys |
| TabSeparated.Get | src/clickhouse_client.py:89 | `row.get(col, "")` is the empty string for a missing key and one of the row's values otherwise |
| TabSeparated.GetStored | src/clickhouse_client.py:89 | in a row with distinct keys, looking a key up gives the value stored with it |
| TabSeparated.MissingKeyIsEmpty | src/clickhouse_client.py:89 | a column the row lacks gives an empty field |
| TabSeparated.PresentKeyIsValue | src/clickhouse_client.py:89 | a column the row has gives the value stored under it |
| TabSeparated.FirstRowIsItsValues | src/clickhouse_client.py:85-89 | the first row is rendered as its own values, in its own key order |
| TabSeparated.GetRemove | src/clickhouse_client.py:89 | removing an entry does not change the lookup of any other key |
| TabSeparated.ExtraKeyIgnored | src/clickhouse_client.py:85-89 | a key outside the column list does not affect the row's fields |
| TabSeparated.FieldsAvoid | src/clickhouse_client.py:85-89 | when no value of any row holds a character, no projected field holds it either |
| TabSeparated.PayloadLayout | src/clickhouse_client.py:92-94 | when no projected field holds a tab or a newline, the body splits at newlines into one line per row, and each line splits at tabs into that row's fields in column order. Values under dropped keys do not matter |
| TabSeparated.LinesNewlines | src/clickhouse_client.py:92-93 | the newlines in the lines are exactly those inside the fields: joining fields with tabs adds none |
| TabSeparated.PayloadPieces | src/clickhouse_client.py:92-94 | the body splits at newlines into one piece per row plus one more for each newline inside a field, since values are not escaped |
| TabSeparated.TabInValueAddsField | src/clickhouse_client.py:93 | a value holding a tab is not escaped: a one-column row splits into two fields |
| Text.JoinSnoc | src/clickhouse_client.py:93-94 | joining one more part adds the separator and that part at the end |
| Text.JoinStartsWithFirst | src/clickhouse_client.py:286 | a joined text begins with its first part |
| Text.JoinAvoids | src/clickhouse_client.py:93-94 | a character in neither the parts nor the separator is not in the joined text |
| Text.Split | src/clickhouse_client.py:93-94 | splitting gives at least one piece, and no piece holds the separator |
| Text.SplitWhole | src/clickhouse_client.py:93-94 | a text without the separator splits into itself alone |
| Text.SplitAtFirst | src/clickhouse_client.py:93-94 | a text cut at a separator splits into the part before it followed by the pieces after it |
| Text.SplitJoin | src/clickhouse_client.py:93-94 | splitting a join of separator-free parts gives the parts back |
| Text.JoinSplit | src/clickhouse_client.py:93-94 | joining the pieces of a split gives the text back |
| Text.SplitCount | src/clickhouse_client.py:94 | splitting at a character gives one piece more than the text has occurrences of it |
| Text.JoinCountAvoiding | src/clickhouse_client.py:93 | joining with a separator that avoids a character adds no occurrence of it |
| Text.JoinCountAt | src/clickhouse_client.py:94 | joining with a one-character separator adds one occurrence of it between every two neighbouring parts |
| Text.NatToDecimal | src/clickhouse_client.py:29 | the decimal form of a natural number is non-empty, all digits, and starts with `0` only for zero |
| Text.DecimalRoundTrip | src/clickhouse_client.py:29 | reading the decimal form back gives the number |
| Text.IntToDecimalRoundTrip | src/clickhouse_client.py:284 | `str(n)` of an integer is a minus sign exactly for negatives, followed by digits whose value is the magnitude |
| QueryBuilder.KindAt | src/clickhouse_client.py:257-284 | the kind of slot `i` of the fixed clause order SELECT, FROM, WHERE, GROUP BY, ORDER BY, LIMIT (the `i`-th `if` block of `build`) has rank `i`; absent clauses leave their slot empty, so this is not position `i` of the rendered statement |
| QueryBuilder.ClausesUpToBodies | src/clickhouse_client.py:258-284 | every clause collected so far is of a present kind and carries that kind's body |
| QueryBuilder.ClausesUpToPresence | src/clickhouse_client.py:258-284 | a clause of a kind is collected exactly when that kind is present |
| QueryBuilder.ClausesUpToInOrder | src/clickhouse_client.py:258-284 | the collected clause kinds strictly increase in rank |
| QueryBuilder.ClausesOrdered | src/clickhouse_client.py:258-286 | the statement opens with SELECT (`*` without columns), and its clause kinds strictly increase: each appears at most once, in the order SELECT, FROM, WHERE, GROUP BY, ORDER BY, LIMIT |
| QueryBuilder.ClausePresence | src/clickhouse_client.py:258-284 | FROM, WHERE, GROUP BY, ORDER BY and LIMIT each appear exactly when the table is non-empty, the lists are non-empty, or the limit is non-zero. Each carries its input: conditions joined by ` AND `, columns by `, `, and ` DESC` once after the ORDER BY columns when the flag is set |
| QueryBuilder.TextsStep | src/clickhouse_client.py:264-284 | appending a clause's text exactly when it is present extends the texts by that kind |
| QueryBuilder.StartsWithSelect | src/clickhouse_client.py:258-261 | the statement begins with its SELECT clause, and with `SELECT *` when no column was selected |
| QueryBuilder.EmptyRendersSelectStar | src/clickhouse_client.py:212-220 | a builder that was given nothing renders `SELECT *` |
| QueryBuilder.ExampleStatement | src/clickhouse_client.py:258-284 | columns `a, b` from `t` with condition `a>1` and limit 10 render `SELECT a, b FROM t WHERE a>1 LIMIT 10` |
| QueryBuilder.ExampleChain | src/clickhouse_client.py:222-286 | the chain `select("a", "b").from_("t").where("a>1").limit(10).build()` on a new builder returns `SELECT a, b FROM t WHERE a>1 LIMIT 10` |
| QueryBuilder.ExampleDescReset | src/clickhouse_client.py:242-246 | `order_by("a", desc=True).order_by("b")` builds `SELECT * ORDER BY a, b`: the second call's omitted flag switches descending order off |
| QueryBuilder.DescResetStatement | src/clickhouse_client.py:276-280 | ORDER BY columns `a, b` with the flag off render `SELECT * ORDER BY a, b` |
| QueryBuilder.Query.constructor | src/clickhouse_client.py:212-220 | a new builder has nothing selected, no table, no conditions, no grouping, no ordering, no limit and an ascending order |
| QueryBuilder.Query.Select | src/clickhouse_client.py:222-225 | appends the columns to the select list, keeps everything else, and returns the same builder |
| QueryBuilder.Query.From | src/clickhouse_client.py:227-230 | replaces the table, keeps everything else, and returns the same builder |
| QueryBuilder.Query.Where | src/clickhouse_client.py:232-235 | appends the conditions, keeps everything else, and returns the same builder |
| QueryBuilder.Query.GroupBy | src/clickhouse_client.py:237-240 | appends the grouping columns, keeps everything else, and returns the same builder |
| QueryBuilder.Query.OrderBy | src/clickhouse_client.py:242-246 | appends the ordering columns, sets the descending flag to this call's argument (false when `desc` is omitted), keeps everything else, and returns the same builder |
| QueryBuilder.Query.Limit | src/clickhouse_client.py:248-251 | replaces the limit, keeps everything else, and returns the same builder |
| QueryBuilder.Query.Build | src/clickhouse_client.py:253-286 | the statement built from the fields is `Render` of the builder's state, so every lemma above about `Render` and `Clauses` holds of it |
| QueryBuilder.Query.AppendFrom | src/clickhouse_client.py:264-265 | appending `FROM t` for a non-empty table extends the clause texts through FROM |
| QueryBuilder.Query.AppendWhere | src/clickhouse_client.py:268-269 | appending the conditions joined by ` AND `, when there are any, extends the clause texts through WHERE |
| QueryBuilder.Query.AppendGroupBy | src/clickhouse_client.py:272-273 | appending the grouping columns, when there are any, extends the clause texts through GROUP BY |
| QueryBuilder.Query.AppendOrderBy | src/clickhouse_client.py:276-280 | appending the ordering columns, with ` DESC` when the flag is set, extends the clause texts through ORDER BY |
| QueryBuilder.Query.AppendLimit | src/clickhouse_client.py:283-284 | appending `LIMIT n` for a non-zero limit extends the clause texts through LIMIT, completing the statement |

Definitions the contracts above are stated against (they carry no contract of their own):

- `Connection.BaseUrl` (src/clickhouse_client.py:26-29): `http://{host}:{port}`, the port in decimal.
- `Connection.LeadParams`, `Connection.Credentials`, `Connection.Params` (src/clickhouse_client.py:54-59, 98-102): the parameter list. It holds the database, then the format when there is one, then the user and the password when each is non-empty.
- `Connection.Url` (src/clickhouse_client.py:54-59, 98-102): the base URL, `/?`, and the parameters written `name=value` and joined with `&`.
- `TabSeparated.Columns` (src/clickhouse_client.py:85): the keys of the first row.
- `TabSeparated.Project` (src/clickhouse_client.py:89): a row's fields, `Get(row, col)` for each column in order.
- `TabSeparated.Lines`, `TabSeparated.Payload` (src/clickhouse_client.py:88-94): each row's fields joined by tabs, and those lines joined by newlines.
- `TabSeparated.Statement` (src/clickhouse_client.py:92, 96): `INSERT INTO {table} ({columns joined by ", "}) FORMAT TabSeparated`.
- `QueryBuilder.Clauses`, `QueryBuilder.Render` (src/clickhouse_client.py:255-286): `Clauses` is the present clauses in the fixed order. `Render` is their texts, keyword and body, joined by single spaces.

## Left out

- Sending requests and reading replies are not modelled: `urllib` requests, the 30-second timeout, JSON decoding of the reply and the `data` field it returns, and the exceptions raised on transport errors. Each operation is modelled up to the URL string, body and headers the client builds.
- Client.Insert: the model stops at the request. It does not model the `True` returned after the server replies; it models only the `True` returned for an empty batch, as `NothingToSend`.
- `str()` of arbitrary row values is not modelled: row values are taken as strings already. Integers rendered into the URL and the LIMIT clause go through `Text.IntToDecimal`.
- Text.IntToDecimal: renders every integer. CPython 3.11 and later raise `ValueError` when converting an integer of more than 4300 digits to a string, so a port or limit that large makes the client fail where the model still renders the digits.
- Values are not escaped in the TSV payload, and settings are not URL-encoded. The model keeps this behaviour; `TabInValueAddsField` shows its effect.
- What urllib does to the URL string is not modelled. It cuts the URL at its last `#` and strips surrounding whitespace. So a setting holding `#` or surrounding whitespace changes the URL actually sent: with password `ab#12` the URL sent ends `&password=ab`. `Url` and `RequestUrl` describe the string the client builds, before that.
- `table_stats`, `execute_file`, `export_csv`, `create_table`, `describe_table` and `list_tables` are not part of this model. They compose SQL strings and call `query`, or they do file I/O.
- The `main` command-line interface is not part of this model.
- Python's dynamic typing is not modelled: the builder's arguments are strings and its limit an integer.
- `*args` become sequences.
- Default arguments are passed explicitly. `order_by(cols)` is `OrderBy(cols, false)`, `query(sql)` is `Query(conn, sql, "JSON")`, and a client made with only a host uses `WithDefaults(host)`.
- Client.Query: urllib stores added header names capitalised (`Content-type`, `X-clickhouse-query`). The model keeps the spelling the client passes; header names are case-insensitive.
- QueryBuilder.Query.Build: the five optional clauses are appended by separate step methods rather than inline in one method body. The `if` conditions and the appended texts are those of the source.
