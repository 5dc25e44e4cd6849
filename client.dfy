/**
 * The requests the client posts. Each operation is modelled up to the request it would
 * send: the URL, the body and the headers. Sending it and reading the reply are not
 * part of this model.
 */
module Client {
  import opened Wrappers
  import opened Text
  import opened Connection
  import opened TabSeparated

  /** An HTTP POST as the client assembles it: the URL string it builds, the body, and the headers in the order they are added. */
  datatype Request = Request(url: string, body: string, headers: seq<(string, string)>)

  /** The one header `query` adds (urllib stores its name as `Content-type`; header names are case-insensitive). */
  const PlainText: (string, string) := ("Content-Type", "text/plain")

  /** What a batch insert does: nothing at all for an empty batch, otherwise one request. */
  datatype InsertPlan = NothingToSend | Send(request: Request)

  /**
   * `query(sql, format)`: the SQL text is the body, the format a URL parameter.
   * `query(sql)` without a format is `Query(conn, sql, "JSON")`.
   */
  method Query(conn: Config, sql: string, format: string) returns (req: Request)
    ensures req.url == Url(conn, Some(format))
    ensures req.body == sql
    ensures req.headers == [PlainText]
  {
    var url := RequestUrl(conn, Some(format));
    req := Request(url, sql, [PlainText]);
  }

  /** `query_df(sql)`: a query asking for the JSON format. */
  method QueryDf(conn: Config, sql: string) returns (req: Request)
    ensures req.url == Url(conn, Some("JSON"))
    ensures req.body == sql
    ensures req.headers == [PlainText]
  {
    req := Query(conn, sql, "JSON");
  }

  /**
   * `insert(table, rows)`: an empty batch sends nothing (and reports success); otherwise
   * the rows, projected onto the first row's keys, are the body, and the INSERT statement
   * naming the same columns travels in the `X-ClickHouse-Query` header. The URL has no
   * format parameter.
   */
  method Insert(conn: Config, table: string, rows: seq<Row>) returns (plan: InsertPlan)
    ensures rows == [] <==> plan == NothingToSend
    ensures rows != [] ==> plan == Send(Request(
      Url(conn, None),
      Payload(rows, Columns(rows)),
      [PlainText, ("X-ClickHouse-Query", Statement(table, Columns(rows)))]))
  {
    if rows == [] {
      return NothingToSend;
    }
    var columns := Keys(rows[0]);
    var values: seq<seq<string>> := [];
    var i := 0;
    while i < |rows|
      invariant 0 <= i <= |rows|
      invariant |values| == i
      invariant forall j :: 0 <= j < i ==> values[j] == Project(rows[j], columns)
    {
      values := values + [Project(rows[i], columns)];
      i := i + 1;
    }
    var columnsStr := Join(columns, ", ");
    var valuesLines := seq(|values|, k requires 0 <= k < |values| => Join(values[k], "\t"));
    assert valuesLines == Lines(rows, columns);
    var insertData := Join(valuesLines, "\n");
    var sql := "INSERT INTO " + table + " (" + columnsStr + ") FORMAT TabSeparated";
    var url := RequestUrl(conn, None);
    plan := Send(Request(url, insertData, [PlainText, ("X-ClickHouse-Query", sql)]));
  }
}
