/**
 * The body and the statement of a batch insert. The column list is the key order of
 * the first row; every row is projected onto it (a missing key gives the empty string,
 * a key outside it is dropped), fields are joined by tabs and rows by newlines.
 * Values are taken as already converted to strings and are not escaped.
 */
module TabSeparated {
  import opened Text

  /** A row as a Python dict iterates it: (key, value) entries in insertion order. */
  type Row = seq<(string, string)>

  function Keys(row: Row): (ks: seq<string>)
    ensures |ks| == |row|
  {
    seq(|row|, i requires 0 <= i < |row| => row[i].0)
  }

  function Values(row: Row): (vs: seq<string>)
    ensures |vs| == |row|
  {
    seq(|row|, i requires 0 <= i < |row| => row[i].1)
  }

  /** A dict never holds a key twice. */
  predicate DistinctKeys(row: Row)
  {
    forall i, j :: 0 <= i < j < |row| ==> row[i].0 != row[j].0
  }

  /** `row.get(col, "")`: the value stored under `col`, or the empty string when there is none. */
  function Get(row: Row, col: string): (v: string)
    ensures col !in Keys(row) ==> v == ""
    ensures col in Keys(row) ==> v in Values(row)
  {
    if row == [] then ""
    else if row[0].0 == col then
      assert Keys(row)[0] == col && Values(row)[0] == row[0].1;
      row[0].1
    else
      assert Keys(row[1..]) == Keys(row)[1..];
      assert Values(row[1..]) == Values(row)[1..];
      Get(row[1..], col)
  }

  /** In a dict, looking a key up gives the value stored with it. */
  lemma {:induction false} GetStored(row: Row, j: nat)
    requires DistinctKeys(row)
    requires j < |row|
    ensures Get(row, row[j].0) == row[j].1
  {
    if j > 0 {
      GetStored(row[1..], j - 1);
    }
  }

  /** The fields of one row, one per column, in column order. */
  function Project(row: Row, cols: seq<string>): (fields: seq<string>)
    ensures |fields| == |cols|
  {
    seq(|cols|, i requires 0 <= i < |cols| => Get(row, cols[i]))
  }

  /** The column list: the keys of the first row, in its order. */
  function Columns(rows: seq<Row>): seq<string>
    requires rows != []
  {
    Keys(rows[0])
  }

  /** One payload line per row: its fields joined by tabs. */
  function Lines(rows: seq<Row>, cols: seq<string>): (ls: seq<string>)
    ensures |ls| == |rows|
  {
    seq(|rows|, i requires 0 <= i < |rows| => Join(Project(rows[i], cols), "\t"))
  }

  /** The request body: the lines joined by newlines, with no trailing newline. */
  function Payload(rows: seq<Row>, cols: seq<string>): string
  {
    Join(Lines(rows, cols), "\n")
  }

  /** The statement sent in the `X-ClickHouse-Query` header. */
  function Statement(table: string, cols: seq<string>): string
  {
    "INSERT INTO " + table + " (" + Join(cols, ", ") + ") FORMAT TabSeparated"
  }

  /** A column the row does not have gives an empty field. */
  lemma MissingKeyIsEmpty(row: Row, cols: seq<string>, i: nat)
    requires i < |cols| && cols[i] !in Keys(row)
    ensures Project(row, cols)[i] == ""
  {
  }

  /** A column the row has gives the value stored under it. */
  lemma PresentKeyIsValue(row: Row, cols: seq<string>, i: nat, j: nat)
    requires DistinctKeys(row)
    requires i < |cols| && j < |row| && row[j].0 == cols[i]
    ensures Project(row, cols)[i] == row[j].1
  {
    GetStored(row, j);
  }

  /** The first row is rendered as its own values, in its own order. */
  lemma FirstRowIsItsValues(rows: seq<Row>)
    requires rows != [] && DistinctKeys(rows[0])
    ensures Project(rows[0], Columns(rows)) == Values(rows[0])
  {
    forall j | 0 <= j < |rows[0]|
      ensures Project(rows[0], Columns(rows))[j] == Values(rows[0])[j]
    {
      GetStored(rows[0], j);
    }
  }

  /** Removing the entry at `j` from a row. */
  function Remove(row: Row, j: nat): (r: Row)
    requires j < |row|
    ensures |r| == |row| - 1
  {
    row[..j] + row[j + 1..]
  }

  /** Looking up any other key is not affected by removing an entry. */
  lemma {:induction false} GetRemove(row: Row, j: nat, col: string)
    requires j < |row| && row[j].0 != col
    ensures Get(Remove(row, j), col) == Get(row, col)
  {
    if j > 0 {
      assert Remove(row, j)[1..] == Remove(row[1..], j - 1);
      GetRemove(row[1..], j - 1, col);
    } else {
      assert Remove(row, j) == row[1..];
    }
  }

  /** A key outside the column list is dropped: the row renders as if it were absent. */
  lemma ExtraKeyIgnored(row: Row, cols: seq<string>, j: nat)
    requires j < |row| && row[j].0 !in cols
    ensures Project(Remove(row, j), cols) == Project(row, cols)
  {
    forall i | 0 <= i < |cols|
      ensures Project(Remove(row, j), cols)[i] == Project(row, cols)[i]
    {
      GetRemove(row, j, cols[i]);
    }
  }

  /** No value of any row holds the character `c`. */
  predicate ValuesAvoid(rows: seq<Row>, c: char)
  {
    forall r, k :: 0 <= r < |rows| && 0 <= k < |rows[r]| ==> c !in rows[r][k].1
  }

  /** No field the rows are projected to holds the character `c`. */
  predicate FieldsFree(rows: seq<Row>, cols: seq<string>, c: char)
  {
    forall r, i :: 0 <= r < |rows| && 0 <= i < |cols| ==> c !in Project(rows[r], cols)[i]
  }

  /** Fields drawn from rows whose values avoid `c` avoid `c` as well. */
  lemma FieldsAvoid(rows: seq<Row>, cols: seq<string>, c: char)
    requires ValuesAvoid(rows, c)
    ensures FieldsFree(rows, cols, c)
  {
  }

  /**
   * The layout of the payload, as long as no field holds a tab or a newline: splitting
   * the body at newlines gives exactly one line per row, and splitting a line at tabs
   * gives that row's fields in column order, as many as there are columns. Values under
   * keys outside the column list do not matter, since they are dropped.
   */
  lemma PayloadLayout(rows: seq<Row>, cols: seq<string>)
    requires rows != []
    requires FieldsFree(rows, cols, '\t') && FieldsFree(rows, cols, '\n')
    ensures |Split(Payload(rows, cols), '\n')| == |rows|
    ensures Split(Payload(rows, cols), '\n') == Lines(rows, cols)
    ensures cols != [] ==> forall r :: 0 <= r < |rows| ==>
      Split(Split(Payload(rows, cols), '\n')[r], '\t') == Project(rows[r], cols)
  {
    var ls := Lines(rows, cols);
    forall r | 0 <= r < |rows|
      ensures '\n' !in ls[r]
      ensures cols != [] ==> Split(ls[r], '\t') == Project(rows[r], cols)
    {
      JoinAvoids(Project(rows[r], cols), "\t", '\n');
      if cols != [] {
        SplitJoin(Project(rows[r], cols), '\t');
      }
    }
    SplitJoin(ls, '\n');
  }

  /** Newlines held inside the fields the rows are projected to. */
  function FieldNewlines(rows: seq<Row>, cols: seq<string>): nat
  {
    if rows == [] then 0 else OccurrencesAll(Project(rows[0], cols), '\n') + FieldNewlines(rows[1..], cols)
  }

  /** The newlines in the lines are exactly those inside the fields: tabs add none. */
  lemma {:induction false} LinesNewlines(rows: seq<Row>, cols: seq<string>)
    ensures OccurrencesAll(Lines(rows, cols), '\n') == FieldNewlines(rows, cols)
  {
    if rows != [] {
      LinesNewlines(rows[1..], cols);
      assert Lines(rows, cols)[1..] == Lines(rows[1..], cols);
      JoinCountAvoiding(Project(rows[0], cols), "\t", '\n');
    }
  }

  /**
   * Splitting the payload at newlines gives one piece per row plus one more for every
   * newline inside a field: values are not escaped, so such a newline cuts its row apart.
   */
  lemma PayloadPieces(rows: seq<Row>, cols: seq<string>)
    requires rows != []
    ensures |Split(Payload(rows, cols), '\n')| == |rows| + FieldNewlines(rows, cols)
  {
    SplitCount(Payload(rows, cols), '\n');
    JoinCountAt(Lines(rows, cols), '\n');
    assert "\n" == ['\n'];
    LinesNewlines(rows, cols);
  }

  /** A tab inside a value shifts the fields: the line splits into one field too many. */
  lemma TabInValueAddsField()
    ensures var rows := [[("a", "x\ty")]];
      |Split(Split(Payload(rows, Columns(rows)), '\n')[0], '\t')| == 2
  {
    var rows := [[("a", "x\ty")]];
    assert Columns(rows) == ["a"];
    assert Project(rows[0], ["a"]) == ["x\ty"];
    assert Lines(rows, ["a"]) == ["x\ty"];
    assert Payload(rows, ["a"]) == "x\ty";
    SplitWhole("x\ty", '\n');
    SplitAtFirst("x", "y", '\t');
    assert "x\ty" == "x" + ['\t'] + "y";
    SplitWhole("y", '\t');
  }
}
