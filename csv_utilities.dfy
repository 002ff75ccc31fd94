/** The text of a CSV file as `writeCSV` assembles it
    (src/utilities/csv-utilities.ts); writing the text to disk is not part
    of this model. Field values are strings here: the conversion of numeric
    fields to text is left to the caller. */
module CsvUtilities {
  import opened Wrappers
  import opened Strings

  const RowLengthMessage := "Row does not contain the correct amount elements: "

  /** The header columns as written: the first "," of each becomes "_". */
  function HeaderColumns(header: seq<string>): (cols: seq<string>)
    ensures |cols| == |header|
  {
    seq(|header|, i requires 0 <= i < |header| => ReplaceFirst(header[i], ',', '_'))
  }

  /** Every value followed by a comma: the buffer part-way through a line. */
  function Terminated(values: seq<string>): string
  {
    if |values| == 0 then ""
    else Terminated(values[..|values| - 1]) + values[|values| - 1] + ","
  }

  /** Completing a line with its last value gives the comma-joined values. */
  lemma {:induction false} TerminatedJoin(values: seq<string>, v: string)
    ensures Terminated(values) + v == Join(values + [v], ',')
    decreases |values|
  {
    if |values| > 0 {
      var init := values[..|values| - 1];
      var last := values[|values| - 1];
      TerminatedJoin(init, last);
      assert init + [last] == values;
      JoinSnoc(values, v, ',');
    }
  }

  /** One line of the file: the values joined by "," and a newline. */
  function Line(values: seq<string>): string
  {
    Join(values, ',') + "\n"
  }

  /** The lines of all rows, in row order. */
  function Rows(fields: seq<seq<string>>): string
  {
    if |fields| == 0 then ""
    else Rows(fields[..|fields| - 1]) + Line(fields[|fields| - 1])
  }

  /** The whole file: the header line, then one line per row. */
  function CsvText(header: seq<string>, fields: seq<seq<string>>): string
  {
    Line(HeaderColumns(header)) + Rows(fields)
  }

  /** The `forEach` that writes one line's values: each value, and a ","
      after every value but the last. */
  method AppendValues(buffer: string, values: seq<string>) returns (b: string)
    ensures b == buffer + Join(values, ',')
  {
    b := buffer;
    for i := 0 to |values|
      invariant b == buffer + (if i < |values| then Terminated(values[..i]) else Join(values, ','))
    {
      AppendStep(buffer, values, i);
      b := b + values[i];
      if i != |values| - 1 {
        b := b + ",";
      }
    }
  }

  /** One iteration of the `forEach`: value `i` followed by a "," extends the
      terminated prefix, and the last value without one completes the line. */
  lemma {:induction false} AppendStep(buffer: string, values: seq<string>, i: nat)
    requires i < |values|
    ensures i != |values| - 1 ==> buffer + Terminated(values[..i]) + values[i] + "," == buffer + Terminated(values[..i + 1])
    ensures i == |values| - 1 ==> buffer + Terminated(values[..i]) + values[i] == buffer + Join(values, ',')
  {
    var t := Terminated(values[..i]);
    assert values[..i + 1][..i] == values[..i];
    assert Terminated(values[..i + 1]) == t + values[i] + ",";
    assert buffer + t + values[i] + "," == buffer + (t + values[i] + ",");
    if i == |values| - 1 {
      TerminatedJoin(values[..i], values[i]);
      assert values[..i] + [values[i]] == values;
      assert buffer + t + values[i] == buffer + (t + values[i]);
    }
  }

  /** `writeCSV` up to the write: the header line, then one line per row;
      the first row whose length differs from the header's aborts with an
      error naming that row, and no text is produced. */
  method WriteCsv(header: seq<string>, fields: seq<seq<string>>) returns (r: Result<string, string>)
    ensures r.Failure? <==> exists k :: 0 <= k < |fields| && |fields[k]| != |header|
    ensures r.Failure? ==>
      (exists k :: 0 <= k < |fields| && |fields[k]| != |header|
        && (forall j :: 0 <= j < k ==> |fields[j]| == |header|)
        && r.error == RowLengthMessage + Join(fields[k], ','))
    ensures r.Success? ==> r.value == CsvText(header, fields)
  {
    var buffer := "";
    buffer := AppendValues(buffer, HeaderColumns(header));
    buffer := buffer + "\n";
    for k := 0 to |fields|
      invariant forall j :: 0 <= j < k ==> |fields[j]| == |header|
      invariant buffer == Line(HeaderColumns(header)) + Rows(fields[..k])
    {
      var row := fields[k];
      if |row| != |header| {
        return Failure(RowLengthMessage + Join(row, ','));
      }
      assert fields[..k + 1][..k] == fields[..k];
      buffer := AppendValues(buffer, row);
      buffer := buffer + "\n";
    }
    assert fields[..|fields|] == fields;
    return Success(buffer);
  }

  /** Without rows the file is the header line alone. */
  lemma NoRowsHeaderOnly(header: seq<string>)
    ensures CsvText(header, []) == Join(HeaderColumns(header), ',') + "\n"
  {
  }

  /** Only the first "," of a header column is replaced. */
  lemma HeaderReplacesFirstCommaOnly()
    ensures HeaderColumns(["a,b,c"]) == ["a_b,c"]
  {
    var s := "a,b,c";
    assert s[1..] == ",b,c" && s[1..][1..] == "b,c";
    assert ReplaceFirst(s, ',', '_') == "a_b,c";
  }

  /** A character that is neither the separator nor in any part is not in
      the joined text. */
  lemma {:induction false} JoinFree(parts: seq<string>, sep: char, c: char)
    requires c != sep && forall i :: 0 <= i < |parts| ==> c !in parts[i]
    ensures c !in Join(parts, sep)
    decreases |parts|
  {
    if |parts| > 1 {
      JoinFree(parts[1..], sep, c);
    }
  }

  /** The line texts of the file: the joined header columns, then each
      joined row. */
  function LineTexts(header: seq<string>, fields: seq<seq<string>>): (ls: seq<string>)
    ensures |ls| == |fields| + 1
  {
    [Join(HeaderColumns(header), ',')] + seq(|fields|, k requires 0 <= k < |fields| => Join(fields[k], ','))
  }

  /** The file is its lines, each ended by a newline. */
  lemma {:induction false} CsvTextIsLines(header: seq<string>, fields: seq<seq<string>>)
    ensures CsvText(header, fields) == Join(LineTexts(header, fields), '\n') + "\n"
    decreases |fields|
  {
    if |fields| > 0 {
      var init := fields[..|fields| - 1];
      CsvTextIsLines(header, init);
      assert LineTexts(header, fields) == LineTexts(header, init) + [Join(fields[|fields| - 1], ',')];
      JoinSnoc(LineTexts(header, init), Join(fields[|fields| - 1], ','), '\n');
    }
  }

  /** When no column or value holds "," or a newline, and the header is not
      empty, splitting the text at newlines and each line at "," gives back
      the header and the rows: values are written verbatim, one line per row
      in row order. */
  lemma CsvRoundTrip(header: seq<string>, fields: seq<seq<string>>)
    requires |header| > 0
    requires forall k :: 0 <= k < |fields| ==> |fields[k]| == |header|
    requires forall i :: 0 <= i < |header| ==> ',' !in header[i] && '\n' !in header[i]
    requires forall k, i :: 0 <= k < |fields| && 0 <= i < |fields[k]| ==> ',' !in fields[k][i] && '\n' !in fields[k][i]
    ensures |Split(CsvText(header, fields), '\n')| == |fields| + 2
    ensures Split(Split(CsvText(header, fields), '\n')[0], ',') == header
    ensures forall k :: 0 <= k < |fields| ==> Split(Split(CsvText(header, fields), '\n')[k + 1], ',') == fields[k]
  {
    var ls := LineTexts(header, fields);
    assert HeaderColumns(header) == header by {
      forall i | 0 <= i < |header| ensures ReplaceFirst(header[i], ',', '_') == header[i] {
        assert FirstIndexOf(header[i], ',') == |header[i]|;
      }
    }
    forall j | 0 <= j < |ls + [""]| ensures '\n' !in (ls + [""])[j] {
      if j == 0 {
        JoinFree(header, ',', '\n');
      } else if j <= |fields| {
        JoinFree(fields[j - 1], ',', '\n');
      }
    }
    CsvTextIsLines(header, fields);
    JoinSnoc(ls, "", '\n');
    assert CsvText(header, fields) == Join(ls + [""], '\n');
    SplitJoin(ls + [""], '\n');
    SplitJoin(header, ',');
    forall k | 0 <= k < |fields| ensures Split(ls[k + 1], ',') == fields[k] {
      SplitJoin(fields[k], ',');
    }
  }
}
