/** The subset of Go's `encoding/csv` writer the tracer uses: comma set to ';',
    "\n" line endings, and fields that the writer emits without quotes. */
module Csv {
  import opened GoStrings

  /** The field separator the tracer configures on its writer. */
  const Separator: char := ';'

  /** Characters for which Go's `unicode.IsSpace` holds. */
  predicate IsSpace(ch: char)
  {
    || ch == '\t' || ch == '\n' || ch == '\U{000B}' || ch == '\U{000C}' || ch == '\r' || ch == ' '
    || ch == '\U{0085}' || ch == '\U{00A0}' || ch == '\U{1680}'
    || ('\U{2000}' <= ch <= '\U{200A}')
    || ch == '\U{2028}' || ch == '\U{2029}' || ch == '\U{202F}' || ch == '\U{205F}' || ch == '\U{3000}'
  }

  /** A field the writer copies verbatim: it would not be quoted, because it holds
      no separator, quote or line break, is not the two characters `\.`, and does
      not start with white space. */
  predicate PlainField(f: string)
  {
    && Separator !in f && '"' !in f && '\n' !in f && '\r' !in f
    && f != "\\."
    && (f != [] ==> !IsSpace(f[0]))
  }

  /** Every row has at least one field and every field is plain. */
  predicate PlainRows(rows: seq<seq<string>>)
  {
    forall i :: 0 <= i < |rows| ==> PlainRow(rows[i])
  }

  /** A non-empty row of plain fields. */
  predicate PlainRow(row: seq<string>)
  {
    |row| >= 1 && forall j :: 0 <= j < |row| ==> PlainField(row[j])
  }

  /** One record as the writer emits it: fields separated by ';', then a newline. */
  function EncodeRecord(row: seq<string>): (line: string)
    requires forall j :: 0 <= j < |row| ==> PlainField(row[j])
    ensures |line| >= 1 && line[|line| - 1] == '\n'
    ensures '\n' !in line[..|line| - 1]
  {
    assert forall j :: 0 <= j < |row| ==> PlainField(row[j]) && '\n' !in row[j];
    JoinAvoids(row, Separator, '\n');
    var line := Join(row, Separator) + "\n";
    assert line[..|line| - 1] == Join(row, Separator);
    line
  }

  /** The text of a sequence of records, one line each. */
  function Encode(rows: seq<seq<string>>): (text: string)
    requires PlainRows(rows)
    ensures rows == [] <==> text == []
  {
    if rows == [] then [] else EncodeRecord(rows[0]) + Encode(rows[1..])
  }

  /** Reads the complete lines of `text` back into records, splitting each at ';'. */
  function Decode(text: string): seq<seq<string>>
    decreases |text|
  {
    var i := IndexOf(text, '\n');
    if i == |text| then [] else [Split(text[..i], Separator)] + Decode(text[i + 1..])
  }

  /** Reading the written text back yields the records that were written. */
  lemma {:induction false} DecodeEncode(rows: seq<seq<string>>)
    requires PlainRows(rows)
    ensures Decode(Encode(rows)) == rows
    decreases |rows|
  {
    if rows != [] {
      assert PlainRow(rows[0]);
      assert Encode(rows) == EncodeRecord(rows[0]) + Encode(rows[1..]);
      DecodeRecord(rows[0], Encode(rows[1..]));
      DecodeEncode(rows[1..]);
      assert [rows[0]] + rows[1..] == rows;
    }
  }

  /** The first line of the text is the first record written. */
  lemma DecodeRecord(row: seq<string>, rest: string)
    requires PlainRow(row)
    ensures Decode(EncodeRecord(row) + rest) == [row] + Decode(rest)
  {
    var body := Join(row, Separator);
    var text := EncodeRecord(row) + rest;
    assert forall j :: 0 <= j < |row| ==> PlainField(row[j]) && '\n' !in row[j] && Separator !in row[j];
    JoinAvoids(row, Separator, '\n');
    assert text == body + "\n" + rest;
    IndexOfAfter(body, rest, '\n');
    assert text[..|body|] == body;
    assert text[|body| + 1..] == rest;
    SplitJoin(row, Separator);
  }
}
