/**
 * The CSV reading of core/dataframe.py. The file is given as the successive
 * results of `file.readline()`: each is a line with its newline, and an empty
 * string means end of file. `readfile` yields the stripped lines until the
 * first empty read; `CSVLoader.data` splits the first line on "," into the
 * header and every later line into a row; `CSVFrame` hands out those rows.
 */
module DataFrame {
  import opened Wrappers

  // ---------------------------------------------------------------------------
  // `str.strip()` and `str.split(",")`
  // ---------------------------------------------------------------------------

  /** The white space `str.strip()` removes (the characters of `str.isspace`). */
  predicate IsSpace(c: char)
    ensures c == ' ' || c == '\t' || c == '\n' || c == '\r' ==> IsSpace(c)
    ensures c == ',' ==> !IsSpace(c)
  {
    || '\U{0009}' <= c <= '\U{000D}' || '\U{001C}' <= c <= '\U{001F}' || c == ' '
    || c == '\U{0085}' || c == '\U{00A0}' || c == '\U{1680}' || '\U{2000}' <= c <= '\U{200A}'
    || c == '\U{2028}' || c == '\U{2029}' || c == '\U{202F}' || c == '\U{205F}' || c == '\U{3000}'
  }

  ghost predicate AllSpace(s: string)
  {
    forall i :: 0 <= i < |s| ==> IsSpace(s[i])
  }

  /** The number of white-space characters `s` starts with. */
  function LeadingSpaces(s: string): (n: nat)
    ensures n <= |s|
  {
    if s != [] && IsSpace(s[0]) then 1 + LeadingSpaces(s[1..]) else 0
  }

  /** Where the white space `s` ends with begins. */
  function TrimmedEnd(s: string): (m: nat)
    ensures m <= |s|
  {
    if s != [] && IsSpace(s[|s| - 1]) then TrimmedEnd(s[..|s| - 1]) else |s|
  }

  /** The leading white space is all white space, and what follows it is not. */
  lemma {:induction false} LeadingSpacesSpec(s: string)
    ensures AllSpace(s[..LeadingSpaces(s)])
    ensures LeadingSpaces(s) < |s| ==> !IsSpace(s[LeadingSpaces(s)])
  {
    if s != [] && IsSpace(s[0]) {
      LeadingSpacesSpec(s[1..]);
      var n := LeadingSpaces(s);
      assert s[..n] == [s[0]] + s[1..][..n - 1];
    }
  }

  /** The trailing white space is all white space, and what precedes it is not. */
  lemma {:induction false} TrimmedEndSpec(s: string)
    ensures AllSpace(s[TrimmedEnd(s)..])
    ensures TrimmedEnd(s) > 0 ==> !IsSpace(s[TrimmedEnd(s) - 1])
  {
    if s != [] && IsSpace(s[|s| - 1]) {
      var init := s[..|s| - 1];
      TrimmedEndSpec(init);
      var m := TrimmedEnd(s);
      assert s[m..] == init[m..] + [s[|s| - 1]];
      if m > 0 {
        assert s[m - 1] == init[m - 1];
      }
    }
  }

  /** `s.strip()` */
  function Strip(s: string): (r: string)
    ensures r == [] || (!IsSpace(r[0]) && !IsSpace(r[|r| - 1]))
  {
    var t := s[LeadingSpaces(s)..];
    LeadingSpacesSpec(s);
    TrimmedEndSpec(t);
    t[..TrimmedEnd(t)]
  }

  /** The number of commas in `s`. */
  function Commas(s: string): (n: nat)
  {
    if s == [] then 0 else (if s[0] == ',' then 1 else 0) + Commas(s[1..])
  }

  /** `s.split(",")`: one more piece than there are commas, none holding a comma. */
  function Split(s: string): (pieces: seq<string>)
    ensures |pieces| == Commas(s) + 1
    ensures forall i :: 0 <= i < |pieces| ==> ',' !in pieces[i]
  {
    if s == [] then [""] else
      var rest := Split(s[1..]);
      if s[0] == ',' then [""] + rest else [[s[0]] + rest[0]] + rest[1..]
  }

  /** A string without commas splits into itself. */
  lemma {:induction false} SplitNoComma(x: string)
    requires ',' !in x
    ensures Split(x) == [x]
  {
    if x != [] {
      assert ',' !in x[1..];
      SplitNoComma(x[1..]);
      assert [x[0]] + x[1..] == x;
    }
  }

  /** A comma-free piece followed by a comma splits off as the first piece. */
  lemma {:induction false} SplitFirstPiece(x: string, rest: string)
    requires ',' !in x
    ensures Split(x + "," + rest) == [x] + Split(rest)
  {
    if x == [] {
      assert x + "," + rest == [','] + rest;
      assert (x + "," + rest)[1..] == rest;
    } else {
      assert ',' !in x[1..];
      SplitFirstPiece(x[1..], rest);
      assert (x + "," + rest)[1..] == x[1..] + "," + rest;
      assert [x[0]] + x[1..] == x;
    }
  }

  function SplitAll(lines: seq<string>): (rows: seq<seq<string>>)
    ensures |rows| == |lines| && forall i :: 0 <= i < |lines| ==> rows[i] == Split(lines[i])
  {
    seq(|lines|, i requires 0 <= i < |lines| => Split(lines[i]))
  }

  // ---------------------------------------------------------------------------
  // What the generators produce, as functions of the `readline()` results
  // ---------------------------------------------------------------------------

  /**
   * Lines 27-30: the lines `readfile` yields: the stripped reads, in order,
   * up to the first empty read.
   */
  function Lines(raw: seq<string>): (lines: seq<string>)
    ensures |lines| <= |raw|
    ensures forall i :: 0 <= i < |lines| ==> raw[i] != "" && lines[i] == Strip(raw[i])
    ensures |lines| < |raw| ==> raw[|lines|] == ""
  {
    if raw == [] || raw[0] == "" then [] else [Strip(raw[0])] + Lines(raw[1..])
  }

  /** Lines 41-42: the header, or `None` when the first `next` raises `StopIteration`. */
  function Header(raw: seq<string>): (header: Option<seq<string>>)
    ensures header.None? <==> Lines(raw) == []
    ensures header.Some? ==> header.value == Split(Strip(raw[0]))
  {
    var lines := Lines(raw);
    if lines == [] then None else Some(Split(lines[0]))
  }

  /** Lines 44-50: the rows, one per line after the header. */
  function Rows(raw: seq<string>): (rows: seq<seq<string>>)
    ensures Lines(raw) == [] ==> rows == []
    ensures Lines(raw) != [] ==> |rows| == |Lines(raw)| - 1
    ensures forall i :: 0 <= i < |rows| ==> rows[i] == Split(Strip(raw[i + 1]))
  {
    var lines := Lines(raw);
    if lines == [] then [] else SplitAll(lines[1..])
  }

  /**
   * `strip` removes white space at both ends only: the result is a slice of
   * `s` with nothing but white space before and after it.
   */
  lemma StripSlice(s: string)
    ensures exists i, j :: 0 <= i <= j <= |s| && Strip(s) == s[i..j] && AllSpace(s[..i]) && AllSpace(s[j..])
  {
    var i := LeadingSpaces(s);
    var t := s[i..];
    var j := i + TrimmedEnd(t);
    LeadingSpacesSpec(s);
    TrimmedEndSpec(t);
    assert Strip(s) == s[i..j];
    assert s[j..] == t[TrimmedEnd(t)..];
  }

  /** A line without white space at its ends is left as it is. */
  lemma StripKeeps(s: string)
    requires s == [] || (!IsSpace(s[0]) && !IsSpace(s[|s| - 1]))
    ensures Strip(s) == s
  {
  }

  /** A line that reads with its newline is stripped back to the line. */
  lemma StripNewline(s: string)
    requires s != [] && !IsSpace(s[0]) && !IsSpace(s[|s| - 1])
    ensures Strip(s + "\n") == s
  {
    var t := s + "\n";
    assert t[0] == s[0];
    assert LeadingSpaces(t) == 0;
    assert t[..|t| - 1] == s;
    assert IsSpace(t[|t| - 1]);
    assert TrimmedEnd(t) == TrimmedEnd(s) == |s|;
  }

  /**
   * When no read before EOF is empty (what `readline()` guarantees), `readfile`
   * yields every line, stripped, in file order.
   */
  lemma LinesOfFile(raw: seq<string>)
    requires forall i :: 0 <= i < |raw| ==> raw[i] != ""
    ensures |Lines(raw)| == |raw|
    ensures forall i :: 0 <= i < |raw| ==> Lines(raw)[i] == Strip(raw[i])
  {
  }

  /**
   * The header is the first line split on ","; there is one row per later
   * line, in file order, split on "," with nothing trimmed inside the line.
   */
  lemma {:induction false} HeaderAndRows(raw: seq<string>)
    ensures Header(raw).None? <==> Lines(raw) == []
    ensures Lines(raw) != [] ==>
              && Header(raw) == Some(Split(Strip(raw[0])))
              && |Rows(raw)| == |Lines(raw)| - 1
              && forall i :: 0 <= i < |Rows(raw)| ==> Rows(raw)[i] == Split(Strip(raw[i + 1]))
    ensures Lines(raw) == [] ==> Rows(raw) == []
  {
  }

  /**
   * A blank line inside the file reads as "\n", which is not an empty read:
   * it becomes the line "" and the row [""], and reading goes on.
   */
  lemma BlankLineRow(raw: seq<string>, i: nat)
    requires i < |raw| && raw[i] == "\n"
    requires forall j :: 0 <= j < i ==> raw[j] != ""
    ensures i < |Lines(raw)| && Lines(raw)[i] == "" && Split(Lines(raw)[i]) == [""]
  {
    assert IsSpace('\n');
  }

  /** A file with no lines has no header: reading the header fails. */
  lemma EmptyFileHasNoHeader(raw: seq<string>)
    requires raw == [] || raw[0] == ""
    ensures Header(raw).None? && Rows(raw) == []
  {
  }

  // ---------------------------------------------------------------------------
  // The generators
  // ---------------------------------------------------------------------------

  /** The generator `CSVLoader.readfile()` returns (lines 20-32). */
  class LineReader {
    /** The successive results of `file.readline()`. */
    const raw: seq<string>
    /** How many lines the generator has yielded. */
    var pos: nat
    /** The loop has seen the empty read and closed the file. */
    var closed: bool

    ghost predicate Valid()
      reads this
    {
      pos <= |Lines(raw)| && (closed ==> pos == |Lines(raw)|)
    }

    /** The lines the generator has still to yield. */
    ghost function Remaining(): seq<string>
      reads this
      requires Valid()
    {
      Lines(raw)[pos..]
    }

    constructor (raw: seq<string>)
      ensures Valid() && this.raw == raw && pos == 0 && Remaining() == Lines(raw)
    {
      this.raw := raw;
      pos := 0;
      closed := false;
    }

    /** `next(reader)`: the next stripped line, or `None` for `StopIteration`. */
    method Next() returns (line: Option<string>)
      requires Valid()
      modifies this
      ensures Valid()
      ensures old(Remaining()) == [] ==> line.None? && Remaining() == []
      ensures old(Remaining()) != [] ==> line == Some(old(Remaining())[0]) && Remaining() == old(Remaining())[1..]
    {
      if closed {
        return None;
      }
      var read := if pos < |raw| then raw[pos] else "";
      if read == "" {
        closed := true;
        return None;
      }
      line := Some(Strip(read));
      pos := pos + 1;
    }
  }

  /** The generator `_data()` of `CSVLoader.data` (lines 44-50). */
  class RowIterator {
    const lines: LineReader

    ghost predicate Valid()
      reads this, lines
    {
      lines.Valid()
    }

    ghost function Remaining(): seq<seq<string>>
      reads this, lines
      requires Valid()
    {
      SplitAll(lines.Remaining())
    }

    constructor (lines: LineReader)
      ensures this.lines == lines
    {
      this.lines := lines;
    }

    /** `next(rows)`: the next line split on ",", or `None` for `StopIteration`. */
    method Next() returns (row: Option<seq<string>>)
      requires Valid()
      modifies lines
      ensures Valid()
      ensures old(Remaining()) == [] ==> row.None? && Remaining() == []
      ensures old(Remaining()) != [] ==> row == Some(old(Remaining())[0]) && Remaining() == old(Remaining())[1..]
    {
      var line := lines.Next();
      if line.Some? {
        row := Some(Split(line.value));
      } else {
        row := None;
      }
    }
  }

  /** `CSVLoader(filename)`, the file given by its `readline()` results. */
  class CSVLoader {
    const raw: seq<string>

    constructor (raw: seq<string>)
      ensures this.raw == raw
    {
      this.raw := raw;
    }

    /** `readfile()` */
    method ReadFile() returns (reader: LineReader)
      ensures fresh(reader) && reader.Valid() && reader.raw == raw
      ensures reader.Remaining() == Lines(raw)
    {
      reader := new LineReader(raw);
    }

    /**
     * The `data` property (lines 34-52): the header, `None` when the file is
     * empty (the `StopIteration` of line 41), and the row generator.
     */
    method Data() returns (header: Option<seq<string>>, rows: RowIterator)
      ensures fresh(rows) && fresh(rows.lines) && rows.Valid() && rows.lines.raw == raw
      ensures header == Header(raw)
      ensures rows.Remaining() == Rows(raw)
    {
      var reader := ReadFile();
      var first := reader.Next();
      if first.Some? {
        header := Some(Split(first.value));
      } else {
        header := None;
      }
      rows := new RowIterator(reader);
    }
  }

  /** `CSVFrame(filename)` (lines 55-71). */
  class CSVFrame {
    const loader: CSVLoader
    const headers: seq<string>
    const data: RowIterator

    ghost predicate Valid()
      reads this, data, data.lines
    {
      data.Valid() && data.lines.raw == loader.raw
    }

    ghost function Remaining(): seq<seq<string>>
      reads this, data, data.lines
      requires Valid()
    {
      data.Remaining()
    }

    constructor (loader: CSVLoader, headers: seq<string>, data: RowIterator)
      ensures this.loader == loader && this.headers == headers && this.data == data
    {
      this.loader := loader;
      this.headers := headers;
      this.data := data;
    }

    /** `next(frame)`: the next row, or `None` for `StopIteration`. */
    method Next() returns (row: Option<seq<string>>)
      requires Valid()
      modifies data.lines
      ensures Valid()
      ensures old(Remaining()) == [] ==> row.None? && Remaining() == []
      ensures old(Remaining()) != [] ==> row == Some(old(Remaining())[0]) && Remaining() == old(Remaining())[1..]
    {
      row := data.Next();
    }
  }

  /**
   * `CSVFrame(filename)` for a file with `readline()` results `raw`: `None`
   * when the file is empty and `__init__` fails with `StopIteration`.
   */
  method OpenFrame(raw: seq<string>) returns (frame: Option<CSVFrame>)
    ensures frame.None? <==> Header(raw).None?
    ensures frame.Some? ==>
              && fresh(frame.value) && fresh(frame.value.data) && fresh(frame.value.data.lines)
              && frame.value.Valid() && Header(raw) == Some(frame.value.headers)
              && frame.value.Remaining() == Rows(raw)
  {
    var loader := new CSVLoader(raw);
    var header, rows := loader.Data();
    if header.None? {
      return None;
    }
    var f := new CSVFrame(loader, header.value, rows);
    frame := Some(f);
  }
}

/** The file of tests/test_core/test_dataframe.py: "name,age\nSam Jay, 20\nFan Bill, 25". */
module DataFrameExample {
  import opened Wrappers
  import opened DataFrame

  function TestFile(): (raw: seq<string>)
  {
    ["name,age\n", "Sam Jay, 20\n", "Fan Bill, 25"]
  }

  lemma StripExamples()
    ensures Strip("name,age\n") == "name,age"
    ensures Strip("Sam Jay, 20\n") == "Sam Jay, 20"
    ensures Strip("Fan Bill, 25") == "Fan Bill, 25"
  {
    StripHeaderLine();
    StripFirstRow();
    StripKeeps("Fan Bill, 25");
  }

  lemma StripHeaderLine()
    ensures Strip("name,age\n") == "name,age"
  {
    StripNewline("name,age");
    assert "name,age" + "\n" == "name,age\n";
  }

  lemma StripFirstRow()
    ensures Strip("Sam Jay, 20\n") == "Sam Jay, 20"
  {
    StripNewline("Sam Jay, 20");
    assert "Sam Jay, 20" + "\n" == "Sam Jay, 20\n";
  }

  lemma SplitExamples()
    ensures Split("name,age") == ["name", "age"]
    ensures Split("Sam Jay, 20") == ["Sam Jay", " 20"]
    ensures Split("Fan Bill, 25") == ["Fan Bill", " 25"]
  {
    SplitPair("name", "age");
    assert "name" + "," + "age" == "name,age";
    SplitPair("Sam Jay", " 20");
    assert "Sam Jay" + "," + " 20" == "Sam Jay, 20";
    SplitPair("Fan Bill", " 25");
    assert "Fan Bill" + "," + " 25" == "Fan Bill, 25";
  }

  lemma SplitPair(a: string, b: string)
    requires ',' !in a && ',' !in b
    ensures Split(a + "," + b) == [a, b]
  {
    SplitFirstPiece(a, b);
    SplitNoComma(b);
  }

  /** `readfile` yields the three stripped lines, then stops. */
  lemma ReadFileExample()
    ensures Lines(TestFile()) == ["name,age", "Sam Jay, 20", "Fan Bill, 25"]
  {
    StripExamples();
    LinesOfFile(TestFile());
  }

  /** The header is `["name", "age"]`; the rows keep the space in " 20" and " 25". */
  lemma DataExample()
    ensures Header(TestFile()) == Some(["name", "age"])
    ensures Rows(TestFile()) == [["Sam Jay", " 20"], ["Fan Bill", " 25"]]
  {
    HeaderExample();
    RowsExample();
  }

  lemma HeaderExample()
    ensures Header(TestFile()) == Some(["name", "age"])
  {
    ReadFileExample();
    SplitExamples();
  }

  lemma RowsExample()
    ensures Rows(TestFile()) == [["Sam Jay", " 20"], ["Fan Bill", " 25"]]
  {
    ReadFileExample();
    SplitExamples();
    var later := Lines(TestFile())[1..];
    assert later == ["Sam Jay, 20", "Fan Bill, 25"];
    SplitAllPair("Sam Jay, 20", "Fan Bill, 25");
  }

  lemma SplitAllPair(a: string, b: string)
    ensures SplitAll([a, b]) == [Split(a), Split(b)]
  {
  }
}
