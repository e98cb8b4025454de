/**
 * loader/dataloader.py: `DataLoader.get_data`, which turns every row of the
 * CSV file into the dictionary `dict(zip(headers, row))`, and
 * `DataLoader.save_data`, which builds one model per record and hands it to
 * the model manager, in file order.
 */
module DataLoader {
  import opened Wrappers
  import opened OrderedDict
  import opened DataFrame

  /** A record: column name to the cell's text. */
  type Record = Dict<string>

  function Min(a: nat, b: nat): (m: nat)
  {
    if a < b then a else b
  }

  /**
   * The dictionary built from the first `n` pairs of `zip(headers, row)`,
   * taken in order: a repeated header keeps its first position and its last
   * value.
   */
  function ZipPrefix(headers: seq<string>, row: seq<string>, n: nat): (r: Record)
    requires n <= |headers| && n <= |row|
    ensures Valid(r)
  {
    if n == 0 then Empty() else Put(ZipPrefix(headers, row, n - 1), headers[n - 1], row[n - 1])
  }

  /** `dict(zip(headers, row))`: `zip` stops at the shorter of the two. */
  function Zip(headers: seq<string>, row: seq<string>): (r: Record)
    ensures Valid(r)
  {
    ZipPrefix(headers, row, Min(|headers|, |row|))
  }

  lemma {:induction false} ZipPrefixMembers(headers: seq<string>, row: seq<string>, n: nat)
    requires n <= |headers| && n <= |row|
    ensures forall k :: k in ZipPrefix(headers, row, n).vals <==> k in headers[..n]
  {
    if n > 0 {
      ZipPrefixMembers(headers, row, n - 1);
      var prev := ZipPrefix(headers, row, n - 1);
      assert ZipPrefix(headers, row, n).vals == prev.vals[headers[n - 1] := row[n - 1]];
      assert headers[..n] == headers[..n - 1] + [headers[n - 1]];
      forall k ensures k in ZipPrefix(headers, row, n).vals <==> k in headers[..n] {
        assert k in headers[..n] <==> k in headers[..n - 1] || k == headers[n - 1];
      }
    }
  }

  /**
   * The record has exactly the headers that have a cell: extra cells are
   * dropped and headers past the end of the row are absent.
   */
  lemma ZipTruncates(headers: seq<string>, row: seq<string>)
    ensures forall k :: k in Zip(headers, row).vals <==> k in headers[..Min(|headers|, |row|)]
  {
    ZipPrefixMembers(headers, row, Min(|headers|, |row|));
  }

  /** No column from `i + 1` up to `n` carries the same header as column `i`. */
  ghost predicate LastWithName(headers: seq<string>, n: nat, i: nat)
    requires i < n <= |headers|
  {
    forall j :: i < j < n ==> headers[j] != headers[i]
  }

  lemma {:induction false} ZipPrefixLastWins(headers: seq<string>, row: seq<string>, n: nat, i: nat)
    requires i < n <= |headers| && n <= |row|
    requires LastWithName(headers, n, i)
    ensures headers[i] in ZipPrefix(headers, row, n).vals
    ensures ZipPrefix(headers, row, n).vals[headers[i]] == row[i]
  {
    var prev := ZipPrefix(headers, row, n - 1);
    assert ZipPrefix(headers, row, n).vals == prev.vals[headers[n - 1] := row[n - 1]];
    if i < n - 1 {
      assert LastWithName(headers, n - 1, i);
      ZipPrefixLastWins(headers, row, n - 1, i);
      assert headers[n - 1] != headers[i];
    }
  }

  /** The entries of `s` that do not occur earlier in `s`, in order. */
  function FirstOccurrences(s: seq<string>): (r: seq<string>)
  {
    if s == [] then [] else
      var init := s[..|s| - 1];
      FirstOccurrences(init) + (if s[|s| - 1] in init then [] else [s[|s| - 1]])
  }

  lemma {:induction false} ZipPrefixFirstPositions(headers: seq<string>, row: seq<string>, n: nat)
    requires n <= |headers| && n <= |row|
    ensures ZipPrefix(headers, row, n).keys == FirstOccurrences(headers[..n])
  {
    if n > 0 {
      ZipPrefixFirstPositions(headers, row, n - 1);
      ZipPrefixMembers(headers, row, n - 1);
      assert headers[..n][..n - 1] == headers[..n - 1];
    }
  }

  /**
   * The keys of a record are the headers below the zip length, each at the
   * position of its first column: a repeated header is listed once.
   */
  lemma ZipFirstPositions(headers: seq<string>, row: seq<string>)
    ensures Zip(headers, row).keys == FirstOccurrences(headers[..Min(|headers|, |row|)])
  {
    ZipPrefixFirstPositions(headers, row, Min(|headers|, |row|));
  }

  /**
   * Each header below the zip length maps to the cell of the last column
   * carrying that header.
   */
  lemma ZipLastWins(headers: seq<string>, row: seq<string>, i: nat)
    requires i < Min(|headers|, |row|)
    requires LastWithName(headers, Min(|headers|, |row|), i)
    ensures headers[i] in Zip(headers, row).vals
    ensures Zip(headers, row).vals[headers[i]] == row[i]
  {
    ZipPrefixLastWins(headers, row, Min(|headers|, |row|), i);
  }

  lemma {:induction false} ZipPrefixValues(headers: seq<string>, row: seq<string>, n: nat, k: string)
    requires n <= |headers| && n <= |row|
    requires k in ZipPrefix(headers, row, n).vals
    ensures ZipPrefix(headers, row, n).vals[k] in row[..n]
  {
    var prev := ZipPrefix(headers, row, n - 1);
    assert ZipPrefix(headers, row, n).vals == prev.vals[headers[n - 1] := row[n - 1]];
    assert row[..n] == row[..n - 1] + [row[n - 1]];
    if k != headers[n - 1] {
      ZipPrefixValues(headers, row, n - 1, k);
    }
  }

  /** Every value of a record is one of the cells the zip took. */
  lemma ZipValuesFromRow(headers: seq<string>, row: seq<string>, k: string)
    requires k in Zip(headers, row).vals
    ensures Zip(headers, row).vals[k] in row[..Min(|headers|, |row|)]
  {
    ZipPrefixValues(headers, row, Min(|headers|, |row|), k);
  }

  lemma {:induction false} ZipPrefixKeys(headers: seq<string>, row: seq<string>, n: nat)
    requires n <= |headers| && n <= |row|
    requires Distinct(headers)
    ensures ZipPrefix(headers, row, n).keys == headers[..n]
  {
    if n > 0 {
      ZipPrefixKeys(headers, row, n - 1);
      ZipPrefixKeysStep(headers, row, n);
    }
  }

  lemma ZipPrefixKeysStep(headers: seq<string>, row: seq<string>, n: nat)
    requires 0 < n <= |headers| && n <= |row|
    requires Distinct(headers)
    requires ZipPrefix(headers, row, n - 1).keys == headers[..n - 1]
    ensures ZipPrefix(headers, row, n).keys == headers[..n]
  {
    LastNotBefore(headers, n);
    ZipPrefixNewKey(headers, row, n);
    assert headers[..n] == headers[..n - 1] + [headers[n - 1]];
  }

  /** A header not seen before is appended to the keys. */
  lemma ZipPrefixNewKey(headers: seq<string>, row: seq<string>, n: nat)
    requires 0 < n <= |headers| && n <= |row|
    requires ZipPrefix(headers, row, n - 1).keys == headers[..n - 1]
    requires headers[n - 1] !in headers[..n - 1]
    ensures ZipPrefix(headers, row, n).keys == headers[..n - 1] + [headers[n - 1]]
  {
    var prev := ZipPrefix(headers, row, n - 1);
    assert headers[n - 1] !in prev.vals;
  }

  lemma LastNotBefore(headers: seq<string>, n: nat)
    requires Distinct(headers) && 0 < n <= |headers|
    ensures headers[n - 1] !in headers[..n - 1]
  {
    forall a | 0 <= a < n - 1 ensures headers[a] != headers[n - 1] {
    }
  }

  /**
   * With distinct headers, the record lists the first `min(|headers|, |row|)`
   * headers in order and maps header `i` to cell `i`.
   */
  lemma ZipDistinct(headers: seq<string>, row: seq<string>)
    requires Distinct(headers)
    ensures Zip(headers, row).keys == headers[..Min(|headers|, |row|)]
    ensures forall i :: 0 <= i < Min(|headers|, |row|) ==> Zip(headers, row).vals[headers[i]] == row[i]
  {
    var n := Min(|headers|, |row|);
    ZipPrefixKeys(headers, row, n);
    forall i | 0 <= i < n ensures Zip(headers, row).vals[headers[i]] == row[i] {
      ZipLastWins(headers, row, i);
    }
  }

  /** `dict(zip(headers, data))` for every row, in order. */
  function ZipAll(headers: seq<string>, rows: seq<seq<string>>): (records: seq<Record>)
    ensures |records| == |rows|
    ensures forall i :: 0 <= i < |rows| ==> records[i] == Zip(headers, rows[i])
  {
    seq(|rows|, i requires 0 <= i < |rows| => Zip(headers, rows[i]))
  }

  /** `get_data()`: the records of the rows after the header, `None` when the file is empty. */
  function Records(raw: seq<string>): (records: Option<seq<Record>>)
    ensures records.None? <==> Header(raw).None?
    ensures records.Some? ==>
              && |records.value| == |Rows(raw)|
              && forall i :: 0 <= i < |Rows(raw)| ==> records.value[i] == Zip(Header(raw).value, Rows(raw)[i])
  {
    match Header(raw)
    case None => None
    case Some(headers) => Some(ZipAll(headers, Rows(raw)))
  }

  /**
   * There is one record per line after the header, in file order; record `i`
   * zips the header line's pieces with line `i + 1`'s pieces, kept as text.
   */
  lemma RecordsOfFile(raw: seq<string>)
    requires forall i :: 0 <= i < |raw| ==> raw[i] != ""
    requires raw != []
    ensures Records(raw).Some?
    ensures |Records(raw).value| == |raw| - 1
    ensures forall i :: 0 <= i < |raw| - 1 ==>
              Records(raw).value[i] == Zip(Split(Strip(raw[0])), Split(Strip(raw[i + 1])))
  {
    LinesOfFile(raw);
    HeaderAndRows(raw);
  }

  /** What `model_manager.model(**data)` builds from a record. */
  datatype Model = Model(values: Record)

  /** The models of the records, in record order. */
  function Models(records: seq<Record>): (models: seq<Model>)
    ensures |models| == |records|
    ensures forall i :: 0 <= i < |records| ==> models[i].values == records[i]
  {
    seq(|records|, i requires 0 <= i < |records| => Model(records[i]))
  }

  /** The models `save_data()` saves for `rows`, in order. */
  function SavedModels(headers: seq<string>, rows: seq<seq<string>>): (models: seq<Model>)
  {
    if rows == [] then [] else [Model(Zip(headers, rows[0]))] + SavedModels(headers, rows[1..])
  }

  /** One model per record of the rows, in order. */
  lemma {:induction false} SavedModelsOfRecords(headers: seq<string>, rows: seq<seq<string>>)
    ensures SavedModels(headers, rows) == Models(ZipAll(headers, rows))
  {
    if rows != [] {
      SavedModelsOfRecords(headers, rows[1..]);
      var a, b := SavedModels(headers, rows), Models(ZipAll(headers, rows));
      assert |a| == |b|;
      forall j | 0 <= j < |a| ensures a[j] == b[j] {
        if j > 0 {
          assert a[j] == SavedModels(headers, rows[1..])[j - 1];
        }
      }
    }
  }

  lemma SaveStep(saved: seq<Model>, headers: seq<string>, before: seq<seq<string>>)
    requires before != []
    ensures (saved + [Model(Zip(headers, before[0]))]) + SavedModels(headers, before[1..])
         == saved + SavedModels(headers, before)
  {
  }

  /** The model manager: every model it is given to save, in order. */
  class Manager {
    var saved: seq<Model>

    constructor ()
      ensures saved == []
    {
      saved := [];
    }

    /** `model_manager.save(model)` */
    method Save(model: Model)
      modifies this
      ensures saved == old(saved) + [model]
    {
      saved := saved + [model];
    }
  }

  /**
   * The loop of `save_data()` over the frame of `get_data()`: every remaining
   * row becomes a record and then a model, and is saved, in order.
   */
  method SaveRows(frame: CSVFrame, manager: Manager)
    requires frame.Valid()
    modifies manager, frame.data.lines
    ensures frame.Valid() && frame.Remaining() == []
    ensures manager.saved == old(manager.saved) + SavedModels(frame.headers, old(frame.Remaining()))
  {
    while true
      invariant frame.Valid()
      invariant manager.saved + SavedModels(frame.headers, frame.Remaining())
             == old(manager.saved) + SavedModels(frame.headers, old(frame.Remaining()))
      decreases |frame.Remaining()|
    {
      ghost var before := frame.Remaining();
      ghost var saved := manager.saved;
      var row := frame.Next();
      if row.None? {
        assert manager.saved + [] == manager.saved;
        break;
      }
      var model := Model(Zip(frame.headers, row.value));
      SaveStep(saved, frame.headers, before);
      manager.Save(model);
    }
  }

  /**
   * `save_data()` for the file whose `readline()` results are `raw`: one model
   * per record, saved in record order. An empty file has no header, the
   * generator fails before it yields anything, and nothing is saved.
   */
  method SaveData(raw: seq<string>, manager: Manager) returns (ok: bool)
    modifies manager
    ensures ok <==> Records(raw).Some?
    ensures ok ==> manager.saved == old(manager.saved) + Models(Records(raw).value)
    ensures !ok ==> manager.saved == old(manager.saved)
  {
    var frame := OpenFrame(raw);
    if frame.None? {
      return false;
    }
    SaveRows(frame.value, manager);
    SavedModelsOfRecords(frame.value.headers, Rows(raw));
    ok := true;
  }
}

/** The campaign file of tests/test_loader/test_dataloader.py and small zip cases. */
module DataLoaderExample {
  import opened Wrappers
  import opened OrderedDict
  import opened DataFrame
  import opened DataLoader
  import DataFrameExample

  function CampaignFile(): (raw: seq<string>)
  {
    [ "campaign_id,structure_value,status\n",
      "1578451881,venum,ENABLED\n",
      "1578451584,ellesse,ENABLED\n",
      "1578451386,converse,ENABLED\n",
      "1578412457,wilson,ENABLED\n",
      "9872103720,wham-o,ENABLED\n",
      "9872103720,wham-o,ENABLED\n",
      "1578451386,converse,ENABLED\n",
      "1578451623,spalding,ENABLED\n",
      "1578451386,converse,ENABLED\n" ]
  }

  /** Nine data lines give nine records. */
  lemma CampaignRecordCount()
    ensures Records(CampaignFile()).Some? && |Records(CampaignFile()).value| == 9
  {
    RecordsOfFile(CampaignFile());
  }

  lemma ZipPair(a: string, b: string, x: string, y: string)
    requires a != b
    ensures Zip([a, b], [x, y]).keys == [a, b]
    ensures a in Zip([a, b], [x, y]).vals && Zip([a, b], [x, y]).vals[a] == x
    ensures b in Zip([a, b], [x, y]).vals && Zip([a, b], [x, y]).vals[b] == y
  {
    assert ZipPrefix([a, b], [x, y], 0) == Empty();
    var one := ZipPrefix([a, b], [x, y], 1);
    assert one == Put(Empty(), a, x);
    assert Zip([a, b], [x, y]) == Put(one, b, y);
  }

  /** The records of the small file of tests/test_core/test_dataframe.py keep the cells as text. */
  lemma TestFileRecords()
    ensures Records(DataFrameExample.TestFile()).Some?
    ensures var rs := Records(DataFrameExample.TestFile()).value;
            && |rs| == 2
            && rs[0] == Zip(["name", "age"], ["Sam Jay", " 20"])
            && rs[1] == Zip(["name", "age"], ["Fan Bill", " 25"])
  {
    var f := DataFrameExample.TestFile();
    DataFrameExample.DataExample();
    var rows := Rows(f);
    assert rows[0] == ["Sam Jay", " 20"] && rows[1] == ["Fan Bill", " 25"];
  }

  lemma TestFileFirstRecord()
    ensures var r := Zip(["name", "age"], ["Sam Jay", " 20"]);
            r.keys == ["name", "age"] && "age" in r.vals && r.vals["name"] == "Sam Jay" && r.vals["age"] == " 20"
  {
    ZipPair("name", "age", "Sam Jay", " 20");
  }

  /** A repeated header keeps its first position and the later cell. */
  lemma DuplicateHeaderExample()
    ensures Zip(["id", "id"], ["1", "2"]).keys == ["id"]
    ensures Zip(["id", "id"], ["1", "2"]).vals["id"] == "2"
  {
    var h, w := ["id", "id"], ["1", "2"];
    var one := ZipPrefix(h, w, 1);
    assert one == Put(Empty(), "id", "1");
    assert one.keys == ["id"] && "id" in one.vals;
    assert Zip(h, w) == Put(one, "id", "2");
  }

  /** A short row leaves the later headers out; a long row loses its extra cells. */
  lemma TruncationExample()
    ensures Zip(["id", "name"], ["1"]).keys == ["id"]
    ensures "name" !in Zip(["id", "name"], ["1"]).vals
    ensures Zip(["id"], ["1", "2"]).keys == ["id"] && Zip(["id"], ["1", "2"]).vals["id"] == "1"
  {
    var short := Zip(["id", "name"], ["1"]);
    assert short == ZipPrefix(["id", "name"], ["1"], 1) == Put(Empty(), "id", "1");
    var long := Zip(["id"], ["1", "2"]);
    assert long == ZipPrefix(["id"], ["1", "2"], 1) == Put(Empty(), "id", "1");
  }

  /** Three comma-free pieces joined by commas split back into the three. */
  lemma SplitTriple(a: string, b: string, c: string)
    requires ',' !in a && ',' !in b && ',' !in c
    ensures Split(a + "," + b + "," + c) == [a, b, c]
  {
    assert a + "," + b + "," + c == a + "," + (b + "," + c);
    SplitFirstPiece(a, b + "," + c);
    DataFrameExample.SplitPair(b, c);
  }

  /** The header line of the campaign file. */
  lemma CampaignHeaderLine()
    ensures Split(Strip(CampaignFile()[0])) == ["campaign_id", "structure_value", "status"]
  {
    HeaderStrip();
    HeaderSplit();
  }

  lemma HeaderStrip()
    ensures Strip(CampaignFile()[0]) == "campaign_id,structure_value,status"
  {
    var s := "campaign_id,structure_value,status";
    StripNewline(s);
    assert s + "\n" == CampaignFile()[0];
  }

  lemma HeaderSplit()
    ensures Split("campaign_id,structure_value,status") == ["campaign_id", "structure_value", "status"]
  {
    assert "campaign_id" + "," + "structure_value" + "," + "status" == "campaign_id,structure_value,status";
    SplitTriple("campaign_id", "structure_value", "status");
  }

  /** The first data line of the campaign file. */
  lemma CampaignFirstLine()
    ensures Split(Strip(CampaignFile()[1])) == ["1578451881", "venum", "ENABLED"]
  {
    FirstStrip();
    FirstSplit();
  }

  lemma FirstStrip()
    ensures Strip(CampaignFile()[1]) == "1578451881,venum,ENABLED"
  {
    var s := "1578451881,venum,ENABLED";
    StripNewline(s);
    assert s + "\n" == CampaignFile()[1];
  }

  lemma FirstSplit()
    ensures Split("1578451881,venum,ENABLED") == ["1578451881", "venum", "ENABLED"]
  {
    assert "1578451881" + "," + "venum" + "," + "ENABLED" == "1578451881,venum,ENABLED";
    SplitTriple("1578451881", "venum", "ENABLED");
  }

  /** Three distinct headers zipped with three cells. */
  lemma ZipTriple(a: string, b: string, c: string, x: string, y: string, z: string)
    requires a != b && a != c && b != c
    ensures Zip([a, b, c], [x, y, z]).keys == [a, b, c]
    ensures Zip([a, b, c], [x, y, z]).vals == map[a := x, b := y, c := z]
  {
    var h, r := [a, b, c], [x, y, z];
    ZipDistinct(h, r);
    ZipTruncates(h, r);
    assert h[..3] == h;
    var v := Zip(h, r).vals;
    assert v[a] == x && v[b] == y && v[c] == z;
    assert v.Keys == {a, b, c};
  }

  /** The first campaign record holds the three cells of the first data line, as text. */
  lemma CampaignFirstRecord()
    ensures Records(CampaignFile()).Some?
    ensures var r := Records(CampaignFile()).value[0];
            && r.keys == ["campaign_id", "structure_value", "status"]
            && r.vals == map["campaign_id" := "1578451881", "structure_value" := "venum", "status" := "ENABLED"]
  {
    RecordsOfFile(CampaignFile());
    CampaignHeaderLine();
    CampaignFirstLine();
    ZipTriple("campaign_id", "structure_value", "status", "1578451881", "venum", "ENABLED");
  }
}
