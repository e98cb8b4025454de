/**
 * core/utils.py: `iter_to_str`, joining the string forms of the items with a
 * delimiter. The items are taken in their string form already.
 */
module Utils {
  import opened DataFrame

  /** The sum of the lengths of the strings in `items`. */
  function TotalLength(items: seq<string>): (n: nat)
  {
    if items == [] then 0 else |items[0]| + TotalLength(items[1..])
  }

  /** The default delimiter of `iter_to_str`. */
  const DefaultDelimiter: string := ","

  /**
   * `iter_to_str(itr, delimiter)`: the items one after the other, with the
   * delimiter between each two neighbours and nowhere else.
   */
  function IterToStr(items: seq<string>, delimiter: string := DefaultDelimiter): (r: string)
    ensures items == [] ==> r == ""
    ensures |items| == 1 ==> r == items[0]
    ensures |items| > 0 ==> |r| == TotalLength(items) + (|items| - 1) * |delimiter|
  {
    if items == [] then ""
    else if |items| == 1 then items[0]
    else items[0] + delimiter + IterToStr(items[1..], delimiter)
  }

  /** Where the `i`-th item starts in the joined string. */
  function Offset(items: seq<string>, delimiter: string, i: nat): (o: nat)
    requires i <= |items|
  {
    TotalLength(items[..i]) + i * |delimiter|
  }

  /** The layout property of `JoinLayout`, for item `i` of `items`. */
  ghost predicate ItemAt(items: seq<string>, delimiter: string, i: nat)
    requires i < |items|
  {
    var r := IterToStr(items, delimiter);
    var o := Offset(items, delimiter, i);
    var e := o + |items[i]|;
    && e <= |r|
    && r[o..e] == items[i]
    && (i + 1 < |items| ==> e + |delimiter| <= |r| && r[e..e + |delimiter|] == delimiter)
    && (i + 1 == |items| ==> e == |r|)
  }

  lemma JoinLayoutFirst(items: seq<string>, delimiter: string)
    requires items != []
    ensures ItemAt(items, delimiter, 0)
  {
    assert items[..0] == [];
    if |items| > 1 {
      var r := IterToStr(items, delimiter);
      assert r == items[0] + delimiter + IterToStr(items[1..], delimiter);
      assert r[..|items[0]|] == items[0];
      assert r[|items[0]|..|items[0]| + |delimiter|] == delimiter;
    }
  }

  /** Item `i` of `items` starts one item and one delimiter later than item `i - 1` of its tail. */
  lemma OffsetTail(items: seq<string>, delimiter: string, i: nat)
    requires 0 < i < |items|
    ensures Offset(items, delimiter, i) == |items[0]| + |delimiter| + Offset(items[1..], delimiter, i - 1)
  {
    assert items[..i][0] == items[0] && items[..i][1..] == items[1..][..i - 1];
  }

  /** A slice of `a + b` past `a` is a slice of `b`. */
  lemma SliceAfter(a: string, b: string, x: nat, y: nat)
    requires x <= y <= |b|
    ensures (a + b)[|a| + x..|a| + y] == b[x..y]
  {
  }

  /**
   * Every item appears in the joined string at its offset, in order, and
   * between item `i` and item `i + 1` there is exactly the delimiter.
   */
  lemma {:induction false} JoinLayout(items: seq<string>, delimiter: string, i: nat)
    requires i < |items|
    ensures ItemAt(items, delimiter, i)
  {
    if i == 0 {
      JoinLayoutFirst(items, delimiter);
    } else {
      var tail := items[1..];
      var head := items[0] + delimiter;
      var rest := IterToStr(tail, delimiter);
      assert IterToStr(items, delimiter) == head + rest;
      JoinLayout(tail, delimiter, i - 1);
      OffsetTail(items, delimiter, i);
      var o := Offset(tail, delimiter, i - 1);
      var e := o + |items[i]|;
      SliceAfter(head, rest, o, e);
      if i + 1 < |items| {
        SliceAfter(head, rest, e, e + |delimiter|);
      }
    }
  }

  /** Joining one more item puts the delimiter and that item at the end. */
  lemma {:induction false} JoinSnoc(items: seq<string>, x: string, delimiter: string)
    requires items != []
    ensures IterToStr(items + [x], delimiter) == IterToStr(items, delimiter) + delimiter + x
  {
    if |items| == 1 {
      assert (items + [x])[1..] == [x];
    } else {
      assert (items + [x])[1..] == items[1..] + [x];
      JoinSnoc(items[1..], x, delimiter);
    }
  }

  /**
   * Joining with "," and splitting on "," as `CSVLoader.data` does gives the
   * items back, as long as none of them holds a comma and there is at least
   * one: the empty list joins to "", which splits into [""].
   */
  lemma {:induction false} JoinSplit(items: seq<string>)
    requires items != []
    requires forall i :: 0 <= i < |items| ==> ',' !in items[i]
    ensures Split(IterToStr(items)) == items
  {
    if |items| == 1 {
      SplitNoComma(items[0]);
    } else {
      JoinSplit(items[1..]);
      SplitFirstPiece(items[0], IterToStr(items[1..]));
    }
  }

  /** The empty list is the one list the round trip loses. */
  lemma EmptyJoinSplit()
    ensures IterToStr([]) == "" && Split(IterToStr([])) == [""]
  {
  }

  /** Splitting any string on "," and joining the pieces with "," gives the string back. */
  lemma {:induction false} SplitJoin(s: string)
    ensures IterToStr(Split(s)) == s
  {
    if s != [] {
      var rest := Split(s[1..]);
      SplitJoin(s[1..]);
      if s[0] == ',' {
        assert Split(s) == [""] + rest;
        assert (Split(s))[1..] == rest;
        assert IterToStr(Split(s)) == "" + "," + IterToStr(rest);
        assert [s[0]] + s[1..] == s;
      } else {
        var first := [s[0]] + rest[0];
        assert Split(s) == [first] + rest[1..];
        if |rest| == 1 {
          assert IterToStr(rest) == rest[0];
          assert IterToStr(Split(s)) == first;
        } else {
          assert (Split(s))[1..] == rest[1..];
          assert IterToStr(Split(s)) == first + "," + IterToStr(rest[1..]);
          assert IterToStr(rest) == rest[0] + "," + IterToStr(rest[1..]);
        }
        assert [s[0]] + s[1..] == s;
      }
    }
  }
}
