/**
 * The column selection shared by cliff/lister.py and cliff/show.py:
 * the requested columns in their declared order, the boolean selector
 * built from them, and `itertools.compress`.
 */
module Selection {

  /** `itertools.compress(data, selectors)`: stops at the shorter of the two. */
  function Compress<V>(data: seq<V>, selectors: seq<bool>): (r: seq<V>)
    ensures |r| <= |data| && |r| <= |selectors|
    decreases |data|
  {
    if data == [] || selectors == [] then []
    else (if selectors[0] then [data[0]] else []) + Compress(data[1..], selectors[1..])
  }

  /** `compress` keeps only values of the data, and all of them under an all-true selector. */
  lemma {:induction false} CompressKeeps<V>(data: seq<V>, selectors: seq<bool>)
    ensures multiset(Compress(data, selectors)) <= multiset(data)
    ensures (forall i :: 0 <= i < |selectors| ==> selectors[i]) && |data| <= |selectors| ==>
      Compress(data, selectors) == data
    decreases |data|
  {
    if data != [] && selectors != [] {
      CompressKeeps(data[1..], selectors[1..]);
      assert data == [data[0]] + data[1..];
    }
  }

  /** `[c for c in column_names if c in requested]`. */
  function IncludedColumns(columnNames: seq<string>, requested: seq<string>): (r: seq<string>)
    ensures forall c :: c in r <==> c in columnNames && c in requested
    ensures |r| <= |columnNames|
    decreases |columnNames|
  {
    if columnNames == [] then []
    else
      assert columnNames == [columnNames[0]] + columnNames[1..];
      (if columnNames[0] in requested then [columnNames[0]] else [])
        + IncludedColumns(columnNames[1..], requested)
  }

  /** When no declared column is requested, none is included. */
  lemma {:induction false} NoneRequested(columnNames: seq<string>, requested: seq<string>)
    requires forall c :: c in columnNames ==> c !in requested
    ensures IncludedColumns(columnNames, requested) == []
    decreases |columnNames|
  {
    if columnNames != [] {
      assert columnNames[0] in columnNames;
      assert forall c :: c in columnNames[1..] ==> c in columnNames;
      NoneRequested(columnNames[1..], requested);
    }
  }

  /** `[(c in included) for c in column_names]`. */
  function Selector(columnNames: seq<string>, included: seq<string>): (r: seq<bool>)
    ensures |r| == |columnNames|
    ensures forall i :: 0 <= i < |columnNames| ==> (r[i] <==> columnNames[i] in included)
  {
    seq(|columnNames|, i requires 0 <= i < |columnNames| => columnNames[i] in included)
  }

  /** Number of positions a selector keeps. */
  function CountKept(selectors: seq<bool>): nat
    decreases |selectors|
  {
    if selectors == [] then 0 else (if selectors[0] then 1 else 0) + CountKept(selectors[1..])
  }

  /**
   * Compressing the column names with the selector gives back the included
   * columns: the selector is true exactly at the included positions.
   */
  lemma {:induction false} CompressSelectsIncluded(columnNames: seq<string>, requested: seq<string>, included: seq<string>)
    requires forall c :: c in columnNames ==> (c in included <==> c in requested)
    ensures Compress(columnNames, Selector(columnNames, included)) == IncludedColumns(columnNames, requested)
    decreases |columnNames|
  {
    if columnNames != [] {
      var tail := columnNames[1..];
      assert Selector(columnNames, included)[1..] == Selector(tail, included);
      assert forall c :: c in tail ==> c in columnNames;
      CompressSelectsIncluded(tail, requested, included);
    }
  }

  /** A selector with no true position keeps nothing. */
  lemma {:induction false} CompressNothing<V>(data: seq<V>, selectors: seq<bool>)
    requires forall i :: 0 <= i < |selectors| ==> !selectors[i]
    ensures Compress(data, selectors) == []
    decreases |data|
  {
    if data != [] && selectors != [] {
      CompressNothing(data[1..], selectors[1..]);
    }
  }

  /** A row as long as the selector keeps one value per selected position. */
  lemma {:induction false} CompressLength<V>(data: seq<V>, selectors: seq<bool>)
    requires |data| == |selectors|
    ensures |Compress(data, selectors)| == CountKept(selectors)
    decreases |data|
  {
    if data != [] {
      CompressLength(data[1..], selectors[1..]);
    }
  }

  /** Pairs a column name with the value at the same position. */
  function Zip<V>(names: seq<string>, values: seq<V>): (r: seq<(string, V)>)
    requires |names| == |values|
    ensures |r| == |names|
    ensures forall i :: 0 <= i < |r| ==> r[i] == (names[i], values[i])
  {
    seq(|names|, i requires 0 <= i < |names| => (names[i], values[i]))
  }

  /**
   * Alignment: compressing the names and a row of values with one selector
   * keeps each value under the name it stood under.
   */
  lemma {:induction false} CompressAligned<V>(names: seq<string>, values: seq<V>, selectors: seq<bool>)
    requires |names| == |values|
    ensures |Compress(names, selectors)| == |Compress(values, selectors)|
    ensures Zip(Compress(names, selectors), Compress(values, selectors)) == Compress(Zip(names, values), selectors)
    decreases |names|
  {
    if names != [] && selectors != [] {
      CompressAligned(names[1..], values[1..], selectors[1..]);
      assert Zip(names, values)[1..] == Zip(names[1..], values[1..]);
    }
  }
}
