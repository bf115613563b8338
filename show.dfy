/** `ShowOne.produce_output` and `ShowOne.dict2columns` of cliff/show.py. */
module Show {
  import opened Ordering
  import opened Selection

  /** What reaches `formatter.emit_one`, and the method's return value. */
  datatype Shown<V> = Shown(columns: seq<string>, values: seq<V>, status: int)

  /**
   * `produce_output(parsed_args, column_names, data)` for one record, with
   * `requested` for `parsed_args.columns`. An empty selection is not an
   * error here: it shows nothing.
   */
  function ProduceOutput<V>(requested: seq<string>, columnNames: seq<string>, data: seq<V>): (r: Shown<V>)
    ensures r.status == 0
    ensures requested == [] ==> r.columns == columnNames && r.values == data
    ensures requested != [] ==>
      && r.columns == IncludedColumns(columnNames, requested)
      && r.values == Compress(data, Selector(columnNames, r.columns))
  {
    if requested == [] then Shown(columnNames, data, 0)
    else
      var included := IncludedColumns(columnNames, requested);
      Shown(included, Compress(data, Selector(columnNames, included)), 0)
  }

  /** When none of the requested columns exists, the record shows two empty lists and no error. */
  lemma ShownEmptySelection<V>(requested: seq<string>, columnNames: seq<string>, data: seq<V>)
    requires requested != []
    requires forall c :: c in columnNames ==> c !in requested
    ensures var shown := ProduceOutput(requested, columnNames, data);
      shown.columns == [] && shown.values == [] && shown.status == 0
  {
    var included := IncludedColumns(columnNames, requested);
    NoneRequested(columnNames, requested);
    CompressNothing(data, Selector(columnNames, included));
  }

  /** When the record has one value per declared column, each shown value stays under its column. */
  lemma ShownAligned<V>(requested: seq<string>, columnNames: seq<string>, data: seq<V>)
    requires |data| == |columnNames|
    ensures var shown := ProduceOutput(requested, columnNames, data);
      && |shown.values| == |shown.columns|
      && Zip(shown.columns, shown.values)
         == (if requested == [] then Zip(columnNames, data)
             else Compress(Zip(columnNames, data), Selector(columnNames, shown.columns)))
  {
    var shown := ProduceOutput(requested, columnNames, data);
    if requested != [] {
      CompressSelectsIncluded(columnNames, requested, shown.columns);
      CompressAligned(columnNames, data, Selector(columnNames, shown.columns));
    }
  }

  /** The two columns `dict2columns` returns: keys and the values under them. */
  datatype Columns<V> = Columns(keys: seq<string>, values: seq<V>)

  /**
   * `dict2columns`: the keys in ascending order and, position by position,
   * their values (`zip(*sorted(data.items()))`); an empty dictionary gives
   * two empty columns.
   */
  function Dict2Columns<V>(data: map<string, V>): (r: Columns<V>)
    ensures data == map[] ==> r.keys == [] && r.values == []
    ensures StrictlySorted(r.keys)
    ensures forall k :: k in r.keys <==> k in data
    ensures |r.values| == |r.keys| == |data|
    ensures forall i :: 0 <= i < |r.keys| ==> r.values[i] == data[r.keys[i]]
  {
    if data == map[] then Columns([], [])
    else
      var keys := SortedSet(data.Keys);
      Columns(keys, seq(|keys|, i requires 0 <= i < |keys| => data[keys[i]]))
  }
}
