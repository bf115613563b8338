/** `Lister.produce_output` of cliff/lister.py: column selection for a list of rows. */
module Lister {
  import opened Wrappers
  import opened Selection

  /** What reaches `formatter.emit_list`, and the method's return value. */
  datatype Listing<V> = Listing(columns: seq<string>, rows: seq<seq<V>>, status: int)

  /** The `ValueError` raised when no requested column is known. */
  datatype ColumnError = NoRecognizedColumns(requested: seq<string>)

  /**
   * `produce_output(parsed_args, column_names, data)` with `requested` for
   * `parsed_args.columns` (empty when the option was not given).
   */
  function ProduceOutput<V>(requested: seq<string>, columnNames: seq<string>, data: seq<seq<V>>)
    : (r: Result<Listing<V>, ColumnError>)
    ensures requested == [] ==> r == Ok(Listing(columnNames, data, 0))
    ensures requested != [] && IncludedColumns(columnNames, requested) == [] ==>
      r == Err(NoRecognizedColumns(requested))
    ensures r.Err? <==> requested != [] && forall c :: c in columnNames ==> c !in requested
    ensures r.Ok? ==> r.value.status == 0 && |r.value.rows| == |data|
    ensures r.Ok? && requested != [] ==>
      && r.value.columns == IncludedColumns(columnNames, requested)
      && r.value.columns != []
      && forall i :: 0 <= i < |data| ==>
           r.value.rows[i] == Compress(data[i], Selector(columnNames, r.value.columns))
  {
    if requested == [] then Ok(Listing(columnNames, data, 0))
    else
      var included := IncludedColumns(columnNames, requested);
      if included == [] then
        assert forall c :: c in columnNames ==> c !in requested;
        Err(NoRecognizedColumns(requested))
      else
        assert exists c :: c in columnNames && c in requested by {
          assert included[0] in included;
        }
        var selector := Selector(columnNames, included);
        Ok(Listing(included, seq(|data|, i requires 0 <= i < |data| => Compress(data[i], selector)), 0))
  }

  /**
   * When the rows have one value per declared column, each listed row has
   * one value per listed column, and each value stays under its column.
   */
  lemma ListedRowsAligned<V>(requested: seq<string>, columnNames: seq<string>, data: seq<seq<V>>, i: nat)
    requires forall k :: 0 <= k < |data| ==> |data[k]| == |columnNames|
    requires ProduceOutput(requested, columnNames, data).Ok?
    requires i < |data|
    ensures var listing := ProduceOutput(requested, columnNames, data).value;
      && |listing.rows[i]| == |listing.columns|
      && Zip(listing.columns, listing.rows[i])
         == (if requested == [] then Zip(columnNames, data[i])
             else Compress(Zip(columnNames, data[i]), Selector(columnNames, listing.columns)))
  {
    var listing := ProduceOutput(requested, columnNames, data).value;
    if requested != [] {
      var selector := Selector(columnNames, listing.columns);
      CompressSelectsIncluded(columnNames, requested, listing.columns);
      CompressAligned(columnNames, data[i], selector);
    }
  }
}
