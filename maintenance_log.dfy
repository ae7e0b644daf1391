/**
 * Values shared by every stage of the converter: a maintenance-log row, the
 * ways converting a row can fail, and string concatenation of fragments.
 */
module MaintenanceLog {

  /** One data row of the maintenance log, keyed by the log's header names. */
  type Row = map<string, string>

  datatype Option<T> = None | Some(value: T)

  /** Why the conversion stopped; the script raises these and aborts the run. */
  datatype Error =
    | MissingColumn(column: string)     // a KeyError on the row
    | MissingEndColumnKey(index: nat)   // a KeyError on `local_timestamp_end_col{index}` of the field map
    | UnparsableTimestamp(text: string) // the local timestamp text could not be parsed or localised

  datatype Result<T> = Ok(value: T) | Err(error: Error) {
    predicate IsFailure() { Err? }
    function PropagateFailure<U>(): Result<U> requires Err? { Err(error) }
    function Extract(): T requires Ok? { value }
  }

  /** `row[column]`, or the KeyError it raises. */
  function Lookup(row: Row, column: string): Result<string> {
    if column in row then Ok(row[column]) else Err(MissingColumn(column))
  }

  /** Reference definition: the fragments joined left to right, with nothing between them. */
  function Concat(pieces: seq<string>): string {
    if pieces == [] then "" else pieces[0] + Concat(pieces[1..])
  }

  lemma {:induction false} ConcatSnoc(pieces: seq<string>, last: string)
    ensures Concat(pieces + [last]) == Concat(pieces) + last
  {
    if pieces == [] {
      assert [] + [last] == [last];
    } else {
      assert (pieces + [last])[1..] == pieces[1..] + [last];
      ConcatSnoc(pieces[1..], last);
    }
  }
}
