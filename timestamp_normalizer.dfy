/**
 * Assembly of a local timestamp text from several log columns, and its
 * conversion to a UTC instant. Instants are whole seconds; the localisation
 * itself (strptime with the configured format, then the IANA timezone rules)
 * is a parameter of the model.
 */
module TimestampNormalizer {
  import opened MaintenanceLog

  /** The default duration of an intervention whose end is not logged, in seconds. */
  const HalfHour: int := 30 * 60

  /**
   * `loc_to_UTC`: (timezone name, datetime format, local text) to the UTC
   * instant, or None when the text does not match the format.
   */
  type Localizer = (string, string, string) -> Option<int>

  function ToUtc(localize: Localizer, tz: string, format: string, text: string): Result<int> {
    match localize(tz, format, text)
    case None => Err(UnparsableTimestamp(text))
    case Some(t) => Ok(t)
  }

  /** The error raised at 0-based index `k` of the assembly loop. */
  function MissingAt(columns: seq<string>, k: nat): Error {
    if k < |columns| then MissingColumn(columns[k]) else MissingEndColumnKey(k + 1)
  }

  /**
   * The text after the first `n` rounds of the assembly loop: each round looks
   * up its column name (absent when `columns` is too short), then the row's
   * value there, and appends that value followed by its separator.
   */
  function AssembledPrefix(row: Row, columns: seq<string>, separators: seq<string>, n: nat): Result<string>
    requires n <= |separators|
  {
    if n == 0 then Ok("")
    else
      var prefix :- AssembledPrefix(row, columns, separators, n - 1);
      if n - 1 >= |columns| then Err(MissingEndColumnKey(n))
      else if columns[n - 1] !in row then Err(MissingColumn(columns[n - 1]))
      else Ok(prefix + row[columns[n - 1]] + separators[n - 1])
  }

  /** The whole loop: one round per separator. */
  function Assembled(row: Row, columns: seq<string>, separators: seq<string>): Result<string> {
    AssembledPrefix(row, columns, separators, |separators|)
  }

  /** The first `n` column names exist and name columns of the row. */
  predicate ColumnsPresent(row: Row, columns: seq<string>, n: nat) {
    n <= |columns| && forall i :: 0 <= i < n ==> columns[i] in row
  }

  /** Fragment i: the value of column i followed by separator i. */
  function Fragments(row: Row, columns: seq<string>, separators: seq<string>, n: nat): seq<string>
    requires n <= |separators| && ColumnsPresent(row, columns, n)
  {
    seq(n, i requires 0 <= i < n => row[columns[i]] + separators[i])
  }

  lemma {:induction false} AssembledOkIff(row: Row, columns: seq<string>, separators: seq<string>, n: nat)
    requires n <= |separators|
    ensures AssembledPrefix(row, columns, separators, n).Ok? <==> ColumnsPresent(row, columns, n)
  {
    if n > 0 {
      AssembledOkIff(row, columns, separators, n - 1);
    }
  }

  /** When every column is there, the text is the fragments concatenated in index order. */
  lemma {:induction false} AssembledConcat(row: Row, columns: seq<string>, separators: seq<string>, n: nat)
    requires n <= |separators| && ColumnsPresent(row, columns, n)
    ensures AssembledPrefix(row, columns, separators, n) == Ok(Concat(Fragments(row, columns, separators, n)))
  {
    if n > 0 {
      AssembledConcat(row, columns, separators, n - 1);
      var before := Fragments(row, columns, separators, n - 1);
      assert Fragments(row, columns, separators, n) == before + [row[columns[n - 1]] + separators[n - 1]];
      ConcatSnoc(before, row[columns[n - 1]] + separators[n - 1]);
      var piece := row[columns[n - 1]] + separators[n - 1];
      assert Concat(Fragments(row, columns, separators, n)) == Concat(before) + piece;
      assert Concat(before) + row[columns[n - 1]] + separators[n - 1] == Concat(before) + piece;
    }
  }

  lemma {:induction false} ErrorPersists(row: Row, columns: seq<string>, separators: seq<string>, n: nat, m: nat)
    requires n <= m <= |separators|
    requires AssembledPrefix(row, columns, separators, n).Err?
    ensures AssembledPrefix(row, columns, separators, m) == AssembledPrefix(row, columns, separators, n)
    decreases m
  {
    if m > n {
      ErrorPersists(row, columns, separators, n, m - 1);
    }
  }

  /** The loop stops at the first round whose column name or column is missing. */
  lemma AssembledFirstFailure(row: Row, columns: seq<string>, separators: seq<string>, k: nat)
    requires k < |separators| && ColumnsPresent(row, columns, k)
    requires !ColumnsPresent(row, columns, k + 1)
    ensures Assembled(row, columns, separators) == Err(MissingAt(columns, k))
  {
    AssembledConcat(row, columns, separators, k);
    ErrorPersists(row, columns, separators, k + 1, |separators|);
  }

  /** A failed assembly names a column absent from the row, or an end key past the defined ones. */
  lemma {:induction false} AssembledErrorCause(row: Row, columns: seq<string>, separators: seq<string>, n: nat)
    requires n <= |separators|
    requires AssembledPrefix(row, columns, separators, n).Err?
    ensures var e := AssembledPrefix(row, columns, separators, n).error;
            (e.MissingColumn? ==> e.column !in row)
            && (e.MissingEndColumnKey? ==> |columns| < e.index <= n)
            && !e.UnparsableTimestamp?
  {
    if n > 0 && AssembledPrefix(row, columns, separators, n - 1).Err? {
      AssembledErrorCause(row, columns, separators, n - 1);
    }
  }

  /** The assembly loop of the script. */
  method Assemble(row: Row, columns: seq<string>, separators: seq<string>) returns (r: Result<string>)
    ensures r == Assembled(row, columns, separators)
  {
    var text := "";
    var i := 0;
    while i < |separators|
      invariant 0 <= i <= |separators|
      invariant AssembledPrefix(row, columns, separators, i) == Ok(text)
    {
      if i >= |columns| {
        ErrorPersists(row, columns, separators, i + 1, |separators|);
        return Err(MissingEndColumnKey(i + 1));
      }
      if columns[i] !in row {
        ErrorPersists(row, columns, separators, i + 1, |separators|);
        return Err(MissingColumn(columns[i]));
      }
      text := text + row[columns[i]] + separators[i];
      i := i + 1;
    }
    return Ok(text);
  }
}
