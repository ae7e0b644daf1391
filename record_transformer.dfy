/**
 * The body of the script's main loop: one maintenance-log row to one
 * normalised record, driven by the field map and enriched from the registry.
 */
module RecordTransformer {
  import opened MaintenanceLog
  import opened FieldMapConfig
  import opened AssetRegistry
  import opened TimestampNormalizer

  /** The record built for one row (`pre_json`), in the script's key order. */
  datatype Record = Record(
    logger: string,
    idAsset: string,
    timestamp: string,
    timestampEnd: string,
    recordType: string,
    maintenanceType: string,
    maintenanceAction: string,
    resetBaseline: int,
    resetAgan: int,
    gpsLatitude: string,
    gpsLongitude: string)

  /** `strftime` with the fixed output format: a UTC instant to its text. */
  type Formatter = int -> string

  // ---------------------------------------------------------------- action text

  /** The action text after the first `n` rounds: description j, then the row's value at action column j. */
  function ActionPrefix(row: Row, actions: seq<ActionColumn>, n: nat): Result<string>
    requires n <= |actions|
  {
    if n == 0 then Ok("")
    else
      var prefix :- ActionPrefix(row, actions, n - 1);
      var value :- Lookup(row, actions[n - 1].column);
      Ok(prefix + actions[n - 1].description + value)
  }

  function ActionText(row: Row, actions: seq<ActionColumn>): Result<string> {
    ActionPrefix(row, actions, |actions|)
  }

  predicate ActionColumnsPresent(row: Row, actions: seq<ActionColumn>, n: nat)
    requires n <= |actions|
  {
    forall j :: 0 <= j < n ==> actions[j].column in row
  }

  function ActionFragments(row: Row, actions: seq<ActionColumn>, n: nat): seq<string>
    requires n <= |actions| && ActionColumnsPresent(row, actions, n)
  {
    seq(n, j requires 0 <= j < n => actions[j].description + row[actions[j].column])
  }

  lemma {:induction false} ActionOkIff(row: Row, actions: seq<ActionColumn>, n: nat)
    requires n <= |actions|
    ensures ActionPrefix(row, actions, n).Ok? <==> ActionColumnsPresent(row, actions, n)
  {
    if n > 0 {
      ActionOkIff(row, actions, n - 1);
    }
  }

  /** With every action column present, the text is the fragments in index order; "" for none. */
  lemma {:induction false} ActionConcat(row: Row, actions: seq<ActionColumn>, n: nat)
    requires n <= |actions| && ActionColumnsPresent(row, actions, n)
    ensures ActionPrefix(row, actions, n) == Ok(Concat(ActionFragments(row, actions, n)))
  {
    if n > 0 {
      ActionConcat(row, actions, n - 1);
      var before := ActionFragments(row, actions, n - 1);
      var piece := actions[n - 1].description + row[actions[n - 1].column];
      assert ActionFragments(row, actions, n) == before + [piece];
      ConcatSnoc(before, piece);
      assert Concat(before) + actions[n - 1].description + row[actions[n - 1].column] == Concat(before) + piece;
    }
  }

  lemma {:induction false} ActionErrorPersists(row: Row, actions: seq<ActionColumn>, n: nat, m: nat)
    requires n <= m <= |actions|
    requires ActionPrefix(row, actions, n).Err?
    ensures ActionPrefix(row, actions, m) == ActionPrefix(row, actions, n)
    decreases m
  {
    if m > n {
      ActionErrorPersists(row, actions, n, m - 1);
    }
  }

  /** The action loop stops at the first action column missing from the row. */
  lemma ActionFirstFailure(row: Row, actions: seq<ActionColumn>, k: nat)
    requires k < |actions| && ActionColumnsPresent(row, actions, k)
    requires actions[k].column !in row
    ensures ActionText(row, actions) == Err(MissingColumn(actions[k].column))
  {
    ActionConcat(row, actions, k);
    ActionErrorPersists(row, actions, k + 1, |actions|);
  }

  /** A failed action loop names an action column absent from the row. */
  lemma {:induction false} ActionErrorCause(row: Row, actions: seq<ActionColumn>, n: nat)
    requires n <= |actions|
    requires ActionPrefix(row, actions, n).Err?
    ensures ActionPrefix(row, actions, n).error.MissingColumn?
    ensures ActionPrefix(row, actions, n).error.column !in row
  {
    if n > 0 && ActionPrefix(row, actions, n - 1).Err? {
      ActionErrorCause(row, actions, n - 1);
    }
  }

  /** The action loop of the script. */
  method BuildAction(row: Row, actions: seq<ActionColumn>) returns (r: Result<string>)
    ensures r == ActionText(row, actions)
  {
    var action := "";
    for j := 0 to |actions|
      invariant ActionPrefix(row, actions, j) == Ok(action)
    {
      if actions[j].column !in row {
        ActionErrorPersists(row, actions, j + 1, |actions|);
        return Err(MissingColumn(actions[j].column));
      }
      action := action + actions[j].description + row[actions[j].column];
    }
    return Ok(action);
  }

  // ---------------------------------------------------------------- the whole row

  /** `type` and `maintenance_type`: the static value when no column is configured, else the row's value. */
  function Selected(row: Row, column: string, fallback: string): Result<string> {
    if column == "" then Ok(fallback) else Lookup(row, column)
  }

  /** The start and end UTC instants of the row. */
  function Instants(cfg: FieldMap, localize: Localizer, row: Row): Result<(int, int)> {
    var startText :- Assembled(row, cfg.StartColumns(), cfg.Separators());
    var start :- ToUtc(localize, cfg.localTz, cfg.datetimeFormat, startText);
    if cfg.EndProvided() then
      var endText :- Assembled(row, cfg.endColumns, cfg.Separators());
      var end :- ToUtc(localize, cfg.localTz, cfg.datetimeFormat, endText);
      Ok((start, end))
    else
      Ok((start, start + HalfHour))
  }

  /** One iteration of the main loop, failing where the script raises, in the script's order. */
  function TransformRow(cfg: FieldMap, entries: seq<AssetEntry>, localize: Localizer, format: Formatter, row: Row)
    : Result<Record>
  {
    var times :- Instants(cfg, localize, row);
    var action :- ActionText(row, cfg.actionColumns);
    var shortName :- Lookup(row, cfg.idAssetCol);
    var recordType :- Selected(row, cfg.typeCol, cfg.staticType);
    var maintenanceType :- Selected(row, cfg.maintenanceTypeCol, cfg.staticMaintenanceType);
    var logger :- Lookup(row, cfg.loggerCol);
    Ok(Record(logger, ResolvedName(entries, shortName), format(times.0), format(times.1),
              recordType, maintenanceType, action, 0, 0,
              ResolvedCoordinate(entries, shortName, Lat), ResolvedCoordinate(entries, shortName, Long)))
  }

  // ---------------------------------------------------------------- reference view

  /** Every column the field map makes the script read from the row is a key of the row. */
  predicate ReferencedColumnsPresent(cfg: FieldMap, row: Row) {
    var n := |cfg.timestampColumns|;
    ColumnsPresent(row, cfg.StartColumns(), n)
    && (cfg.EndProvided() ==> ColumnsPresent(row, cfg.endColumns, n))
    && ActionColumnsPresent(row, cfg.actionColumns, |cfg.actionColumns|)
    && cfg.idAssetCol in row
    && (cfg.typeCol != "" ==> cfg.typeCol in row)
    && (cfg.maintenanceTypeCol != "" ==> cfg.maintenanceTypeCol in row)
    && cfg.loggerCol in row
  }

  /** The start text: for i = 1..N, the value of `local_timestamp_col{i}` then `local_timestamp_col_separator{i}`. */
  function StartLocal(cfg: FieldMap, row: Row): string
    requires ColumnsPresent(row, cfg.StartColumns(), |cfg.timestampColumns|)
  {
    Concat(Fragments(row, cfg.StartColumns(), cfg.Separators(), |cfg.timestampColumns|))
  }

  /** The end text: the `local_timestamp_end_col{i}` values, with the START separators. */
  function EndLocal(cfg: FieldMap, row: Row): string
    requires ColumnsPresent(row, cfg.endColumns, |cfg.timestampColumns|)
  {
    Concat(Fragments(row, cfg.endColumns, cfg.Separators(), |cfg.timestampColumns|))
  }

  /** Both local texts the script converts are accepted by the localiser. */
  predicate TimestampsParse(cfg: FieldMap, localize: Localizer, row: Row)
    requires ReferencedColumnsPresent(cfg, row)
  {
    localize(cfg.localTz, cfg.datetimeFormat, StartLocal(cfg, row)).Some?
    && (cfg.EndProvided() ==> localize(cfg.localTz, cfg.datetimeFormat, EndLocal(cfg, row)).Some?)
  }

  /** The texts the script assembles are the reference concatenations. */
  lemma AssembledTexts(cfg: FieldMap, row: Row)
    requires ReferencedColumnsPresent(cfg, row)
    ensures Assembled(row, cfg.StartColumns(), cfg.Separators()) == Ok(StartLocal(cfg, row))
    ensures cfg.EndProvided() ==> Assembled(row, cfg.endColumns, cfg.Separators()) == Ok(EndLocal(cfg, row))
    ensures ActionText(row, cfg.actionColumns) == Ok(Concat(ActionFragments(row, cfg.actionColumns, |cfg.actionColumns|)))
  {
    AssembledConcat(row, cfg.StartColumns(), cfg.Separators(), |cfg.timestampColumns|);
    if cfg.EndProvided() {
      AssembledConcat(row, cfg.endColumns, cfg.Separators(), |cfg.timestampColumns|);
    }
    ActionConcat(row, cfg.actionColumns, |cfg.actionColumns|);
  }

  /** A row converts exactly when every referenced column is present and both timestamps parse. */
  lemma TransformRowOkIff(cfg: FieldMap, entries: seq<AssetEntry>, localize: Localizer, format: Formatter, row: Row)
    ensures TransformRow(cfg, entries, localize, format, row).Ok?
            <==> ReferencedColumnsPresent(cfg, row) && TimestampsParse(cfg, localize, row)
  {
    var n := |cfg.timestampColumns|;
    AssembledOkIff(row, cfg.StartColumns(), cfg.Separators(), n);
    AssembledOkIff(row, cfg.endColumns, cfg.Separators(), n);
    ActionOkIff(row, cfg.actionColumns, |cfg.actionColumns|);
    if ReferencedColumnsPresent(cfg, row) {
      AssembledTexts(cfg, row);
    } else if ColumnsPresent(row, cfg.StartColumns(), n) {
      AssembledConcat(row, cfg.StartColumns(), cfg.Separators(), n);
      if cfg.EndProvided() && ColumnsPresent(row, cfg.endColumns, n) {
        AssembledConcat(row, cfg.endColumns, cfg.Separators(), n);
      }
    }
  }

  /** What every field of a converted row is, stated against the reference definitions. */
  lemma RecordFields(cfg: FieldMap, entries: seq<AssetEntry>, localize: Localizer, format: Formatter, row: Row, rec: Record)
    requires TransformRow(cfg, entries, localize, format, row) == Ok(rec)
    ensures ReferencedColumnsPresent(cfg, row) && TimestampsParse(cfg, localize, row)
    ensures var start := localize(cfg.localTz, cfg.datetimeFormat, StartLocal(cfg, row)).value;
            rec.timestamp == format(start)
            && rec.timestampEnd == format(if cfg.EndProvided()
                                          then localize(cfg.localTz, cfg.datetimeFormat, EndLocal(cfg, row)).value
                                          else start + HalfHour)
    ensures rec.maintenanceAction == Concat(ActionFragments(row, cfg.actionColumns, |cfg.actionColumns|))
    ensures rec.recordType == (if cfg.typeCol == "" then cfg.staticType else row[cfg.typeCol])
    ensures rec.maintenanceType == (if cfg.maintenanceTypeCol == "" then cfg.staticMaintenanceType
                                    else row[cfg.maintenanceTypeCol])
    ensures rec.logger == row[cfg.loggerCol]
    ensures rec.idAsset == ResolvedName(entries, row[cfg.idAssetCol])
    ensures rec.gpsLatitude == ResolvedCoordinate(entries, row[cfg.idAssetCol], Lat)
    ensures rec.gpsLongitude == ResolvedCoordinate(entries, row[cfg.idAssetCol], Long)
    ensures rec.resetBaseline == 0 && rec.resetAgan == 0
  {
    TransformRowOkIff(cfg, entries, localize, format, row);
    AssembledTexts(cfg, row);
  }

  /** Without logged end columns the end instant is exactly thirty minutes after the start instant. */
  lemma DefaultEndIsHalfHourLater(cfg: FieldMap, localize: Localizer, row: Row)
    requires !cfg.EndProvided()
    requires ColumnsPresent(row, cfg.StartColumns(), |cfg.timestampColumns|)
    requires localize(cfg.localTz, cfg.datetimeFormat, StartLocal(cfg, row)).Some?
    ensures Instants(cfg, localize, row)
            == Ok((localize(cfg.localTz, cfg.datetimeFormat, StartLocal(cfg, row)).value,
                   localize(cfg.localTz, cfg.datetimeFormat, StartLocal(cfg, row)).value + 30 * 60))
  {
    AssembledConcat(row, cfg.StartColumns(), cfg.Separators(), |cfg.timestampColumns|);
  }

  /** The first failing step of a row decides its error: a missing start column. */
  lemma MissingStartColumn(cfg: FieldMap, entries: seq<AssetEntry>, localize: Localizer, format: Formatter, row: Row, k: nat)
    requires k < |cfg.timestampColumns|
    requires ColumnsPresent(row, cfg.StartColumns(), k) && cfg.timestampColumns[k].column !in row
    ensures TransformRow(cfg, entries, localize, format, row) == Err(MissingColumn(cfg.timestampColumns[k].column))
  {
    AssembledFirstFailure(row, cfg.StartColumns(), cfg.Separators(), k);
  }

  /** Whatever step fails, the error names its cause: an absent column, an undefined end key, or unparsable text. */
  lemma RowErrorNamesCause(cfg: FieldMap, entries: seq<AssetEntry>, localize: Localizer, format: Formatter, row: Row, e: Error)
    requires TransformRow(cfg, entries, localize, format, row) == Err(e)
    ensures e.MissingColumn? ==> e.column !in row
    ensures e.MissingEndColumnKey? ==> cfg.EndProvided() && |cfg.endColumns| < e.index <= |cfg.timestampColumns|
    ensures e.UnparsableTimestamp? ==> localize(cfg.localTz, cfg.datetimeFormat, e.text).None?
  {
    var n := |cfg.timestampColumns|;
    if Assembled(row, cfg.StartColumns(), cfg.Separators()).Err? {
      AssembledErrorCause(row, cfg.StartColumns(), cfg.Separators(), n);
    }
    if cfg.EndProvided() && Assembled(row, cfg.endColumns, cfg.Separators()).Err? {
      AssembledErrorCause(row, cfg.endColumns, cfg.Separators(), n);
    }
    if ActionText(row, cfg.actionColumns).Err? {
      ActionErrorCause(row, cfg.actionColumns, |cfg.actionColumns|);
    }
  }

  // ---------------------------------------------------------------- the loop body as code

  /** The main loop's body, step by step as the script runs it. */
  method ConvertRow(cfg: FieldMap, entries: seq<AssetEntry>, monitored: seq<string>,
                    localize: Localizer, format: Formatter, row: Row) returns (r: Result<Record>)
    requires IsSwitchColumn(monitored, entries)
    ensures r == TransformRow(cfg, entries, localize, format, row)
  {
    var localTimestamp := Assemble(row, cfg.StartColumns(), cfg.Separators());
    if localTimestamp.Err? {
      return Err(localTimestamp.error);
    }
    var utc := localize(cfg.localTz, cfg.datetimeFormat, localTimestamp.value);
    if utc.None? {
      return Err(UnparsableTimestamp(localTimestamp.value));
    }
    var utcTimestamp := format(utc.value);

    var utcTimestampEnd;
    if cfg.EndProvided() {
      var localTimestampEnd := Assemble(row, cfg.endColumns, cfg.Separators());
      if localTimestampEnd.Err? {
        return Err(localTimestampEnd.error);
      }
      var utcEnd := localize(cfg.localTz, cfg.datetimeFormat, localTimestampEnd.value);
      if utcEnd.None? {
        return Err(UnparsableTimestamp(localTimestampEnd.value));
      }
      utcTimestampEnd := format(utcEnd.value);
    } else {
      utcTimestampEnd := format(utc.value + HalfHour);
    }

    var action := BuildAction(row, cfg.actionColumns);
    if action.Err? {
      return Err(action.error);
    }
    if cfg.idAssetCol !in row {
      return Err(MissingColumn(cfg.idAssetCol));
    }
    var shortName := row[cfg.idAssetCol];

    var recordType;
    if cfg.typeCol == "" {
      recordType := cfg.staticType;
    } else if cfg.typeCol in row {
      recordType := row[cfg.typeCol];
    } else {
      return Err(MissingColumn(cfg.typeCol));
    }
    var maintenanceType;
    if cfg.maintenanceTypeCol == "" {
      maintenanceType := cfg.staticMaintenanceType;
    } else if cfg.maintenanceTypeCol in row {
      maintenanceType := row[cfg.maintenanceTypeCol];
    } else {
      return Err(MissingColumn(cfg.maintenanceTypeCol));
    }

    if cfg.loggerCol !in row {
      return Err(MissingColumn(cfg.loggerCol));
    }
    var idAsset := LongName(monitored, entries, shortName);
    var latitude := Gps(monitored, entries, shortName, Lat);
    var longitude := Gps(monitored, entries, shortName, Long);
    return Ok(Record(row[cfg.loggerCol], idAsset, utcTimestamp, utcTimestampEnd, recordType, maintenanceType,
                     action.value, 0, 0, latitude, longitude));
  }
}
