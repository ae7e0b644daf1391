/**
 * The field map: how the columns of one deployment's maintenance log map onto
 * the normalised record, and the timezone and format of its timestamps. The
 * JSON document's numbered keys (`local_timestamp_col1`, `description_col2`, ...)
 * are held as ordered sequences. The declared counts are the lengths of
 * `timestampColumns` and `actionColumns`; `endColumns` holds however many end keys
 * the document defines, and the end loop still runs one round per start column.
 */
module FieldMapConfig {

  /** `local_timestamp_col{i}` and `local_timestamp_col_separator{i}`. */
  datatype TimestampColumn = TimestampColumn(column: string, separator: string)

  /** `description_col{j}` (literal prefix text) and `action_col{j}` (a log column). */
  datatype ActionColumn = ActionColumn(description: string, column: string)

  datatype FieldMap = FieldMap(
    localTz: string,                          // local_tz
    datetimeFormat: string,                   // maintenance_log_datetime_format
    timestampColumns: seq<TimestampColumn>,   // i = 1 .. col_number_for_timestamp
    endTimestampProvided: string,             // maintenance_end_timestamp_provided
    endColumns: seq<string>,                  // local_timestamp_end_col{i}, as many as the document defines
    actionColumns: seq<ActionColumn>,         // j = 1 .. col_number_for_maintenance_action
    idAssetCol: string,                       // id_asset_col
    loggerCol: string,                        // logger_col
    typeCol: string,                          // type_col ("" when the log has none)
    maintenanceTypeCol: string,               // maintenance_type_col ("" when the log has none)
    staticType: string,                       // type
    staticMaintenanceType: string)            // maintenance_type
  {
    /** The start-timestamp column names, in index order. */
    function StartColumns(): (cols: seq<string>)
      ensures |cols| == |timestampColumns|
      ensures forall i :: 0 <= i < |cols| ==> cols[i] == timestampColumns[i].column
    {
      seq(|timestampColumns|, i requires 0 <= i < |timestampColumns| => timestampColumns[i].column)
    }

    /** The separators, in index order; the end timestamp reuses them. */
    function Separators(): seq<string> {
      seq(|timestampColumns|, i requires 0 <= i < |timestampColumns| => timestampColumns[i].separator)
    }

    /** Only the exact text "yes" means that the log has end-timestamp columns. */
    predicate EndProvided() {
      endTimestampProvided == "yes"
    }
  }
}
