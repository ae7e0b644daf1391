# csv2json4logs, modelled in Dafny

`csv2json4logs.py` converts a maintenance log of switch-gear interventions into one
normalised record per logged event. A JSON *field map* drives the conversion. It says
which log columns make up the start and end timestamps, with a separator after each
column. It also says which columns, each after a literal description, make up the
maintenance-action text, and which columns hold the asset id, the logger, the type
and the maintenance type; a static value is used when a type column is not set.
Each record is enriched from an asset registry: the switch's long name and its GPS
coordinates, with degree signs stripped. Unknown switches keep their raw id and get
"N/A" coordinates. All timestamps are converted to UTC, and an end timestamp that is
not logged defaults to the start plus thirty minutes.

The model follows the script's structure, one module per stage:

- `MaintenanceLog` (`maintenance_log.dfy`): a log row as `map<string, string>`. The
  errors the script raises are values: a missing row column (a `KeyError`), a missing
  `local_timestamp_end_col{i}` key in the field map, and an unparsable timestamp.
  It also holds `Concat`, the reference definition of joining fragments.
- `FieldMapConfig` (`field_map.dfy`): the field map, with its numbered keys held as
  ordered sequences of (column, separator) and (description, action column) pairs.
- `AssetRegistry` (`asset_registry.dfy`): the registry rows, the loop that builds
  `monitoredAssets`, and `long_name` and `gps` as linear searches with an early return.
  Each search is proved against a first-match function.
- `TimestampNormalizer` (`timestamp_normalizer.dfy`): the timestamp-assembly loop,
  proved against a recursive specification. That specification is in turn proved equal
  to the reference concatenation, and to fail at the first missing column.
- `RecordTransformer` (`record_transformer.dfy`): the action loop and the main loop's
  body (`ConvertRow`), proved equal to `TransformRow`. Lemmas state what every field of
  a converted row is, and exactly when a row converts.
- `BatchExporter` (`batch_exporter.dfy`): the main loop. It yields one record per row,
  in row order, or the error of the first row that fails.

`loc_to_UTC` (timezone localisation through pytz) is a function parameter from
(timezone name, format, local text) to a UTC instant in whole seconds, or `None` when
the text does not parse. `strftime` with the fixed output format is a function parameter
from an instant to text.

Two behaviours of the script, as the model keeps them:
- `gps` strips only the degree sign U+00B0 (line 91); no other character is removed.
- A missing column raises a `KeyError` that names the key and nothing else, with no row
  index. The log header is not checked against the field map before the run.

## Model

| member | source | states |
|---|---|---|
| `AssetRegistry.LoadMonitoredAssets` | csv2json4logs.py:47-52 | the list built holds, position by position, the `Switch` of every registry row in file order |
| `AssetRegistry.FirstMatch` | csv2json4logs.py:69-71 | None exactly when no row has that `Switch`; otherwise an index whose row matches and before which no row matches |
| `AssetRegistry.StripDegree` | csv2json4logs.py:91 | the result contains no degree sign, keeps every other character of the input and nothing else, and is the input itself when the input has none |
| `AssetRegistry.StripDegreeAppend` | csv2json4logs.py:91 | removing degree signs distributes over concatenation |
| `AssetRegistry.ResolvedName` | csv2json4logs.py:65-74 | an unregistered id is returned unchanged; a registered one gives the long name of the first row with that `Switch` |
| `AssetRegistry.ResolvedCoordinate` | csv2json4logs.py:84-94 | an unregistered id gives exactly "N/A"; a registered one gives the first matching row's coordinate on the axis with degree signs removed, so it has none |
| `AssetRegistry.LongName` | csv2json4logs.py:65-74 | the membership test plus the early-return scan compute the resolved name |
| `AssetRegistry.Gps` | csv2json4logs.py:84-94 | the membership test plus the early-return scan compute the resolved coordinate |
| `TimestampNormalizer.AssembledOkIff` | csv2json4logs.py:166-167 | the first n rounds of the assembly loop succeed exactly when the first n column names exist and are columns of the row |
| `TimestampNormalizer.AssembledConcat` | csv2json4logs.py:165-167 | when those columns are present, the text is, for i in ascending order, the value of column i followed by separator i, the final separator included |
| `TimestampNormalizer.ErrorPersists` | csv2json4logs.py:166-167 | once a round raises, later rounds do not change the outcome (the loop stops at the first failure) |
| `TimestampNormalizer.AssembledFirstFailure` | csv2json4logs.py:179-180 | the error is the one of the first round whose column name is undefined or whose column is not in the row |
| `TimestampNormalizer.Assemble` | csv2json4logs.py:178-180 | the loop computes the assembled text or the first error |
| `RecordTransformer.ActionOkIff` | csv2json4logs.py:190-191 | the action loop succeeds exactly when every `action_col{j}` is a column of the row |
| `RecordTransformer.ActionConcat` | csv2json4logs.py:189-191 | the action text is, for j in ascending order, `description_col{j}` then the row's value at `action_col{j}`; "" when the count is 0 |
| `RecordTransformer.ActionErrorPersists` | csv2json4logs.py:190-191 | once an action round raises, later rounds do not change the outcome |
| `RecordTransformer.ActionFirstFailure` | csv2json4logs.py:190-191 | the action loop fails with the error of the first action column missing from the row |
| `RecordTransformer.BuildAction` | csv2json4logs.py:189-191 | the loop computes the action text or the first missing column |
| `RecordTransformer.AssembledTexts` | csv2json4logs.py:165-191 | with all referenced columns present, the start text, the end text (end columns with the start's separators, same count) and the action text are the reference concatenations |
| `RecordTransformer.TransformRowOkIff` | csv2json4logs.py:161-211 | a row converts exactly when every column the field map references is in the row and both local timestamps parse |
| `RecordTransformer.RecordFields` | csv2json4logs.py:165-221 | every field of a converted record: UTC start, end from the end columns when the flag is exactly "yes" else start + 1800 s, action text, type and maintenance type from their column when one is set else the static value, logger, resolved name and coordinates, and both resets 0 |
| `RecordTransformer.DefaultEndIsHalfHourLater` | csv2json4logs.py:177-184 | when the flag is not "yes", the end instant is exactly the start instant plus 30 minutes |
| `RecordTransformer.MissingStartColumn` | csv2json4logs.py:166-167 | a start column missing from the row makes the row fail with that column's error, whatever the rest of the row holds |
| `RecordTransformer.RowErrorNamesCause` | csv2json4logs.py:166-211 | a failed row's error names its cause: a column absent from the row, an end key past those defined (only when the flag is "yes"), or local text the localiser rejects |
| `RecordTransformer.ConvertRow` | csv2json4logs.py:161-231 | the loop body, run step by step, produces the specified record or fails with the error the script raises first |
| `BatchExporter.Run` | csv2json4logs.py:157-231 | one record per row in row order. The run succeeds exactly when every row converts, and every record has both resets 0. Otherwise it returns the error of the first failing row, all earlier rows having converted |

## Left out

- Reading the CSV files and loading the JSON field map are not modelled: they are file I/O. The model takes the registry rows, the log rows and the field map as parsed values.
- Writing one JSON file per record, and the file name built from the asset id and the timestamp, are not modelled: they are an output sink. Name collisions are not modelled either.
- `loc_to_UTC` is a parameter, not a definition: it depends on pytz and on the IANA timezone database, which includes DST disambiguation and unknown timezone names. Its failure is one `None`.
- `strftime` with the output format is a parameter. So is `strptime`, inside the localiser, including its default of local midnight for a date-only format. Both are library behaviour.
- The script re-reads the registry file on every lookup; the model reads it once. So the Python path where a switch is in `monitoredAssets` but the re-read file has no such row (the function returns `None`) is not modelled. `LongName`/`Gps` require the monitored list to be the registry's `Switch` column.
- A CSV row shorter than the header is not modelled: rows are complete maps of strings. In the script such a row holds `None` values. A `None` in a start, end or action column raises a `TypeError` when it is concatenated. A `None` asset id passes through: `long_name` returns `None` and `gps` returns "N/A". A `None` type, maintenance type or logger is emitted as `null`.
- Missing field-map keys are not modelled, except `local_timestamp_end_col{i}` (the `MissingEndColumnKey` error). Every other key is assumed present: `col_number_for_timestamp`, `col_number_for_maintenance_action`, `local_tz`, `maintenance_log_datetime_format`, `maintenance_end_timestamp_provided`, `id_asset_col`, `type_col`, `maintenance_type_col` and `logger_col`. So are `local_timestamp_col{i}` and `local_timestamp_col_separator{i}` up to the declared count. Each of these raises a `KeyError` in the script when missing. A missing `description_col{j}` or `action_col{j}` cannot be represented by a sequence of `ActionColumn` pairs. The script reads the fallback `type` and `maintenance_type` only when their column key is empty, so their absence fails lazily; the model always has both values, so this is not modelled either.
- Field-map values of other JSON types are not modelled. A `null` `type_col` is also falsy, and a count could be a non-integer. The field map is typed, and `""` is the only "no column" value.
- Timestamp arithmetic overflow at the limits of Python's `datetime` is not modelled: instants are unbounded integers.
