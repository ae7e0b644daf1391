/**
 * The script's top level: build the monitored-asset list, then convert every
 * row of the maintenance log in file order into `jsonList`. The first row that
 * raises aborts the run, so no record reaches the output files.
 */
module BatchExporter {
  import opened MaintenanceLog
  import opened FieldMapConfig
  import opened AssetRegistry
  import opened TimestampNormalizer
  import opened RecordTransformer

  method Run(cfg: FieldMap, entries: seq<AssetEntry>, localize: Localizer, format: Formatter, rows: seq<Row>)
    returns (out: Result<seq<Record>>)
    ensures out.Ok? <==> forall k :: 0 <= k < |rows| ==> TransformRow(cfg, entries, localize, format, rows[k]).Ok?
    ensures out.Ok? ==> |out.value| == |rows|
                        && forall k :: 0 <= k < |rows| ==> TransformRow(cfg, entries, localize, format, rows[k]) == Ok(out.value[k])
    ensures out.Ok? ==> forall k :: 0 <= k < |out.value| ==> out.value[k].resetBaseline == 0 && out.value[k].resetAgan == 0
    ensures out.Err? ==> exists k :: 0 <= k < |rows|
                           && TransformRow(cfg, entries, localize, format, rows[k]) == Err(out.error)
                           && forall j :: 0 <= j < k ==> TransformRow(cfg, entries, localize, format, rows[j]).Ok?
  {
    var monitored := LoadMonitoredAssets(entries);
    var jsonList: seq<Record> := [];
    for k := 0 to |rows|
      invariant |jsonList| == k
      invariant forall j :: 0 <= j < k ==> TransformRow(cfg, entries, localize, format, rows[j]) == Ok(jsonList[j])
    {
      var record := ConvertRow(cfg, entries, monitored, localize, format, rows[k]);
      if record.Err? {
        return Err(record.error);
      }
      jsonList := jsonList + [record.value];
    }
    return Ok(jsonList);
  }
}
