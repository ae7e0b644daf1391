/**
 * The asset registry: the rows of the coordinates file (headers `Switch`,
 * `Switch_long_name`, `WGS84 long`, `WGS84 lat`), the list of monitored switch
 * ids built from it, and the two lookups `long_name` and `gps`.
 */
module AssetRegistry {
  import opened MaintenanceLog

  datatype AssetEntry = AssetEntry(switch: string, longName: string, lat: string, long: string)

  /** The `axis` argument of `gps`: it selects the column `WGS84 lat` or `WGS84 long`. */
  datatype Axis = Lat | Long

  const Degree: char := '\U{00B0}'
  const NotAvailable: string := "N/A"

  function Coordinate(e: AssetEntry, axis: Axis): string {
    match axis
    case Lat => e.lat
    case Long => e.long
  }

  /** `monitored` is the `Switch` column of `entries`, row by row. */
  predicate IsSwitchColumn(monitored: seq<string>, entries: seq<AssetEntry>) {
    |monitored| == |entries| && forall i :: 0 <= i < |entries| ==> monitored[i] == entries[i].switch
  }

  /** Builds `monitoredAssets` by appending each row's `Switch` in file order. */
  method LoadMonitoredAssets(entries: seq<AssetEntry>) returns (monitored: seq<string>)
    ensures IsSwitchColumn(monitored, entries)
  {
    monitored := [];
    for i := 0 to |entries|
      invariant |monitored| == i
      invariant forall k :: 0 <= k < i ==> monitored[k] == entries[k].switch
    {
      monitored := monitored + [entries[i].switch];
    }
  }

  /** No row before index `i` has `Switch == id`. */
  predicate NoMatchBefore(entries: seq<AssetEntry>, id: string, i: int)
    requires 0 <= i <= |entries|
  {
    forall j :: 0 <= j < i ==> entries[j].switch != id
  }

  /** `id` is a registered switch. */
  predicate Registered(entries: seq<AssetEntry>, id: string) {
    exists i :: 0 <= i < |entries| && entries[i].switch == id
  }

  /** The index of the first row whose `Switch` equals `id`. */
  function FirstMatch(entries: seq<AssetEntry>, id: string): (r: Option<nat>)
    ensures r.None? <==> !Registered(entries, id)
    ensures r.Some? ==> r.value < |entries| && entries[r.value].switch == id
                        && NoMatchBefore(entries, id, r.value)
  {
    if entries == [] then None
    else if entries[0].switch == id then Some(0)
    else match FirstMatch(entries[1..], id)
      case None => None
      case Some(k) => Some(k + 1)
  }

  /** `str.replace('°', '')`: the text with every degree sign removed. */
  function StripDegree(s: string): (r: string)
    ensures Degree !in r
    ensures forall c :: c in r <==> c in s && c != Degree
    ensures Degree !in s ==> r == s
  {
    if s == [] then ""
    else if s[0] == Degree then StripDegree(s[1..])
    else [s[0]] + StripDegree(s[1..])
  }

  lemma {:induction false} StripDegreeAppend(s: string, t: string)
    ensures StripDegree(s + t) == StripDegree(s) + StripDegree(t)
  {
    if s == [] {
      assert s + t == t;
    } else {
      assert (s + t)[0] == s[0] && (s + t)[1..] == s[1..] + t;
      StripDegreeAppend(s[1..], t);
    }
  }

  /** What `long_name(switch)` returns. */
  function ResolvedName(entries: seq<AssetEntry>, id: string): (r: string)
    ensures !Registered(entries, id) ==> r == id
    ensures forall i :: 0 <= i < |entries| && entries[i].switch == id && NoMatchBefore(entries, id, i)
                        ==> r == entries[i].longName
  {
    match FirstMatch(entries, id)
    case None => id
    case Some(i) => entries[i].longName
  }

  /** What `gps(switch, axis)` returns. */
  function ResolvedCoordinate(entries: seq<AssetEntry>, id: string, axis: Axis): (r: string)
    ensures !Registered(entries, id) ==> r == NotAvailable
    ensures Registered(entries, id) ==> Degree !in r
    ensures forall i :: 0 <= i < |entries| && entries[i].switch == id && NoMatchBefore(entries, id, i)
                        ==> r == StripDegree(Coordinate(entries[i], axis))
  {
    match FirstMatch(entries, id)
    case None => NotAvailable
    case Some(i) => StripDegree(Coordinate(entries[i], axis))
  }

  /**
   * `long_name`: a switch missing from `monitored` passes through unchanged;
   * otherwise the rows are scanned and the first match's long name is returned.
   */
  method LongName(monitored: seq<string>, entries: seq<AssetEntry>, switch: string) returns (name: string)
    requires IsSwitchColumn(monitored, entries)
    ensures name == ResolvedName(entries, switch)
  {
    if switch !in monitored {
      return switch;
    }
    var i := 0;
    while entries[i].switch != switch
      invariant 0 <= i < |entries|
      invariant NoMatchBefore(entries, switch, i)
      invariant exists k :: i <= k < |entries| && entries[k].switch == switch
      decreases |entries| - i
    {
      i := i + 1;
    }
    name := entries[i].longName;
  }

  /**
   * `gps`: "N/A" for a switch missing from `monitored`; otherwise the first
   * matching row's coordinate on `axis`, with its degree signs removed.
   */
  method Gps(monitored: seq<string>, entries: seq<AssetEntry>, switch: string, axis: Axis) returns (coord: string)
    requires IsSwitchColumn(monitored, entries)
    ensures coord == ResolvedCoordinate(entries, switch, axis)
  {
    if switch !in monitored {
      return NotAvailable;
    }
    var i := 0;
    while entries[i].switch != switch
      invariant 0 <= i < |entries|
      invariant NoMatchBefore(entries, switch, i)
      invariant exists k :: i <= k < |entries| && entries[k].switch == switch
      decreases |entries| - i
    {
      i := i + 1;
    }
    var coordWithUnit := Coordinate(entries[i], axis);
    coord := StripDegree(coordWithUnit);
  }
}
