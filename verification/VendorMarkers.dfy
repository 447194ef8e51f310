/** The markers that the vendor's output wrappers write, and what becomes of a record
    that one of them got attached to. */
module VendorMarkers {
  import opened Bytes
  import opened LineSplitter

  /** The four markers of the vendor's wrappers: LoadConfig, Initialize,
      UpdateVehicleState and UpdateDynamicParam. */
  const LOAD_CONFIG: Marker := [76, 111, 97, 100, 67, 111, 110, 102, 105, 103]
  const INITIALIZE: Marker := [73, 110, 105, 116, 105, 97, 108, 105, 122, 101]
  const UPDATE_VEHICLE_STATE: Marker :=
    [85, 112, 100, 97, 116, 101, 86, 101, 104, 105, 99, 108, 101, 83, 116, 97, 116, 101]
  const UPDATE_DYNAMIC_PARAM: Marker :=
    [85, 112, 100, 97, 116, 101, 68, 121, 110, 97, 109, 105, 99, 80, 97, 114, 97, 109]
  const VENDOR_MARKERS: seq<Marker> := [LOAD_CONFIG, INITIALIZE, UPDATE_VEHICLE_STATE, UPDATE_DYNAMIC_PARAM]

  lemma RecordSurvivesVendor(json: seq<Byte>, marker: Marker)
    requires marker in VENDOR_MARKERS
    requires |json| >= 2 && json[0] == OPEN_BRACE && json[|json| - 1] == CLOSE_BRACE
    ensures Unmarked(marker + json, VENDOR_MARKERS) == json && Unmarked(json + marker, VENDOR_MARKERS) == json
  {
    assert Plain(LOAD_CONFIG) && Plain(INITIALIZE) && Plain(UPDATE_VEHICLE_STATE) && Plain(UPDATE_DYNAMIC_PARAM);
    RecordSurvivesMarker(json, marker, VENDOR_MARKERS);
  }
}
