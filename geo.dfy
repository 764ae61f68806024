/** The geocode result dictionary that the geocoder returns, the cache stores
    in part, and the orchestrator reads. Each optional key is an `Option`
    field; `None` stands both for a missing key and for a key whose value is
    `None`, which `dict.get` does not tell apart. */
module GeoDicts {
  import opened Wrappers

  datatype GeoDict = GeoDict(
    formattedAddress: Option<string>,
    lat: Option<real>,
    lon: Option<real>,
    state: Option<string>,
    postcode: Option<string>,
    locality: Option<string>,
    queryUsed: Option<string>,       // "geocode_query_used"
    isFallbackMatch: Option<bool>,   // "is_fallback_match"
    locationType: Option<string>,    // "location_type"
    geocodeQuality: Option<string>,  // "geocode_quality"
    quality: Option<string>,         // "quality"
    ok: Option<bool>,                // "ok"
    status: Option<string>,          // "status"
    error: Option<string>)           // "error"

  /** `{}` */
  const EmptyGeo: GeoDict := GeoDict(None, None, None, None, None, None, None, None,
                                     None, None, None, None, None, None)
}
