/** The persistent geocode cache: a table keyed by the normalised address,
    whose rows keep six fields of a geocode result. `INSERT OR REPLACE`
    makes `set_cached` an upsert; `SELECT` makes `get_cached` a read. The
    SQLite connection, schema creation and column migration are not part of
    this model, nor is the `created_at` column, which nothing reads. */
module GeocodeCache {
  import opened Wrappers
  import opened GeoDicts

  /** A row of the `geocode_cache` table, without its key. */
  datatype CachedRow = CachedRow(
    formattedAddress: Option<string>,
    lat: Option<real>,
    lon: Option<real>,
    state: Option<string>,
    postcode: Option<string>,
    locality: Option<string>)

  /** The row `set_cached` writes: `geo.get(...)` of the six columns. */
  function Project(g: GeoDict): CachedRow {
    CachedRow(g.formattedAddress, g.lat, g.lon, g.state, g.postcode, g.locality)
  }

  /** The dictionary `get_cached` builds from a row: exactly six keys. */
  function Expand(row: CachedRow): GeoDict {
    GeoDict(row.formattedAddress, row.lat, row.lon, row.state, row.postcode, row.locality,
            None, None, None, None, None, None, None, None)
  }

  /** What `get_cached(key)` returns for a table. */
  function Read(table: map<string, CachedRow>, key: string): (r: Option<GeoDict>)
    ensures r.None? <==> key !in table
  {
    if key in table then Some(Expand(table[key])) else None
  }

  /** A read after a write: the written key gives back the projection of
      what was written, every other key what it gave before. */
  lemma ReadAfterWrite(table: map<string, CachedRow>, key: string, g: GeoDict, other: string)
    ensures Read(table[key := Project(g)], key) == Some(Expand(Project(g)))
    ensures other != key ==> Read(table[key := Project(g)], other) == Read(table, other)
  {
  }

  /** The read-back dictionary keeps the six stored fields of `g` and has
      none of the others: the query used, the fallback flag and any quality
      or status key are lost. */
  lemma RoundTripKeepsSixFields(g: GeoDict)
    ensures var h := Expand(Project(g));
      h.formattedAddress == g.formattedAddress && h.lat == g.lat && h.lon == g.lon
      && h.state == g.state && h.postcode == g.postcode && h.locality == g.locality
      && h.queryUsed.None? && h.isFallbackMatch.None? && h.locationType.None?
      && h.geocodeQuality.None? && h.quality.None? && h.ok.None? && h.status.None?
      && h.error.None?
  {
  }

  /** Writing a row read back from the table writes the same row. */
  lemma ProjectExpand(row: CachedRow)
    ensures Project(Expand(row)) == row
  {
  }

  class GeocodeCache {
    /** The `geocode_cache` table: cache key to row. */
    var table: map<string, CachedRow>

    /** A cache with no rows yet. */
    constructor()
      ensures table == map[]
    {
      table := map[];
    }

    /** `get_cached(cache_key)` */
    method GetCached(key: string) returns (r: Option<GeoDict>)
      ensures r == Read(table, key)
      ensures r.Some? ==> r.value == Expand(table[key])
    {
      if key in table {
        r := Some(Expand(table[key]));
      } else {
        r := None;
      }
    }

    /** `set_cached(cache_key, geo)`: insert, or replace the row of `key`. */
    method SetCached(key: string, geo: GeoDict)
      modifies this
      ensures table == old(table)[key := Project(geo)]
      ensures forall k :: k in old(table) && k != key ==> k in table && table[k] == old(table)[k]
    {
      table := table[key := Project(geo)];
    }
  }
}
