/** The zoning catalogue: five fixed presets, each giving a floor factor
    (permitted built floor area per unit of land) and a site coverage ratio.
    A lookup with a key that is not in the catalogue fails, as a dictionary
    lookup with a missing key does; it never falls back to a default. */
module Zoning {

  datatype Result<T, E> = Ok(value: T) | Err(error: E)

  /** One catalogue entry: its key (the label shown to the user), its floor
      factor and its coverage ratio. */
  datatype Preset = Preset(key: string, ff: real, coverage: real)

  /** The failure of a lookup: the key that is not in the catalogue. */
  datatype ZoningError = UnknownZoning(key: string)

  /** The catalogue, in its declared order. */
  const Table: seq<Preset> := [
    Preset("GR2 (Residential - 1.0 FF)", 1.0, 0.6),
    Preset("GR4 (High Density - 1.5 FF)", 1.5, 0.6),
    Preset("MU1 (Mixed Use - 1.5 FF)", 1.5, 0.75),
    Preset("MU2 (High Density Mixed - 4.0 FF)", 4.0, 1.0),
    Preset("GB7 (CBD/High Rise - 12.0 FF)", 12.0, 1.0)
  ]

  /** The keys of the catalogue, in order. */
  function Keys(): (ks: seq<string>)
    ensures |ks| == |Table|
    ensures forall i :: 0 <= i < |Table| ==> ks[i] == Table[i].key
  {
    seq(|Table|, i requires 0 <= i < |Table| => Table[i].key)
  }

  /** No two entries of a list share a key. */
  predicate DistinctKeys(entries: seq<Preset>)
  {
    forall i, j :: 0 <= i < j < |entries| ==> entries[i].key != entries[j].key
  }

  /** Finds the entry with the given key: the first one, scanning in order. */
  function Find(entries: seq<Preset>, key: string): (r: Result<Preset, ZoningError>)
    ensures r.Ok? <==> exists i :: 0 <= i < |entries| && entries[i].key == key
    ensures r.Ok? ==> r.value.key == key && r.value in entries
    ensures r.Err? ==> r.error == UnknownZoning(key)
  {
    if |entries| == 0 then Err(UnknownZoning(key))
    else if entries[0].key == key then Ok(entries[0])
    else Find(entries[1..], key)
  }

  /** The catalogue lookup `ZONING[key]`. */
  function Lookup(key: string): (r: Result<Preset, ZoningError>)
    ensures r.Ok? <==> key in Keys()
    ensures r.Ok? ==> r.value.key == key && r.value in Table
    ensures r.Err? ==> r == Err(UnknownZoning(key))
  {
    var r := Find(Table, key);
    assert r.Ok? ==> key in Keys() by {
      if r.Ok? {
        var i :| 0 <= i < |Table| && Table[i].key == key;
        assert Keys()[i] == key;
      }
    }
    r
  }

  /** The floor-factor lookup `ZONING[key]["ff"]`. */
  function FloorFactor(key: string): (r: Result<real, ZoningError>)
    ensures r.Ok? <==> key in Keys()
    ensures r.Ok? ==> exists i :: 0 <= i < |Table| && Table[i].key == key && Table[i].ff == r.value
    ensures r.Err? ==> r.error == UnknownZoning(key)
  {
    match Lookup(key)
    case Ok(p) =>
      assert exists i :: 0 <= i < |Table| && Table[i] == p;
      Ok(p.ff)
    case Err(e) => Err(e)
  }

  lemma TableHasDistinctKeys()
    ensures |Table| == 5
    ensures DistinctKeys(Table)
  {
  }

  /** In a list with distinct keys, looking up the key of entry i finds
      entry i. */
  lemma FindDistinct(entries: seq<Preset>, i: nat)
    requires DistinctKeys(entries)
    requires i < |entries|
    ensures Find(entries, entries[i].key) == Ok(entries[i])
  {
    var r := Find(entries, entries[i].key);
    assert r.Ok?;
    var k :| 0 <= k < |entries| && entries[k] == r.value;
    assert k == i;
  }

  /** Every key of the catalogue looks up its own entry. */
  lemma LookupEachPreset(i: nat)
    requires i < |Table|
    ensures Lookup(Table[i].key) == Ok(Table[i])
  {
    TableHasDistinctKeys();
    FindDistinct(Table, i);
  }

  /** Looking up the floor factor of each preset's key gives that preset's
      floor factor. */
  lemma FloorFactorOfEachPreset(i: nat)
    requires i < |Table|
    ensures FloorFactor(Table[i].key) == Ok(Table[i].ff)
  {
    LookupEachPreset(i);
  }

  /** The floor factors, in catalogue order, are 1.0, 1.5, 1.5, 4.0 and 12.0;
      every preset has a positive floor factor and a coverage in (0, 1]. */
  lemma FloorFactorsInOrder()
    ensures |Table| == 5
    ensures Table[0].ff == 1.0 && Table[1].ff == 1.5 && Table[2].ff == 1.5
    ensures Table[3].ff == 4.0 && Table[4].ff == 12.0
    ensures forall p :: p in Table ==> p.ff > 0.0 && 0.0 < p.coverage <= 1.0
  {
  }

  /** Keys outside the catalogue fail, including the bare preset codes. */
  lemma UnknownKeysFail()
    ensures Lookup("ZZ9") == Err(UnknownZoning("ZZ9"))
    ensures Lookup("GR2") == Err(UnknownZoning("GR2"))
    ensures FloorFactor("") == Err(UnknownZoning(""))
  {
    assert "ZZ9" !in Keys();
    assert "GR2" !in Keys();
    assert "" !in Keys();
  }
}
