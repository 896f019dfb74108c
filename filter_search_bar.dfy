/** The `FilterSearchBar` component: its own copy of the six-record catalog,
    the four search fields it edits, `clearFilters`, and the result count it
    displays. Its `parseRange` and `filter` callback are the ones of
    `RecordFilter`, which both components carry word for word. */
module FilterSearchBar {
  import opened JsString
  import opened RecordFilter
  import opened Selection
  import GridBpLA

  /** The two `signalType` strings of the component's records. */
  const Hopping := "\U{041F}\U{041F}\U{0420}\U{0427}"
  const Fixed := "\U{0424}\U{0420}\U{0427}"

  /** `uavDatabase`, restricted to the fields the filter reads. */
  const UavDatabase: seq<Uav> := [
    Uav(1, "DJI Mavic 3", 2400, "900-1500", Hopping),
    Uav(2, "Bayraktar TB2", 1200, "5000-15000", Fixed),
    Uav(3, "DJI Mini 2", 2400, "500-1000", Hopping),
    Uav(4, "Shahed-136", 900, "2000-3000", Fixed),
    Uav(5, "Reaper MQ-9", 1800, "8000-12000", Fixed),
    Uav(6, "Phantom 4 Pro", 2400, "1000-1500", Hopping)
  ]

  /** The two components carry the same records: same ids, names,
      frequencies, bands and signal types, in the same order. */
  lemma SameCatalogAsGrid()
    ensures |UavDatabase| == |GridBpLA.UavDatabase| == 6
    ensures forall k :: 0 <= k < 6 ==> UavDatabase[k] == GridBpLA.UavDatabase[k]
  {
  }

  /** `filteredUAVs`: the catalog through the filter callback. */
  function Filtered(c: Criteria): (r: seq<Uav>)
    ensures |r| <= |UavDatabase|
    ensures forall u :: u in r ==> u in UavDatabase && Matches(u, c)
  {
    var r := FilterUavs(UavDatabase, c);
    forall u | u in r ensures Matches(u, c) {
      KeepIsConjunction(u, c);
    }
    r
  }

  /** For every set of criteria the search bar finds the same records, in
      the same order, as the card grid shows. */
  lemma SameResultsAsGrid(c: Criteria)
    ensures Filtered(c) == GridBpLA.Filtered(c)
    ensures Ids(Filtered(c)) == Ids(GridBpLA.Filtered(c))
  {
    SameCatalogAsGrid();
    assert UavDatabase == GridBpLA.UavDatabase;
  }

  /** `filteredUAVs.length`, the "results found" figure. */
  function ResultCount(c: Criteria): (n: nat)
    ensures n == CountMatching(UavDatabase, c)
    ensures n <= 6
  {
    FilterUavsCount(UavDatabase, c);
    |Filtered(c)|
  }

  /** The four search fields. Their `useState` hooks live in the parent
      component; the search bar receives the values and their setters. */
  class SearchFields {
    var searchName: string
    var frequency: string
    var range: string
    var signalType: string

    /** The fields as the filter callback reads them. */
    function Current(): Criteria
      reads this
    {
      Criteria(searchName, frequency, range, signalType)
    }

    /** The fields as the parent component hands them over. */
    constructor(searchName: string, frequency: string, range: string, signalType: string)
      ensures Current() == Criteria(searchName, frequency, range, signalType)
    {
      this.searchName := searchName;
      this.frequency := frequency;
      this.range := range;
      this.signalType := signalType;
    }

    /** `clearFilters`: all four setters called with `""`. Afterwards no
        criterion constrains the search and the whole catalog is found. */
    method ClearFilters()
      modifies this
      ensures Current() == NoCriteria
      ensures Filtered(Current()) == UavDatabase
      ensures ResultCount(Current()) == 6
    {
      searchName := "";
      frequency := "";
      range := "";
      signalType := "";
      NoCriteriaFindsAll(Current());
    }
  }

  /** With no criteria the whole catalog is found. */
  lemma NoCriteriaFindsAll(c: Criteria)
    requires c == NoCriteria
    ensures Filtered(c) == UavDatabase
    ensures ResultCount(c) == 6
  {
    NoCriteriaOnCatalog(UavDatabase);
  }

  /** The table is held in a variable so that the verifier does not
      evaluate the callback on the literal records by itself. */
  lemma NoCriteriaOnCatalog(db: seq<Uav>)
    requires db == UavDatabase
    ensures FilterUavs(db, NoCriteria) == db && |db| == 6
  {
    FilterNoCriteria(db);
  }

  // ---------------------------------------------------------------------
  // Sample searches over the catalog
  // ---------------------------------------------------------------------

  /** Range `"1400-2100"` finds records 1, 4 and 6: three results. */
  lemma RangeQueryResults(c: Criteria)
    requires c == Criteria("", "", "1400-2100", "")
    ensures Ids(Filtered(c)) == [1, 4, 6]
    ensures ResultCount(c) == 3
  {
    SameResultsAsGrid(c);
    GridBpLA.RangeQueryCards(c);
  }

  /** The frequency-hopping signal type finds records 1, 3 and 6. */
  lemma FrequencyHoppingResults(c: Criteria)
    requires c == Criteria("", "", "", Hopping)
    ensures Ids(Filtered(c)) == [1, 3, 6]
  {
    SameResultsAsGrid(c);
    GridBpLA.SignalTypeOnCatalog(GridBpLA.UavDatabase, c, "\U{041F}\U{041F}\U{0420}\U{0427}");
  }

  /** Name `"dji"` together with frequency `"900"` finds nothing: the two
      DJI records fly at 2400, and the one record at 900 is not a DJI. */
  lemma DjiAt900Results(c: Criteria)
    requires c == Criteria("dji", "900", "", "")
    ensures Filtered(c) == []
    ensures ResultCount(c) == 0
  {
    DjiAt900OnCatalog(UavDatabase, c);
  }

  /** The catalog facts that the `"dji"`/`"900"` search depends on; table
      and query stay in variables so that the verifier does not evaluate the
      callback on the literal table by itself. */
  lemma DjiAt900OnCatalog(db: seq<Uav>, c: Criteria)
    requires c == Criteria("dji", "900", "", "") && db == UavDatabase
    ensures FilterUavs(db, c) == []
  {
    CatalogFacts();
    DjiAt900Scenario(db, c);
  }

  /** Only the two DJI records have a `j` in their name, and neither of them
      flies at 900. */
  lemma CatalogFacts()
    ensures |UavDatabase| == 6
    ensures UavDatabase[0].frequency == 2400 && UavDatabase[2].frequency == 2400
    ensures forall k :: k in {1, 3, 4, 5} ==> 'j' !in UavDatabase[k].name && 'J' !in UavDatabase[k].name
  {
  }

  /** The `"dji"`/`"900"` search over six records where every record either
      lacks a `j` in its name or does not fly at 900. */
  lemma DjiAt900Scenario(db: seq<Uav>, c: Criteria)
    requires c == Criteria("dji", "900", "", "") && |db| == 6
    requires db[0].frequency != 900 && db[2].frequency != 900
    requires 'j' !in db[1].name && 'J' !in db[1].name
    requires 'j' !in db[3].name && 'J' !in db[3].name
    requires 'j' !in db[4].name && 'J' !in db[4].name
    requires 'j' !in db[5].name && 'J' !in db[5].name
    ensures FilterUavs(db, c) == []
  {
    FrequencyMiss(db[0], c);
    FrequencyMiss(db[2], c);
    GridBpLA.NameMiss(db[1], c);
    GridBpLA.NameMiss(db[3], c);
    GridBpLA.NameMiss(db[4], c);
    GridBpLA.NameMiss(db[5], c);
    var keep := KeepFor(c);
    FilterSix(db, keep);
    assert Kept(db[0], keep) == [] && Kept(db[1], keep) == [] && Kept(db[2], keep) == [];
    assert Kept(db[3], keep) == [] && Kept(db[4], keep) == [] && Kept(db[5], keep) == [];
  }

  /** A record that does not fly at 900 fails a `"900"` frequency query. */
  lemma FrequencyMiss(u: Uav, c: Criteria)
    requires c.frequency == "900" && u.frequency != 900
    ensures !Keep(u, c)
  {
    FrequencyQuery900(c.frequency);
    assert !StrictEquals(Num(u.frequency), ParseInt(c.frequency));
  }

  /** The query `"900"` reads as 900. */
  lemma FrequencyQuery900(t: string)
    requires t == "900"
    ensures ParseInt(t) == Num(900)
  {
    assert DecimalDigits(9) == "9";
    assert DecimalDigits(90) == DecimalDigits(9) + "0";
    assert DecimalDigits(900) == DecimalDigits(90) + "0" == t;
    ParseIntDecimalDigits(900);
  }
}
