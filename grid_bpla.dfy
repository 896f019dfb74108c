/** The `GridBpLA` component: the catalog of six records, the chip colour
    of a signal type, the detail dialog's state and the filtered card list. */
module GridBpLA {
  import opened Wrappers
  import opened JsString
  import opened RecordFilter
  import opened Selection

  /** `uavDatabase`, restricted to the fields the filter reads. */
  const UavDatabase: seq<Uav> := [
    Uav(1, "DJI Mavic 3", 2400, "900-1500", FrequencyHopping),
    Uav(2, "Bayraktar TB2", 1200, "5000-15000", FixedFrequency),
    Uav(3, "DJI Mini 2", 2400, "500-1000", FrequencyHopping),
    Uav(4, "Shahed-136", 900, "2000-3000", FixedFrequency),
    Uav(5, "Reaper MQ-9", 1800, "8000-12000", FixedFrequency),
    Uav(6, "Phantom 4 Pro", 2400, "1000-1500", FrequencyHopping)
  ]

  /** The two signal types the catalog uses: fixed-frequency and
      frequency-hopping (Cyrillic abbreviations). */
  const FixedFrequency: string := "\U{0424}\U{0420}\U{0427}"
  const FrequencyHopping: string := "\U{041F}\U{041F}\U{0420}\U{0427}"

  /** The two MUI chip colours `getSignalTypeColor` chooses between. */
  datatype ChipColor = Error | Primary

  /** `getSignalTypeColor`: the error colour marks fixed-frequency signals,
      every other text (including the empty one) gets the primary colour. */
  function SignalTypeColor(signalType: string): (color: ChipColor)
    ensures color == Error <==> signalType == FixedFrequency
    ensures color == Primary <==> signalType != FixedFrequency
  {
    if signalType == FixedFrequency then Error else Primary
  }

  /** The catalog's error-coloured chips are exactly its records 2, 4 and 5. */
  lemma ErrorChipsInCatalog()
    ensures forall k :: 0 <= k < |UavDatabase| ==>
              (SignalTypeColor(UavDatabase[k].signalType) == Error <==> UavDatabase[k].id in {2, 4, 5})
  {
  }

  /** The two `useState` hooks behind the detail dialog. */
  class DetailDialog {
    var open: bool
    var selectedUav: Option<Uav>

    /** The dialog is open exactly when a record is selected for it. */
    ghost predicate Valid()
      reads this
    {
      open <==> selectedUav.Some?
    }

    /** `useState(false)` and `useState(null)`. */
    constructor()
      ensures !open && selectedUav == None
      ensures Valid()
    {
      open := false;
      selectedUav := None;
    }

    /** `handleCardClick`: select the clicked record and open the dialog. */
    method HandleCardClick(u: Uav)
      modifies this
      ensures selectedUav == Some(u) && open
      ensures Valid()
    {
      selectedUav := Some(u);
      open := true;
    }

    /** `handleClose`: close the dialog and drop the selection. */
    method HandleClose()
      modifies this
      ensures !open && selectedUav == None
      ensures Valid()
    {
      open := false;
      selectedUav := None;
    }
  }

  /** `filteredUAVs`: the catalog through the filter callback. */
  function Filtered(c: Criteria): (r: seq<Uav>)
    ensures |r| <= |UavDatabase|
    ensures forall u :: u in r ==> u in UavDatabase && Matches(u, c)
  {
    var r := FilterUavs(UavDatabase, c);
    forall u | u in r ensures Matches(u, c) {
      KeepIsConjunction(u, c);
    }
    r
  }

  /** A query on the signal type alone keeps exactly the records of that type. */
  lemma SignalTypeOnly(u: Uav, t: string)
    requires t != ""
    ensures Keep(u, Criteria("", "", "", t)) <==> u.signalType == t
  {
  }

  /** Choosing the fixed-frequency signal type shows records 2, 4 and 5. */
  lemma FixedFrequencyCards(c: Criteria)
    requires c == Criteria("", "", "", FixedFrequency)
    ensures Ids(Filtered(c)) == [2, 4, 5]
  {
    SignalTypeOnCatalog(UavDatabase, c, FixedFrequency);
  }

  /** A query on either of the catalog's signal types: fixed-frequency
      shows records 2, 4 and 5, frequency-hopping records 1, 3 and 6. (The
      table and the query are held in variables throughout these lemmas so
      that the verifier does not evaluate the callback on the literal table
      by itself.) */
  lemma SignalTypeOnCatalog(db: seq<Uav>, c: Criteria, t: string)
    requires db == UavDatabase && c == Criteria("", "", "", t)
    requires t == FixedFrequency || t == FrequencyHopping
    ensures t == FixedFrequency ==> Ids(FilterUavs(db, c)) == [2, 4, 5]
    ensures t == FrequencyHopping ==> Ids(FilterUavs(db, c)) == [1, 3, 6]
  {
    CatalogSignalTypes();
    assert |FixedFrequency| == 3 && |FrequencyHopping| == 4;
    if t == FixedFrequency {
      SignalTypeScenario(db, c, t, false, true, false, true, true, false);
    } else {
      SignalTypeScenario(db, c, t, true, false, true, false, false, true);
    }
  }

  /** The catalog's signal types, record by record. */
  lemma CatalogSignalTypes()
    ensures |UavDatabase| == 6
    ensures UavDatabase[0].signalType == FrequencyHopping && UavDatabase[1].signalType == FixedFrequency
    ensures UavDatabase[2].signalType == FrequencyHopping && UavDatabase[3].signalType == FixedFrequency
    ensures UavDatabase[4].signalType == FixedFrequency && UavDatabase[5].signalType == FrequencyHopping
  {
  }

  /** A signal-type query over six records: record `i` is shown exactly
      when its type is the chosen one. */
  lemma SignalTypeScenario(db: seq<Uav>, c: Criteria, t: string, b0: bool, b1: bool, b2: bool, b3: bool, b4: bool, b5: bool)
    requires c == Criteria("", "", "", t) && t != "" && |db| == 6
    requires (db[0].signalType == t) == b0 && (db[1].signalType == t) == b1
    requires (db[2].signalType == t) == b2 && (db[3].signalType == t) == b3
    requires (db[4].signalType == t) == b4 && (db[5].signalType == t) == b5
    ensures Ids(FilterUavs(db, c)) ==
      IdIf(db[0], b0) + (IdIf(db[1], b1) + (IdIf(db[2], b2) + (IdIf(db[3], b3) + (IdIf(db[4], b4) + IdIf(db[5], b5)))))
  {
    SignalTypeOnly(db[0], t);
    SignalTypeOnly(db[1], t);
    SignalTypeOnly(db[2], t);
    SignalTypeOnly(db[3], t);
    SignalTypeOnly(db[4], t);
    SignalTypeOnly(db[5], t);
    SixVerdicts(db, c, b0, b1, b2, b3, b4, b5);
  }

  /** A name query matches case-insensitively: `"dji"` shows records 1 and 3. */
  lemma NameQueryCards(c: Criteria)
    requires c == Criteria("dji", "", "", "")
    ensures Ids(Filtered(c)) == [1, 3]
  {
    DjiOnCatalog(UavDatabase, c);
  }

  /** The facts about the catalog's names that the `"dji"` query depends on.
      (The table and the query are held in variables throughout these
      lemmas so that the verifier does not evaluate the callback on the
      literal table by itself.) */
  lemma DjiOnCatalog(db: seq<Uav>, c: Criteria)
    requires c == Criteria("dji", "", "", "") && db == UavDatabase
    ensures Ids(FilterUavs(db, c)) == [1, 3]
  {
    CatalogNamesWithoutJ();
    DjiScenario(db, c);
  }

  /** Only the catalog's two DJI records have a `j` in their name. */
  lemma CatalogNamesWithoutJ()
    ensures UavDatabase[0].name == "DJI Mavic 3" && UavDatabase[2].name == "DJI Mini 2"
    ensures forall k :: k in {1, 3, 4, 5} ==> 'j' !in UavDatabase[k].name && 'J' !in UavDatabase[k].name
  {
  }

  /** The `"dji"` query over any six records named like the catalog's. */
  lemma DjiScenario(db: seq<Uav>, c: Criteria)
    requires c == Criteria("dji", "", "", "") && |db| == 6
    requires db[0].name == "DJI Mavic 3" && db[2].name == "DJI Mini 2"
    requires 'j' !in db[1].name && 'J' !in db[1].name
    requires 'j' !in db[3].name && 'J' !in db[3].name
    requires 'j' !in db[4].name && 'J' !in db[4].name
    requires 'j' !in db[5].name && 'J' !in db[5].name
    ensures Ids(FilterUavs(db, c)) == [db[0].id, db[2].id]
  {
    NameHit(db[0], c);
    NameHit(db[2], c);
    NameMiss(db[1], c);
    NameMiss(db[3], c);
    NameMiss(db[4], c);
    NameMiss(db[5], c);
    SixVerdicts(db, c, true, false, true, false, false, false);
  }

  /** A record's id when the callback keeps it, nothing otherwise. */
  function IdIf(u: Uav, kept: bool): seq<int>
  {
    if kept then [u.id] else []
  }

  /** One record's contribution to the shown ids. */
  lemma KeptIds(u: Uav, c: Criteria, kept: bool)
    requires Keep(u, c) == kept
    ensures Ids(Kept(u, KeepFor(c))) == IdIf(u, kept)
  {
    assert KeepFor(c)(u) == kept;
  }

  /** Over any six records whose callback verdicts are known, the ids that
      survive, in order. */
  lemma SixVerdicts(db: seq<Uav>, c: Criteria, b0: bool, b1: bool, b2: bool, b3: bool, b4: bool, b5: bool)
    requires |db| == 6
    requires Keep(db[0], c) == b0 && Keep(db[1], c) == b1 && Keep(db[2], c) == b2
    requires Keep(db[3], c) == b3 && Keep(db[4], c) == b4 && Keep(db[5], c) == b5
    ensures Ids(FilterUavs(db, c)) ==
      IdIf(db[0], b0) + (IdIf(db[1], b1) + (IdIf(db[2], b2) + (IdIf(db[3], b3) + (IdIf(db[4], b4) + IdIf(db[5], b5)))))
  {
    var keep := KeepFor(c);
    FilterSix(db, keep);
    var k0, k1, k2 := Kept(db[0], keep), Kept(db[1], keep), Kept(db[2], keep);
    var k3, k4, k5 := Kept(db[3], keep), Kept(db[4], keep), Kept(db[5], keep);
    KeptIds(db[0], c, b0);
    KeptIds(db[1], c, b1);
    KeptIds(db[2], c, b2);
    KeptIds(db[3], c, b3);
    KeptIds(db[4], c, b4);
    KeptIds(db[5], c, b5);
    assert FilterUavs(db, c) == k0 + (k1 + (k2 + (k3 + (k4 + k5))));
    IdsAppend(k4, k5);
    IdsAppend(k3, k4 + k5);
    IdsAppend(k2, k3 + (k4 + k5));
    IdsAppend(k1, k2 + (k3 + (k4 + k5)));
    IdsAppend(k0, k1 + (k2 + (k3 + (k4 + k5))));
  }

  lemma NameHit(u: Uav, c: Criteria)
    requires c == Criteria("dji", "", "", "")
    requires u.name == "DJI Mavic 3" || u.name == "DJI Mini 2"
    ensures Keep(u, c)
  {
    assert ToLowerCase("dji") == "dji";
    assert ToLowerCase(u.name)[..3] == "dji";
  }

  lemma NameMiss(u: Uav, c: Criteria)
    requires c.searchName == "dji"
    requires 'j' !in u.name && 'J' !in u.name
    ensures !Keep(u, c)
  {
    assert ToLowerCase("dji") == "dji";
    LowerCaseLacksLetter(u.name, 'j');
    IncludesNeedsChar(ToLowerCase(u.name), "dji", 'j');
  }

  /** A range query shows the records whose band crosses it:
      `"1400-2100"` shows records 1, 4 and 6. */
  lemma RangeQueryCards(c: Criteria)
    requires c == Criteria("", "", "1400-2100", "")
    ensures Ids(Filtered(c)) == [1, 4, 6]
  {
    RangeOnCatalog(UavDatabase, c);
  }

  lemma RangeOnCatalog(db: seq<Uav>, c: Criteria)
    requires c == Criteria("", "", "1400-2100", "") && db == UavDatabase
    ensures Ids(FilterUavs(db, c)) == [1, 4, 6]
  {
    CatalogBandsFirstHalf();
    CatalogBandsSecondHalf();
    RangeScenario(db, c);
  }

  /** The catalog's bands, as `BandText` writes them (first three records). */
  lemma CatalogBandsFirstHalf()
    ensures UavDatabase[0].range == BandText(900, 1500)
    ensures UavDatabase[1].range == BandText(5000, 15000)
    ensures UavDatabase[2].range == BandText(500, 1000)
  {
    BandTextsFirstHalf();
  }

  /** The catalog's bands, as `BandText` writes them (last three records). */
  lemma CatalogBandsSecondHalf()
    ensures UavDatabase[3].range == BandText(2000, 3000)
    ensures UavDatabase[4].range == BandText(8000, 12000)
    ensures UavDatabase[5].range == BandText(1000, 1500)
  {
    BandTextsSecondHalf();
  }

  /** The texts of the first three records' bands. */
  lemma BandTextsFirstHalf()
    ensures BandText(900, 1500) == "900-1500"
    ensures BandText(5000, 15000) == "5000-15000"
    ensures BandText(500, 1000) == "500-1000"
  {
    BandDigits(900, 1500, "900", "1500");
    BandDigits(5000, 15000, "5000", "15000");
    BandDigits(500, 1000, "500", "1000");
  }

  /** The texts of the last three records' bands. */
  lemma BandTextsSecondHalf()
    ensures BandText(2000, 3000) == "2000-3000"
    ensures BandText(8000, 12000) == "8000-12000"
    ensures BandText(1000, 1500) == "1000-1500"
  {
    BandDigits(2000, 3000, "2000", "3000");
    BandDigits(8000, 12000, "8000", "12000");
    BandDigits(1000, 1500, "1000", "1500");
  }

  /** `BandText` of two numbers whose digits are known. */
  lemma BandDigits(lo: nat, hi: nat, los: string, his: string)
    requires DecimalDigits(lo) == los && DecimalDigits(hi) == his
    ensures BandText(lo, hi) == los + "-" + his
  {
  }

  /** The `"1400-2100"` query over any six records with the catalog's bands. */
  lemma RangeScenario(db: seq<Uav>, c: Criteria)
    requires c == Criteria("", "", "1400-2100", "") && |db| == 6
    requires db[0].range == BandText(900, 1500)
    requires db[1].range == BandText(5000, 15000)
    requires db[2].range == BandText(500, 1000)
    requires db[3].range == BandText(2000, 3000)
    requires db[4].range == BandText(8000, 12000)
    requires db[5].range == BandText(1000, 1500)
    ensures Ids(FilterUavs(db, c)) == [db[0].id, db[3].id, db[5].id]
  {
    RangeHit(db[0], c, 900, 1500);
    RangeMiss(db[1], c, 5000, 15000);
    RangeMiss(db[2], c, 500, 1000);
    RangeHit(db[3], c, 2000, 3000);
    RangeMiss(db[4], c, 8000, 12000);
    RangeHit(db[5], c, 1000, 1500);
    SixVerdicts(db, c, true, false, false, true, false, true);
  }

  lemma QueryBand()
    ensures ParseRange("1400-2100") == Some(Band(Num(1400), Num(2100)))
  {
    assert DecimalDigits(1400) == "1400";
    assert DecimalDigits(2100) == "2100";
    assert BandText(1400, 2100) == "1400-2100";
    ParseRangeBandText(1400, 2100);
  }

  lemma RangeHit(u: Uav, c: Criteria, lo: nat, hi: nat)
    requires c == Criteria("", "", "1400-2100", "")
    requires u.range == BandText(lo, hi)
    requires StrictlyOverlap(1400, 2100, lo, hi)
    ensures Keep(u, c)
  {
    QueryBand();
    ParseRangeBandText(lo, hi);
  }

  lemma RangeMiss(u: Uav, c: Criteria, lo: nat, hi: nat)
    requires c == Criteria("", "", "1400-2100", "")
    requires u.range == BandText(lo, hi)
    requires !StrictlyOverlap(1400, 2100, lo, hi)
    ensures !Keep(u, c)
  {
    QueryBand();
    ParseRangeBandText(lo, hi);
  }
}
