/** The record filter that GridBpLA and FilterSearchBar each carry, word for
    word: `parseRange`, the band-overlap test and the `filter` callback that
    ANDs the name, frequency, range and signal-type criteria. */
module RecordFilter {
  import opened Wrappers
  import opened JsString
  import opened Selection

  /** One catalog record, restricted to the fields the filter reads. */
  datatype Uav = Uav(id: int, name: string, frequency: int, range: string, signalType: string)

  /** The four search fields, as the form holds them; `""` means "no constraint". */
  datatype Criteria = Criteria(searchName: string, frequency: string, range: string, signalType: string)

  /** The criteria after `clearFilters`. */
  const NoCriteria := Criteria("", "", "", "")

  /** The `{ min, max }` object `parseRange` builds; either bound may be `NaN`. */
  datatype Band = Band(min: Number, max: Number)

  // ---------------------------------------------------------------------
  // parseRange
  // ---------------------------------------------------------------------

  /** `parseRange`: `null` for the empty string or when splitting on `-`
      does not give exactly two pieces, otherwise both pieces through
      `parseInt`, with no check that `min <= max`. */
  function ParseRange(rangeStr: string): (r: Option<Band>)
    ensures rangeStr == "" ==> r.None?
    ensures r.Some? <==> rangeStr != "" && Occurrences(rangeStr, '-') == 1
    ensures forall i :: 0 <= i < |rangeStr| && rangeStr[i] == '-' && r.Some? ==>
              r.value == Band(ParseInt(rangeStr[..i]), ParseInt(rangeStr[i + 1..]))
  {
    if rangeStr == "" then None
    else
      var parts := Split(rangeStr, '-');
      SplitLength(rangeStr, '-');
      if |parts| != 2 then None
      else
        assert forall i :: 0 <= i < |rangeStr| && rangeStr[i] == '-' ==> parts == [rangeStr[..i], rangeStr[i + 1..]] by {
          forall i | 0 <= i < |rangeStr| && rangeStr[i] == '-' ensures parts == [rangeStr[..i], rangeStr[i + 1..]] {
            SoleSeparator(rangeStr, '-', i);
          }
        }
        Some(Band(ParseInt(parts[0]), ParseInt(parts[1])))
  }

  /** The empty text and texts with zero or two hyphens give `null`. */
  lemma ParseRangeRejectsSamples()
    ensures ParseRange("") == None
    ensures ParseRange("abc") == None
    ensures ParseRange("100-200-300") == None
  {
    assert Occurrences("abc", '-') == 0;
    assert Occurrences("100-200-300", '-') == 2;
  }

  /** A `min-max` text gives both numbers: `"1000-1500"` reads as 1000 and 1500. */
  lemma ParseRangeReadsSample()
    ensures ParseRange("1000-1500") == Some(Band(Num(1000), Num(1500)))
  {
    assert DecimalDigits(1000) == "1000";
    assert DecimalDigits(1500) == "1500";
    assert BandText(1000, 1500) == "1000-1500";
    ParseRangeBandText(1000, 1500);
  }

  /** The text form `"<min>-<max>"` of a band of natural numbers. */
  function BandText(lo: nat, hi: nat): string
  {
    DecimalDigits(lo) + "-" + DecimalDigits(hi)
  }

  /** `parseRange` reads back the band it was given in text form. */
  lemma ParseRangeBandText(lo: nat, hi: nat)
    ensures ParseRange(BandText(lo, hi)) == Some(Band(Num(lo), Num(hi)))
  {
    var a, b := DecimalDigits(lo), DecimalDigits(hi);
    var s := BandText(lo, hi);
    var i := |a|;
    assert s == a + ("-" + b);
    assert s[i] == '-';
    assert s[..i] == a;
    assert s[i + 1..] == b;
    BandTextHyphens(a, b);
    ParseIntDecimalDigits(lo);
    ParseIntDecimalDigits(hi);
    var r := ParseRange(s);
    assert r.Some? && r.value == Band(ParseInt(a), ParseInt(b));
    BandEquality(r, Num(lo), Num(hi));
  }

  /** `"<digits>-<digits>"` holds exactly one hyphen. */
  lemma BandTextHyphens(a: string, b: string)
    requires forall k :: 0 <= k < |a| ==> IsDecimalDigit(a[k])
    requires forall k :: 0 <= k < |b| ==> IsDecimalDigit(b[k])
    ensures Occurrences(a + ("-" + b), '-') == 1
  {
    OccurrencesAppend(a, "-" + b, '-');
    OccurrencesAppend("-", b, '-');
    OccurrencesZero(a, '-');
    OccurrencesZero(b, '-');
  }

  lemma BandEquality(r: Option<Band>, lo: Number, hi: Number)
    requires r.Some? && r.value.min == lo && r.value.max == hi
    ensures r == Some(Band(lo, hi))
  {
  }

  // ---------------------------------------------------------------------
  // Band overlap
  // ---------------------------------------------------------------------

  /** Two bands of plain integers share a stretch of positive length. */
  predicate StrictlyOverlap(lo1: int, hi1: int, lo2: int, hi2: int)
  {
    lo1 < hi1 && lo2 < hi2 && lo1 < hi2 && lo2 < hi1
  }

  /** A band with a `NaN` bound. */
  predicate HasNaN(b: Band)
  {
    b.min.NaN? || b.max.NaN?
  }

  /** `Math.max(0, Math.min(a.max, b.max) - Math.max(a.min, b.min))`. */
  function Overlap(a: Band, b: Band): (r: Number)
    ensures r.NaN? <==> HasNaN(a) || HasNaN(b)
    ensures r.Num? ==> r.value >= 0
    ensures r.Num? ==> (r.value > 0 <==> StrictlyOverlap(a.min.value, a.max.value, b.min.value, b.max.value))
  {
    MathMax(Num(0), Minus(MathMin(a.max, b.max), MathMax(a.min, b.min)))
  }

  // ---------------------------------------------------------------------
  // The filter callback
  // ---------------------------------------------------------------------

  /** The range branch of the callback for a non-empty query: reject when
      either side parses to `null` or when `overlap === 0`. */
  predicate RangeAccepts(query: string, uavRange: string)
  {
    var inputRange := ParseRange(query);
    var uavBand := ParseRange(uavRange);
    if inputRange.None? || uavBand.None? then false
    else Overlap(inputRange.value, uavBand.value) != Num(0)
  }

  /** The `filter` callback: four early `return false`s, then `true`. */
  predicate Keep(u: Uav, c: Criteria)
  {
    if c.searchName != "" && !Includes(ToLowerCase(u.name), ToLowerCase(c.searchName)) then false
    else if c.frequency != "" && !StrictEquals(Num(u.frequency), ParseInt(c.frequency)) then false
    else if c.range != "" && !RangeAccepts(c.range, u.range) then false
    else if c.signalType != "" && u.signalType != c.signalType then false
    else true
  }

  /** `uavDatabase.filter(callback)`. */
  function FilterUavs(us: seq<Uav>, c: Criteria): seq<Uav>
  {
    Filter(us, KeepFor(c))
  }

  /** The callback itself, as a function value. */
  function KeepFor(c: Criteria): Uav -> bool
  {
    (u: Uav) => Keep(u, c)
  }

  /** The ids of a list of records, in order. */
  function Ids(us: seq<Uav>): (ids: seq<int>)
    ensures |ids| == |us|
    ensures forall k :: 0 <= k < |us| ==> ids[k] == us[k].id
  {
    if us == [] then [] else [us[0].id] + Ids(us[1..])
  }

  /** The ids of two lists one after the other. */
  lemma {:induction false} IdsAppend(a: seq<Uav>, b: seq<Uav>)
    ensures Ids(a + b) == Ids(a) + Ids(b)
  {
    if a == [] {
      assert a + b == b;
    } else {
      assert (a + b)[0] == a[0] && (a + b)[1..] == a[1..] + b;
      IdsAppend(a[1..], b);
    }
  }


  // ---------------------------------------------------------------------
  // What each criterion means, stated without the callback's control flow
  // ---------------------------------------------------------------------

  /** Name criterion: a case-insensitive substring. */
  ghost predicate NameMatches(u: Uav, query: string)
  {
    query == "" || exists i :: OccursAt(ToLowerCase(u.name), ToLowerCase(query), i)
  }

  /** Frequency criterion: the query reads as exactly the record's frequency. */
  predicate FrequencyMatches(u: Uav, query: string)
  {
    query == "" || ParseInt(query) == Num(u.frequency)
  }

  /** Range criterion: both sides are `min-max` texts with one hyphen, and
      either some bound is `NaN` or the bands share a stretch of positive
      length. */
  predicate RangeMatches(u: Uav, query: string)
  {
    query == "" ||
    (var q := ParseRange(query);
     var b := ParseRange(u.range);
     && q.Some? && b.Some?
     && (|| HasNaN(q.value) || HasNaN(b.value)
         || StrictlyOverlap(q.value.min.value, q.value.max.value, b.value.min.value, b.value.max.value)))
  }

  /** Signal-type criterion: exact, case-sensitive equality. */
  predicate SignalTypeMatches(u: Uav, query: string)
  {
    query == "" || u.signalType == query
  }

  /** All four criteria hold, each of them a wildcard when its field is empty. */
  ghost predicate Matches(u: Uav, c: Criteria)
  {
    && NameMatches(u, c.searchName)
    && FrequencyMatches(u, c.frequency)
    && RangeMatches(u, c.range)
    && SignalTypeMatches(u, c.signalType)
  }

  /** The callback keeps a record exactly when all four criteria hold. */
  lemma KeepIsConjunction(u: Uav, c: Criteria)
    ensures Keep(u, c) <==> Matches(u, c)
  {
    IncludesIffOccurs(ToLowerCase(u.name), ToLowerCase(c.searchName));
  }

  // ---------------------------------------------------------------------
  // The filter as a whole
  // ---------------------------------------------------------------------

  /** The result is the order-preserving subsequence of exactly the kept
      records: position `i` of the input is picked iff its record matches
      all four criteria. */
  lemma FilterUavsSelectsMatches(us: seq<Uav>, c: Criteria)
    ensures exists idx :: Selects(idx, us, FilterUavs(us, c)) &&
              forall i :: 0 <= i < |us| ==> (i in idx <==> Matches(us[i], c))
  {
    var keep := KeepFor(c);
    FilterSelectsKept(us, keep);
    var idx :| Selects(idx, us, Filter(us, keep)) && Picks(idx, us, keep);
    forall i | 0 <= i < |us| ensures i in idx <==> Matches(us[i], c) {
      assert keep(us[i]) == Keep(us[i], c);
      KeepIsConjunction(us[i], c);
    }
    assert FilterUavs(us, c) == Filter(us, keep);
    assert Selects(idx, us, FilterUavs(us, c));
  }

  /** Filtering the result again with the same criteria changes nothing. */
  lemma FilterUavsIdempotent(us: seq<Uav>, c: Criteria)
    ensures FilterUavs(FilterUavs(us, c), c) == FilterUavs(us, c)
  {
    FilterIdempotent(us, KeepFor(c));
  }

  /** How many records of `us` match all four criteria. */
  ghost function CountMatching(us: seq<Uav>, c: Criteria): nat
  {
    if us == [] then 0 else (if Matches(us[0], c) then 1 else 0) + CountMatching(us[1..], c)
  }

  /** The length of the filtered list (the displayed result count) is the
      number of records that match all four criteria. */
  lemma {:induction false} FilterUavsCount(us: seq<Uav>, c: Criteria)
    ensures |FilterUavs(us, c)| == CountMatching(us, c)
  {
    if us != [] {
      FilterUavsCount(us[1..], c);
      KeepIsConjunction(us[0], c);
      FilterCons(us, KeepFor(c));
    }
  }

  /** Empty criteria keep the whole list. */
  lemma FilterNoCriteria(us: seq<Uav>)
    ensures FilterUavs(us, NoCriteria) == us
  {
    FilterKeepAll(us, KeepFor(NoCriteria));
  }

  /** A non-empty frequency query that does not read as a number (`NaN`)
      keeps no record at all. */
  lemma NaNFrequencyKeepsNothing(us: seq<Uav>, c: Criteria)
    requires c.frequency != "" && ParseInt(c.frequency).NaN?
    ensures FilterUavs(us, c) == []
  {
    FilterKeepNone(us, KeepFor(c));
  }

  /** A frequency query written as the digits of `n` keeps exactly the
      records whose frequency is `n`. */
  lemma FrequencyQueryOfNumber(u: Uav, c: Criteria, n: int)
    requires c.frequency == DecimalString(n)
    ensures FrequencyMatches(u, c.frequency) <==> u.frequency == n
  {
    ParseIntDecimalString(n);
    assert |DecimalString(n)| >= 1;
  }

  // ---------------------------------------------------------------------
  // Range edge cases
  // ---------------------------------------------------------------------

  /** Bands that only touch at one end are rejected:
      query `lo-mid` against a record band `mid-hi`. */
  lemma TouchingBandsRejected(u: Uav, lo: nat, mid: nat, hi: nat)
    requires u.range == BandText(mid, hi)
    ensures !RangeAccepts(BandText(lo, mid), u.range)
  {
    ParseRangeBandText(lo, mid);
    ParseRangeBandText(mid, hi);
  }

  /** A reversed query band (`min > max`) overlaps no well-formed band. */
  lemma ReversedQueryRejected(u: Uav, lo: nat, hi: nat, lo2: nat, hi2: nat)
    requires lo > hi && u.range == BandText(lo2, hi2)
    ensures !RangeAccepts(BandText(lo, hi), u.range)
  {
    ParseRangeBandText(lo, hi);
    ParseRangeBandText(lo2, hi2);
  }

  /** A record band that lies wholly after the query band is rejected. */
  lemma DisjointBandsRejected(u: Uav, lo1: nat, hi1: nat, lo2: nat, hi2: nat)
    requires hi1 < lo2 && u.range == BandText(lo2, hi2)
    ensures !RangeAccepts(BandText(lo1, hi1), u.range)
  {
    ParseRangeBandText(lo1, hi1);
    ParseRangeBandText(lo2, hi2);
  }

  /** Two well-formed bands that cross are accepted. */
  lemma CrossingBandsAccepted(u: Uav, lo1: nat, hi1: nat, lo2: nat, hi2: nat)
    requires StrictlyOverlap(lo1, hi1, lo2, hi2) && u.range == BandText(lo2, hi2)
    ensures RangeAccepts(BandText(lo1, hi1), u.range)
  {
    ParseRangeBandText(lo1, hi1);
    ParseRangeBandText(lo2, hi2);
  }

  /** A query with one hyphen but a bound that does not parse yields a
      `NaN` overlap, and `NaN === 0` is false: the record is NOT rejected,
      provided its own range has exactly one hyphen. */
  lemma NaNBoundAccepted(u: Uav, query: string)
    requires ParseRange(query).Some? && HasNaN(ParseRange(query).value)
    requires ParseRange(u.range).Some?
    ensures RangeAccepts(query, u.range)
  {
  }

  /** The two texts of that kind that are easiest to type: `"abc-def"`
      (neither bound parses) and `"1000-"` (the upper bound is missing).
      Each keeps every record whose own band has one hyphen. */
  lemma NaNQueriesKeepRecords(u: Uav)
    requires ParseRange(u.range).Some?
    ensures RangeAccepts("abc-def", u.range)
    ensures RangeAccepts("1000-", u.range)
  {
    LettersQueryBand();
    OpenQueryBand();
    NaNBoundAccepted(u, "abc-def");
    NaNBoundAccepted(u, "1000-");
  }

  /** `"abc-def"` has one hyphen and neither piece has digits. */
  lemma LettersQueryBand()
    ensures ParseRange("abc-def") == Some(Band(NaN, NaN))
  {
    var q := "abc-def";
    assert Occurrences(q, '-') == 1;
    assert q[3] == '-' && q[..3] == "abc" && q[4..] == "def";
    ParseIntNoDigits("abc");
    ParseIntNoDigits("def");
  }

  /** `"1000-"` has one hyphen and nothing after it. */
  lemma OpenQueryBand()
    ensures ParseRange("1000-").Some? && ParseRange("1000-").value.max == NaN
  {
    var q := "1000-";
    assert Occurrences(q, '-') == 1;
    assert q[4] == '-' && q[5..] == "";
    ParseIntNoDigits("");
  }

  /** A query with no hyphen, or with more than one, rejects every record. */
  lemma MalformedQueryRejected(u: Uav, query: string)
    requires query != "" && Occurrences(query, '-') != 1
    ensures !RangeAccepts(query, u.range)
  {
  }
}
