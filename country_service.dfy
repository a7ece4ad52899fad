/**
 * The "top countries by population density" ranking.
 *
 * The outcome of the HTTP request to the country API is an input: `None`
 * stands for a response with an error status (or a body that does not decode), `Some(xs)`
 * for the decoded JSON array. Each record is given defaults, gets a
 * density, is dropped unless that density is positive, and the survivors
 * are sorted densest first and cut to the requested count.
 */
module CountryService {
  import opened Wrappers

  /** The `name` object of one upstream record; `None` = key absent or null. */
  datatype RawName = RawName(common: Option<string>, official: Option<string>)

  /** One element of the decoded upstream JSON array; `None` = key absent or null. */
  datatype RawCountry = RawCountry(name: Option<RawName>, area: Option<real>, population: Option<int>)

  /** One ranked record as the service returns it. */
  datatype Country = Country(
    nameCommon: string,
    nameOfficial: string,
    area: real,
    population: int,
    populationDensity: real)

  /** The placeholder for a missing name. */
  const NotAvailable: string := "N/A"

  /** Population per unit of area, or 0 unless both are strictly positive. */
  function Density(area: real, population: int): (d: real)
    ensures d > 0.0 <==> area > 0.0 && population > 0
    ensures d > 0.0 ==> d * area == population as real
    ensures d <= 0.0 ==> d == 0.0
  {
    if area > 0.0 && population > 0 then population as real / area else 0.0
  }

  /** The common name, or "N/A" when the name object or its `common` key is absent or null. */
  function CommonName(raw: RawCountry): (n: string)
    ensures raw.name.Some? && raw.name.value.common.Some? ==> n == raw.name.value.common.value
    ensures raw.name.None? || raw.name.value.common.None? ==> n == NotAvailable
  {
    match raw.name
    case Some(RawName(Some(common), _)) => common
    case _ => NotAvailable
  }

  /** The official name, or "N/A" when the name object or its `official` key is absent or null. */
  function OfficialName(raw: RawCountry): (n: string)
    ensures raw.name.Some? && raw.name.value.official.Some? ==> n == raw.name.value.official.value
    ensures raw.name.None? || raw.name.value.official.None? ==> n == NotAvailable
  {
    match raw.name
    case Some(RawName(_, Some(official))) => official
    case _ => NotAvailable
  }

  /** The per-record step of the pipeline: defaults, then the derived density. */
  function ToCountry(raw: RawCountry): (c: Country)
    ensures raw.area.None? ==> c.area == 0.0
    ensures raw.population.None? ==> c.population == 0
    ensures raw.area.Some? ==> c.area == raw.area.value
    ensures raw.population.Some? ==> c.population == raw.population.value
    ensures c.populationDensity > 0.0 <==>
              raw.area.Some? && raw.area.value > 0.0 && raw.population.Some? && raw.population.value > 0
    ensures c.populationDensity > 0.0 ==> c.populationDensity * c.area == c.population as real
    ensures c.populationDensity <= 0.0 ==> c.populationDensity == 0.0
    ensures c.nameCommon == CommonName(raw) && c.nameOfficial == OfficialName(raw)
  {
    var area := if raw.area.Some? then raw.area.value else 0.0;
    var population := if raw.population.Some? then raw.population.value else 0;
    Country(CommonName(raw), OfficialName(raw), area, population, Density(area, population))
  }

  /** The `map` step: one defaulted record per raw record, in order. */
  function WithDefaults(raws: seq<RawCountry>): (cs: seq<Country>)
    ensures |cs| == |raws|
    ensures forall i :: 0 <= i < |raws| ==> cs[i] == ToCountry(raws[i])
  {
    if raws == [] then [] else [ToCountry(raws[0])] + WithDefaults(raws[1..])
  }

  /**
   * The `filter` step: every record kept has positive density, and there are
   * no more of them than in the input; PositiveDensityExact says which.
   */
  function PositiveDensity(cs: seq<Country>): (r: seq<Country>)
    ensures forall i :: 0 <= i < |r| ==> r[i].populationDensity > 0.0
    ensures |r| <= |cs|
  {
    if cs == [] then []
    else
      assert cs == [cs[0]] + cs[1..];
      if cs[0].populationDensity > 0.0 then [cs[0]] + PositiveDensity(cs[1..])
      else PositiveDensity(cs[1..])
  }

  /** The filter keeps every record of positive density as often as it occurs, and no other record. */
  lemma {:induction false} PositiveDensityExact(cs: seq<Country>, c: Country)
    ensures multiset(PositiveDensity(cs))[c] == if c.populationDensity > 0.0 then multiset(cs)[c] else 0
  {
    if cs != [] {
      assert cs == [cs[0]] + cs[1..];
      PositiveDensityExact(cs[1..], c);
    }
  }

  /** Densest first: no record is followed by a denser one. */
  predicate SortedByDensityDesc(s: seq<Country>) {
    forall i, j :: 0 <= i < j < |s| ==> s[i].populationDensity >= s[j].populationDensity
  }

  /** A record at least as dense as every record of a sorted list may head it. */
  lemma SortedCons(x: Country, t: seq<Country>)
    requires SortedByDensityDesc(t)
    requires forall k :: 0 <= k < |t| ==> x.populationDensity >= t[k].populationDensity
    ensures SortedByDensityDesc([x] + t)
  {
    var r := [x] + t;
    forall i, j | 0 <= i < j < |r|
      ensures r[i].populationDensity >= r[j].populationDensity
    {
      assert r[j] == t[j - 1];
      if i > 0 {
        assert r[i] == t[i - 1];
      }
    }
  }

  /** Places `c` ahead of the first record less dense than it, so ahead of the records as dense as it. */
  function Insert(c: Country, s: seq<Country>): (r: seq<Country>)
    ensures multiset(r) == multiset(s) + multiset{c}
  {
    if s == [] || c.populationDensity >= s[0].populationDensity then [c] + s
    else
      assert s == [s[0]] + s[1..];
      [s[0]] + Insert(c, s[1..])
  }

  /** Inserting into a list sorted densest first keeps it sorted. */
  lemma {:induction false} InsertSorted(c: Country, s: seq<Country>)
    requires SortedByDensityDesc(s)
    ensures SortedByDensityDesc(Insert(c, s))
  {
    if s == [] || c.populationDensity >= s[0].populationDensity {
      SortedCons(c, s);
    } else {
      var tail := s[1..];
      InsertSorted(c, tail);
      var rest := Insert(c, tail);
      forall k | 0 <= k < |rest|
        ensures s[0].populationDensity >= rest[k].populationDensity
      {
        assert rest[k] in multiset(rest);
        if rest[k] != c {
          assert rest[k] in multiset(tail);
          var m :| 0 <= m < |tail| && tail[m] == rest[k];
          assert tail[m] == s[m + 1];
        }
      }
      SortedCons(s[0], rest);
    }
  }

  /** The `sortByDesc` step. */
  function SortByDensityDesc(s: seq<Country>): (r: seq<Country>)
    ensures SortedByDensityDesc(r)
    ensures multiset(r) == multiset(s)
  {
    if s == [] then []
    else
      assert s == [s[0]] + s[1..];
      InsertSorted(s[0], SortByDensityDesc(s[1..]));
      Insert(s[0], SortByDensityDesc(s[1..]))
  }

  /** The `take` step for a non-negative count. */
  function Take(s: seq<Country>, count: nat): (r: seq<Country>)
    ensures |r| == if count < |s| then count else |s|
    ensures r == s[..|r|]
  {
    if count < |s| then s[..count] else s
  }

  /** A rankable record: positive area and population, and their quotient as density. */
  predicate Qualifies(c: Country) {
    c.populationDensity > 0.0 && c.area > 0.0 && c.population > 0 &&
    c.populationDensity == c.population as real / c.area
  }

  /** The records of a fetch outcome that can be ranked at all. */
  function Qualifying(fetched: Option<seq<RawCountry>>): seq<Country> {
    match fetched
    case None => []
    case Some(countries) => PositiveDensity(WithDefaults(countries))
  }

  /**
   * `sortByDesc` then `take`: the densest `count` records of `q`, densest
   * first. Every record of `q` left out is at most as dense as every ranked
   * one, and when `count` covers `q` the result is a permutation of it.
   */
  function Rank(q: seq<Country>, count: nat): (r: seq<Country>)
    ensures |r| == if count < |q| then count else |q|
    ensures SortedByDensityDesc(r)
    ensures multiset(r) <= multiset(q)
    ensures forall c: Country, i :: multiset(r)[c] < multiset(q)[c] && 0 <= i < |r| ==>
              c.populationDensity <= r[i].populationDensity
    ensures count >= |q| ==> multiset(r) == multiset(q)
  {
    var ranked := SortByDensityDesc(q);
    var r := Take(ranked, count);
    MultisetOfSplit(ranked, |r|);
    PrefixIsDensest(ranked, |r|);
    r
  }

  /**
   * `getCountriesByDensity`: empty on a failed fetch or an empty payload,
   * otherwise the qualifying records ranked and cut to `count`.
   */
  function GetCountriesByDensity(fetched: Option<seq<RawCountry>>, count: nat): (r: seq<Country>)
    ensures fetched.None? || fetched == Some([]) ==> r == []
    ensures |r| == if count < |Qualifying(fetched)| then count else |Qualifying(fetched)|
    ensures count == 0 ==> r == []
    ensures SortedByDensityDesc(r)
    ensures forall i :: 0 <= i < |r| ==> Qualifies(r[i])
    ensures multiset(r) <= multiset(Qualifying(fetched))
    ensures forall c: Country, i :: multiset(r)[c] < multiset(Qualifying(fetched))[c] && 0 <= i < |r| ==>
              c.populationDensity <= r[i].populationDensity
    ensures count >= |Qualifying(fetched)| ==> multiset(r) == multiset(Qualifying(fetched))
  {
    match fetched
    case None => []
    case Some(countries) =>
      if |countries| == 0 then
        assert Qualifying(fetched) == [];
        []
      else
        var q := PositiveDensity(WithDefaults(countries));
        assert q == Qualifying(fetched);
        var r := Rank(q, count);
        DrawnFromQualifying(countries, r);
        r
  }

  // ---------------------------------------------------------------------------
  // Properties of the ranking

  /** Every qualifying record is the defaulted form of a raw record with positive area and population. */
  lemma QualifyingProvenance(raws: seq<RawCountry>, c: Country)
    requires c in multiset(PositiveDensity(WithDefaults(raws)))
    ensures exists raw :: raw in raws && ToCountry(raw) == c &&
              raw.area == Some(c.area) && c.area > 0.0 &&
              raw.population == Some(c.population) && c.population > 0
  {
    // These steps are hints that keep the proof cheap.
    var cs := WithDefaults(raws);
    PositiveDensityExact(cs, c);
    assert c in multiset(cs);
    assert c in cs;
    var i :| 0 <= i < |cs| && cs[i] == c;
    var raw := raws[i];
    assert ToCountry(raw) == c;
    assert raw.area == Some(c.area) && raw.population == Some(c.population);
  }

  /** Every record of a sub-multiset of the qualifying records qualifies. */
  lemma DrawnFromQualifying(raws: seq<RawCountry>, r: seq<Country>)
    requires multiset(r) <= multiset(PositiveDensity(WithDefaults(raws)))
    ensures forall i :: 0 <= i < |r| ==> Qualifies(r[i])
  {
    forall i | 0 <= i < |r|
      ensures Qualifies(r[i])
    {
      assert r[i] in multiset(r);
      QualifyingProvenance(raws, r[i]);
    }
  }

  /** Provenance: every ranked record is the defaulted form of some fetched record with positive area and population. */
  lemma RankedProvenance(fetched: Option<seq<RawCountry>>, count: nat)
    ensures forall c :: c in GetCountriesByDensity(fetched, count) ==>
              fetched.Some? &&
              exists raw :: raw in fetched.value && ToCountry(raw) == c &&
                raw.area == Some(c.area) && c.area > 0.0 &&
                raw.population == Some(c.population) && c.population > 0
  {
    var r := GetCountriesByDensity(fetched, count);
    forall c | c in r
      ensures fetched.Some?
      ensures exists raw :: raw in fetched.value && ToCountry(raw) == c &&
                raw.area == Some(c.area) && c.area > 0.0 &&
                raw.population == Some(c.population) && c.population > 0
    {
      assert c in multiset(r);
      QualifyingProvenance(fetched.value, c);
    }
  }

  /** A fetched record without an area or a population is given 0 for it and never ranked. */
  lemma MissingFieldNeverRanked(fetched: Option<seq<RawCountry>>, count: nat, raw: RawCountry)
    requires raw.area.None? || raw.population.None?
    ensures raw.area.None? ==> ToCountry(raw).area == 0.0
    ensures raw.population.None? ==> ToCountry(raw).population == 0
    ensures ToCountry(raw) !in GetCountriesByDensity(fetched, count)
  {
  }

  /** Splitting a list splits its multiset. */
  lemma MultisetOfSplit(s: seq<Country>, k: nat)
    requires k <= |s|
    ensures multiset(s) == multiset(s[..k]) + multiset(s[k..])
  {
    assert s == s[..k] + s[k..];
  }

  /** A prefix of a list sorted densest first is at least as dense as everything after it. */
  lemma PrefixIsDensest(ranked: seq<Country>, k: nat)
    requires SortedByDensityDesc(ranked) && k <= |ranked|
    ensures forall c: Country, i :: multiset(ranked[..k])[c] < multiset(ranked)[c] && 0 <= i < k ==>
              c.populationDensity <= ranked[i].populationDensity
  {
    MultisetOfSplit(ranked, k);
    forall c: Country, i | multiset(ranked[..k])[c] < multiset(ranked)[c] && 0 <= i < k
      ensures c.populationDensity <= ranked[i].populationDensity
    {
      var rest := ranked[k..];
      assert c in multiset(rest);
      var j :| 0 <= j < |rest| && rest[j] == c;
      assert ranked[k + j] == c;
    }
  }

  /** The ranking of the example with one country of area 10 and population 100 and one of area 0. */
  lemma SingleDenseCountry()
    ensures var x := RawCountry(Some(RawName(Some("X"), None)), Some(10.0), Some(100));
      var y := RawCountry(Some(RawName(Some("Y"), None)), Some(0.0), Some(50));
      GetCountriesByDensity(Some([x, y]), 5) == [Country("X", NotAvailable, 10.0, 100, 10.0)]
  {
    // Unfolding the pipeline step by step keeps the proof cheap.
    var x := RawCountry(Some(RawName(Some("X"), None)), Some(10.0), Some(100));
    var y := RawCountry(Some(RawName(Some("Y"), None)), Some(0.0), Some(50));
    var cx := Country("X", NotAvailable, 10.0, 100, 10.0);
    assert WithDefaults([x, y]) == [ToCountry(x), ToCountry(y)];
    assert ToCountry(x) == cx;
    assert ToCountry(y).populationDensity == 0.0;
    assert [x, y][1..] == [y];
    assert WithDefaults([x, y])[1..] == [ToCountry(y)];
    assert PositiveDensity([ToCountry(y)]) == [];
    assert PositiveDensity(WithDefaults([x, y])) == [cx];
    assert SortByDensityDesc([cx]) == [cx];
  }
}
