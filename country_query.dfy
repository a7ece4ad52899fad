/**
 * The `topByDensity` query resolver: it ranks the countries, logs one
 * summary entry for the request, and returns the ranking unchanged.
 */
module CountryQuery {
  import opened Wrappers
  import opened CountryService
  import opened LogService

  /** The authenticated user of a request, reduced to its name. */
  datatype User = User(name: string)

  /** The request context, which may or may not carry a user. */
  datatype Context = Context(user: Option<User>)

  /** The name logged for a request that has no authenticated user. */
  const Anonymous: string := "anonymous"

  /** The user's name when the context carries a user, otherwise "anonymous". */
  function ResolveUsername(context: Option<Context>): (username: string)
    ensures context.Some? && context.value.user.Some? ==> username == context.value.user.value.name
    ensures context.None? || context.value.user.None? ==> username == Anonymous
  {
    match context
    case Some(Context(Some(user))) => user.name
    case _ => Anonymous
  }

  /** The `{name, density}` summary of a ranking, one pair per record, in the same order. */
  function Summarize(countries: seq<Country>): (summary: seq<SummaryItem>)
    ensures |summary| == |countries|
    ensures forall i :: 0 <= i < |countries| ==>
              summary[i] == SummaryItem(countries[i].nameCommon, countries[i].populationDensity)
  {
    if countries == [] then []
    else [SummaryItem(countries[0].nameCommon, countries[0].populationDensity)] + Summarize(countries[1..])
  }

  class CountryQuery {
    const logService: LogService

    constructor (logService: LogService)
      ensures this.logService == logService
    {
      this.logService := logService;
    }

    /**
     * Ranks the fetched countries with the count passed through unchanged,
     * appends exactly one log entry whose count is the length of the
     * ranking, and returns the ranking itself.
     */
    method TopByDensity(count: nat, fetched: Option<seq<RawCountry>>, context: Option<Context>)
      returns (countries: seq<Country>)
      modifies logService
      ensures countries == GetCountriesByDensity(fetched, count)
      ensures |logService.entries| == |old(logService.entries)| + 1
      ensures logService.entries[..|old(logService.entries)|] == old(logService.entries)
      ensures logService.entries[|old(logService.entries)|] ==
                LogRecord(ResolveUsername(context), |countries|, Summarize(countries))
      ensures logService.entries[|old(logService.entries)|].numCountriesReturned ==
                |logService.entries[|old(logService.entries)|].countriesDetails|
    {
      countries := GetCountriesByDensity(fetched, count);
      var username := ResolveUsername(context);
      var loggedCountriesDetails := Summarize(countries);
      logService.CreateLog(username, |countries|, loggedCountriesDetails);
    }
  }

  /** The summary of a list sorted densest first, with positive densities, keeps both properties. */
  lemma SummaryOfSorted(countries: seq<Country>)
    requires SortedByDensityDesc(countries)
    requires forall i :: 0 <= i < |countries| ==> countries[i].populationDensity > 0.0
    ensures var summary := Summarize(countries);
      (forall i :: 0 <= i < |summary| ==> summary[i].density > 0.0) &&
      (forall i, j :: 0 <= i < j < |summary| ==> summary[i].density >= summary[j].density)
  {
  }

  /** A failed fetch returns nothing and still logs a zero-count entry; three requests log three entries in order. */
  method RequestScenarios(user: string)
  {
    var log := new LogService();
    var query := new CountryQuery(log);
    var none := query.TopByDensity(5, None, None);
    assert none == [];
    assert log.entries == [LogRecord(Anonymous, 0, [])];
    var empty := query.TopByDensity(3, Some([]), Some(Context(None)));
    assert empty == [];
    var named := query.TopByDensity(0, None, Some(Context(Some(User(user)))));
    assert log.entries == [LogRecord(Anonymous, 0, []), LogRecord(Anonymous, 0, []), LogRecord(user, 0, [])];
  }
}
