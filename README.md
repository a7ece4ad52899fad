# Country density ranking — a Dafny model

This project models the core of a small Laravel application that ranks
countries by population density and exposes the ranking through a GraphQL
query:

- `CountryService::getCountriesByDensity` (module `CountryService`): the
  fetched country records get defaults for a missing area, population or
  name. Each record gets a density `population / area` when both are
  strictly positive, and 0 otherwise. Records whose density is not positive
  are dropped. The rest are sorted densest first and cut to `count`. A
  failed fetch or an empty payload gives an empty ranking.
- `CountryQuery::topByDensity` (module `CountryQuery`, class `CountryQuery`):
  it resolves the requester's name ("anonymous" when there is no user). It
  ranks the countries and builds an order-preserving `{name, density}`
  summary. It appends exactly one log entry holding the name, the length of
  the ranking and the summary. Then it returns the ranking unchanged.
- `PlaceholderMutation::echo` (module `PlaceholderMutation`): it returns
  the `text` argument, or "No text provided." when the argument is absent or
  null.

The HTTP request is not modelled. Its outcome is an input of type
`Option<seq<RawCountry>>`: `None` stands for a response with an error status
or a body that does not decode (`json()` giving null), and `Some(xs)` stands for the decoded
array. Each raw field that PHP defaults with `??` is an `Option`. Densities
are exact `real`s. The log table is a class `LogService` (module
`LogService`) holding an append-only `seq` of entries. The authentication
context is an optional `Context` that may carry a `User` with a name.

Files: `wrappers.dfy` (the `Option` datatype), `country_service.dfy`,
`log_service.dfy` (the log table and the entries it stores),
`country_query.dfy`, `placeholder_mutation.dfy`.

## Model

| member | source | states |
|---|---|---|
| `CountryService.Density` | app/country-app/app/Services/CountryService.php:37 | density is positive exactly when area and population both are; then density × area = population; otherwise it is 0 |
| `CountryService.CommonName` | app/country-app/app/Services/CountryService.php:40 | the upstream common name when present, "N/A" when the name object or its `common` key is missing |
| `CountryService.OfficialName` | app/country-app/app/Services/CountryService.php:41 | the upstream official name when present, "N/A" when the name object or its `official` key is missing |
| `CountryService.ToCountry` | app/country-app/app/Services/CountryService.php:34-46 | a missing area defaults to 0 and a missing population to 0; density is positive iff both raw fields are present and positive, and then density × area = population; names default to "N/A" |
| `CountryService.WithDefaults` | app/country-app/app/Services/CountryService.php:33-46 | the `map` step: same length, element i is the defaulted form of raw record i |
| `CountryService.PositiveDensity` | app/country-app/app/Services/CountryService.php:47 | the `filter` step: every record kept has positive density, and no more records come out than go in |
| `CountryService.PositiveDensityExact` | app/country-app/app/Services/CountryService.php:47 | the filter keeps each record of positive density exactly as often as it occurs in the input, and drops every other record |
| `CountryService.SortedCons` | app/country-app/app/Services/CountryService.php:48 | a record at least as dense as every record of a sorted list keeps the list sorted when put in front |
| `CountryService.Insert` | app/country-app/app/Services/CountryService.php:48 | inserting one record gives a list whose multiset is the old one plus that record |
| `CountryService.InsertSorted` | app/country-app/app/Services/CountryService.php:48 | inserting into a list sorted densest first keeps it sorted densest first |
| `CountryService.SortByDensityDesc` | app/country-app/app/Services/CountryService.php:48 | the `sortByDesc` step: the result is sorted densest first and is a permutation of its input |
| `CountryService.Take` | app/country-app/app/Services/CountryService.php:49 | the `take` step: the result is the prefix of length min(count, length) |
| `CountryService.Rank` | app/country-app/app/Services/CountryService.php:48-50 | `sortByDesc` then `take`: min(count, length) records, densest first, a sub-multiset of the input; every record left out is at most as dense as every one kept; when count covers the input the result is a permutation of it |
| `CountryService.GetCountriesByDensity` | app/country-app/app/Services/CountryService.php:19-51 | empty on a failed fetch or an empty payload; exactly min(count, qualifying) records, so none when count is 0; sorted densest first; every record has positive area and population and density = population / area; top-N: the records are drawn from the qualifying ones, every qualifying record left out is at most as dense as every ranked one, and when count covers them all the ranking is a permutation of them |
| `CountryService.QualifyingProvenance` | app/country-app/app/Services/CountryService.php:33-47 | every record that passes the filter is the defaulted form of some raw record whose area and population are present and positive |
| `CountryService.DrawnFromQualifying` | app/country-app/app/Services/CountryService.php:33-47 | every record drawn from the qualifying ones has positive area and population and density = population / area |
| `CountryService.RankedProvenance` | app/country-app/app/Services/CountryService.php:23-50 | every ranked record comes from a successful fetch, and is the defaulted form of a fetched record whose area and population are present and positive |
| `CountryService.MissingFieldNeverRanked` | app/country-app/app/Services/CountryService.php:35-37 | a raw record missing its area or its population has that field defaulted to 0 and never appears in the ranking |
| `CountryService.MultisetOfSplit` | app/country-app/app/Services/CountryService.php:49 | the records cut off by `take` and the records kept together make up the sorted list |
| `CountryService.PrefixIsDensest` | app/country-app/app/Services/CountryService.php:48-49 | every record that a prefix of a sorted list leaves out is at most as dense as every record in the prefix |
| `CountryService.SingleDenseCountry` | app/country-app/app/Services/CountryService.php:33-50 | two records, one with area 10 and population 100 and one with area 0, ranked with count 5, give only the first, with density 10 and official name "N/A" |
| `CountryQuery.ResolveUsername` | country-app/app/GraphQL/Queries/CountryQuery.php:37 | the user's name when the context carries a user, "anonymous" when there is no context or no user |
| `CountryQuery.Summarize` | country-app/app/GraphQL/Queries/CountryQuery.php:41-44 | the summary has the ranking's length, and pair i is (name i, density i), order preserved |
| `LogService.LogService.constructor` | app/country-app/database/migrations/2025_07_10_141820_create_log_entries_table.php:14-20 | a newly created log table holds no entries |
| `LogService.LogService.CreateLog` | app/country-app/app/Services/LogService.php:18-26 | appends exactly one entry with the given name, count and details; earlier entries are unchanged |
| `CountryQuery.CountryQuery.constructor` | country-app/app/GraphQL/Queries/CountryQuery.php:15-19 | keeps the log service it is given |
| `CountryQuery.CountryQuery.TopByDensity` | country-app/app/GraphQL/Queries/CountryQuery.php:30-53 | returns exactly the service's ranking for the unmodified count; the log grows by exactly one entry at the end, earlier entries unchanged; the new entry holds the resolved name, the ranking's length and its summary, and its count equals its summary's length (0 for an empty ranking) |
| `CountryQuery.SummaryOfSorted` | country-app/app/GraphQL/Queries/CountryQuery.php:41-44 | the summary of a ranking (sorted densest first, positive densities) has positive densities and runs densest first |
| `PlaceholderMutation.Echo` | app/country-app/app/GraphQL/Mutations/PlaceholderMutation.php:21 | a present, non-null `text` is returned verbatim; an absent key or a null value gives "No text provided." |
| `PlaceholderMutation.EchoKeepsEmptyText` | app/country-app/app/GraphQL/Mutations/PlaceholderMutation.php:21 | an empty `text` is returned as the empty string, not replaced by the default |

`CountryQuery.RequestScenarios` is a client of the class, in the style of a
test harness. It shows what callers can derive from the contracts. A failed
fetch logs an anonymous zero-count entry with an empty summary. Three
requests leave three entries, in the order of the requests.

## Left out

- The HTTP request (`Http::get`, `failed()`, `json()`) is network I/O. Only its outcome is modelled, as the `Option<seq<RawCountry>>` input: `None` covers an error status and a body that does not decode. A connection failure makes `Http::get` throw, uncaught, so the request fails and writes no log entry; that exception path is not modelled. The API URL constant is not modelled.
- PHP floats: the `(float)` casts and the float division are exact `real` arithmetic here, so rounding is outside the model.
- `CountryService.GetCountriesByDensity`: `count` is a `nat`. Laravel's `take` with a negative limit takes records from the end; that is library code, so no claim is made about negative counts. For a negative count the code does not give an empty ranking; the model admits only non-negative counts.
- `CountryService.SortByDensityDesc`: the order of records of equal density is delegated to PHP's sort and is not claimed. Only densest-first order and the permutation are proved. The insertion sort used here happens to keep equal records in input order.
- `LogService.LogService.CreateLog`: the database row, its auto-increment id, its `Carbon::now()` timestamp and the `json_encode` of the details are not modelled. The details are kept as a sequence of pairs, and persistence failures are not modelled.
- `LogEntryQuery::all` is a plain database read of every entry. It is not modelled beyond the `entries` sequence of `LogService`.
- The migration that creates the log table is schema definition: only the fact that a new table is empty is modelled (the `LogService` constructor), and its columns appear as the fields of `LogRecord`; the id and timestamp columns are left out as above.
- GraphQL, Laravel and authentication plumbing (`ResolveInfo`, `GraphQLContext`, dependency injection). The context is reduced to an optional user name. `CountryService` keeps no state, so it is a module of functions rather than an object passed to the `CountryQuery` constructor.
- Raw JSON values of the wrong type (a string area, say) are not modelled: each raw field is either absent/null or a number (area) or integer (population).

