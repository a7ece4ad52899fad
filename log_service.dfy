/**
 * The request log: `createLog` inserts one row per ranking request. The
 * table is an append-only sequence of entries; the row's id, its timestamp
 * and the JSON encoding of the details are not part of this model.
 */
module LogService {

  /** One `{name, density}` pair of a logged summary. */
  datatype SummaryItem = SummaryItem(name: string, density: real)

  /** A log entry as the resolver hands it over: who asked, how many came back, and their summary. */
  datatype LogRecord = LogRecord(username: string, numCountriesReturned: int, countriesDetails: seq<SummaryItem>)

  /** Stand-in for the log table: an append-only list of entries. */
  class LogService {
    var entries: seq<LogRecord>

    /** A log table with no entries yet. */
    constructor ()
      ensures entries == []
    {
      entries := [];
    }

    /** Appends one entry and leaves every earlier one as it was. */
    method CreateLog(username: string, numCountriesReturned: int, countriesDetails: seq<SummaryItem>)
      modifies this
      ensures entries == old(entries) + [LogRecord(username, numCountriesReturned, countriesDetails)]
    {
      entries := entries + [LogRecord(username, numCountriesReturned, countriesDetails)];
    }
  }
}
