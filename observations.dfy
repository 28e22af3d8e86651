/**
 * One row of the dataset: a location's figures on one day.
 *
 * Dates are day numbers counted from 1970-01-01, the instant `new Date("YYYY-MM-DD")`
 * denotes; a missing string cell (the continent of "World") is "".
 */
module Observations {
  import opened JsNumbers

  datatype Row = Row(
    location: string,
    isoCode: string,
    continent: string,
    date: int,
    population: Count,
    totalCases: Count,
    newCases: Count,
    totalDeaths: Count,
    newDeaths: Count,
    totalVaccinations: Count,
    newVaccinations: Count,
    totalTests: Count,
    newTests: Count,
    peopleFullyVaccinated: Count,
    peopleVaccinatedPerHundred: Rate,
    peopleFullyVaccinatedPerHundred: Rate,
    totalTestsPerThousand: Rate,
    totalCasesPerMillion: Rate)

  /** A calendar month as `year * 12 + (month - 1)`: ordering these is ordering "YYYY-MM" strings. */
  type MonthKey = int

  /**
   * The month of a day number (the civil-from-days conversion of the proleptic
   * Gregorian calendar), i.e. the "YYYY-MM" prefix of the row's ISO date.
   */
  function MonthOf(day: int): MonthKey {
    var z := day + 719468;
    var era := z / 146097;
    var doe := z - era * 146097;
    var yoe := (doe - doe / 1460 + doe / 36524 - doe / 146096) / 365;
    var doy := doe - (365 * yoe + yoe / 4 - yoe / 100);
    var mp := (5 * doy + 2) / 153;
    var month := if mp < 10 then mp + 3 else mp - 9;
    var year := yoe + era * 400 + (if month <= 2 then 1 else 0);
    year * 12 + (month - 1)
  }

  /** The key every "per location" dictionary of the dashboard uses. */
  function Location(r: Row): string { r.location }

  /** The ISO code a country is selected by. */
  function IsoCode(r: Row): string { r.isoCode }

  /** The key every "per continent" dictionary uses. */
  function Continent(r: Row): string { r.continent }

  /** The key every "per month" dictionary uses (the "YYYY-MM" of the row's date). */
  function RowMonth(r: Row): MonthKey { MonthOf(r.date) }

  /** The key every "per date" dictionary uses (the row's ISO date string). */
  function Date(r: Row): int { r.date }

  /** The count columns as the aggregations read them, `row.x || 0`. */
  function TotalCases(r: Row): int { OrZero(r.totalCases) }
  function TotalDeaths(r: Row): int { OrZero(r.totalDeaths) }
  function TotalVaccinations(r: Row): int { OrZero(r.totalVaccinations) }
  function TotalTests(r: Row): int { OrZero(r.totalTests) }
  function Population(r: Row): int { OrZero(r.population) }
  function NewCases(r: Row): int { OrZero(r.newCases) }
  function NewDeaths(r: Row): int { OrZero(r.newDeaths) }
  function NewVaccinations(r: Row): int { OrZero(r.newVaccinations) }
  function NewTests(r: Row): int { OrZero(r.newTests) }
}
