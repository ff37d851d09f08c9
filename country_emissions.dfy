/**
 * The country-emissions hook: the country list, and the rows and year list
 * of one selected country with loading and error flags. A load begins by
 * raising `loading` and clearing the error, and ends with either the parsed
 * rows and their years or an error naming the country.
 */
module CountryEmissions {

  import opened Wrappers
  import opened Strings
  import opened Seqs
  import opened EmissionsData
  import opened EmissionsCsv
  import opened CountryData

  /** The error text of a failed load: the country with every '_' shown as a space. */
  function LoadError(country: string): (msg: string)
    ensures msg == "Failed to load emissions data for " + ReplaceAll(country, '_', ' ')
    ensures '_' !in msg[34..]
  {
    "Failed to load emissions data for " + ReplaceAll(country, '_', ' ')
  }

  /** The rows a fetched file yields: the shared pipeline, header and blank lines dropped. */
  function Parsed(country: string, csv: string, rd: Readers): (rows: seq<EmissionsRecord>)
    ensures |rows| <= |Split(csv, '\n')| - 1
  {
    ParseCsv(csv, FromFile(country), rd)
  }

  class HookState {
    var countryList: seq<string>
    var emissionsData: seq<EmissionsRecord>
    var availableYears: seq<int>
    var loading: bool
    var error: Option<string>

    /** The year list always belongs to the rows held. */
    predicate Valid()
      reads this`availableYears, this`emissionsData
    {
      availableYears == UniqueYears(emissionsData)
    }

    constructor ()
      ensures Valid()
      ensures countryList == [] && emissionsData == [] && availableYears == []
      ensures loading && error == None
    {
      countryList := [];
      emissionsData := [];
      availableYears := [];
      loading := true;
      error := None;
    }

    /** The mount effect: the country list is `getAvailableCountries()`. */
    method LoadCountryList()
      requires Valid()
      modifies this`countryList
      ensures Valid()
      ensures countryList == AvailableCountries()
    {
      var countries := AvailableCountries();
      SetCountryList(countries);
    }

    /** `setState(prev => ({ ...prev, countryList }))`: only the country list changes. */
    method SetCountryList(countries: seq<string>)
      requires Valid()
      modifies this`countryList
      ensures Valid() && countryList == countries
    {
      countryList := countries;
    }

    /** The first step of a load: nothing for an empty country, otherwise loading with no error. */
    method BeginLoad(selectedCountry: string) returns (started: bool)
      requires Valid()
      modifies this
      ensures Valid()
      ensures started <==> selectedCountry != ""
      ensures countryList == old(countryList)
      ensures emissionsData == old(emissionsData) && availableYears == old(availableYears)
      ensures started ==> loading && error == None
      ensures !started ==> loading == old(loading) && error == old(error)
    {
      if selectedCountry == "" {
        return false;
      }
      loading := true;
      error := None;
      return true;
    }

    /**
     * The end of a load: on a fetched text (None for a failed response or a
     * thrown error) the parsed rows and their sorted distinct years; on a
     * failure no rows, no years and the error message.
     */
    method FinishLoad(selectedCountry: string, fetched: Option<string>, rd: Readers)
      modifies this
      ensures Valid()
      ensures countryList == old(countryList) && !loading
      ensures fetched.Some? ==>
        emissionsData == Parsed(selectedCountry, fetched.value, rd) && error == old(error)
      ensures fetched.None? ==>
        emissionsData == [] && error == Some(LoadError(selectedCountry))
    {
      match fetched {
        case Some(csv) =>
          var rows := Parsed(selectedCountry, csv, rd);
          emissionsData := rows;
          availableYears := UniqueYears(rows);
        case None =>
          error := Some(LoadError(selectedCountry));
          emissionsData := [];
          availableYears := [];
          assert UniqueYears([]) == [];
      }
      loading := false;
    }

    /** The selected-country effect: begin, then finish, unless the country is empty. */
    method LoadCountryData(selectedCountry: string, fetched: Option<string>, rd: Readers)
      requires Valid()
      modifies this
      ensures Valid() && countryList == old(countryList)
      ensures selectedCountry == "" ==>
        emissionsData == old(emissionsData) && availableYears == old(availableYears) &&
        loading == old(loading) && error == old(error)
      ensures selectedCountry != "" && fetched.Some? ==>
        !loading && error == None && emissionsData == Parsed(selectedCountry, fetched.value, rd)
      ensures selectedCountry != "" && fetched.None? ==>
        !loading && error == Some(LoadError(selectedCountry)) && emissionsData == [] && availableYears == []
    {
      var started := BeginLoad(selectedCountry);
      if started {
        FinishLoad(selectedCountry, fetched, rd);
      }
    }
  }

  /**
   * Whatever a load leaves behind, the year list is strictly ascending and
   * holds exactly the years of the rows held.
   */
  lemma YearsOfState(h: HookState)
    requires h.Valid()
    ensures StrictlyIncreasing(h.availableYears)
    ensures forall y :: y in h.availableYears <==> exists r :: r in h.emissionsData && r.year == y
  {
    UniqueYearsSpec(h.emissionsData);
  }

  /** A failed load followed by a successful one clears the error and shows the new rows. */
  method RetryAfterFailure(h: HookState, country: string, csv: string, rd: Readers)
    requires h.Valid() && country != ""
    modifies h
    ensures h.Valid() && !h.loading && h.error == None
    ensures h.emissionsData == Parsed(country, csv, rd)
  {
    h.LoadCountryData(country, None, rd);
    assert h.error == Some(LoadError(country));
    h.LoadCountryData(country, Some(csv), rd);
  }
}
