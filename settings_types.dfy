/**
 * The settings vocabulary: four enumerations, the settings record and its
 * defaults.
 */
module SettingsTypes {

  import opened Wrappers

  datatype DateFormat = MonthFirst | DayFirst | YearFirst
  datatype UnitSystem = Metric | Imperial
  datatype EmailDigest = Daily | Weekly | Monthly | Never
  datatype StorageLimit = Days30 | Days90 | Days180 | Days365 | Unlimited

  function DateFormatName(f: DateFormat): string {
    match f
    case MonthFirst => "MM/DD/YYYY"
    case DayFirst => "DD/MM/YYYY"
    case YearFirst => "YYYY-MM-DD"
  }

  function UnitSystemName(u: UnitSystem): string {
    match u
    case Metric => "metric"
    case Imperial => "imperial"
  }

  function EmailDigestName(e: EmailDigest): string {
    match e
    case Daily => "daily"
    case Weekly => "weekly"
    case Monthly => "monthly"
    case Never => "never"
  }

  function StorageLimitName(s: StorageLimit): string {
    match s
    case Days30 => "30"
    case Days90 => "90"
    case Days180 => "180"
    case Days365 => "365"
    case Unlimited => "unlimited"
  }

  function DateFormatOf(s: string): (r: Option<DateFormat>)
    ensures r.Some? ==> DateFormatName(r.value) == s
  {
    if s == "MM/DD/YYYY" then Some(MonthFirst)
    else if s == "DD/MM/YYYY" then Some(DayFirst)
    else if s == "YYYY-MM-DD" then Some(YearFirst)
    else None
  }

  function UnitSystemOf(s: string): (r: Option<UnitSystem>)
    ensures r.Some? ==> UnitSystemName(r.value) == s
  {
    if s == "metric" then Some(Metric) else if s == "imperial" then Some(Imperial) else None
  }

  function EmailDigestOf(s: string): (r: Option<EmailDigest>)
    ensures r.Some? ==> EmailDigestName(r.value) == s
  {
    if s == "daily" then Some(Daily)
    else if s == "weekly" then Some(Weekly)
    else if s == "monthly" then Some(Monthly)
    else if s == "never" then Some(Never)
    else None
  }

  function StorageLimitOf(s: string): (r: Option<StorageLimit>)
    ensures r.Some? ==> StorageLimitName(r.value) == s
  {
    if s == "30" then Some(Days30)
    else if s == "90" then Some(Days90)
    else if s == "180" then Some(Days180)
    else if s == "365" then Some(Days365)
    else if s == "unlimited" then Some(Unlimited)
    else None
  }

  /** Each enumeration's names are pairwise distinct: every name reads back as the value it names. */
  lemma NamesRoundTrip(f: DateFormat, u: UnitSystem, e: EmailDigest, s: StorageLimit)
    ensures DateFormatOf(DateFormatName(f)) == Some(f)
    ensures UnitSystemOf(UnitSystemName(u)) == Some(u)
    ensures EmailDigestOf(EmailDigestName(e)) == Some(e)
    ensures StorageLimitOf(StorageLimitName(s)) == Some(s)
  {
  }

  const DateFormats: seq<DateFormat> := [MonthFirst, DayFirst, YearFirst]
  const UnitSystems: seq<UnitSystem> := [Metric, Imperial]
  const EmailDigests: seq<EmailDigest> := [Daily, Weekly, Monthly, Never]
  const StorageLimits: seq<StorageLimit> := [Days30, Days90, Days180, Days365, Unlimited]

  /** The domains: three date formats, two unit systems, four digests and five storage limits, each listed once. */
  lemma DomainsComplete(f: DateFormat, u: UnitSystem, e: EmailDigest, s: StorageLimit)
    ensures f in DateFormats && u in UnitSystems && e in EmailDigests && s in StorageLimits
    ensures |DateFormats| == 3 && |UnitSystems| == 2 && |EmailDigests| == 4 && |StorageLimits| == 5
    ensures forall i, j :: 0 <= i < j < |DateFormats| ==> DateFormatName(DateFormats[i]) != DateFormatName(DateFormats[j])
    ensures forall i, j :: 0 <= i < j < |EmailDigests| ==> EmailDigestName(EmailDigests[i]) != EmailDigestName(EmailDigests[j])
    ensures forall i, j :: 0 <= i < j < |StorageLimits| ==> StorageLimitName(StorageLimits[i]) != StorageLimitName(StorageLimits[j])
    ensures UnitSystemName(Metric) != UnitSystemName(Imperial)
  {
  }

  datatype Settings = Settings(
    dataCollection: bool,
    anonymizeData: bool,
    storageLimit: StorageLimit,
    units: UnitSystem,
    dateFormat: DateFormat,
    emailDigest: EmailDigest,
    pushNotifications: bool)

  /** `defaultSettings`; the fallback context exposes exactly these. */
  const DefaultSettings := Settings(true, true, Days90, Metric, MonthFirst, Weekly, true)

  lemma DefaultValues()
    ensures DefaultSettings.dataCollection && DefaultSettings.anonymizeData && DefaultSettings.pushNotifications
    ensures StorageLimitName(DefaultSettings.storageLimit) == "90"
    ensures UnitSystemName(DefaultSettings.units) == "metric"
    ensures DateFormatName(DefaultSettings.dateFormat) == "MM/DD/YYYY"
    ensures EmailDigestName(DefaultSettings.emailDigest) == "weekly"
  {
  }
}
