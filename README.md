# Carbon tracker core, modelled in Dafny

This project models the logic under the user interface of a small React
carbon-footprint tracker, and proves properties of that model. It covers five
groups.

- **The publish/subscribe bus** (`EventEmitter`). Event names map to ordered
  handler lists, with `on`, `off`, `emit` and `once`. The application's ten
  event names and their payload shapes are part of it.
- **The activity store and its satellites.**
  - Add, update and delete of logged activities. Each mutation schedules its bus
    notice on a zero-delay timer.
  - The footprint of an activity, period totals, and the by-date query.
  - The static catalog of categories and activity types.
  - The activity form's validation and record building.
  - The activity list's filter, newest-first order and display fallbacks.
  - The event log, which keeps the ten newest entries.
- **Preference stores.** The menu's collapse flag, theme and colour scheme, and
  seven settings fields with their defaults. Each store persists its values
  as JSON text under fixed keys.
- **Date strings.** `YYYY-MM-DD` formatting and parsing, day equality, the
  42-cell Monday-first calendar grid of the date picker, and one-day
  navigation on the timeline. JavaScript's `Date` becomes an explicit
  proleptic Gregorian `(year, monthIndex, day)` record, or the invalid date.
- **Emissions data.**
  - The CSV row pipeline.
  - The country list.
  - The per-country map the provider assembles.
  - Year de-duplication and sorting, inclusive range filtering and averages.
  - The country-emissions hook's load states.
  - The historical panel's default year range and start/end coupling.
  - The year selector's option lists.

Stateful parts are classes with the source's fields. The classes whose
fields must agree with each other have a validity predicate that every one
of their methods preserves: the event emitter, the event log, the activity,
menu, theme and settings stores, the country-emissions hook state and the
date picker. The form state, the day timeline and the historical panel keep
no such relation between their fields, so they have none. Every `emit` call is recorded
in an `emitted` list. A `setTimeout(…, 0)` notice waits in an `outbox` until
`FireNext` runs it. Pure parts are functions with lemmas about them.

The following are parameters of the operations:
- the clock (`Date.now()`, today's date);
- fetched file texts (`None` for a failed fetch);
- the JavaScript number readers used on CSV columns;
- which handlers throw;
- the time stamp a date string denotes.

Footprints and emissions are `real` (exact arithmetic). `NaN` is `None`.

## Model

| member | source | states |
|---|---|---|
| Strings.PadStart2 | src/utils/dateUtils.ts:10-11 | `padStart(2, '0')` leaves a string of two or more characters alone and left-fills a shorter one with '0' to length two |
| Strings.JsNumber | src/utils/dateUtils.ts:20 | `Number` of a date part is a number exactly when the part is all digits, and then it is non-negative |
| Strings.Split | src/utils/dateUtils.ts:20 | `split('-')` gives at least one part, and no part holds the separator |
| Strings.JoinSplit | src/utils/dateUtils.ts:20 | joining the parts of a split with the separator gives back the original string |
| Strings.ReplaceAll | src/components/emissions/CountryEmissionsGraph.tsx:80 | `replace(/_/g, ' ')` keeps the length and swaps exactly the '_' characters |
| Emitter.IndexOf | src/utils/EventEmitter.ts:40 | `indexOf`: -1 exactly when the handler is absent, otherwise the position of its first registration |
| Emitter.FindIndex | src/utils/EventEmitter.ts:40 | the search as a loop finds the same first position, or -1 exactly when absent |
| Emitter.RemoveFirstCount | src/utils/EventEmitter.ts:36-44 | `off` of an unregistered handler leaves the list unchanged; otherwise exactly one copy goes (one shorter, multiset minus that handler) |
| Emitter.SubscribeTwiceOffOnce | src/utils/EventEmitter.ts:19-44 | a handler registered twice and removed once stays registered once, at the end |
| Emitter.DeliverPlain | src/utils/EventEmitter.ts:51-63 | with no once-wrapper, `emit` calls every handler once, in registration order, with the same payload. It goes on past throwing handlers and leaves the registry as it was |
| Emitter.DeliverEmpty | src/utils/EventEmitter.ts:52-53 | an emit over an empty list calls nothing |
| Emitter.OnceSkipsNext | src/utils/EventEmitter.ts:71-79 | because `forEach` walks the live array, the handler registered right after a firing once-wrapper is skipped by that emit. The wrapper is removed |
| Emitter.EventEmitter.constructor | src/utils/EventEmitter.ts:1-12 | the registry starts empty |
| Emitter.EventEmitter.On | src/utils/EventEmitter.ts:19-29 | `on` appends to the event's list, creating it when absent; other events' lists are untouched; the returned unsubscribe names exactly that event and handler |
| Emitter.EventEmitter.Off | src/utils/EventEmitter.ts:36-44 | `off` removes the first registration of the handler; an absent event or handler leaves the registry unchanged |
| Emitter.EventEmitter.Unsubscribe | src/utils/EventEmitter.ts:28 | the closure `on` returns performs `off` for exactly its event and handler |
| Emitter.EventEmitter.OnceOn | src/utils/EventEmitter.ts:71-79 | `once` registers a fresh wrapper at the end of the list and returns its unsubscribe |
| Emitter.EventEmitter.Visit | src/utils/EventEmitter.ts:56-61 | one visit: a once-wrapper first takes itself out of the list, then the handler runs with the payload; a throw is recorded, not propagated |
| Emitter.EventEmitter.Emit | src/utils/EventEmitter.ts:51-63 | `emit` is exactly the live-array delivery: same payload to every call, and each once-wrapper fires at most once across all emits, since its token never fires twice |
| Events.EventOf | src/constants/events.ts:9-35 | a bus key read back as an event names that event's constant |
| Events.NamesDistinct | src/constants/events.ts:9-35 | each of the ten constants reads back as itself, so the names are pairwise distinct |
| Activities.FindTypeIn | src/contexts/ActivityContext.tsx:122-124 | a lookup by id only finds an entry carrying that id |
| Activities.FindTypeInFirst | src/contexts/ActivityContext.tsx:122-125 | lookup finds nothing exactly when no entry has the id, and otherwise the first one that does |
| Activities.FindCategoryIn | src/components/activities/ActivityList.tsx:70-72 | category lookup finds a listed category with that id, and nothing exactly when none has it |
| Activities.CategoryIdList | src/constants/activities.ts:17-48 | the category ids are transportation, food, home, energy, waste, pairwise distinct |
| Activities.TypeIdsDistinct | src/constants/activities.ts:50-197 | no two activity types share an id |
| Activities.FindTypeInExact | src/constants/activities.ts:50-197 | in a list with distinct ids, lookup of an entry's id finds that entry |
| Activities.FindTypeExact | src/constants/activities.ts:50-197 | looking up a catalog type's own id finds that type |
| Activities.FindTypeMember | src/constants/activities.ts:50-197 | the same, for a catalog type given by value |
| Activities.FindCategoryMember | src/constants/activities.ts:17-48 | looking up a declared category's id finds that category |
| Activities.TypeCategoriesDeclared | src/constants/activities.ts:50-197 | every type's category is a declared category, and no type uses `home` |
| Activities.TypeCategoryMember | src/constants/activities.ts:50-197 | the same, for a catalog type given by value |
| Activities.NegativeIndices | src/constants/activities.ts:152-197 | the factors of exactly the last four types are negative; none is zero |
| Activities.RecyclingSigns | src/constants/activities.ts:152-197 | a type is a recycling type exactly when its factor is negative; every other type's factor is positive |
| Activities.RecyclingSignsMember | src/constants/activities.ts:152-197 | the same, for a catalog type given by value |
| Activities.CarFactor | src/constants/activities.ts:52-60 | car travel is 0.404 kg per mile, so ten miles weigh 4.04 |
| ActivityContext.FootprintCustom | src/contexts/ActivityContext.tsx:117-119 | a custom record with a non-zero factor weighs factor × quantity whatever its type id; a negative factor gives a negative footprint |
| ActivityContext.FootprintCatalog | src/contexts/ActivityContext.tsx:121-126 | any other record weighs the factor of the catalog type with its type id × quantity |
| ActivityContext.FootprintOfType | src/contexts/ActivityContext.tsx:121-126 | the same, stated through the lookup's result |
| ActivityContext.FootprintUnknown | src/contexts/ActivityContext.tsx:125 | a non-custom record (or custom with factor 0) whose type id is not in the catalog weighs 0 |
| ActivityContext.FootprintCarExample | src/contexts/ActivityContext.tsx:121-126 | a 10-mile car record weighs 4.04 |
| ActivityContext.FootprintRecyclingSaves | src/contexts/ActivityContext.tsx:121-126 | recycling a positive amount has a negative footprint |
| ActivityContext.NegativeFactor | src/contexts/ActivityContext.tsx:121-126 | a negative catalog factor and a positive quantity give a negative footprint |
| ActivityContext.SumAppend | src/contexts/ActivityContext.tsx:133-136 | the left fold of footprints distributes over concatenation |
| ActivityContext.Cutoff | src/contexts/ActivityContext.tsx:139-148 | `day` and `week` cut off a whole number of days before now (one and seven); `month` cuts off at the instant `setMonth` gives |
| ActivityContext.SplitAt | src/contexts/ActivityContext.tsx:133-156 | the records at or after a cutoff and those before it sum to the whole list's footprint |
| ActivityContext.TotalSplits | src/contexts/ActivityContext.tsx:129-156 | a period total plus the sum over the records before that period's cutoff is the all-time total |
| ActivityContext.TotalOne | src/contexts/ActivityContext.tsx:129-156 | one record counts in a period total exactly when its date is at or after the period's cutoff; `all` always counts it |
| ActivityContext.WindowBounds | src/contexts/ActivityContext.tsx:150-151 | a record dated at the cutoff is inside the period (inclusive); an unparsable date is never inside one; `all` counts every record |
| ActivityContext.WeekBoundary | src/contexts/ActivityContext.tsx:145-151 | a record stamped exactly seven days before now counts in the `week` total, one stamped eight days before does not |
| ActivityContext.DayBoundary | src/contexts/ActivityContext.tsx:143-151 | a record stamped exactly one day before now counts in the `day` total, one a millisecond older does not |
| ActivityContext.DayWithinWeek | src/contexts/ActivityContext.tsx:139-151 | the records the `day` total counts are exactly the week's records that are also within the day |
| ActivityContext.ByDate | src/contexts/ActivityContext.tsx:158-162 | exactly the records whose first ten date characters equal the argument's, in list order (a subsequence) |
| ActivityContext.ByDateIgnoresTime | src/contexts/ActivityContext.tsx:160 | only the argument's first ten characters matter |
| ActivityContext.ReplaceById | src/contexts/ActivityContext.tsx:84-86 | same length; each position holds the new record if its id matched, the old record otherwise |
| ActivityContext.ReplaceProperties | src/contexts/ActivityContext.tsx:84-86 | ids survive position by position; with no match the list is unchanged; updating twice is updating once |
| ActivityContext.RemoveById | src/contexts/ActivityContext.tsx:102 | exactly the records with another id, in order |
| ActivityContext.RemoveTwice | src/contexts/ActivityContext.tsx:99-113 | a second delete of the same id changes nothing; deleting an absent id changes nothing |
| ActivityContext.ActivityStore.constructor | src/contexts/ActivityContext.tsx:50-53 | the list starts from storage, or empty when nothing is stored |
| ActivityContext.ActivityStore.Add | src/contexts/ActivityContext.tsx:57-79 | the draft plus the clock's id is appended and returned. Earlier records are unchanged. `activity:added` with that record is scheduled, not emitted, and the list is persisted |
| ActivityContext.ActivityStore.Update | src/contexts/ActivityContext.tsx:81-97 | the list becomes the id-wise replacement; `activity:updated` is scheduled even when nothing matched |
| ActivityContext.ActivityStore.Delete | src/contexts/ActivityContext.tsx:99-113 | the list loses every record with the id; `activity:deleted {id}` is scheduled regardless |
| ActivityContext.ActivityStore.FireNext | src/contexts/ActivityContext.tsx:69-71 | the oldest pending timer emits its notice; the list is untouched |
| ActivityContext.AddThenFire | src/contexts/ActivityContext.tsx:64-74 | after an add and its timer, the bus has received `activity:added` carrying exactly the stored record |
| ActivityForm.AllCategories | src/components/forms/ActivityForm.tsx:51 | the buttons are every catalog category followed by Custom |
| ActivityForm.FilteredTypes | src/components/forms/ActivityForm.tsx:56-59 | exactly the catalog types of the selected category, in catalog order; none for Custom or no choice |
| ActivityForm.FilteredTypesPartition | src/components/forms/ActivityForm.tsx:56-59 | every catalog type is offered under its own category and under no other |
| ActivityForm.HomeOffersNothing | src/components/forms/ActivityForm.tsx:56-59 | the Home category offers no types |
| ActivityForm.IsoTimestamp | src/components/forms/ActivityForm.tsx:79 | a date input read by `toISOString` is that day at UTC midnight, so its first ten characters are the input |
| ActivityForm.CustomSubmission | src/components/forms/ActivityForm.tsx:67-86 | a custom submission is accepted exactly when name and unit are non-empty, the factor is positive and the date reads. The record has type `custom`, `isCustom` true, and the copied name, unit, factor, quantity and notes |
| ActivityForm.PredefinedSubmission | src/components/forms/ActivityForm.tsx:87-97 | a predefined submission needs a type id; the record holds type, date, quantity and notes and no custom field |
| ActivityForm.PreviewIsFootprint | src/components/forms/ActivityForm.tsx:117-124 | the preview of an accepted submission equals the footprint the store computes for the added record |
| ActivityForm.ActivityFormState.constructor | src/components/forms/ActivityForm.tsx:31-41 | no category; quantity 1, empty texts, factor 0, today's date |
| ActivityForm.ActivityFormState.SelectCategory | src/components/forms/ActivityForm.tsx:153-155 | choosing a category selects it and clears the type id only |
| ActivityForm.ActivityFormState.EditTypeId | src/components/forms/ActivityForm.tsx:183-184 | the type select replaces `typeId` with the typed text; every other field and the category are unchanged |
| ActivityForm.ActivityFormState.EditCustomName | src/components/forms/ActivityForm.tsx:206-207 | the custom-name input replaces `customName` with the typed text; every other field and the category are unchanged |
| ActivityForm.ActivityFormState.EditCustomUnit | src/components/forms/ActivityForm.tsx:220-221 | the custom-unit input replaces `customUnit` with the typed text; every other field and the category are unchanged |
| ActivityForm.ActivityFormState.EditDate | src/components/forms/ActivityForm.tsx:262-263 | the date input replaces `date` with the typed text; every other field and the category are unchanged |
| ActivityForm.ActivityFormState.EditNotes | src/components/forms/ActivityForm.tsx:299-300 | the notes input replaces `notes` with the typed text; every other field and the category are unchanged |
| ActivityForm.ActivityFormState.EditQuantity | src/components/forms/ActivityForm.tsx:284-288 | quantity becomes `parseFloat(value) \|\| 0` |
| ActivityForm.ActivityFormState.EditCustomCarbon | src/components/forms/ActivityForm.tsx:239-243 | the custom factor becomes `parseFloat(value) \|\| 0` |
| ActivityForm.ActivityFormState.HandleSubmit | src/components/forms/ActivityForm.tsx:63-115 | a rejected submission changes neither form nor store. An accepted one adds exactly one record (the built draft with the clock's id), schedules its notice, and resets the form and category |
| ActivityList.DateFilter | src/components/activities/ActivityList.tsx:31-34 | with a date, exactly the records whose first ten date characters equal it, in order; without one, all records |
| ActivityList.InsertNewestFirst | src/components/activities/ActivityList.tsx:36-39 | insertion keeps newest-first order and adds exactly the one record |
| ActivityList.SortNewestFirst | src/components/activities/ActivityList.tsx:36-39 | the sorted copy is newest first and a permutation of its input |
| ActivityList.SortKeepsOrderedInput | src/components/activities/ActivityList.tsx:36-39 | an already ordered list is left as it is, so equal stamps keep their order |
| ActivityList.View | src/components/activities/ActivityList.tsx:31-51 | the status message exactly when the filtered list is empty; otherwise a newest-first permutation of the filtered list |
| ActivityList.CatalogPresentation | src/components/activities/ActivityList.tsx:62-106 | a catalog record shows its type's name and unit and its category's colour and icon |
| ActivityList.CatalogTextsNonEmpty | src/constants/activities.ts:17-197 | no catalog name, unit, colour or icon is empty, so the `\|\|` fallbacks never apply to a found entry |
| ActivityList.CustomPresentation | src/components/activities/ActivityList.tsx:62-106 | a custom record shows its own name and unit, the indigo colour and the document icon |
| ActivityList.UnknownPresentation | src/components/activities/ActivityList.tsx:62-106 | an unknown type shows 'Unknown Activity', 'units', indigo and no icon |
| EventLogger.Push | src/components/system/EventLogger.tsx:29-33 | the new entry is first, the log holds min(10, n+1) entries, and the rest are the previous first (at most 9) entries in order |
| EventLogger.Reverse | src/components/system/EventLogger.tsx:29-33 | reverses a sequence position by position |
| EventLogger.ReplayKeepsNewest | src/components/system/EventLogger.tsx:21-34 | after any sequence of additions the log is the newest ten entries, newest first, with the old log behind them |
| EventLogger.ReplayBounded | src/components/system/EventLogger.tsx:31-32 | the log never holds more than ten entries, and holds ten after ten additions |
| EventLogger.EventLog.constructor | src/components/system/EventLogger.tsx:18 | the log starts empty |
| EventLogger.EventLog.AddLog | src/components/system/EventLogger.tsx:21-34 | `addLog` pushes one entry built from the clock, event and payload |
| EventLogger.EventLog.Handle | src/components/system/EventLogger.tsx:37-59 | each of the six subscribed events adds exactly one entry tagged with its name; other events add nothing |
| EventLogger.EventLog.ClearLogs | src/components/system/EventLogger.tsx:68-70 | `clearLogs` empties the log |
| EventLogger.HandleTwice | src/components/system/EventLogger.tsx:29-33 | two logged events leave the later on top and the earlier second |
| MenuContext.InitialCollapsed | src/contexts/MenuContext.tsx:23-26 | the flag starts false when nothing is stored, else as the stored boolean |
| MenuContext.MenuStore.constructor | src/contexts/MenuContext.tsx:23-26 | the flag is read from storage and written back |
| MenuContext.MenuStore.ToggleCollapse | src/contexts/MenuContext.tsx:29-35 | the flag is negated and persisted, and `menu:toggled` with the new value is emitted at once |
| MenuContext.ToggleTwice | src/contexts/MenuContext.tsx:29-35 | two toggles restore the flag and its stored text |
| MenuContext.RestartRestoresFlag | src/contexts/MenuContext.tsx:23-26 | a restarted menu reads back the flag it persisted |
| ThemeContext.SchemeOf | src/contexts/ThemeContext.tsx:8 | a scheme name read back names that scheme |
| ThemeContext.ThemeOf | src/contexts/ThemeContext.tsx:7 | a theme name read back names that theme |
| ThemeContext.NamesRoundTrip | src/contexts/ThemeContext.tsx:7-8 | every theme and scheme name reads back as itself and needs no JSON escape |
| ThemeContext.ColorValues | src/contexts/ThemeContext.tsx:11-28 | each scheme has a seven-character primary and a different hover colour |
| ThemeContext.PalettesDistinct | src/contexts/ThemeContext.tsx:11-28 | no two schemes share a primary colour |
| ThemeContext.Toggled | src/contexts/ThemeContext.tsx:78-85 | the toggled theme is never `system` |
| ThemeContext.ToggleFlipsEffective | src/contexts/ThemeContext.tsx:78-105 | toggling always flips the effective theme, and toggling twice restores it (and restores light or dark exactly) |
| ThemeContext.CodecRoundTrip | src/contexts/ThemeContext.tsx:54-58 | the stored JSON text of every theme and scheme reads back as itself |
| ThemeContext.ThemeStore.constructor | src/contexts/ThemeContext.tsx:54-59 | theme and scheme come from storage, defaulting to `system` and `blue`; the detected theme starts light |
| ThemeContext.ThemeStore.SetTheme | src/contexts/ThemeContext.tsx:63-66 | the theme is stored and `theme:changed {theme}` emitted; the scheme is unchanged |
| ThemeContext.ThemeStore.SetColorScheme | src/contexts/ThemeContext.tsx:69-75 | the scheme is stored and `settings:updated {colorScheme, value}` emitted; the theme is unchanged |
| ThemeContext.ThemeStore.ToggleTheme | src/contexts/ThemeContext.tsx:78-85 | `setTheme` with the toggled theme: never `system`, the effective theme flips, one `theme:changed` |
| ThemeContext.ThemeStore.SystemThemeChanged | src/contexts/ThemeContext.tsx:91-96 | the media-query listener changes only the detected theme and emits nothing |
| SettingsTypes.DateFormatOf | src/contexts/SettingsTypes.ts:4 | a date-format name read back names that format |
| SettingsTypes.UnitSystemOf | src/contexts/SettingsTypes.ts:5 | a unit-system name read back names that system |
| SettingsTypes.EmailDigestOf | src/contexts/SettingsTypes.ts:6 | a digest name read back names that digest |
| SettingsTypes.StorageLimitOf | src/contexts/SettingsTypes.ts:7 | a storage-limit name read back names that limit |
| SettingsTypes.NamesRoundTrip | src/contexts/SettingsTypes.ts:4-7 | every enumeration name reads back as the value it names |
| SettingsTypes.DomainsComplete | src/contexts/SettingsTypes.ts:4-7 | three date formats, two unit systems, four digests and five storage limits, each name distinct |
| SettingsTypes.DefaultValues | src/contexts/SettingsTypes.ts:34-47 | the defaults are true, true, '90', 'metric', 'MM/DD/YYYY', 'weekly', true |
| SettingsContext.CodecRoundTrip | src/contexts/SettingsContext.tsx:17-50 | the stored text of every field decodes to that field |
| SettingsContext.LoadedFromHolds | src/contexts/SettingsContext.tsx:17-50 | storage that holds each field's text under its key loads as exactly those fields |
| SettingsContext.NamesArePlain | src/contexts/SettingsContext.tsx:27-45 | no enumeration name needs a JSON escape |
| SettingsContext.RestartRestores | src/contexts/SettingsContext.tsx:17-50 | what the seven fields wrote is what a restart reads, whatever else storage holds |
| SettingsContext.WritesAreUnion | src/contexts/SettingsContext.tsx:52-60 | the seven writes in declaration order amount to a union with the stored text of all fields |
| SettingsContext.SettingsStore.constructor | src/contexts/SettingsContext.tsx:17-50 | each field starts from its own 'settings.<field>' key, or from its default |
| SettingsContext.SettingsStore.SetDataCollection | src/contexts/SettingsContext.tsx:17-20 | only `dataCollection` and its key change |
| SettingsContext.SettingsStore.SetAnonymizeData | src/contexts/SettingsContext.tsx:22-25 | only `anonymizeData` and its key change |
| SettingsContext.SettingsStore.SetStorageLimit | src/contexts/SettingsContext.tsx:27-30 | only `storageLimit` and its key change |
| SettingsContext.SettingsStore.SetUnits | src/contexts/SettingsContext.tsx:32-35 | only `units` and its key change |
| SettingsContext.SettingsStore.SetDateFormat | src/contexts/SettingsContext.tsx:37-40 | only `dateFormat` and its key change |
| SettingsContext.SettingsStore.SetEmailDigest | src/contexts/SettingsContext.tsx:42-45 | only `emailDigest` and its key change |
| SettingsContext.SettingsStore.SetPushNotifications | src/contexts/SettingsContext.tsx:47-50 | only `pushNotifications` and its key change |
| SettingsContext.SettingsStore.ResetToDefaults | src/contexts/SettingsContext.tsx:52-60 | every field is its default and storage holds the defaults' text; no bus event is emitted, since the store has no emitter |
| SettingsContext.ResetTwice | src/contexts/SettingsContext.tsx:52-60 | resetting twice is resetting once |
| Persist.DecodeBool | src/hooks/useLocalStorage.ts:24 | a parsed boolean is the one whose text was stored |
| Persist.BoolRoundTrip | src/hooks/useLocalStorage.ts:24-36 | a stored boolean reads back as itself |
| Persist.DecodeString | src/hooks/useLocalStorage.ts:24 | a parsed string literal is the one whose text was stored |
| Persist.StringRoundTrip | src/hooks/useLocalStorage.ts:24-36 | a stored escape-free string reads back as itself |
| Persist.Load | src/hooks/useLocalStorage.ts:19-30 | a missing or empty item gives the initial value; an item the store's decoder reads gives the decoded value |
| Persist.LoadAfterStore | src/hooks/useLocalStorage.ts:19-40 | what a store writes under its key is what the next start reads |
| DateUtils.DaysInMonth | src/utils/dateUtils.ts:8-24 | 28 to 31 days; February has 29 exactly in a leap year |
| DateUtils.TwoDigits | src/utils/dateUtils.ts:10-11 | `padStart(2, '0')` of 1..99 is two digits whose value is the number |
| DateUtils.FormatParts | src/utils/dateUtils.ts:8-13 | a formatted valid day is the year, '-', two digits naming month+1, '-', two digits naming the day |
| DateUtils.MakeDate | src/utils/dateUtils.ts:23 | `new Date(y, m, d)` from a NaN part is the invalid date |
| DateUtils.SplitThree | src/utils/dateUtils.ts:20 | three dash-free parts joined by '-' split back into those parts |
| DateUtils.FormattedParts | src/utils/dateUtils.ts:18-24 | the parts of a formatted day read back as its numbers |
| DateUtils.ParseFormat | src/utils/dateUtils.ts:8-24 | parsing a formatted day gives back the same day, for years from 100 on |
| DateUtils.ParseFormatTwoDigitYear | src/utils/dateUtils.ts:23 | years 0..99 come back as 1900+year. The one such day 1900 lacks, 29 February of year 0, has no model value |
| DateUtils.LeapYearsOf1900s | src/utils/dateUtils.ts:23 | among years 0..99 and 1900..1999 the leap years line up, except 0 against 1900 |
| DateUtils.InvalidRoundTrip | src/utils/dateUtils.ts:8-24 | the invalid date formats as "NaN-NaN-NaN", which parses back to the invalid date |
| DateUtils.TodayString | src/utils/dateUtils.ts:29-31 | today's string parses back to today |
| DateUtils.SameDayIsEquality | src/utils/dateUtils.ts:36-42 | `areDatesEqual` holds iff the days are equal; it is reflexive and symmetric |
| DateUtils.NextDay | src/components/charts/Timeline.tsx:47 | the following calendar day is a valid day |
| DateUtils.PrevDay | src/components/charts/Timeline.tsx:45 | the preceding calendar day is a valid day |
| DateUtils.PrevNextInverse | src/components/charts/Timeline.tsx:44-48 | one day forward and one back, in either order, return to the start, and neither step stays put |
| DateUtils.Weekday | src/components/forms/DatePicker.tsx:77 | `getDay()` is in 0..6 |
| DateUtils.LeapShift | src/components/forms/DatePicker.tsx:77 | moving the year by one shifts the weekday count by one, plus one in a leap year |
| DateUtils.WeekdayIsCount | src/components/forms/DatePicker.tsx:77 | the weekday is the day count modulo 7 |
| DateUtils.CountAcrossMonth | src/components/forms/DatePicker.tsx:77 | from a month's last day to the next month's first the count moves by one modulo 7 |
| DateUtils.CountAcrossFebruary | src/components/forms/DatePicker.tsx:77 | the same across the end of February |
| DateUtils.CountAcrossYear | src/components/forms/DatePicker.tsx:77 | the same across the end of December |
| DateUtils.WeekdayNext | src/components/forms/DatePicker.tsx:77 | the next day falls on the next weekday, across month and year ends |
| DateUtils.WeekdayExamples | src/components/forms/DatePicker.tsx:77 | 1 January 2000 is a Saturday and 1 January 2024 a Monday |
| DatePicker.Lead | src/components/forms/DatePicker.tsx:88 | the leading-cell count is 6 for a Sunday start, else weekday − 1 |
| DatePicker.CellDate | src/components/forms/DatePicker.tsx:93-127 | every cell shows a valid calendar day |
| DatePicker.GenerateCalendarDays | src/components/forms/DatePicker.tsx:70-130 | the three push loops build exactly the specified grid |
| DatePicker.GridConsecutive | src/components/forms/DatePicker.tsx:93-127 | each cell shows the day after the one before it: 42 consecutive days, previous month's tail, the month, the next month's head |
| DatePicker.WeekdayAlongGrid | src/components/forms/DatePicker.tsx:93-127 | the weekday advances by one per cell |
| DatePicker.FirstCellMonday | src/components/forms/DatePicker.tsx:88 | backing up the leading-cell count from the 1st always lands on a Monday |
| DatePicker.GridColumns | src/components/forms/DatePicker.tsx:88-133 | cell k falls on weekday (k+1) mod 7, so the columns are Monday to Sunday |
| DatePicker.GridMonthCells | src/components/forms/DatePicker.tsx:88-127 | 42 cells. The current-month cells are exactly days 1..daysInMonth of the viewed month, in order, after the leading cells |
| DatePicker.GridSelection | src/components/forms/DatePicker.tsx:95-125 | a cell is selected (or today) exactly when it is in the viewed month and is that day, so at most one cell is selected |
| DatePicker.GridInvalid | src/components/forms/DatePicker.tsx:70-130 | an invalid view date gives 42 invalid, unmarked cells |
| DatePicker.ParsedViewYear | src/components/forms/DatePicker.tsx:38 | a parsed view date never has a year in 0..99 |
| DatePicker.SelectRoundTrip | src/components/forms/DatePicker.tsx:53-63 | the reported text reads back as the picked day |
| DatePicker.Picker.constructor | src/components/forms/DatePicker.tsx:16-18 | closed, viewing the parsed selected date |
| DatePicker.Picker.SelectedDateChanged | src/components/forms/DatePicker.tsx:37-39 | a new selected date moves the view to it |
| DatePicker.Picker.HandleDateSelect | src/components/forms/DatePicker.tsx:53-63 | the formatted day is reported once, then the picker closes |
| DatePicker.Picker.ToggleDatePicker | src/components/forms/DatePicker.tsx:65-67 | `isOpen` flips |
| DatePicker.Picker.CalendarDays | src/components/forms/DatePicker.tsx:132 | the grid shown is the grid of the current view |
| Timeline.InitialSelection | src/components/charts/Timeline.tsx:28-30 | the initial date if given, else today's string |
| Timeline.Step | src/components/charts/Timeline.tsx:44-48 | a step keeps a valid date valid and the invalid date invalid |
| Timeline.ParsedYear | src/components/charts/Timeline.tsx:42 | a parsed selection has a year of at least 100 |
| Timeline.NavigatedDay | src/components/charts/Timeline.tsx:40-56 | `next` yields the formatted following day, which reads back as it; `prev` likewise |
| Timeline.NextThenPrev | src/components/charts/Timeline.tsx:40-56 | next then prev returns to the original day, in canonical spelling, and the other way round |
| Timeline.NavigatedInvalid | src/components/charts/Timeline.tsx:40-56 | an unreadable selection navigates to "NaN-NaN-NaN" and stays there |
| Timeline.DayTimeline.constructor | src/components/charts/Timeline.tsx:28-30 | starts at the initial selection with nothing reported |
| Timeline.DayTimeline.InitialDateChanged | src/components/charts/Timeline.tsx:33-37 | a non-empty new initial date replaces the selection; an empty one does not |
| Timeline.DayTimeline.NavigateDate | src/components/charts/Timeline.tsx:40-56 | the selection moves one day and is reported when a listener exists |
| Timeline.DayTimeline.HandleDateChange | src/components/charts/Timeline.tsx:68-73 | the picked text is stored and forwarded unchanged |
| Timeline.NextThenBack | src/components/charts/Timeline.tsx:40-56 | pressing next and then previous brings a readable selection back to its day |
| EmissionsData.CountryData | src/utils/emissionsUtils.ts:4-9 | the stored list for the country, or empty when absent |
| EmissionsData.Years | src/utils/emissionsUtils.ts:16 | the years of the rows, position by position |
| EmissionsData.Dedupe | src/utils/emissionsUtils.ts:17 | `new Set` keeps each value once and loses none |
| EmissionsData.Insert | src/utils/emissionsUtils.ts:17 | insertion adds exactly the one number |
| EmissionsData.SortAscending | src/utils/emissionsUtils.ts:17 | the sort is a permutation |
| EmissionsData.InsertIncreasing | src/utils/emissionsUtils.ts:17 | inserting a new number keeps a strictly increasing list strictly increasing |
| EmissionsData.SortDistinct | src/utils/emissionsUtils.ts:17 | sorting distinct numbers gives a strictly increasing list of the same numbers |
| EmissionsData.UniqueYearsSpec | src/hooks/useCountryEmissions.ts:65-66 | the year list is strictly increasing and holds exactly the years present |
| EmissionsData.AvailableYears | src/contexts/EmissionsContext.tsx:134-141 | an absent country has no years |
| EmissionsData.AvailableYearsSpec | src/utils/emissionsUtils.ts:11-18 | strictly increasing, and exactly the years of the country's rows |
| EmissionsData.FilterByYearRange | src/utils/emissionsUtils.ts:20-26 | exactly the rows with start ≤ year ≤ end, in order (a subsequence) |
| EmissionsData.FilterByYearRangeProperties | src/utils/emissionsUtils.ts:20-26 | filtering is idempotent, and a reversed range keeps nothing |
| EmissionsData.FilterByYearRangeAppend | src/utils/emissionsUtils.ts:20-26 | filtering distributes over concatenation |
| EmissionsData.SumPerCapita | src/utils/emissionsUtils.ts:35-39 | the per-capita sum is a number exactly when no value is NaN |
| EmissionsData.CalculateStatistics | src/utils/emissionsUtils.ts:28-41 | both averages are 0 for no rows; otherwise each average × count is its field's sum |
| EmissionsData.AverageWithinBounds | src/utils/emissionsUtils.ts:28-33 | the average total lies between the smallest and largest total |
| EmissionsCsv.ColumnAs | src/contexts/EmissionsContext.tsx:66-71 | a column past the end reads as NaN |
| EmissionsCsv.ParseLine | src/contexts/EmissionsContext.tsx:63-74 | a blank line yields no record |
| EmissionsCsv.ParseLines | src/contexts/EmissionsContext.tsx:63-74 | never more rows than lines |
| EmissionsCsv.ParseCsv | src/contexts/EmissionsContext.tsx:62-74 | at most (lines − 1) rows: the header never counts |
| EmissionsCsv.ParseLinesAppend | src/contexts/EmissionsContext.tsx:63-74 | rows keep input order: parsing distributes over concatenated lines |
| EmissionsCsv.ParseOneLine | src/contexts/EmissionsContext.tsx:63-74 | a single line yields one record or none |
| EmissionsCsv.KeptLine | src/contexts/EmissionsContext.tsx:63-74 | a non-blank line whose year and total read is kept, with year from column 1, total from column 4 / 1e9, per capita from column 5 |
| EmissionsCsv.DroppedLine | src/contexts/EmissionsContext.tsx:74 | a line whose year or total is NaN is dropped |
| EmissionsCsv.HeaderDropped | src/contexts/EmissionsContext.tsx:62 | whatever the first line holds, it never becomes a row |
| EmissionsCsv.BlankLinesIgnored | src/contexts/EmissionsContext.tsx:64 | blank lines contribute nothing |
| EmissionsCsv.RowsFromLines | src/contexts/EmissionsContext.tsx:63-74 | every row is the parse of some input line |
| EmissionsContext.CountryRows | src/contexts/EmissionsContext.tsx:50-80 | a failed fetch gives no rows; every row carries the file's country |
| EmissionsContext.CountryFromFile | src/contexts/EmissionsContext.tsx:68 | rows parsed for a file all carry that file's country |
| EmissionsContext.GatheredSpec | src/contexts/EmissionsContext.tsx:86-90 | the map has exactly the results' countries, each holding its last result's data |
| EmissionsContext.Gather | src/contexts/EmissionsContext.tsx:87-90 | the `forEach` loop builds exactly that map |
| EmissionsContext.Results | src/contexts/EmissionsContext.tsx:50-84 | one result per listed country, in list order, each holding that country's rows |
| EmissionsContext.ProviderData | src/contexts/EmissionsContext.tsx:46-90 | over distinct countries the map has one entry per country, holding its own parsed rows (empty when its fetch failed) |
| CountryData.LessFromIrreflexive | src/utils/countryData.ts:94 | the code-unit order of `sort()` is irreflexive |
| CountryData.LessFromAsymmetric | src/utils/countryData.ts:94 | and asymmetric |
| CountryData.LessFromTransitive | src/utils/countryData.ts:94 | and transitive |
| CountryData.LessAt | src/utils/countryData.ts:94 | two names compare by their first differing code unit, and a proper prefix sorts first |
| CountryData.InsertName | src/utils/countryData.ts:94 | insertion keeps a strictly sorted list sorted and adds the name |
| CountryData.SortNames | src/utils/countryData.ts:94 | `sort()` of distinct names is strictly sorted and a permutation |
| CountryData.SortSortedIsIdentity | src/utils/countryData.ts:94 | sorting an already sorted list changes nothing |
| CountryData.LiteralSorted | src/utils/countryData.ts:11-93 | the literal list is already strictly ascending, with 82 names including 'United_States' |
| CountryData.AvailableCountriesIsLiteral | src/utils/countryData.ts:9-95 | `getAvailableCountries()` is the literal list itself |
| CountryData.AvailableCountriesSpec | src/utils/countryData.ts:9-95 | the countries are strictly ascending, pairwise distinct, 82 of them, including 'United_States' |
| CountryData.SortedIsDistinct | src/utils/countryData.ts:9-95 | a strictly sorted list has no repeated name |
| CountryData.ParseEmissionsCsv | src/utils/countryData.ts:102-118 | at most (lines − 1) rows, each the parse of a line after the header, with the country from column 0 |
| CountryEmissions.LoadError | src/hooks/useCountryEmissions.ts:78-81 | the message names the country with every '_' shown as a space |
| CountryEmissions.Parsed | src/hooks/useCountryEmissions.ts:51-62 | at most (lines − 1) rows |
| CountryEmissions.HookState.constructor | src/hooks/useCountryEmissions.ts:19-25 | empty lists, loading, no error |
| CountryEmissions.HookState.LoadCountryList | src/hooks/useCountryEmissions.ts:28-31 | the country list is `getAvailableCountries()` |
| CountryEmissions.HookState.SetCountryList | src/hooks/useCountryEmissions.ts:30 | the country list takes the given value and every other field, and so the year list's agreement with the rows, is kept |
| CountryEmissions.HookState.BeginLoad | src/hooks/useCountryEmissions.ts:36-39 | an empty country starts nothing; otherwise loading with no error |
| CountryEmissions.HookState.FinishLoad | src/hooks/useCountryEmissions.ts:48-85 | a fetched text gives its parsed rows and their sorted distinct years. A failure gives no rows, no years and the error naming the country. Loading ends either way |
| CountryEmissions.HookState.LoadCountryData | src/hooks/useCountryEmissions.ts:34-90 | the selected-country effect: nothing for an empty country, otherwise begin then finish |
| CountryEmissions.YearsOfState | src/hooks/useCountryEmissions.ts:64-73 | whatever a load leaves, the year list is strictly ascending and holds exactly the rows' years |
| CountryEmissions.RetryAfterFailure | src/hooks/useCountryEmissions.ts:34-90 | a failed load then a successful one clears the error and shows the new rows |
| EmissionsGraph.Latest | src/components/emissions/CountryEmissionsGraph.tsx:63 | `Math.max` is an available year no smaller than any |
| EmissionsGraph.AfterEffect | src/components/emissions/CountryEmissionsGraph.tsx:38 | with no years the range is unchanged |
| EmissionsGraph.DefaultRangeSpec | src/components/emissions/CountryEmissionsGraph.tsx:37-51 | the default range ends at the latest year. With at most 20 years it starts at the earliest and covers them all; with more it spans exactly 20 years |
| EmissionsGraph.DefaultRangeShowsAll | src/components/emissions/CountryEmissionsGraph.tsx:37-51 | with at most 20 years the default range shows every row of the country |
| EmissionsGraph.StartChange | src/components/emissions/CountryEmissionsGraph.tsx:59-65 | the start becomes the year; a year before the end leaves the end |
| EmissionsGraph.StartChangeOrdered | src/components/emissions/CountryEmissionsGraph.tsx:59-65 | after choosing an available start, start ≤ end; a pushed end is at most year+1 and at most the latest year |
| EmissionsGraph.EndChange | src/components/emissions/CountryEmissionsGraph.tsx:68-70 | only the end moves |
| EmissionsGraph.DisplayName | src/components/emissions/CountryEmissionsGraph.tsx:80 | same length, no '_', every other character kept |
| EmissionsGraph.Shown | src/components/emissions/CountryEmissionsGraph.tsx:73 | exactly the country's rows inside the range, in order |
| EmissionsGraph.AsWrittenForgetsChoice | src/components/emissions/CountryEmissionsGraph.tsx:34-51 | as written, no start or end choice survives the next render while years are available |
| EmissionsGraph.AsWrittenExample | src/components/emissions/CountryEmissionsGraph.tsx:34-51 | over 1990..1992, picking 1991 as start shows 1990 again after the render |
| EmissionsGraph.Render | src/components/emissions/CountryEmissionsGraph.tsx:37-51 | the intended effect: it leaves the range alone when the years are those it last ran with, and sets the default range when they differ |
| EmissionsGraph.RenderKeepsChoice | src/components/emissions/CountryEmissionsGraph.tsx:37-70 | with the intended effect a start or end choice survives the next render, and a new year list still gets its default range |
| EmissionsGraph.Panel.constructor | src/components/emissions/CountryEmissionsGraph.tsx:22-25 | United_States, 2000 to 2020 |
| EmissionsGraph.Panel.AfterRender | src/components/emissions/CountryEmissionsGraph.tsx:37-51 | the range after a render follows the intended effect rule |
| EmissionsGraph.Panel.HandleCountryChange | src/components/emissions/CountryEmissionsGraph.tsx:54-56 | only the country changes |
| EmissionsGraph.Panel.HandleStartYearChange | src/components/emissions/CountryEmissionsGraph.tsx:59-65 | the range becomes StartChange over the country's years |
| EmissionsGraph.Panel.HandleEndYearChange | src/components/emissions/CountryEmissionsGraph.tsx:68-70 | only the end changes |
| EmissionsGraph.PickStart | src/components/emissions/CountryEmissionsGraph.tsx:59-65 | with the intended effect (Panel.AfterRender, not the effect as written), an available start picked after a render stays through the next render, with start ≤ end |
| YearRangeSelector.DigitRun | src/components/emissions/YearRangeSelector.tsx:21 | the longest leading run of digits |
| YearRangeSelector.SpaceRun | src/components/emissions/YearRangeSelector.tsx:21 | the leading whitespace run |
| YearRangeSelector.ParseInt10 | src/components/emissions/YearRangeSelector.tsx:20-26 | `parseInt(s, 10)` is a number exactly when, after leading whitespace, a digit follows, possibly after one sign |
| YearRangeSelector.AllDigitsRun | src/components/emissions/YearRangeSelector.tsx:21 | a digit string is read whole |
| YearRangeSelector.OptionValueRoundTrip | src/components/emissions/YearRangeSelector.tsx:20-47 | an option's value parses back to its year |
| YearRangeSelector.OptionValues | src/components/emissions/YearRangeSelector.tsx:43-47 | one value per year, in order |
| YearRangeSelector.EndYears | src/components/emissions/YearRangeSelector.tsx:58-64 | exactly the available years ≥ start, in order, a subsequence of the start list |
| YearRangeSelector.StartChoice | src/components/emissions/YearRangeSelector.tsx:20-47 | the k-th start option reports exactly the k-th year |
| YearRangeSelector.EndChoice | src/components/emissions/YearRangeSelector.tsx:24-64 | the k-th end option reports its own year, an available year ≥ start |
| YearRangeSelector.OptionValuesSubsequence | src/components/emissions/YearRangeSelector.tsx:43-64 | option values keep the subsequence relation of their years |
| YearRangeSelector.EndOptionsWithinStart | src/components/emissions/YearRangeSelector.tsx:43-64 | the end options are a subsequence of the start options |
| YearRangeSelector.EndYearsIsSuffix | src/components/emissions/YearRangeSelector.tsx:58-64 | over ascending years the end options are a tail of the start options |

## Left out

- JavaScript `Date` overflow normalisation. `navigateMonth` (`setMonth`) is not modelled, and out-of-range date parts give no model value. Only the carries the calendar grid and one-day steps need are modelled.
- `setTimeout` scheduling itself. Only its effect is modelled: a FIFO outbox that `FireNext` drains.
- Asynchronous fetching and `Promise.all`. Fetched texts are parameters, and the provider's per-country results are gathered in list order.
- The write-back `useEffect` of local storage. Each store writes its stored text in the same step as the state change.
- JSON encoding of activity records. The activity store's storage is a typed map. Only booleans and escape-free names are encoded as JSON text.
- The fallback contexts' no-op setters, which are used outside a provider. Only their default values are stated.
- Floating-point presentation: `toFixed`, `toLocaleString`, `toLocaleDateString` and `toLocaleTimeString`. Arithmetic is exact over `real`, and the `/1e9` scaling is exact division.
- The CSV readers `parseInt` and `parseFloat` are abstract partial functions. `parseFloat` returning `Infinity` is not distinguished.
- `Number()` on date parts accepts digit strings only, with "" read as 0. Number text with signs, exponents or spaces is not read as JavaScript would.
- `trim()` uses a fixed whitespace set that covers ASCII blanks, not every Unicode space.
- `JSON.stringify` of a log entry's payload: a log entry keeps the payload value itself.
- DOM and browser effects: `matchMedia`, CSS variables and classes, click-outside handling, and the form's `onSubmit` callback.
- The comparator `new Date(b) - new Date(a)` of the activity list. The time stamp of a date string is a parameter, and `NaN` comparisons are not modelled.
- CountryEmissions.Parsed: the hook's rows carry no country field in the source. The model gives them the selected country, so one row type serves both pipelines.
- EmissionsData.CalculateStatistics: a NaN per-capita value makes the per-capita average None (NaN). The total average never sees NaN, because such rows are dropped.
- Timeline.DayTimeline.NavigateDate requires a selection that `parseLocalDate` reads. Out-of-range parts would need `Date` normalisation.
- DatePicker.Picker.constructor requires a selected date that `parseLocalDate` reads, for the same reason.
- DatePicker.Picker.SelectedDateChanged requires the same.
- DatePicker.Picker.CalendarDays requires the same.
- EmissionsGraph.Panel.HandleStartYearChange requires a non-empty year list. With none, the start list offers no option to choose, and `Math.max()` would be `-Infinity`.
- ActivityContext.Cutoff takes a day as a fixed 86,400,000 ms. The local-time shift of `setDate` across a daylight-saving change is not modelled.
- ActivityContext.Total takes the `month` cutoff from the caller as `monthAgo`, the instant `setMonth(getMonth() - 1)` gives. Computing it would need `Date` normalisation, which is left out.
- Persist.Load reads valid JSON of the wrong type as the default value. Examples are `null` or `42` under `menuCollapsed`, or `"purple"` under the theme key. The source keeps whatever `JSON.parse` returns. Each store's value is typed here, so such a value has no representation. MenuContext.InitialCollapsed, ThemeStore.constructor and SettingsContext.Loaded inherit this.
- DateUtils.ParseFormat is stated for years from 100 on. Years 0..99 are covered separately by ParseFormatTwoDigitYear, and negative years are not modelled.

## Findings

| source | as written | input that shows it | evidently intended | confidence | as-written member | corrected member |
|---|---|---|---|---|---|---|
| src/components/emissions/CountryEmissionsGraph.tsx:37-51 | The default-range effect depends on `availableYears`, which `getAvailableYears` (line 34) rebuilds as a new array on every render. So the effect runs after every render and resets any start or end choice to the default range | Years 1990, 1991, 1992. Choose start 1991; after the render the start is 1990 again | The effect runs only when the year list actually changes, so a user's choice survives | not executed | EmissionsGraph.AsWrittenForgetsChoice | EmissionsGraph.RenderKeepsChoice |
