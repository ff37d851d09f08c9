/**
 * The "Add New Activity" form: a category choice, the form fields, the
 * footprint preview, and `handleSubmit`, which validates the fields, builds
 * the record handed to the activity store, and resets the form.
 */
module ActivityForm {

  import opened Wrappers
  import opened Strings
  import opened Seqs
  import opened ActivityRecord
  import opened Activities
  import DateUtils
  import opened Events
  import opened ActivityContext

  /** The `formData` state. Numbers are already read (`parseFloat(v) || 0`). */
  datatype FormData = FormData(
    typeId: string,
    date: string,
    quantity: real,
    notes: string,
    customName: string,
    customUnit: string,
    customCarbonPerUnit: real)

  /** The initial and post-submit form; `today` is the UTC date part of the clock's ISO string. */
  function BlankForm(today: string): FormData {
    FormData("", today, 1.0, "", "", "", 0.0)
  }

  const CustomCategoryId := "custom"

  const CustomCategory := ActivityCategory(CustomCategoryId, "Custom",
    "M9 5H7a2 2 0 00-2 2v12a2 2 0 002 2h10a2 2 0 002-2V7a2 2 0 00-2-2h-2M9 5a2 2 0 002 2h2a2 2 0 002-2M9 5a2 2 0 012-2h2a2 2 0 012 2",
    "#6366f1")

  /** The category buttons: the catalog categories followed by Custom. */
  function AllCategories(): (cs: seq<ActivityCategory>)
    ensures |cs| == |Categories| + 1 && cs[|cs| - 1] == CustomCategory
    ensures forall c :: c in Categories ==> c in cs
  {
    Categories + [CustomCategory]
  }

  /** `parseFloat(value) || 0`: NaN (None) reads as 0. */
  function OrZero(parsed: Option<real>): real {
    if parsed.Some? then parsed.value else 0.0
  }

  function InCategory(category: string): ActivityType -> bool {
    (t: ActivityType) => t.categoryId == category
  }

  /** `filteredTypes`: the catalog types of the chosen category; none for Custom or no choice. */
  function FilteredTypes(selected: string): (r: seq<ActivityType>)
    ensures forall t :: t in r <==> selected != "" && selected != CustomCategoryId && t in Types && t.categoryId == selected
    ensures IsSubsequence(r, Types)
  {
    if selected != "" && selected != CustomCategoryId then
      FilterIsSubsequence(Types, InCategory(selected));
      Filter(Types, InCategory(selected))
    else
      []
  }

  /** Every catalog type is offered under its own category and under no other. */
  lemma FilteredTypesPartition(t: ActivityType, selected: string)
    requires t in Types
    ensures t in FilteredTypes(t.categoryId)
    ensures selected != t.categoryId ==> t !in FilteredTypes(selected)
  {
    TypeCategoryMember(t);
  }

  /** The Home category offers no types at all. */
  lemma HomeOffersNothing()
    ensures FilteredTypes("home") == []
  {
    forall t | t in Types ensures !InCategory("home")(t) {
      TypeCategoryMember(t);
    }
    FilterNonePass(Types, InCategory("home"));
  }

  /**
   * `new Date(date).toISOString()` for the value of a date input: a real day
   * written YYYY-MM-DD is read as UTC midnight; anything else (the empty
   * string included) is an invalid date, on which `toISOString` throws.
   */
  function IsoTimestamp(date: string): (r: Option<string>)
    ensures r.Some? ==> |date| == 10 && r.value == date + "T00:00:00.000Z"
    ensures r.Some? ==> Prefix(r.value, 10) == date
  {
    if IsIsoDay(date) then Some(date + "T00:00:00.000Z") else None
  }

  predicate IsIsoDay(s: string) {
    |s| == 10 && s[4] == '-' && s[7] == '-'
    && AllDigits(s[..4]) && AllDigits(s[5..7]) && AllDigits(s[8..])
    && DateUtils.ValidDate(DateUtils.CalendarDate(DigitsValue(s[..4]), DigitsValue(s[5..7]) - 1, DigitsValue(s[8..])))
  }

  /** The result of `handleSubmit` before it calls the store. */
  datatype Submission =
    | Incomplete          // a required field is missing: the handler returns early
    | DateRejected        // `toISOString` throws a RangeError
    | Ready(draft: Draft)

  predicate CustomFieldsComplete(f: FormData) {
    f.customName != "" && f.customUnit != "" && f.customCarbonPerUnit > 0.0
  }

  /** The record `handleSubmit` builds from the form, or why it builds none. */
  function BuildSubmission(selected: string, f: FormData): Submission {
    if selected == CustomCategoryId then
      if !CustomFieldsComplete(f) then Incomplete
      else match IsoTimestamp(f.date)
        case None => DateRejected
        case Some(iso) =>
          Ready(Draft(iso, "custom", f.quantity, Some(f.notes), Some(true),
            Some(f.customName), Some(f.customUnit), Some(f.customCarbonPerUnit)))
    else if f.typeId == "" then Incomplete
    else match IsoTimestamp(f.date)
      case None => DateRejected
      case Some(iso) => Ready(Draft(iso, f.typeId, f.quantity, Some(f.notes), None, None, None, None))
  }

  /** When a submission is accepted, and what the accepted custom record holds. */
  lemma CustomSubmission(f: FormData)
    ensures BuildSubmission(CustomCategoryId, f).Ready? <==> CustomFieldsComplete(f) && IsIsoDay(f.date)
    ensures BuildSubmission(CustomCategoryId, f).Incomplete? <==> !CustomFieldsComplete(f)
    ensures BuildSubmission(CustomCategoryId, f).Ready? ==>
      var d := BuildSubmission(CustomCategoryId, f).draft;
      d.typeId == "custom" && d.isCustom == Some(true) && d.customName == Some(f.customName)
      && d.customUnit == Some(f.customUnit) && d.customCarbonPerUnit == Some(f.customCarbonPerUnit)
      && d.quantity == f.quantity && d.notes == Some(f.notes) && Prefix(d.date, 10) == f.date
  {
  }

  /** A predefined submission needs a type; the accepted record carries no custom fields. */
  lemma PredefinedSubmission(selected: string, f: FormData)
    requires selected != CustomCategoryId
    ensures BuildSubmission(selected, f).Ready? <==> f.typeId != "" && IsIsoDay(f.date)
    ensures BuildSubmission(selected, f).Incomplete? <==> f.typeId == ""
    ensures BuildSubmission(selected, f).Ready? ==>
      var d := BuildSubmission(selected, f).draft;
      d.typeId == f.typeId && d.quantity == f.quantity && d.notes == Some(f.notes)
      && d.isCustom.None? && d.customName.None? && d.customUnit.None? && d.customCarbonPerUnit.None?
      && Prefix(d.date, 10) == f.date
  {
  }

  /** `calculateCarbonFootprint` before `toFixed(2)`. */
  function Preview(selected: string, f: FormData): real {
    if selected == CustomCategoryId then f.customCarbonPerUnit * f.quantity
    else match FindType(f.typeId)
      case Some(t) => t.carbonPerUnit * f.quantity
      case None => 0.0
  }

  /** The preview shown for an accepted submission is the footprint the store will compute for it. */
  lemma PreviewIsFootprint(selected: string, f: FormData, id: string)
    requires BuildSubmission(selected, f).Ready?
    ensures Preview(selected, f) == Footprint(BuildSubmission(selected, f).draft.WithId(id))
  {
  }

  class ActivityFormState {
    var selectedCategory: string
    var formData: FormData

    constructor (today: string)
      ensures selectedCategory == "" && formData == BlankForm(today)
    {
      selectedCategory := "";
      formData := BlankForm(today);
    }

    /** A category button: select it and clear the chosen type. */
    method SelectCategory(id: string)
      modifies this
      ensures selectedCategory == id
      ensures formData == old(formData).(typeId := "")
    {
      selectedCategory := id;
      formData := formData.(typeId := "");
    }

    /** `setFormData({ ...formData, typeId: e.target.value })`. */
    method EditTypeId(v: string)
      modifies this
      ensures formData == old(formData).(typeId := v)
      ensures selectedCategory == old(selectedCategory)
    {
      formData := formData.(typeId := v);
    }

    /** `setFormData({ ...formData, customName: e.target.value })`. */
    method EditCustomName(v: string)
      modifies this
      ensures formData == old(formData).(customName := v)
      ensures selectedCategory == old(selectedCategory)
    {
      formData := formData.(customName := v);
    }

    /** `setFormData({ ...formData, customUnit: e.target.value })`. */
    method EditCustomUnit(v: string)
      modifies this
      ensures formData == old(formData).(customUnit := v)
      ensures selectedCategory == old(selectedCategory)
    {
      formData := formData.(customUnit := v);
    }

    /** `setFormData({ ...formData, date: e.target.value })`. */
    method EditDate(v: string)
      modifies this
      ensures formData == old(formData).(date := v)
      ensures selectedCategory == old(selectedCategory)
    {
      formData := formData.(date := v);
    }

    /** `setFormData({ ...formData, notes: e.target.value })`. */
    method EditNotes(v: string)
      modifies this
      ensures formData == old(formData).(notes := v)
      ensures selectedCategory == old(selectedCategory)
    {
      formData := formData.(notes := v);
    }

    /** `setFormData({ ...formData, quantity: parseFloat(value) || 0 })`. */
    method EditQuantity(parsed: Option<real>)
      modifies this
      ensures formData == old(formData).(quantity := OrZero(parsed))
      ensures selectedCategory == old(selectedCategory)
    {
      formData := formData.(quantity := OrZero(parsed));
    }

    /** `setFormData({ ...formData, customCarbonPerUnit: parseFloat(value) || 0 })`. */
    method EditCustomCarbon(parsed: Option<real>)
      modifies this
      ensures formData == old(formData).(customCarbonPerUnit := OrZero(parsed))
      ensures selectedCategory == old(selectedCategory)
    {
      formData := formData.(customCarbonPerUnit := OrZero(parsed));
    }

    /**
     * `handleSubmit`: on an accepted submission the store receives exactly one
     * record and the form resets; otherwise neither the form nor the store changes.
     */
    method HandleSubmit(store: ActivityStore, now: nat, today: string) returns (outcome: Submission, added: Option<Activity>)
      requires store.Valid()
      modifies this, store
      ensures store.Valid()
      ensures outcome == BuildSubmission(old(selectedCategory), old(formData))
      ensures !outcome.Ready? ==>
                added.None? && selectedCategory == old(selectedCategory) && formData == old(formData)
                && store.activities == old(store.activities) && store.outbox == old(store.outbox)
                && store.emitted == old(store.emitted) && store.storage == old(store.storage)
      ensures outcome.Ready? ==>
                added == Some(outcome.draft.WithId(NatToString(now)))
                && store.activities == old(store.activities) + [added.value]
                && store.outbox == old(store.outbox) + [Notice(ActivityAdded, ActivityPayload(added.value))]
                && store.emitted == old(store.emitted)
                && selectedCategory == "" && formData == BlankForm(today)
    {
      outcome := BuildSubmission(selectedCategory, formData);
      if !outcome.Ready? {
        return outcome, None;
      }
      var a := store.Add(outcome.draft, now);
      added := Some(a);
      formData := BlankForm(today);
      selectedCategory := "";
    }
  }
}
