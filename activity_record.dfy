/**
 * The `Activity` record of the activity store: one logged action. The
 * optional fields of the TypeScript interface are `Option`s (None is
 * `undefined`); quantities and carbon factors are exact reals.
 */
module ActivityRecord {

  import opened Wrappers

  datatype Activity = Activity(
    id: string,
    date: string,
    typeId: string,
    quantity: real,
    notes: Option<string>,
    isCustom: Option<bool>,
    customName: Option<string>,
    customUnit: Option<string>,
    customCarbonPerUnit: Option<real>)
  {
    /** `activity.isCustom` read as a JavaScript condition: only `true` is truthy. */
    predicate Custom() {
      isCustom == Some(true)
    }

    /** The record without its id. */
    function Forget(): Draft {
      Draft(date, typeId, quantity, notes, isCustom, customName, customUnit, customCarbonPerUnit)
    }
  }

  /** `Omit<Activity, 'id'>`: what a caller hands to `addActivity`. */
  datatype Draft = Draft(
    date: string,
    typeId: string,
    quantity: real,
    notes: Option<string>,
    isCustom: Option<bool>,
    customName: Option<string>,
    customUnit: Option<string>,
    customCarbonPerUnit: Option<real>)
  {
    /** `{ ...draft, id }`: the record stored for this draft. */
    function WithId(id: string): (a: Activity)
      ensures a.id == id && a.Forget() == this
    {
      Activity(id, date, typeId, quantity, notes, isCustom, customName, customUnit, customCarbonPerUnit)
    }
  }
}
