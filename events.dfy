/**
 * The application's event names (`APP_EVENTS`) and the payload shape each
 * event carries (`EventPayloads`).
 */
module Events {

  import opened Wrappers
  import opened ActivityRecord

  datatype EventName =
    | ActivityAdded
    | ActivityUpdated
    | ActivityDeleted
    | ThemeChanged
    | SettingsUpdated
    | MenuToggled
    | DateSelected
    | DataFiltered
    | PageChanged
    | UserAction

  /** The string constant under which the event travels on the bus. */
  function NameOf(e: EventName): string {
    match e
    case ActivityAdded => "activity:added"
    case ActivityUpdated => "activity:updated"
    case ActivityDeleted => "activity:deleted"
    case ThemeChanged => "theme:changed"
    case SettingsUpdated => "settings:updated"
    case MenuToggled => "menu:toggled"
    case DateSelected => "date:selected"
    case DataFiltered => "analytics:filtered"
    case PageChanged => "navigation:page_changed"
    case UserAction => "user:action"
  }

  /** The inverse of NameOf: which constant a bus key is, if any. */
  function EventOf(name: string): (r: Option<EventName>)
    ensures r.Some? ==> NameOf(r.value) == name
  {
    if name == "activity:added" then Some(ActivityAdded)
    else if name == "activity:updated" then Some(ActivityUpdated)
    else if name == "activity:deleted" then Some(ActivityDeleted)
    else if name == "theme:changed" then Some(ThemeChanged)
    else if name == "settings:updated" then Some(SettingsUpdated)
    else if name == "menu:toggled" then Some(MenuToggled)
    else if name == "date:selected" then Some(DateSelected)
    else if name == "analytics:filtered" then Some(DataFiltered)
    else if name == "navigation:page_changed" then Some(PageChanged)
    else if name == "user:action" then Some(UserAction)
    else None
  }

  /** Every constant reads back as itself, so the ten names are pairwise distinct. */
  lemma NamesDistinct(e1: EventName, e2: EventName)
    ensures EventOf(NameOf(e1)) == Some(e1)
    ensures NameOf(e1) == NameOf(e2) ==> e1 == e2
  {
  }

  datatype ThemeName = Light | Dark | System

  datatype Period = Day | Week | Month | Year | All

  /**
   * Payloads. `settings:updated` declares its value as `unknown`; the only
   * emitter sends a colour-scheme name, so the value is a string here.
   */
  datatype Payload =
    | ActivityPayload(activity: Activity)
    | DeletedPayload(id: string)
    | ThemePayload(theme: ThemeName)
    | SettingPayload(key: string, value: string)
    | MenuPayload(isCollapsed: bool)
    | DatePayload(date: string)
    | FilterPayload(period: Period, kind: Option<string>)
    | PagePayload(path: string, title: string)
    | UserActionPayload(action: string, details: Option<map<string, string>>)

  /** The `EventPayloads` table: which payload shape belongs to which event. */
  predicate Fits(e: EventName, p: Payload) {
    match e
    case ActivityAdded => p.ActivityPayload?
    case ActivityUpdated => p.ActivityPayload?
    case ActivityDeleted => p.DeletedPayload?
    case ThemeChanged => p.ThemePayload?
    case SettingsUpdated => p.SettingPayload?
    case MenuToggled => p.MenuPayload?
    case DateSelected => p.DatePayload?
    case DataFiltered => p.FilterPayload?
    case PageChanged => p.PagePayload?
    case UserAction => p.UserActionPayload?
  }

  /** One `emit(event, payload)` call made by a store. */
  datatype Notice = Notice(event: EventName, payload: Payload) {
    predicate WellTyped() {
      Fits(event, payload)
    }
  }

  predicate AllWellTyped(ns: seq<Notice>) {
    forall i :: 0 <= i < |ns| ==> ns[i].WellTyped()
  }
}
