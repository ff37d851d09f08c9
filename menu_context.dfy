/**
 * The side menu's collapsed flag, persisted under "menuCollapsed"; toggling
 * it emits `menu:toggled` at once, carrying the new value.
 */
module MenuContext {

  import opened Persist
  import opened Events

  const MenuKey := "menuCollapsed"

  /** The flag a fresh menu starts with, given what storage holds. */
  function InitialCollapsed(stored: map<string, string>): (b: bool)
    ensures MenuKey !in stored ==> !b
    ensures MenuKey in stored && DecodeBool(stored[MenuKey]).Some? ==> b == DecodeBool(stored[MenuKey]).value
  {
    Load(stored, MenuKey, DecodeBool, false)
  }

  class MenuStore {
    var isCollapsed: bool
    var storage: map<string, string>
    /** The `emit` calls made so far, in order. */
    var emitted: seq<Notice>

    predicate Valid()
      reads this
    {
      MenuKey in storage && storage[MenuKey] == EncodeBool(isCollapsed) && AllWellTyped(emitted)
    }

    constructor (stored: map<string, string>)
      ensures Valid()
      ensures isCollapsed == InitialCollapsed(stored)
      ensures storage == stored[MenuKey := EncodeBool(isCollapsed)]
      ensures emitted == []
    {
      isCollapsed := InitialCollapsed(stored);
      storage := stored[MenuKey := EncodeBool(InitialCollapsed(stored))];
      emitted := [];
    }

    /** `toggleCollapse`: negate, persist, and emit the new value synchronously. */
    method ToggleCollapse()
      requires Valid()
      modifies this
      ensures Valid()
      ensures isCollapsed == !old(isCollapsed)
      ensures emitted == old(emitted) + [Notice(MenuToggled, MenuPayload(isCollapsed))]
      ensures storage == old(storage)[MenuKey := EncodeBool(isCollapsed)]
    {
      var newState := !isCollapsed;
      isCollapsed := newState;
      storage := storage[MenuKey := EncodeBool(newState)];
      emitted := emitted + [Notice(MenuToggled, MenuPayload(newState))];
    }
  }

  /** Two toggles restore the flag and its stored text, and emit both new values in order. */
  method ToggleTwice(m: MenuStore)
    requires m.Valid()
    modifies m
    ensures m.Valid()
    ensures m.isCollapsed == old(m.isCollapsed) && m.storage == old(m.storage)
    ensures m.emitted == old(m.emitted)
      + [Notice(MenuToggled, MenuPayload(!old(m.isCollapsed))), Notice(MenuToggled, MenuPayload(old(m.isCollapsed)))]
  {
    m.ToggleCollapse();
    m.ToggleCollapse();
  }

  /** A restarted menu reads back the flag the running one persisted. */
  lemma RestartRestoresFlag(storage: map<string, string>, b: bool)
    requires MenuKey in storage && storage[MenuKey] == EncodeBool(b)
    ensures InitialCollapsed(storage) == b
  {
    BoolRoundTrip(b);
  }
}
