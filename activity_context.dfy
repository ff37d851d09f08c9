/**
 * The activity store: the persisted list of logged activities, the three
 * mutations (add, update, delete) and the footprint queries over it.
 *
 * Each mutation replaces the list and schedules its bus notice with a
 * zero-delay timer; pending timers are the `outbox`, and `FireNext` runs the
 * oldest one, appending its notice to `emitted` (the `emit` calls made, in
 * order). The persisted copy under the key "activities" is `storage`.
 */
module ActivityContext {

  import opened Wrappers
  import opened ActivityRecord
  import opened Activities
  import opened Seqs
  import opened Strings
  import opened Events

  /** The `period` argument of `getTotalCarbonFootprint`; `AllTime` is its default. */
  datatype Window = LastDay | LastWeek | LastMonth | AllTime

  /** `getActivityCarbonFootprint`: a non-zero custom factor wins, else the catalog factor, else 0. */
  function Footprint(a: Activity): real {
    if a.Custom() && a.customCarbonPerUnit.Some? && a.customCarbonPerUnit.value != 0.0 then
      a.customCarbonPerUnit.value * a.quantity
    else
      match FindType(a.typeId)
      case None => 0.0
      case Some(t) => t.carbonPerUnit * a.quantity
  }

  /** Whether the custom factor applies (`isCustom && customCarbonPerUnit`). */
  predicate UsesCustomFactor(a: Activity) {
    a.Custom() && a.customCarbonPerUnit.Some? && a.customCarbonPerUnit.value != 0.0
  }

  /** A custom record with a non-zero factor weighs factor × quantity, whatever its type id. */
  lemma FootprintCustom(a: Activity, f: real)
    requires a.isCustom == Some(true) && a.customCarbonPerUnit == Some(f) && f != 0.0
    ensures Footprint(a) == f * a.quantity
    ensures f < 0.0 && a.quantity > 0.0 ==> Footprint(a) < 0.0
  {
  }

  /** Any other record weighs the factor of the catalog type carrying its type id. */
  lemma FootprintCatalog(a: Activity, t: ActivityType)
    requires t in Types && t.id == a.typeId
    requires !UsesCustomFactor(a)
    ensures Footprint(a) == t.carbonPerUnit * a.quantity
  {
    FindTypeMember(t);
    FootprintOfType(a, t);
  }

  lemma FootprintOfType(a: Activity, t: ActivityType)
    requires FindType(a.typeId) == Some(t)
    requires !UsesCustomFactor(a)
    ensures Footprint(a) == t.carbonPerUnit * a.quantity
  {
  }

  /** A non-custom record whose type id is not in the catalog weighs nothing. */
  lemma FootprintUnknown(a: Activity)
    requires forall t :: t in Types ==> t.id != a.typeId
    requires !UsesCustomFactor(a)
    ensures Footprint(a) == 0.0
  {
    FindTypeInFirst(Types, a.typeId);
  }

  /** Ten miles by car weigh 4.04 kg. */
  lemma FootprintCarExample(a: Activity)
    requires !UsesCustomFactor(a)
    requires a.typeId == "car" && a.quantity == 10.0
    ensures Footprint(a) == 4.04
  {
    FootprintCatalog(a, Types[0]);
  }

  /** Recycling a positive amount of a catalog material saves carbon. */
  lemma FootprintRecyclingSaves(a: Activity, t: ActivityType)
    requires !UsesCustomFactor(a)
    requires t in Types && t.id == a.typeId && IsRecycling(t) && a.quantity > 0.0
    ensures Footprint(a) < 0.0
  {
    RecyclingSignsMember(t);
    FindTypeMember(t);
    NegativeFactor(a, t);
  }

  lemma NegativeFactor(a: Activity, t: ActivityType)
    requires FindType(a.typeId) == Some(t) && !UsesCustomFactor(a)
    requires t.carbonPerUnit < 0.0 && a.quantity > 0.0
    ensures Footprint(a) < 0.0
  {
    FootprintOfType(a, t);
  }

  /** `activities.reduce((total, a) => total + footprint(a), 0)`, folded from the left. */
  function SumFootprints(acts: seq<Activity>): real {
    if |acts| == 0 then 0.0 else SumFootprints(acts[..|acts| - 1]) + Footprint(acts[|acts| - 1])
  }

  lemma {:induction false} SumAppend(a: seq<Activity>, b: seq<Activity>)
    ensures SumFootprints(a + b) == SumFootprints(a) + SumFootprints(b)
    decreases |b|
  {
    if |b| > 0 {
      assert (a + b)[..|a + b| - 1] == a + b[..|b| - 1];
      SumAppend(a, b[..|b| - 1]);
    } else {
      assert a + b == a;
    }
  }

  /** The time stamp `new Date(date)` gives, or None for an invalid date (NaN compares false). */
  predicate InWindow(a: Activity, cutoff: int, stamp: string -> Option<int>) {
    stamp(a.date).Some? && stamp(a.date).value >= cutoff
  }

  function AtOrAfter(cutoff: int, stamp: string -> Option<int>): Activity -> bool {
    a => InWindow(a, cutoff, stamp)
  }

  function Before(cutoff: int, stamp: string -> Option<int>): Activity -> bool {
    a => !InWindow(a, cutoff, stamp)
  }

  /** Milliseconds in a day; `setDate(getDate() - n)` moves the clock back n such days. */
  const DayMs := 86_400_000

  /**
   * The instant of `filterDate` for a period other than `all`: one day or seven
   * days before `now`, or `monthAgo`, the instant `setMonth(getMonth() - 1)`
   * gives, read from the clock like `now`.
   */
  function Cutoff(w: Window, now: int, monthAgo: int): (c: int)
    requires w != AllTime
    ensures w == LastMonth ==> c == monthAgo
    ensures w != LastMonth ==> c < now && (now - c) % DayMs == 0
  {
    match w
    case LastDay => now - DayMs
    case LastWeek => now - 7 * DayMs
    case LastMonth => monthAgo
  }

  /**
   * `getTotalCarbonFootprint(period)`: for `all` the sum of every footprint,
   * otherwise the sum over the records dated at or after the period's cutoff.
   */
  function Total(acts: seq<Activity>, w: Window, now: int, monthAgo: int, stamp: string -> Option<int>): real {
    if w == AllTime then SumFootprints(acts)
    else SumFootprints(Filter(acts, AtOrAfter(Cutoff(w, now, monthAgo), stamp)))
  }

  /** Every record is either in a period total or outside it: the two add up to the all-time total. */
  lemma TotalSplits(acts: seq<Activity>, w: Window, now: int, monthAgo: int, stamp: string -> Option<int>)
    requires w != AllTime
    ensures Total(acts, AllTime, now, monthAgo, stamp)
      == Total(acts, w, now, monthAgo, stamp) + SumFootprints(Filter(acts, Before(Cutoff(w, now, monthAgo), stamp)))
  {
    SplitAt(acts, Cutoff(w, now, monthAgo), stamp);
  }

  /** The records at or after a cutoff and those before it add up to the whole list. */
  lemma {:induction false} SplitAt(acts: seq<Activity>, cutoff: int, stamp: string -> Option<int>)
    ensures SumFootprints(acts)
      == SumFootprints(Filter(acts, AtOrAfter(cutoff, stamp))) + SumFootprints(Filter(acts, Before(cutoff, stamp)))
    decreases |acts|
  {
    if |acts| > 0 {
      var init := acts[..|acts| - 1];
      var last := acts[|acts| - 1];
      var inside, outside := AtOrAfter(cutoff, stamp), Before(cutoff, stamp);
      assert acts == init + [last];
      SplitAt(init, cutoff, stamp);
      FilterAppend(init, [last], inside);
      FilterAppend(init, [last], outside);
      SumAppend(Filter(init, inside), Filter([last], inside));
      SumAppend(Filter(init, outside), Filter([last], outside));
      SumAppend(init, [last]);
      SplitOne(last, cutoff, stamp);
    }
  }

  /** One record lands in exactly one of the window and its complement. */
  lemma SplitOne(a: Activity, cutoff: int, stamp: string -> Option<int>)
    ensures SumFootprints(Filter([a], AtOrAfter(cutoff, stamp))) + SumFootprints(Filter([a], Before(cutoff, stamp)))
      == Footprint(a)
  {
    assert [a][..0] == [];
    assert SumFootprints([a]) == Footprint(a);
    assert Filter([a], AtOrAfter(cutoff, stamp)) == if InWindow(a, cutoff, stamp) then [a] else [];
    assert Filter([a], Before(cutoff, stamp)) == if InWindow(a, cutoff, stamp) then [] else [a];
  }

  /** A single record counts in a period total exactly when it is dated at or after the cutoff. */
  lemma TotalOne(a: Activity, w: Window, now: int, monthAgo: int, stamp: string -> Option<int>)
    requires w != AllTime
    ensures Total([a], w, now, monthAgo, stamp)
      == if InWindow(a, Cutoff(w, now, monthAgo), stamp) then Footprint(a) else 0.0
    ensures Total([a], AllTime, now, monthAgo, stamp) == Footprint(a)
  {
    assert [a][..0] == [];
    assert SumFootprints([a]) == SumFootprints([]) + Footprint(a);
    assert Filter([a], AtOrAfter(Cutoff(w, now, monthAgo), stamp))
      == if InWindow(a, Cutoff(w, now, monthAgo), stamp) then [a] else [];
  }

  /** The cutoff itself is inside the period; an unparsable date is never inside one; `all` counts everything. */
  lemma WindowBounds(a: Activity, w: Window, now: int, monthAgo: int, stamp: string -> Option<int>)
    requires w != AllTime
    ensures stamp(a.date) == Some(Cutoff(w, now, monthAgo)) ==> Total([a], w, now, monthAgo, stamp) == Footprint(a)
    ensures stamp(a.date).None? ==> Total([a], w, now, monthAgo, stamp) == 0.0
    ensures Total([a], AllTime, now, monthAgo, stamp) == Footprint(a)
  {
    TotalOne(a, w, now, monthAgo, stamp);
  }

  /** `week`: a record stamped seven days before now counts; one stamped eight days before does not. */
  lemma WeekBoundary(a: Activity, now: int, monthAgo: int, stamp: string -> Option<int>)
    ensures stamp(a.date) == Some(now - 7 * DayMs) ==> Total([a], LastWeek, now, monthAgo, stamp) == Footprint(a)
    ensures stamp(a.date) == Some(now - 8 * DayMs) ==> Total([a], LastWeek, now, monthAgo, stamp) == 0.0
  {
    TotalOne(a, LastWeek, now, monthAgo, stamp);
  }

  /** `day`: a record stamped one day before now counts; one a millisecond older does not. */
  lemma DayBoundary(a: Activity, now: int, monthAgo: int, stamp: string -> Option<int>)
    ensures stamp(a.date) == Some(now - DayMs) ==> Total([a], LastDay, now, monthAgo, stamp) == Footprint(a)
    ensures stamp(a.date) == Some(now - DayMs - 1) ==> Total([a], LastDay, now, monthAgo, stamp) == 0.0
  {
    TotalOne(a, LastDay, now, monthAgo, stamp);
  }

  /** Whatever the day total counts, the week total counts too: the week's records include the day's. */
  lemma {:induction false} DayWithinWeek(acts: seq<Activity>, now: int, monthAgo: int, stamp: string -> Option<int>)
    ensures Filter(acts, AtOrAfter(Cutoff(LastDay, now, monthAgo), stamp))
      == Filter(Filter(acts, AtOrAfter(Cutoff(LastWeek, now, monthAgo), stamp)), AtOrAfter(Cutoff(LastDay, now, monthAgo), stamp))
    decreases |acts|
  {
    var day, week := AtOrAfter(now - DayMs, stamp), AtOrAfter(now - 7 * DayMs, stamp);
    if |acts| > 0 {
      var init := acts[..|acts| - 1];
      var last := acts[|acts| - 1];
      assert acts == init + [last];
      DayWithinWeek(init, now, monthAgo, stamp);
      FilterAppend(init, [last], day);
      FilterAppend(init, [last], week);
      FilterAppend(Filter(init, week), Filter([last], week), day);
      DayWithinWeekOne(last, now, stamp);
    }
  }

  lemma DayWithinWeekOne(a: Activity, now: int, stamp: string -> Option<int>)
    ensures Filter([a], AtOrAfter(now - DayMs, stamp))
      == Filter(Filter([a], AtOrAfter(now - 7 * DayMs, stamp)), AtOrAfter(now - DayMs, stamp))
  {
    var day, week := AtOrAfter(now - DayMs, stamp), AtOrAfter(now - 7 * DayMs, stamp);
    assert [a][1..] == [];
    assert Filter([a], week) == if week(a) then [a] else [];
    assert Filter([a], day) == if day(a) then [a] else [];
  }

  function SameDayAs(date: string): Activity -> bool {
    (a: Activity) => Prefix(a.date, 10) == Prefix(date, 10)
  }

  /** `getActivitiesByDate`: the records whose first ten date characters match, in list order. */
  function ByDate(acts: seq<Activity>, date: string): (r: seq<Activity>)
    ensures forall a :: a in r <==> a in acts && Prefix(a.date, 10) == Prefix(date, 10)
    ensures IsSubsequence(r, acts)
  {
    FilterIsSubsequence(acts, SameDayAs(date));
    Filter(acts, SameDayAs(date))
  }

  /** Only the first ten characters of the argument matter: a full time stamp selects its day. */
  lemma ByDateIgnoresTime(acts: seq<Activity>, day: string, rest: string)
    requires |day| == 10
    ensures ByDate(acts, day + rest) == ByDate(acts, day)
  {
    assert Prefix(day + rest, 10) == day;
    FilterCongruent(acts, SameDayAs(day + rest), SameDayAs(day));
  }

  /** `prev.map(a => a.id === activity.id ? activity : a)`. */
  function ReplaceById(acts: seq<Activity>, a: Activity): (r: seq<Activity>)
    ensures |r| == |acts|
    ensures forall i :: 0 <= i < |acts| ==> r[i] == if acts[i].id == a.id then a else acts[i]
  {
    seq(|acts|, i requires 0 <= i < |acts| => if acts[i].id == a.id then a else acts[i])
  }

  /** The ids, position by position, survive an update; with no matching id nothing changes. */
  lemma ReplaceProperties(acts: seq<Activity>, a: Activity)
    ensures forall i :: 0 <= i < |acts| ==> ReplaceById(acts, a)[i].id == acts[i].id
    ensures (forall b :: b in acts ==> b.id != a.id) ==> ReplaceById(acts, a) == acts
    ensures ReplaceById(ReplaceById(acts, a), a) == ReplaceById(acts, a)
  {
  }

  function NotId(id: string): Activity -> bool {
    (a: Activity) => a.id != id
  }

  /** `prev.filter(a => a.id !== id)`. */
  function RemoveById(acts: seq<Activity>, id: string): (r: seq<Activity>)
    ensures forall a :: a in r <==> a in acts && a.id != id
    ensures IsSubsequence(r, acts)
  {
    FilterIsSubsequence(acts, NotId(id));
    Filter(acts, NotId(id))
  }

  /** A second delete of the same id changes nothing; deleting an absent id changes nothing. */
  lemma RemoveTwice(acts: seq<Activity>, id: string)
    ensures RemoveById(RemoveById(acts, id), id) == RemoveById(acts, id)
    ensures (forall a :: a in acts ==> a.id != id) ==> RemoveById(acts, id) == acts
  {
    FilterIdempotent(acts, NotId(id));
    FilterAllPass(acts, NotId(id));
  }

  const StorageKey := "activities"

  class ActivityStore {
    var activities: seq<Activity>
    /** Notices whose zero-delay timers have not fired yet, oldest first. */
    var outbox: seq<Notice>
    /** The `emit` calls made so far, in order. */
    var emitted: seq<Notice>
    /** The persisted lists, by storage key. */
    var storage: map<string, seq<Activity>>

    predicate Valid()
      reads this
    {
      StorageKey in storage && storage[StorageKey] == activities
      && AllWellTyped(outbox) && AllWellTyped(emitted)
    }

    /** Starts from the stored list, or from the empty list when nothing is stored. */
    constructor (stored: map<string, seq<Activity>>)
      ensures Valid()
      ensures activities == if StorageKey in stored then stored[StorageKey] else []
      ensures storage == stored[StorageKey := activities]
      ensures outbox == [] && emitted == []
    {
      activities := if StorageKey in stored then stored[StorageKey] else [];
      storage := stored[StorageKey := if StorageKey in stored then stored[StorageKey] else []];
      outbox := [];
      emitted := [];
    }

    /** `addActivity`: the draft gets the clock reading as its id and goes to the end of the list. */
    method Add(d: Draft, now: nat) returns (added: Activity)
      requires Valid()
      modifies this
      ensures Valid()
      ensures added == d.WithId(NatToString(now))
      ensures activities == old(activities) + [added]
      ensures outbox == old(outbox) + [Notice(ActivityAdded, ActivityPayload(added))]
      ensures emitted == old(emitted)
      ensures storage == old(storage)[StorageKey := activities]
    {
      added := d.WithId(NatToString(now));
      activities := activities + [added];
      storage := storage[StorageKey := activities];
      outbox := outbox + [Notice(ActivityAdded, ActivityPayload(added))];
    }

    /** `updateActivity`: every record with the same id is replaced; the notice is scheduled regardless. */
    method Update(a: Activity)
      requires Valid()
      modifies this
      ensures Valid()
      ensures activities == ReplaceById(old(activities), a)
      ensures outbox == old(outbox) + [Notice(ActivityUpdated, ActivityPayload(a))]
      ensures emitted == old(emitted)
      ensures storage == old(storage)[StorageKey := activities]
    {
      activities := ReplaceById(activities, a);
      storage := storage[StorageKey := activities];
      outbox := outbox + [Notice(ActivityUpdated, ActivityPayload(a))];
    }

    /** `deleteActivity`: every record with the id goes; `{ id }` is scheduled regardless. */
    method Delete(id: string)
      requires Valid()
      modifies this
      ensures Valid()
      ensures activities == RemoveById(old(activities), id)
      ensures outbox == old(outbox) + [Notice(ActivityDeleted, DeletedPayload(id))]
      ensures emitted == old(emitted)
      ensures storage == old(storage)[StorageKey := activities]
    {
      activities := RemoveById(activities, id);
      storage := storage[StorageKey := activities];
      outbox := outbox + [Notice(ActivityDeleted, DeletedPayload(id))];
    }

    /** The oldest pending timer fires: its notice is emitted; the list is untouched. */
    method FireNext()
      requires Valid() && |outbox| > 0
      modifies this
      ensures Valid()
      ensures emitted == old(emitted) + [old(outbox)[0]]
      ensures outbox == old(outbox)[1..]
      ensures activities == old(activities) && storage == old(storage)
    {
      emitted := emitted + [outbox[0]];
      outbox := outbox[1..];
    }
  }

  /** Adding, then letting the timer fire, emits `activity:added` with exactly the stored record. */
  method AddThenFire(store: ActivityStore, d: Draft, now: nat) returns (added: Activity)
    requires store.Valid() && store.outbox == []
    modifies store
    ensures store.Valid()
    ensures store.activities == old(store.activities) + [added] && added.id == NatToString(now)
    ensures store.emitted == old(store.emitted) + [Notice(ActivityAdded, ActivityPayload(added))]
    ensures store.outbox == []
  {
    added := store.Add(d, now);
    assert |store.outbox| == 1;
    store.FireNext();
  }
}
