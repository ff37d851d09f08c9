/**
 * The activity list: the optional day filter, the newest-first order, the
 * empty-list status, and the name, unit, colour and icon fallbacks.
 */
module ActivityList {

  import opened Wrappers
  import opened Strings
  import opened Seqs
  import opened ActivityRecord
  import opened Activities

  function OnDay(date: string): Activity -> bool {
    (a: Activity) => Prefix(a.date, 10) == date
  }

  /** `date ? activities.filter(a => a.date.substring(0, 10) === date) : activities`. */
  function DateFilter(acts: seq<Activity>, date: Option<string>): (r: seq<Activity>)
    ensures date.None? || date.value == "" ==> r == acts
    ensures date.Some? && date.value != "" ==>
      forall a :: a in r <==> a in acts && Prefix(a.date, 10) == date.value
    ensures IsSubsequence(r, acts)
  {
    if date.None? || date.value == "" then
      SubsequenceRefl(acts);
      acts
    else
      FilterIsSubsequence(acts, OnDay(date.value));
      Filter(acts, OnDay(date.value))
  }

  lemma {:induction false} SubsequenceRefl<T>(s: seq<T>)
    ensures IsSubsequence(s, s)
  {
    if |s| > 0 {
      SubsequenceRefl(s[1..]);
    }
  }

  /** Non-increasing time stamps: the newest record first. */
  predicate NewestFirst(s: seq<Activity>, stamp: string -> int) {
    forall i, j :: 0 <= i < j < |s| ==> stamp(s[i].date) >= stamp(s[j].date)
  }

  /** Puts `x` after every record at least as new, keeping equal stamps in arrival order. */
  function InsertNewestFirst(sorted: seq<Activity>, x: Activity, stamp: string -> int): (r: seq<Activity>)
    requires NewestFirst(sorted, stamp)
    ensures NewestFirst(r, stamp)
    ensures multiset(r) == multiset(sorted) + multiset{x}
    decreases |sorted|
  {
    if |sorted| == 0 then [x]
    else if stamp(sorted[|sorted| - 1].date) >= stamp(x.date) then sorted + [x]
    else
      var init := sorted[..|sorted| - 1];
      var last := sorted[|sorted| - 1];
      assert sorted == init + [last];
      var front := InsertNewestFirst(init, x, stamp);
      forall k | 0 <= k < |front| ensures stamp(front[k].date) >= stamp(last.date) {
        assert front[k] in multiset(front);
        if front[k] != x {
          assert front[k] in multiset(init);
          var m :| 0 <= m < |init| && init[m] == front[k];
          assert sorted[m] == front[k];
        }
      }
      var r := front + [last];
      forall i, j | 0 <= i < j < |r| ensures stamp(r[i].date) >= stamp(r[j].date) {
        assert r[i] == front[i];
        if j < |front| {
          assert r[j] == front[j];
        }
      }
      r
  }

  /**
   * `[...filtered].sort((a, b) => time(b) - time(a))`: a stable sort, newest first.
   * `stamp` is `new Date(date).getTime()`.
   */
  function SortNewestFirst(s: seq<Activity>, stamp: string -> int): (r: seq<Activity>)
    ensures NewestFirst(r, stamp)
    ensures multiset(r) == multiset(s)
    ensures |r| == |s|
  {
    if |s| == 0 then []
    else
      assert s == s[..|s| - 1] + [s[|s| - 1]];
      var r := InsertNewestFirst(SortNewestFirst(s[..|s| - 1], stamp), s[|s| - 1], stamp);
      assert |r| == |multiset(r)|;
      r
  }

  /** A list already newest first is left as it is, so records with equal stamps keep their order. */
  lemma {:induction false} SortKeepsOrderedInput(s: seq<Activity>, stamp: string -> int)
    requires NewestFirst(s, stamp)
    ensures SortNewestFirst(s, stamp) == s
  {
    if |s| > 0 {
      var init := s[..|s| - 1];
      assert NewestFirst(init, stamp);
      SortKeepsOrderedInput(init, stamp);
      if |init| > 0 {
        assert stamp(init[|init| - 1].date) >= stamp(s[|s| - 1].date);
      }
      assert init + [s[|s| - 1]] == s;
    }
  }

  /** What the list renders: the status message, or the records in display order. */
  datatype ListView = EmptyStatus(message: string) | Items(records: seq<Activity>)

  function View(acts: seq<Activity>, date: Option<string>, stamp: string -> int): (v: ListView)
    ensures v.EmptyStatus? <==> |DateFilter(acts, date)| == 0
    ensures v.EmptyStatus? ==> v.message == "No activities logged yet."
    ensures v.Items? ==> NewestFirst(v.records, stamp)
    ensures v.Items? ==> multiset(v.records) == multiset(DateFilter(acts, date))
  {
    var sorted := SortNewestFirst(DateFilter(acts, date), stamp);
    if |sorted| == 0 then EmptyStatus("No activities logged yet.") else Items(sorted)
  }

  /** A JavaScript `a || b` on strings: the empty string is falsy. */
  function OrElse(s: string, fallback: string): string {
    if s != "" then s else fallback
  }

  /** `getActivityName`. */
  function Name(a: Activity): Option<string> {
    if a.Custom() then a.customName
    else match FindType(a.typeId)
      case Some(t) => Some(OrElse(t.name, "Unknown Activity"))
      case None => Some("Unknown Activity")
  }

  /** `getActivityUnit`. */
  function Unit(a: Activity): Option<string> {
    if a.Custom() then a.customUnit
    else match FindType(a.typeId)
      case Some(t) => Some(OrElse(t.unit, "units"))
      case None => Some("units")
  }

  const CustomColor := "#6366f1"

  const CustomIcon := "M9 5H7a2 2 0 00-2 2v12a2 2 0 002 2h10a2 2 0 002-2V7a2 2 0 00-2-2h-2M9 5a2 2 0 002 2h2a2 2 0 002-2M9 5a2 2 0 012-2h2a2 2 0 012 2"

  /** `getActivityColor`. */
  function Color(a: Activity): string {
    if a.Custom() then CustomColor
    else match FindType(a.typeId)
      case None => CustomColor
      case Some(t) =>
        match FindCategory(t.categoryId)
        case Some(c) => OrElse(c.color, CustomColor)
        case None => CustomColor
  }

  /** `getActivityIcon`. */
  function Icon(a: Activity): string {
    if a.Custom() then CustomIcon
    else match FindType(a.typeId)
      case None => ""
      case Some(t) =>
        match FindCategory(t.categoryId)
        case Some(c) => OrElse(c.icon, "")
        case None => ""
  }

  /** A record of a catalog type is shown with that type's name and unit and its category's colour and icon. */
  lemma CatalogPresentation(a: Activity, t: ActivityType, c: ActivityCategory)
    requires !a.Custom()
    requires t in Types && t.id == a.typeId
    requires c in Categories && c.id == t.categoryId
    ensures Name(a) == Some(t.name) && Unit(a) == Some(t.unit)
    ensures Color(a) == c.color && Icon(a) == c.icon
  {
    FindTypeMember(t);
    FindCategoryMember(c);
    CatalogTextsNonEmpty(t, c);
  }

  lemma CatalogTextsNonEmpty(t: ActivityType, c: ActivityCategory)
    requires t in Types && c in Categories
    ensures t.name != "" && t.unit != "" && c.color != "" && c.icon != ""
  {
  }

  /** A custom record shows its own name and unit with the indigo colour and the document icon. */
  lemma CustomPresentation(a: Activity)
    requires a.Custom()
    ensures Name(a) == a.customName && Unit(a) == a.customUnit
    ensures Color(a) == "#6366f1" && Icon(a) == CustomIcon
  {
  }

  /** A non-custom record whose type is unknown falls back on every attribute. */
  lemma UnknownPresentation(a: Activity)
    requires !a.Custom()
    requires forall t :: t in Types ==> t.id != a.typeId
    ensures Name(a) == Some("Unknown Activity") && Unit(a) == Some("units")
    ensures Color(a) == "#6366f1" && Icon(a) == ""
  {
    FindTypeInFirst(Types, a.typeId);
  }
}
