/**
 * The static activity catalog: five categories and sixteen activity types,
 * each with a carbon factor in kg CO2e per unit. Factors are exact reals.
 */
module Activities {

  import opened Wrappers

  datatype ActivityCategory = ActivityCategory(id: string, name: string, icon: string, color: string)

  datatype ActivityType = ActivityType(
    id: string,
    categoryId: string,
    name: string,
    carbonPerUnit: real,
    unit: string,
    description: string)

  const Categories: seq<ActivityCategory> := [
    ActivityCategory("transportation", "Transportation",
      "M8 16c0-2.8 2.2-5 5-5s5 2.2 5 5H8z M18.93 5H5.07C3.926 5 3 5.926 3 7.07v7.86C3 16.074 3.926 17 5.07 17h13.86c1.144 0 2.07-.926 2.07-2.07V7.07C21 5.926 20.074 5 18.93 5z",
      "#3b82f6"),
    ActivityCategory("food", "Food",
      "M11 3v4h-4v5a1 1 0 001 1h3v7h2v-7h3a1 1 0 001-1v-5h-4v-4h-2z",
      "#10b981"),
    ActivityCategory("home", "Home",
      "M3 12l2-2m0 0l7-7 7 7M5 10v10a1 1 0 001 1h3m10-11l2 2m-2-2v10a1 1 0 01-1 1h-3m-6 0a1 1 0 001-1v-4a1 1 0 011-1h2a1 1 0 011 1v4a1 1 0 001 1m-6 0h6",
      "#ef4444"),
    ActivityCategory("energy", "Energy",
      "M13 10V3L4 14h7v7l9-11h-7z",
      "#f59e0b"),
    ActivityCategory("waste", "Waste",
      "M19 7l-.867 12.142A2 2 0 0116.138 21H7.862a2 2 0 01-1.995-1.858L5 7m5 4v6m4-6v6m1-10V4a1 1 0 00-1-1h-4a1 1 0 00-1 1v3M4 7h16",
      "#8b5cf6")
  ]

  const Types: seq<ActivityType> := [
    ActivityType("car", "transportation", "Car Travel", 0.404, "miles",
      "Distance traveled by car (based on average fuel economy from FHWA)"),
    ActivityType("bus", "transportation", "Bus Travel", 0.105, "km", "Distance traveled by bus"),
    ActivityType("train", "transportation", "Train Travel", 0.041, "km", "Distance traveled by train"),
    ActivityType("flight", "transportation", "Flight", 0.255, "km",
      "Distance traveled by plane (avoiding airplane travel is a high-impact action)"),
    ActivityType("beef", "food", "Beef Consumption", 27.0, "kg", "Amount of beef consumed"),
    ActivityType("chicken", "food", "Chicken Consumption", 6.9, "kg", "Amount of chicken consumed"),
    ActivityType("veg_meal", "food", "Vegetarian Meal", 2.5, "meal",
      "One vegetarian meal (plant-based diet is a high-impact action)"),
    ActivityType("electricity", "energy", "Electricity Usage", 0.455, "kWh",
      "Kilowatt-hours of electricity used (typical household: 881 kWh/month)"),
    ActivityType("natural_gas", "energy", "Natural Gas Usage", 0.054, "cubic feet",
      "Cubic feet of natural gas used (typical household: 4,717 cubic feet/month)"),
    ActivityType("fuel_oil", "energy", "Fuel Oil Usage", 10.19, "gallon",
      "Gallons of fuel oil used (typical household: 42 gallons/month)"),
    ActivityType("propane", "energy", "Propane Usage", 5.75, "gallon",
      "Gallons of propane used (typical household: 32 gallons/month)"),
    ActivityType("landfill", "waste", "Landfill Waste", 0.5, "kg", "Weight of waste sent to landfill"),
    ActivityType("recycling_paper", "waste", "Paper Recycling", -0.2, "kg",
      "Weight of paper recycled (avg person generates 0.015 tons/year)"),
    ActivityType("recycling_glass", "waste", "Glass Recycling", -0.15, "kg",
      "Weight of glass recycled (avg person generates 0.029 tons/year)"),
    ActivityType("recycling_plastic", "waste", "Plastic Recycling", -0.25, "kg",
      "Weight of plastic recycled (avg person generates 0.035 tons/year)"),
    ActivityType("recycling_metal", "waste", "Metal Recycling", -0.3, "kg",
      "Weight of metal recycled (avg person generates 0.012 tons/year)")
  ]

  /** `ACTIVITY_TYPES.find(t => t.id === id)`: the first type with that id. */
  function FindTypeIn(types: seq<ActivityType>, id: string): (r: Option<ActivityType>)
    ensures r.Some? ==> r.value.id == id
  {
    if |types| == 0 then None
    else if types[0].id == id then Some(types[0])
    else FindTypeIn(types[1..], id)
  }

  /** The lookup finds the first entry carrying the id, and finds nothing only when no entry does. */
  lemma {:induction false} FindTypeInFirst(types: seq<ActivityType>, id: string)
    ensures FindTypeIn(types, id).None? <==> forall t :: t in types ==> t.id != id
    ensures FindTypeIn(types, id).Some? ==>
      exists i :: 0 <= i < |types| && types[i] == FindTypeIn(types, id).value
        && forall j :: 0 <= j < i ==> types[j].id != id
  {
    if |types| > 0 && types[0].id != id {
      FindTypeInFirst(types[1..], id);
      assert forall t :: t in types ==> t == types[0] || t in types[1..];
      var r := FindTypeIn(types, id);
      if r.Some? {
        var i :| 0 <= i < |types[1..]| && types[1..][i] == r.value && forall j :: 0 <= j < i ==> types[1..][j].id != id;
        assert types[i + 1] == r.value;
        forall j | 0 <= j < i + 1 ensures types[j].id != id {
          if j > 0 { assert types[j] == types[1..][j - 1]; }
        }
      }
    } else if |types| > 0 {
      assert types[0] == FindTypeIn(types, id).value;
    }
  }

  function FindType(id: string): Option<ActivityType> {
    FindTypeIn(Types, id)
  }

  /** `ACTIVITY_CATEGORIES.find(c => c.id === id)`. */
  function FindCategoryIn(cats: seq<ActivityCategory>, id: string): (r: Option<ActivityCategory>)
    ensures r.Some? ==> r.value in cats && r.value.id == id
    ensures r.None? <==> forall c :: c in cats ==> c.id != id
  {
    if |cats| == 0 then None
    else if cats[0].id == id then Some(cats[0])
    else FindCategoryIn(cats[1..], id)
  }

  function FindCategory(id: string): Option<ActivityCategory> {
    FindCategoryIn(Categories, id)
  }

  function CategoryIds(): seq<string> {
    seq(|Categories|, i requires 0 <= i < |Categories| => Categories[i].id)
  }

  function TypeIds(): seq<string> {
    seq(|Types|, i requires 0 <= i < |Types| => Types[i].id)
  }

  predicate Distinct(xs: seq<string>) {
    forall i, j :: 0 <= i < j < |xs| ==> xs[i] != xs[j]
  }

  /** The category ids, in declaration order. */
  lemma CategoryIdList()
    ensures CategoryIds() == ["transportation", "food", "home", "energy", "waste"]
    ensures Distinct(CategoryIds())
  {
  }

  const TypeIdList: seq<string> := ["car", "bus", "train", "flight", "beef", "chicken", "veg_meal",
    "electricity", "natural_gas", "fuel_oil", "propane", "landfill", "recycling_paper", "recycling_glass",
    "recycling_plastic", "recycling_metal"]

  lemma TypeIdListIsCatalog()
    ensures TypeIds() == TypeIdList
  {
  }

  lemma TypeIdListDistinct()
    ensures Distinct(TypeIdList)
  {
  }

  /** No two catalog types share an id. */
  lemma TypeIdsDistinct()
    ensures Distinct(TypeIds())
    ensures forall i, j :: 0 <= i < |Types| && 0 <= j < |Types| && Types[i].id == Types[j].id ==> i == j
  {
    TypeIdListIsCatalog();
    TypeIdListDistinct();
    forall i, j | 0 <= i < |Types| && 0 <= j < |Types| && Types[i].id == Types[j].id ensures i == j {
      assert TypeIds()[i] == Types[i].id && TypeIds()[j] == Types[j].id;
    }
  }

  /** In a list whose ids are distinct, lookup by id finds exactly the entry carrying it. */
  lemma {:induction false} FindTypeInExact(types: seq<ActivityType>, i: nat)
    requires i < |types|
    requires forall a, b :: 0 <= a < |types| && 0 <= b < |types| && types[a].id == types[b].id ==> a == b
    ensures FindTypeIn(types, types[i].id) == Some(types[i])
  {
    if i > 0 {
      assert types[0].id != types[i].id;
      FindTypeInExact(types[1..], i - 1);
      assert types[1..][i - 1] == types[i];
    }
  }

  /** Lookup of a catalog type by its own id finds that type. */
  lemma FindTypeExact(i: nat)
    requires i < |Types|
    ensures FindType(Types[i].id) == Some(Types[i])
  {
    TypeIdsDistinct();
    FindTypeInExact(Types, i);
  }

  /** The same, for a catalog entry given by value. */
  lemma FindTypeMember(t: ActivityType)
    requires t in Types
    ensures FindType(t.id) == Some(t)
  {
    var i :| 0 <= i < |Types| && Types[i] == t;
    FindTypeExact(i);
  }

  const TypeCategoryList: seq<string> := ["transportation", "transportation", "transportation",
    "transportation", "food", "food", "food", "energy", "energy", "energy", "energy", "waste", "waste",
    "waste", "waste", "waste"]

  lemma TypeCategoryListIsCatalog()
    ensures |TypeCategoryList| == |Types|
    ensures forall i :: 0 <= i < |Types| ==> Types[i].categoryId == TypeCategoryList[i]
  {
  }

  lemma TypeCategoryListDeclared()
    ensures forall i :: 0 <= i < |TypeCategoryList| ==>
      TypeCategoryList[i] in {"transportation", "food", "energy", "waste"}
  {
  }

  lemma {:induction false} FindCategoryInExact(cats: seq<ActivityCategory>, i: nat)
    requires i < |cats|
    requires forall a, b :: 0 <= a < |cats| && 0 <= b < |cats| && cats[a].id == cats[b].id ==> a == b
    ensures FindCategoryIn(cats, cats[i].id) == Some(cats[i])
  {
    if i > 0 {
      assert cats[0].id != cats[i].id;
      FindCategoryInExact(cats[1..], i - 1);
      assert cats[1..][i - 1] == cats[i];
    }
  }

  /** Lookup of a declared category by its own id finds that category. */
  lemma FindCategoryMember(c: ActivityCategory)
    requires c in Categories
    ensures FindCategory(c.id) == Some(c)
  {
    CategoryIdList();
    var i :| 0 <= i < |Categories| && Categories[i] == c;
    forall a, b | 0 <= a < |Categories| && 0 <= b < |Categories| && Categories[a].id == Categories[b].id
      ensures a == b
    {
      assert CategoryIds()[a] == Categories[a].id && CategoryIds()[b] == Categories[b].id;
    }
    FindCategoryInExact(Categories, i);
  }

  /** Every type belongs to a declared category, and none belongs to `home`. */
  lemma TypeCategoriesDeclared(i: nat)
    requires i < |Types|
    ensures FindCategory(Types[i].categoryId).Some?
    ensures Types[i].categoryId != "home"
  {
    TypeCategoryListIsCatalog();
    TypeCategoryListDeclared();
    CategoryIdList();
    var c := Types[i].categoryId;
    var k := if c == "transportation" then 0 else if c == "food" then 1 else if c == "energy" then 3 else 4;
    assert Categories[k].id == CategoryIds()[k] == c;
  }

  lemma TypeCategoryMember(t: ActivityType)
    requires t in Types
    ensures FindCategory(t.categoryId).Some?
    ensures t.categoryId != "home"
  {
    var i :| 0 <= i < |Types| && Types[i] == t;
    TypeCategoriesDeclared(i);
  }

  predicate IsRecycling(t: ActivityType) {
    t.id in {"recycling_paper", "recycling_glass", "recycling_plastic", "recycling_metal"}
  }

  lemma RecyclingIndices()
    ensures forall i :: 0 <= i < |TypeIdList| ==>
      (TypeIdList[i] in {"recycling_paper", "recycling_glass", "recycling_plastic", "recycling_metal"} <==> 12 <= i)
  {
  }

  lemma NegativeIndices()
    ensures forall i :: 0 <= i < |Types| ==> (Types[i].carbonPerUnit < 0.0 <==> 12 <= i)
    ensures forall i :: 0 <= i < |Types| ==> Types[i].carbonPerUnit != 0.0
  {
  }

  /** Recycling saves carbon; every other catalog type emits it. */
  lemma RecyclingSigns(i: nat)
    requires i < |Types|
    ensures IsRecycling(Types[i]) <==> Types[i].carbonPerUnit < 0.0
    ensures !IsRecycling(Types[i]) <==> Types[i].carbonPerUnit > 0.0
    ensures IsRecycling(Types[i]) <==> 12 <= i
  {
    TypeIdListIsCatalog();
    RecyclingIndices();
    NegativeIndices();
    assert Types[i].id == TypeIds()[i] == TypeIdList[i];
  }

  lemma RecyclingSignsMember(t: ActivityType)
    requires t in Types
    ensures IsRecycling(t) <==> t.carbonPerUnit < 0.0
    ensures !IsRecycling(t) <==> t.carbonPerUnit > 0.0
  {
    var i :| 0 <= i < |Types| && Types[i] == t;
    RecyclingSigns(i);
  }

  /** Car travel is 0.404 kg per mile: ten miles weigh 4.04 kg. */
  lemma CarFactor()
    ensures FindType("car").Some? && FindType("car").value.carbonPerUnit == 0.404
    ensures FindType("car").value.carbonPerUnit * 10.0 == 4.04
    ensures FindType("car").value.unit == "miles"
  {
  }
}
