/** The personal-victories screen: the four victory categories with per-category counts,
    the category lookup used to draw each victory, and the guard of the add form. */
module Victories {
  import opened Wrappers
  import opened Text
  import opened Seqs

  datatype Category = Category(id: string, name: string)

  /** The victory categories, in display order. */
  const Categories: seq<Category> := [
    Category("academic", "School & Learning"),
    Category("social", "Friends & Family"),
    Category("personal", "Personal Growth"),
    Category("health", "Health & Wellness")
  ]

  /** A loaded `personal_victories` row, reduced to what the screen reads. */
  datatype Victory = Victory(title: string, description: Option<string>, category: string)

  /** The row `addVictory` asks the database to insert. */
  datatype VictoryInsert = VictoryInsert(userId: string, title: string, description: Option<string>, category: string)

  /** `categories.find(c => c.id === id)`. */
  function FindCategory(cs: seq<Category>, id: string): (r: Option<Category>)
    ensures r.Some? ==> r.value in cs && r.value.id == id
    ensures r.Some? ==> exists i :: 0 <= i < |cs| && cs[i] == r.value && forall j :: 0 <= j < i ==> cs[j].id != id
    ensures r.None? ==> forall i :: 0 <= i < |cs| ==> cs[i].id != id
  {
    if cs == [] then None else if cs[0].id == id then Some(cs[0]) else FindCategory(cs[1..], id)
  }

  /** `getCategoryData`: the category with that id, or the first one (`academic`) when no
      category has it. */
  function GetCategoryData(categoryId: string): (c: Category)
    ensures c in Categories
    ensures (exists i :: 0 <= i < |Categories| && Categories[i].id == categoryId) ==> c.id == categoryId
    ensures (forall i :: 0 <= i < |Categories| ==> Categories[i].id != categoryId) ==> c == Categories[0]
  {
    FindCategory(Categories, categoryId).GetOr(Categories[0])
  }

  /** `victories.filter(v => v.category === id).length`. */
  function CountIn(victories: seq<Victory>, id: string): (r: nat)
    ensures r <= |victories|
    ensures r == 0 <==> forall i :: 0 <= i < |victories| ==> victories[i].category != id
  {
    var matching := Filter(victories, (v: Victory) => v.category == id);
    assert matching != [] ==> matching[0] in victories && matching[0].category == id;
    |matching|
  }

  /** A category with its number of victories. */
  datatype CategoryCount = CategoryCount(category: Category, count: nat)

  /** `victoriesByCategory`: every category, in order, with its count. */
  function VictoriesByCategory(victories: seq<Victory>): (r: seq<CategoryCount>)
    ensures |r| == |Categories|
    ensures forall i :: 0 <= i < |r| ==> r[i].category == Categories[i]
  {
    seq(|Categories|, i requires 0 <= i < |Categories| => CategoryCount(Categories[i], CountIn(victories, Categories[i].id)))
  }

  /** The category of every victory, in order. */
  function CategoryIds(victories: seq<Victory>): (r: seq<string>)
    ensures |r| == |victories|
  {
    if victories == [] then [] else [victories[0].category] + CategoryIds(victories[1..])
  }

  /** The count of a category is the number of victories that name it. */
  lemma {:induction false} CountIsMultiplicity(victories: seq<Victory>, id: string)
    ensures CountIn(victories, id) == multiset(CategoryIds(victories))[id]
  {
    if victories != [] {
      CountIsMultiplicity(victories[1..], id);
      assert CategoryIds(victories) == [victories[0].category] + CategoryIds(victories[1..]);
    }
  }

  /** Each statistic counts exactly the victories of its category. */
  lemma StatisticsCountVictories(victories: seq<Victory>)
    ensures forall i :: 0 <= i < |Categories| ==>
              VictoriesByCategory(victories)[i].count == multiset(CategoryIds(victories))[Categories[i].id]
  {
    forall i | 0 <= i < |Categories|
      ensures VictoriesByCategory(victories)[i].count == multiset(CategoryIds(victories))[Categories[i].id]
    {
      CountIsMultiplicity(victories, Categories[i].id);
    }
  }

  /** One of the four categories has this id. */
  predicate IsKnownCategory(id: string) {
    FindCategory(Categories, id).Some?
  }

  lemma KnownCategoryIds(id: string)
    ensures IsKnownCategory(id) <==> id == "academic" || id == "social" || id == "personal" || id == "health"
  {
    assert Categories[1..][1..][1..][1..] == [];
  }

  /** Number of victories whose category is none of the four. */
  function CountUnknown(victories: seq<Victory>): nat {
    |Filter(victories, (v: Victory) => !IsKnownCategory(v.category))|
  }

  /** The sum of the counts shown. */
  function SumCounts(stats: seq<CategoryCount>): nat {
    if stats == [] then 0 else stats[0].count + SumCounts(stats[1..])
  }

  lemma SumOfFour(victories: seq<Victory>)
    ensures SumCounts(VictoriesByCategory(victories)) ==
              CountIn(victories, "academic") + CountIn(victories, "social")
              + CountIn(victories, "personal") + CountIn(victories, "health")
  {
    var r := VictoriesByCategory(victories);
    assert r[0].count == CountIn(victories, "academic");
    assert r[1].count == CountIn(victories, "social");
    assert r[2].count == CountIn(victories, "personal");
    assert r[3].count == CountIn(victories, "health");
    assert SumCounts(r[3..]) == r[3].count + SumCounts(r[4..]) by { assert r[3..][1..] == r[4..]; }
    assert SumCounts(r[2..]) == r[2].count + SumCounts(r[3..]) by { assert r[2..][1..] == r[3..]; }
    assert SumCounts(r[1..]) == r[1].count + SumCounts(r[2..]) by { assert r[1..][1..] == r[2..]; }
  }

  /** Counting over a non-empty list: the first victory adds one to its own category. */
  lemma CountInFirst(victories: seq<Victory>, id: string)
    requires victories != []
    ensures CountIn(victories, id) == (if victories[0].category == id then 1 else 0) + CountIn(victories[1..], id)
  {
  }

  lemma CountUnknownFirst(victories: seq<Victory>)
    requires victories != []
    ensures CountUnknown(victories) ==
              (if IsKnownCategory(victories[0].category) then 0 else 1) + CountUnknown(victories[1..])
  {
  }

  /** Every victory is counted under exactly one category or is of an unknown category. */
  lemma {:induction false} CountsPartitionVictories(victories: seq<Victory>)
    ensures SumCounts(VictoriesByCategory(victories)) + CountUnknown(victories) == |victories|
  {
    SumOfFour(victories);
    if victories != [] {
      CountsPartitionVictories(victories[1..]);
      SumOfFour(victories[1..]);
      var id := victories[0].category;
      CountInFirst(victories, "academic");
      CountInFirst(victories, "social");
      CountInFirst(victories, "personal");
      CountInFirst(victories, "health");
      CountUnknownFirst(victories);
      KnownCategoryIds(id);
    }
  }

  /** The counts add up to at most the number of victories, and to exactly that number
      precisely when every victory has one of the four categories. */
  lemma CountsSumAtMostVictories(victories: seq<Victory>)
    ensures SumCounts(VictoriesByCategory(victories)) <= |victories|
    ensures SumCounts(VictoriesByCategory(victories)) == |victories| <==>
              forall i :: 0 <= i < |victories| ==> IsKnownCategory(victories[i].category)
  {
    CountsPartitionVictories(victories);
    var unknown := Filter(victories, (v: Victory) => !IsKnownCategory(v.category));
    if forall i :: 0 <= i < |victories| ==> IsKnownCategory(victories[i].category) {
      FilterNone(victories, (v: Victory) => !IsKnownCategory(v.category));
    } else {
      var i :| 0 <= i < |victories| && !IsKnownCategory(victories[i].category);
      assert victories[i] in unknown;
    }
  }

  /** `addVictory`: refused without a signed-in user, with a blank title or with no
      category chosen; otherwise the row to insert, with an empty description as null. */
  function AddVictory(user: Option<string>, title: string, description: string, selectedCategory: string): (r: Option<VictoryInsert>)
    ensures r.None? <==> user.None? || IsBlank(title) || selectedCategory == ""
    ensures r.Some? ==> r.value.userId == user.value && r.value.title == title
                        && r.value.category == selectedCategory
                        && (r.value.description.None? <==> description == "")
                        && (r.value.description.Some? ==> r.value.description.value == description)
  {
    TrimEmptyIffBlank(title);
    if user.None? || Trim(title) == "" || selectedCategory == "" then None
    else Some(VictoryInsert(user.value, title, NullIfEmpty(description), selectedCategory))
  }
}
