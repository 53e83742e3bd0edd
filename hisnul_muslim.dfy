/** The logic of the Hisnul Muslim page (src/pages/HisnulMuslim.tsx): the mapping of the bundled
    JSON into categories, the favourite and expanded-category toggles, the grouping of categories
    under the main groups, and the flat and favourite dua lists. State setters are modelled by the
    value they are given. */
module HisnulMuslim {
  import opened Optional
  import opened Text
  import opened Seqs

  datatype Dua = Dua(id: string, arabic: string, translation: string, audioUrl: Option<string>)

  datatype Category = Category(name: string, duas: seq<Dua>)

  // ---------------------------------------------------------------------------------------------
  // The bundled JSON (:201-228)

  /** The `ID` of a raw dua: a string or a number (integral here). */
  datatype RawId = IdText(text: string) | IdNumber(number: int)

  datatype RawDua = RawDua(id: RawId, arabicText: string, translatedText: string, audio: Option<string>)

  /** A raw category; `text` is `None` when `TEXT` is not an array. */
  datatype RawCategory = RawCategory(title: string, text: Option<seq<RawDua>>)

  /** `d.ID.toString()`. */
  function IdString(id: RawId): string {
    match id
    case IdText(t) => t
    case IdNumber(n) => IntToString(n)
  }

  /** The dua a raw entry maps to; `AUDIO || null` drops a missing or empty audio link. */
  function MapDua(d: RawDua): (r: Dua)
    ensures r.arabic == d.arabicText && r.translation == d.translatedText
    ensures r.audioUrl.None? <==> d.audio.None? || d.audio == Some("")
    ensures r.audioUrl.Some? ==> d.audio == r.audioUrl
    ensures d.id.IdNumber? ==> ParseInt(r.id) == Some(d.id.number)
    ensures d.id.IdText? ==> r.id == d.id.text
  {
    ParseIntOfIntToString(if d.id.IdNumber? then d.id.number else 0);
    Dua(IdString(d.id), d.arabicText, d.translatedText,
        if d.audio.Some? && d.audio.value != "" then d.audio else None)
  }

  function MapCategory(c: RawCategory): (r: Category)
    ensures r.name == c.title
    ensures c.text.None? ==> r.duas == []
    ensures c.text.Some? ==> (|r.duas| == |c.text.value|
                              && forall k :: 0 <= k < |r.duas| ==> r.duas[k] == MapDua(c.text.value[k]))
  {
    Category(c.title, if c.text.Some? then Map(c.text.value, MapDua) else [])
  }

  /** The categories the page shows: one per raw category, in order, once `English` is an array
      (`None` otherwise, when the list stays empty). */
  function MapCategories(english: Option<seq<RawCategory>>): (r: seq<Category>)
    ensures english.None? ==> r == []
    ensures english.Some? ==> (|r| == |english.value|
                               && forall k :: 0 <= k < |r| ==> r[k] == MapCategory(english.value[k]))
  {
    if english.Some? then Map(english.value, MapCategory) else []
  }

  // ---------------------------------------------------------------------------------------------
  // toggleFavorite (:253-260) and toggleCategory (:232-239)

  /** The set copy with `x` deleted when present and added otherwise. */
  function Toggle(s: set<string>, x: string): (r: set<string>)
    ensures x in r <==> x !in s
    ensures forall y :: y != x ==> (y in r <==> y in s)
  {
    if x in s then s - {x} else s + {x}
  }

  /** Toggling the same entry twice gives back the set. */
  lemma {:induction false} ToggleTwice(s: set<string>, x: string)
    ensures Toggle(Toggle(s, x), x) == s
  {
    var r := Toggle(Toggle(s, x), x);
    assert forall y :: y in r <==> y in s;
  }

  // ---------------------------------------------------------------------------------------------
  // MAIN_GROUPS and CATEGORY_TO_GROUP (:43-63, :66-153)

  const MainGroups: seq<string> := [
    "Salah", "Morning & Evening", "Sleep", "Ramadan - Fasting", "Quranic Duas", "Food & Drink",
    "Illness - Death", "Ruqyah", "Seeking Refuge", "Social Manners", "Family", "Rizq",
    "Gratitude - Repentance", "Purification", "Clothes", "Hajj - Umrah", "Travel", "Nature", "Other"
  ]

  /** `CATEGORY_TO_GROUP` as its list of entries, cut where the table's comments cut it. */
  const TableMorningEvening: seq<(string, string)> := [
    ("Words of remembrance for morning and evening", "Morning & Evening"),
    ("supplications for when you wake up", "Morning & Evening")
  ]
  const TableSleep: seq<(string, string)> := [
    ("What to say before sleeping", "Sleep"),
    ("Invocation to say if you stir in the night", "Sleep"),
    ("What to say if you are afraid to go to sleep or feel lonely and depressed", "Sleep"),
    ("What to do if you have a bad dream or nightmare", "Sleep")
  ]
  const TableSalah: seq<(string, string)> := [
    ("Invocation for going to the mosque", "Salah"),
    ("Invocation for entering the mosque", "Salah"),
    ("Invocation for leaving the mosque", "Salah"),
    ("What to say upon hearing the Athan (call to prayer)", "Salah"),
    ("How to recite blessings on the Prophet after the Tashahhud", "Salah"),
    ("What to say after completing the prayer", "Salah"),
    ("Invocations for rising from the Ruki'", "Salah"),
    ("Invocations during Sujood", "Salah"),
    ("Invocations for sitting between two prostrations", "Salah"),
    ("Supplications for prostrating due to recitation of the Qur'an", "Salah"),
    ("Invocation for At-Tashahhud (sitting in prayer)", "Salah"),
    ("Istikharah (seeking Allah's Counsel)", "Salah"),
    ("Invocations for Qunut in the Witr prayer", "Salah"),
    ("What to say immediately following the Witr prayer", "Salah")
  ]
  const TableFasting: seq<(string, string)> := [
    ("What to say when you are fasting and someone is rude to you", "Ramadan - Fasting")
  ]
  const TableClothesPurification: seq<(string, string)> := [
    ("Invocation when getting dressed", "Clothes"),
    ("Invocation when putting on new clothes", "Clothes"),
    ("Invocations for someone who has put on new clothes", "Clothes"),
    ("Invocation for entering the restroom", "Purification"),
    ("Invocation for leaving the restroom", "Purification"),
    ("What to say before performing ablution", "Purification"),
    ("What to say upon completing ablution", "Purification")
  ]
  const TableIllnessDeath: seq<(string, string)> := [
    ("Invocation for closing the eyes of the dead", "Illness - Death"),
    ("Invocations for the dead in the Funeral prayer", "Illness - Death"),
    ("Invocation for visiting the graves", "Illness - Death"),
    ("Invocation for the bereaved", "Illness - Death"),
    ("Invocation to be recited when placing the dead in his grave", "Illness - Death"),
    ("Invocation to be recited after burying the dead", "Illness - Death"),
    ("Invocations for a child in the Funeral prayer", "Illness - Death")
  ]
  const TableRuqyah: seq<(string, string)> := [
    ("Invocations in times of worry and grief", "Ruqyah"),
    ("Invocation against an enemy", "Ruqyah"),
    ("What to say if you fear people may harm you", "Ruqyah"),
    ("Invocations for if you are stricken by in your faith", "Ruqyah")
  ]
  const TableSeekingRefuge: seq<(string, string)> := [
    ("Invocation against the distractions of Satan during the prayer and recitation of the Quran", "Seeking Refuge"),
    ("Invocations against the Devil and his promptings", "Seeking Refuge"),
    ("What to say and do if you commit a sin", "Seeking Refuge")
  ]
  const TableSocialManners: seq<(string, string)> := [
    ("Congratulations for new parents and how they should respond", "Family"),
    ("How to seek Allah's protection for children", "Family"),
    ("Invocation for someone who does good to you", "Social Manners"),
    ("How a Muslim should praise another Muslim", "Social Manners"),
    ("What a Muslim should say when he is praised", "Social Manners"),
    ("spreading the greetings of Salam (Peace)", "Social Manners"),
    ("How to reply to a disbeliever if he says Salam to you", "Social Manners")
  ]
  const TableFamily: seq<(string, string)> := [
    ("Invocation for the groom", "Family"),
    ("The groom's supplication on the wedding night or when buying an animal", "Family"),
    ("Invocation to be recited before intercourse", "Family")
  ]
  const TableRizq: seq<(string, string)> := [
    ("Invocations for the setting of a debt", "Rizq")
  ]
  const TableGratitude: seq<(string, string)> := [
    ("Repentance and seeking forgiveness", "Gratitude - Repentance")
  ]
  const TableHajjUmrah: seq<(string, string)> := [
    ("The pilgrim's announcement of his arrival for Hajj or Umrah", "Hajj - Umrah"),
    ("Saying Allahu Akbar when passing the Black Stone", "Hajj - Umrah"),
    ("Invocation to be recited between the Yemenite Corner and the Black Stone", "Hajj - Umrah"),
    ("Invocation to be recited while standing at Safa and Marwah", "Hajj - Umrah"),
    ("Invocation to be recited on the Day of Arafat", "Hajj - Umrah"),
    ("Supplication to be recited at the sacred area of Muzdalifah", "Hajj - Umrah"),
    ("Saying Allahu Akbar while stoning the three pillars at Mina", "Hajj - Umrah")
  ]
  const TableTravel: seq<(string, string)> := [
    ("What to say when leaving the home", "Travel"),
    ("What to say when entering the home", "Travel")
  ]
  const TableNature: seq<(string, string)> := [
    ("Invocations for when the wind blows", "Nature"),
    ("Invocation for when it thunder", "Nature"),
    ("Some invocations for rain", "Nature")
  ]

  const CategoryToGroup: seq<(string, string)> :=
    TableMorningEvening + TableSleep + TableSalah + TableFasting + TableClothesPurification
    + TableIllnessDeath + TableRuqyah + TableSeekingRefuge + TableSocialManners + TableFamily
    + TableRizq + TableGratitude + TableHajjUmrah + TableTravel + TableNature

  /** `table[name]` for an object literal (the last entry wins when a key repeats); `None` for a
      title the table does not name. */
  function Lookup(table: seq<(string, string)>, name: string): (r: Option<string>)
    ensures r.Some? ==> (name, r.value) in table
    ensures r.None? <==> forall k :: 0 <= k < |table| ==> table[k].0 != name
  {
    if table == [] then None
    else if table[|table| - 1].0 == name then Some(table[|table| - 1].1)
    else
      var r := Lookup(table[..|table| - 1], name);
      assert r.Some? ==> (name, r.value) in table by {
        if r.Some? { assert table[..|table| - 1] <= table; }
      }
      r
  }

  /** `CATEGORY_TO_GROUP[cat.name] || "Other"`. */
  function GroupOf(table: seq<(string, string)>, name: string): (g: string)
    ensures g == "Other" || exists k :: 0 <= k < |table| && table[k] == (name, g)
    ensures Lookup(table, name).None? ==> g == "Other"
  {
    OrElse(Lookup(table, name).GetOr(""), "Other")
  }

  /** Every group the table names is one of `groups`. */
  predicate GroupsAmong(table: seq<(string, string)>, groups: seq<string>) {
    forall k :: 0 <= k < |table| ==> table[k].1 in groups
  }

  lemma {:induction false} GroupsAmongAppend(a: seq<(string, string)>, b: seq<(string, string)>, groups: seq<string>)
    requires GroupsAmong(a, groups) && GroupsAmong(b, groups)
    ensures GroupsAmong(a + b, groups)
  {
    forall k | 0 <= k < |a + b| ensures (a + b)[k].1 in groups {
      if k >= |a| { assert (a + b)[k] == b[k - |a|]; }
    }
  }

  lemma {:induction false} TableMorningEveningGrouped()
    ensures GroupsAmong(TableMorningEvening, MainGroups)
  {
  }

  lemma {:induction false} TableSleepGrouped()
    ensures GroupsAmong(TableSleep, MainGroups)
  {
  }

  lemma {:induction false} TableSalahGrouped()
    ensures GroupsAmong(TableSalah, MainGroups)
  {
  }

  lemma {:induction false} TableFastingGrouped()
    ensures GroupsAmong(TableFasting, MainGroups)
  {
  }

  lemma {:induction false} TableClothesPurificationGrouped()
    ensures GroupsAmong(TableClothesPurification, MainGroups)
  {
  }

  lemma {:induction false} TableIllnessDeathGrouped()
    ensures GroupsAmong(TableIllnessDeath, MainGroups)
  {
  }

  lemma {:induction false} TableRuqyahGrouped()
    ensures GroupsAmong(TableRuqyah, MainGroups)
  {
  }

  lemma {:induction false} TableSeekingRefugeGrouped()
    ensures GroupsAmong(TableSeekingRefuge, MainGroups)
  {
  }

  lemma {:induction false} TableSocialMannersGrouped()
    ensures GroupsAmong(TableSocialManners, MainGroups)
  {
  }

  lemma {:induction false} TableFamilyGrouped()
    ensures GroupsAmong(TableFamily, MainGroups)
  {
  }

  lemma {:induction false} TableRizqGrouped()
    ensures GroupsAmong(TableRizq, MainGroups)
  {
  }

  lemma {:induction false} TableGratitudeGrouped()
    ensures GroupsAmong(TableGratitude, MainGroups)
  {
  }

  lemma {:induction false} TableHajjUmrahGrouped()
    ensures GroupsAmong(TableHajjUmrah, MainGroups)
  {
  }

  lemma {:induction false} TableTravelGrouped()
    ensures GroupsAmong(TableTravel, MainGroups)
  {
  }

  lemma {:induction false} TableNatureGrouped()
    ensures GroupsAmong(TableNature, MainGroups)
  {
  }

  /** Every group `CATEGORY_TO_GROUP` names is one of `MAIN_GROUPS`, and so is the fallback
      `"Other"`. */
  lemma {:induction false} TableGroupsAreMain()
    ensures GroupsAmong(CategoryToGroup, MainGroups)
    ensures "Other" in MainGroups
  {
    TableMorningEveningGrouped();
    TableSleepGrouped();
    TableSalahGrouped();
    TableFastingGrouped();
    TableClothesPurificationGrouped();
    TableIllnessDeathGrouped();
    TableRuqyahGrouped();
    TableSeekingRefugeGrouped();
    TableSocialMannersGrouped();
    TableFamilyGrouped();
    TableRizqGrouped();
    TableGratitudeGrouped();
    TableHajjUmrahGrouped();
    TableTravelGrouped();
    TableNatureGrouped();
    var t := TableMorningEvening;
    GroupsAmongAppend(t, TableSleep, MainGroups);
    t := t + TableSleep;
    GroupsAmongAppend(t, TableSalah, MainGroups);
    t := t + TableSalah;
    GroupsAmongAppend(t, TableFasting, MainGroups);
    t := t + TableFasting;
    GroupsAmongAppend(t, TableClothesPurification, MainGroups);
    t := t + TableClothesPurification;
    GroupsAmongAppend(t, TableIllnessDeath, MainGroups);
    t := t + TableIllnessDeath;
    GroupsAmongAppend(t, TableRuqyah, MainGroups);
    t := t + TableRuqyah;
    GroupsAmongAppend(t, TableSeekingRefuge, MainGroups);
    t := t + TableSeekingRefuge;
    GroupsAmongAppend(t, TableSocialManners, MainGroups);
    t := t + TableSocialManners;
    GroupsAmongAppend(t, TableFamily, MainGroups);
    t := t + TableFamily;
    GroupsAmongAppend(t, TableRizq, MainGroups);
    t := t + TableRizq;
    GroupsAmongAppend(t, TableGratitude, MainGroups);
    t := t + TableGratitude;
    GroupsAmongAppend(t, TableHajjUmrah, MainGroups);
    t := t + TableHajjUmrah;
    GroupsAmongAppend(t, TableTravel, MainGroups);
    t := t + TableTravel;
    GroupsAmongAppend(t, TableNature, MainGroups);
    t := t + TableNature;
    assert t == CategoryToGroup;
    assert MainGroups[18] == "Other";
  }

  /** A title falls in one of `groups` when the table names only those and `"Other"` is one. */
  lemma {:induction false} GroupOfAmong(table: seq<(string, string)>, groups: seq<string>, name: string)
    requires GroupsAmong(table, groups) && "Other" in groups
    ensures GroupOf(table, name) in groups
  {
    var g := GroupOf(table, name);
    if g != "Other" {
      var k :| 0 <= k < |table| && table[k] == (name, g);
      assert table[k].1 in groups;
    }
  }

  /** Every category lands in one of `MAIN_GROUPS`, so the group view can reach it. */
  lemma {:induction false} GroupOfIsMain(name: string)
    ensures GroupOf(CategoryToGroup, name) in MainGroups
  {
    TableGroupsAreMain();
    GroupOfAmong(CategoryToGroup, MainGroups, name);
  }

  // ---------------------------------------------------------------------------------------------
  // groupedCategories (:242-250)

  /** The group map of the categories, built one category at a time from the front. */
  function Grouped(table: seq<(string, string)>, cats: seq<Category>): map<string, seq<Category>> {
    if cats == [] then map[]
    else
      var m := Grouped(table, cats[..|cats| - 1]);
      var c := cats[|cats| - 1];
      var g := GroupOf(table, c.name);
      m[g := (if g in m then m[g] else []) + [c]]
  }

  /** `c` belongs to group `g`. */
  predicate InGroup(table: seq<(string, string)>, g: string, c: Category) {
    GroupOf(table, c.name) == g
  }

  /** The map has a key for exactly the groups some category falls in, and the list of a group is
      the order-preserving filter of the categories on that group. */
  lemma {:induction false} GroupedIsFilter(table: seq<(string, string)>, cats: seq<Category>, g: string)
    ensures g in Grouped(table, cats) <==> exists c :: c in cats && InGroup(table, g, c)
    ensures g in Grouped(table, cats) ==> Grouped(table, cats)[g] == Filter(cats, c => InGroup(table, g, c))
  {
    if cats != [] {
      var init, c := cats[..|cats| - 1], cats[|cats| - 1];
      GroupedIsFilter(table, init, g);
      GroupedStep(table, init, c, g);
      assert cats == init + [c];
    }
  }

  /** One push onto the group map, for the group `g`. */
  lemma {:induction false} GroupedStep(table: seq<(string, string)>, init: seq<Category>, c: Category, g: string)
    requires g in Grouped(table, init) <==> exists x :: x in init && InGroup(table, g, x)
    requires g in Grouped(table, init) ==> Grouped(table, init)[g] == Filter(init, x => InGroup(table, g, x))
    ensures g in Grouped(table, init + [c]) <==> exists x :: x in init + [c] && InGroup(table, g, x)
    ensures g in Grouped(table, init + [c]) ==>
              Grouped(table, init + [c])[g] == Filter(init + [c], x => InGroup(table, g, x))
  {
    var p := (x: Category) => InGroup(table, g, x);
    var m := Grouped(table, init);
    var cats := init + [c];
    var gc := GroupOf(table, c.name);
    GroupedSnoc(table, init, c);
    FilterAppend(init, [c], p);
    assert forall x :: x in cats <==> x in init || x == c;
    if gc == g {
      PushedGroup(init, c, p, g in m, if g in m then m[g] else []);
    } else {
      assert Filter([c], p) == [];
    }
  }

  lemma {:induction false} GroupedSnoc(table: seq<(string, string)>, init: seq<Category>, c: Category)
    ensures var m, gc := Grouped(table, init), GroupOf(table, c.name);
      Grouped(table, init + [c]) == m[gc := (if gc in m then m[gc] else []) + [c]]
  {
    var cats := init + [c];
    assert cats[..|cats| - 1] == init && cats[|cats| - 1] == c;
  }

  /** The group of the new category: its old list, or nothing, followed by the category. */
  lemma {:induction false} PushedGroup(init: seq<Category>, c: Category, p: Category -> bool, present: bool,
                                       old_: seq<Category>)
    requires p(c)
    requires present ==> old_ == Filter(init, p)
    requires !present ==> old_ == [] && forall x :: x in init ==> !p(x)
    ensures old_ + [c] == Filter(init, p) + Filter([c], p)
  {
    assert Filter([c], p) == [c];
    if !present {
      FilterOfNone(init, p);
    }
  }

  /** A filter no element passes is empty. */
  lemma FilterOfNone<T(!new)>(s: seq<T>, p: T -> bool)
    requires forall x :: x in s ==> !p(x)
    ensures Filter(s, p) == []
  {
  }

  /** Each category is listed in its own group and in no other, and every group keeps the
      categories in their input order. */
  lemma {:induction false} EachCategoryInOneGroup(table: seq<(string, string)>, cats: seq<Category>, c: Category, g: string)
    requires c in cats
    ensures var m := Grouped(table, cats);
      && GroupOf(table, c.name) in m && c in m[GroupOf(table, c.name)]
      && (g in m ==> IsSublist(m[g], cats) && (c in m[g] <==> g == GroupOf(table, c.name)))
  {
    GroupedIsFilter(table, cats, GroupOf(table, c.name));
    assert InGroup(table, GroupOf(table, c.name), c);
    GroupedIsFilter(table, cats, g);
    FilterIsSublist(cats, x => InGroup(table, g, x));
  }

  /** `groupedCategories`: the `for … of` loop that pushes each category onto its group's list. */
  method GroupCategories(table: seq<(string, string)>, cats: seq<Category>)
    returns (groupMap: map<string, seq<Category>>)
    ensures groupMap == Grouped(table, cats)
  {
    groupMap := map[];
    var i := 0;
    while i < |cats|
      invariant 0 <= i <= |cats|
      invariant groupMap == Grouped(table, cats[..i])
    {
      var c := cats[i];
      var group := GroupOf(table, c.name);
      if group !in groupMap {
        groupMap := groupMap[group := []];
      }
      groupMap := groupMap[group := groupMap[group] + [c]];
      assert cats[..i + 1][..i] == cats[..i];
      i := i + 1;
    }
    assert cats[..i] == cats;
  }

  // ---------------------------------------------------------------------------------------------
  // allDuas (:263-266) and favoriteDuas (:269)

  /** A dua of the flat list: `{ ...dua, category: cat.name }`. */
  datatype ListedDua = ListedDua(id: string, arabic: string, translation: string, audioUrl: Option<string>,
                                 category: string)

  function Listed(c: Category): (r: seq<ListedDua>)
    ensures |r| == |c.duas|
  {
    Map(c.duas, (d: Dua) => ListedDua(d.id, d.arabic, d.translation, d.audioUrl, c.name))
  }

  /** The number of duas over all categories. */
  function DuaCount(cats: seq<Category>): nat {
    if cats == [] then 0 else |cats[0].duas| + DuaCount(cats[1..])
  }

  function AllDuas(cats: seq<Category>): seq<ListedDua> {
    Flatten(Map(cats, Listed))
  }

  /** The flat list has one entry per dua of every category. */
  lemma {:induction false} AllDuasLength(cats: seq<Category>)
    ensures |AllDuas(cats)| == DuaCount(cats)
  {
    if cats != [] {
      AllDuasLength(cats[1..]);
      assert Map(cats, Listed)[1..] == Map(cats[1..], Listed);
    }
  }

  /** The flat list holds the duas of the categories, each tagged with the name of its category. */
  lemma {:induction false} AllDuasMembership(cats: seq<Category>, x: ListedDua)
    ensures x in AllDuas(cats) <==> exists k :: 0 <= k < |cats| && x in Listed(cats[k])
  {
    FlattenMembership(Map(cats, Listed), x);
  }

  /** `allDuas.filter(dua => favorites.has(dua.id))`. */
  function FavoriteDuas(cats: seq<Category>, favorites: set<string>): (r: seq<ListedDua>)
    ensures IsSublist(r, AllDuas(cats))
    ensures forall x :: x in r <==> x in AllDuas(cats) && x.id in favorites
    ensures forall x :: multiset(r)[x] == if x.id in favorites then multiset(AllDuas(cats))[x] else 0
  {
    FilterIsSublist(AllDuas(cats), (x: ListedDua) => x.id in favorites);
    FilterCounts(AllDuas(cats), (x: ListedDua) => x.id in favorites);
    Filter(AllDuas(cats), (x: ListedDua) => x.id in favorites)
  }

  /** Toggling a favourite on adds to the favourite list exactly the duas with that id. */
  lemma {:induction false} FavoriteToggleOn(cats: seq<Category>, favorites: set<string>, id: string, x: ListedDua)
    requires id !in favorites
    ensures x in FavoriteDuas(cats, Toggle(favorites, id)) <==>
            x in FavoriteDuas(cats, favorites) || (x in AllDuas(cats) && x.id == id)
  {
  }
}
