/** The surah list of the Qur'an page (src/pages/AlQuranPage.tsx): `handleSearch` filters the
    loaded list on each keystroke, and the page shows how many of the surahs are kept. */
module AlQuranPage {
  import opened Text
  import opened Seqs
  import SurahDetail

  /** `handleSearch(val)`: the surahs whose lower-cased English name or name, or whose number,
      contains the lower-cased input; the test is the one of the surah page's search. */
  function HandleSearch(surahList: seq<SurahDetail.SurahInfo>, val: string): (r: seq<SurahDetail.SurahInfo>)
    ensures IsSublist(r, surahList)
    ensures forall s :: s in r <==> s in surahList && SurahDetail.SurahMatches(s, Lower(val))
    ensures forall s ::
      multiset(r)[s] == if SurahDetail.SurahMatches(s, Lower(val)) then multiset(surahList)[s] else 0
  {
    var term := Lower(val);
    FilterIsSublist(surahList, (s: SurahDetail.SurahInfo) => SurahDetail.SurahMatches(s, term));
    FilterCounts(surahList, (s: SurahDetail.SurahInfo) => SurahDetail.SurahMatches(s, term));
    Filter(surahList, (s: SurahDetail.SurahInfo) => SurahDetail.SurahMatches(s, term))
  }

  /** The count line `Showing {filtered.length} of {surahList.length} Surahs`. */
  function ShownCount(surahList: seq<SurahDetail.SurahInfo>, val: string): (r: (nat, nat))
    ensures r.0 <= r.1 && r.1 == |surahList|
    ensures r.0 == |HandleSearch(surahList, val)|
  {
    (|HandleSearch(surahList, val)|, |surahList|)
  }

  /** An empty input keeps every surah, because every string contains the empty string. */
  lemma {:induction false} EmptySearchKeepsAll(surahList: seq<SurahDetail.SurahInfo>)
    ensures HandleSearch(surahList, "") == surahList
  {
    forall k | 0 <= k < |surahList| ensures SurahDetail.SurahMatches(surahList[k], Lower("")) {
      ContainsEmpty(Lower(surahList[k].englishName));
    }
    FilterAll(surahList, (s: SurahDetail.SurahInfo) => SurahDetail.SurahMatches(s, Lower("")));
  }

  /** This page's search and the surah page's search give the same list for every input. */
  lemma {:induction false} SameAsSurahDetailSearch(surahList: seq<SurahDetail.SurahInfo>, val: string)
    ensures HandleSearch(surahList, val) == SurahDetail.SurahSearch(surahList, val)
  {
    if Lower(val) == [] {
      assert val == [];
      EmptySearchKeepsAll(surahList);
    }
  }
}
