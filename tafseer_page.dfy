/** The ayah stepping of the tafseer page (src/pages/TafseerPage.tsx). The form keeps the selected
    surah and ayah as the strings of its `<select>` elements and reads them with `parseInt`, so the
    model does the same; each handler is modelled by the selection it leaves behind. */
module TafseerPage {
  import opened Optional
  import opened Text

  /** What the handlers read of an entry of the surah list: its number and its ayah count, which
      the bundled list may lack (`None`). */
  datatype SurahEntry = SurahEntry(number: int, numberOfAyahs: Option<int>)

  /** The form state `selectedSurah` / `selectedAyah`. */
  datatype Selection = Selection(surah: string, ayah: string)

  /** `count || fallback`: a missing or zero count gives the fallback. */
  function CountOr(count: Option<int>, fallback: int): (n: int)
    ensures count.Some? && count.value != 0 ==> n == count.value
    ensures count.None? || count == Some(0) ==> n == fallback
  {
    if count.Some? && count.value != 0 then count.value else fallback
  }

  /** `surahs.find(s => s.number === n)` for a parsed number `n`; `NaN` (`None`) is equal to no
      number, so nothing is found for it. */
  function FindSurah(surahs: seq<SurahEntry>, n: Option<int>): (r: Option<SurahEntry>)
    ensures r.Some? ==> r.value in surahs && n == Some(r.value.number)
    ensures r.None? <==> n.None? || forall k :: 0 <= k < |surahs| ==> surahs[k].number != n.value
  {
    if n.None? || surahs == [] then None
    else if surahs[0].number == n.value then Some(surahs[0])
    else FindSurah(surahs[1..], n)
  }

  /** The initial selection: the `surah` and `ayah` query parameters, each `|| "1"`. */
  function InitialSelection(surahParam: Option<string>, ayahParam: Option<string>): (r: Selection)
    ensures ParseInt(r.surah) == (if surahParam.Some? && surahParam.value != "" then ParseInt(surahParam.value) else Some(1))
    ensures ParseInt(r.ayah) == (if ayahParam.Some? && ayahParam.value != "" then ParseInt(ayahParam.value) else Some(1))
  {
    ParseIntOfIntToString(1);
    Selection(if surahParam.Some? && surahParam.value != "" then surahParam.value else "1",
              if ayahParam.Some? && ayahParam.value != "" then ayahParam.value else "1")
  }

  /** `handleNextAyah`: the next ayah of the surah while there is one (a missing count counts as
      0); otherwise ayah 1 of the next surah below 115; nothing when the current surah is not in
      the list. */
  function NextAyah(surahs: seq<SurahEntry>, sel: Selection): Selection {
    var current := FindSurah(surahs, ParseInt(sel.surah));
    if current.None? then sel
    else
      var a := ParseInt(sel.ayah);
      var s := ParseInt(sel.surah).value;
      if a.Some? && a.value < CountOr(current.value.numberOfAyahs, 0) then
        sel.(ayah := IntToString(a.value + 1))
      else if s < 114 then
        Selection(IntToString(s + 1), "1")
      else sel
  }

  /** `handlePrevAyah`: the previous ayah while above 1; at ayah 1, the last ayah of the previous
      surah (`numberOfAyahs || 1`) when the surah is above 1 and the previous one is in the list;
      nothing otherwise. */
  function PrevAyah(surahs: seq<SurahEntry>, sel: Selection): Selection {
    var a := ParseInt(sel.ayah);
    if a.Some? && a.value > 1 then
      sel.(ayah := IntToString(a.value - 1))
    else
      var s := ParseInt(sel.surah);
      if s.Some? && s.value > 1 then
        var previous := FindSurah(surahs, Some(s.value - 1));
        if previous.Some? then
          Selection(IntToString(s.value - 1), IntToString(CountOr(previous.value.numberOfAyahs, 1)))
        else sel
      else sel
  }

  /** The selection `(s, a)` written as the form writes it. */
  function At(s: int, a: int): Selection {
    Selection(IntToString(s), IntToString(a))
  }

  /** Inside a surah, next moves one ayah on and keeps the surah. */
  lemma {:induction false} NextWithinSurah(surahs: seq<SurahEntry>, s: int, a: int)
    requires FindSurah(surahs, Some(s)).Some?
    requires a < CountOr(FindSurah(surahs, Some(s)).value.numberOfAyahs, 0)
    ensures NextAyah(surahs, At(s, a)) == At(s, a + 1)
  {
    ParseIntOfIntToString(s);
    ParseIntOfIntToString(a);
  }

  /** At the last ayah (or past it) of a surah below 114, next goes to ayah 1 of the following
      surah; a surah without a count is always left at once. */
  lemma {:induction false} NextCrossesSurah(surahs: seq<SurahEntry>, s: int, a: int)
    requires FindSurah(surahs, Some(s)).Some? && s < 114
    requires a >= CountOr(FindSurah(surahs, Some(s)).value.numberOfAyahs, 0)
    ensures NextAyah(surahs, At(s, a)) == Selection(IntToString(s + 1), "1")
  {
    ParseIntOfIntToString(s);
    ParseIntOfIntToString(a);
  }

  /** Next changes nothing at the end of surah 114, nor for a surah missing from the list. */
  lemma {:induction false} NextStops(surahs: seq<SurahEntry>, sel: Selection)
    requires var current := FindSurah(surahs, ParseInt(sel.surah));
      || current.None?
      || (current.value.number >= 114 && !(ParseInt(sel.ayah).Some? && ParseInt(sel.ayah).value < CountOr(current.value.numberOfAyahs, 0)))
    ensures NextAyah(surahs, sel) == sel
  {
  }

  /** Inside a surah, previous moves one ayah back. */
  lemma {:induction false} PrevWithinSurah(surahs: seq<SurahEntry>, s: int, a: int)
    requires a > 1
    ensures PrevAyah(surahs, At(s, a)) == At(s, a - 1)
  {
    ParseIntOfIntToString(a);
  }

  /** At ayah 1 of a surah above 1, previous goes to the last ayah of the previous surah when it
      is in the list (ayah 1 when its count is missing), and does nothing when it is not. */
  lemma {:induction false} PrevCrossesSurah(surahs: seq<SurahEntry>, s: int)
    requires s > 1
    ensures var previous := FindSurah(surahs, Some(s - 1));
      PrevAyah(surahs, At(s, 1)) == if previous.Some? then At(s - 1, CountOr(previous.value.numberOfAyahs, 1)) else At(s, 1)
  {
    ParseIntOfIntToString(s);
    ParseIntOfIntToString(1);
  }

  /** Previous changes nothing at 1:1. */
  lemma {:induction false} PrevStopsAtStart(surahs: seq<SurahEntry>)
    ensures PrevAyah(surahs, At(1, 1)) == At(1, 1)
  {
    ParseIntOfIntToString(1);
  }

  /** A position inside a listed surah whose count is known: ayah `a` in 1..count. */
  predicate ValidPosition(surahs: seq<SurahEntry>, s: int, a: int) {
    var current := FindSurah(surahs, Some(s));
    current.Some? && current.value.numberOfAyahs.Some? && 1 <= a <= current.value.numberOfAyahs.value
  }

  /** From any valid position but the very last one, previous undoes next. */
  lemma {:induction false} PrevUndoesNext(surahs: seq<SurahEntry>, s: int, a: int)
    requires ValidPosition(surahs, s, a) && 1 <= s
    requires s < 114 || a < FindSurah(surahs, Some(s)).value.numberOfAyahs.value
    ensures PrevAyah(surahs, NextAyah(surahs, At(s, a))) == At(s, a)
  {
    if a < FindSurah(surahs, Some(s)).value.numberOfAyahs.value {
      NextWithinSurah(surahs, s, a);
      PrevWithinSurah(surahs, s, a + 1);
    } else {
      PrevUndoesCrossing(surahs, s, a);
    }
  }

  lemma {:induction false} PrevUndoesCrossing(surahs: seq<SurahEntry>, s: int, a: int)
    requires ValidPosition(surahs, s, a) && 1 <= s < 114
    requires a == FindSurah(surahs, Some(s)).value.numberOfAyahs.value
    ensures PrevAyah(surahs, NextAyah(surahs, At(s, a))) == At(s, a)
  {
    var next := Selection(IntToString(s + 1), "1");
    NextCrossesSurah(surahs, s, a);
    assert next == At(s + 1, 1);
    PrevCrossesSurah(surahs, s + 1);
  }

  /** Choosing a surah in the select resets the ayah to 1. */
  function SelectSurah(sel: Selection, value: string): (r: Selection)
    ensures ParseInt(r.surah) == ParseInt(value) && ParseInt(r.ayah) == Some(1)
  {
    ParseIntOfIntToString(1);
    Selection(value, "1")
  }

  /** `Array.from({ length: n }, (_, i) => i + 1)`: 1..n, empty for a negative length. */
  function OneTo(n: int): (r: seq<int>)
    ensures |r| == if n < 0 then 0 else n
    ensures forall i :: 0 <= i < |r| ==> r[i] == i + 1
    ensures forall k :: k in r <==> 1 <= k <= n
  {
    var r := seq(if n < 0 then 0 else n, i => i + 1);
    forall k | 1 <= k <= n ensures k in r {
      assert r[k - 1] == k;
    }
    r
  }

  /** The ayah options: `1..(numberOfAyahs || 286)` for the selected surah, 286 of them when it is
      not in the list. */
  function AyahChoices(surahs: seq<SurahEntry>, sel: Selection): (r: seq<int>)
    ensures var current := FindSurah(surahs, ParseInt(sel.surah));
      r == OneTo(if current.Some? then CountOr(current.value.numberOfAyahs, 286) else 286)
  {
    var current := FindSurah(surahs, ParseInt(sel.surah));
    OneTo(if current.Some? then CountOr(current.value.numberOfAyahs, 286) else 286)
  }

  /** Next within a surah lands on an ayah the select offers. */
  lemma {:induction false} NextWithinIsAChoice(surahs: seq<SurahEntry>, s: int, a: int)
    requires FindSurah(surahs, Some(s)).Some? && 0 <= a < CountOr(FindSurah(surahs, Some(s)).value.numberOfAyahs, 0)
    ensures a + 1 in AyahChoices(surahs, NextAyah(surahs, At(s, a)))
  {
    NextWithinSurah(surahs, s, a);
    ParseIntOfIntToString(s);
  }
}

/** The page component's two state fields and the handlers that update them. */
module TafseerForm {
  import opened Optional
  import opened Text
  import opened TafseerPage

  class SelectionForm {
    var selectedSurah: string
    var selectedAyah: string

    /** The state as a selection. */
    function Current(): Selection
      reads this
    {
      Selection(selectedSurah, selectedAyah)
    }

    /** Mounting with the `surah` and `ayah` query parameters. */
    constructor(surahParam: Option<string>, ayahParam: Option<string>)
      ensures Current() == InitialSelection(surahParam, ayahParam)
    {
      var sel := InitialSelection(surahParam, ayahParam);
      selectedSurah := sel.surah;
      selectedAyah := sel.ayah;
    }

    /** `handleNextAyah`: returns early when the current surah is not listed, then steps the ayah
        or moves to ayah 1 of the next surah. */
    method HandleNextAyah(surahs: seq<SurahEntry>)
      modifies this
      ensures Current() == NextAyah(surahs, old(Current()))
    {
      var currentSurah := FindSurah(surahs, ParseInt(selectedSurah));
      if currentSurah.None? {
        return;
      }
      var ayah := ParseInt(selectedAyah);
      if ayah.Some? && ayah.value < CountOr(currentSurah.value.numberOfAyahs, 0) {
        selectedAyah := IntToString(ayah.value + 1);
      } else if ParseInt(selectedSurah).value < 114 {
        selectedSurah := IntToString(ParseInt(selectedSurah).value + 1);
        selectedAyah := "1";
      }
    }

    /** `handlePrevAyah`: steps the ayah back, or moves to the last ayah of the previous surah when
        that surah is listed. */
    method HandlePrevAyah(surahs: seq<SurahEntry>)
      modifies this
      ensures Current() == PrevAyah(surahs, old(Current()))
    {
      var ayah := ParseInt(selectedAyah);
      var surah := ParseInt(selectedSurah);
      if ayah.Some? && ayah.value > 1 {
        selectedAyah := IntToString(ayah.value - 1);
      } else if surah.Some? && surah.value > 1 {
        var prevSurah := FindSurah(surahs, Some(surah.value - 1));
        if prevSurah.Some? {
          selectedSurah := IntToString(surah.value - 1);
          selectedAyah := IntToString(CountOr(prevSurah.value.numberOfAyahs, 1));
        }
      }
    }

    /** The surah `<select>`'s `onChange`: the surah is set and the ayah goes back to `"1"`. */
    method HandleSurahChange(value: string)
      modifies this
      ensures Current() == SelectSurah(old(Current()), value)
    {
      selectedSurah := value;
      selectedAyah := "1";
    }
  }
}
