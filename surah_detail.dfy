/** The logic of the surah page (src/pages/SurahDetail.tsx): bookmarks, moving between surahs,
    the surah search, merging the text and audio replies into the displayed ayahs, the playlists
    handed to the player, and the first Mushaf page of each surah. State setters are modelled by
    the value they are given. */
module SurahDetail {
  import opened Optional
  import opened Text
  import opened Seqs
  import QuranService
  import Playback

  /** A bookmark as stored: `{ surah, ayah }`. */
  datatype Bookmark = Bookmark(surah: int, ayah: int)

  datatype Ayah = Ayah(number: int, text: string, englishText: string, audio: string, page: int)

  datatype Surah = Surah(name: string, englishName: string, englishNameTranslation: string, number: int,
                         ayahs: seq<Ayah>)

  datatype SurahInfo = SurahInfo(number: int, name: string, englishName: string)

  // ---------------------------------------------------------------------------------------------
  // Bookmarks (:207-223)

  /** `isAyahBookmarked(s, a)`: `bookmarks.some(…)`. */
  function IsAyahBookmarked(bookmarks: seq<Bookmark>, surah: int, ayah: int): (r: bool)
    ensures r <==> Bookmark(surah, ayah) in bookmarks
  {
    exists k :: 0 <= k < |bookmarks| && bookmarks[k] == Bookmark(surah, ayah)
  }

  /** `handleBookmarkToggle(s, a)`: removes every entry for the pair when there is one, appends the
      pair otherwise. */
  function ToggleBookmark(bookmarks: seq<Bookmark>, surah: int, ayah: int): (r: seq<Bookmark>)
    ensures forall b :: b != Bookmark(surah, ayah) ==> (b in r <==> b in bookmarks)
    ensures Bookmark(surah, ayah) in r <==> Bookmark(surah, ayah) !in bookmarks
  {
    var pair := Bookmark(surah, ayah);
    if IsAyahBookmarked(bookmarks, surah, ayah) then Filter(bookmarks, (b: Bookmark) => b != pair)
    else bookmarks + [pair]
  }

  /** Removing a present pair keeps the other entries in their order; adding an absent one puts it
      last. */
  lemma {:induction false} ToggleShape(bookmarks: seq<Bookmark>, surah: int, ayah: int)
    ensures var r := ToggleBookmark(bookmarks, surah, ayah);
      if Bookmark(surah, ayah) in bookmarks then IsSublist(r, bookmarks) && |r| < |bookmarks|
      else r == bookmarks + [Bookmark(surah, ayah)]
  {
    var pair := Bookmark(surah, ayah);
    if pair in bookmarks {
      FilterIsSublist(bookmarks, (b: Bookmark) => b != pair);
      FilterShorter(bookmarks, (b: Bookmark) => b != pair, pair);
    }
  }

  /** A filter that drops a present element is shorter than its input. */
  lemma {:induction false} FilterShorter<T(!new)>(s: seq<T>, p: T -> bool, x: T)
    requires x in s && !p(x)
    ensures |Filter(s, p)| < |s|
  {
    if s[0] != x {
      FilterShorter(s[1..], p, x);
    }
  }

  /** Toggling an absent pair twice gives back the original bookmarks. */
  lemma {:induction false} ToggleTwice(bookmarks: seq<Bookmark>, surah: int, ayah: int)
    requires Bookmark(surah, ayah) !in bookmarks
    ensures ToggleBookmark(ToggleBookmark(bookmarks, surah, ayah), surah, ayah) == bookmarks
  {
    var pair := Bookmark(surah, ayah);
    var keep := (b: Bookmark) => b != pair;
    var once := bookmarks + [pair];
    assert IsAyahBookmarked(once, surah, ayah) by { assert once[|bookmarks|] == pair; }
    FilterAppend(bookmarks, [pair], keep);
    FilterAll(bookmarks, keep);
    assert Filter([pair], keep) == [];
  }

  // ---------------------------------------------------------------------------------------------
  // nextSurah / prevSurah (:274-283)

  /** The surah `nextSurah` navigates to, or `None` when it does nothing: the list is empty or no
      surah is current (`null`, 0 or `NaN`, all `None` or 0 here). */
  function NextSurah(listLength: nat, current: Option<int>): (r: Option<int>)
    ensures listLength == 0 || current.None? || current == Some(0) ==> r.None?
    ensures listLength > 0 && current.Some? && 1 <= current.value < 114 ==> r == Some(current.value + 1)
    ensures listLength > 0 && current == Some(114) ==> r == Some(1)
  {
    if listLength == 0 || current.None? || current.value == 0 then None
    else Some(if current.value < 114 then current.value + 1 else 1)
  }

  function PrevSurah(listLength: nat, current: Option<int>): (r: Option<int>)
    ensures listLength == 0 || current.None? || current == Some(0) ==> r.None?
    ensures listLength > 0 && current.Some? && 1 < current.value <= 114 ==> r == Some(current.value - 1)
    ensures listLength > 0 && current == Some(1) ==> r == Some(114)
  {
    if listLength == 0 || current.None? || current.value == 0 then None
    else Some(if current.value > 1 then current.value - 1 else 114)
  }

  /** From a surah in 1..114 both buttons stay in 1..114, and each undoes the other. */
  lemma {:induction false} NextPrevInverse(listLength: nat, n: int)
    requires listLength > 0 && 1 <= n <= 114
    ensures var next := NextSurah(listLength, Some(n)).value;
      1 <= next <= 114 && PrevSurah(listLength, Some(next)) == Some(n)
    ensures var prev := PrevSurah(listLength, Some(n)).value;
      1 <= prev <= 114 && NextSurah(listLength, Some(prev)) == Some(n)
  {
  }

  // ---------------------------------------------------------------------------------------------
  // handleSurahSearch (:286-299)

  predicate SurahMatches(s: SurahInfo, q: string) {
    Contains(Lower(s.englishName), q) || Contains(Lower(s.name), q) || Contains(IntToString(s.number), q)
  }

  /** The filtered surah list for the search input `input`. */
  function SurahSearch(surahs: seq<SurahInfo>, input: string): (r: seq<SurahInfo>)
    ensures input == [] ==> r == surahs
    ensures IsSublist(r, surahs)
    ensures input != [] ==> forall s :: s in r <==> s in surahs && SurahMatches(s, Lower(input))
    ensures input != [] ==> forall s ::
      multiset(r)[s] == if SurahMatches(s, Lower(input)) then multiset(surahs)[s] else 0
  {
    var q := Lower(input);
    if q == [] then
      SublistReflexive(surahs);
      surahs
    else
      FilterIsSublist(surahs, (s: SurahInfo) => SurahMatches(s, q));
      FilterCounts(surahs, (s: SurahInfo) => SurahMatches(s, q));
      Filter(surahs, (s: SurahInfo) => SurahMatches(s, q))
  }

  // ---------------------------------------------------------------------------------------------
  // Merging the text and audio replies (:159-190)

  /** What the merge reads of an Arabic ayah: its text and its page (`None` when missing). */
  datatype ArabicAyah = ArabicAyah(text: string, page: Option<int>)

  /** `initialAyahs` (:159-165): ayah `i` gets the number `i + 1`, the translation text at the same
      position or `""`, no audio yet, and the page or 0. */
  function MergeTexts(arabic: seq<ArabicAyah>, translations: seq<string>): (r: seq<Ayah>)
    ensures |r| == |arabic|
    ensures forall i :: 0 <= i < |r| ==> r[i] == r[i].(number := i + 1, text := arabic[i].text, audio := "",
                                                      page := arabic[i].page.GetOr(0))
    ensures forall i :: 0 <= i < |r| ==> r[i].englishText == if i < |translations| then translations[i] else ""
  {
    seq(|arabic|, i requires 0 <= i < |arabic| =>
      Ayah(i + 1, arabic[i].text, if i < |translations| then translations[i] else "", "", arabic[i].page.GetOr(0)))
  }

  /** `audioData[i]?.audio || ""`. */
  function AudioAt(audioData: seq<QuranService.Ayah>, i: int): string {
    if 0 <= i < |audioData| then audioData[i].audio.GetOr("") else ""
  }

  /** `merged` is `s` with the audio of each ayah taken from the reply at the same position. */
  predicate AudioMerged(s: Surah, merged: Surah, audioData: seq<QuranService.Ayah>) {
    && merged == s.(ayahs := merged.ayahs)
    && |merged.ayahs| == |s.ayahs|
    && forall i :: 0 <= i < |s.ayahs| ==> merged.ayahs[i] == s.ayahs[i].(audio := AudioAt(audioData, i))
  }

  /** The state update of the audio reply (:181-191) for the surah `loaded` the request was made
      for: a surah shown under another number, or none, is left as it is. */
  function MergeAudio(prev: Option<Surah>, loaded: int, audioData: seq<QuranService.Ayah>): (r: Option<Surah>)
    ensures prev.None? || prev.value.number != loaded ==> r == prev
    ensures prev.Some? && prev.value.number == loaded ==> r.Some? && AudioMerged(prev.value, r.value, audioData)
  {
    match prev
    case None => None
    case Some(s) =>
      if s.number != loaded then prev
      else
        Some(s.(ayahs := seq(|s.ayahs|, i requires 0 <= i < |s.ayahs| => s.ayahs[i].(audio := AudioAt(audioData, i)))))
  }

  /** Applying the same audio reply again changes nothing. */
  lemma {:induction false} MergeAudioIdempotent(prev: Option<Surah>, loaded: int, audioData: seq<QuranService.Ayah>)
    ensures MergeAudio(MergeAudio(prev, loaded, audioData), loaded, audioData) == MergeAudio(prev, loaded, audioData)
  {
    var once := MergeAudio(prev, loaded, audioData);
    if prev.Some? && prev.value.number == loaded {
      var twice := MergeAudio(once, loaded, audioData);
      assert twice.value.ayahs == once.value.ayahs;
    }
  }

  /** The audio merge keeps every text of the text merge. */
  lemma {:induction false} MergeAudioKeepsTexts(s: Surah, audioData: seq<QuranService.Ayah>)
    ensures var r := MergeAudio(Some(s), s.number, audioData).value;
      forall i :: 0 <= i < |s.ayahs| ==> r.ayahs[i].text == s.ayahs[i].text && r.ayahs[i].englishText == s.ayahs[i].englishText
  {
  }

  // ---------------------------------------------------------------------------------------------
  // Playing (:226-265)

  /** `convertToAudioAyah(ayah)` on the surah shown (`None` while none is loaded). */
  function ConvertToAudioAyah(surah: Option<Surah>, ayah: Ayah): (r: Playback.AudioAyah)
    ensures r.number == ayah.number && r.text == ayah.text && r.audio == ayah.audio
    ensures r.surahNumber == (if surah.Some? then surah.value.number else 0)
    ensures r.surahName == (if surah.Some? then surah.value.englishName else "")
  {
    Playback.AudioAyah(ayah.number, ayah.text, OrElse(ayah.audio, ""),
                       if surah.Some? then surah.value.number else 0,
                       if surah.Some? then OrElse(surah.value.englishName, "") else "")
  }

  /** What a play button asks of the player. */
  datatype PlayAction = NoAction | Toggle | Play(playlist: seq<Playback.AudioAyah>, startIndex: int)

  /** The ayahs from the first with number `n` to the end; `findIndex` gives -1 when there is none,
      and `slice(-1)` then keeps just the last ayah. */
  function FromAyah(ayahs: seq<Ayah>, n: int): seq<Ayah> {
    Slice(ayahs, FirstAyahIndex(ayahs, n), |ayahs|)
  }

  /** `ayahs.findIndex(a => a.number === n)`. */
  function FirstAyahIndex(ayahs: seq<Ayah>, n: int): (i: int)
    ensures -1 <= i < |ayahs|
    ensures i >= 0 ==> ayahs[i].number == n && forall j :: 0 <= j < i ==> ayahs[j].number != n
    ensures i < 0 ==> forall j :: 0 <= j < |ayahs| ==> ayahs[j].number != n
  {
    if ayahs == [] then -1
    else if ayahs[0].number == n then 0
    else
      var i := FirstAyahIndex(ayahs[1..], n);
      if i < 0 then -1 else i + 1
  }

  function Convert(surah: Surah, ayahs: seq<Ayah>): seq<Playback.AudioAyah> {
    Map(ayahs, (a: Ayah) => ConvertToAudioAyah(Some(surah), a))
  }

  /** The player's current ayah is `ayah` of the surah shown. */
  predicate IsCurrentAyah(surah: Option<Surah>, current: Option<Playback.AudioAyah>, ayah: Ayah) {
    && current.Some? && surah.Some?
    && current.value.surahNumber == surah.value.number && current.value.number == ayah.number
  }

  /** `handlePlayAyah(ayah)`: a toggle when that very ayah of this surah is current and playing;
      otherwise a playlist from the clicked ayah to the end of the surah, started at 0. */
  function HandlePlayAyah(surah: Option<Surah>, current: Option<Playback.AudioAyah>, isPlaying: bool,
                          ayah: Ayah)
    : (r: PlayAction)
    ensures r == Toggle <==> IsCurrentAyah(surah, current, ayah) && isPlaying
    ensures r == NoAction <==> surah.None?
    ensures r.Play? ==> r.startIndex == 0 && r.playlist == Convert(surah.value, FromAyah(surah.value.ayahs, ayah.number))
  {
    if IsCurrentAyah(surah, current, ayah) && isPlaying then Toggle
    else if surah.None? then NoAction
    else Play(Convert(surah.value, FromAyah(surah.value.ayahs, ayah.number)), 0)
  }

  /** Clicking an ayah of the surah plays that ayah first, then every later one in order. */
  lemma {:induction false} PlayAyahStartsAtClicked(s: Surah, ayahs: seq<Ayah>, n: int)
    requires exists k :: 0 <= k < |ayahs| && ayahs[k].number == n
    ensures var i := FirstAyahIndex(ayahs, n);
      && FromAyah(ayahs, n) == ayahs[i..]
      && FromAyah(ayahs, n) != [] && FromAyah(ayahs, n)[0].number == n
      && Convert(s, FromAyah(ayahs, n))[0].number == n
  {
  }

  /** `handlePlayAll()`: nothing without a surah, a toggle while this surah is playing, otherwise the
      whole surah from index 0. */
  function HandlePlayAll(surah: Option<Surah>, current: Option<Playback.AudioAyah>, isPlaying: bool)
    : (r: PlayAction)
    ensures surah.None? <==> r == NoAction
    ensures r == Toggle <==> surah.Some? && current.Some? && current.value.surahNumber == surah.value.number && isPlaying
    ensures r.Play? ==> r == Play(Convert(surah.value, surah.value.ayahs), 0) && |r.playlist| == |surah.value.ayahs|
  {
    if surah.None? then NoAction
    else if current.Some? && current.value.surahNumber == surah.value.number && isPlaying then Toggle
    else Play(Convert(surah.value, surah.value.ayahs), 0)
  }

  // ---------------------------------------------------------------------------------------------
  // The first Mushaf page of a surah (:51-67, :380-383)

  /** `SURAH_TO_PAGE`, one row per line of the table: entry `n - 1` is the page surah `n` starts on. */
  const PagesRow1: seq<int> := [1, 2, 50, 77, 106, 128, 151, 177, 187]
  const PagesRow2: seq<int> := [208, 221, 235, 249, 255, 262, 267, 282]
  const PagesRow3: seq<int> := [293, 305, 312, 322, 332, 342, 350, 359]
  const PagesRow4: seq<int> := [367, 377, 385, 396, 404, 411, 415, 418]
  const PagesRow5: seq<int> := [428, 434, 440, 446, 453, 458, 467, 477]
  const PagesRow6: seq<int> := [483, 489, 496, 499, 502, 507, 511, 515]
  const PagesRow7: seq<int> := [518, 520, 523, 526, 528, 531, 534, 537]
  const PagesRow8: seq<int> := [542, 545, 549, 551, 553, 554, 556, 558]
  const PagesRow9: seq<int> := [560, 562, 564, 566, 568, 570, 572, 574]
  const PagesRow10: seq<int> := [575, 577, 578, 580, 582, 583, 585, 586]
  const PagesRow11: seq<int> := [587, 587, 589, 590, 591, 591, 592, 593]
  const PagesRow12: seq<int> := [594, 595, 595, 596, 596, 597, 597, 598]
  const PagesRow13: seq<int> := [598, 599, 599, 600, 600, 601, 601]
  const PagesRow14: seq<int> := [601, 602, 602, 603, 603, 603, 603]
  const PagesRow15: seq<int> := [604, 604, 604]

  const SurahToPage: seq<int> :=
    PagesRow1 + PagesRow2 + PagesRow3 + PagesRow4 + PagesRow5 + PagesRow6 + PagesRow7 + PagesRow8
    + PagesRow9 + PagesRow10 + PagesRow11 + PagesRow12 + PagesRow13 + PagesRow14 + PagesRow15

  /** Every page lies in 1..604 and the pages do not decrease. */
  predicate PagesOrdered(s: seq<int>) {
    && (forall i :: 0 <= i < |s| ==> 1 <= s[i] <= 604)
    && (forall i :: 0 <= i < |s| - 1 ==> s[i] <= s[i + 1])
  }

  lemma {:induction false} OrderedAppend(a: seq<int>, b: seq<int>)
    requires PagesOrdered(a) && PagesOrdered(b) && a != [] && b != [] && a[|a| - 1] <= b[0]
    ensures PagesOrdered(a + b)
  {
    var c := a + b;
    forall i | 0 <= i < |c| - 1 ensures c[i] <= c[i + 1] {
      if i == |a| - 1 {
        assert c[i] == a[|a| - 1] && c[i + 1] == b[0];
      }
    }
  }

  lemma {:induction false} Row1Ordered()
    ensures PagesOrdered(PagesRow1)
  {
  }

  lemma {:induction false} Row2Ordered()
    ensures PagesOrdered(PagesRow2)
  {
  }

  lemma {:induction false} Row3Ordered()
    ensures PagesOrdered(PagesRow3)
  {
  }

  lemma {:induction false} Row4Ordered()
    ensures PagesOrdered(PagesRow4)
  {
  }

  lemma {:induction false} Row5Ordered()
    ensures PagesOrdered(PagesRow5)
  {
  }

  lemma {:induction false} Row6Ordered()
    ensures PagesOrdered(PagesRow6)
  {
  }

  lemma {:induction false} Row7Ordered()
    ensures PagesOrdered(PagesRow7)
  {
  }

  lemma {:induction false} Row8Ordered()
    ensures PagesOrdered(PagesRow8)
  {
  }

  lemma {:induction false} Row9Ordered()
    ensures PagesOrdered(PagesRow9)
  {
  }

  lemma {:induction false} Row10Ordered()
    ensures PagesOrdered(PagesRow10)
  {
  }

  lemma {:induction false} Row11Ordered()
    ensures PagesOrdered(PagesRow11)
  {
  }

  lemma {:induction false} Row12Ordered()
    ensures PagesOrdered(PagesRow12)
  {
  }

  lemma {:induction false} Row13Ordered()
    ensures PagesOrdered(PagesRow13)
  {
  }

  lemma {:induction false} Row14Ordered()
    ensures PagesOrdered(PagesRow14)
  {
  }

  lemma {:induction false} Row15Ordered()
    ensures PagesOrdered(PagesRow15)
  {
  }

  /** The table has one page for each of the 114 surahs, every page in 1..604, and the pages do
      not decrease from one surah to the next. */
  lemma {:induction false} SurahToPageShape()
    ensures |SurahToPage| == 114
    ensures PagesOrdered(SurahToPage)
  {
    Row1Ordered(); Row2Ordered(); Row3Ordered(); Row4Ordered(); Row5Ordered();
    Row6Ordered(); Row7Ordered(); Row8Ordered(); Row9Ordered(); Row10Ordered();
    Row11Ordered(); Row12Ordered(); Row13Ordered(); Row14Ordered(); Row15Ordered();
    var p := PagesRow1;
    OrderedAppend(p, PagesRow2);
    p := p + PagesRow2;
    OrderedAppend(p, PagesRow3);
    p := p + PagesRow3;
    OrderedAppend(p, PagesRow4);
    p := p + PagesRow4;
    OrderedAppend(p, PagesRow5);
    p := p + PagesRow5;
    OrderedAppend(p, PagesRow6);
    p := p + PagesRow6;
    OrderedAppend(p, PagesRow7);
    p := p + PagesRow7;
    OrderedAppend(p, PagesRow8);
    p := p + PagesRow8;
    OrderedAppend(p, PagesRow9);
    p := p + PagesRow9;
    OrderedAppend(p, PagesRow10);
    p := p + PagesRow10;
    OrderedAppend(p, PagesRow11);
    p := p + PagesRow11;
    OrderedAppend(p, PagesRow12);
    p := p + PagesRow12;
    OrderedAppend(p, PagesRow13);
    p := p + PagesRow13;
    OrderedAppend(p, PagesRow14);
    p := p + PagesRow14;
    OrderedAppend(p, PagesRow15);
    p := p + PagesRow15;
    assert p == SurahToPage;
  }

  /** `startingMushafPage`: the table's page for the current surah, or 1 when there is none. */
  function StartingMushafPage(current: Option<int>): (p: int)
    ensures 1 <= p <= 604
    ensures current.None? || !(1 <= current.value <= 114) ==> p == 1
  {
    SurahToPageShape();
    if current.Some? && 1 <= current.value <= 114 then SurahToPage[current.value - 1] else 1
  }

  /** A later surah never starts on an earlier page. */
  lemma {:induction false} StartingPageMonotone(a: int, b: int)
    requires 1 <= a <= b <= 114
    ensures StartingMushafPage(Some(a)) <= StartingMushafPage(Some(b))
    decreases b - a
  {
    if a < b {
      StartingPageMonotone(a, b - 1);
      SurahToPageShape();
      assert SurahToPage[b - 2] <= SurahToPage[b - 1];
    }
  }
}
