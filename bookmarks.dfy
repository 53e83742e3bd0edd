/** The bookmarks page (src/pages/Bookmarks.tsx): reading the `{ surah, ayah }` list the surah
    page stores, enriching each entry with its surah names and texts, and removing an entry with
    the list written back in its minimal form. */
module Bookmarks {
  import opened Optional
  import opened Text
  import opened Seqs
  import SurahDetail

  /** An element of the parsed `quranBookmarks` array, as far as the conversion reads it: an
      object with its numeric `surah` / `ayah` fields (`None` when absent), `null`, or any other
      value (on which both fields read as `undefined`). */
  datatype Item = ObjectItem(surah: Option<int>, ayah: Option<int>) | NullItem | OtherItem

  /** What `JSON.parse` gave: an array, or some other value. */
  datatype Parsed = ArrayValue(items: seq<Item>) | OtherValue

  /** A converted bookmark; the numbers are `undefined` (`None`) when the stored item lacks them. */
  datatype Bookmark = Bookmark(surahNumber: Option<int>, ayahNumber: Option<int>)

  /** `{ surahNumber: item.surah, ayahNumber: item.ayah }` for an item that is not `null`. */
  function ToBookmark(item: Item): Bookmark {
    if item.ObjectItem? then Bookmark(item.surah, item.ayah) else Bookmark(None, None)
  }

  /** The stored list (:144-170): converted only for a non-empty array whose first element is a
      non-null object; a `null` further on makes the `map` throw, which the `catch` swallows and
      leaves the list empty. `None` is a missing key or a parse error. */
  function LoadBookmarks(parsed: Option<Parsed>): (r: seq<Bookmark>)
    ensures parsed.None? || parsed == Some(OtherValue) ==> r == []
    ensures parsed.Some? && parsed.value.ArrayValue? && (parsed.value.items == [] || !parsed.value.items[0].ObjectItem?) ==> r == []
    ensures r != [] ==> parsed.Some? && parsed.value.ArrayValue? && |r| == |parsed.value.items|
  {
    if parsed.None? || parsed.value.OtherValue? then []
    else
      var items := parsed.value.items;
      if items == [] || !items[0].ObjectItem? then []
      else if exists k :: 0 <= k < |items| && items[k].NullItem? then []
      else Map(items, ToBookmark)
  }

  /** The `(surah, ayah)` pairs of a list, in order. */
  function Pairs(bs: seq<Bookmark>): seq<(Option<int>, Option<int>)> {
    Map(bs, (b: Bookmark) => (b.surahNumber, b.ayahNumber))
  }

  /** A list of objects converts entry for entry, in order. */
  lemma {:induction false} LoadObjects(items: seq<Item>)
    requires items != [] && forall k :: 0 <= k < |items| ==> items[k].ObjectItem?
    ensures var r := LoadBookmarks(Some(ArrayValue(items)));
      |r| == |items| && forall k :: 0 <= k < |r| ==> r[k] == Bookmark(items[k].surah, items[k].ayah)
  {
  }

  /** The list the surah page saves loads back as the same pairs, in the same order. */
  lemma {:induction false} LoadsSurahDetailList(saved: seq<SurahDetail.Bookmark>)
    ensures var items := Map(saved, (b: SurahDetail.Bookmark) => ObjectItem(Some(b.surah), Some(b.ayah)));
      Pairs(LoadBookmarks(Some(ArrayValue(items)))) == Map(saved, (b: SurahDetail.Bookmark) => (Some(b.surah), Some(b.ayah)))
  {
    var items := Map(saved, (b: SurahDetail.Bookmark) => ObjectItem(Some(b.surah), Some(b.ayah)));
    if saved != [] {
      LoadObjects(items);
    }
  }

  // ---------------------------------------------------------------------------------------------
  // Enrichment (:172-220)

  /** An entry as the page shows it. */
  datatype ShownBookmark = ShownBookmark(surahNumber: Option<int>, ayahNumber: Option<int>, surahName: string,
                                         surahEnglishName: string, arabicText: string, translationText: string)

  /** The outcome of the two fetches for one entry: a failure (either request or body threw), or
      the two `data?.text` values. */
  datatype FetchOutcome = Failed | Fetched(arabic: Option<string>, translation: Option<string>)

  /** The text of a number in a template literal: `undefined` when absent. */
  function NumberText(n: Option<int>): string {
    if n.Some? then IntToString(n.value) else "undefined"
  }

  /** `surahInfo[n] || { name: "Surah n", englishName: "Surah n" }`, with the table as a map from
      surah number to `(name, englishName)`. */
  function SurahNames(info: map<int, (string, string)>, n: Option<int>): (r: (string, string))
    ensures n.Some? && n.value in info ==> r == info[n.value]
    ensures n.None? || n.value !in info ==> r == ("Surah " + NumberText(n), "Surah " + NumberText(n))
  {
    if n.Some? && n.value in info then info[n.value]
    else ("Surah " + NumberText(n), "Surah " + NumberText(n))
  }

  /** One enriched entry: the names from the table, the texts `|| ""`, empty texts on failure. */
  function Enrich(info: map<int, (string, string)>, b: Bookmark, outcome: FetchOutcome): (r: ShownBookmark)
    ensures r.surahNumber == b.surahNumber && r.ayahNumber == b.ayahNumber
    ensures (r.surahName, r.surahEnglishName) == SurahNames(info, b.surahNumber)
    ensures outcome.Failed? ==> r.arabicText == "" && r.translationText == ""
    ensures outcome.Fetched? ==> r.arabicText == outcome.arabic.GetOr("") && r.translationText == outcome.translation.GetOr("")
  {
    var names := SurahNames(info, b.surahNumber);
    match outcome
    case Failed => ShownBookmark(b.surahNumber, b.ayahNumber, names.0, names.1, "", "")
    case Fetched(arabic, translation) =>
      ShownBookmark(b.surahNumber, b.ayahNumber, names.0, names.1, OrElse(arabic.GetOr(""), ""),
                    OrElse(translation.GetOr(""), ""))
  }

  /** `Promise.all(stored.map(…))`: one outcome per stored entry, combined in order; no entry is
      dropped, whether its fetch failed or not. */
  function EnrichAll(info: map<int, (string, string)>, stored: seq<Bookmark>, outcomes: seq<FetchOutcome>)
    : (r: seq<ShownBookmark>)
    requires |outcomes| == |stored|
    ensures |r| == |stored|
    ensures forall k :: 0 <= k < |r| ==> r[k] == Enrich(info, stored[k], outcomes[k])
  {
    seq(|stored|, k requires 0 <= k < |stored| => Enrich(info, stored[k], outcomes[k]))
  }

  /** An unknown surah number shows as "Surah n" under both names. */
  lemma {:induction false} UnknownSurahName(info: map<int, (string, string)>, b: Bookmark, outcome: FetchOutcome)
    requires b.surahNumber.Some? && b.surahNumber.value !in info
    ensures var r := Enrich(info, b, outcome);
      r.surahName == r.surahEnglishName == "Surah " + IntToString(b.surahNumber.value)
  {
  }

  // ---------------------------------------------------------------------------------------------
  // removeBookmark (:227-240)

  predicate Matches(b: ShownBookmark, surah: int, ayah: int) {
    b.surahNumber == Some(surah) && b.ayahNumber == Some(ayah)
  }

  /** The list left after removing `(surah, ayah)`: every matching entry goes, the rest stay in
      order. */
  function RemoveBookmark(bookmarks: seq<ShownBookmark>, surah: int, ayah: int): (r: seq<ShownBookmark>)
    ensures IsSublist(r, bookmarks)
    ensures forall b :: b in r <==> b in bookmarks && !Matches(b, surah, ayah)
    ensures forall b :: multiset(r)[b] == if Matches(b, surah, ayah) then 0 else multiset(bookmarks)[b]
  {
    FilterIsSublist(bookmarks, (b: ShownBookmark) => !Matches(b, surah, ayah));
    FilterCounts(bookmarks, (b: ShownBookmark) => !Matches(b, surah, ayah));
    Filter(bookmarks, (b: ShownBookmark) => !Matches(b, surah, ayah))
  }

  /** The form written back to storage: `{ surah, ayah }` of each entry (an `undefined` number is
      dropped by `JSON.stringify`, so it reads back as absent). */
  function Minimal(bookmarks: seq<ShownBookmark>): (r: seq<Item>)
    ensures |r| == |bookmarks|
    ensures forall k :: 0 <= k < |r| ==> r[k] == ObjectItem(bookmarks[k].surahNumber, bookmarks[k].ayahNumber)
  {
    Map(bookmarks, (b: ShownBookmark) => ObjectItem(b.surahNumber, b.ayahNumber))
  }

  function ShownPairs(bs: seq<ShownBookmark>): seq<(Option<int>, Option<int>)> {
    Map(bs, (b: ShownBookmark) => (b.surahNumber, b.ayahNumber))
  }

  /** Reloading what `removeBookmark` stores gives back exactly the pairs still shown. */
  lemma {:induction false} MinimalRoundTrip(bookmarks: seq<ShownBookmark>)
    ensures Pairs(LoadBookmarks(Some(ArrayValue(Minimal(bookmarks))))) == ShownPairs(bookmarks)
  {
    if bookmarks != [] {
      LoadObjects(Minimal(bookmarks));
    }
  }

  /** After the removal the pair is gone from the list and from what is stored. */
  lemma {:induction false} RemovedIsGone(bookmarks: seq<ShownBookmark>, surah: int, ayah: int)
    ensures (Some(surah), Some(ayah)) !in ShownPairs(RemoveBookmark(bookmarks, surah, ayah))
    ensures ObjectItem(Some(surah), Some(ayah)) !in Minimal(RemoveBookmark(bookmarks, surah, ayah))
  {
    var r := RemoveBookmark(bookmarks, surah, ayah);
    forall k | 0 <= k < |r| ensures ShownPairs(r)[k] != (Some(surah), Some(ayah)) {
      assert r[k] in r;
    }
    forall k | 0 <= k < |r| ensures Minimal(r)[k] != ObjectItem(Some(surah), Some(ayah)) {
      assert r[k] in r;
    }
  }
}
