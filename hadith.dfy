/** The hadith service: narrator extraction, and the arithmetic and bookkeeping around the edition
    requests of `fetchBooks` and `fetchHadithsByBook`. Responses are inputs: each request the code
    sends is represented by what it returned, in the order the callbacks ran. */
module Hadith {
  import opened Optional
  import opened Text
  import opened Seqs

  datatype HadithCollection = HadithCollection(
    id: string, title: string, total: int, arabicName: Option<string>, description: Option<string>)

  datatype HadithBook = HadithBook(bookNumber: string, bookName: string, hadithCount: int)

  datatype HadithRecord = HadithRecord(
    hadithNumber: string, hadithArabic: string, hadithEnglish: string, englishNarrator: string,
    status: Option<string>, bookNumber: string, chapterId: Option<string>, grade: Option<string>)

  /** `HADITH_COLLECTIONS` (:33-90). */
  const HadithCollections: seq<HadithCollection> := [
    HadithCollection("bukhari", "Sahih al-Bukhari", 7563, Some("صحيح البخاري"),
                     Some("The most authentic collection of Hadith")),
    HadithCollection("muslim", "Sahih Muslim", 7563, Some("صحيح مسلم"), Some("Second most authentic collection")),
    HadithCollection("abudawud", "Sunan Abu Dawud", 5274, Some("سنن أبي داود"),
                     Some("One of the six major Hadith collections")),
    HadithCollection("tirmidhi", "Jami` at-Tirmidhi", 3956, Some("جامع الترمذي"),
                     Some("Includes grading of Hadith authenticity")),
    HadithCollection("nasai", "Sunan an-Nasa'i", 5761, Some("سنن النسائي"), Some("Known for its careful selection")),
    HadithCollection("ibnmajah", "Sunan Ibn Majah", 4341, Some("سنن ابن ماجه"),
                     Some("One of the six major collections")),
    HadithCollection("malik", "Muwatta Malik", 1842, Some("موطأ مالك"), Some("Earliest collection of Hadith")),
    HadithCollection("ahmad", "Musnad Ahmad", 26363, Some("مسند أحمد"), Some("Largest collection of Hadith"))
  ]

  // ---------------------------------------------------------------------------------------------
  // extractNarrator (:356-360)

  /** `/Narrated\s+([^:]+):/i` matches at position `p`: the word (in any case), one white-space
      character at least, and a colon after at least one more character. Since `[^:]` also matches
      white space, `\s+` gives characters back until `[^:]+` has one; the first colon after the word
      therefore closes the match, which fails only when there is none or it follows the first white
      space directly. */
  predicate MatchAt(s: string, p: int) {
    && 0 <= p && p + 9 <= |s|
    && Lower(s[p..p + 8]) == "narrated"
    && IsSpace(s[p + 8])
    && IndexOf(s[p + 9..], ':') >= 1
  }

  /** The leftmost match at or after `p`, or -1. */
  function FirstMatch(s: string, p: nat): (r: int)
    ensures r == -1 || (p <= r && MatchAt(s, r))
    ensures forall q :: p <= q < (if r < 0 then |s| else r) ==> !MatchAt(s, q)
    decreases |s| - p
  {
    if p + 9 > |s| then -1
    else if MatchAt(s, p) then p
    else FirstMatch(s, p + 1)
  }

  /** `extractNarrator(text)`: the trimmed first capture group, or `""` for an empty text or no match.
      The group starts after the characters `\s+` kept; those are white space, so the group trimmed
      equals everything between the first white space and the colon, trimmed. */
  function ExtractNarrator(text: string): (r: string)
    ensures ':' !in r
    ensures text == "" ==> r == ""
    ensures (forall q :: 0 <= q < |text| ==> !MatchAt(text, q)) ==> r == ""
    ensures r != "" ==> exists p :: MatchAt(text, p)
  {
    if text == "" then ""
    else
      var p := FirstMatch(text, 0);
      if p < 0 then "" else NarratorAt(text, p)
  }

  /** The trimmed text between the white space of a match at `p` and the colon after it. */
  function NarratorAt(text: string, p: nat): (r: string)
    requires MatchAt(text, p)
    ensures ':' !in r
  {
    var group := NarratorGroup(text, p);
    TrimElements(group);
    Trim(group)
  }

  /** The capture group of a match at `p`: from after the first white space up to the colon. */
  function NarratorGroup(text: string, p: nat): (g: string)
    requires MatchAt(text, p)
    ensures ':' !in g
  {
    var c := IndexOf(text[p + 9..], ':');
    assert text[p + 9..p + 9 + c] == text[p + 9..][..c];
    text[p + 9..p + 9 + c]
  }

  /** The regular expression matches somewhere exactly when there is a leftmost match. */
  lemma {:induction false} MatchFound(text: string)
    ensures (exists q :: MatchAt(text, q)) <==> FirstMatch(text, 0) >= 0
  {
    if q :| MatchAt(text, q) {
      assert 0 <= q < |text|;
    }
  }

  /** The narrator is the trimmed text between the white space after the leftmost `Narrated`
      (in any case) and the first colon after it. */
  lemma {:induction false} ExtractNarratorValue(text: string)
    ensures var p := FirstMatch(text, 0);
      p >= 0 ==> var c := IndexOf(text[p + 9..], ':');
        && p + 9 + c <= |text| && NarratorGroup(text, p) == text[p + 9..p + 9 + c]
        && ExtractNarrator(text) == Trim(NarratorGroup(text, p))
  {
    var p := FirstMatch(text, 0);
    if p >= 0 {
      NarratorAtLeftmost(text, p);
      GroupSlice(text, p);
    }
  }

  lemma {:induction false} NarratorAtLeftmost(text: string, p: nat)
    requires p == FirstMatch(text, 0) && MatchAt(text, p)
    ensures ExtractNarrator(text) == Trim(NarratorGroup(text, p))
  {
    assert ExtractNarrator(text) == NarratorAt(text, p);
  }

  lemma {:induction false} GroupSlice(text: string, p: nat)
    requires MatchAt(text, p)
    ensures var c := IndexOf(text[p + 9..], ':');
      p + 9 + c <= |text| && NarratorGroup(text, p) == text[p + 9..p + 9 + c]
  {
  }

  /** The opening word of a header, in the case the source's texts use. */
  lemma {:induction false} NarratedWord(s: string)
    requires |s| >= 8 && s[..8] == "Narrated"
    ensures Lower(s[..8]) == "narrated"
  {
  }

  lemma {:induction false} HeaderParts(name: string, rest: string)
    ensures var s := "Narrated " + name + ":" + rest;
      && s[..8] == "Narrated" && s[8] == ' '
      && s[9..] == name + (":" + rest)
  {
    var s := "Narrated " + name + ":" + rest;
    assert s == "Narrated " + (name + (":" + rest));
  }

  /** A text that opens with `Narrated`, white space, a name and a colon yields the trimmed name. */
  lemma {:induction false} NarratorOfHeader(name: string, rest: string)
    requires name != [] && ':' !in name
    ensures ExtractNarrator("Narrated " + name + ":" + rest) == Trim(name)
  {
    var s := "Narrated " + name + ":" + rest;
    HeaderMatch(name, rest);
    HeaderGroup(s, name);
    assert ExtractNarrator(s) == NarratorAt(s, 0);
  }

  lemma {:induction false} HeaderMatch(name: string, rest: string)
    requires name != [] && ':' !in name
    ensures var s := "Narrated " + name + ":" + rest;
      && MatchAt(s, 0) && FirstMatch(s, 0) == 0 && IndexOf(s[9..], ':') == |name|
      && 9 + |name| <= |s| && s[9..9 + |name|] == name
  {
    var s := "Narrated " + name + ":" + rest;
    HeaderParts(name, rest);
    assert s[9..9 + |name|] == name;
    NarratedWord(s);
    IndexOfAfter(name, ":" + rest, ':');
  }

  lemma {:induction false} HeaderGroup(s: string, name: string)
    requires MatchAt(s, 0) && IndexOf(s[9..], ':') == |name|
    requires 9 + |name| <= |s| && s[9..9 + |name|] == name
    ensures NarratorAt(s, 0) == Trim(name)
  {
    assert NarratorGroup(s, 0) == name;
  }

  // ---------------------------------------------------------------------------------------------
  // fetchHadithsByBook: the request range (:230-256)

  /** The first collection with that identifier. */
  function FindCollection(cs: seq<HadithCollection>, collectionId: string): (r: Option<HadithCollection>)
    ensures r.Some? ==> r.value in cs && r.value.id == collectionId
    ensures r.None? <==> forall k :: 0 <= k < |cs| ==> cs[k].id != collectionId
  {
    if cs == [] then None
    else if cs[0].id == collectionId then Some(cs[0])
    else FindCollection(cs[1..], collectionId)
  }

  /** `collection?.total || 1000` (:235). */
  function TotalHadiths(collectionId: string): (t: int)
    ensures var c := FindCollection(HadithCollections, collectionId);
      t == if c.Some? && c.value.total != 0 then c.value.total else 1000
  {
    match FindCollection(HadithCollections, collectionId)
    case Some(c) => if c.total != 0 then c.total else 1000
    case None => 1000
  }

  /** The per-collection book estimate (:238-244). `"ahmad"` is not listed and gets 50. */
  function EstimatedBooks(collectionId: string): (n: int)
    ensures n >= 37
  {
    if collectionId == "bukhari" then 97
    else if collectionId == "muslim" then 57
    else if collectionId == "abudawud" then 43
    else if collectionId == "tirmidhi" then 49
    else if collectionId == "nasai" then 52
    else if collectionId == "ibnmajah" then 37
    else if collectionId == "malik" then 61
    else 50
  }

  /** `Math.ceil(total / estimatedBooks)` (:246): the least per-book count covering `total`. */
  function HadithsPerBook(total: int, estimatedBooks: int): (h: int)
    requires estimatedBooks > 0
    ensures h * estimatedBooks >= total
    ensures (h - 1) * estimatedBooks < total
  {
    (total + estimatedBooks - 1) / estimatedBooks
  }

  /** `startRange` and `endRange` (:247-248) for book `bookNum`. */
  function FetchRange(total: int, estimatedBooks: int, bookNum: int): (r: (int, int))
    requires estimatedBooks > 0
    ensures r.0 == (bookNum - 1) * HadithsPerBook(total, estimatedBooks) + 1
    ensures r.1 <= total && r.1 <= bookNum * HadithsPerBook(total, estimatedBooks) + 50
    ensures r.1 == total || r.1 == bookNum * HadithsPerBook(total, estimatedBooks) + 50
  {
    var h := HadithsPerBook(total, estimatedBooks);
    var end := bookNum * h + 50;
    ((bookNum - 1) * h + 1, if end < total then end else total)
  }

  /** The range of one book reaches 50 past the next book's first number, unless capped by the total. */
  lemma {:induction false} RangesOverlapNextBook(total: int, estimatedBooks: int, bookNum: int)
    requires estimatedBooks > 0 && total > 0
    ensures var a, b := FetchRange(total, estimatedBooks, bookNum), FetchRange(total, estimatedBooks, bookNum + 1);
      a.1 == total || a.1 == b.0 + 49
  {
  }

  const BatchSize: int := 20

  /** The batch loop of `fetchHadithsByBook` (:252-256): `[start, end]` cut into consecutive
      inclusive intervals of 20, the last one ending at `end`. */
  method Batches(start: int, end: int) returns (bs: seq<(int, int)>)
    ensures start > end <==> bs == []
    ensures bs != [] ==> bs[0].0 == start && bs[|bs| - 1].1 == end
    ensures forall k :: 0 <= k < |bs| ==> bs[k].0 <= bs[k].1 < bs[k].0 + BatchSize
    ensures forall k :: 0 <= k < |bs| - 1 ==> bs[k].1 == bs[k].0 + BatchSize - 1 && bs[k + 1].0 == bs[k].1 + 1
  {
    bs := [];
    var batchStart := start;
    while batchStart <= end
      invariant bs == [] ==> batchStart == start
      invariant bs != [] ==> bs[0].0 == start && bs[|bs| - 1].1 <= end && bs[|bs| - 1].0 == batchStart - BatchSize
      invariant bs != [] ==> bs[|bs| - 1].1 == batchStart - 1 || (bs[|bs| - 1].1 == end && batchStart > end)
      invariant forall k :: 0 <= k < |bs| ==> bs[k].0 <= bs[k].1 < bs[k].0 + BatchSize && bs[k].1 <= end
      invariant forall k :: 0 <= k < |bs| - 1 ==> bs[k].1 == bs[k].0 + BatchSize - 1 && bs[k + 1].0 == bs[k].1 + 1
      decreases end - batchStart
    {
      var batchEnd := if batchStart + BatchSize - 1 < end then batchStart + BatchSize - 1 else end;
      bs := bs + [(batchStart, batchEnd)];
      batchStart := batchStart + BatchSize;
    }
    if bs != [] {
      assert bs[|bs| - 1].1 == batchStart - 1 || bs[|bs| - 1].1 == end;
    }
  }

  /** Consecutive batches cover their whole range: a number between the first start and the last end
      lies in some batch. */
  lemma {:induction false} BatchesCover(bs: seq<(int, int)>, i: int)
    requires bs != []
    requires forall k :: 0 <= k < |bs| ==> bs[k].0 <= bs[k].1
    requires forall k :: 0 <= k < |bs| - 1 ==> bs[k + 1].0 == bs[k].1 + 1
    requires bs[0].0 <= i <= bs[|bs| - 1].1
    ensures exists k :: 0 <= k < |bs| && bs[k].0 <= i <= bs[k].1
  {
    if i > bs[0].1 {
      BatchesCover(bs[1..], i);
      var k :| 0 <= k < |bs[1..]| && bs[1..][k].0 <= i <= bs[1..][k].1;
      assert bs[k + 1] == bs[1..][k];
    }
  }

  // ---------------------------------------------------------------------------------------------
  // fetchHadithsByBook: collecting the hadiths of one book (:256-321)

  /** One hadith of an edition response. A missing `hadithnumber` or `reference.book` is `None`; a
      missing `arabic`, `text` or first grade name is `""`. */
  datatype ApiHadith = ApiHadith(hadithnumber: Option<int>, referenceBook: Option<int>, arabic: string,
                                 text: string, gradeName: string)

  datatype SectionDetail = SectionDetail(hadithnumberFirst: int, hadithnumberLast: int)

  /** What the request for hadith `index` returned: its `hadiths` when that is an array, and the
      `section_detail` entry of the requested book when `metadata.section` names that book. */
  datatype EditionResponse = EditionResponse(index: int, hadiths: Option<seq<ApiHadith>>,
                                             sectionDetail: Option<SectionDetail>)

  /** `h.hadithnumber?.toString() || i.toString()`. */
  function NumberText(h: ApiHadith, index: int): string {
    IntToString(h.hadithnumber.GetOr(index))
  }

  /** The record pushed for `h` (:268-276, :290-298). */
  function RecordOf(h: ApiHadith, index: int, bookNumber: string): (r: HadithRecord)
    ensures r.bookNumber == bookNumber
    ensures r.status == Some(r.grade.GetOr("Sahih"))
    ensures r.grade.None? <==> h.gradeName == ""
    ensures ':' !in r.englishNarrator
  {
    var grade := if h.gradeName != "" then Some(h.gradeName) else None;
    HadithRecord(NumberText(h, index), h.arabic, h.text, ExtractNarrator(h.text),
                 Some(OrElse(h.gradeName, "Sahih")), bookNumber, None, grade)
  }

  /** The number text of a record reads back as the hadith's number, or the request index. */
  lemma {:induction false} RecordNumber(h: ApiHadith, index: int, bookNumber: string)
    ensures ParseInt(RecordOf(h, index, bookNumber).hadithNumber) == Some(h.hadithnumber.GetOr(index))
  {
    ParseIntOfIntToString(h.hadithnumber.GetOr(index));
  }

  /** Some record of `list` carries the number text `n`. */
  predicate Listed(list: seq<HadithRecord>, n: string) {
    exists j :: 0 <= j < |list| && list[j].hadithNumber == n
  }

  /** The test of the first pass (:267): the hadith's own reference names the book. */
  predicate InBook(h: ApiHadith, bookNum: int) {
    h.referenceBook == Some(bookNum)
  }

  /** The test of the second pass (:286-288): the reference names the book, or the number lies in
      the section's range. */
  predicate InSection(h: ApiHadith, bookNum: int, d: SectionDetail) {
    || h.referenceBook == Some(bookNum)
    || (h.hadithnumber.Some? && d.hadithnumberFirst <= h.hadithnumber.value <= d.hadithnumberLast)
  }

  /** The duplicate check of the second pass (:289): a record with this hadith's number is already
      collected. A missing number never compares equal. */
  predicate AlreadyListed(list: seq<HadithRecord>, h: ApiHadith) {
    h.hadithnumber.Some? && Listed(list, IntToString(h.hadithnumber.value))
  }

  /** Every record carries the requested book number and its grade, or `"Sahih"`, as status. */
  predicate Stamped(list: seq<HadithRecord>, bookNumber: string) {
    forall k :: 0 <= k < |list| ==> list[k].bookNumber == bookNumber && list[k].status == Some(list[k].grade.GetOr("Sahih"))
  }

  /** The second pass over `hs`, from the left, starting from `list`. */
  function SectionFold(list: seq<HadithRecord>, hs: seq<ApiHadith>, bookNum: int, d: SectionDetail,
                       index: int, bookNumber: string): (r: seq<HadithRecord>)
    ensures |r| >= |list| && r[..|list|] == list
    ensures Stamped(list, bookNumber) ==> Stamped(r, bookNumber)
    decreases |hs|
  {
    if hs == [] then list
    else
      var before := SectionFold(list, hs[..|hs| - 1], bookNum, d, index, bookNumber);
      var h := hs[|hs| - 1];
      if InSection(h, bookNum, d) && !AlreadyListed(before, h) then
        var rec := RecordOf(h, index, bookNumber);
        AppendKeepsStamped(list, before, rec, bookNumber);
        before + [rec]
      else before
  }

  /** Appending one stamped record keeps the prefix and the stamps. */
  lemma {:induction false} AppendKeepsStamped(list: seq<HadithRecord>, before: seq<HadithRecord>, rec: HadithRecord,
                                              bookNumber: string)
    requires |before| >= |list| && before[..|list|] == list
    requires Stamped(list, bookNumber) ==> Stamped(before, bookNumber)
    requires rec.bookNumber == bookNumber && rec.status == Some(rec.grade.GetOr("Sahih"))
    ensures (before + [rec])[..|list|] == list
    ensures Stamped(list, bookNumber) ==> Stamped(before + [rec], bookNumber)
  {
    assert (before + [rec])[..|list|] == before[..|list|];
  }

  /** The records of the first pass over `hs`: one per hadith whose reference names the book. */
  function ReferenceRecords(hs: seq<ApiHadith>, bookNum: int, index: int, bookNumber: string): (r: seq<HadithRecord>)
    ensures |r| <= |hs|
    ensures Stamped(r, bookNumber)
    decreases |hs|
  {
    if hs == [] then []
    else
      var h := hs[|hs| - 1];
      var before := ReferenceRecords(hs[..|hs| - 1], bookNum, index, bookNumber);
      before + if InBook(h, bookNum) then [RecordOf(h, index, bookNumber)] else []
  }

  /** The first pass (:265-279) over one response: a record for every hadith whose reference names
      the book, in response order. */
  method ReferencePass(list: seq<HadithRecord>, hs: seq<ApiHadith>, bookNum: int, index: int,
                       bookNumber: string)
    returns (out: seq<HadithRecord>)
    ensures out == list + ReferenceRecords(hs, bookNum, index, bookNumber)
  {
    out := list;
    var k := 0;
    while k < |hs|
      invariant 0 <= k <= |hs|
      invariant out == list + ReferenceRecords(hs[..k], bookNum, index, bookNumber)
    {
      var h := hs[k];
      assert hs[..k + 1][..k] == hs[..k];
      if h.referenceBook == Some(bookNum) {
        out := out + [RecordOf(h, index, bookNumber)];
      }
      k := k + 1;
    }
    assert hs[..k] == hs;
  }

  /** The second pass (:284-302) over one response: each hadith of the section not yet listed by
      number is appended. */
  method SectionPass(list: seq<HadithRecord>, hs: seq<ApiHadith>, bookNum: int, d: SectionDetail,
                     index: int, bookNumber: string)
    returns (out: seq<HadithRecord>)
    ensures out == SectionFold(list, hs, bookNum, d, index, bookNumber)
  {
    out := list;
    var k := 0;
    while k < |hs|
      invariant 0 <= k <= |hs|
      invariant out == SectionFold(list, hs[..k], bookNum, d, index, bookNumber)
    {
      var h := hs[k];
      assert hs[..k + 1][..k] == hs[..k];
      var listed := h.hadithnumber.Some? && exists j :: 0 <= j < |out| && out[j].hadithNumber == IntToString(h.hadithnumber.value);
      if InSection(h, bookNum, d) && !listed {
        out := out + [RecordOf(h, index, bookNumber)];
      }
      k := k + 1;
    }
    assert hs[..k] == hs;
  }

  /** Every record of `s` from position `from` on carries a number text no earlier record has. */
  predicate NewNumbersFrom(s: seq<HadithRecord>, from: nat) {
    forall j, k :: 0 <= j < k && from <= k < |s| ==> s[j].hadithNumber != s[k].hadithNumber
  }

  /** When every hadith carries a number, no record the second pass appends repeats the number of a
      record already in the list when it is pushed. */
  lemma {:induction false} SectionPassAddsNewNumbers(list: seq<HadithRecord>, hs: seq<ApiHadith>, bookNum: int,
                                                     d: SectionDetail, index: int, bookNumber: string)
    requires forall k :: 0 <= k < |hs| ==> hs[k].hadithnumber.Some?
    ensures NewNumbersFrom(SectionFold(list, hs, bookNum, d, index, bookNumber), |list|)
    decreases |hs|
  {
    if hs != [] {
      var init := hs[..|hs| - 1];
      assert forall k :: 0 <= k < |init| ==> init[k].hadithnumber.Some? by {
        forall k | 0 <= k < |init| ensures init[k].hadithnumber.Some? {
          assert init[k] == hs[k];
        }
      }
      SectionPassAddsNewNumbers(list, init, bookNum, d, index, bookNumber);
      var before := SectionFold(list, init, bookNum, d, index, bookNumber);
      var h := hs[|hs| - 1];
      var n := h.hadithnumber.value;
      if InSection(h, bookNum, d) && !AlreadyListed(before, h) {
        var rec := RecordOf(h, index, bookNumber);
        assert rec.hadithNumber == IntToString(n);
        assert forall j :: 0 <= j < |before| ==> before[j].hadithNumber != IntToString(n);
        var out := before + [rec];
        assert SectionFold(list, hs, bookNum, d, index, bookNumber) == out;
        forall j, k | 0 <= j < k && |list| <= k < |out| ensures out[j].hadithNumber != out[k].hadithNumber {
          if k == |before| {
            assert out[j] == before[j] && out[k] == rec;
          } else {
            assert out[j] == before[j] && out[k] == before[k];
          }
        }
      } else {
        assert SectionFold(list, hs, bookNum, d, index, bookNumber) == before;
      }
    }
  }

  /** What one response adds to `list`: the first pass over its hadiths, then the second pass when
      the response describes the requested book's section. */
  function AfterResponse(list: seq<HadithRecord>, r: EditionResponse, bookNum: int, bookNumber: string)
    : (out: seq<HadithRecord>)
    ensures |out| >= |list| && out[..|list|] == list
    ensures Stamped(list, bookNumber) ==> Stamped(out, bookNumber)
  {
    if r.hadiths.None? then list
    else
      var firstPass := list + ReferenceRecords(r.hadiths.value, bookNum, r.index, bookNumber);
      assert firstPass[..|list|] == list;
      if r.sectionDetail.Some? then SectionFold(firstPass, r.hadiths.value, bookNum, r.sectionDetail.value, r.index, bookNumber)
      else firstPass
  }

  /** The records collected from the responses, in the order they arrive. */
  function Collected(rs: seq<EditionResponse>, bookNum: int, bookNumber: string): (out: seq<HadithRecord>)
    ensures Stamped(out, bookNumber)
    decreases |rs|
  {
    if rs == [] then []
    else AfterResponse(Collected(rs[..|rs| - 1], bookNum, bookNumber), rs[|rs| - 1], bookNum, bookNumber)
  }

  /** Handles the responses one after another, as their promises settle (:256-315). */
  method CollectHadiths(rs: seq<EditionResponse>, bookNum: int, bookNumber: string)
    returns (hadiths: seq<HadithRecord>)
    ensures hadiths == Collected(rs, bookNum, bookNumber)
  {
    hadiths := [];
    var k := 0;
    while k < |rs|
      invariant 0 <= k <= |rs|
      invariant hadiths == Collected(rs[..k], bookNum, bookNumber)
    {
      var r := rs[k];
      assert rs[..k + 1][..k] == rs[..k];
      if r.hadiths.Some? {
        hadiths := ReferencePass(hadiths, r.hadiths.value, bookNum, r.index, bookNumber);
        if r.sectionDetail.Some? {
          hadiths := SectionPass(hadiths, r.hadiths.value, bookNum, r.sectionDetail.value, r.index, bookNumber);
        }
      }
      k := k + 1;
    }
    assert rs[..k] == rs;
  }

  /** The sort key `parseInt(h.hadithNumber)`; `NaN` never arises for a collected record
      (`RecordNumber`). */
  function HadithKey(h: HadithRecord): int {
    ParseInt(h.hadithNumber).GetOr(0)
  }

  predicate HadithLe(a: HadithRecord, b: HadithRecord) {
    HadithKey(a) <= HadithKey(b)
  }

  /** The records whose sort key is `key`. */
  function HasKey(key: int): HadithRecord -> bool {
    h => HadithKey(h) == key
  }

  lemma {:induction false} HadithLeIsTotalPreorder()
    ensures TotalPreorder(HadithLe)
  {
  }

  /** Rearranging records keeps them stamped. */
  lemma {:induction false} StampedPermutation(a: seq<HadithRecord>, b: seq<HadithRecord>, bookNumber: string)
    requires multiset(a) == multiset(b) && Stamped(a, bookNumber)
    ensures Stamped(b, bookNumber)
  {
    forall k | 0 <= k < |b|
      ensures b[k].bookNumber == bookNumber && b[k].status == Some(b[k].grade.GetOr("Sahih"))
    {
      assert b[k] in multiset(a);
      var j :| 0 <= j < |a| && a[j] == b[k];
    }
  }

  /** The range requested for book `bookNum` of the collection (:234-248). */
  function BookRange(collectionId: string, bookNum: int): (int, int) {
    FetchRange(TotalHadiths(collectionId), EstimatedBooks(collectionId), bookNum)
  }

  predicate InSomeBatch(bs: seq<(int, int)>, i: int) {
    exists k :: 0 <= k < |bs| && bs[k].0 <= i <= bs[k].1
  }

  /** The batches request exactly the numbers from `start` to `end`. */
  predicate Covers(bs: seq<(int, int)>, start: int, end: int) {
    && (bs == [] <==> start > end)
    && (forall i :: start <= i <= end ==> InSomeBatch(bs, i))
    && (forall k :: 0 <= k < |bs| ==> start <= bs[k].0 <= bs[k].1 <= end)
  }

  /** The batch loop requests exactly its range. */
  lemma {:induction false} BatchesCoverRange(start: int, end: int, bs: seq<(int, int)>)
    requires start > end <==> bs == []
    requires bs != [] ==> bs[0].0 == start && bs[|bs| - 1].1 == end
    requires forall k :: 0 <= k < |bs| ==> bs[k].0 <= bs[k].1
    requires forall k :: 0 <= k < |bs| - 1 ==> bs[k + 1].0 == bs[k].1 + 1
    ensures Covers(bs, start, end)
  {
    forall i | start <= i <= end ensures InSomeBatch(bs, i) {
      BatchesCover(bs, i);
    }
    BatchesWithin(bs, start, end);
  }

  /** `fetchHadithsByBook(collectionId, bookNumber)` (:224-326), given the responses in the order
      their callbacks ran. Returns the requested batches and the records sorted stably by number. A book number that
      does not parse (`NaN`) makes the range empty, so nothing is requested or returned. */
  method FetchHadithsByBook(collectionId: string, bookNumber: string, rs: seq<EditionResponse>)
    returns (hadiths: seq<HadithRecord>, batches: seq<(int, int)>)
    ensures ParseInt(bookNumber).None? ==> hadiths == [] && batches == []
    ensures ParseInt(bookNumber).Some? ==>
      var n := ParseInt(bookNumber).value;
      var range := BookRange(collectionId, n);
      && Covers(batches, range.0, range.1)
      && multiset(hadiths) == multiset(Collected(rs, n, bookNumber))
      && forall key :: Filter(hadiths, HasKey(key)) == Filter(Collected(rs, n, bookNumber), HasKey(key))
    ensures SortedBy(hadiths, HadithLe)
    ensures Stamped(hadiths, bookNumber) && Numbered(hadiths)
  {
    var parsed := ParseInt(bookNumber);
    if parsed.None? {
      return [], [];
    }
    var bookNum := parsed.value;
    var range := BookRange(collectionId, bookNum);
    batches := Batches(range.0, range.1);
    BatchesCoverRange(range.0, range.1, batches);
    var collected := CollectHadiths(rs, bookNum, bookNumber);
    HadithLeIsTotalPreorder();
    hadiths := SortBy(collected, HadithLe);
    forall key ensures Filter(hadiths, HasKey(key)) == Filter(collected, HasKey(key)) {
      SortByFilter(collected, HadithLe, HasKey(key));
    }
    StampedPermutation(collected, hadiths, bookNumber);
    CollectedNumbered(rs, bookNum, bookNumber);
    NumberedPermutation(collected, hadiths);
  }

  /** Consecutive batches from `start` to `end` stay within that range. */
  lemma {:induction false} BatchesWithin(bs: seq<(int, int)>, start: int, end: int)
    requires bs != [] ==> bs[0].0 == start && bs[|bs| - 1].1 == end
    requires forall k :: 0 <= k < |bs| ==> bs[k].0 <= bs[k].1
    requires forall k :: 0 <= k < |bs| - 1 ==> bs[k + 1].0 == bs[k].1 + 1
    ensures forall k :: 0 <= k < |bs| ==> start <= bs[k].0 <= bs[k].1 <= end
    decreases |bs|
  {
    if |bs| > 1 {
      BatchesWithin(bs[1..], bs[1].0, end);
      BatchesWithin(bs[..|bs| - 1], start, bs[|bs| - 2].1);
    }
  }

  /** Every record's number text parses, so the sort compares the hadith numbers themselves. */
  predicate Numbered(list: seq<HadithRecord>) {
    forall k :: 0 <= k < |list| ==> ParseInt(list[k].hadithNumber).Some?
  }

  lemma {:induction false} ReferenceRecordsNumbered(hs: seq<ApiHadith>, bookNum: int, index: int, bookNumber: string)
    ensures Numbered(ReferenceRecords(hs, bookNum, index, bookNumber))
    decreases |hs|
  {
    if hs != [] {
      var before := ReferenceRecords(hs[..|hs| - 1], bookNum, index, bookNumber);
      var rec := RecordOf(hs[|hs| - 1], index, bookNumber);
      var r := ReferenceRecords(hs, bookNum, index, bookNumber);
      assert r == before + [rec] || r == before + [];
      assert before + [] == before;
      ReferenceRecordsNumbered(hs[..|hs| - 1], bookNum, index, bookNumber);
      RecordNumber(hs[|hs| - 1], index, bookNumber);
      NumberedStep(before, rec, r);
    }
  }

  lemma {:induction false} SectionFoldNumbered(list: seq<HadithRecord>, hs: seq<ApiHadith>, bookNum: int,
                                               d: SectionDetail, index: int, bookNumber: string)
    requires Numbered(list)
    ensures Numbered(SectionFold(list, hs, bookNum, d, index, bookNumber))
    decreases |hs|
  {
    if hs != [] {
      var before := SectionFold(list, hs[..|hs| - 1], bookNum, d, index, bookNumber);
      var h := hs[|hs| - 1];
      SectionFoldNumbered(list, hs[..|hs| - 1], bookNum, d, index, bookNumber);
      var rec := RecordOf(h, index, bookNumber);
      var r := SectionFold(list, hs, bookNum, d, index, bookNumber);
      assert r == before || r == before + [rec];
      RecordNumber(h, index, bookNumber);
      NumberedStep(before, rec, r);
    }
  }

  lemma {:induction false} NumberedStep(before: seq<HadithRecord>, rec: HadithRecord, r: seq<HadithRecord>)
    requires Numbered(before) && ParseInt(rec.hadithNumber).Some?
    requires r == before || r == before + [rec]
    ensures Numbered(r)
  {
    if r != before {
      NumberedAppend(before, [rec]);
    }
  }

  lemma {:induction false} NumberedAppend(a: seq<HadithRecord>, b: seq<HadithRecord>)
    requires Numbered(a) && Numbered(b)
    ensures Numbered(a + b)
  {
    forall k | 0 <= k < |a + b| ensures ParseInt((a + b)[k].hadithNumber).Some? {
      if k < |a| {
        assert (a + b)[k] == a[k];
      } else {
        assert (a + b)[k] == b[k - |a|];
      }
    }
  }

  lemma {:induction false} CollectedNumbered(rs: seq<EditionResponse>, bookNum: int, bookNumber: string)
    ensures Numbered(Collected(rs, bookNum, bookNumber))
    decreases |rs|
  {
    if rs != [] {
      var before := Collected(rs[..|rs| - 1], bookNum, bookNumber);
      CollectedNumbered(rs[..|rs| - 1], bookNum, bookNumber);
      var r := rs[|rs| - 1];
      if r.hadiths.Some? {
        ReferenceRecordsNumbered(r.hadiths.value, bookNum, r.index, bookNumber);
        var firstPass := before + ReferenceRecords(r.hadiths.value, bookNum, r.index, bookNumber);
        assert Numbered(firstPass);
        if r.sectionDetail.Some? {
          SectionFoldNumbered(firstPass, r.hadiths.value, bookNum, r.sectionDetail.value, r.index, bookNumber);
        }
      }
    }
  }

  lemma {:induction false} NumberedPermutation(a: seq<HadithRecord>, b: seq<HadithRecord>)
    requires multiset(a) == multiset(b) && Numbered(a)
    ensures Numbered(b)
  {
    forall k | 0 <= k < |b| ensures ParseInt(b[k].hadithNumber).Some? {
      assert b[k] in multiset(a);
      var j :| 0 <= j < |a| && a[j] == b[k];
    }
  }

  // ---------------------------------------------------------------------------------------------
  // fetchBooks (:94-221)

  /** An entry of `bookMap`: the book's name and the hadith numbers seen for it. */
  datatype BookEntry = BookEntry(name: string, hadithNumbers: set<int>)

  /** A JavaScript `Map<number, …>`: its entries, and its keys in insertion order. */
  datatype BookMap = BookMap(keys: seq<int>, entries: map<int, BookEntry>)

  ghost predicate ValidMap(m: BookMap) {
    NoDuplicates(m.keys) && forall k :: k in m.entries <==> k in m.keys
  }

  /** `m.set(k, e)`: a new key goes to the end of the iteration order, an existing one keeps its place. */
  function MapSet(m: BookMap, k: int, e: BookEntry): (r: BookMap)
    ensures r.entries == m.entries[k := e]
    ensures ValidMap(m) ==> ValidMap(r)
    ensures |r.keys| >= |m.keys| && r.keys[..|m.keys|] == m.keys
    ensures k in m.entries ==> |r.keys| == |m.keys|
  {
    if k in m.entries then BookMap(m.keys, m.entries[k := e])
    else BookMap(m.keys + [k], m.entries[k := e])
  }

  /** `bookCounts[collectionId] || 50` (:101-112): `"ahmad"`, mapped to 0, and unknown ids get 50. */
  function BookCount(collectionId: string): (n: int)
    ensures n >= 37
    ensures collectionId == "ahmad" ==> n == 50
  {
    if collectionId == "bukhari" then 97
    else if collectionId == "muslim" then 57
    else if collectionId == "abudawud" then 43
    else if collectionId == "tirmidhi" then 49
    else if collectionId == "nasai" then 52
    else if collectionId == "ibnmajah" then 37
    else if collectionId == "malik" then 61
    else 50
  }

  /** `` `Book ${i}` ``. */
  function PlaceholderName(i: int): string {
    "Book " + IntToString(i)
  }

  /** The map after the placeholder loop (:115-120) has run `n` times. */
  function Placeholders(n: nat): (m: BookMap)
    ensures ValidMap(m)
  {
    if n == 0 then BookMap([], map[])
    else MapSet(Placeholders(n - 1), n, BookEntry(PlaceholderName(n), {}))
  }

  predicate HoldsPlaceholder(m: BookMap, i: int) {
    i in m.entries && m.entries[i] == BookEntry(PlaceholderName(i), {})
  }

  /** The placeholder map holds the books 1 to `n` in order, each with its placeholder name and no
      hadith numbers. */
  lemma {:induction false} PlaceholdersShape(n: nat)
    ensures |Placeholders(n).keys| == n
    ensures forall i :: 0 <= i < n ==> Placeholders(n).keys[i] == i + 1
    ensures forall i :: 1 <= i <= n ==> HoldsPlaceholder(Placeholders(n), i)
  {
    if n > 0 {
      PlaceholdersShape(n - 1);
      var before := Placeholders(n - 1);
      assert n !in before.entries by {
        if n in before.entries {
          var i :| 0 <= i < n - 1 && before.keys[i] == n;
        }
      }
      var m := Placeholders(n);
      assert m.entries == before.entries[n := BookEntry(PlaceholderName(n), {})];
      forall i | 1 <= i <= n ensures HoldsPlaceholder(m, i) {
        if i < n {
          assert HoldsPlaceholder(before, i);
        }
      }
    }
  }

  /** The placeholder loop. */
  method AddPlaceholders(bookCount: int) returns (m: BookMap)
    ensures m == Placeholders(if bookCount > 0 then bookCount else 0)
  {
    m := BookMap([], map[]);
    var i := 1;
    while i <= bookCount
      invariant 1 <= i <= (if bookCount > 0 then bookCount + 1 else 1)
      invariant m == Placeholders(i - 1)
    {
      m := MapSet(m, i, BookEntry(PlaceholderName(i), {}));
      i := i + 1;
    }
  }

  /** `Math.min(50, bookCount * 2)` (:124). */
  function SampleSize(bookCount: int): (r: int)
    ensures r <= 50 && r <= 2 * bookCount
    ensures r == 50 || r == 2 * bookCount
  {
    if 2 * bookCount < 50 then 2 * bookCount else 50
  }

  /** `Math.max(1, Math.floor(1000 / sampleSize))` (:125), for a positive size. */
  function SampleInterval(size: int): (n: int)
    requires size > 0
    ensures n >= 1
    ensures size <= 1000 ==> n * size <= 1000 && 1000 < (n + 1) * size
  {
    if 1000 / size > 1 then 1000 / size else 1
  }

  /** The sampling loop (:128): every `interval`-th hadith number from 1, at most `size` of them and
      none above 1000. With `interval` chosen as above the loop stops on the size. */
  method SampleIndices(bookCount: int) returns (indices: seq<int>)
    requires bookCount > 0
    ensures var size, interval := SampleSize(bookCount), SampleInterval(SampleSize(bookCount));
      && |indices| == size
      && forall k :: 0 <= k < |indices| ==> indices[k] == 1 + k * interval && 1 <= indices[k] <= 1000
  {
    var size := SampleSize(bookCount);
    var interval := SampleInterval(size);
    indices := [];
    var i := 1;
    while i <= 1000 && |indices| < size
      invariant |indices| <= size
      invariant i == 1 + |indices| * interval
      invariant forall k :: 0 <= k < |indices| ==> indices[k] == 1 + k * interval && 1 <= indices[k] <= 1000
      decreases size - |indices|
    {
      indices := indices + [i];
      i := i + interval;
    }
    if |indices| < size {
      SampleStopsOnSize(|indices|, size, interval);
    }
  }

  lemma {:induction false} SampleStopsOnSize(n: int, size: int, interval: int)
    requires 0 <= n < size && interval >= 1 && interval * size <= 1000
    ensures 1 + n * interval <= 1000
  {
    assert n * interval <= (size - 1) * interval;
  }

  /** What one sample response carries: the entries of `metadata.section` as (`parseInt(key)`,
      name) pairs in key order, and its hadiths. A missing field is empty. */
  datatype SampleResponse = SampleResponse(sections: seq<(int, string)>, hadiths: seq<ApiHadith>)

  /** One section entry (:140-150): an existing book is renamed, a new one is added with no numbers.
      An empty name falls back to the placeholder. */
  function SectionStep(m: BookMap, key: int, name: string): (r: BookMap)
    ensures key in r.entries && r.entries[key].name == OrElse(name, PlaceholderName(key))
    ensures ValidMap(m) ==> ValidMap(r)
    ensures |r.keys| >= |m.keys| && r.keys[..|m.keys|] == m.keys
    ensures forall k :: k in m.entries ==> k in r.entries && r.entries[k].hadithNumbers == m.entries[k].hadithNumbers
  {
    var numbers := if key in m.entries then m.entries[key].hadithNumbers else {};
    MapSet(m, key, BookEntry(OrElse(name, PlaceholderName(key)), numbers))
  }

  /** The test of :157-159: the hadith names a book (a non-zero `reference.book`) that is in the map,
      and has a non-zero number. */
  predicate CountsFor(m: BookMap, h: ApiHadith) {
    && h.referenceBook.Some? && h.referenceBook.value != 0 && h.referenceBook.value in m.entries
    && h.hadithnumber.Some? && h.hadithnumber.value != 0
  }

  /** One hadith (:156-163): its number joins the set of the book it names. */
  function HadithStep(m: BookMap, h: ApiHadith): (r: BookMap)
    ensures r.keys == m.keys && r.entries.Keys == m.entries.Keys
    ensures ValidMap(m) ==> ValidMap(r)
    ensures forall k :: k in m.entries ==> r.entries[k].name == m.entries[k].name
    ensures CountsFor(m, h) ==>
      r.entries[h.referenceBook.value].hadithNumbers == m.entries[h.referenceBook.value].hadithNumbers + {h.hadithnumber.value}
  {
    if CountsFor(m, h) then
      var b := h.referenceBook.value;
      MapSet(m, b, BookEntry(m.entries[b].name, m.entries[b].hadithNumbers + {h.hadithnumber.value}))
    else m
  }

  function SectionsFold(m: BookMap, secs: seq<(int, string)>): (r: BookMap)
    ensures ValidMap(m) ==> ValidMap(r)
    ensures |r.keys| >= |m.keys| && r.keys[..|m.keys|] == m.keys
    decreases |secs|
  {
    if secs == [] then m
    else
      var before := SectionsFold(m, secs[..|secs| - 1]);
      SectionStep(before, secs[|secs| - 1].0, secs[|secs| - 1].1)
  }

  function HadithsFold(m: BookMap, hs: seq<ApiHadith>): (r: BookMap)
    ensures ValidMap(m) ==> ValidMap(r)
    ensures r.keys == m.keys
    decreases |hs|
  {
    if hs == [] then m else HadithStep(HadithsFold(m, hs[..|hs| - 1]), hs[|hs| - 1])
  }

  /** The map after the callbacks of the sample responses have run, in that order. */
  function SamplesFold(m: BookMap, rs: seq<SampleResponse>): (r: BookMap)
    ensures ValidMap(m) ==> ValidMap(r)
    ensures |r.keys| >= |m.keys| && r.keys[..|m.keys|] == m.keys
    decreases |rs|
  {
    if rs == [] then m
    else
      var before := SamplesFold(m, rs[..|rs| - 1]);
      var r := rs[|rs| - 1];
      HadithsFold(SectionsFold(before, r.sections), r.hadiths)
  }

  /** The section loop of one callback (:139-151). */
  method ApplySections(m0: BookMap, secs: seq<(int, string)>) returns (m: BookMap)
    ensures m == SectionsFold(m0, secs)
  {
    m := m0;
    var k := 0;
    while k < |secs|
      invariant 0 <= k <= |secs|
      invariant m == SectionsFold(m0, secs[..k])
    {
      assert secs[..k + 1][..k] == secs[..k];
      m := SectionStep(m, secs[k].0, secs[k].1);
      k := k + 1;
    }
    assert secs[..k] == secs;
  }

  /** The hadith loop of one callback (:155-163). */
  method ApplyHadiths(m0: BookMap, hs: seq<ApiHadith>) returns (m: BookMap)
    ensures m == HadithsFold(m0, hs)
  {
    m := m0;
    var k := 0;
    while k < |hs|
      invariant 0 <= k <= |hs|
      invariant m == HadithsFold(m0, hs[..k])
    {
      assert hs[..k + 1][..k] == hs[..k];
      var h := hs[k];
      if h.referenceBook.Some? && h.referenceBook.value != 0 {
        var bookNum := h.referenceBook.value;
        if bookNum in m.entries && h.hadithnumber.Some? && h.hadithnumber.value != 0 {
          var e := m.entries[bookNum];
          m := MapSet(m, bookNum, BookEntry(e.name, e.hadithNumbers + {h.hadithnumber.value}));
        }
      }
      k := k + 1;
    }
    assert hs[..k] == hs;
  }

  /** `{ bookNumber: k.toString(), bookName: info.name, hadithCount: info.hadithNumbers.size || 0 }`. */
  function BookOfKey(k: int, entries: map<int, BookEntry>): HadithBook
    requires k in entries
  {
    HadithBook(IntToString(k), entries[k].name, |entries[k].hadithNumbers|)
  }

  /** The books of the conversion loop (:183-189), one per key in iteration order. */
  function BooksOf(keys: seq<int>, entries: map<int, BookEntry>): (books: seq<HadithBook>)
    requires forall k :: k in keys ==> k in entries
    ensures |books| == |keys|
    ensures forall i :: 0 <= i < |keys| ==> books[i] == BookOfKey(keys[i], entries)
    decreases |keys|
  {
    if keys == [] then []
    else
      var k := keys[|keys| - 1];
      PrefixKeysIn(keys, entries);
      var before := BooksOf(keys[..|keys| - 1], entries);
      BooksSnoc(keys, entries, before);
      before + [BookOfKey(k, entries)]
  }

  lemma {:induction false} PrefixKeysIn(keys: seq<int>, entries: map<int, BookEntry>)
    requires keys != [] && forall k :: k in keys ==> k in entries
    ensures forall k :: k in keys[..|keys| - 1] ==> k in entries
  {
    forall k | k in keys[..|keys| - 1] ensures k in entries {
      var i :| 0 <= i < |keys| - 1 && keys[..|keys| - 1][i] == k;
      assert keys[i] == k;
    }
  }

  lemma {:induction false} BooksSnoc(keys: seq<int>, entries: map<int, BookEntry>, before: seq<HadithBook>)
    requires keys != [] && forall k :: k in keys ==> k in entries
    requires |before| == |keys| - 1
    requires forall i :: 0 <= i < |keys| - 1 ==> before[i] == BookOfKey(keys[i], entries)
    ensures var r := before + [BookOfKey(keys[|keys| - 1], entries)];
      |r| == |keys| && forall i :: 0 <= i < |keys| ==> r[i] == BookOfKey(keys[i], entries)
  {
  }

  /** `bookMap.forEach(…)`: one book per entry, numbered by its key. */
  method ConvertMap(m: BookMap) returns (books: seq<HadithBook>)
    requires ValidMap(m)
    ensures books == BooksOf(m.keys, m.entries)
  {
    books := [];
    var k := 0;
    while k < |m.keys|
      invariant 0 <= k <= |m.keys|
      invariant books == BooksOf(m.keys[..k], m.entries)
    {
      assert m.keys[..k + 1][..k] == m.keys[..k];
      var key := m.keys[k];
      var e := m.entries[key];
      books := books + [HadithBook(IntToString(key), e.name, |e.hadithNumbers|)];
      k := k + 1;
    }
    assert m.keys[..k] == m.keys;
  }

  /** The sort key `parseInt(b.bookNumber)` (:214). */
  function BookKey(b: HadithBook): int {
    ParseInt(b.bookNumber).GetOr(0)
  }

  predicate BookLe(a: HadithBook, b: HadithBook) {
    BookKey(a) <= BookKey(b)
  }

  lemma {:induction false} BookLeIsTotalPreorder()
    ensures TotalPreorder(BookLe)
  {
  }

  /** The book number is the decimal text of the sort key. */
  predicate KeyedBooks(books: seq<HadithBook>) {
    forall i :: 0 <= i < |books| ==> KeyedBook(books[i])
  }

  predicate KeyedBook(b: HadithBook) {
    b.bookNumber == IntToString(BookKey(b))
  }

  /** No two books share a number. */
  predicate DistinctNumbers(books: seq<HadithBook>) {
    forall i, j :: 0 <= i < j < |books| ==> books[i].bookNumber != books[j].bookNumber
  }

  /** The books of a valid map are keyed by their map keys and distinct. */
  lemma {:induction false} BooksOfKeyed(m: BookMap)
    requires ValidMap(m)
    ensures KeyedBooks(BooksOf(m.keys, m.entries)) && DistinctNumbers(BooksOf(m.keys, m.entries))
  {
    var books := BooksOf(m.keys, m.entries);
    forall i | 0 <= i < |books| ensures KeyedBook(books[i]) {
      ParseIntOfIntToString(m.keys[i]);
    }
    forall i, j | 0 <= i < j < |books| ensures books[i].bookNumber != books[j].bookNumber {
      ParseIntOfIntToString(m.keys[i]);
      ParseIntOfIntToString(m.keys[j]);
    }
  }

  /** Rearranging keyed, distinct books keeps them so. */
  lemma {:induction false} KeyedPermutation(a: seq<HadithBook>, b: seq<HadithBook>)
    requires multiset(a) == multiset(b) && KeyedBooks(a) && DistinctNumbers(a)
    ensures KeyedBooks(b) && DistinctNumbers(b)
  {
    KeyedKept(a, b);
    DistinctKept(a, b);
  }

  lemma {:induction false} KeyedKept(a: seq<HadithBook>, b: seq<HadithBook>)
    requires multiset(a) == multiset(b) && KeyedBooks(a)
    ensures KeyedBooks(b)
  {
    forall i | 0 <= i < |b| ensures KeyedBook(b[i]) {
      assert b[i] in multiset(a);
      var j :| 0 <= j < |a| && a[j] == b[i];
    }
  }

  lemma {:induction false} DistinctKept(a: seq<HadithBook>, b: seq<HadithBook>)
    requires multiset(a) == multiset(b) && DistinctNumbers(a)
    ensures DistinctNumbers(b)
  {
    assert NoDuplicates(a);
    PermutationKeepsNoDuplicates(a, b);
    forall i, j | 0 <= i < j < |b| ensures b[i].bookNumber != b[j].bookNumber {
      assert b[i] in multiset(a) && b[j] in multiset(a);
      var i' :| 0 <= i' < |a| && a[i'] == b[i];
      var j' :| 0 <= j' < |a| && a[j'] == b[j];
    }
  }

  /** Sorted books with distinct numbers come in strictly increasing order of number. */
  lemma {:induction false} StrictlyIncreasing(books: seq<HadithBook>)
    requires SortedBy(books, BookLe) && KeyedBooks(books) && DistinctNumbers(books)
    ensures forall i, j :: 0 <= i < j < |books| ==> BookKey(books[i]) < BookKey(books[j])
  {
    forall i, j | 0 <= i < j < |books| ensures BookKey(books[i]) < BookKey(books[j]) {
      assert BookLe(books[i], books[j]);
      assert books[i].bookNumber != books[j].bookNumber;
    }
  }

  /** Some book has the number `i`. */
  predicate HasBook(books: seq<HadithBook>, i: int) {
    exists k :: 0 <= k < |books| && books[k].bookNumber == IntToString(i)
  }

  /** The reply of `fetchBooks(collectionId)` (:94-221), given the sample responses whose callbacks
      ran before the conversion. Returns the sampled hadith numbers and the sorted books. */
  method FetchBooks(collectionId: string, samples: seq<SampleResponse>)
    returns (books: seq<HadithBook>, indices: seq<int>)
    ensures var m := SamplesFold(Placeholders(BookCount(collectionId)), samples);
      multiset(books) == multiset(BooksOf(m.keys, m.entries))
    ensures SortedBy(books, BookLe) && KeyedBooks(books) && DistinctNumbers(books)
    ensures forall i :: 1 <= i <= BookCount(collectionId) ==> HasBook(books, i)
    ensures |indices| == SampleSize(BookCount(collectionId))
    ensures forall k :: 0 <= k < |indices| ==> 1 <= indices[k] <= 1000
  {
    var bookCount := BookCount(collectionId);
    var m := AddPlaceholders(bookCount);
    indices := SampleIndices(bookCount);
    m := ApplySamples(m, samples);
    var unsorted := ConvertMap(m);
    BookLeIsTotalPreorder();
    books := SortBy(unsorted, BookLe);
    SortedBooks(bookCount, samples, books);
  }

  /** The callbacks of the sample responses, in the order they ran (:129-173). */
  method ApplySamples(m0: BookMap, samples: seq<SampleResponse>) returns (m: BookMap)
    ensures m == SamplesFold(m0, samples)
  {
    m := m0;
    var k := 0;
    while k < |samples|
      invariant 0 <= k <= |samples|
      invariant m == SamplesFold(m0, samples[..k])
    {
      assert samples[..k + 1][..k] == samples[..k];
      m := ApplySections(m, samples[k].sections);
      m := ApplyHadiths(m, samples[k].hadiths);
      k := k + 1;
    }
    assert samples[..k] == samples;
  }

  /** Any arrangement of the converted books is keyed, has distinct numbers, and has the books 1 to
      `n`. */
  lemma {:induction false} SortedBooks(n: nat, samples: seq<SampleResponse>, books: seq<HadithBook>)
    requires var m := SamplesFold(Placeholders(n), samples);
      multiset(books) == multiset(BooksOf(m.keys, m.entries))
    ensures KeyedBooks(books) && DistinctNumbers(books)
    ensures forall i :: 1 <= i <= n ==> HasBook(books, i)
  {
    var m := SamplesFold(Placeholders(n), samples);
    PlaceholderBooksKept(n, samples);
    ArrangedBooks(m, n, books);
  }

  /** The same for any valid map whose first `n` keys are 1 to `n`. */
  lemma {:induction false} ArrangedBooks(m: BookMap, n: nat, books: seq<HadithBook>)
    requires ValidMap(m) && |m.keys| >= n && forall i :: 0 <= i < n ==> m.keys[i] == i + 1
    requires multiset(books) == multiset(BooksOf(m.keys, m.entries))
    ensures KeyedBooks(books) && DistinctNumbers(books)
    ensures forall i :: 1 <= i <= n ==> HasBook(books, i)
  {
    var unsorted := BooksOf(m.keys, m.entries);
    BooksOfKeyed(m);
    KeyedPermutation(unsorted, books);
    ArrangedHasBooks(m, n, books);
  }

  lemma {:induction false} ArrangedHasBooks(m: BookMap, n: nat, books: seq<HadithBook>)
    requires ValidMap(m) && |m.keys| >= n && forall i :: 0 <= i < n ==> m.keys[i] == i + 1
    requires multiset(books) == multiset(BooksOf(m.keys, m.entries))
    ensures forall i :: 1 <= i <= n ==> HasBook(books, i)
  {
    var unsorted := BooksOf(m.keys, m.entries);
    forall i | 1 <= i <= n ensures HasBook(books, i) {
      assert m.keys[i - 1] == i;
      BookNumberAt(m.keys, m.entries, i - 1);
      PermutedHasBook(unsorted, books, i - 1, i);
    }
  }

  lemma {:induction false} BookNumberAt(keys: seq<int>, entries: map<int, BookEntry>, j: nat)
    requires (forall k :: k in keys ==> k in entries) && j < |keys|
    ensures BooksOf(keys, entries)[j].bookNumber == IntToString(keys[j])
  {
    assert BooksOf(keys, entries)[j] == BookOfKey(keys[j], entries);
  }

  lemma {:induction false} PermutedHasBook(a: seq<HadithBook>, b: seq<HadithBook>, j: nat, i: int)
    requires multiset(a) == multiset(b) && j < |a| && a[j].bookNumber == IntToString(i)
    ensures HasBook(b, i)
  {
    assert a[j] in multiset(b);
    var k :| 0 <= k < |b| && b[k] == a[j];
  }

  /** The placeholder books stay first in the map's order whatever the samples add. */
  lemma {:induction false} PlaceholderBooksKept(n: nat, samples: seq<SampleResponse>)
    ensures var m := SamplesFold(Placeholders(n), samples);
      |m.keys| >= n && forall i :: 0 <= i < n ==> m.keys[i] == i + 1
  {
    PlaceholdersShape(n);
    var p := Placeholders(n);
    var m := SamplesFold(p, samples);
    forall i | 0 <= i < n ensures m.keys[i] == i + 1 {
      assert m.keys[i] == m.keys[..|p.keys|][i];
    }
  }

  /** The books of the fallback branch (:192-211): books 1 to `count` with placeholder names and no
      hadiths. The conversion always yields at least `BookCount(collectionId)` books, so this branch
      is never taken. */
  function FallbackBooks(count: int): (books: seq<HadithBook>)
    ensures |books| == if count > 0 then count else 0
    ensures forall i :: 0 <= i < |books| ==> books[i] == HadithBook(IntToString(i + 1), PlaceholderName(i + 1), 0)
    decreases if count > 0 then count else 0
  {
    if count <= 0 then [] else FallbackBooks(count - 1) + [HadithBook(IntToString(count), PlaceholderName(count), 0)]
  }

  /** The fallback list is what the placeholder map alone converts to. */
  lemma {:induction false} FallbackIsPlaceholderBooks(n: nat)
    ensures BooksOf(Placeholders(n).keys, Placeholders(n).entries) == FallbackBooks(n)
  {
    PlaceholdersShape(n);
    var m := Placeholders(n);
    var a, b := BooksOf(m.keys, m.entries), FallbackBooks(n);
    forall i | 0 <= i < n ensures a[i] == b[i] {
      assert m.keys[i] == i + 1 && HoldsPlaceholder(m, i + 1);
      PlaceholderBookAt(m, n, i);
    }
    assert |a| == |b| == n;
  }

  lemma {:induction false} PlaceholderBookAt(m: BookMap, n: nat, i: nat)
    requires (forall k :: k in m.keys ==> k in m.entries) && |m.keys| == n
    requires i < n && m.keys[i] == i + 1 && HoldsPlaceholder(m, i + 1)
    ensures BooksOf(m.keys, m.entries)[i] == FallbackBooks(n)[i]
  {
    assert BooksOf(m.keys, m.entries)[i] == BookOfKey(i + 1, m.entries);
    PlaceholderBook(m, i + 1);
  }

  lemma {:induction false} PlaceholderBook(m: BookMap, i: int)
    requires HoldsPlaceholder(m, i)
    ensures BookOfKey(i, m.entries) == HadithBook(IntToString(i), PlaceholderName(i), 0)
  {
  }

  /** Every listed collection counts at least 25 books, so 50 hadiths are sampled, 20 apart. */
  lemma {:induction false} SampleOfEveryCollection(collectionId: string)
    ensures SampleSize(BookCount(collectionId)) == 50
    ensures SampleInterval(50) == 20
  {
  }
}
