/** The Quran service (src/services/quranService.ts): which surah data is returned for a request,
    the offline fallbacks, the audio URLs built for Sheikh as-Sudais, and the field-for-field
    mappings of the API's ayah arrays. Every network reply is an input: `None` stands for a request
    that failed, timed out or answered with an error status. */
module QuranService {
  import opened Optional
  import opened Text
  import opened Seqs

  const ApiBase: string := "https://api.alquran.cloud/v1"

  /** `reciterBaseUrls["ar.sudais"]` (:90-92). */
  const SudaisBase: string := "https://verses.quran.com/Sudais/mp3"

  /** An ayah as the pages use it; `audio` is `None` where the API sent none. */
  datatype Ayah = Ayah(number: int, text: string, audio: Option<string>)

  /** A surah with its ayahs. `number` is `None` for `NaN`, which only the offline fallback produces
      (from an identifier that is not a number). */
  datatype SurahData = SurahData(
    number: Option<int>, name: string, englishName: string, englishNameTranslation: string, ayahs: seq<Ayah>)

  /** The data returned, and the URL requested on the way (`None` when nothing was requested). */
  datatype SurahReply = SurahReply(data: SurahData, request: Option<string>)

  // ---------------------------------------------------------------------------------------------
  // fetchSurahByIdWithTranslation (:30-76)

  /** `Number(s)` for the strings the routes pass: white space around an optional sign and decimal
      digits; the empty string is 0 and anything else is `NaN` (`None`). */
  function JsNumber(s: string): (r: Option<int>)
    ensures Trim(s) == [] ==> r == Some(0)
  {
    NumberOfTrimmed(Trim(s))
  }

  /** `Number` after the white space is trimmed away. */
  function NumberOfTrimmed(t: string): Option<int> {
    if t == [] then Some(0)
    else
      var negative := t[0] == '-';
      var u := if t[0] == '-' || t[0] == '+' then t[1..] else t;
      if u != [] && DigitPrefixLength(u) == |u| then
        var v: int := DigitsValue(u);
        Some(if negative then -v else v)
      else None
  }

  /** A string of digits is read as its value. */
  lemma {:induction false} JsNumberOfDigits(d: string)
    requires d != [] && forall k :: 0 <= k < |d| ==> IsDigit(d[k])
    ensures JsNumber(d) == Some(DigitsValue(d) as int)
  {
    assert IsDigit(d[0]) && IsDigit(d[|d| - 1]);
    TrimOfTrimmed(d);
    DigitPrefixOfDigits(d);
    assert NumberOfTrimmed(d) == Some(DigitsValue(d) as int);
  }

  /** `"-"` and a string of digits is read as the negated value. */
  lemma {:induction false} JsNumberOfNegative(d: string)
    requires d != [] && forall k :: 0 <= k < |d| ==> IsDigit(d[k])
    ensures JsNumber("-" + d) == Some(-(DigitsValue(d) as int))
  {
    var s := [('-' as char)] + d;
    assert s[0] == '-' && s[1..] == d;
    assert !IsSpace(s[0]);
    assert s[|s| - 1] == d[|d| - 1] && IsDigit(d[|d| - 1]);
    TrimOfTrimmed(s);
    DigitPrefixOfDigits(d);
    NegativeDigits(s, d);
  }

  lemma {:induction false} NegativeDigits(s: string, d: string)
    requires d != [] && forall k :: 0 <= k < |d| ==> IsDigit(d[k])
    requires |s| == |d| + 1 && s[0] == '-' && s[1..] == d
    requires DigitPrefixLength(d) == |d|
    ensures NumberOfTrimmed(s) == Some(-(DigitsValue(d) as int))
  {
  }

  /** `Number(String(i)) == i`. */
  lemma {:induction false} JsNumberOfIntToString(i: int)
    ensures JsNumber(IntToString(i)) == Some(i)
  {
    var n: nat := if i < 0 then -i else i;
    DigitsValueOfNatToString(n);
    if i < 0 {
      JsNumberOfNegative(NatToString(n));
    } else {
      JsNumberOfDigits(NatToString(n));
    }
  }

  const OfflineText: string := "Could not load text. Please check internet connection."

  /** The five placeholder ayahs of the generic fallback (:69-73). */
  function OfflineAyahs(): (ayahs: seq<Ayah>)
    ensures |ayahs| == 5
    ensures forall i :: 0 <= i < 5 ==> ayahs[i] == Ayah(i + 1, OfflineText, Some(""))
  {
    seq(5, i => Ayah(i + 1, OfflineText, Some("")))
  }

  /** The generic fallback (:64-74) for surah `id`. */
  function OfflineSurah(id: string): (d: SurahData)
    ensures d.number == JsNumber(id)
    ensures d.englishName == "Surah " + id
    ensures |d.ayahs| == 5 && forall i :: 0 <= i < 5 ==> d.ayahs[i].number == i + 1 && d.ayahs[i].audio == Some("")
  {
    SurahData(JsNumber(id), "Offline Scemario", "Surah " + id, "Content Unavailable", OfflineAyahs())
  }

  /** `fetchSurahByIdWithTranslation(id, translation)`. `bundled` is the surah bundled with the
      application (surah 1 in Arabic, not part of this model); `response` is the `data` of the reply
      to the request, when it arrived. */
  function FetchSurahByIdWithTranslation(id: string, translation: string, bundled: SurahData,
                                         response: Option<SurahData>)
    : (r: SurahReply)
    ensures id == "1" && translation == "ar" ==> r == SurahReply(bundled, None)
    ensures !(id == "1" && translation == "ar") ==>
      && r.request == Some(ApiBase + "/surah/" + id + "/" + translation)
      && r.data == match response
        case Some(d) => d
        case None => if id == "1" then bundled else OfflineSurah(id)
  {
    if id == "1" && translation == "ar" then SurahReply(bundled, None)
    else
      var request := Some(ApiBase + "/surah/" + id + "/" + translation);
      match response
      case Some(d) => SurahReply(d, request)
      case None => SurahReply(if id == "1" then bundled else OfflineSurah(id), request)
  }

  /** Whatever the network does, a request for surah 1 yields the bundled data or the reply; a
      failed request for any other surah yields five placeholder ayahs under its name. */
  lemma {:induction false} OfflineRequests(id: string, translation: string, bundled: SurahData)
    ensures id == "1" ==> FetchSurahByIdWithTranslation(id, translation, bundled, None).data == bundled
    ensures id != "1" ==> var d := FetchSurahByIdWithTranslation(id, translation, bundled, None).data;
      d.englishName == "Surah " + id && |d.ayahs| == 5
  {
  }

  // ---------------------------------------------------------------------------------------------
  // fetchSurahAudio (:108-171)

  /** `String(n).padStart(3, "0")`. */
  function Pad3(n: int): (s: string)
    ensures 0 <= n < 1000 ==> |s| == 3 && (forall k :: 0 <= k < 3 ==> IsDigit(s[k])) && DigitsValue(s) == n
  {
    var s := PadStart(IntToString(n), 3, '0');
    if 0 <= n < 1000 then
      PaddedDigits(n);
      s
    else s
  }

  lemma {:induction false} PaddedDigits(n: nat)
    requires n < 1000
    ensures var s := PadStart(IntToString(n), 3, '0');
      |s| == 3 && (forall k :: 0 <= k < 3 ==> IsDigit(s[k])) && DigitsValue(s) == n
  {
    var d := NatToString(n);
    var s := PadStart(d, 3, '0');
    DigitsValueOfNatToString(n);
    var z := s[..3 - |d|];
    LeadingZeros(z, d);
    assert s == z + d;
  }

  /** Zeros in front do not change the value of a string of digits. */
  lemma {:induction false} LeadingZeros(z: string, d: string)
    requires forall k :: 0 <= k < |z| ==> z[k] == '0'
    requires forall k :: 0 <= k < |d| ==> IsDigit(d[k])
    ensures forall k :: 0 <= k < |z + d| ==> IsDigit((z + d)[k])
    ensures DigitsValue(z + d) == DigitsValue(d)
    decreases |d|
  {
    if d == [] {
      assert z + d == z;
      AllZeros(z);
    } else {
      var d' := d[..|d| - 1];
      assert (z + d)[..|z + d| - 1] == z + d';
      LeadingZeros(z, d');
    }
  }

  lemma {:induction false} AllZeros(z: string)
    requires forall k :: 0 <= k < |z| ==> z[k] == '0'
    ensures DigitsValue(z) == 0
    decreases |z|
  {
    if z != [] {
      AllZeros(z[..|z| - 1]);
    }
  }

  /** The file name of ayah `a` of surah `s` (:123-126), as in `001001.mp3`. */
  function SudaisFileName(s: int, a: int): string {
    Pad3(s) + Pad3(a) + ".mp3"
  }

  /** For surah and ayah numbers below 1000 the file name has ten characters and reads back as the
      two numbers. */
  lemma {:induction false} SudaisFileNameRoundTrip(s: int, a: int)
    requires 0 <= s < 1000 && 0 <= a < 1000
    ensures var f := SudaisFileName(s, a);
      && |f| == 10
      && f[..3] == Pad3(s) && DigitsValue(f[..3]) == s
      && f[3..6] == Pad3(a) && DigitsValue(f[3..6]) == a
      && f[6..] == ".mp3"
  {
    ThreePlusThree(Pad3(s), Pad3(a), ".mp3");
  }

  lemma {:induction false} ThreePlusThree(x: string, y: string, z: string)
    requires |x| == 3 && |y| == 3
    ensures var f := x + y + z; |f| == 6 + |z| && f[..3] == x && f[3..6] == y && f[6..] == z
  {
  }

  function SudaisUrl(s: int, a: int): string {
    SudaisBase + "/" + SudaisFileName(s, a)
  }

  /** Different ayahs of surahs below 1000 get different URLs. */
  lemma {:induction false} SudaisUrlsDistinct(s: int, a: int, s': int, a': int)
    requires 0 <= s < 1000 && 0 <= a < 1000 && 0 <= s' < 1000 && 0 <= a' < 1000
    requires (s, a) != (s', a')
    ensures SudaisUrl(s, a) != SudaisUrl(s', a')
  {
    SudaisFileNameRoundTrip(s, a);
    SudaisFileNameRoundTrip(s', a');
    var prefix := SudaisBase + "/";
    assert SudaisUrl(s, a)[|prefix|..] == SudaisFileName(s, a);
    assert SudaisUrl(s', a')[|prefix|..] == SudaisFileName(s', a');
  }

  /** An ayah of the `/surah/{n}/ar` reply. */
  datatype ArabicAyah = ArabicAyah(numberInSurah: int, text: string)

  datatype ArabicSurah = ArabicSurah(number: int, ayahs: seq<ArabicAyah>)

  /** The Sudais audio list (:121-133): one entry per ayah of the metadata, in order. */
  function SudaisAyahs(meta: ArabicSurah): (r: seq<Ayah>)
    ensures |r| == |meta.ayahs|
    ensures forall k :: 0 <= k < |r| ==> r[k].number == meta.ayahs[k].numberInSurah && r[k].text == meta.ayahs[k].text
    ensures forall k :: 0 <= k < |r| ==> r[k].audio == Some(SudaisUrl(meta.number, meta.ayahs[k].numberInSurah))
  {
    Map(meta.ayahs, (raw: ArabicAyah) => Ayah(raw.numberInSurah, raw.text, Some(SudaisUrl(meta.number, raw.numberInSurah))))
  }

  /** The Sudais list when the metadata request failed (:134-146): the seven ayahs of al-Fatiha for
      surah `"1"`, nothing otherwise. */
  function SudaisFallback(surahNumber: string): (r: seq<Ayah>)
    ensures surahNumber != "1" ==> r == []
    ensures surahNumber == "1" ==> |r| == 7
  {
    if surahNumber == "1" then
      seq(7, i => Ayah(i + 1, "", Some("https://verses.quran.com/Sudais/mp3/001" + Pad3(i + 1) + ".mp3")))
    else []
  }

  lemma {:induction false} FallbackPrefix()
    ensures "https://verses.quran.com/Sudais/mp3/001" == SudaisBase + "/" + Pad3(1)
  {
    assert Pad3(1) == "001";
  }

  /** The fallback entries are numbered 1 to 7 and carry the URLs the metadata path builds for
      surah 1. */
  lemma {:induction false} SudaisFallbackAgrees()
    ensures forall i :: 0 <= i < 7 ==> SudaisFallback("1")[i] == Ayah(i + 1, "", Some(SudaisUrl(1, i + 1)))
  {
    FallbackPrefix();
    var prefix := "https://verses.quran.com/Sudais/mp3/001";
    forall i | 0 <= i < 7 ensures SudaisFallback("1")[i] == Ayah(i + 1, "", Some(SudaisUrl(1, i + 1))) {
      assert prefix + Pad3(i + 1) + ".mp3" == SudaisBase + "/" + (Pad3(1) + Pad3(i + 1) + ".mp3");
    }
  }

  /** An ayah of the `/surah/{n}/{reciter}` reply. */
  datatype ApiAyah = ApiAyah(numberInSurah: int, text: string, audio: string)

  /** The mapping of the other reciters' reply (:161-165). */
  function ReciterAyahs(apiAyahs: seq<ApiAyah>): (r: seq<Ayah>)
    ensures |r| == |apiAyahs|
    ensures forall k :: 0 <= k < |r| ==> r[k] == Ayah(apiAyahs[k].numberInSurah, apiAyahs[k].text, Some(apiAyahs[k].audio))
  {
    Map(apiAyahs, (a: ApiAyah) => Ayah(a.numberInSurah, a.text, Some(a.audio)))
  }

  /** `fetchSurahAudio(surahNumber, reciter)`. `meta` is the reply of the Arabic metadata request
      (sent for Sudais) and `audio` that of the reciter request (sent for every other reciter). */
  function FetchSurahAudio(surahNumber: string, reciter: string, meta: Option<ArabicSurah>,
                           audio: Option<seq<ApiAyah>>)
    : (r: seq<Ayah>)
    ensures reciter == "ar.sudais" && meta.Some? ==> r == SudaisAyahs(meta.value)
    ensures reciter == "ar.sudais" && meta.None? ==> r == SudaisFallback(surahNumber)
    ensures reciter != "ar.sudais" && audio.Some? ==> r == ReciterAyahs(audio.value)
    ensures reciter != "ar.sudais" && audio.None? ==> r == []
  {
    if reciter == "ar.sudais" then
      match meta
      case Some(m) => SudaisAyahs(m)
      case None => SudaisFallback(surahNumber)
    else
      match audio
      case Some(ayahs) => ReciterAyahs(ayahs)
      case None => []
  }

  /** The audio of every entry of a Sudais reply for a surah below 1000 is distinct exactly when the
      ayah numbers are. */
  lemma {:induction false} SudaisAudioDistinct(meta: ArabicSurah, j: int, k: int)
    requires 0 <= meta.number < 1000
    requires 0 <= j < |meta.ayahs| && 0 <= k < |meta.ayahs|
    requires 0 <= meta.ayahs[j].numberInSurah < 1000 && 0 <= meta.ayahs[k].numberInSurah < 1000
    ensures var r := SudaisAyahs(meta);
      r[j].audio == r[k].audio <==> meta.ayahs[j].numberInSurah == meta.ayahs[k].numberInSurah
  {
    var a, b := meta.ayahs[j].numberInSurah, meta.ayahs[k].numberInSurah;
    if a != b {
      SudaisUrlsDistinct(meta.number, a, meta.number, b);
    }
  }

  // ---------------------------------------------------------------------------------------------
  // fetchPage (:206-220)

  datatype SurahRef = SurahRef(number: int, name: string, englishName: string)

  /** An ayah of the `/page/{n}/{edition}` reply, with the fields the mapping drops. */
  datatype ApiPageAyah = ApiPageAyah(number: int, text: string, numberInSurah: int, surah: SurahRef,
                                     juz: int, page: int)

  datatype PageAyah = PageAyah(number: int, text: string, numberInSurah: int, surah: SurahRef)

  function ToPageAyah(a: ApiPageAyah): PageAyah {
    PageAyah(a.number, a.text, a.numberInSurah, a.surah)
  }

  /** `fetchPage(pageNumber, edition)`: `None` when the request failed, which the caller sees as a
      thrown error; otherwise the ayahs of the page, field for field and in order. */
  function FetchPage(reply: Option<seq<ApiPageAyah>>): (r: Option<seq<PageAyah>>)
    ensures reply.None? <==> r.None?
    ensures reply.Some? ==> |r.value| == |reply.value| && forall k :: 0 <= k < |r.value| ==>
      var a := reply.value[k];
      r.value[k] == PageAyah(a.number, a.text, a.numberInSurah, a.surah)
  {
    match reply
    case Some(ayahs) => Some(Map(ayahs, ToPageAyah))
    case None => None
  }
}
