/** The Mushaf page viewer (src/components/PageView.tsx): the page bounds of its two buttons, the
    image URL of an ayah, and the fetch effect whose `cancelled` flag keeps a reply for an earlier
    page from being applied. */
module PageView {
  import opened Optional
  import opened Text
  import QuranService

  /** `MAX_PAGE`: the pages of the Uthmani Mushaf. */
  const MaxPage := 604

  const ImageBase := "https://cdn.islamic.network/quran/images"

  /** `handlePreviousPage`: the page it moves to. */
  function PreviousPage(page: int): (r: int)
    ensures page > 1 ==> r == page - 1
    ensures page <= 1 ==> r == page
  {
    if page > 1 then page - 1 else page
  }

  /** `handleNextPage`: the page it moves to. */
  function NextPage(page: int): (r: int)
    ensures page < MaxPage ==> r == page + 1
    ensures page >= MaxPage ==> r == page
  {
    if page < MaxPage then page + 1 else page
  }

  /** The `disabled` attributes of the two buttons. */
  predicate PreviousDisabled(page: int) {
    page <= 1
  }

  predicate NextDisabled(page: int) {
    page >= MaxPage
  }

  /** A button changes the page exactly when it is enabled, and from a page in 1..604 both keep
      the page in 1..604. */
  lemma {:induction false} ButtonsMatchGuards(page: int)
    ensures PreviousPage(page) != page <==> !PreviousDisabled(page)
    ensures NextPage(page) != page <==> !NextDisabled(page)
    ensures 1 <= page <= MaxPage ==> 1 <= PreviousPage(page) <= MaxPage && 1 <= NextPage(page) <= MaxPage
  {
  }

  /** From a page in range, next then previous comes back, except on the last page. */
  lemma {:induction false} PreviousUndoesNext(page: int)
    requires 1 <= page < MaxPage
    ensures PreviousPage(NextPage(page)) == page
  {
  }

  /** The file name `${surahNum}_${ayahNum}.png`. */
  function ImageFile(surah: int, ayah: int): string {
    IntToString(surah) + AyahPart(ayah)
  }

  /** `_${ayahNum}.png`. */
  function AyahPart(ayah: int): (r: string)
    ensures r != [] && r[0] == '_' && r[1..] == IntToString(ayah) + ".png"
  {
    ['_'] + (IntToString(ayah) + ".png")
  }

  /** `getAyahImageUrl(surahNum, ayahNum)`. */
  function AyahImageUrl(highQuality: bool, surah: int, ayah: int): (url: string)
    ensures highQuality ==> url == ImageBase + "/high-resolution/" + ImageFile(surah, ayah)
    ensures !highQuality ==> url == ImageBase + "/" + ImageFile(surah, ayah)
  {
    if highQuality then ImageBase + "/high-resolution/" + ImageFile(surah, ayah)
    else ImageBase + "/" + ImageFile(surah, ayah)
  }

  /** The file name gives back the surah and ayah it was built from: `parseInt` of the name reads
      the surah, and of what follows the first `_` reads the ayah. */
  lemma {:induction false} ImageFileRoundTrip(surah: int, ayah: int)
    ensures var f := ImageFile(surah, ayah);
      var i := |IntToString(surah)|;
      && i < |f| && f[i] == '_'
      && ParseInt(f) == Some(surah)
      && ParseInt(f[i + 1..]) == Some(ayah)
  {
    SurahOfImageFile(surah, ayah);
    AyahOfImageFile(surah, ayah);
  }

  lemma {:induction false} SurahOfImageFile(surah: int, ayah: int)
    ensures var f := ImageFile(surah, ayah);
      var i := |IntToString(surah)|;
      i < |f| && f[i] == '_' && ParseInt(f) == Some(surah)
  {
    var t := AyahPart(ayah);
    assert !IsDigit(t[0]);
    ParseIntOfIntToStringThen(surah, t);
  }

  lemma {:induction false} AyahOfImageFile(surah: int, ayah: int)
    ensures var i := |IntToString(surah)|;
      i < |ImageFile(surah, ayah)| && ParseInt(ImageFile(surah, ayah)[i + 1..]) == Some(ayah)
  {
    var s, t := IntToString(surah), AyahPart(ayah);
    assert (s + t)[|s| + 1..] == t[1..];
    ParseIntOfIntToStringThen(ayah, ".png");
  }

  /** Different ayahs get different file names. */
  lemma {:induction false} ImageFilesDistinct(s1: int, a1: int, s2: int, a2: int)
    requires (s1, a1) != (s2, a2)
    ensures ImageFile(s1, a1) != ImageFile(s2, a2)
  {
    ImageFileRoundTrip(s1, a1);
    ImageFileRoundTrip(s2, a2);
  }

  lemma {:induction false} PrefixCancels(p: string, a: string, b: string)
    requires p + a == p + b
    ensures a == b
  {
    assert a == (p + a)[|p|..];
    assert b == (p + b)[|p|..];
  }

  /** Different ayahs get different images. */
  lemma {:induction false} ImageUrlsDistinct(highQuality: bool, s1: int, a1: int, s2: int, a2: int)
    requires (s1, a1) != (s2, a2)
    ensures AyahImageUrl(highQuality, s1, a1) != AyahImageUrl(highQuality, s2, a2)
  {
    var prefix := if highQuality then ImageBase + "/high-resolution/" else ImageBase + "/";
    ImageFilesDistinct(s1, a1, s2, a2);
    if AyahImageUrl(highQuality, s1, a1) == AyahImageUrl(highQuality, s2, a2) {
      PrefixCancels(prefix, ImageFile(s1, a1), ImageFile(s2, a2));
    }
  }

  /** The outcome of `fetchPage(page, "quran-uthmani")`: the ayahs, or the message it failed with. */
  datatype PageReply = Loaded(ayahs: seq<QuranService.PageAyah>) | Failed(message: string)

  /** The component's state. Every run of the fetch effect is one entry of `requests` (the page it
      asked for); the cleanup of a run sets its `cancelled` flag, so only the reply to the last
      request is applied. `shown` is the page the displayed ayahs were fetched for. */
  class PageViewer {
    var page: int
    var ayahs: seq<QuranService.PageAyah>
    var loading: bool
    var error: Option<string>
    var requests: seq<int>
    var shown: Option<int>
    const highQuality: bool

    /** The last request is for the current page, and once loaded without error the ayahs are
        those of the current page; a run still loading has no error. */
    ghost predicate Valid()
      reads this
    {
      && |requests| > 0
      && requests[|requests| - 1] == page
      && (loading ==> error.None?)
      && (!loading && error.None? ==> shown == Some(page))
    }

    /** Mounting: `initialPage = 1` and `isHighQuality = false` by default, then the first run of
        the effect. */
    constructor(initialPage: Option<int>, isHighQuality: Option<bool>)
      ensures Valid()
      ensures page == initialPage.GetOr(1) && highQuality == isHighQuality.GetOr(false)
      ensures requests == [page] && loading && error.None? && ayahs == [] && shown.None?
    {
      page := initialPage.GetOr(1);
      highQuality := isHighQuality.GetOr(false);
      ayahs := [];
      shown := None;
      requests := [initialPage.GetOr(1)];
      loading := true;
      error := None;
    }

    /** The effect run after `page` changed: the previous run is cancelled, loading starts. */
    method RunEffect()
      modifies this
      requires |requests| > 0
      ensures requests == old(requests) + [page] && loading && error.None?
      ensures page == old(page) && ayahs == old(ayahs) && shown == old(shown)
      ensures Valid()
    {
      requests := requests + [page];
      loading := true;
      error := None;
    }

    /** The previous-page button: the page moves only when it is above 1, and only then does the
        effect run again. */
    method HandlePreviousPage()
      modifies this
      requires Valid()
      ensures Valid()
      ensures page == PreviousPage(old(page))
      ensures page == old(page) ==> unchanged(this)
      ensures page != old(page) ==> requests == old(requests) + [page] && loading && error.None? && ayahs == old(ayahs)
    {
      if page > 1 {
        page := page - 1;
        RunEffect();
      }
    }

    method HandleNextPage()
      modifies this
      requires Valid()
      ensures Valid()
      ensures page == NextPage(old(page))
      ensures page == old(page) ==> unchanged(this)
      ensures page != old(page) ==> requests == old(requests) + [page] && loading && error.None? && ayahs == old(ayahs)
    {
      if page < MaxPage {
        page := page + 1;
        RunEffect();
      }
    }

    /** The reply to request `k` arrives: applied only when that run was not cancelled, that is
        when it is the last; a success sets the ayahs, a failure the message. */
    method Deliver(k: nat, reply: PageReply)
      modifies this
      requires Valid()
      ensures Valid()
      ensures k + 1 != |old(requests)| ==> unchanged(this)
      ensures k + 1 == |old(requests)| ==> !loading && page == old(page) && requests == old(requests)
      ensures k + 1 == |old(requests)| && reply.Loaded? ==> ayahs == reply.ayahs && error == old(error) && shown == Some(page)
      ensures k + 1 == |old(requests)| && reply.Failed? ==> ayahs == old(ayahs) && error == Some(reply.message)
    {
      if k + 1 == |requests| {
        match reply
        case Loaded(data) =>
          ayahs := data;
          shown := Some(requests[k]);
          loading := false;
        case Failed(message) =>
          error := Some(message);
          loading := false;
      }
    }
  }
}
