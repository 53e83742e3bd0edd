/** The tafseer service: the table of commentary sources, lookups in it, the clean-up applied to the
    HTML text the Quran.com API returns, and the filtering of settled requests. The HTTP request itself
    is an input: `fetchTafseerForAyah` is modelled on the text the API returned, if any. */
module QuranTafseer {
  import opened Optional
  import opened Text
  import opened Seqs

  datatype TafseerSource = TafseerSource(
    identifier: string, name: string, language: string, author: string, englishName: string,
    description: Option<string>, apiId: int)

  datatype TafseerAyah = TafseerAyah(surah: int, ayah: int, text: string, source: string, language: string)

  datatype TafseerResponse = TafseerResponse(ayah: TafseerAyah, source: TafseerSource, success: bool)

  /** `AVAILABLE_TAFSEER_SOURCES` (:32-88). */
  const AvailableSources: seq<TafseerSource> := [
    TafseerSource("en.ibnkathir", "Ibn Kathir (Abridged)", "en", "Hafiz Ibn Kathir", "Ibn Kathir (English)",
                  Some("Classical Sunni tafsir by the renowned 14th-century scholar - Complete version"), 169),
    TafseerSource("bn.ibnkathir", "তাফসীর ইবনে কাসীর", "bn", "হাফিজ ইবনে কাসীর", "Tafseer ibn Kathir (Bengali)",
                  Some("Classical Sunni tafsir by the renowned 14th-century scholar in Bengali"), 164),
    TafseerSource("ar.ibnkathir", "تفسير ابن كثير", "ar", "الحافظ ابن كثير", "Tafsir Ibn Kathir (Arabic)",
                  Some("Original Arabic tafsir by Ibn Kathir"), 14),
    TafseerSource("bn.ahsanulbayaan", "তাফসীর আহসানুল বায়ান", "bn", "বায়ান ফাউন্ডেশন", "Tafsir Ahsanul Bayaan (Bengali)",
                  Some("Modern Bengali tafsir by Bayaan Foundation"), 165),
    TafseerSource("en.maarif", "Ma'arif al-Qur'an", "en", "Mufti Muhammad Shafi", "Ma'arif al-Qur'an (English)",
                  Some("Comprehensive English tafsir by Mufti Muhammad Shafi"), 168),
    TafseerSource("ur.ibnkathir", "تفسیر ابن کثیر", "ur", "حافظ ابن کثیر", "Tafsir Ibn Kathir (Urdu)",
                  Some("Ibn Kathir tafsir in Urdu"), 160)
  ]

  const FallbackSource: string := "en.ibnkathir"

  /** `sources[k]` is the first entry with that identifier. */
  predicate FirstWithIdentifierAt(sources: seq<TafseerSource>, k: int, identifier: string) {
    && 0 <= k < |sources|
    && sources[k].identifier == identifier
    && forall j :: 0 <= j < k ==> sources[j].identifier != identifier
  }

  /** `getTafseerSource(identifier)` (:96-98) over the table `sources`: the first source with that
      identifier, or null. */
  function GetTafseerSource(sources: seq<TafseerSource>, identifier: string): (r: Option<TafseerSource>)
    ensures r.Some? ==> exists k :: FirstWithIdentifierAt(sources, k, identifier) && sources[k] == r.value
    ensures r.None? <==> forall k :: 0 <= k < |sources| ==> sources[k].identifier != identifier
  {
    if sources == [] then None
    else if sources[0].identifier == identifier then
      assert FirstWithIdentifierAt(sources, 0, identifier);
      Some(sources[0])
    else
      var r := GetTafseerSource(sources[1..], identifier);
      assert r.Some? ==> exists k :: FirstWithIdentifierAt(sources, k, identifier) && sources[k] == r.value by {
        if r.Some? {
          var k :| FirstWithIdentifierAt(sources[1..], k, identifier) && sources[1..][k] == r.value;
          assert FirstWithIdentifierAt(sources, k + 1, identifier) by {
            forall j | 0 <= j < k + 1 ensures sources[j].identifier != identifier {
              if j > 0 { assert sources[j] == sources[1..][j - 1]; }
            }
          }
        }
      }
      r
  }

  /** `sources[k]` is the first entry in that language. */
  predicate FirstWithLanguageAt(sources: seq<TafseerSource>, k: int, language: string) {
    && 0 <= k < |sources|
    && sources[k].language == language
    && forall j :: 0 <= j < k ==> sources[j].language != language
  }

  /** `getTafseerSourcesByLanguage(language)` (:179-181). */
  function GetTafseerSourcesByLanguage(sources: seq<TafseerSource>, language: string): (r: seq<TafseerSource>)
    ensures IsSublist(r, sources)
    ensures forall s :: s in r <==> s in sources && s.language == language
    ensures forall s :: multiset(r)[s] == if s.language == language then multiset(sources)[s] else 0
  {
    FilterIsSublist(sources, (s: TafseerSource) => s.language == language);
    FilterCounts(sources, (s: TafseerSource) => s.language == language);
    Filter(sources, (s: TafseerSource) => s.language == language)
  }

  /** The first source in `sources` with that language, if any. */
  function FirstWithLanguage(sources: seq<TafseerSource>, language: string): (r: Option<TafseerSource>)
    ensures r.Some? ==> exists k :: FirstWithLanguageAt(sources, k, language) && sources[k] == r.value
    ensures r.None? <==> forall k :: 0 <= k < |sources| ==> sources[k].language != language
  {
    if sources == [] then None
    else if sources[0].language == language then
      assert FirstWithLanguageAt(sources, 0, language);
      Some(sources[0])
    else
      var r := FirstWithLanguage(sources[1..], language);
      assert r.Some? ==> exists k :: FirstWithLanguageAt(sources, k, language) && sources[k] == r.value by {
        if r.Some? {
          var k :| FirstWithLanguageAt(sources[1..], k, language) && sources[1..][k] == r.value;
          assert FirstWithLanguageAt(sources, k + 1, language) by {
            forall j | 0 <= j < k + 1 ensures sources[j].language != language {
              if j > 0 { assert sources[j] == sources[1..][j - 1]; }
            }
          }
        }
      }
      r
  }

  lemma {:induction false} FilterHeadIsFirst(sources: seq<TafseerSource>, language: string)
    ensures var f := GetTafseerSourcesByLanguage(sources, language);
      var s := FirstWithLanguage(sources, language);
      (f == [] <==> s.None?) && (f != [] ==> s == Some(f[0]))
  {
    if sources != [] {
      FilterHeadIsFirst(sources[1..], language);
    }
  }

  /** The first entry in a language is unique. */
  lemma {:induction false} FirstWithLanguageUnique(sources: seq<TafseerSource>, i: int, k: int, language: string)
    requires FirstWithLanguageAt(sources, i, language) && FirstWithLanguageAt(sources, k, language)
    ensures i == k
  {
  }

  /** `getDefaultTafseerSource(languagePreference)` (:212-218): the identifier of the first source in
      that language, or `"en.ibnkathir"` when the table has none. */
  function GetDefaultTafseerSource(sources: seq<TafseerSource>, languagePreference: string): (r: string)
    ensures (forall k :: 0 <= k < |sources| ==> sources[k].language != languagePreference) ==> r == FallbackSource
    ensures forall k :: FirstWithLanguageAt(sources, k, languagePreference) ==> r == sources[k].identifier
  {
    var candidates := GetTafseerSourcesByLanguage(sources, languagePreference);
    FilterHeadIsFirst(sources, languagePreference);
    var first := FirstWithLanguage(sources, languagePreference);
    forall k | FirstWithLanguageAt(sources, k, languagePreference) ensures first == Some(sources[k]) {
      var i :| FirstWithLanguageAt(sources, i, languagePreference) && sources[i] == first.value;
      FirstWithLanguageUnique(sources, i, k, languagePreference);
    }
    if |candidates| > 0 then candidates[0].identifier else FallbackSource
  }

  /** With the shipped table, English resolves to Ibn Kathir, the first entry. */
  lemma {:induction false} DefaultForEnglish()
    ensures GetDefaultTafseerSource(AvailableSources, "en") == "en.ibnkathir"
  {
    assert FirstWithLanguageAt(AvailableSources, 0, "en");
  }

  /** Bengali resolves to the first Bengali entry, not to the later Ahsanul Bayaan. */
  lemma {:induction false} DefaultForBengali()
    ensures GetDefaultTafseerSource(AvailableSources, "bn") == "bn.ibnkathir"
  {
    assert FirstWithLanguageAt(AvailableSources, 1, "bn");
  }

  // ---------------------------------------------------------------------------------------------
  // formatTafseerText (:199-209)

  /** No `<` of `s` is followed, anywhere later, by a `>`: the pattern `<[^>]*>` has no match. */
  predicate NoTag(s: string) {
    forall i, j :: 0 <= i < j < |s| && s[i] == '<' ==> s[j] != '>'
  }

  /** `replace(/<[^>]*>/g, '')`: from left to right, each `<` that some later `>` closes is dropped
      together with everything up to and including the first such `>`. */
  function StripTags(s: string): (r: string)
    ensures |r| <= |s|
    decreases |s|
  {
    if s == [] then []
    else
      var close := IndexOf(s[1..], '>');
      if s[0] == '<' && close >= 0 then StripTags(s[close + 2..])
      else [s[0]] + StripTags(s[1..])
  }

  /** What tag stripping leaves has no `<…>` span, and every character of it comes from the input. */
  lemma {:induction false} StripTagsResult(s: string)
    ensures NoTag(StripTags(s))
    ensures forall k :: 0 <= k < |StripTags(s)| ==> StripTags(s)[k] in s
    decreases |s|
  {
    if s != [] {
      var close := IndexOf(s[1..], '>');
      if s[0] == '<' && close >= 0 {
        var r := StripTags(s[close + 2..]);
        assert StripTags(s) == r;
        StripTagsResult(s[close + 2..]);
        SuffixElements(s, close + 2, r);
      } else {
        var rest := StripTags(s[1..]);
        assert StripTags(s) == [s[0]] + rest;
        StripTagsResult(s[1..]);
        ConsKeepsNoTag(s, rest);
      }
    }
  }

  lemma {:induction false} SuffixElements(s: string, i: nat, r: string)
    requires i <= |s| && forall k :: 0 <= k < |r| ==> r[k] in s[i..]
    ensures forall k :: 0 <= k < |r| ==> r[k] in s
  {
    forall k | 0 <= k < |r| ensures r[k] in s {
      var j :| 0 <= j < |s[i..]| && s[i..][j] == r[k];
      assert s[i + j] == r[k];
    }
  }

  /** Keeping the first character: no tag is formed when a kept `<` has no `>` after it. */
  lemma {:induction false} ConsKeepsNoTag(s: string, rest: string)
    requires s != [] && NoTag(rest) && forall k :: 0 <= k < |rest| ==> rest[k] in s[1..]
    requires s[0] == '<' ==> IndexOf(s[1..], '>') < 0
    ensures NoTag([s[0]] + rest) && forall k :: 0 <= k < |[s[0]] + rest| ==> ([s[0]] + rest)[k] in s
  {
    var r := [s[0]] + rest;
    forall k | 0 <= k < |r| ensures r[k] in s {
      if k > 0 {
        assert r[k] == rest[k - 1];
        SuffixElements(s, 1, rest);
      }
    }
    forall i, j | 0 <= i < j < |r| && r[i] == '<' ensures r[j] != '>' {
      if i == 0 {
        assert r[j] == rest[j - 1] && rest[j - 1] in s[1..];
      } else {
        assert r[i] == rest[i - 1] && r[j] == rest[j - 1];
      }
    }
  }

  /** Text without any `<` is left alone by tag stripping. */
  lemma {:induction false} StripTagsWithoutTags(s: string)
    requires '<' !in s
    ensures StripTags(s) == s
    decreases |s|
  {
    if s != [] {
      StripTagsWithoutTags(s[1..]);
    }
  }

  /** Text before the first `<` is kept as it is. */
  lemma {:induction false} StripTagsKeepsPrefix(a: string, t: string)
    requires '<' !in a
    ensures StripTags(a + t) == a + StripTags(t)
    decreases |a|
  {
    if a != [] {
      assert (a + t)[0] == a[0] && (a + t)[1..] == a[1..] + t;
      assert StripTags(a + t) == [a[0]] + StripTags(a[1..] + t);
      StripTagsKeepsPrefix(a[1..], t);
      assert a == [a[0]] + a[1..];
    } else {
      assert a + t == t;
    }
  }

  /** A `<` closed by a later `>` is dropped together with everything up to that first `>`. */
  lemma {:induction false} StripTagsDropsTag(u: string, t: string)
    requires '>' !in u
    ensures StripTags("<" + u + ">" + t) == StripTags(t)
  {
    var s := "<" + u + ">" + t;
    assert s[1..] == u + (">" + t);
    IndexOfAfter(u, ">" + t, '>');
    assert s[|u| + 2..] == t;
  }

  /** A `<` that no later `>` closes is kept. */
  lemma {:induction false} StripTagsKeepsOpen(t: string)
    requires '>' !in t
    ensures StripTags("<" + t) == "<" + StripTags(t)
  {
    assert ("<" + t)[1..] == t;
  }

  /** `"a<b>c"` loses exactly its tag. */
  lemma {:induction false} StripTagsExample()
    ensures StripTags("a<b>c") == "ac"
  {
    StripTagsKeepsPrefix("a", "<b>c");
    assert "a<b>c" == "a" + "<b>c";
    StripTagsDropsTag("b", "c");
    assert "<b>c" == "<" + "b" + ">" + "c";
    StripTagsWithoutTags("c");
  }

  /** `replace(/pat/g, rep)` for a literal, non-empty `pat`: leftmost, non-overlapping occurrences. */
  function ReplaceAll(s: string, pat: string, rep: string): (r: string)
    requires |pat| > 0
    ensures |rep| <= |pat| ==> |r| <= |s|
    decreases |s|
  {
    if |s| < |pat| then s
    else if s[..|pat|] == pat then rep + ReplaceAll(s[|pat|..], pat, rep)
    else [s[0]] + ReplaceAll(s[1..], pat, rep)
  }

  /** Where the pattern does not occur, nothing is replaced. */
  lemma {:induction false} ReplaceAbsent(s: string, pat: string, rep: string)
    requires |pat| > 0 && !Contains(s, pat)
    ensures ReplaceAll(s, pat, rep) == s
    decreases |s|
  {
    if |s| >= |pat| {
      assert !StartsWith(s, pat);
      ReplaceAbsent(s[1..], pat, rep);
    }
  }

  /** A text lacking some character of the pattern has no occurrence to replace. */
  lemma {:induction false} ReplaceMissingChar(s: string, pat: string, rep: string, i: nat)
    requires i < |pat| && pat[i] !in s
    ensures ReplaceAll(s, pat, rep) == s
    decreases |s|
  {
    if |s| >= |pat| {
      assert s[..|pat|][i] == s[i];
      ReplaceMissingChar(s[1..], pat, rep, i);
    }
  }

  lemma {:induction false} ReplaceAtStart(t: string, pat: string, rep: string)
    requires |pat| > 0
    ensures ReplaceAll(pat + t, pat, rep) == rep + ReplaceAll(t, pat, rep)
  {
    assert (pat + t)[..|pat|] == pat && (pat + t)[|pat|..] == t;
  }

  /** A first character that does not begin an occurrence is kept, and the scan moves on by one. */
  lemma {:induction false} ReplaceKeepsFirst(s: string, pat: string, rep: string)
    requires |pat| > 0 && s != [] && !StartsWith(s, pat)
    ensures ReplaceAll(s, pat, rep) == [s[0]] + ReplaceAll(s[1..], pat, rep)
  {
    if |s| < |pat| {
      ReplaceShort(s[1..], pat, rep);
      assert s == [s[0]] + s[1..];
    }
  }

  /** A text shorter than the pattern is kept. */
  lemma {:induction false} ReplaceShort(s: string, pat: string, rep: string)
    requires |s| < |pat|
    ensures ReplaceAll(s, pat, rep) == s
  {
  }

  /** `"x&amp;"` keeps its `x` and decodes the entity after it. */
  lemma {:induction false} ReplaceExample()
    ensures ReplaceAll("x&amp;", "&amp;", "&") == "x&"
  {
    assert "x&amp;"[..5][0] == 'x';
    ReplaceKeepsFirst("x&amp;", "&amp;", "&");
    assert "x&amp;"[1..] == "&amp;" + [];
    ReplaceAtStart([], "&amp;", "&");
  }

  /** The five entity replacements, in the order of the source (:202-206). */
  function DecodeEntities(s: string): (r: string)
    ensures |r| <= |s|
  {
    var a := ReplaceAll(s, "&nbsp;", " ");
    var b := ReplaceAll(a, "&amp;", "&");
    var c := ReplaceAll(b, "&lt;", "<");
    var d := ReplaceAll(c, "&gt;", ">");
    ReplaceAll(d, "&quot;", "\"")
  }

  lemma {:induction false} NoSpaceEntity()
    ensures ReplaceAll("&amp;lt;", "&nbsp;", " ") == "&amp;lt;"
  {
    ReplaceMissingChar("&amp;lt;", "&nbsp;", " ", 1);
  }

  lemma {:induction false} AmpersandFirst()
    ensures ReplaceAll("&amp;lt;", "&amp;", "&") == "&lt;"
  {
    assert "&amp;lt;" == "&amp;" + "lt;";
    ReplaceAtStart("lt;", "&amp;", "&");
    ReplaceMissingChar("lt;", "&amp;", "&", 1);
  }

  lemma {:induction false} LessThanStep()
    ensures ReplaceAll("&lt;", "&lt;", "<") == "<"
  {
    ReplaceAtStart([], "&lt;", "<");
    assert "&lt;" + [] == "&lt;";
  }

  lemma {:induction false} LessThanUntouched()
    ensures ReplaceAll("<", "&gt;", ">") == "<" && ReplaceAll("<", "&quot;", "\"") == "<"
  {
  }

  /** Because `&amp;` is decoded before `&lt;`, a doubly escaped `&amp;lt;` comes out as `<`. */
  lemma {:induction false} DecodeOrder()
    ensures DecodeEntities("&amp;lt;") == "<"
  {
    NoSpaceEntity();
    AmpersandFirst();
    LessThanStep();
    LessThanUntouched();
  }

  /** The length of the longest prefix of `s` made of white space. */
  function SpaceRun(s: string): (n: nat)
    ensures n <= |s| && AllSpace(s[..n])
    ensures n < |s| ==> !IsSpace(s[n])
  {
    if s != [] && IsSpace(s[0]) then
      var n := 1 + SpaceRun(s[1..]);
      assert s[..n] == [s[0]] + s[1..][..n - 1];
      n
    else 0
  }

  lemma {:induction false} SpaceRunOf(a: string, b: string)
    requires AllSpace(a) && (b == [] || !IsSpace(b[0]))
    ensures SpaceRun(a + b) == |a|
  {
    if a != [] {
      assert (a + b)[1..] == a[1..] + b;
      SpaceRunOf(a[1..], b);
    } else {
      assert a + b == b;
    }
  }

  /** The last position of a newline in `s`, or -1. */
  function LastNewline(s: string): (i: int)
    ensures -1 <= i < |s|
    ensures i >= 0 ==> s[i] == '\n' && forall k :: i < k < |s| ==> s[k] != '\n'
    ensures i < 0 ==> forall k :: 0 <= k < |s| ==> s[k] != '\n'
  {
    if s == [] then -1
    else if s[|s| - 1] == '\n' then |s| - 1
    else LastNewline(s[..|s| - 1])
  }

  /** `replace(/\n\s*\n/g, '\n\n')`. At a newline the greedy `\s*` takes the whole run of white space
      after it and gives back characters until a newline follows, so the match ends at the last
      newline of that run; a newline with no other newline in the run after it is kept. */
  function CollapseBlankLines(s: string): (r: string)
    decreases |s|
  {
    if s == [] then []
    else if s[0] == '\n' then
      var w := SpaceRun(s[1..]);
      var k := LastNewline(s[1..1 + w]);
      if k >= 0 then "\n\n" + CollapseBlankLines(s[k + 2..]) else "\n" + CollapseBlankLines(s[1..])
    else [s[0]] + CollapseBlankLines(s[1..])
  }

  /** A newline, any white space, a newline and a run of white space without newlines, followed by
      something that is not white space: the match ends at the second newline, so the part up to it
      becomes exactly two newlines and the run after it is kept. */
  lemma {:induction false} BlankRunCollapses(gap: string, tail: string, t: string)
    requires AllSpace(gap) && AllSpace(tail) && '\n' !in tail && (t == [] || !IsSpace(t[0]))
    ensures CollapseBlankLines("\n" + gap + "\n" + tail + t) == "\n\n" + tail + CollapseBlankLines(t)
  {
    var s := "\n" + gap + "\n" + tail + t;
    assert s[0] == '\n' && s[1..] == gap + "\n" + tail + t;
    BlankRunShape(s, gap, tail, t);
    BlankRunAt(s, |gap|, tail, t);
  }

  /** Where the run of white space after the first newline of `s` ends, and its last newline. */
  lemma {:induction false} BlankRunShape(s: string, gap: string, tail: string, t: string)
    requires AllSpace(gap) && AllSpace(tail) && '\n' !in tail && (t == [] || !IsSpace(t[0]))
    requires s != [] && s[1..] == gap + "\n" + tail + t
    ensures var w := |gap| + 1 + |tail|;
      && w < |s| && SpaceRun(s[1..]) == w && LastNewline(s[1..1 + w]) == |gap|
      && s[|gap| + 2..] == tail + t
  {
    var run := gap + "\n" + tail;
    assert s[1..] == run + t;
    assert SpaceRun(s[1..]) == |run| by {
      SpacesAround(gap, tail);
      SpaceRunOf(run, t);
    }
    assert LastNewline(s[1..1 + |run|]) == |gap| by {
      assert s[1..1 + |run|] == run;
      NewlineBeforeTail(gap, tail);
    }
    assert s[|gap| + 2..] == tail + t by {
      assert s[|gap| + 2..] == s[1..][|gap| + 1..];
      assert (run + t)[|gap| + 1..] == tail + t;
    }
  }

  lemma {:induction false} BlankRunAt(s: string, k: nat, tail: string, t: string)
    requires '\n' !in tail
    requires var w := k + 1 + |tail|;
      && w < |s| && s[0] == '\n' && SpaceRun(s[1..]) == w && LastNewline(s[1..1 + w]) == k
      && s[k + 2..] == tail + t
    ensures CollapseBlankLines(s) == "\n\n" + tail + CollapseBlankLines(t)
  {
    CollapseAtRun(s, k + 1 + |tail|, k);
    CollapseKeepsPrefix(tail, t);
  }

  /** One step of the collapse at a newline whose run of white space ends at a newline. */
  lemma {:induction false} CollapseAtRun(s: string, w: nat, k: nat)
    requires s != [] && s[0] == '\n' && SpaceRun(s[1..]) == w && LastNewline(s[1..1 + w]) == k
    ensures k + 2 <= |s| && CollapseBlankLines(s) == "\n\n" + CollapseBlankLines(s[k + 2..])
  {
  }

  lemma {:induction false} SpacesAround(gap: string, tail: string)
    requires AllSpace(gap) && AllSpace(tail)
    ensures AllSpace(gap + "\n" + tail)
  {
    var run := gap + "\n" + tail;
    forall k | 0 <= k < |run| ensures IsSpace(run[k]) {
      if k > |gap| { assert run[k] == tail[k - |gap| - 1]; }
    }
  }

  /** The newline between `gap` and a newline-free `tail` is the last one. */
  lemma {:induction false} NewlineBeforeTail(gap: string, tail: string)
    requires '\n' !in tail
    ensures LastNewline(gap + "\n" + tail) == |gap|
  {
    var run := gap + "\n" + tail;
    assert run[|gap|] == '\n';
    assert forall k :: |gap| < k < |run| ==> run[k] == tail[k - |gap| - 1];
  }

  /** Text before the first newline is kept as it is. */
  lemma {:induction false} CollapseKeepsPrefix(a: string, t: string)
    requires '\n' !in a
    ensures CollapseBlankLines(a + t) == a + CollapseBlankLines(t)
    decreases |a|
  {
    if a != [] {
      assert (a + t)[0] == a[0] && (a + t)[1..] == a[1..] + t;
      CollapseKeepsPrefix(a[1..], t);
      assert a == [a[0]] + a[1..];
    } else {
      assert a + t == t;
    }
  }

  /** A newline whose run of white space holds no other newline is kept, and so is the run. */
  lemma {:induction false} LoneNewlineKept(gap: string, t: string)
    requires AllSpace(gap) && '\n' !in gap && (t == [] || !IsSpace(t[0]))
    ensures CollapseBlankLines("\n" + gap + t) == "\n" + gap + CollapseBlankLines(t)
  {
    var s := "\n" + gap + t;
    assert s[1..] == gap + t;
    SpaceRunOf(gap, t);
    assert s[1..1 + |gap|] == gap;
    assert LastNewline(gap) < 0;
    CollapseKeepsPrefix(gap, t);
  }

  /** `"ab\n\ncd"` keeps the text around its blank line. */
  lemma {:induction false} CollapseExample()
    ensures CollapseBlankLines("ab\n\ncd") == "ab\n\ncd"
  {
    assert "ab\n\ncd" == "ab" + ("\n" + [] + "\n" + [] + "cd");
    CollapseKeepsPrefix("ab", "\n" + [] + "\n" + [] + "cd");
    BlankRunCollapses([], [], "cd");
    CollapseWithoutNewlines("cd");
  }

  /** Text without newlines is left alone by the collapse. */
  lemma {:induction false} CollapseWithoutNewlines(s: string)
    requires '\n' !in s
    ensures CollapseBlankLines(s) == s
    decreases |s|
  {
    if s != [] {
      CollapseWithoutNewlines(s[1..]);
    }
  }

  /** `formatTafseerText(text)` (:199-209): tags are stripped first, then entities decoded, blank
      lines collapsed, and the result trimmed. */
  function FormatTafseerText(text: string): string {
    Trim(CollapseBlankLines(DecodeEntities(StripTags(text))))
  }

  /** The formatted text has no white space at either end, and is empty exactly when the
      stripped, decoded and collapsed text is blank. */
  lemma {:induction false} FormatTafseerTrimmed(text: string)
    ensures var r := FormatTafseerText(text);
      r == [] || (!IsSpace(r[0]) && !IsSpace(r[|r| - 1]))
    ensures FormatTafseerText(text) == [] <==> AllSpace(CollapseBlankLines(DecodeEntities(StripTags(text))))
  {
    TrimResult(CollapseBlankLines(DecodeEntities(StripTags(text))), FormatTafseerText(text));
  }

  lemma {:induction false} TrimResult(c: string, r: string)
    requires r == Trim(c)
    ensures r == [] || (!IsSpace(r[0]) && !IsSpace(r[|r| - 1]))
    ensures r == [] <==> AllSpace(c)
  {
  }

  lemma {:induction false} EscapedTagKeepsAmpersands()
    ensures ReplaceAll(ReplaceAll("&lt;b&gt;", "&nbsp;", " "), "&amp;", "&") == "&lt;b&gt;"
  {
    ReplaceMissingChar("&lt;b&gt;", "&nbsp;", " ", 1);
    ReplaceMissingChar("&lt;b&gt;", "&amp;", "&", 1);
  }

  lemma {:induction false} EscapedOpening()
    ensures ReplaceAll("&lt;b&gt;", "&lt;", "<") == "<b&gt;"
  {
    assert "&lt;b&gt;" == "&lt;" + "b&gt;";
    ReplaceAtStart("b&gt;", "&lt;", "<");
    ReplaceMissingChar("b&gt;", "&lt;", "<", 1);
  }

  lemma {:induction false} EscapedClosing()
    ensures ReplaceAll("<b&gt;", "&gt;", ">") == "<b>"
  {
    assert "<b&gt;" == "<b" + "&gt;";
    ReplaceSkip("<b", "&gt;", "&gt;", ">");
    ReplaceAtStart([], "&gt;", ">");
    assert "&gt;" + [] == "&gt;";
  }

  lemma {:induction false} NoQuote()
    ensures ReplaceAll("<b>", "&quot;", "\"") == "<b>"
  {
    ReplaceMissingChar("<b>", "&quot;", "\"", 1);
  }

  lemma {:induction false} DecodeEscapedTag()
    ensures DecodeEntities("&lt;b&gt;") == "<b>"
  {
    EscapedTagKeepsAmpersands();
    EscapedOpening();
    EscapedClosing();
    NoQuote();
  }

  /** A prefix without the pattern's first character is copied unchanged. */
  lemma {:induction false} ReplaceSkip(a: string, t: string, pat: string, rep: string)
    requires |pat| > 0 && pat[0] !in a
    ensures ReplaceAll(a + t, pat, rep) == a + ReplaceAll(t, pat, rep)
    decreases |a|
  {
    if a != [] {
      var s := a + t;
      assert s[0] == a[0] && s[1..] == a[1..] + t;
      ReplaceSkip(a[1..], t, pat, rep);
      if |s| >= |pat| {
        assert s[..|pat|][0] != pat[0];
      }
    } else {
      assert a + t == t;
    }
  }

  lemma {:induction false} EscapedTagHasNoTag()
    ensures StripTags("&lt;b&gt;") == "&lt;b&gt;"
  {
    StripTagsWithoutTags("&lt;b&gt;");
  }

  lemma {:induction false} PlainTagText()
    ensures CollapseBlankLines("<b>") == "<b>" && Trim("<b>") == "<b>"
  {
    PlainTagCollapse();
    PlainTagTrim();
  }

  lemma {:induction false} PlainTagCollapse()
    ensures CollapseBlankLines("<b>") == "<b>"
  {
    CollapseWithoutNewlines("<b>");
  }

  lemma {:induction false} PlainTagTrim()
    ensures Trim("<b>") == "<b>"
  {
    TrimOfTrimmed("<b>");
  }

  /** Tags are removed before entities are decoded, so an escaped tag survives as a tag. */
  lemma {:induction false} EscapedTagSurvives()
    ensures FormatTafseerText("&lt;b&gt;") == "<b>"
  {
    EscapedTagHasNoTag();
    DecodeEscapedTag();
    PlainTagText();
  }

  // ---------------------------------------------------------------------------------------------
  // Requests

  /** `fetchTafseerForAyah` (:101-151), with the HTTP exchange replaced by `apiText`, the
      `data.tafsir.text` of a successful response (None when the request failed). An unknown source,
      a failed request or a falsy text all end in the catch block and give null. */
  function FetchTafseerForAyah(sources: seq<TafseerSource>, surahNumber: int, ayahNumber: int,
                               sourceIdentifier: string, apiText: Option<string>): (r: Option<TafseerResponse>)
    ensures r.Some? <==> GetTafseerSource(sources, sourceIdentifier).Some? && apiText.Some? && apiText.value != ""
    ensures r.Some? ==> && r.value.success
                        && r.value.source == GetTafseerSource(sources, sourceIdentifier).value
                        && r.value.ayah == TafseerAyah(surahNumber, ayahNumber, apiText.value, sourceIdentifier,
                                                       r.value.source.language)
  {
    match GetTafseerSource(sources, sourceIdentifier)
    case None => None
    case Some(source) =>
      if apiText.None? || apiText.value == "" then None
      else Some(TafseerResponse(TafseerAyah(surahNumber, ayahNumber, apiText.value, sourceIdentifier, source.language),
                                source, true))
  }

  /** The filter and map of `fetchMultipleTafseerForAyah` (:164-170): the values of the fulfilled,
      non-null results, in input order. */
  function FulfilledResponses(results: seq<Settled<Option<TafseerResponse>>>): (r: seq<TafseerResponse>)
    ensures |r| <= |results|
    ensures forall x :: x in r <==> Fulfilled(Some(x)) in results
    ensures IsSublist(Map(r, (x: TafseerResponse) => Fulfilled(Some(x))), results)
  {
    if results == [] then []
    else
      var rest := FulfilledResponses(results[1..]);
      match results[0]
      case Fulfilled(Some(x)) =>
        var r := [x] + rest;
        assert Map(r, (x: TafseerResponse) => Fulfilled(Some(x)))[1..] == Map(rest, (x: TafseerResponse) => Fulfilled(Some(x)));
        r
      case _ =>
        SublistDropHead(Map(rest, (x: TafseerResponse) => Fulfilled(Some(x))), results);
        rest
  }

  /** A response as the settled entry it came from. */
  function AsFulfilled(x: TafseerResponse): Settled<Option<TafseerResponse>> {
    Fulfilled(Some(x))
  }

  /** A fulfilled, non-null entry. */
  predicate HasResponse(s: Settled<Option<TafseerResponse>>) {
    s.Fulfilled? && s.value.Some?
  }

  /** Entry for entry, the responses are the fulfilled, non-null results in input order, so a reply
      that appears twice is kept twice. */
  lemma {:induction false} FulfilledResponsesExact(results: seq<Settled<Option<TafseerResponse>>>)
    ensures Map(FulfilledResponses(results), AsFulfilled) == Filter(results, HasResponse)
    ensures |FulfilledResponses(results)| == |Filter(results, HasResponse)|
    decreases |results|
  {
    if results != [] {
      FulfilledResponsesExact(results[1..]);
      var rest := FulfilledResponses(results[1..]);
      if HasResponse(results[0]) {
        var x := results[0].value.value;
        assert results[0] == AsFulfilled(x);
        assert FulfilledResponses(results) == [x] + rest;
        assert ([x] + rest)[1..] == rest;
        assert Filter(results, HasResponse) == [results[0]] + Filter(results[1..], HasResponse);
      } else {
        assert FulfilledResponses(results) == rest;
        assert Filter(results, HasResponse) == [] + Filter(results[1..], HasResponse);
      }
    }
  }

  lemma {:induction false} SublistDropHead<T>(xs: seq<T>, ys: seq<T>)
    requires ys != [] && IsSublist(xs, ys[1..])
    ensures IsSublist(xs, ys)
  {
  }

  /** `checkTafseerAvailability` (:184-196), given what `fetchTafseerForAyah` returned. */
  predicate Available(result: Option<TafseerResponse>) {
    result.Some? && result.value.success && Trim(result.value.ayah.text) != []
  }

  /** A source is available for an ayah exactly when the source is known and the API returned a text
      that is not all white space. */
  lemma {:induction false} AvailabilityOfFetch(sources: seq<TafseerSource>, surahNumber: int, ayahNumber: int,
                            sourceIdentifier: string, apiText: Option<string>)
    ensures Available(FetchTafseerForAyah(sources, surahNumber, ayahNumber, sourceIdentifier, apiText)) <==>
      GetTafseerSource(sources, sourceIdentifier).Some? && apiText.Some? && !AllSpace(apiText.value)
  {
    if apiText.Some? && apiText.value == "" {
      assert AllSpace(apiText.value);
    }
  }
}
