# al-furqan in Dafny

A Dafny model of the logic inside al-furqan, a React web application for reading the Quran,
the hadith collections and Islamic books. The model covers:

- the playback queue of the global audio player (`AudioProvider`): a playlist of verses, the
  index of the one playing, the flags the player bar shows, and the audio element it drives;
- the book catalogue service: search, filters, featured books, tags, reading-time labels,
  Arabic text clean-up, and the chapter list;
- the tafseer service: source lookup, the HTML/entity clean-up of commentary text, and the
  availability check;
- the hadith service: narrator extraction, the per-book fetch range and its 20-wide batches,
  the two collection passes, the sort, and the book-list construction of `fetchBooks`;
- the Quran service: the Sudais recitation file names and URLs, the offline fallbacks and the
  order-preserving reply mappings;
- the pages and components that hold logic of their own: the surah page (bookmarks,
  next/previous surah, search, text/audio merging, what a play button does, the Mushaf page
  table), the tafseer page (ayah stepping), Hisnul Muslim (favourites, grouping, the dua
  lists), the bookmarks page, the Mushaf page viewer, the player bar's `m:ss` format and the
  surah list search.

Each source file is one module (`Playback` and `AudioContext` together model
`AudioContext.tsx`; `TafseerPage` and `TafseerForm` model `TafseerPage.tsx`). Three helper
modules model the JavaScript built-ins the code relies on:

- `Optional`: `null`/`undefined`, `||` fallbacks, settled promises;
- `Text`: ECMAScript white space and `trim`, `toLowerCase`, `includes`, `indexOf`, decimal
  `toString` and `parseInt`;
- `Seqs`: `filter`, `map`, `slice`, order-preserving sublists, duplicate removal, sorting.

Pure code (filters, maps, string building) is modelled by functions. Code that updates state in
place is modelled by classes with methods, and each method is proved to leave the state the
matching function describes:

- the `AudioProvider` component and its audio element;
- the module-level book collection;
- the Mushaf page viewer's state and its cancelled fetches;
- the tafseer page's two selection fields.

The loops of the source are methods with loop invariants:

- grouping the Hisnul Muslim categories;
- the batch, placeholder, sampling, section and conversion loops of the hadith service;
- the filter chain of the advanced book search.

Network replies, stored values and the promise of `play()` are parameters of the operations.

The model follows the code where one might expect otherwise:

- `playPlaylist` stores the start index unclamped (`Playback.UnclampedStartKeepsStaleAyah`).
- `togglePlay` sets the playing flag even with an empty queue (`Playback.ToggleWhenIdle`).
- `seek` neither clamps the time nor waits for a known duration.
- The load effect does not tag loads with the index they were issued for, so a late `canplay`
  or `ended` is not discarded.
- Playlist items with an empty audio URL are not skipped; they are loaded like any other.
- On `ended` the index becomes -1 past the last verse, but `currentAyah` stays as it was
  (`Playback.EndedThenSync`).

## Model

| member | source | states |
|---|---|---|
| Playback.Mount | src/context/AudioContext.tsx:53-57 | the mount effect installs a fresh, paused, empty element and changes nothing else |
| Playback.PlayAyah | src/context/AudioContext.tsx:158-171 | the playlist becomes the one verse, the index 0, playing is set; the index is valid; only the queue fields change |
| Playback.PlayPlaylist | src/context/AudioContext.tsx:173-177 | playlist and start index stored as given, playing set; the index is valid iff it is -1 or inside the list (no clamping) |
| Playback.PlayNext | src/context/AudioContext.tsx:179-183 | the index moves iff `index + 1 < length`, by exactly one; nothing else changes; never wraps |
| Playback.PlayPrevious | src/context/AudioContext.tsx:185-189 | the index moves iff it is above 0, by exactly one back; nothing else changes |
| Playback.TogglePlay | src/context/AudioContext.tsx:147-156 | without an element nothing changes; otherwise the flag flips, pausing when playing, playing (if the promise is accepted) when not; source, position and loads untouched |
| Playback.Stop | src/context/AudioContext.tsx:191-200 | playlist empty, index -1, no current verse, not playing, element paused at 0 with its source; duration, progress and time untouched |
| Playback.Seek | src/context/AudioContext.tsx:202-207 | with an element, its position and the shown time become `time`, unclamped; nothing else changes |
| Playback.NextAutoIndex | src/context/AudioContext.tsx:137-145 | `prev + 1` when inside the playlist, otherwise -1 |
| Playback.Ended | src/context/AudioContext.tsx:58-61 | not playing, element paused, index auto-advanced; the current verse and playlist are kept |
| Playback.TimeUpdate | src/context/AudioContext.tsx:63-69 | time follows the element; duration and `progress * duration == 100 * time` only when the duration is non-zero |
| Playback.Waiting | src/context/AudioContext.tsx:71 | loading set, nothing else changes |
| Playback.CanPlay | src/context/AudioContext.tsx:72 | loading cleared, nothing else changes |
| Playback.Error | src/context/AudioContext.tsx:73-77 | loading and playing cleared, nothing else changes |
| Playback.Sync | src/context/AudioContext.tsx:96-100 | the current verse becomes `playlist[index]` exactly when the index is in range; otherwise the state is unchanged |
| Playback.Reloaded | src/context/AudioContext.tsx:110-111 | assigning `src` and calling `load()` sets the source, pauses, rewinds and counts one load |
| Playback.Load | src/context/AudioContext.tsx:103-117 | the element ends on the verse's URL; one load iff the source differed; same source and playing means no change; otherwise `play()` is issued |
| Playback.StepPreservesIndexValid | src/context/AudioContext.tsx:137-207 | every command and event keeps the index at -1 or inside the playlist, given an in-range start index |
| Playback.RunPreservesIndexValid | src/context/AudioContext.tsx:137-207 | the same for any sequence of commands and events |
| Playback.UnclampedStartKeepsStaleAyah | src/context/AudioContext.tsx:96-100 | starting a playlist past its end leaves the old verse current, and the index is out of range |
| Playback.NextTimesStopsAtLast | src/context/AudioContext.tsx:179-183 | `n` presses of next reach `min(index + n, last)`; nothing else changes |
| Playback.PreviousTimesStopsAtFirst | src/context/AudioContext.tsx:185-189 | `n` presses of previous reach `max(index - n, 0)`, or stay at -1/0 |
| Playback.PreviousUndoesNext | src/context/AudioContext.tsx:179-189 | inside the playlist, previous after next restores the state |
| Playback.StartPlaylistTrace | src/context/AudioContext.tsx:96-117 | play a playlist, sync, load: the first verse is current, the element holds its URL, and it reloaded iff the source differed |
| Playback.EndedThenSync | src/context/AudioContext.tsx:58-61 | after `ended` and the sync, the next verse is current, or past the last one the index is -1 and the old verse stays |
| Playback.ToggleTwiceKeepsSource | src/context/AudioContext.tsx:147-156 | two toggles restore the flag and never touch source, loads or position |
| Playback.LoadIsIdempotent | src/context/AudioContext.tsx:103-117 | re-running the load effect after an accepted load changes nothing |
| Playback.ToggleWhenIdle | src/context/AudioContext.tsx:147-156 | toggling with nothing queued still sets playing, with no verse and a paused element |
| Playback.StopThenNavigate | src/context/AudioContext.tsx:179-200 | after stop, next, previous, the sync and the load effect change nothing |
| AudioContext.AudioElement.constructor | src/context/AudioContext.tsx:54 | a new element is empty, paused, at 0 |
| AudioContext.AudioElement.Pause | src/context/AudioContext.tsx:150 | only the paused flag is set |
| AudioContext.AudioElement.Play | src/context/AudioContext.tsx:112 | unpaused exactly when the promise is accepted |
| AudioContext.AudioElement.SetSourceAndLoad | src/context/AudioContext.tsx:110-111 | the element is `Reloaded` with the new source |
| AudioContext.AudioElement.SetCurrentTime | src/context/AudioContext.tsx:204 | only the position changes |
| AudioContext.AudioElement.Advance | src/context/AudioContext.tsx:63-69 | playback moves the position and reports the duration |
| AudioContext.AudioElement.Finish | src/context/AudioContext.tsx:58-61 | the element pauses itself at the end |
| AudioContext.AudioProvider.constructor | src/context/AudioContext.tsx:40-50 | the initial state: idle, index -1, no element |
| AudioContext.AudioProvider.OnMount | src/context/AudioContext.tsx:53-57 | the new state is `Mount` of the old, with a fresh element |
| AudioContext.AudioProvider.PlayAyah | src/context/AudioContext.tsx:158-171 | the new state is `PlayAyah` of the old |
| AudioContext.AudioProvider.PlayPlaylist | src/context/AudioContext.tsx:173-177 | the new state is `PlayPlaylist` of the old |
| AudioContext.AudioProvider.PlayNext | src/context/AudioContext.tsx:179-183 | the new state is `PlayNext` of the old |
| AudioContext.AudioProvider.PlayPrevious | src/context/AudioContext.tsx:185-189 | the new state is `PlayPrevious` of the old |
| AudioContext.AudioProvider.TogglePlay | src/context/AudioContext.tsx:147-156 | the new state, element included, is `TogglePlay` of the old |
| AudioContext.AudioProvider.Stop | src/context/AudioContext.tsx:191-200 | the new state, element included, is `Stop` of the old |
| AudioContext.AudioProvider.Seek | src/context/AudioContext.tsx:202-207 | the new state, element included, is `Seek` of the old |
| AudioContext.AudioProvider.OnEnded | src/context/AudioContext.tsx:58-61 | the new state is `Ended` of the old |
| AudioContext.AudioProvider.OnTimeUpdate | src/context/AudioContext.tsx:63-69 | the new state is `TimeUpdate` of the old |
| AudioContext.AudioProvider.OnWaiting | src/context/AudioContext.tsx:71 | the new state is `Waiting` of the old |
| AudioContext.AudioProvider.OnCanPlay | src/context/AudioContext.tsx:72 | the new state is `CanPlay` of the old |
| AudioContext.AudioProvider.OnError | src/context/AudioContext.tsx:73-77 | the new state is `Error` of the old |
| AudioContext.AudioProvider.SyncIndex | src/context/AudioContext.tsx:96-100 | the new state is `Sync` of the old |
| AudioContext.AudioProvider.LoadSource | src/context/AudioContext.tsx:103-117 | the new state, element included, is `Load` of the old |
| IslamicBooks.BookOf | src/services/islamicBooksService.ts:247-262 | a configured book: id and `apiId` from the edition, category hadith, English, 100 chapters, the configured texts |
| IslamicBooks.CollectionOf | src/services/islamicBooksService.ts:247-262 | one book per configuration entry, in order |
| IslamicBooks.CollectionShape | src/services/islamicBooksService.ts:247-262 | every built book is an English hadith book of its edition, and each configured edition is found by `getBookById` |
| IslamicBooks.GetBookCategory | src/services/islamicBooksService.ts:280-282 | a category from the table with that id, or null iff none has it |
| IslamicBooks.FindCategory | src/services/islamicBooksService.ts:280-282 | the first category with that id, or null iff none has it |
| IslamicBooks.GetBookById | src/services/islamicBooksService.ts:293-296 | the first book with that id, or null iff none has it |
| IslamicBooks.FirstIndexOf | src/services/islamicBooksService.ts:432 | `findIndex`: the first index with that id, or -1 iff there is none |
| IslamicBooks.GetBooksByCategory | src/services/islamicBooksService.ts:299-302 | the order-preserving sublist of exactly the books in that category, with each one's number of occurrences |
| IslamicBooks.GetBooksByLanguage | src/services/islamicBooksService.ts:305-308 | the order-preserving sublist of exactly the books in that language, with each one's number of occurrences |
| IslamicBooks.GetBooksByDifficulty | src/services/islamicBooksService.ts:311-314 | the order-preserving sublist of exactly the books of that difficulty, with each one's number of occurrences |
| IslamicBooks.MatchesTerm | src/services/islamicBooksService.ts:323-330 | the search test; `SearchBooks` states that the result holds exactly the books passing it |
| IslamicBooks.SearchBooks | src/services/islamicBooksService.ts:317-331 | a blank query returns the whole collection; otherwise the order-preserving sublist of exactly the books whose fields match the trimmed, lower-cased term, with each one's number of occurrences |
| IslamicBooks.Narrow | src/services/islamicBooksService.ts:348-368 | one `if (arg) filteredBooks = filteredBooks.filter(...)` step: a supplied filter keeps exactly the books passing its test, each as often as before, and an unsupplied one keeps every book; a sublist of the collection stays one |
| IslamicBooks.ApplyFilters | src/services/islamicBooksService.ts:348-368 | the filter chain keeps exactly the books passing every supplied filter, in order, each as often as in its input |
| IslamicBooks.SearchBooksAdvanced | src/services/islamicBooksService.ts:334-385 | the books are exactly the query matches passing every filter, in order, each as often as among the matches; `totalCount` is their number; the languages are `GetAvailableLanguages` of the result; the categories are one lookup per distinct category id |
| IslamicBooks.CategoriesOf | src/services/islamicBooksService.ts:371-373 | one lookup per distinct category id of the books, each the category of some book |
| IslamicBooks.Featured | src/services/islamicBooksService.ts:392 | the featured test; `GetFeaturedBooks` states that the result is a prefix of the books passing it |
| IslamicBooks.GetFeaturedBooks | src/services/islamicBooksService.ts:388-396 | the first `limit` of the featured books (sahih, six-books or beginner), in collection order |
| IslamicBooks.GetAllTags | src/services/islamicBooksService.ts:537-541 | sorted, duplicate-free, and exactly the tags of the books |
| IslamicBooks.GetAvailableLanguages | src/services/islamicBooksService.ts:528-531 | duplicate-free, exactly the languages of the books, and in order of first occurrence among them |
| IslamicBooks.SingleLanguage | src/services/islamicBooksService.ts:528-531 | the English-only collection gives exactly one language |
| IslamicBooks.FormatReadingTime | src/services/islamicBooksService.ts:544-551 | `m min read` below 60, else `Hh read` or `Hh Mm read` with `H = m div 60`, `M = m mod 60` |
| IslamicBooks.MinutesRoundTrip | src/services/islamicBooksService.ts:544-546 | a label below an hour reads back as its minutes |
| IslamicBooks.WholeHoursRoundTrip | src/services/islamicBooksService.ts:547-550 | a whole-hours label reads back as its minutes |
| IslamicBooks.HoursAndMinutesRoundTrip | src/services/islamicBooksService.ts:547-550 | an hours-and-minutes label reads back as its minutes |
| IslamicBooks.ReadingTimeRoundTrip | src/services/islamicBooksService.ts:544-551 | every label reads back as the minutes it was made from, so distinct minutes give distinct labels |
| IslamicBooks.StripDiacritics | src/services/islamicBooksService.ts:555 | no mark in U+064B..U+0652 is left; the result is an order-preserving sublist of the text; every other character is kept with its number of occurrences |
| IslamicBooks.CleanArabicText | src/services/islamicBooksService.ts:554-557 | no diacritic is left, and the result is the trimmed stripped text |
| IslamicBooks.CleanArabicTextShape | src/services/islamicBooksService.ts:554-557 | the cleaned text is a stretch of the stripped text, in order: a prefix of what remains after its leading white space |
| IslamicBooks.CleanIsIdempotent | src/services/islamicBooksService.ts:554-557 | cleaning twice is the same as cleaning once |
| IslamicBooks.SplitSpaces | src/services/islamicBooksService.ts:427 | `split(' ')` gives at least one piece |
| IslamicBooks.SplitSpacesLength | src/services/islamicBooksService.ts:427 | the word count is the number of spaces plus one |
| IslamicBooks.JoinSplit | src/services/islamicBooksService.ts:427 | joining the pieces with spaces gives the text back |
| IslamicBooks.ReadingMinutes | src/services/islamicBooksService.ts:428 | `ceil(words / 200)`: the least count of minutes covering the words at 200 per minute |
| IslamicBooks.ChapterOf | src/services/islamicBooksService.ts:422-429 | one chapter entry; `ChaptersList` states each of its fields |
| IslamicBooks.ChaptersList | src/services/islamicBooksService.ts:420-429 | the first 20 hadiths, in order: number and book, id `<book>-hadith-<n>`, English and Arabic titles, empty content, the word count of `split(' ')` and `ReadingMinutes` of it, the least whole minutes at 200 words a minute |
| IslamicBooks.WithTotalChapters | src/services/islamicBooksService.ts:432-435 | only the first book with that id gets the new chapter total |
| IslamicBooks.BookLibrary.constructor | src/services/islamicBooksService.ts:240 | the collection starts empty |
| IslamicBooks.BookLibrary.Initialize | src/services/islamicBooksService.ts:243-270 | the collection becomes the books of the configuration table |
| IslamicBooks.BookLibrary.GetAllBooks | src/services/islamicBooksService.ts:285-290 | an empty collection is initialised first; the books returned are the collection |
| IslamicBooks.BookLibrary.UpdateTotalChapters | src/services/islamicBooksService.ts:432-435 | the collection becomes `WithTotalChapters` of the old |
| QuranTafseer.GetTafseerSource | src/services/quranTafseerService.ts:96-98 | the first source with that identifier, or null iff there is none |
| QuranTafseer.GetTafseerSourcesByLanguage | src/services/quranTafseerService.ts:179-181 | the order-preserving sublist of exactly the sources in that language, with each one's number of occurrences |
| QuranTafseer.FirstWithLanguage | src/services/quranTafseerService.ts:213-214 | the first source in that language, or none iff there is none |
| QuranTafseer.FilterHeadIsFirst | src/services/quranTafseerService.ts:212-218 | the head of the language filter is the first source in that language |
| QuranTafseer.FirstWithLanguageUnique | src/services/quranTafseerService.ts:212-218 | there is only one first source in a language |
| QuranTafseer.GetDefaultTafseerSource | src/services/quranTafseerService.ts:212-218 | the identifier of the first source in the language, or `en.ibnkathir` when there is none |
| QuranTafseer.DefaultForEnglish | src/services/quranTafseerService.ts:32-88 | with the bundled table, English defaults to `en.ibnkathir` |
| QuranTafseer.DefaultForBengali | src/services/quranTafseerService.ts:32-88 | with the bundled table, Bengali defaults to `bn.ibnkathir` |
| QuranTafseer.StripTags | src/services/quranTafseerService.ts:201 | removing tags never lengthens the text; `StripTagsKeepsPrefix`, `StripTagsDropsTag` and `StripTagsKeepsOpen` state what each part of the text becomes |
| QuranTafseer.StripTagsResult | src/services/quranTafseerService.ts:201 | no `<…>` span is left and every character comes from the input |
| QuranTafseer.StripTagsWithoutTags | src/services/quranTafseerService.ts:201 | text without `<` is unchanged |
| QuranTafseer.StripTagsKeepsPrefix | src/services/quranTafseerService.ts:201 | text before the first `<` is kept as it is |
| QuranTafseer.StripTagsDropsTag | src/services/quranTafseerService.ts:201 | a `<` with a later `>` is dropped up to and including the first such `>`, and stripping goes on after it |
| QuranTafseer.StripTagsKeepsOpen | src/services/quranTafseerService.ts:201 | a `<` with no `>` after it is kept |
| QuranTafseer.StripTagsExample | src/services/quranTafseerService.ts:201 | `a<b>c` becomes `ac` |
| QuranTafseer.ReplaceAll | src/services/quranTafseerService.ts:202-206 | a global replacement by a shorter pattern never lengthens the text; `ReplaceAtStart` and `ReplaceKeepsFirst` state what happens at each position |
| QuranTafseer.ReplaceAbsent | src/services/quranTafseerService.ts:202-206 | replacing a pattern that does not occur changes nothing |
| QuranTafseer.ReplaceMissingChar | src/services/quranTafseerService.ts:202-206 | replacing a pattern with a character absent from the text changes nothing |
| QuranTafseer.ReplaceAtStart | src/services/quranTafseerService.ts:202-206 | a leading occurrence is replaced and the scan resumes after it |
| QuranTafseer.ReplaceKeepsFirst | src/services/quranTafseerService.ts:202-206 | a first character that starts no occurrence is kept and the scan moves on by one |
| QuranTafseer.ReplaceShort | src/services/quranTafseerService.ts:202-206 | a text shorter than the pattern is unchanged |
| QuranTafseer.ReplaceExample | src/services/quranTafseerService.ts:203 | `x&amp;` becomes `x&` |
| QuranTafseer.DecodeEntities | src/services/quranTafseerService.ts:202-206 | the five entity replacements never lengthen the text |
| QuranTafseer.DecodeOrder | src/services/quranTafseerService.ts:202-206 | because `&amp;` is decoded before `&lt;`, `&amp;lt;` becomes `<` |
| QuranTafseer.SpaceRun | src/services/quranTafseerService.ts:207 | the length of the leading white space run |
| QuranTafseer.LastNewline | src/services/quranTafseerService.ts:207 | the index of the last newline, or -1 iff there is none |
| QuranTafseer.CollapseBlankLines | src/services/quranTafseerService.ts:207 | the blank-line collapse; `CollapseKeepsPrefix`, `BlankRunCollapses` and `LoneNewlineKept` state what each part of the text becomes |
| QuranTafseer.BlankRunCollapses | src/services/quranTafseerService.ts:207 | newline, white space, newline collapses to exactly two newlines; white space after the second newline that holds no newline is kept |
| QuranTafseer.CollapseWithoutNewlines | src/services/quranTafseerService.ts:207 | text without newlines is unchanged by the collapse |
| QuranTafseer.CollapseKeepsPrefix | src/services/quranTafseerService.ts:207 | text before the first newline is kept as it is |
| QuranTafseer.LoneNewlineKept | src/services/quranTafseerService.ts:207 | a newline whose white-space run holds no other newline is kept with the run |
| QuranTafseer.CollapseExample | src/services/quranTafseerService.ts:207 | `ab`, two newlines, `cd` is unchanged |
| QuranTafseer.FormatTafseerText | src/services/quranTafseerService.ts:199-209 | the display form of commentary text; `FormatTafseerTrimmed` states its trimmed result and when it is empty, `EscapedTagSurvives` the order of its passes |
| QuranTafseer.FormatTafseerTrimmed | src/services/quranTafseerService.ts:199-209 | the result has no leading or trailing white space, and is empty iff the stripped, decoded, collapsed text is blank |
| QuranTafseer.EscapedTagSurvives | src/services/quranTafseerService.ts:199-209 | tags are stripped before entities are decoded, so `&lt;b&gt;` comes out as the literal `<b>` |
| QuranTafseer.FetchTafseerForAyah | src/services/quranTafseerService.ts:101-151 | a response iff the source is known and the reply has non-empty text; it is successful, names the source and carries the ayah |
| QuranTafseer.FulfilledResponses | src/services/quranTafseerService.ts:164-170 | exactly the values of the fulfilled, non-null results, in input order |
| QuranTafseer.FulfilledResponsesExact | src/services/quranTafseerService.ts:164-170 | entry for entry the fulfilled non-null results, in input order, repeated values kept: as many values as such results |
| QuranTafseer.Available | src/services/quranTafseerService.ts:191 | the availability test on a fetch result; `AvailabilityOfFetch` states when it holds in terms of the source and the reply |
| QuranTafseer.AvailabilityOfFetch | src/services/quranTafseerService.ts:184-196 | available iff the source is known and the reply text is not blank |
| Hadith.FirstMatch | src/services/hadithService.ts:358 | the first position from `p` where `Narrated` (any case) and white space start, or -1 iff none |
| Hadith.ExtractNarrator | src/services/hadithService.ts:356-360 | empty for empty text or no match; a non-empty result comes from a match and contains no `:`; `ExtractNarratorValue` states its value |
| Hadith.ExtractNarratorValue | src/services/hadithService.ts:356-360 | at the leftmost case-insensitive `Narrated` plus white space, the result is the trimmed text from after that white space up to the first colon |
| Hadith.MatchFound | src/services/hadithService.ts:358 | the pattern matches somewhere iff there is a leftmost match |
| Hadith.NarratorOfHeader | src/services/hadithService.ts:356-360 | `Narrated <name>:<rest>` gives the trimmed name |
| Hadith.FindCollection | src/services/hadithService.ts:234 | the collection with that id, or none iff there is none |
| Hadith.TotalHadiths | src/services/hadithService.ts:235 | the collection's total, or 1000 when it is unknown or 0 |
| Hadith.EstimatedBooks | src/services/hadithService.ts:238-244 | the book estimate is at least 37 |
| Hadith.HadithsPerBook | src/services/hadithService.ts:246 | the least count per book covering the total |
| Hadith.FetchRange | src/services/hadithService.ts:247-248 | start `(b - 1) * hpb + 1`; end is `b * hpb + 50` capped at the total |
| Hadith.RangesOverlapNextBook | src/services/hadithService.ts:247-248 | a book's range overlaps the next book's by 50 unless it reaches the total |
| Hadith.Batches | src/services/hadithService.ts:252-256 | consecutive, disjoint batches of at most 20, the first starting at `start` and the last ending at `end`; none iff `start > end` |
| Hadith.BatchesCoverRange | src/services/hadithService.ts:252-256 | every number in `[start, end]` lies in a batch, and every batch lies in the range |
| Hadith.RecordOf | src/services/hadithService.ts:268-276 | a pushed record carries the requested book number, a status defaulting to `Sahih`, and a narrator without `:` |
| Hadith.RecordNumber | src/services/hadithService.ts:268-276 | the record's number reads back as the hadith's number, or as the index when it has none |
| Hadith.SectionFold | src/services/hadithService.ts:284-302 | the second pass only appends, and keeps every record stamped with the book number |
| Hadith.ReferenceRecords | src/services/hadithService.ts:265-279 | the first pass adds at most one record per hadith, each stamped with the book number |
| Hadith.ReferencePass | src/services/hadithService.ts:265-279 | the loop appends exactly `ReferenceRecords` |
| Hadith.SectionPass | src/services/hadithService.ts:284-302 | the loop leaves exactly `SectionFold` |
| Hadith.SectionPassAddsNewNumbers | src/services/hadithService.ts:289 | each record the second pass adds has a number not already listed |
| Hadith.AfterResponse | src/services/hadithService.ts:256-315 | a response only appends records, all stamped with the book number |
| Hadith.Collected | src/services/hadithService.ts:256-315 | every collected record carries the requested book number |
| Hadith.CollectHadiths | src/services/hadithService.ts:256-315 | the loop over the responses leaves exactly `Collected` |
| Hadith.StampedPermutation | src/services/hadithService.ts:319 | sorting keeps every record stamped |
| Hadith.FetchHadithsByBook | src/services/hadithService.ts:224-326 | a non-numeric book gives nothing; otherwise the batches cover the book's range, and the result is a permutation of the collected records, sorted by number, with records of equal number in the order they were collected, each stamped and numbered |
| Hadith.HadithLe | src/services/hadithService.ts:319 | the hadith sort's comparison by parsed number; `HadithLeIsTotalPreorder` proves it a total preorder and `FetchHadithsByBook` returns the hadiths sorted by it |
| Seqs.SortByStable | src/services/hadithService.ts:319 | the sort is stable: the records equal to any one come out in the order they went in |
| Hadith.HadithLeIsTotalPreorder | src/services/hadithService.ts:319 | the comparison is reflexive, transitive and total |
| Hadith.MapSet | src/services/hadithService.ts:116-119 | `bookMap.set` updates the entry and appends a new key at the end of the insertion order |
| Hadith.BookCount | src/services/hadithService.ts:101-112 | the count is at least 37, and `ahmad` (listed as 0) gets 50 |
| Hadith.Placeholders | src/services/hadithService.ts:115-120 | the placeholder map is well formed |
| Hadith.PlaceholdersShape | src/services/hadithService.ts:115-120 | keys 1..n in order, each holding `Book i` with no numbers |
| Hadith.AddPlaceholders | src/services/hadithService.ts:115-120 | the loop leaves exactly `Placeholders(bookCount)` |
| Hadith.SampleSize | src/services/hadithService.ts:124 | the least of 50 and twice the book count |
| Hadith.SampleInterval | src/services/hadithService.ts:125 | at least 1; for a size up to 1000, the floor of `1000 / size` |
| Hadith.SampleIndices | src/services/hadithService.ts:124-128 | `sampleSize` indices `1 + k * interval`, all within 1..1000 |
| Hadith.SampleOfEveryCollection | src/services/hadithService.ts:124-125 | every collection samples 50 hadiths, 20 apart |
| Hadith.SectionStep | src/services/hadithService.ts:140-150 | the section's book exists with its name (or the placeholder); other books keep their numbers; keys only grow at the end |
| Hadith.HadithStep | src/services/hadithService.ts:156-163 | a counted hadith's number joins its book; keys and names are kept |
| Hadith.SectionsFold | src/services/hadithService.ts:139-151 | the section loop keeps the map well formed and only appends keys |
| Hadith.HadithsFold | src/services/hadithService.ts:155-163 | the hadith loop keeps the map well formed and the keys unchanged |
| Hadith.SamplesFold | src/services/hadithService.ts:129-173 | the callbacks keep the map well formed and only append keys |
| Hadith.ApplySections | src/services/hadithService.ts:139-151 | the loop leaves exactly `SectionsFold` |
| Hadith.ApplyHadiths | src/services/hadithService.ts:155-163 | the loop leaves exactly `HadithsFold` |
| Hadith.ApplySamples | src/services/hadithService.ts:129-173 | the callbacks leave exactly `SamplesFold` |
| Hadith.BooksOf | src/services/hadithService.ts:183-189 | one book per key, in iteration order |
| Hadith.ConvertMap | src/services/hadithService.ts:183-189 | the conversion loop leaves exactly `BooksOf` |
| Hadith.BooksOfKeyed | src/services/hadithService.ts:183-189 | converted books carry their key as number, all distinct |
| Hadith.StrictlyIncreasing | src/services/hadithService.ts:214 | sorted distinct book numbers strictly increase |
| Hadith.FetchBooks | src/services/hadithService.ts:94-221 | a permutation of the built books, sorted by number, distinct, with every book 1..count present; the sampled indices are `sampleSize` many within 1..1000 |
| Hadith.BookLe | src/services/hadithService.ts:214 | the book sort's comparison by parsed number; `BookLeIsTotalPreorder` proves it a total preorder and `FetchBooks` returns the books sorted by it |
| Hadith.BookLeIsTotalPreorder | src/services/hadithService.ts:214 | the comparison is reflexive, transitive and total |
| Hadith.PlaceholderBooksKept | src/services/hadithService.ts:115-173 | the placeholder books 1..n stay first, in order, whatever the samples add |
| Hadith.FallbackBooks | src/services/hadithService.ts:192-211 | books 1..count with placeholder names and no hadiths |
| Hadith.FallbackIsPlaceholderBooks | src/services/hadithService.ts:192-211 | the fallback equals the placeholder books, so the branch can never find an empty list |
| QuranService.JsNumber | src/services/quranService.ts:65 | `Number(id)`: blank text is 0 |
| QuranService.JsNumberOfIntToString | src/services/quranService.ts:65 | `Number` reads a decimal integer back |
| QuranService.OfflineAyahs | src/services/quranService.ts:69-73 | five placeholder ayahs numbered 1..5, each with audio `""` |
| QuranService.OfflineSurah | src/services/quranService.ts:64-74 | number `Number(id)`, name `Surah <id>`, five ayahs numbered 1..5 with audio `""` |
| QuranService.FetchSurahByIdWithTranslation | src/services/quranService.ts:30-76 | surah `1` in `ar` is the bundled data with no request; otherwise one request to `/surah/<id>/<translation>`, and on failure the bundled data for `1` or the offline surah |
| QuranService.OfflineRequests | src/services/quranService.ts:60-74 | a failed request gives the bundled surah for `1`, else the five-ayah fallback |
| QuranService.Pad3 | src/services/quranService.ts:124-125 | `padStart(3, "0")` on 0..999: three digits with the number's value |
| QuranService.SudaisFileName | src/services/quranService.ts:123-126 | the padded `sssaaa.mp3` file name; `SudaisFileNameRoundTrip` states its shape and that it reads back |
| QuranService.SudaisUrl | src/services/quranService.ts:130 | the recitation URL; `SudaisUrlsDistinct` states that it is distinct per ayah, `SudaisAyahs` that each ayah carries it |
| QuranService.SudaisFileNameRoundTrip | src/services/quranService.ts:123-126 | the file name is ten characters: three digits of the surah, three of the ayah, `.mp3`, each part reading back |
| QuranService.SudaisUrlsDistinct | src/services/quranService.ts:121-133 | different ayahs get different URLs |
| QuranService.SudaisAyahs | src/services/quranService.ts:121-133 | one entry per ayah, in order, numbered as in the surah, with its Sudais URL |
| QuranService.SudaisFallback | src/services/quranService.ts:134-146 | seven entries for surah `1`, none otherwise |
| QuranService.SudaisFallbackAgrees | src/services/quranService.ts:134-146 | the hard-coded fallback URLs are those the file-name builder gives for 1:1..1:7 |
| QuranService.ReciterAyahs | src/services/quranService.ts:161-165 | the other reciters' reply mapped entry for entry, in order |
| QuranService.FetchSurahAudio | src/services/quranService.ts:108-171 | Sudais from the metadata or the fallback; the other reciters' mapping, or `[]` on failure |
| QuranService.SudaisAudioDistinct | src/services/quranService.ts:121-133 | two entries share a URL iff they have the same ayah number |
| QuranService.ToPageAyah | src/services/quranService.ts:215-220 | the field copy of a page ayah; `FetchPage` states it field for field |
| QuranService.FetchPage | src/services/quranService.ts:206-220 | a failure iff the request failed; otherwise the ayahs field for field, in order |
| SurahDetail.IsAyahBookmarked | src/pages/SurahDetail.tsx:223 | true iff the pair is in the list |
| SurahDetail.ToggleBookmark | src/pages/SurahDetail.tsx:207-221 | the pair's membership flips and every other entry's membership is kept |
| SurahDetail.ToggleShape | src/pages/SurahDetail.tsx:207-221 | a present pair is removed (a shorter sublist); an absent one is appended at the end |
| SurahDetail.ToggleTwice | src/pages/SurahDetail.tsx:207-221 | toggling an absent pair twice restores the list |
| SurahDetail.NextSurah | src/pages/SurahDetail.tsx:274-278 | 114 goes to 1, n to n+1; nothing with an empty list or no surah |
| SurahDetail.PrevSurah | src/pages/SurahDetail.tsx:279-283 | 1 goes to 114, n to n-1; nothing with an empty list or no surah |
| SurahDetail.NextPrevInverse | src/pages/SurahDetail.tsx:274-283 | within 1..114 the two are inverse to each other |
| SurahDetail.SurahSearch | src/pages/SurahDetail.tsx:286-299 | the whole list for an empty query; otherwise the order-preserving sublist of exactly the matches, with each one's number of occurrences |
| SurahDetail.MergeTexts | src/pages/SurahDetail.tsx:159-165 | ayah i gets number i+1, its text, the translation at i or `""`, and audio `""` |
| SurahDetail.MergeAudio | src/pages/SurahDetail.tsx:181-190 | applied only when the loaded surah is the one shown; then each ayah gets the audio at its index |
| SurahDetail.MergeAudioIdempotent | src/pages/SurahDetail.tsx:181-190 | merging the same reply twice is the same as once |
| SurahDetail.MergeAudioKeepsTexts | src/pages/SurahDetail.tsx:181-190 | the merge keeps every text and translation |
| SurahDetail.ConvertToAudioAyah | src/pages/SurahDetail.tsx:226-232 | number, text and audio from the ayah, surah number and name from the surah or 0 and `""` |
| SurahDetail.Convert | src/pages/SurahDetail.tsx:249 | the playlist of a run of ayahs; `HandlePlayAyah`, `HandlePlayAll` and `PlayAyahStartsAtClicked` state which ayahs it holds and where it starts |
| SurahDetail.FirstAyahIndex | src/pages/SurahDetail.tsx:247 | the first index with that number, or -1 iff there is none |
| SurahDetail.HandlePlayAyah | src/pages/SurahDetail.tsx:234-252 | a toggle iff that verse is current and playing; nothing without a surah; otherwise the suffix from the clicked verse at index 0 |
| SurahDetail.PlayAyahStartsAtClicked | src/pages/SurahDetail.tsx:247-251 | the playlist begins with the clicked verse |
| SurahDetail.HandlePlayAll | src/pages/SurahDetail.tsx:254-265 | a toggle iff this surah is playing; nothing without a surah; otherwise the whole surah from index 0 |
| SurahDetail.SurahToPageShape | src/pages/SurahDetail.tsx:51-67 | 114 pages, each within 1..604, never decreasing |
| SurahDetail.StartingMushafPage | src/pages/SurahDetail.tsx:380-383 | a page within 1..604; page 1 without a valid surah |
| SurahDetail.StartingPageMonotone | src/pages/SurahDetail.tsx:51-67 | a later surah never starts on an earlier page |
| TafseerPage.CountOr | src/pages/TafseerPage.tsx:77 | `count \|\| fallback`: the count unless missing or 0 |
| TafseerPage.FindSurah | src/pages/TafseerPage.tsx:74 | a listed surah with that number, or none iff there is none or the number is NaN |
| TafseerPage.InitialSelection | src/pages/TafseerPage.tsx:24-26 | each query parameter, or `"1"` when missing or empty |
| TafseerPage.NextAyah | src/pages/TafseerPage.tsx:73-83 | the next position; `NextWithinSurah`, `NextCrossesSurah` and `NextStops` state its three cases |
| TafseerPage.NextWithinSurah | src/pages/TafseerPage.tsx:77-78 | inside a surah, next moves one ayah on and keeps the surah |
| TafseerPage.NextCrossesSurah | src/pages/TafseerPage.tsx:79-82 | at or past the last ayah below surah 114, next goes to ayah 1 of the next surah |
| TafseerPage.NextStops | src/pages/TafseerPage.tsx:73-83 | next changes nothing at the end of 114 or for an unlisted surah |
| TafseerPage.PrevAyah | src/pages/TafseerPage.tsx:85-95 | the previous position; `PrevWithinSurah`, `PrevCrossesSurah` and `PrevStopsAtStart` state its cases, `PrevUndoesNext` its relation to `NextAyah` |
| TafseerPage.PrevWithinSurah | src/pages/TafseerPage.tsx:86-87 | above ayah 1, previous moves one ayah back |
| TafseerPage.PrevCrossesSurah | src/pages/TafseerPage.tsx:88-93 | at ayah 1, previous goes to the last ayah (`numberOfAyahs \|\| 1`) of a listed previous surah, otherwise nothing |
| TafseerPage.PrevStopsAtStart | src/pages/TafseerPage.tsx:85-95 | previous changes nothing at 1:1 |
| TafseerPage.PrevUndoesNext | src/pages/TafseerPage.tsx:73-95 | from a valid position other than the last, previous undoes next |
| TafseerPage.SelectSurah | src/pages/TafseerPage.tsx:127-130 | the surah is the chosen value and the ayah reads as 1 |
| TafseerPage.OneTo | src/pages/TafseerPage.tsx:145 | 1..n in order, empty for a negative n |
| TafseerPage.AyahChoices | src/pages/TafseerPage.tsx:145 | `1..(numberOfAyahs \|\| 286)` for the selected surah, 286 when it is unlisted |
| TafseerPage.NextWithinIsAChoice | src/pages/TafseerPage.tsx:77-78 | stepping within a surah lands on an offered ayah |
| TafseerForm.SelectionForm.constructor | src/pages/TafseerPage.tsx:24-26 | the fields start at `InitialSelection` |
| TafseerForm.SelectionForm.HandleNextAyah | src/pages/TafseerPage.tsx:73-83 | the fields become `NextAyah` of the old selection |
| TafseerForm.SelectionForm.HandlePrevAyah | src/pages/TafseerPage.tsx:85-95 | the fields become `PrevAyah` of the old selection |
| TafseerForm.SelectionForm.HandleSurahChange | src/pages/TafseerPage.tsx:127-130 | the fields become `SelectSurah` of the old selection |
| HisnulMuslim.MapDua | src/pages/HisnulMuslim.tsx:220-225 | id `String(ID)` (reads back as the number), both texts, audio URL null iff `AUDIO` is missing or empty |
| HisnulMuslim.MapCategory | src/pages/HisnulMuslim.tsx:217-226 | the title, and one dua per `TEXT` entry in order, none when `TEXT` is not an array |
| HisnulMuslim.MapCategories | src/pages/HisnulMuslim.tsx:215-229 | one category per raw entry, in order; none without the English list |
| HisnulMuslim.Toggle | src/pages/HisnulMuslim.tsx:232-239 | membership of `x` flips, every other membership is kept |
| HisnulMuslim.ToggleTwice | src/pages/HisnulMuslim.tsx:253-260 | toggling twice is the identity |
| HisnulMuslim.Lookup | src/pages/HisnulMuslim.tsx:66-153 | the group the table gives the name, or none iff the table does not list it |
| HisnulMuslim.GroupOf | src/pages/HisnulMuslim.tsx:245 | the table's group, or `Other` when the name is unlisted |
| HisnulMuslim.TableGroupsAreMain | src/pages/HisnulMuslim.tsx:43-153 | every group of `CATEGORY_TO_GROUP` is one of `MAIN_GROUPS`, and so is `Other` |
| HisnulMuslim.GroupOfAmong | src/pages/HisnulMuslim.tsx:245 | a table whose groups are among a list gives a group of that list |
| HisnulMuslim.GroupOfIsMain | src/pages/HisnulMuslim.tsx:245 | every category's group is a main group |
| HisnulMuslim.Grouped | src/pages/HisnulMuslim.tsx:242-250 | the grouping of the categories; `GroupedIsFilter` states its contents and `GroupCategories` that the loop builds it |
| HisnulMuslim.GroupedIsFilter | src/pages/HisnulMuslim.tsx:242-250 | a group appears iff some category is in it, and holds exactly its categories in input order |
| HisnulMuslim.EachCategoryInOneGroup | src/pages/HisnulMuslim.tsx:242-250 | every category appears in its own group and in no other |
| HisnulMuslim.GroupCategories | src/pages/HisnulMuslim.tsx:242-250 | the loop leaves exactly `Grouped` |
| HisnulMuslim.Listed | src/pages/HisnulMuslim.tsx:264-265 | one entry per dua of the category |
| HisnulMuslim.AllDuas | src/pages/HisnulMuslim.tsx:263-266 | the flat dua list; `AllDuasLength` and `AllDuasMembership` state its length and its entries |
| HisnulMuslim.AllDuasLength | src/pages/HisnulMuslim.tsx:263-266 | the flat list's length is the sum of the category sizes |
| HisnulMuslim.AllDuasMembership | src/pages/HisnulMuslim.tsx:263-266 | an entry is listed iff it is an entry of one of the categories |
| HisnulMuslim.FavoriteDuas | src/pages/HisnulMuslim.tsx:269 | the order-preserving sublist of exactly the entries whose id is a favourite, with each one's number of occurrences |
| HisnulMuslim.FavoriteToggleOn | src/pages/HisnulMuslim.tsx:253-269 | adding a favourite adds exactly the entries with that id |
| Bookmarks.LoadBookmarks | src/pages/Bookmarks.tsx:144-170 | empty unless the stored value is a non-empty array starting with a non-null object; a non-empty result has one entry per element |
| Bookmarks.ToBookmark | src/pages/Bookmarks.tsx:159-161 | the conversion of one stored item; `LoadObjects` and `LoadBookmarks` state what the list becomes |
| Bookmarks.LoadObjects | src/pages/Bookmarks.tsx:158-164 | objects convert entry for entry, in order, `surah` and `ayah` carried over |
| Bookmarks.LoadsSurahDetailList | src/pages/Bookmarks.tsx:144-164 | the list the surah page stores loads back as the same pairs in the same order |
| Bookmarks.SurahNames | src/pages/Bookmarks.tsx:181-185 | the table's names, or `Surah n` for both when the number is unknown |
| Bookmarks.Enrich | src/pages/Bookmarks.tsx:180-216 | numbers carried over, names from the table, texts or `""`, and empty texts for a failed fetch |
| Bookmarks.EnrichAll | src/pages/Bookmarks.tsx:178-219 | one enriched entry per stored entry, in order; failures are kept |
| Bookmarks.UnknownSurahName | src/pages/Bookmarks.tsx:181-185 | an unknown surah shows as `Surah n` under both names |
| Bookmarks.RemoveBookmark | src/pages/Bookmarks.tsx:227-232 | the order-preserving sublist without the matching entries, every other entry kept with each one's number of occurrences |
| Bookmarks.Minimal | src/pages/Bookmarks.tsx:235-238 | one `{ surah, ayah }` per entry, in order |
| Bookmarks.MinimalRoundTrip | src/pages/Bookmarks.tsx:235-239 | reloading the stored minimal form gives back the pairs shown |
| Bookmarks.RemovedIsGone | src/pages/Bookmarks.tsx:227-239 | the removed pair is neither shown nor stored |
| PageView.PreviousDisabled | src/components/PageView.tsx:77 | the previous button's guard; `ButtonsMatchGuards` states that the button changes the page iff it is enabled |
| PageView.NextDisabled | src/components/PageView.tsx:90 | the next button's guard; `ButtonsMatchGuards` states that the button changes the page iff it is enabled |
| PageView.PreviousPage | src/components/PageView.tsx:59-63 | one page back above 1, otherwise unchanged |
| PageView.NextPage | src/components/PageView.tsx:65-69 | one page on below 604, otherwise unchanged |
| PageView.ButtonsMatchGuards | src/components/PageView.tsx:59-90 | a button changes the page iff it is enabled, and the page stays within 1..604 |
| PageView.PreviousUndoesNext | src/components/PageView.tsx:59-69 | below the last page, previous undoes next |
| PageView.AyahPart | src/components/PageView.tsx:52-55 | `_`, the ayah number, `.png` |
| PageView.AyahImageUrl | src/components/PageView.tsx:50-56 | `base/high-resolution/s_a.png` in high quality, else `base/s_a.png` |
| PageView.ImageFile | src/components/PageView.tsx:53-55 | the `surah_ayah.png` file name; `ImageFileRoundTrip` and `ImageFilesDistinct` state that it reads back and is distinct per ayah |
| PageView.ImageFileRoundTrip | src/components/PageView.tsx:50-56 | the file name reads back as its surah, and after the `_` as its ayah |
| PageView.ImageFilesDistinct | src/components/PageView.tsx:50-56 | different ayahs get different file names |
| PageView.ImageUrlsDistinct | src/components/PageView.tsx:50-56 | different ayahs get different image URLs |
| PageView.PageViewer.constructor | src/components/PageView.tsx:12-18 | page `initialPage` (default 1), quality default off, loading, one request for that page |
| PageView.PageViewer.RunEffect | src/components/PageView.tsx:24-28 | a new request for the page, loading, error cleared |
| PageView.PageViewer.HandlePreviousPage | src/components/PageView.tsx:59-63 | the page becomes `PreviousPage`; it refetches iff the page moved |
| PageView.PageViewer.HandleNextPage | src/components/PageView.tsx:65-69 | the page becomes `NextPage`; it refetches iff the page moved |
| PageView.PageViewer.Deliver | src/components/PageView.tsx:30-46 | a reply is applied only to the last request; the shown ayahs are always those of the current page |
| GlobalPlayer.FormatTime | src/components/GlobalPlayer.tsx:33-37 | the `m:ss` label; `MinutesAndSeconds`, `FormatWholeSeconds`, `SecondsTwoDigits` and `FormatTimeShape` state what it shows |
| GlobalPlayer.Trunc | src/components/GlobalPlayer.tsx:35 | truncation toward zero, which JavaScript's `%` uses |
| GlobalPlayer.MinutesAndSeconds | src/components/GlobalPlayer.tsx:33-36 | for `t >= 0`, the seconds lie in 0..59 and `min * 60 + sec == floor(t)` |
| GlobalPlayer.FormatWholeSeconds | src/components/GlobalPlayer.tsx:33-36 | whole seconds `n` show as `n div 60`, a colon, `n mod 60` |
| GlobalPlayer.SecondsTwoDigits | src/components/GlobalPlayer.tsx:36 | the seconds field is two digits that read back as the seconds |
| GlobalPlayer.FormatTimeShape | src/components/GlobalPlayer.tsx:33-36 | `<minutes>:<ss>` with exactly one colon, the minutes and seconds reading back |
| GlobalPlayer.Render | src/components/GlobalPlayer.tsx:22-93 | nothing iff there is no current ayah; otherwise its surah name and both times formatted |
| AlQuranPage.HandleSearch | src/pages/AlQuranPage.tsx:35-43 | the order-preserving sublist of exactly the surahs whose names or number match the lower-cased term, with each one's number of occurrences |
| AlQuranPage.ShownCount | src/pages/AlQuranPage.tsx:61 | the filtered count out of the whole list |
| AlQuranPage.EmptySearchKeepsAll | src/pages/AlQuranPage.tsx:37-42 | an empty term keeps every surah |
| AlQuranPage.SameAsSurahDetailSearch | src/pages/AlQuranPage.tsx:35-43 | the same filter as the surah page's search |

## Left out

- Network I/O: `fetch`, `AbortController` timeouts, `Promise.all` and the 5-second `Promise.race` of the hadith service. Each reply is a parameter, given in the order its callback ran.
- Browser storage: `localStorage` and `JSON.parse`. The parsed value is a parameter, and numeric fields are read only as numbers or absent.
- The clock: `dateAdded` of a loaded bookmark. Clipboard, `navigator.share` and `alert` are also left out.
- The media element's real behaviour and `navigator.mediaSession`. The element is a value with source, paused flag, position, duration and a load count, and its `play()` promise is a boolean parameter.
- The lock-screen metadata effect of `AudioContext.tsx` (:119-132) is not modelled.
- React scheduling and closures. Effects run only where a method is called. The `ended` handler installed at mount captures the first `playNextAuto`, and so the first `playlist`; the model follows the rule at :137-145 as written.
- Floating point: times are exact reals. A `NaN` duration is modelled as 0, which is falsy like `NaN`, and the progress-bar click-to-seek fraction is not modelled.
- Playback.TimeUpdate: states progress as `progress * duration == 100 * time`, not the rounded quotient.
- `toLowerCase` is modelled on ASCII letters only. Regular expressions are modelled only for the specific scans the code performs: tag stripping, the diacritic range, the narrator pattern and blank-line collapsing.
- `Array.prototype.sort` is modelled as an insertion sort by the same comparison. It is stable, as the sort of ES2019 engines is: records with equal numbers keep the order in which they were collected.
- `parseInt` and `Number` are modelled on decimal integers with an optional sign after leading white space. Other forms (hexadecimal, exponents, fractions, `Infinity`) are not modelled.
- Object lookups by key: prototype keys such as `constructor` and `NaN` section keys are not modelled.
- The bundled surah 1 data of the Quran service is a parameter. The `surahInfo` names table of the bookmarks page is a map parameter; its contents are not transcribed.
- The full `BOOK_CATEGORIES` and configuration texts take part only through `CollectionOf`: no lemma reads the concrete string tables, which are too large to reason about cheaply.
- IslamicBooks.BookLibrary.UpdateTotalChapters: books are values. In the source `getAllBooks` and `getBookById` hand out the collection's own objects, and the chapter fetch writes `totalChapters` into the shared object; the model does not show that update through books or lists returned earlier (aliasing of shared objects is not modelled).
- `fetchBookChapter` (islamicBooksService.ts:447-525) is not modelled: its markdown content template, section lookup and word count are presentation built on a fetched reply.
- `fetchSurahList` and `fetchHadithByNumber` are thin request wrappers and are not modelled.
- Rendering, routing, styling, debounced search timers and locale-aware sorting are not modelled. The pages that carry no logic of their own are also left out.
- IslamicBooks.FormatReadingTime: whole minutes only; fractional minutes (not produced by the callers, which use `Math.ceil`) are not modelled.
- GlobalPlayer.FormatTimeShape: proved for times of at least 0; negative times are formatted by the same function but their shape is not stated.
