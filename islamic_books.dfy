/** The Islamic library catalogue (src/services/islamicBooksService.ts): a fixed table of categories,
    a collection of hadith books built from a configuration table, and the search, filter and
    formatting helpers over it. The network fetches of chapters are outside the model; their
    responses are given as values. */
module IslamicBooks {
  import opened Optional
  import opened Text
  import opened Seqs

  datatype Difficulty = Beginner | Intermediate | Advanced | Scholar

  datatype BookCategory = BookCategory(id: string, name: string, nameArabic: string, description: string)

  datatype Book = Book(
    id: string,
    title: string,
    titleArabic: Option<string>,
    author: string,
    authorArabic: Option<string>,
    category: BookCategory,
    language: string,
    description: string,
    totalChapters: int,
    difficulty: Difficulty,
    tags: seq<string>,
    translator: Option<string>,
    apiSource: Option<string>,
    apiId: Option<string>)

  /** One entry of the table the collection is built from. */
  datatype BookConfig = BookConfig(
    apiId: string, title: string, titleArabic: string, author: string, authorArabic: string,
    translator: string, description: string, difficulty: Difficulty, tags: seq<string>)

  /** `BOOK_CATEGORIES` (:80-145), without the presentation-only icon and colour. */
  const BookCategories: seq<BookCategory> := [
    BookCategory("hadith", "Hadith", "الحديث", "Prophetic traditions and their sciences"),
    BookCategory("aqeedah", "Aqeedah", "العقيدة", "Islamic creed and theology"),
    BookCategory("fiqh", "Fiqh", "الفقه", "Islamic jurisprudence and law"),
    BookCategory("seerah", "Seerah", "السيرة", "Biography of Prophet Muhammad (ﷺ)"),
    BookCategory("tafseer", "Tafseer", "التفسير", "Quranic exegesis and commentary"),
    BookCategory("akhlaq", "Akhlaq", "الأخلاق", "Islamic ethics and character"),
    BookCategory("history", "Islamic History", "التاريخ الإسلامي", "History of Islam and Muslim civilization"),
    BookCategory("dua", "Dua & Dhikr", "الدعاء والذكر", "Supplications and remembrance of Allah")
  ]

  /** `ENGLISH_HADITH_BOOKS_CONFIG` (:148-237). */
  const BookConfigs: seq<BookConfig> := [
    BookConfig("eng-bukhari", "Sahih al-Bukhari", "صحيح البخاري", "Imam al-Bukhari", "الإمام البخاري",
      "Muhsin Khan",
      "The most authentic collection of Hadith, considered the most reliable source after the Quran. Translated by Muhsin Khan.",
      Beginner, ["hadith", "sahih", "bukhari", "authentic", "six-books", "most-reliable"]),
    BookConfig("eng-muslim", "Sahih Muslim", "صحيح مسلم", "Imam Muslim", "الإمام مسلم",
      "Abdul Hamid Siddiqui",
      "Second most authentic Hadith collection after Bukhari, known for its rigorous authentication. Translated by Abdul Hamid Siddiqui.",
      Beginner, ["hadith", "sahih", "muslim", "authentic", "six-books", "rigorous"]),
    BookConfig("eng-abudawud", "Sunan Abu Dawud", "سنن أبي داود", "Abu Dawud", "أبو داود",
      "Ahmad Hasan",
      "One of the six major Hadith collections, focusing on legal matters and practical guidance for daily life.",
      Intermediate, ["hadith", "sunan", "abu-dawud", "fiqh", "daily-life", "six-books"]),
    BookConfig("eng-tirmidhi", "Jami' at-Tirmidhi", "جامع الترمذي", "At-Tirmidhi", "الترمذي",
      "Abu Khaliyl",
      "One of the six major Hadith collections, known for its commentary on the authenticity of narrations.",
      Intermediate, ["hadith", "jami", "tirmidhi", "six-books", "commentary", "authenticity"]),
    BookConfig("eng-nasai", "Sunan an-Nasa'i", "سنن النسائي", "An-Nasa'i", "النسائي",
      "Nasiruddin al-Khattab",
      "One of the six major Hadith collections, particularly focused on matters of worship and ritual.",
      Intermediate, ["hadith", "sunan", "nasai", "six-books", "worship", "ritual"]),
    BookConfig("eng-ibnmajah", "Sunan Ibn Majah", "سنن ابن ماجه", "Ibn Majah", "ابن ماجه",
      "Nasiruddin al-Khattab",
      "One of the six major Hadith collections, containing many unique narrations not found elsewhere.",
      Intermediate, ["hadith", "sunan", "ibn-majah", "six-books", "unique-narrations"]),
    BookConfig("eng-malik", "Muwatta Malik", "موطأ مالك", "Imam Malik", "الإمام مالك",
      "Aisha Abdurrahman Bewley",
      "Early compilation of Hadith and legal opinions, foundational to the Maliki school of jurisprudence.",
      Intermediate, ["hadith", "muwatta", "malik", "maliki", "early", "jurisprudence"]),
    BookConfig("eng-nawawi", "40 Hadith Nawawi", "الأربعون النووية", "Imam An-Nawawi", "الإمام النووي",
      "Ezzeddin Ibrahim",
      "Collection of 40 essential hadiths covering fundamental aspects of Islam, compiled by Imam An-Nawawi.",
      Beginner, ["hadith", "nawawi", "forty-hadith", "essential", "fundamental"])
  ]

  /** The book built from one configuration entry (:247-262): the identifier is the API edition, the
      category is the first of the table (Hadith), the language English, and 100 chapters until a
      chapter list reports the real count. */
  function BookOf(c: BookConfig): (b: Book)
    ensures b.id == c.apiId && b.apiId == Some(c.apiId) && b.apiSource == Some("fawazahmed0-hadith-api")
    ensures b.category.id == "hadith" && b.language == "en" && b.totalChapters == 100
    ensures b.title == c.title && b.titleArabic == Some(c.titleArabic) && b.author == c.author
      && b.authorArabic == Some(c.authorArabic) && b.description == c.description
      && b.difficulty == c.difficulty && b.tags == c.tags && b.translator == Some(c.translator)
  {
    Book(c.apiId, c.title, Some(c.titleArabic), c.author, Some(c.authorArabic), BookCategories[0], "en",
      c.description, 100, c.difficulty, c.tags, Some(c.translator), Some("fawazahmed0-hadith-api"), Some(c.apiId))
  }

  /** The collection `initializeBooksCollection` builds from a configuration table (:247-262): one book
      per entry, in table order. */
  function CollectionOf(configs: seq<BookConfig>): (r: seq<Book>)
    ensures |r| == |configs|
    ensures forall k :: 0 <= k < |r| ==> r[k] == BookOf(configs[k])
  {
    Map(configs, BookOf)
  }

  /** Every book so built is an English hadith book with 100 chapters, identified by its API edition,
      and each entry gives the book with its own identifier. */
  lemma {:induction false} CollectionShape(configs: seq<BookConfig>)
    ensures forall b :: b in CollectionOf(configs) ==>
      && b.category.id == "hadith" && b.language == "en" && b.totalChapters == 100
      && b.apiId == Some(b.id) && b.apiSource == Some("fawazahmed0-hadith-api")
    ensures forall k :: 0 <= k < |configs| ==> GetBookById(CollectionOf(configs), configs[k].apiId).Some?
  {
    var r := CollectionOf(configs);
    forall b | b in r
      ensures b.category.id == "hadith" && b.language == "en" && b.totalChapters == 100
      ensures b.apiId == Some(b.id) && b.apiSource == Some("fawazahmed0-hadith-api")
    {
      var k :| 0 <= k < |r| && r[k] == b;
      assert b == BookOf(configs[k]);
    }
    forall k | 0 <= k < |configs| ensures GetBookById(r, configs[k].apiId).Some? {
      assert r[k].id == configs[k].apiId;
    }
  }

  /** `getBookCategory(id)` (:280-282): the first category with that identifier, or null. */
  function GetBookCategory(categoryId: string): (r: Option<BookCategory>)
    ensures r.Some? ==> r.value in BookCategories && r.value.id == categoryId
    ensures r.None? <==> forall k :: 0 <= k < |BookCategories| ==> BookCategories[k].id != categoryId
  {
    FindCategory(BookCategories, categoryId)
  }

  function FindCategory(cs: seq<BookCategory>, categoryId: string): (r: Option<BookCategory>)
    ensures r.Some? ==> r.value in cs && r.value.id == categoryId
    ensures r.None? <==> forall k :: 0 <= k < |cs| ==> cs[k].id != categoryId
    ensures r.Some? ==>
      exists k :: 0 <= k < |cs| && cs[k] == r.value && (forall j :: 0 <= j < k ==> cs[j].id != categoryId)
  {
    if cs == [] then None
    else if cs[0].id == categoryId then Some(cs[0])
    else
      var r := FindCategory(cs[1..], categoryId);
      assert r.Some? ==>
        exists k :: 0 <= k < |cs[1..]| && cs[1..][k] == r.value && (forall j :: 0 <= j < k ==> cs[1..][j].id != categoryId);
      assert forall k :: 0 <= k < |cs[1..]| ==> cs[1..][k] == cs[k + 1];
      r
  }

  /** `getBookById` (:293-296): the first book with that identifier, or null. */
  function GetBookById(books: seq<Book>, bookId: string): (r: Option<Book>)
    ensures r.Some? ==> r.value in books && r.value.id == bookId
    ensures forall i ::
      (0 <= i < |books| && books[i].id == bookId && (forall j :: 0 <= j < i ==> books[j].id != bookId))
      ==> r == Some(books[i])
    ensures r.None? <==> forall k :: 0 <= k < |books| ==> books[k].id != bookId
  {
    var i := FirstIndexOf(books, bookId);
    if i < 0 then None else Some(books[i])
  }

  /** `findIndex(b => b.id === bookId)`. */
  function FirstIndexOf(books: seq<Book>, bookId: string): (i: int)
    ensures -1 <= i < |books|
    ensures i >= 0 ==> books[i].id == bookId && forall j :: 0 <= j < i ==> books[j].id != bookId
    ensures i < 0 <==> forall j :: 0 <= j < |books| ==> books[j].id != bookId
  {
    if books == [] then -1
    else if books[0].id == bookId then 0
    else
      var i := FirstIndexOf(books[1..], bookId);
      if i < 0 then -1 else i + 1
  }

  /** `getBooksByCategory`, `getBooksByLanguage`, `getBooksByDifficulty` (:299-314). */
  function GetBooksByCategory(books: seq<Book>, categoryId: string): (r: seq<Book>)
    ensures IsSublist(r, books)
    ensures forall b :: b in r <==> b in books && b.category.id == categoryId
    ensures forall b :: multiset(r)[b] == if b.category.id == categoryId then multiset(books)[b] else 0
  {
    FilterIsSublist(books, (b: Book) => b.category.id == categoryId);
    FilterCounts(books, (b: Book) => b.category.id == categoryId);
    Filter(books, (b: Book) => b.category.id == categoryId)
  }

  function GetBooksByLanguage(books: seq<Book>, language: string): (r: seq<Book>)
    ensures IsSublist(r, books)
    ensures forall b :: b in r <==> b in books && b.language == language
    ensures forall b :: multiset(r)[b] == if b.language == language then multiset(books)[b] else 0
  {
    FilterIsSublist(books, (b: Book) => b.language == language);
    FilterCounts(books, (b: Book) => b.language == language);
    Filter(books, (b: Book) => b.language == language)
  }

  function GetBooksByDifficulty(books: seq<Book>, difficulty: Difficulty): (r: seq<Book>)
    ensures IsSublist(r, books)
    ensures forall b :: b in r <==> b in books && b.difficulty == difficulty
    ensures forall b :: multiset(r)[b] == if b.difficulty == difficulty then multiset(books)[b] else 0
  {
    FilterIsSublist(books, (b: Book) => b.difficulty == difficulty);
    FilterCounts(books, (b: Book) => b.difficulty == difficulty);
    Filter(books, (b: Book) => b.difficulty == difficulty)
  }

  // ---------------------------------------------------------------------------------------------
  // Search

  /** Some tag of `b`, lower-cased, contains `term`. */
  predicate SomeTagContains(b: Book, term: string) {
    exists k :: 0 <= k < |b.tags| && Contains(Lower(b.tags[k]), term)
  }

  /** The test `searchBooks` applies with the lower-cased, trimmed term (:324-330): title, author,
      description or a tag contain it after lower-casing, or an Arabic title or author contains it. */
  predicate MatchesTerm(b: Book, term: string) {
    || Contains(Lower(b.title), term)
    || Contains(Lower(b.author), term)
    || Contains(Lower(b.description), term)
    || SomeTagContains(b, term)
    || (b.titleArabic.Some? && b.titleArabic.value != "" && Contains(b.titleArabic.value, term))
    || (b.authorArabic.Some? && b.authorArabic.value != "" && Contains(b.authorArabic.value, term))
  }

  /** `searchBooks(query)` (:317-331), over the collection `books`. An empty or blank query returns the
      collection; otherwise the books matching the term, in collection order. */
  function SearchBooks(books: seq<Book>, query: string): (r: seq<Book>)
    ensures AllSpace(query) ==> r == books
    ensures IsSublist(r, books)
    ensures !AllSpace(query) ==> forall b :: b in r <==> b in books && MatchesTerm(b, Trim(Lower(query)))
    ensures !AllSpace(query) ==> forall b ::
      multiset(r)[b] == if MatchesTerm(b, Trim(Lower(query))) then multiset(books)[b] else 0
  {
    var term := Trim(Lower(query));
    LowerKeepsBlankness(query);
    if term == "" then
      FilterAll(books, (_: Book) => true);
      FilterIsSublist(books, (_: Book) => true);
      books
    else
      FilterIsSublist(books, (b: Book) => MatchesTerm(b, term));
      FilterCounts(books, (b: Book) => MatchesTerm(b, term));
      Filter(books, (b: Book) => MatchesTerm(b, term))
  }

  /** A book every supplied filter of `searchBooksAdvanced` lets through. A filter is supplied when its
      argument is truthy: a non-empty string, a difficulty, a non-empty tag list. */
  predicate PassesFilters(b: Book, categoryId: string, language: string, difficulty: Option<Difficulty>,
                          tags: seq<string>)
  {
    && (categoryId != "" ==> b.category.id == categoryId)
    && (language != "" ==> b.language == language)
    && (difficulty.Some? ==> b.difficulty == difficulty.value)
    && (tags != [] ==> HasSomeTag(b, tags))
  }

  datatype BookSearchResult = BookSearchResult(
    books: seq<Book>, totalCount: int, categories: seq<Option<BookCategory>>, languages: seq<string>)

  function CategoryIdOf(b: Book): string { b.category.id }
  function LanguageOf(b: Book): string { b.language }

  /** The test of the tag filter (:360-363): the book carries one of the given tags. */
  predicate HasSomeTag(b: Book, tags: seq<string>) {
    tags != [] && (tags[0] in b.tags || HasSomeTag(b, tags[1..]))
  }

  /** The four optional filters of `searchBooksAdvanced` (:348-368), each with its argument. */
  datatype BookFilter =
    | ByCategory(categoryId: string)
    | ByLanguage(language: string)
    | ByDifficulty(difficulty: Option<Difficulty>)
    | ByTags(tags: seq<string>)

  /** A filter applies when its argument is truthy: a non-empty string, a difficulty, a non-empty
      tag list. */
  predicate Supplied(f: BookFilter) {
    match f
    case ByCategory(id) => id != ""
    case ByLanguage(l) => l != ""
    case ByDifficulty(d) => d.Some?
    case ByTags(tags) => tags != []
  }

  /** The test of a supplied filter (:350, :355, :360, :365-367). */
  predicate Test(f: BookFilter, b: Book)
    requires Supplied(f)
  {
    match f
    case ByCategory(id) => b.category.id == id
    case ByLanguage(l) => b.language == l
    case ByDifficulty(d) => b.difficulty == d.value
    case ByTags(tags) => HasSomeTag(b, tags)
  }

  /** `if (arg) filteredBooks = filteredBooks.filter(...)`: one step of `searchBooksAdvanced`. A
      sub-list of the collection stays one, and it keeps exactly the books passing a supplied
      filter, each as often as before. */
  method Narrow(books: seq<Book>, all: seq<Book>, f: BookFilter) returns (r: seq<Book>)
    requires IsSublist(books, all)
    ensures IsSublist(r, all)
    ensures forall b :: b in r <==> b in books && (Supplied(f) ==> Test(f, b))
    ensures forall b :: multiset(r)[b] == if Supplied(f) ==> Test(f, b) then multiset(books)[b] else 0
  {
    r := books;
    if Supplied(f) {
      var p := (b: Book) => Test(f, b);
      FilterCounts(books, p);
      FilterIsSublist(books, p);
      SublistTransitive(Filter(books, p), books, all);
      r := Filter(books, p);
    }
  }

  /** The four optional filters of `searchBooksAdvanced` (:348-368), applied in turn to `books`, a
      sub-list of the collection `all`; each filter whose argument is falsy is skipped. */
  method ApplyFilters(books: seq<Book>, all: seq<Book>, categoryId: string, language: string,
                      difficulty: Option<Difficulty>, tags: seq<string>)
    returns (filteredBooks: seq<Book>)
    requires IsSublist(books, all)
    ensures IsSublist(filteredBooks, all)
    ensures forall b :: b in filteredBooks <==> b in books && PassesFilters(b, categoryId, language, difficulty, tags)
    ensures forall b :: (multiset(filteredBooks)[b] ==
      if PassesFilters(b, categoryId, language, difficulty, tags) then multiset(books)[b] else 0)
  {
    var byCategory := Narrow(books, all, ByCategory(categoryId));
    var byLanguage := Narrow(byCategory, all, ByLanguage(language));
    var byDifficulty := Narrow(byLanguage, all, ByDifficulty(difficulty));
    filteredBooks := Narrow(byDifficulty, all, ByTags(tags));
    forall b ensures b in filteredBooks <==> b in books && PassesFilters(b, categoryId, language, difficulty, tags) {
      assert b in byCategory <==> b in books && (categoryId != "" ==> b.category.id == categoryId);
      assert b in byLanguage <==> b in byCategory && (language != "" ==> b.language == language);
      assert b in byDifficulty <==> b in byLanguage && (difficulty.Some? ==> b.difficulty == difficulty.value);
      assert b in filteredBooks <==> b in byDifficulty && (tags != [] ==> HasSomeTag(b, tags));
    }
    forall b ensures multiset(filteredBooks)[b] ==
      if PassesFilters(b, categoryId, language, difficulty, tags) then multiset(books)[b] else 0
    {
      CountsCompose(multiset(books), multiset(byCategory), multiset(byLanguage), multiset(byDifficulty),
                    multiset(filteredBooks), b, categoryId != "" ==> b.category.id == categoryId,
                    language != "" ==> b.language == language,
                    difficulty.Some? ==> b.difficulty == difficulty.value, tags != [] ==> HasSomeTag(b, tags));
    }
  }

  /** Four filters in turn keep a book's count exactly when it passes all four. */
  lemma {:induction false} CountsCompose(m0: multiset<Book>, m1: multiset<Book>, m2: multiset<Book>,
                                         m3: multiset<Book>, m4: multiset<Book>, b: Book,
                                         c1: bool, c2: bool, c3: bool, c4: bool)
    requires m1[b] == (if c1 then m0[b] else 0) && m2[b] == (if c2 then m1[b] else 0)
    requires m3[b] == (if c3 then m2[b] else 0) && m4[b] == (if c4 then m3[b] else 0)
    ensures m4[b] == if c1 && c2 && c3 && c4 then m0[b] else 0
  {
  }

  /** `searchBooksAdvanced` (:334-385). An argument the caller omits is passed as `""`, `None` or `[]`.
      `filteredBooks` is narrowed one filter at a time; the result also lists, without repetition and
      in order of first occurrence, the languages and the categories (looked up by identifier) of
      the books it returns. */
  method SearchBooksAdvanced(all: seq<Book>, query: string, categoryId: string, language: string,
                             difficulty: Option<Difficulty>, tags: seq<string>)
    returns (result: BookSearchResult)
    ensures IsSublist(result.books, all)
    ensures forall b :: b in result.books <==>
      b in SearchBooks(all, query) && PassesFilters(b, categoryId, language, difficulty, tags)
    ensures AllSpace(query) ==> forall b :: b in result.books <==>
      b in all && PassesFilters(b, categoryId, language, difficulty, tags)
    ensures forall b :: (multiset(result.books)[b] ==
      if PassesFilters(b, categoryId, language, difficulty, tags) then multiset(SearchBooks(all, query))[b] else 0)
    ensures result.totalCount == |result.books|
    ensures NoDuplicates(result.languages)
    ensures forall l :: l in result.languages <==> exists b :: b in result.books && b.language == l
    ensures result.languages == GetAvailableLanguages(result.books)
    ensures result.categories == CategoriesOf(result.books)
  {
    var filteredBooks := all;
    SublistReflexive(all);
    if !AllSpace(query) {
      filteredBooks := SearchBooks(all, query);
    }
    filteredBooks := ApplyFilters(filteredBooks, all, categoryId, language, difficulty, tags);
    var categories := CategoriesOf(filteredBooks);
    var languages := GetAvailableLanguages(filteredBooks);
    result := BookSearchResult(filteredBooks, |filteredBooks|, categories, languages);
  }

  /** The categories of `books` (:371-373): one lookup per distinct category identifier, in order of
      first occurrence. */
  function CategoriesOf(books: seq<Book>): (r: seq<Option<BookCategory>>)
    ensures var ids := Dedupe(Map(books, CategoryIdOf));
      |r| == |ids| && forall k :: 0 <= k < |ids| ==> r[k] == GetBookCategory(ids[k])
    ensures forall k :: 0 <= k < |r| ==> exists b :: b in books && r[k] == GetBookCategory(b.category.id)
  {
    var ids := Dedupe(Map(books, CategoryIdOf));
    forall k | 0 <= k < |ids| ensures exists b :: b in books && ids[k] == b.category.id {
      assert ids[k] in Map(books, CategoryIdOf);
      var j :| 0 <= j < |books| && Map(books, CategoryIdOf)[j] == ids[k];
      assert books[j] in books;
    }
    Map(ids, GetBookCategory)
  }

  /** The test of `getFeaturedBooks` (:392). */
  predicate Featured(b: Book) {
    "sahih" in b.tags || "six-books" in b.tags || b.difficulty == Beginner
  }

  /** `getFeaturedBooks(limit)` (:388-396): the first `limit` featured books (a negative limit drops
      that many from the end, as `slice` does). The caller's default is 6. */
  function GetFeaturedBooks(books: seq<Book>, limit: int): (r: seq<Book>)
    ensures forall b :: b in r ==> b in books && Featured(b)
    ensures limit >= 0 ==> |r| <= limit
    ensures |r| <= |Filter(books, Featured)|
    ensures r == Filter(books, Featured)[..|r|]
    ensures limit >= 0 ==> |r| == if limit <= |Filter(books, Featured)| then limit else |Filter(books, Featured)|
  {
    Slice(Filter(books, Featured), 0, limit)
  }

  // ---------------------------------------------------------------------------------------------
  // Tags, languages, formatting

  function TagsOf(b: Book): seq<string> { b.tags }

  lemma {:induction false} StrLeIsTotalPreorder()
    ensures TotalPreorder(StrLe)
  {
    forall a, b ensures StrLe(a, b) || StrLe(b, a) {
      StrLeTotal(a, b);
    }
    forall a, b, c | StrLe(a, b) && StrLe(b, c) ensures StrLe(a, c) {
      StrLeTransitive(a, b, c);
    }
  }

  /** `getAllTags` (:537-541): every tag of every book, once each, sorted. */
  function GetAllTags(books: seq<Book>): (r: seq<string>)
    ensures SortedBy(r, StrLe)
    ensures NoDuplicates(r)
    ensures forall t :: t in r <==> exists b :: b in books && t in b.tags
  {
    var all := Flatten(Map(books, TagsOf));
    var unique := Dedupe(all);
    StrLeIsTotalPreorder();
    var r := SortBy(unique, StrLe);
    PermutationKeepsNoDuplicates(unique, r);
    forall t ensures t in r <==> exists b :: b in books && t in b.tags {
      assert t in r <==> t in multiset(r);
      assert t in unique <==> t in multiset(unique);
      FlattenMembership(Map(books, TagsOf), t);
      if t in all {
        var k :| 0 <= k < |Map(books, TagsOf)| && t in Map(books, TagsOf)[k];
        assert books[k] in books;
      }
      if exists b :: b in books && t in b.tags {
        var b :| b in books && t in b.tags;
        var k :| 0 <= k < |books| && books[k] == b;
        assert t in Map(books, TagsOf)[k];
      }
    }
    r
  }

  /** `getAvailableLanguages` (:528-531): `Array.from(new Set(...))` keeps the languages in order of
      first occurrence. */
  function GetAvailableLanguages(books: seq<Book>): (r: seq<string>)
    ensures NoDuplicates(r)
    ensures forall l :: l in r <==> exists b :: b in books && b.language == l
    ensures forall i, j :: 0 <= i < j < |r| ==> Precedes(Map(books, LanguageOf), r[i], r[j])
  {
    var ls := Map(books, LanguageOf);
    assert forall l :: l in ls <==> exists b :: b in books && b.language == l by {
      forall l ensures l in ls <==> exists b :: b in books && b.language == l {
        if exists b :: b in books && b.language == l {
          var b :| b in books && b.language == l;
          var k :| 0 <= k < |books| && books[k] == b;
          assert ls[k] == l;
        }
      }
    }
    Dedupe(ls)
  }

  /** A collection whose books all share one language offers exactly that language. */
  lemma {:induction false} SingleLanguage(books: seq<Book>, language: string)
    requires |books| > 0 && forall b :: b in books ==> b.language == language
    ensures GetAvailableLanguages(books) == [language]
  {
    var ls := Map(books, LanguageOf);
    forall k | 0 <= k < |ls| ensures ls[k] == language {
      assert books[k] in books;
    }
    DedupeConstant(ls, language);
  }

  /** `getAvailableDifficulties` (:533-535). */
  const AvailableDifficulties: seq<Difficulty> := [Beginner, Intermediate, Advanced, Scholar]

  /** `formatReadingTime(minutes)` (:544-551) for whole minutes. */
  function FormatReadingTime(minutes: int): (r: string)
    ensures minutes < 60 ==> r == IntToString(minutes) + " min read"
    ensures minutes >= 60 && minutes % 60 == 0 ==> r == NatToString(minutes / 60) + "h read"
    ensures minutes >= 60 && minutes % 60 != 0 ==>
      r == NatToString(minutes / 60) + "h " + NatToString(minutes % 60) + "m read"
  {
    if minutes < 60 then IntToString(minutes) + " min read"
    else
      var hours := minutes / 60;
      var remainingMinutes := minutes % 60;
      if remainingMinutes > 0 then NatToString(hours) + "h " + NatToString(remainingMinutes) + "m read"
      else NatToString(hours) + "h read"
  }

  /** Reads a reading-time label back into minutes: the inverse of `FormatReadingTime`. */
  function ParseReadingTime(s: string): Option<int> {
    var n := DigitPrefixLength(s);
    if n == 0 then None else ReadUnit(DigitsValue(s[..n]), s[n..])
  }

  /** What follows the leading number `v` of a label: ` min read`, `h read`, or `h <m>m read`. */
  function ReadUnit(v: int, rest: string): Option<int> {
    if rest == " min read" then Some(v)
    else if rest == "h read" then Some(60 * v)
    else if |rest| > 2 && rest[..2] == "h " then
      var u := rest[2..];
      var m := DigitPrefixLength(u);
      if m > 0 && u[m..] == "m read" then Some(60 * v + DigitsValue(u[..m])) else None
    else None
  }

  /** A label that starts with the digits of `n`, then a non-digit, has its unit read after `n`. */
  lemma {:induction false} ParseAfterNumber(n: nat, rest: string)
    requires rest == [] || !IsDigit(rest[0])
    ensures ParseReadingTime(NatToString(n) + rest) == ReadUnit(n, rest)
  {
    var d := NatToString(n);
    DigitPrefixOfDigitsThen(d, rest);
    DigitsValueOfNatToString(n);
    assert (d + rest)[..|d|] == d && (d + rest)[|d|..] == rest;
  }

  lemma {:induction false} MinutesRoundTrip(minutes: nat)
    requires minutes < 60
    ensures ParseReadingTime(FormatReadingTime(minutes)) == Some(minutes)
  {
    ParseAfterNumber(minutes, " min read");
  }

  lemma {:induction false} WholeHoursRoundTrip(minutes: nat)
    requires minutes >= 60 && minutes % 60 == 0
    ensures ParseReadingTime(FormatReadingTime(minutes)) == Some(minutes)
  {
    var h := minutes / 60;
    ParseAfterNumber(h, "h read");
    assert ReadUnit(h, "h read") == Some(60 * h);
  }

  lemma {:induction false} HoursAndMinutesRoundTrip(minutes: nat)
    requires minutes >= 60 && minutes % 60 != 0
    ensures ParseReadingTime(FormatReadingTime(minutes)) == Some(minutes)
  {
    var h, m := minutes / 60, minutes % 60;
    var rest := "h " + (NatToString(m) + "m read");
    HoursAndMinutesLabel(minutes, h, m);
    ParseAfterNumber(h, rest);
    MinutesUnit(h, m);
  }

  lemma {:induction false} HoursAndMinutesLabel(minutes: nat, h: nat, m: nat)
    requires minutes >= 60 && h == minutes / 60 && m == minutes % 60 && m != 0
    ensures FormatReadingTime(minutes) == NatToString(h) + ("h " + (NatToString(m) + "m read"))
    ensures minutes == 60 * h + m
  {
  }

  /** `h <m>m read` after the hours `h` reads as `60 * h + m`. */
  lemma {:induction false} MinutesUnit(h: int, m: nat)
    ensures ReadUnit(h, "h " + (NatToString(m) + "m read")) == Some(60 * h + m)
  {
    var e := NatToString(m);
    var u := e + "m read";
    var rest := "h " + u;
    assert rest[..2] == "h " && rest[2..] == u;
    assert rest != " min read" && rest != "h read";
    DigitPrefixOfDigitsThen(e, "m read");
    DigitsValueOfNatToString(m);
    assert u[..|e|] == e && u[|e|..] == "m read";
  }

  /** Every label for a non-negative number of minutes reads back as that number. */
  lemma {:induction false} ReadingTimeRoundTrip(minutes: nat)
    ensures ParseReadingTime(FormatReadingTime(minutes)) == Some(minutes)
  {
    if minutes < 60 {
      MinutesRoundTrip(minutes);
    } else if minutes % 60 == 0 {
      WholeHoursRoundTrip(minutes);
    } else {
      HoursAndMinutesRoundTrip(minutes);
    }
  }

  /** A combining Arabic diacritic: fathatan through sukun, U+064B..U+0652. */
  predicate IsDiacritic(c: char) {
    '\U{064B}' <= c <= '\U{0652}'
  }

  function StripDiacritics(text: string): (r: string)
    ensures forall k :: 0 <= k < |r| ==> !IsDiacritic(r[k])
    ensures forall c :: c in r <==> c in text && !IsDiacritic(c)
    ensures IsSublist(r, text)
    ensures forall c :: multiset(r)[c] == if IsDiacritic(c) then 0 else multiset(text)[c]
  {
    var r := Filter(text, c => !IsDiacritic(c));
    assert forall k :: 0 <= k < |r| ==> r[k] in r;
    FilterIsSublist(text, c => !IsDiacritic(c));
    forall c ensures multiset(r)[c] == if IsDiacritic(c) then 0 else multiset(text)[c] {
      FilterMultiset(text, c => !IsDiacritic(c), c);
    }
    r
  }

  /** `cleanArabicText` (:554-557): diacritics removed, then trimmed. */
  function CleanArabicText(text: string): (r: string)
    ensures forall k :: 0 <= k < |r| ==> !IsDiacritic(r[k])
    ensures r == Trim(StripDiacritics(text))
  {
    TrimElements(StripDiacritics(text));
    Trim(StripDiacritics(text))
  }

  /** The cleaned text is a stretch of the stripped text, in order: a prefix of what is left of
      it after its leading white space. */
  lemma {:induction false} CleanArabicTextShape(text: string)
    ensures var s, r := StripDiacritics(text), CleanArabicText(text); var t := TrimStart(s);
      && |t| <= |s| && t == s[|s| - |t|..]
      && |r| <= |t| && r == t[..|r|]
  {
    TrimIsSlice(StripDiacritics(text));
  }

  /** Cleaning a cleaned text changes nothing. */
  lemma {:induction false} CleanIsIdempotent(text: string)
    ensures CleanArabicText(CleanArabicText(text)) == CleanArabicText(text)
  {
    var r := CleanArabicText(text);
    FilterAll(r, c => !IsDiacritic(c));
    TrimIdempotent(StripDiacritics(text));
  }

  /** `text.split(' ')`: the pieces between the space characters. */
  function SplitSpaces(text: string): (r: seq<string>)
    ensures |r| >= 1
    decreases |text|
  {
    if text == [] then [""]
    else
      var rest := SplitSpaces(text[1..]);
      if text[0] == ' ' then [""] + rest else [[text[0]] + rest[0]] + rest[1..]
  }

  /** The word count `split(' ').length` (:427, :507) is the number of spaces plus one. */
  lemma {:induction false} SplitSpacesLength(text: string)
    ensures |SplitSpaces(text)| == CountChar(text, ' ') + 1
    decreases |text|
  {
    if text != [] {
      SplitSpacesLength(text[1..]);
    }
  }

  /** Joining the pieces back with spaces gives the text. */
  function JoinSpaces(pieces: seq<string>): string
    requires |pieces| >= 1
  {
    if |pieces| == 1 then pieces[0] else pieces[0] + " " + JoinSpaces(pieces[1..])
  }

  lemma {:induction false} JoinSplit(text: string)
    ensures JoinSpaces(SplitSpaces(text)) == text
    decreases |text|
  {
    if text != [] {
      JoinSplit(text[1..]);
      var rest := SplitSpaces(text[1..]);
      if text[0] == ' ' {
        assert text == " " + text[1..];
      } else if |rest| == 1 {
        assert text == [text[0]] + text[1..];
      } else {
        assert JoinSpaces(rest) == rest[0] + " " + JoinSpaces(rest[1..]);
        assert text == [text[0]] + text[1..];
      }
    }
  }

  /** `Math.ceil(words / 200)` (:428, :508): minutes at 200 words per minute. */
  function ReadingMinutes(words: nat): (r: nat)
    ensures r * 200 >= words
    ensures r == 0 || (r - 1) * 200 < words
  {
    (words + 199) / 200
  }

  /** A hadith as the edition endpoint returns it (the fields the chapter list reads). */
  datatype ApiHadith = ApiHadith(hadithnumber: int, text: string)

  datatype BookChapter = BookChapter(
    id: string, bookId: string, chapterNumber: int, title: string, titleArabic: string,
    content: string, wordCount: nat, estimatedReadingTime: nat)

  /** One entry of the chapter list (:420-429). */
  function ChapterOf(bookId: string, h: ApiHadith): BookChapter {
    var words := |SplitSpaces(h.text)|;
    var n := IntToString(h.hadithnumber);
    BookChapter(bookId + "-hadith-" + n, bookId, h.hadithnumber, "Hadith " + n, "الحديث " + n, "",
      words, ReadingMinutes(words))
  }

  /** The chapter list of `fetchBookChaptersList` (:420-429): the first twenty hadiths, in order,
      each named after its number, with the words of its text and the minutes they take at 200 a
      minute, rounded up. */
  function ChaptersList(bookId: string, hadiths: seq<ApiHadith>): (r: seq<BookChapter>)
    ensures |r| == if |hadiths| < 20 then |hadiths| else 20
    ensures forall k :: 0 <= k < |r| ==>
      var n := IntToString(hadiths[k].hadithnumber);
      && r[k].chapterNumber == hadiths[k].hadithnumber && r[k].bookId == bookId
      && r[k].id == bookId + "-hadith-" + n
      && r[k].title == "Hadith " + n && r[k].titleArabic == "الحديث " + n
      && r[k].content == ""
      && r[k].wordCount == CountChar(hadiths[k].text, ' ') + 1
      && r[k].estimatedReadingTime == ReadingMinutes(r[k].wordCount)
  {
    var first := Slice(hadiths, 0, 20);
    var r := Map(first, (h: ApiHadith) => ChapterOf(bookId, h));
    forall k | 0 <= k < |r| ensures r[k].wordCount == CountChar(hadiths[k].text, ' ') + 1 {
      SplitSpacesLength(hadiths[k].text);
    }
    r
  }

  // ---------------------------------------------------------------------------------------------
  // The module-level collection, assigned and updated in place

  /** `books` with the first book named `bookId` given `total` chapters. */
  function WithTotalChapters(books: seq<Book>, bookId: string, total: int): (r: seq<Book>)
    ensures |r| == |books|
    ensures var i := FirstIndexOf(books, bookId);
      forall k :: 0 <= k < |books| ==> r[k] == if k == i then books[k].(totalChapters := total) else books[k]
  {
    var i := FirstIndexOf(books, bookId);
    if i < 0 then books else books[i := books[i].(totalChapters := total)]
  }

  /** `ISLAMIC_BOOKS_COLLECTION`. */
  class BookLibrary {
    var collection: seq<Book>

    constructor ()
      ensures collection == []
    {
      collection := [];
    }

    /** `initializeBooksCollection` (:243-270). */
    method Initialize()
      modifies this
      ensures collection == CollectionOf(BookConfigs)
    {
      collection := CollectionOf(BookConfigs);
    }

    /** `getAllBooks` (:285-290): initialises an empty collection, then returns it. */
    method GetAllBooks() returns (books: seq<Book>)
      modifies this
      ensures old(collection) == [] ==> collection == CollectionOf(BookConfigs)
      ensures old(collection) != [] ==> collection == old(collection)
      ensures books == collection
    {
      if |collection| == 0 {
        Initialize();
      }
      books := collection;
    }

    /** The update after a chapter list is fetched (:432-435). */
    method UpdateTotalChapters(bookId: string, total: int)
      modifies this
      ensures collection == WithTotalChapters(old(collection), bookId, total)
    {
      var bookIndex := FirstIndexOf(collection, bookId);
      if bookIndex != -1 {
        collection := collection[bookIndex := collection[bookIndex].(totalChapters := total)];
      }
    }
  }
}
