/**
 * The community library page (src/components/Library.tsx): the explore list (search,
 * category filter, three sort orders), the top-twelve recommended list, and the
 * download of one card.
 *
 * Text handling assumes ASCII for case folding: `toLowerCase` only maps 'A'..'Z'.
 * JavaScript's `Array.prototype.sort` is stable; it is modelled by a stable insertion
 * sort on values.
 */
module Library {
  import opened Types
  import opened Seqs
  import Store

  // ---------------------------------------------------------------------------
  // Text
  // ---------------------------------------------------------------------------

  predicate IsAsciiUpper(c: char) {
    'A' <= c <= 'Z'
  }

  predicate IsAsciiAlnum(c: char) {
    'a' <= c <= 'z' || 'A' <= c <= 'Z' || '0' <= c <= '9'
  }

  function AsciiLower(c: char): char {
    if IsAsciiUpper(c) then (c as int + 32) as char else c
  }

  /** `toLowerCase`, on ASCII. */
  function Lower(s: string): (r: string)
    ensures |r| == |s|
    ensures forall i :: 0 <= i < |s| ==> r[i] == AsciiLower(s[i])
    ensures forall i :: 0 <= i < |s| ==> !IsAsciiUpper(r[i])
  {
    Map(AsciiLower, s)
  }

  predicate StartsWith(s: string, prefix: string) {
    |prefix| <= |s| && s[..|prefix|] == prefix
  }

  /** `hay.includes(needle)`. */
  function Includes(hay: string, needle: string): bool
    decreases |hay|
  {
    StartsWith(hay, needle) || (hay != [] && Includes(hay[1..], needle))
  }

  /** `needle` occurs in `hay` starting at position `i`. */
  predicate OccursAt(hay: string, needle: string, i: int) {
    0 <= i <= |hay| - |needle| && hay[i..i + |needle|] == needle
  }

  lemma SliceOfTail(hay: string, a: int, b: int)
    requires hay != [] && 0 <= a <= b <= |hay| - 1
    ensures hay[1..][a..b] == hay[a + 1..b + 1]
  {
    assert |hay[1..][a..b]| == b - a;
    forall k | 0 <= k < b - a ensures hay[1..][a..b][k] == hay[a + 1..b + 1][k] {
    }
  }

  /** `includes` holds exactly when the needle occurs at some position of the haystack. */
  lemma {:induction false} IncludesIff(hay: string, needle: string)
    ensures Includes(hay, needle) <==> exists i :: OccursAt(hay, needle, i)
    decreases |hay|
  {
    if StartsWith(hay, needle) {
      assert OccursAt(hay, needle, 0);
    } else if hay != [] {
      IncludesIff(hay[1..], needle);
      var n := |needle|;
      if Includes(hay[1..], needle) {
        var j :| OccursAt(hay[1..], needle, j);
        SliceOfTail(hay, j, j + n);
        assert OccursAt(hay, needle, j + 1);
      }
      if i :| OccursAt(hay, needle, i) {
        assert i != 0;
        SliceOfTail(hay, i - 1, i - 1 + n);
        assert OccursAt(hay[1..], needle, i - 1);
      }
    }
  }

  // ---------------------------------------------------------------------------
  // Explore: search and category filter
  // ---------------------------------------------------------------------------

  /** Title or author contains the term, both lower-cased; an entry without author matches by title only. */
  predicate MatchesSearch(p: Prompt, term: string) {
    Includes(Lower(p.title), Lower(term)) ||
    (p.author.Some? && Includes(Lower(p.author.value), Lower(term)))
  }

  /** An empty search term keeps every entry. */
  predicate PassesSearch(p: Prompt, term: string) {
    term == "" || MatchesSearch(p, term)
  }

  /** The category 'Todos' keeps every entry. */
  predicate PassesCategory(p: Prompt, category: string) {
    category == "Todos" || p.category == category
  }

  /** An entry the explore list shows. */
  predicate Kept(p: Prompt, term: string, category: string) {
    PassesSearch(p, term) && PassesCategory(p, category)
  }

  function SearchMatcher(term: string): Prompt -> bool {
    (p: Prompt) => MatchesSearch(p, term)
  }

  function InCategory(category: string): Prompt -> bool {
    (p: Prompt) => p.category == category
  }

  // ---------------------------------------------------------------------------
  // Sorting
  // ---------------------------------------------------------------------------

  datatype SortOrder = ByRating | ByDownloads | ByNewest

  /** 'rating' and 'downloads' are recognised; 'newest' and every other value sort by date. */
  function ParseSortOrder(s: string): SortOrder {
    if s == "rating" then ByRating
    else if s == "downloads" then ByDownloads
    else ByNewest
  }

  /** The comparator's keys, most significant first; absent metrics read as zero. */
  function Key(order: SortOrder, p: Prompt): (int, int) {
    match order
    case ByRating => (OrZero(p.rating), OrZero(p.downloads))
    case ByDownloads => (OrZero(p.downloads), OrZero(p.rating))
    case ByNewest => (p.createdAt, 0)
  }

  /** `a` sorts strictly before `b`: its key is larger, lexicographically (everything is descending). */
  predicate Ahead(order: SortOrder, a: Prompt, b: Prompt) {
    var ka, kb := Key(order, a), Key(order, b);
    ka.0 > kb.0 || (ka.0 == kb.0 && ka.1 > kb.1)
  }

  /** No entry sorts strictly before an entry that precedes it. */
  predicate SortedBy(order: SortOrder, s: seq<Prompt>) {
    forall i, j :: 0 <= i < j < |s| ==> !Ahead(order, s[j], s[i])
  }

  /** Inserts `x` after every entry it does not sort strictly before (so equal keys keep arrival order). */
  function Insert(order: SortOrder, x: Prompt, s: seq<Prompt>): (r: seq<Prompt>)
    ensures |r| == |s| + 1
    ensures multiset(r) == multiset(s) + multiset{x}
  {
    if s == [] then [x]
    else if Ahead(order, x, s[0]) then [x] + s
    else
      assert s == [s[0]] + s[1..];
      [s[0]] + Insert(order, x, s[1..])
  }

  /** Ranking is a total preorder: what is not ahead of `b` is not ahead of anything ahead of `b`. */
  lemma NotAheadThrough(order: SortOrder, a: Prompt, b: Prompt, c: Prompt)
    requires !Ahead(order, a, b) && Ahead(order, c, b)
    ensures !Ahead(order, a, c)
  {
  }

  /** Insertion adds `x` and nothing else. */
  lemma InsertMembers(order: SortOrder, x: Prompt, s: seq<Prompt>, y: Prompt)
    requires y in Insert(order, x, s)
    ensures y == x || y in s
  {
    assert y in multiset(Insert(order, x, s));
  }

  /** A head that nothing in a sorted tail is ahead of makes a sorted list with it. */
  lemma ConsSorted(order: SortOrder, h: Prompt, rest: seq<Prompt>)
    requires SortedBy(order, rest)
    requires forall y :: y in rest ==> !Ahead(order, y, h)
    ensures SortedBy(order, [h] + rest)
  {
    var r := [h] + rest;
    forall i, j | 0 <= i < j < |r| ensures !Ahead(order, r[j], r[i]) {
      assert r[j] == rest[j - 1] && rest[j - 1] in rest;
      if i > 0 {
        assert r[i] == rest[i - 1];
      }
    }
  }

  /** The tail of a sorted list is sorted, and nothing in it is ahead of the head. */
  lemma TailSorted(order: SortOrder, s: seq<Prompt>)
    requires s != [] && SortedBy(order, s)
    ensures SortedBy(order, s[1..])
    ensures forall y :: y in s[1..] ==> !Ahead(order, y, s[0])
  {
    var tail := s[1..];
    forall i, j | 0 <= i < j < |tail| ensures !Ahead(order, tail[j], tail[i]) {
      assert tail[i] == s[i + 1] && tail[j] == s[j + 1];
    }
    forall y | y in tail ensures !Ahead(order, y, s[0]) {
      var k :| 0 <= k < |tail| && tail[k] == y;
      assert s[k + 1] == y;
    }
  }

  /** Inserting into a sorted list keeps it sorted. */
  lemma {:induction false} InsertSorted(order: SortOrder, x: Prompt, s: seq<Prompt>)
    requires SortedBy(order, s)
    ensures SortedBy(order, Insert(order, x, s))
  {
    if s != [] {
      TailSorted(order, s);
      if Ahead(order, x, s[0]) {
        assert Insert(order, x, s) == [x] + s;
        forall y | y in s ensures !Ahead(order, y, x) {
          if y != s[0] {
            assert y in s[1..];
          }
          NotAheadThrough(order, y, s[0], x);
        }
        ConsSorted(order, x, s);
      } else {
        var tail := s[1..];
        var rest := Insert(order, x, tail);
        InsertSorted(order, x, tail);
        assert Insert(order, x, s) == [s[0]] + rest;
        forall y | y in rest ensures !Ahead(order, y, s[0]) {
          InsertMembers(order, x, tail, y);
        }
        ConsSorted(order, s[0], rest);
      }
    }
  }

  /** `sort` with the order's comparator: a sorted permutation of its input. */
  function SortBy(order: SortOrder, s: seq<Prompt>): (r: seq<Prompt>)
    ensures multiset(r) == multiset(s)
    ensures |r| == |s|
    ensures SortedBy(order, r)
  {
    if s == [] then []
    else
      assert s == s[..|s| - 1] + [s[|s| - 1]];
      var sorted := SortBy(order, s[..|s| - 1]);
      InsertSorted(order, s[|s| - 1], sorted);
      Insert(order, s[|s| - 1], sorted)
  }

  /**
   * `filteredAndSortedPrompts`: a copy of the community list, narrowed by the search
   * term when there is one, then by the category unless it is 'Todos', then sorted.
   * The result holds each entry that passes both filters as often as the community
   * list does, and nothing else, in the requested order.
   */
  method FilteredAndSorted(community: seq<Prompt>, searchTerm: string, categoryFilter: string, sortOrder: string)
    returns (prompts: seq<Prompt>)
    ensures |prompts| <= |community|
    ensures forall p :: multiset(prompts)[p] == if Kept(p, searchTerm, categoryFilter) then multiset(community)[p] else 0
    ensures forall p :: p in prompts ==> p in community && Kept(p, searchTerm, categoryFilter)
    ensures SortedBy(ParseSortOrder(sortOrder), prompts)
  {
    prompts := community;
    if searchTerm != "" {
      prompts := Filter(SearchMatcher(searchTerm), prompts);
    }
    if categoryFilter != "Todos" {
      prompts := Filter(InCategory(categoryFilter), prompts);
    }
    prompts := SortBy(ParseSortOrder(sortOrder), prompts);
    forall p | p in prompts
      ensures p in community && Kept(p, searchTerm, categoryFilter)
    {
      assert p in multiset(prompts);
    }
  }

  // ---------------------------------------------------------------------------
  // Recommended
  // ---------------------------------------------------------------------------

  /** An entry that carries both metrics. */
  predicate IsMeasured(p: Prompt) {
    p.rating.Some? && p.downloads.Some?
  }

  const RecommendedCount := 12

  /** `recommendedPrompts`: the measured entries by rating then downloads, the first twelve. */
  function Recommended(community: seq<Prompt>): (r: seq<Prompt>)
    ensures |r| == Min(RecommendedCount, |Filter(IsMeasured, community)|)
    ensures forall p :: p in r ==> IsMeasured(p) && p in community
    ensures multiset(r) <= multiset(Filter(IsMeasured, community))
    ensures SortedBy(ByRating, r)
  {
    var sorted := SortBy(ByRating, Filter(IsMeasured, community));
    PrefixOfSorted(ByRating, sorted, RecommendedCount);
    Take(sorted, RecommendedCount)
  }

  /** The first `n` entries of a sorted list are sorted and are some of its entries. */
  lemma PrefixOfSorted(order: SortOrder, s: seq<Prompt>, n: nat)
    requires SortedBy(order, s)
    ensures SortedBy(order, Take(s, n))
    ensures multiset(Take(s, n)) <= multiset(s)
    ensures forall p :: p in Take(s, n) ==> p in s
  {
    var r := Take(s, n);
    assert s == r + s[|r|..];
    assert multiset(s) == multiset(r) + multiset(s[|r|..]);
    forall p | p in r ensures p in s {
      assert p in multiset(r);
    }
  }

  /** In a sorted list, nothing after position `k` ranks above anything before it. */
  lemma SortedPrefixIsTop(order: SortOrder, s: seq<Prompt>, k: nat)
    requires SortedBy(order, s) && k <= |s|
    ensures forall x, y :: y in s[..k] && x in s[k..] ==> !Ahead(order, x, y)
  {
    forall x, y | y in s[..k] && x in s[k..] ensures !Ahead(order, x, y) {
      var i :| 0 <= i < k && s[..k][i] == y;
      var j :| 0 <= j < |s| - k && s[k..][j] == x;
      assert s[i] == y && s[k + j] == x;
    }
  }

  /** An element that a prefix holds fewer times than the whole list occurs after the prefix. */
  lemma MissingFromPrefix(s: seq<Prompt>, k: nat, x: Prompt)
    requires k <= |s| && multiset(s[..k])[x] < multiset(s)[x]
    ensures x in s[k..]
  {
    assert s == s[..k] + s[k..];
    assert multiset(s) == multiset(s[..k]) + multiset(s[k..]);
    assert x in multiset(s[k..]);
  }

  /** Nothing left out of the recommendations ranks above anything in them. */
  lemma RecommendedAreTop(community: seq<Prompt>)
    ensures var r := Recommended(community);
      forall x, y :: y in r && multiset(r)[x] < multiset(Filter(IsMeasured, community))[x] ==> !Ahead(ByRating, x, y)
  {
    var measured := Filter(IsMeasured, community);
    var sorted := SortBy(ByRating, measured);
    var r := Recommended(community);
    var k := |r|;
    assert r == sorted[..k];
    SortedPrefixIsTop(ByRating, sorted, k);
    forall x, y | y in r && multiset(r)[x] < multiset(measured)[x] ensures !Ahead(ByRating, x, y) {
      MissingFromPrefix(sorted, k, x);
    }
  }

  // ---------------------------------------------------------------------------
  // Download
  // ---------------------------------------------------------------------------

  function ReplaceNonAlnum(c: char): char {
    if IsAsciiAlnum(c) then c else '_'
  }

  /** `title.replace(/[^a-z0-9]/gi, '_').toLowerCase()`. */
  function DownloadStem(title: string): string {
    Lower(Map(ReplaceNonAlnum, title))
  }

  /** The name a downloaded prompt is saved under, on the library and the personal page alike. */
  function DownloadFilename(title: string): string {
    DownloadStem(title) + ".txt"
  }

  predicate IsStemChar(c: char) {
    'a' <= c <= 'z' || '0' <= c <= '9' || c == '_'
  }

  /**
   * The stem has the title's length, keeps each ASCII letter or digit (lower-cased) where
   * it was and puts '_' everywhere else, so it is made of [a-z0-9_] only and sanitising it
   * again changes nothing.
   */
  lemma DownloadStemSpec(title: string)
    ensures var stem := DownloadStem(title);
      && |stem| == |title|
      && (forall i :: 0 <= i < |title| ==> stem[i] == if IsAsciiAlnum(title[i]) then AsciiLower(title[i]) else '_')
      && (forall i :: 0 <= i < |stem| ==> IsStemChar(stem[i]))
      && DownloadStem(stem) == stem
      && DownloadFilename(title) == stem + ".txt"
  {
    var stem := DownloadStem(title);
    var again := DownloadStem(stem);
    assert |again| == |stem|;
    forall i | 0 <= i < |stem| ensures again[i] == stem[i] {
      assert IsStemChar(stem[i]);
    }
  }

  /** `handleDownload` on a library card: counts one download for the card's id and names the file. */
  method HandleDownload(store: Store.AppStore, card: Prompt) returns (filename: string)
    modifies store
    ensures store.communityPrompts == Store.IncrementDownloadsIn(old(store.communityPrompts), card.id)
    ensures store.prompts == old(store.prompts) && store.notification == old(store.notification)
    ensures store.generationsRemaining == old(store.generationsRemaining) && store.theme == old(store.theme)
    ensures filename == DownloadFilename(card.title)
  {
    store.IncrementDownloads(card.id);
    filename := DownloadStem(card.title) + ".txt";
  }
}
