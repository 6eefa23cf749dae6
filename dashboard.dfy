/**
 * The dashboard (src/components/Dashboard.tsx): the count of personal prompts per
 * category that feeds the category chart, the chart's "has data" test, and the first
 * four favourites.
 *
 * The `{ [category]: count }` object is an association list in insertion order, which
 * is the order `Object.entries` lists string keys in.
 */
module Dashboard {
  import opened Types
  import opened Seqs

  /** One chart entry: a category and how many prompts it has. */
  type Counts = seq<(string, nat)>

  function Keys(counts: Counts): (r: seq<string>)
    ensures |r| == |counts|
    ensures forall i :: 0 <= i < |counts| ==> r[i] == counts[i].0
  {
    if counts == [] then [] else [counts[0].0] + Keys(counts[1..])
  }

  predicate DistinctKeys(counts: Counts) {
    forall i, j :: 0 <= i < j < |counts| ==> counts[i].0 != counts[j].0
  }

  /** `acc[key] || 0`. */
  function Lookup(counts: Counts, key: string): nat {
    if counts == [] then 0
    else if counts[0].0 == key then counts[0].1
    else Lookup(counts[1..], key)
  }

  /** `acc[key] = (acc[key] || 0) + 1`: an existing key keeps its place, a new one goes last. */
  function Bump(counts: Counts, key: string): Counts {
    if counts == [] then [(key, 1)]
    else if counts[0].0 == key then [(key, counts[0].1 + 1)] + counts[1..]
    else [counts[0]] + Bump(counts[1..], key)
  }

  /** The sum of the chart's counts. */
  function Sum(counts: Counts): nat {
    if counts == [] then 0 else counts[0].1 + Sum(counts[1..])
  }

  /** How many entries of the list are in the category. */
  function CountIn(ps: seq<Prompt>, category: string): nat {
    if ps == [] then 0
    else CountIn(ps[..|ps| - 1], category) + (if ps[|ps| - 1].category == category then 1 else 0)
  }

  /** The categories of the list, each once, in the order they first appear. */
  function FirstAppearances(ps: seq<Prompt>): seq<string> {
    if ps == [] then []
    else
      var earlier := FirstAppearances(ps[..|ps| - 1]);
      if ps[|ps| - 1].category in earlier then earlier else earlier + [ps[|ps| - 1].category]
  }

  /** Every category of the list appears in `FirstAppearances`, once, and nothing else does. */
  lemma {:induction false} FirstAppearancesSpec(ps: seq<Prompt>)
    ensures forall c :: c in FirstAppearances(ps) <==> exists p :: p in ps && p.category == c
    ensures forall i, j :: 0 <= i < j < |FirstAppearances(ps)| ==> FirstAppearances(ps)[i] != FirstAppearances(ps)[j]
  {
    if ps != [] {
      var init := ps[..|ps| - 1];
      FirstAppearancesSpec(init);
      assert ps == init + [ps[|ps| - 1]];
      forall c ensures c in FirstAppearances(ps) <==> exists p :: p in ps && p.category == c {
        if c in FirstAppearances(init) {
          var p :| p in init && p.category == c;
          assert p in ps;
        }
        if p :| p in ps && p.category == c {
          if p != ps[|ps| - 1] {
            assert p in init;
          }
        }
      }
    }
  }

  /** The properties of one `Bump` that the count relies on. */
  lemma BumpSpec(counts: Counts, key: string)
    ensures Keys(Bump(counts, key)) == if key in Keys(counts) then Keys(counts) else Keys(counts) + [key]
    ensures forall c :: Lookup(Bump(counts, key), c) == Lookup(counts, c) + (if c == key then 1 else 0)
    ensures Sum(Bump(counts, key)) == Sum(counts) + 1
    ensures (forall e :: e in counts ==> e.1 > 0) ==> forall e :: e in Bump(counts, key) ==> e.1 > 0
  {
    BumpKeys(counts, key);
    BumpCounts(counts, key);
  }

  /** A bumped key keeps its place; a new key goes last. */
  lemma {:induction false} BumpKeys(counts: Counts, key: string)
    ensures Keys(Bump(counts, key)) == if key in Keys(counts) then Keys(counts) else Keys(counts) + [key]
  {
    if counts != [] && counts[0].0 != key {
      BumpKeys(counts[1..], key);
      var b := Bump(counts, key);
      assert b == [counts[0]] + Bump(counts[1..], key);
      assert Keys(b) == [counts[0].0] + Keys(Bump(counts[1..], key));
      assert Keys(counts) == [counts[0].0] + Keys(counts[1..]);
      assert key in Keys(counts) <==> key in Keys(counts[1..]);
      if key !in Keys(counts) {
        assert Keys(counts) + [key] == [counts[0].0] + (Keys(counts[1..]) + [key]);
      }
    }
  }

  /** One more for the key, the same for every other key, one more in all, and no zero count. */
  lemma {:induction false} BumpCounts(counts: Counts, key: string)
    ensures forall c :: Lookup(Bump(counts, key), c) == Lookup(counts, c) + (if c == key then 1 else 0)
    ensures Sum(Bump(counts, key)) == Sum(counts) + 1
    ensures (forall e :: e in counts ==> e.1 > 0) ==> forall e :: e in Bump(counts, key) ==> e.1 > 0
  {
    if counts != [] {
      var b := Bump(counts, key);
      if counts[0].0 == key {
        assert b[1..] == counts[1..];
      } else {
        BumpCounts(counts[1..], key);
        assert b[0] == counts[0] && b[1..] == Bump(counts[1..], key);
        if forall e :: e in counts ==> e.1 > 0 {
          forall e | e in b ensures e.1 > 0 {
            if e != b[0] {
              assert e in b[1..];
              assert forall e' :: e' in counts[1..] ==> e' in counts;
            }
          }
        }
      }
    }
  }

  /** A key list without repeats makes a dictionary without repeated keys. */
  lemma DistinctKeysFromKeys(counts: Counts)
    requires forall i, j :: 0 <= i < j < |Keys(counts)| ==> Keys(counts)[i] != Keys(counts)[j]
    ensures DistinctKeys(counts)
  {
    forall i, j | 0 <= i < j < |counts| ensures counts[i].0 != counts[j].0 {
      assert Keys(counts)[i] == counts[i].0 && Keys(counts)[j] == counts[j].0;
    }
  }

  /**
   * `promptsByCategory`: the `reduce` over the list, bumping each entry's category in turn.
   * The result has one entry per category in the list, in first-appearance order, each
   * holding that category's count; the counts are positive and add up to the list's length.
   */
  function PromptsByCategory(ps: seq<Prompt>): (counts: Counts)
    ensures Keys(counts) == FirstAppearances(ps)
    ensures forall c :: Lookup(counts, c) == CountIn(ps, c)
    ensures forall e :: e in counts ==> e.1 > 0
    ensures Sum(counts) == |ps|
  {
    if ps == [] then []
    else
      var acc := PromptsByCategory(ps[..|ps| - 1]);
      BumpSpec(acc, ps[|ps| - 1].category);
      Bump(acc, ps[|ps| - 1].category)
  }

  /** The chart never lists a category twice. */
  lemma PromptsByCategoryDistinct(ps: seq<Prompt>)
    ensures DistinctKeys(PromptsByCategory(ps))
  {
    FirstAppearancesSpec(ps);
    DistinctKeysFromKeys(PromptsByCategory(ps));
  }

  /** The categories a chart lists are exactly those of the list. */
  lemma ChartCategories(ps: seq<Prompt>)
    ensures forall c :: c in FirstAppearances(ps) <==> CountIn(ps, c) > 0
  {
    FirstAppearancesSpec(ps);
    forall c ensures c in FirstAppearances(ps) <==> CountIn(ps, c) > 0 {
      CountInPositive(ps, c);
    }
  }

  /** A category has a positive count exactly when some entry is in it. */
  lemma {:induction false} CountInPositive(ps: seq<Prompt>, c: string)
    ensures CountIn(ps, c) > 0 <==> exists p :: p in ps && p.category == c
  {
    if ps != [] {
      var init := ps[..|ps| - 1];
      CountInPositive(init, c);
      assert ps == init + [ps[|ps| - 1]];
      if p :| p in ps && p.category == c {
        if p != ps[|ps| - 1] {
          assert p in init;
        }
      }
      if q :| q in init && q.category == c {
        assert q in ps;
      }
    }
  }

  /** The chart's `total > 0`: the counts add up to more than zero. */
  function HasData(counts: Counts): (r: bool)
    ensures r <==> exists i :: 0 <= i < |counts| && counts[i].1 > 0
  {
    SumPositive(counts);
    Sum(counts) > 0
  }

  lemma {:induction false} SumPositive(counts: Counts)
    ensures Sum(counts) > 0 <==> exists i :: 0 <= i < |counts| && counts[i].1 > 0
  {
    if counts != [] {
      SumPositive(counts[1..]);
      if i :| 0 < i < |counts| && counts[i].1 > 0 {
        assert counts[1..][i - 1].1 > 0;
      }
      if j :| 0 <= j < |counts[1..]| && counts[1..][j].1 > 0 {
        assert counts[j + 1].1 > 0;
      }
    }
  }

  /** The dashboard's chart has data exactly when the personal list is not empty. */
  lemma HasDataIffPrompts(ps: seq<Prompt>)
    ensures HasData(PromptsByCategory(ps)) <==> ps != []
  {
  }

  const FavoritesShown := 4

  /**
   * `favoritePrompts`: the first four entries whose `isFavorite` is truthy, in list order,
   * that is, the longest prefix of at most four of the favourites view.
   */
  function FavoritePrompts(ps: seq<Prompt>): (r: seq<Prompt>)
    ensures |r| == Min(FavoritesShown, |Filter(IsFavorite, ps)|)
    ensures r == Filter(IsFavorite, ps)[..|r|]
    ensures forall p :: p in r ==> p in ps && IsFavorite(p)
    ensures |r| < FavoritesShown ==> forall p :: p in ps && IsFavorite(p) ==> p in r
  {
    var favorites := Filter(IsFavorite, ps);
    var r := Take(favorites, FavoritesShown);
    assert r == favorites[..|r|];
    assert forall k :: 0 <= k < |r| ==> r[k] in favorites;
    assert |r| < FavoritesShown ==> r == favorites;
    r
  }

  /**
   * The panel of a concatenation is the first four of the two parts' panels in turn: the
   * favourites of the first part come before any of the rest, and once the first part
   * holds four favourites, what follows it does not change the panel.
   */
  lemma FavoritesFromTheTop(a: seq<Prompt>, b: seq<Prompt>)
    ensures FavoritePrompts(a + b) == Take(FavoritePrompts(a) + FavoritePrompts(b), FavoritesShown)
  {
    FilterAppend(IsFavorite, a, b);
    TakeOfTakes(Filter(IsFavorite, a), Filter(IsFavorite, b), FavoritesShown);
  }

  /** The first `n` of a concatenation are the first `n` of the two parts' first `n`. */
  lemma TakeOfTakes(x: seq<Prompt>, y: seq<Prompt>, n: nat)
    ensures Take(x + y, n) == Take(Take(x, n) + Take(y, n), n)
  {
    var r, t := Take(x + y, n), Take(Take(x, n) + Take(y, n), n);
    assert |r| == |t|;
    forall k | 0 <= k < |r| ensures r[k] == t[k] {
      if k >= |x| {
        assert Take(x, n) == x;
      }
    }
  }
}
