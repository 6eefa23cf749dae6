/**
 * The prompt store of src/context/AppContext.tsx: the personal and community lists,
 * the free-generation counter, the theme and the notification slot, with every
 * operation the views dispatch into it.
 *
 * Each operation's list transform is a pure function here, with its properties
 * proved as lemmas; the class `AppStore` at the end holds the store's fields and
 * applies those transforms in place, one method per operation. What the browser
 * supplies (the fresh id, the clock, the confirmation answer, the parsed JSON, the
 * stored values read at start-up, the random seed favourites) is a parameter.
 */
module Store {
  import opened Types
  import opened Seqs

  /** The author label a user's own publications carry. */
  const CurrentUser := "Tú"
  const TeamAuthor := "Equipo GeniusPrompt"
  const LegacyBotAuthor := "IntelliBot"
  const TotalFreeGenerations := 10

  // ---------------------------------------------------------------------------
  // Seed catalogue and load-time fallbacks
  // ---------------------------------------------------------------------------

  /** The stand-in for a catalogue entry's title, description and text, which the model does not reproduce. */
  const SeedProse := "…"

  /** One entry of the built-in catalogue; its title, description and text are all the placeholder. */
  function Seed(id: string, category: string, createdAt: int, rating: int, downloads: int): Prompt {
    Prompt(id, SeedProse, Some(SeedProse), SeedProse, category, createdAt, Some(TeamAuthor),
           Some(rating), Some(downloads), None, Some(true))
  }

  /** `idealPrompts`: thirty published team prompts, timestamps written as yyyymmddhhmm. */
  const IdealPrompts: seq<Prompt> := [
    Seed("new-prompt-1", "Marketing", 202407011000, 49, 250),
    Seed("new-prompt-2", "Marketing", 202407011100, 48, 310),
    Seed("new-prompt-3", "Educación", 202407021000, 50, 420),
    Seed("new-prompt-4", "Educación", 202407021100, 49, 350),
    Seed("new-prompt-5", "Social Media", 202407031000, 48, 280),
    Seed("new-prompt-6", "Social Media", 202407031100, 47, 400),
    Seed("new-prompt-7", "Escritura", 202407041000, 49, 320),
    Seed("new-prompt-8", "Escritura", 202407041100, 48, 290),
    Seed("new-prompt-9", "Creatividad", 202407051000, 49, 260),
    Seed("new-prompt-10", "Creatividad", 202407051100, 48, 220),
    Seed("new-prompt-11", "Análisis de datos", 202407061000, 49, 380),
    Seed("new-prompt-12", "Análisis de datos", 202407061100, 48, 340),
    Seed("new-prompt-13", "Codificación", 202407071000, 50, 550),
    Seed("new-prompt-14", "Codificación", 202407071100, 49, 480),
    Seed("new-prompt-15", "Negocios", 202407081000, 49, 270),
    Seed("new-prompt-16", "Negocios", 202407081100, 48, 230),
    Seed("new-prompt-17", "Tecnología", 202407091000, 49, 300),
    Seed("new-prompt-18", "Tecnología", 202407091100, 50, 450),
    Seed("new-prompt-19", "Salud y Bienestar", 202407101000, 49, 210),
    Seed("new-prompt-20", "Salud y Bienestar", 202407101100, 48, 300),
    Seed("new-prompt-21", "Finanzas", 202407111000, 49, 290),
    Seed("new-prompt-22", "Finanzas", 202407111100, 48, 240),
    Seed("new-prompt-23", "Viajes", 202407121000, 49, 330),
    Seed("new-prompt-24", "Viajes", 202407121100, 48, 280),
    Seed("new-prompt-25", "Arte y Diseño", 202407131000, 50, 310),
    Seed("new-prompt-26", "Arte y Diseño", 202407131100, 49, 250),
    Seed("new-prompt-27", "Investigación", 202406151000, 49, 280),
    Seed("new-prompt-28", "Investigación", 202406161100, 47, 140),
    Seed("new-prompt-29", "Otras", 202407141000, 50, 400),
    Seed("new-prompt-30", "Otras", 202407141100, 49, 360)]

  function StripMetrics(p: Prompt): Prompt {
    p.(rating := None, downloads := None)
  }

  /** A catalogue with its metrics removed. */
  function StripCatalogue(catalogue: seq<Prompt>): (r: seq<Prompt>)
    ensures |r| == |catalogue|
    ensures forall i :: 0 <= i < |r| ==>
      r[i].rating.None? && r[i].downloads.None? && r[i] == catalogue[i].(rating := None, downloads := None)
  {
    Map(StripMetrics, catalogue)
  }

  /** `examplePrompts`: the default community list, the catalogue without metrics. */
  function ExamplePrompts(): seq<Prompt> {
    StripCatalogue(IdealPrompts)
  }

  /**
   * `initialUserPrompts`: the first three catalogue entries, each favourite by a coin
   * flip (`Math.random() > 0.7`, given here as three booleans), published only when the
   * id is 'ideal-2'.
   */
  function InitialUserPrompts(favorites: (bool, bool, bool)): seq<Prompt> {
    var Mark := (p: Prompt, fav: bool) => p.(isFavorite := Some(fav), isPublished := Some(p.id == "ideal-2"));
    [Mark(IdealPrompts[0], favorites.0), Mark(IdealPrompts[1], favorites.1), Mark(IdealPrompts[2], favorites.2)]
  }

  /** No catalogue id is 'ideal-2', so every seed personal entry starts unpublished. */
  lemma SeedPersonalUnpublished(favorites: (bool, bool, bool))
    ensures var ps := InitialUserPrompts(favorites);
      |ps| == 3 && ps[0].id == "new-prompt-1" && ps[1].id == "new-prompt-2" && ps[2].id == "new-prompt-3" &&
      (forall i :: 0 <= i < 3 ==> ps[i].isPublished == Some(false) && ps[i].rating.Some?) &&
      ps[0].isFavorite == Some(favorites.0) && ps[1].isFavorite == Some(favorites.1) &&
      ps[2].isFavorite == Some(favorites.2)
  {
    var ps := InitialUserPrompts(favorites);
    assert "new-prompt-1" != "ideal-2" && "new-prompt-2" != "ideal-2" && "new-prompt-3" != "ideal-2";
    assert ps[0].isPublished == Some(false);
  }

  /** What start-up read from one storage key: nothing, something unreadable, or a value. */
  datatype Stored<T> = Absent | Corrupt | Found(value: T)

  /** The personal list at start-up: the stored list if there is one, else the seed entries. */
  function HydratePersonal(stored: Stored<seq<Prompt>>, favorites: (bool, bool, bool)): (r: seq<Prompt>)
    ensures stored.Found? ==> r == stored.value
    ensures !stored.Found? ==> r == InitialUserPrompts(favorites)
  {
    if stored.Found? then stored.value else InitialUserPrompts(favorites)
  }

  /** `ps.some(q => q.id === id)`. */
  predicate HasId(ps: seq<Prompt>, id: string) {
    ps != [] && (ps[0].id == id || HasId(ps[1..], id))
  }

  /** The id is one of the catalogue's. */
  predicate IsSeedId(id: string) {
    HasId(IdealPrompts, id)
  }

  /** A stored catalogue entry credited to the former bot author loses its metrics on load. */
  function StripLegacyExample(p: Prompt): Prompt {
    if IsSeedId(p.id) && p.author == Some(LegacyBotAuthor) then StripMetrics(p) else p
  }

  /** The community list at start-up: the stored list, legacy examples stripped, else the examples. */
  function HydrateCommunity(stored: Stored<seq<Prompt>>): seq<Prompt> {
    if stored.Found? then Map(StripLegacyExample, stored.value) else ExamplePrompts()
  }

  /**
   * Without a stored list the community starts as the examples; a stored list keeps its
   * length and entries, except that catalogue entries by the former bot author lose their
   * metrics.
   */
  lemma HydrateCommunitySpec(stored: Stored<seq<Prompt>>)
    ensures !stored.Found? ==> HydrateCommunity(stored) == ExamplePrompts()
    ensures stored.Found? ==> var r := HydrateCommunity(stored);
      |r| == |stored.value| && forall i :: 0 <= i < |r| ==>
        var p := stored.value[i];
        if IsSeedId(p.id) && p.author == Some(LegacyBotAuthor)
        then r[i] == p.(rating := None, downloads := None)
        else r[i] == p
  {
  }

  /** The generation counter as read back from storage by `parseInt`. */
  datatype StoredCount = NoCount | Unreadable | NotANumber | Count(n: int)

  /** A stored integer is kept as it is (even a negative one); anything else falls back to 10. */
  function HydrateGenerations(stored: StoredCount): (r: int)
    ensures stored.Count? ==> r == stored.n
    ensures !stored.Count? ==> r == TotalFreeGenerations
  {
    match stored
    case Count(n) => n
    case _ => TotalFreeGenerations
  }

  datatype Theme = Light | Dark

  /** `getInitialTheme`: a stored 'dark' or 'light' wins, then the host's dark preference. */
  function InitialTheme(stored: Option<string>, prefersDark: bool): (r: Theme)
    ensures stored == Some("dark") ==> r == Dark
    ensures stored == Some("light") ==> r == Light
    ensures stored != Some("dark") && stored != Some("light") ==> (r == Dark <==> prefersDark)
  {
    if stored == Some("dark") then Dark
    else if stored == Some("light") then Light
    else if prefersDark then Dark
    else Light
  }

  function ToggledTheme(t: Theme): (r: Theme)
    ensures r != t
  {
    if t == Light then Dark else Light
  }

  // ---------------------------------------------------------------------------
  // Per-entry updates by id
  // ---------------------------------------------------------------------------

  /** `ps.map(p => p.id === id ? f(p) : p)`. */
  function UpdateWhere(ps: seq<Prompt>, id: string, f: Prompt -> Prompt): (r: seq<Prompt>)
    ensures |r| == |ps|
    ensures forall i :: 0 <= i < |ps| ==> r[i] == if ps[i].id == id then f(ps[i]) else ps[i]
  {
    if ps == [] then [] else [if ps[0].id == id then f(ps[0]) else ps[0]] + UpdateWhere(ps[1..], id, f)
  }

  /** An update that keeps every entry's id keeps the list's set of ids. */
  lemma UpdateWhereKeepsIds(ps: seq<Prompt>, id: string, f: Prompt -> Prompt)
    requires forall p :: f(p).id == p.id
    ensures Ids(UpdateWhere(ps, id, f)) == Ids(ps)
  {
    var r := UpdateWhere(ps, id, f);
    forall x | x in Ids(ps) ensures x in Ids(r) {
      var p :| p in ps && p.id == x;
      var i :| 0 <= i < |ps| && ps[i] == p;
      assert r[i].id == x && r[i] in r;
    }
    forall x | x in Ids(r) ensures x in Ids(ps) {
      var p :| p in r && p.id == x;
      var i :| 0 <= i < |r| && r[i] == p;
      assert ps[i].id == x && ps[i] in ps;
    }
  }

  function FlipFavorite(p: Prompt): Prompt {
    p.(isFavorite := Some(!IsFavorite(p)))
  }

  /** `toggleFavorite`: flips the favourite flag of the entries with the id, absent reading as false. */
  function ToggleFavoriteIn(ps: seq<Prompt>, id: string): (r: seq<Prompt>)
    ensures |r| == |ps|
    ensures forall i :: 0 <= i < |ps| && ps[i].id == id ==>
      IsFavorite(r[i]) == !IsFavorite(ps[i]) && r[i].isFavorite.Some? && r[i].(isFavorite := ps[i].isFavorite) == ps[i]
    ensures forall i :: 0 <= i < |ps| && ps[i].id != id ==> r[i] == ps[i]
  {
    UpdateWhere(ps, id, FlipFavorite)
  }

  /** Toggling twice restores every truth value; an absent flag comes back as an explicit false. */
  lemma ToggleFavoriteTwice(ps: seq<Prompt>, id: string)
    ensures var r := ToggleFavoriteIn(ToggleFavoriteIn(ps, id), id);
      |r| == |ps| && forall i :: 0 <= i < |ps| ==>
        r[i] == if ps[i].id == id then ps[i].(isFavorite := Some(IsFavorite(ps[i]))) else ps[i]
  {
  }

  function BumpDownloads(p: Prompt): Prompt {
    p.(downloads := Some(OrZero(p.downloads) + 1))
  }

  /** `incrementDownloads`: `(downloads || 0) + 1` on the community entries with the id. */
  function IncrementDownloadsIn(cs: seq<Prompt>, id: string): (r: seq<Prompt>)
    ensures |r| == |cs|
    ensures forall i :: 0 <= i < |cs| && cs[i].id == id ==>
      r[i].downloads == Some(OrZero(cs[i].downloads) + 1) && r[i].(downloads := cs[i].downloads) == cs[i]
    ensures forall i :: 0 <= i < |cs| && cs[i].id != id ==> r[i] == cs[i]
  {
    UpdateWhere(cs, id, BumpDownloads)
  }

  /** Counting a download keeps the community list's ids. */
  lemma IncrementDownloadsKeepsIds(cs: seq<Prompt>, id: string)
    ensures Ids(IncrementDownloadsIn(cs, id)) == Ids(cs)
  {
    UpdateWhereKeepsIds(cs, id, BumpDownloads);
  }

  /** `decrementGenerations`: one credit fewer, never below zero. */
  function DecrementedCredits(n: int): (r: int)
    ensures r >= 0
    ensures n >= 1 ==> r == n - 1
    ensures n <= 1 ==> r == 0
  {
    if n - 1 > 0 then n - 1 else 0
  }

  // ---------------------------------------------------------------------------
  // addPrompt and deletePrompt
  // ---------------------------------------------------------------------------

  /** The fields `addPrompt` takes: everything but id, createdAt and the two flags. */
  datatype PromptData = PromptData(
    title: string, description: string, content: string, category: string,
    author: Option<string>, rating: Option<int>, downloads: Option<int>)

  function NewPrompt(d: PromptData, id: string, now: int): Prompt {
    Prompt(id, d.title, Some(d.description), d.content, d.category, now,
           d.author, d.rating, d.downloads, Some(false), Some(false))
  }

  /** The personal list is newest first: no entry is older than a later one. */
  predicate NewestFirst(ps: seq<Prompt>) {
    forall i, j :: 0 <= i < j < |ps| ==> ps[j].createdAt <= ps[i].createdAt
  }

  /** `addPrompt` keeps ids unique when the fresh id is new. */
  lemma AddPromptKeepsDistinct(ps: seq<Prompt>, d: PromptData, id: string, now: int)
    requires DistinctIds(ps) && id !in Ids(ps)
    ensures DistinctIds([NewPrompt(d, id, now)] + ps)
  {
    var r := [NewPrompt(d, id, now)] + ps;
    forall i, j | 0 <= i < j < |r| ensures r[i].id != r[j].id {
      assert r[j] == ps[j - 1];
      if i == 0 {
        assert r[0].id == id && ps[j - 1].id in Ids(ps);
      } else {
        assert r[i] == ps[i - 1];
      }
    }
  }

  /** `addPrompt` keeps the list newest first when the clock does not run backwards. */
  lemma AddPromptKeepsNewestFirst(ps: seq<Prompt>, d: PromptData, id: string, now: int)
    requires NewestFirst(ps) && forall p :: p in ps ==> p.createdAt <= now
    ensures NewestFirst([NewPrompt(d, id, now)] + ps)
  {
    var r := [NewPrompt(d, id, now)] + ps;
    forall i, j | 0 <= i < j < |r| ensures r[j].createdAt <= r[i].createdAt {
      assert r[j] == ps[j - 1] && ps[j - 1] in ps;
      if i > 0 { assert r[i] == ps[i - 1]; }
    }
  }

  /** A new entry starts unpublished, so adding it publishes nothing. */
  lemma AddPromptPublishesNothing(ps: seq<Prompt>, d: PromptData, id: string, now: int)
    ensures PublishedIds([NewPrompt(d, id, now)] + ps) == PublishedIds(ps)
  {
    var r := [NewPrompt(d, id, now)] + ps;
    assert !IsPublished(r[0]);
    forall x ensures x in PublishedIds(r) <==> x in PublishedIds(ps) {
      if x in PublishedIds(r) {
        var i :| 0 <= i < |r| && r[i].id == x && IsPublished(r[i]);
        assert r[i] == ps[i - 1];
      }
      if x in PublishedIds(ps) {
        var i :| 0 <= i < |ps| && ps[i].id == x && IsPublished(ps[i]);
        assert r[i + 1] == ps[i];
      }
    }
  }

  function OtherThan(id: string): Prompt -> bool {
    (p: Prompt) => p.id != id
  }

  /** `prev.filter(p => p.id !== id)`: drops exactly the entries with the id. */
  function DeleteIn(ps: seq<Prompt>, id: string): (r: seq<Prompt>)
    ensures forall p :: p in r <==> p in ps && p.id != id
    ensures forall p :: multiset(r)[p] == if p.id == id then 0 else multiset(ps)[p]
    ensures Ids(r) == Ids(ps) - {id}
    ensures PublishedIds(r) == PublishedIds(ps) - {id}
  {
    Filter(OtherThan(id), ps)
  }

  /** Deleting keeps the survivors in their original order: it distributes over concatenation. */
  lemma DeleteKeepsOrder(a: seq<Prompt>, b: seq<Prompt>, id: string)
    ensures DeleteIn(a + b, id) == DeleteIn(a, id) + DeleteIn(b, id)
  {
    FilterAppend(OtherThan(id), a, b);
  }

  // ---------------------------------------------------------------------------
  // publishPrompt
  // ---------------------------------------------------------------------------

  /** The personal side of publishing: an unpublished entry becomes published, by the user. */
  function MarkPublished(p: Prompt): Prompt {
    if IsPublished(p) then p else p.(isPublished := Some(true), author := Some(CurrentUser))
  }

  /** The personal list after `publishPrompt`. */
  function PublishPersonal(ps: seq<Prompt>, id: string): seq<Prompt> {
    UpdateWhere(ps, id, MarkPublished)
  }

  /** Every entry with the id ends published, by the user if it was not before; nothing else changes. */
  lemma PublishPersonalSpec(ps: seq<Prompt>, id: string)
    ensures var r := PublishPersonal(ps, id);
      && |r| == |ps| && Ids(r) == Ids(ps)
      && (forall i :: 0 <= i < |ps| && ps[i].id == id ==>
            && IsPublished(r[i])
            && (IsPublished(ps[i]) ==> r[i] == ps[i])
            && (!IsPublished(ps[i]) ==> r[i] == ps[i].(isPublished := Some(true), author := Some(CurrentUser))))
      && (forall i :: 0 <= i < |ps| && ps[i].id != id ==> r[i] == ps[i])
  {
    UpdateWhereKeepsIds(ps, id, MarkPublished);
  }

  /** Publishing adds the id to the published ids when the list holds it, and removes none. */
  lemma PublishPersonalPublishedIds(ps: seq<Prompt>, id: string)
    ensures PublishedIds(PublishPersonal(ps, id)) == PublishedIds(ps) + (if id in Ids(ps) then {id} else {})
  {
    PublishedIdsGrow(ps, id);
    PublishedIdsOnlyGain(ps, id);
  }

  /** What was published stays published, and the id becomes published when the list holds it. */
  lemma PublishedIdsGrow(ps: seq<Prompt>, id: string)
    ensures PublishedIds(ps) <= PublishedIds(PublishPersonal(ps, id))
    ensures id in Ids(ps) ==> id in PublishedIds(PublishPersonal(ps, id))
  {
    var r := PublishPersonal(ps, id);
    PublishPersonalSpec(ps, id);
    forall x | x in PublishedIds(ps) ensures x in PublishedIds(r) {
      var p :| p in ps && IsPublished(p) && p.id == x;
      var i :| 0 <= i < |ps| && ps[i] == p;
      assert r[i] in r && r[i].id == x && IsPublished(r[i]);
    }
    if id in Ids(ps) {
      var q :| q in ps && q.id == id;
      var i :| 0 <= i < |ps| && ps[i] == q;
      assert r[i] in r && r[i].id == id && IsPublished(r[i]);
    }
  }

  /** The only id publishing can add is the published one. */
  lemma PublishedIdsOnlyGain(ps: seq<Prompt>, id: string)
    ensures forall x :: x in PublishedIds(PublishPersonal(ps, id)) ==> x in PublishedIds(ps) || (x == id && id in Ids(ps))
  {
    var r := PublishPersonal(ps, id);
    PublishPersonalSpec(ps, id);
    forall x | x in PublishedIds(r) ensures x in PublishedIds(ps) || (x == id && id in Ids(ps)) {
      var p :| p in r && IsPublished(p) && p.id == x;
      var i :| 0 <= i < |r| && r[i] == p;
      assert ps[i] in ps;
      if ps[i].id != id {
        assert r[i] == ps[i];
      }
    }
  }

  /**
   * The value the source's `promptToPublish` holds after the `map`: the LAST entry with
   * the id that was not yet published, as marked published; nothing if there is none.
   */
  function ToPublish(ps: seq<Prompt>, id: string): Option<Prompt>
    decreases |ps|
  {
    if ps == [] then None
    else
      var last := ps[|ps| - 1];
      if last.id == id && !IsPublished(last) then Some(MarkPublished(last))
      else ToPublish(ps[..|ps| - 1], id)
  }

  predicate Unpublished(ps: seq<Prompt>, id: string, i: int) {
    0 <= i < |ps| && ps[i].id == id && !IsPublished(ps[i])
  }

  /** `promptToPublish` is set exactly when some entry with the id is unpublished, and then to the last one. */
  lemma {:induction false} ToPublishSpec(ps: seq<Prompt>, id: string)
    ensures ToPublish(ps, id).None? <==> forall i :: !Unpublished(ps, id, i)
    ensures ToPublish(ps, id).Some? ==> exists i ::
      && Unpublished(ps, id, i)
      && ToPublish(ps, id).value == MarkPublished(ps[i])
      && forall j :: i < j ==> !Unpublished(ps, id, j)
    decreases |ps|
  {
    if ps != [] {
      var n := |ps| - 1;
      var prefix := ps[..n];
      ToPublishSpec(prefix, id);
      forall i ensures Unpublished(prefix, id, i) <==> i < n && Unpublished(ps, id, i) {
        if 0 <= i < n { assert prefix[i] == ps[i]; }
      }
      if ps[n].id == id && !IsPublished(ps[n]) {
        assert Unpublished(ps, id, n);
      } else {
        assert !Unpublished(ps, id, n);
      }
    }
  }

  /**
   * The `map` callback of `publishPrompt`, which rebuilds the personal list and assigns
   * the captured `promptToPublish` as it goes.
   */
  method PublishScan(ps: seq<Prompt>, id: string) returns (updated: seq<Prompt>, toPublish: Option<Prompt>)
    ensures updated == PublishPersonal(ps, id)
    ensures toPublish == ToPublish(ps, id)
  {
    updated := [];
    toPublish := None;
    var i := 0;
    while i < |ps|
      invariant 0 <= i <= |ps|
      invariant |updated| == i
      invariant forall k :: 0 <= k < i ==> updated[k] == if ps[k].id == id then MarkPublished(ps[k]) else ps[k]
      invariant toPublish == ToPublish(ps[..i], id)
    {
      var p := ps[i];
      assert ps[..i + 1][..i] == ps[..i];
      if p.id == id {
        if IsPublished(p) {
          updated := updated + [p];
        } else {
          toPublish := Some(p.(isPublished := Some(true), author := Some(CurrentUser)));
          updated := updated + [toPublish.value];
        }
      } else {
        updated := updated + [p];
      }
      i := i + 1;
    }
    assert ps[..i] == ps;
  }

  /** The community copy: same record, by the user, unrated, undownloaded, dated now. */
  function CommunityCopy(p: Prompt, now: int): Prompt {
    p.(author := Some(CurrentUser), rating := Some(0), downloads := Some(0), createdAt := now)
  }

  datatype PublishResult = PublishResult(personal: seq<Prompt>, community: seq<Prompt>, announced: bool)

  /**
   * `publishPrompt` read sequentially: mark the personal entry, then prepend a community
   * copy (and announce it) only if something was marked and the community list does not
   * hold the id yet.
   */
  function Publish(ps: seq<Prompt>, cs: seq<Prompt>, id: string, now: int): PublishResult {
    var toPublish := ToPublish(ps, id);
    var personal := PublishPersonal(ps, id);
    if toPublish.Some? && id !in Ids(cs) then
      PublishResult(personal, [CommunityCopy(toPublish.value, now)] + cs, true)
    else
      PublishResult(personal, cs, false)
  }

  /** Publishing an id whose entries are all published already changes nothing at all. */
  lemma PublishAlreadyPublished(ps: seq<Prompt>, cs: seq<Prompt>, id: string, now: int)
    requires forall i :: 0 <= i < |ps| && ps[i].id == id ==> IsPublished(ps[i])
    ensures Publish(ps, cs, id, now) == PublishResult(ps, cs, false)
  {
    ToPublishSpec(ps, id);
    PublishPersonalSpec(ps, id);
    var r := PublishPersonal(ps, id);
    assert forall i :: 0 <= i < |ps| ==> r[i] == ps[i];
  }

  /** How many community entries carry the id. */
  function CountId(cs: seq<Prompt>, id: string): nat {
    if cs == [] then 0 else (if cs[0].id == id then 1 else 0) + CountId(cs[1..], id)
  }

  lemma {:induction false} CountIdZero(cs: seq<Prompt>, id: string)
    ensures CountId(cs, id) == 0 <==> id !in Ids(cs)
  {
    if cs != [] {
      CountIdZero(cs[1..], id);
      assert Ids(cs) == {cs[0].id} + Ids(cs[1..]) by {
        assert forall p :: p in cs <==> p == cs[0] || p in cs[1..];
      }
    }
  }

  /**
   * The community side of publishing: the list is either unchanged or gains exactly one
   * copy at the front, and only when no entry with the id existed. The copy is the last
   * unpublished personal entry with the id, published, by the user, with zero rating and
   * downloads and the new timestamp; every other field is the personal entry's.
   */
  lemma PublishCommunity(ps: seq<Prompt>, cs: seq<Prompt>, id: string, now: int)
    ensures var r := Publish(ps, cs, id, now);
      && (r.announced <==> CountId(cs, id) == 0 && exists i :: Unpublished(ps, id, i))
      && (!r.announced ==> r.community == cs)
      && (r.announced ==>
            && |r.community| == |cs| + 1 && r.community[1..] == cs
            && r.community[0].id == id && r.community[0].author == Some(CurrentUser)
            && r.community[0].rating == Some(0) && r.community[0].downloads == Some(0)
            && r.community[0].createdAt == now && IsPublished(r.community[0]))
      && CountId(r.community, id) == if r.announced then 1 else CountId(cs, id)
    ensures var r := Publish(ps, cs, id, now);
      r.announced ==> exists i ::
        && Unpublished(ps, id, i) && (forall j :: i < j ==> !Unpublished(ps, id, j))
        && r.community[0] == ps[i].(isPublished := Some(true), author := Some(CurrentUser),
                                    rating := Some(0), downloads := Some(0), createdAt := now)
  {
    var r := Publish(ps, cs, id, now);
    CountIdZero(cs, id);
    ToPublishSpec(ps, id);
    if r.announced {
      assert ([CommunityCopy(ToPublish(ps, id).value, now)] + cs)[1..] == cs;
    }
  }

  /** A second `publishPrompt` with the same id, at any later time, is a no-op. */
  lemma PublishIdempotent(ps: seq<Prompt>, cs: seq<Prompt>, id: string, now: int, later: int)
    ensures var r := Publish(ps, cs, id, now);
      Publish(r.personal, r.community, id, later) == PublishResult(r.personal, r.community, false)
  {
    var r := Publish(ps, cs, id, now);
    PublishPersonalSpec(ps, id);
    PublishAlreadyPublished(r.personal, r.community, id, later);
  }

  /** Starting with at most one community entry for the id, publishing twice leaves at most one. */
  lemma PublishTwiceAtMostOneCopy(ps: seq<Prompt>, cs: seq<Prompt>, id: string, now: int, later: int)
    requires CountId(cs, id) <= 1
    ensures var r1 := Publish(ps, cs, id, now);
      var r2 := Publish(r1.personal, r1.community, id, later);
      CountId(r2.community, id) <= 1
  {
    PublishCommunity(ps, cs, id, now);
    PublishIdempotent(ps, cs, id, now, later);
  }

  // ---------------------------------------------------------------------------
  // importPrompts
  // ---------------------------------------------------------------------------

  /**
   * One element of a parsed JSON array. A record lists the fields a prompt may carry
   * (an absent key is `None`); `RawNull` is a JSON null, on which reading `p.id`
   * throws; `RawScalar` is any other non-record value, on which every field reads as
   * undefined.
   */
  datatype Raw =
    | RawNull
    | RawScalar
    | RawRecord(
        id: Option<string>, title: Option<string>, description: Option<string>,
        content: Option<string>, category: Option<string>, createdAt: Option<int>,
        author: Option<string>, rating: Option<int>, downloads: Option<int>,
        isFavorite: Option<bool>, isPublished: Option<bool>)

  /** The result of `JSON.parse` on the file's text. */
  datatype Parsed = Unparsable | NotAnArray | JsonArray(items: seq<Raw>)

  /** `p.id && p.title && p.content && p.category`. */
  predicate IsValidRaw(x: Raw) {
    x.RawRecord? && TruthyText(x.id) && TruthyText(x.title) && TruthyText(x.content) && TruthyText(x.category)
  }

  /** The record with absent `createdAt`, `isFavorite` and `isPublished` filled in. */
  function Complete(x: Raw, now: int): Prompt
    requires IsValidRaw(x)
  {
    Prompt(x.id.value, x.title.value, x.description, x.content.value, x.category.value,
           if x.createdAt.Some? then x.createdAt.value else now,
           x.author, x.rating, x.downloads,
           Some(Truthy(x.isFavorite)), Some(Truthy(x.isPublished)))
  }

  /** Only the three defaulted fields differ between a valid record and its completion. */
  lemma CompleteFillsDefaults(x: Raw, now: int)
    requires IsValidRaw(x)
    ensures var p := Complete(x, now);
      && p.isFavorite.Some? && p.isPublished.Some?
      && (IsFavorite(p) <==> x.isFavorite == Some(true))
      && (IsPublished(p) <==> x.isPublished == Some(true))
      && p.createdAt == (if x.createdAt.Some? then x.createdAt.value else now)
      && Some(p.id) == x.id && Some(p.title) == x.title && Some(p.content) == x.content
      && Some(p.category) == x.category && p.description == x.description && p.author == x.author
      && p.rating == x.rating && p.downloads == x.downloads
  {
  }

  /** `validatedPrompts`: the valid elements, completed, in input order. */
  function Validated(items: seq<Raw>, now: int): (r: seq<Prompt>)
    ensures |r| == |Filter(IsValidRaw, items)|
  {
    if items == [] then []
    else if IsValidRaw(items[0]) then [Complete(items[0], now)] + Validated(items[1..], now)
    else Validated(items[1..], now)
  }

  /** The validated entries are exactly the completions of the valid elements. */
  lemma {:induction false} ValidatedMembers(items: seq<Raw>, now: int)
    ensures forall p :: p in Validated(items, now) <==> exists x :: x in items && IsValidRaw(x) && p == Complete(x, now)
  {
    if items != [] {
      var head, tail := items[0], items[1..];
      var rest := Validated(tail, now);
      ValidatedMembers(tail, now);
      assert Validated(items, now) == if IsValidRaw(head) then [Complete(head, now)] + rest else rest;
      forall p ensures p in Validated(items, now) <==> exists x :: x in items && IsValidRaw(x) && p == Complete(x, now) {
        if p in rest {
          var x :| x in tail && IsValidRaw(x) && p == Complete(x, now);
          assert x in items;
        } else if p in Validated(items, now) {
          assert IsValidRaw(head) && p == Complete(head, now) && head in items;
        }
        if x :| x in items && IsValidRaw(x) && p == Complete(x, now) {
          if x != head {
            assert x in tail;
            assert p in rest;
          }
        }
      }
    }
  }

  /** Validation keeps input order: it distributes over concatenation. */
  lemma {:induction false} ValidatedAppend(a: seq<Raw>, b: seq<Raw>, now: int)
    ensures Validated(a + b, now) == Validated(a, now) + Validated(b, now)
  {
    if a == [] {
      assert a + b == b;
    } else {
      assert (a + b)[0] == a[0];
      assert (a + b)[1..] == a[1..] + b;
      ValidatedAppend(a[1..], b, now);
    }
  }

  function NotAmong(ids: set<string>): Prompt -> bool {
    (p: Prompt) => p.id !in ids
  }

  /** The validated entries whose id the personal list does not hold yet, in input order. */
  function NewEntries(ps: seq<Prompt>, validated: seq<Prompt>): (r: seq<Prompt>)
    ensures forall p :: p in r <==> p in validated && p.id !in Ids(ps)
  {
    Filter(NotAmong(Ids(ps)), validated)
  }

  datatype ImportOutcome = ImportFailed | NoValidPrompts | Imported(personal: seq<Prompt>, count: nat)

  /**
   * `importPrompts` on an already parsed file: a parse failure, a non-array or a null
   * element fails; no valid element means "no valid prompts"; otherwise the new entries
   * are appended and the count of all valid elements is reported.
   */
  function Import(ps: seq<Prompt>, input: Parsed, now: int): (r: ImportOutcome)
    ensures r.ImportFailed? <==> !input.JsonArray? || RawNull in input.items
    ensures r.NoValidPrompts? <==>
      input.JsonArray? && RawNull !in input.items && forall x :: x in input.items ==> !IsValidRaw(x)
    ensures r.Imported? ==> r.count == |Filter(IsValidRaw, input.items)| > 0
  {
    match input
    case JsonArray(items) =>
      if RawNull in items then ImportFailed
      else
        var validated := Validated(items, now);
        if |validated| == 0 then NoValidPrompts
        else Imported(ps + NewEntries(ps, validated), |validated|)
    case _ => ImportFailed
  }

  /** The personal list after an import, whatever its outcome. */
  function ImportedList(ps: seq<Prompt>, input: Parsed, now: int): seq<Prompt> {
    var r := Import(ps, input, now);
    if r.Imported? then r.personal else ps
  }

  /** Importing `[]` reports "no valid prompts" and changes nothing. */
  lemma ImportEmptyArray(ps: seq<Prompt>, now: int)
    ensures Import(ps, JsonArray([]), now) == NoValidPrompts
    ensures ImportedList(ps, JsonArray([]), now) == ps
  {
  }

  /**
   * A successful import keeps the old list as an unchanged prefix and appends exactly
   * the completed valid elements whose id was not present, each with its flags filled.
   */
  lemma ImportAppendsOnlyNew(ps: seq<Prompt>, input: Parsed, now: int)
    ensures var r := ImportedList(ps, input, now); |r| >= |ps| && r[..|ps|] == ps
    ensures var r := ImportedList(ps, input, now);
      forall k :: |ps| <= k < |r| ==> r[k].id !in Ids(ps) && r[k].isFavorite.Some? && r[k].isPublished.Some?
    ensures var r := ImportedList(ps, input, now);
      forall k :: |ps| <= k < |r| ==> exists x :: x in input.items && IsValidRaw(x) && r[k] == Complete(x, now)
    ensures var r := ImportedList(ps, input, now);
      Import(ps, input, now).Imported? ==> forall x :: x in input.items && IsValidRaw(x) && x.id.value !in Ids(ps) ==>
        Complete(x, now) in r[|ps|..]
  {
    ImportedListShape(ps, input, now);
    if Import(ps, input, now).Imported? {
      var added := NewEntries(ps, Validated(input.items, now));
      NewEntriesOfItems(ps, input.items, now);
      AppendedSuffix(ps, added);
    }
  }

  /** The list after an import: the old list, followed by the new entries when the import succeeded. */
  lemma ImportedListShape(ps: seq<Prompt>, input: Parsed, now: int)
    ensures Import(ps, input, now).Imported? ==> input.JsonArray?
    ensures Import(ps, input, now).Imported? ==>
      ImportedList(ps, input, now) == ps + NewEntries(ps, Validated(input.items, now))
    ensures !Import(ps, input, now).Imported? ==> ImportedList(ps, input, now) == ps
  {
  }

  lemma AppendedSuffix(ps: seq<Prompt>, added: seq<Prompt>)
    ensures (ps + added)[..|ps|] == ps && (ps + added)[|ps|..] == added
    ensures forall k :: |ps| <= k < |ps + added| ==> (ps + added)[k] == added[k - |ps|]
  {
  }

  /** The entries an import appends, described element by element. */
  lemma NewEntriesOfItems(ps: seq<Prompt>, items: seq<Raw>, now: int)
    ensures var added := NewEntries(ps, Validated(items, now));
      && (forall i :: 0 <= i < |added| ==> added[i].id !in Ids(ps) && added[i].isFavorite.Some? && added[i].isPublished.Some?)
      && (forall i :: 0 <= i < |added| ==> exists x :: x in items && IsValidRaw(x) && added[i] == Complete(x, now))
      && (forall x :: x in items && IsValidRaw(x) && x.id.value !in Ids(ps) ==> Complete(x, now) in added)
  {
    var added := NewEntries(ps, Validated(items, now));
    ValidatedMembers(items, now);
    forall i | 0 <= i < |added|
      ensures added[i].id !in Ids(ps) && added[i].isFavorite.Some? && added[i].isPublished.Some?
      ensures exists x :: x in items && IsValidRaw(x) && added[i] == Complete(x, now)
    {
      assert added[i] in added;
      var x :| x in items && IsValidRaw(x) && added[i] == Complete(x, now);
    }
  }

  /** What export writes: each record with its absent optional fields left out. */
  function ToRaw(p: Prompt): Raw {
    RawRecord(Some(p.id), Some(p.title), p.description, Some(p.content), Some(p.category),
              Some(p.createdAt), p.author, p.rating, p.downloads, p.isFavorite, p.isPublished)
  }

  function Exported(ps: seq<Prompt>): seq<Raw> {
    Map(ToRaw, ps)
  }

  /** Every entry validated from an export of a list carries an id the list already has. */
  lemma {:induction false} ValidatedExportIds(ps: seq<Prompt>, qs: seq<Prompt>, now: int)
    requires forall q :: q in qs ==> q.id in Ids(ps)
    ensures forall p :: p in Validated(Exported(qs), now) ==> p.id in Ids(ps)
  {
    if qs != [] {
      assert Exported(qs) == [ToRaw(qs[0])] + Exported(qs[1..]);
      ValidatedExportIds(ps, qs[1..], now);
      ValidatedAppend([ToRaw(qs[0])], Exported(qs[1..]), now);
    }
  }

  /** Re-importing an export of the current personal list appends nothing. */
  lemma ReimportAddsNothing(ps: seq<Prompt>, now: int)
    ensures ImportedList(ps, JsonArray(Exported(ps)), now) == ps
    ensures !Import(ps, JsonArray(Exported(ps)), now).ImportFailed?
  {
    var items := Exported(ps);
    assert RawNull !in items;
    var v := Validated(items, now);
    ValidatedExportIds(ps, ps, now);
    FilterDropsAll(NotAmong(Ids(ps)), v);
  }

  /** Import de-duplicates only against the existing list: a file repeating an id adds it twice. */
  lemma ImportCanDuplicateIds()
    ensures var x := RawRecord(Some("a"), Some("t"), None, Some("c"), Some("Otras"), None, None, None, None, None, None);
      var r := ImportedList([], JsonArray([x, x]), 0);
      |r| == 2 && r[0].id == r[1].id && !DistinctIds(r)
  {
    var x := RawRecord(Some("a"), Some("t"), None, Some("c"), Some("Otras"), None, None, None, None, None, None);
    var p := Complete(x, 0);
    assert IsValidRaw(x);
    assert [x, x][1..] == [x] && [x][1..] == [];
    assert Validated([x, x], 0) == [p, p];
    assert RawNull !in [x, x];
    ImportedListShape([], JsonArray([x, x]), 0);
    assert Ids([]) == {};
    FilterKeepsAll(NotAmong({}), [p, p]);
  }

  /** Filtering keeps ids distinct. */
  lemma {:induction false} FilterKeepsDistinct(f: Prompt -> bool, s: seq<Prompt>)
    requires DistinctIds(s)
    ensures DistinctIds(Filter(f, s))
  {
    if s != [] {
      var tail := s[1..];
      DistinctCons(s[0], tail);
      FilterKeepsDistinct(f, tail);
      var rest := Filter(f, tail);
      if f(s[0]) {
        assert Filter(f, s) == [s[0]] + rest;
        DistinctCons(s[0], rest);
      }
    }
  }

  /** A list with distinct ids is its head followed by a tail with distinct ids, none the head's. */
  lemma DistinctCons(p: Prompt, rest: seq<Prompt>)
    ensures DistinctIds([p] + rest) <==> DistinctIds(rest) && forall q :: q in rest ==> q.id != p.id
  {
    var r := [p] + rest;
    if DistinctIds(r) {
      forall i, j | 0 <= i < j < |rest| ensures rest[i].id != rest[j].id {
        assert rest[i] == r[i + 1] && rest[j] == r[j + 1];
      }
      forall q | q in rest ensures q.id != p.id {
        var m :| 0 <= m < |rest| && rest[m] == q;
        assert r[0] == p && r[m + 1] == q;
        assert r[0].id != r[m + 1].id;
      }
    }
    if DistinctIds(rest) && forall q :: q in rest ==> q.id != p.id {
      forall i, j | 0 <= i < j < |r| ensures r[i].id != r[j].id {
        assert r[j] == rest[j - 1] && rest[j - 1] in rest;
        if i > 0 {
          assert r[i] == rest[i - 1];
        }
      }
    }
  }

  /** Ids stay unique under import when the file's own valid entries have distinct ids. */
  lemma ImportKeepsDistinct(ps: seq<Prompt>, input: Parsed, now: int)
    requires DistinctIds(ps)
    requires input.JsonArray? ==> DistinctIds(Validated(input.items, now))
    ensures DistinctIds(ImportedList(ps, input, now))
  {
    if Import(ps, input, now).Imported? {
      var added := NewEntries(ps, Validated(input.items, now));
      FilterKeepsDistinct(NotAmong(Ids(ps)), Validated(input.items, now));
      var r := ps + added;
      forall i, j | 0 <= i < j < |r| ensures r[i].id != r[j].id {
        if j >= |ps| && i < |ps| {
          assert r[j] == added[j - |ps|] && r[j] in added;
          assert r[i] == ps[i];
        } else if i >= |ps| {
          assert r[i] == added[i - |ps|] && r[j] == added[j - |ps|];
        }
      }
    }
  }

  /** Import only appends, so it never unpublishes anything. */
  lemma ImportKeepsPublished(ps: seq<Prompt>, input: Parsed, now: int)
    ensures PublishedIds(ps) <= PublishedIds(ImportedList(ps, input, now))
  {
    ImportAppendsOnlyNew(ps, input, now);
    var r := ImportedList(ps, input, now);
    forall x | x in PublishedIds(ps) ensures x in PublishedIds(r) {
      var i :| 0 <= i < |ps| && ps[i].id == x && IsPublished(ps[i]);
      assert r[..|ps|][i] == r[i];
    }
  }

  // ---------------------------------------------------------------------------
  // Notifications
  // ---------------------------------------------------------------------------

  datatype NoticeKind = Success | Error
  datatype Notice = Notice(message: string, kind: NoticeKind)

  const SavedMessage := "¡Prompt guardado con éxito!"
  const DeletedMessage := "Prompt eliminado."
  const PublishedMessage := "¡Prompt publicado en la comunidad!"
  const NoValidMessage := "No se encontraron prompts válidos en el archivo."
  const ImportErrorMessage := "Error al importar el archivo. Asegúrate de que es un JSON válido exportado desde esta app."

  function DigitChar(d: nat): char
    requires d < 10
  {
    "0123456789"[d]
  }

  function NatToString(n: nat): string {
    if n < 10 then [DigitChar(n)] else NatToString(n / 10) + [DigitChar(n % 10)]
  }

  /** The notice an import ends with; a success counts every valid element, new or not. */
  function ImportNotice(r: ImportOutcome): Notice {
    match r
    case ImportFailed => Notice(ImportErrorMessage, Error)
    case NoValidPrompts => Notice(NoValidMessage, Error)
    case Imported(_, n) => Notice("¡" + NatToString(n) + " prompts importados con éxito!", Success)
  }

  // ---------------------------------------------------------------------------
  // The store
  // ---------------------------------------------------------------------------

  class AppStore {
    var prompts: seq<Prompt>
    var communityPrompts: seq<Prompt>
    var generationsRemaining: int
    var theme: Theme
    var notification: Option<Notice>

    /** `AppProvider`'s initial state, from what storage held and the host's preferences. */
    constructor (storedPersonal: Stored<seq<Prompt>>, storedCommunity: Stored<seq<Prompt>>,
                 storedGenerations: StoredCount, storedTheme: Option<string>, prefersDark: bool,
                 seedFavorites: (bool, bool, bool))
      ensures prompts == HydratePersonal(storedPersonal, seedFavorites)
      ensures communityPrompts == HydrateCommunity(storedCommunity)
      ensures generationsRemaining == HydrateGenerations(storedGenerations)
      ensures theme == InitialTheme(storedTheme, prefersDark)
      ensures notification == None
    {
      prompts := HydratePersonal(storedPersonal, seedFavorites);
      communityPrompts := HydrateCommunity(storedCommunity);
      generationsRemaining := HydrateGenerations(storedGenerations);
      theme := InitialTheme(storedTheme, prefersDark);
      notification := None;
    }

    method ShowNotification(message: string, kind: NoticeKind)
      modifies this
      ensures notification == Some(Notice(message, kind))
      ensures prompts == old(prompts) && communityPrompts == old(communityPrompts)
      ensures generationsRemaining == old(generationsRemaining) && theme == old(theme)
    {
      notification := Some(Notice(message, kind));
    }

    method ToggleTheme()
      modifies this
      ensures theme == ToggledTheme(old(theme))
      ensures prompts == old(prompts) && communityPrompts == old(communityPrompts)
      ensures generationsRemaining == old(generationsRemaining) && notification == old(notification)
    {
      theme := if theme == Light then Dark else Light;
    }

    /** Puts the new record first and returns its id. */
    method AddPrompt(data: PromptData, id: string, now: int) returns (newId: string)
      modifies this
      ensures prompts == [NewPrompt(data, id, now)] + old(prompts)
      ensures newId == id && prompts[0].id == newId
      ensures notification == Some(Notice(SavedMessage, Success))
      ensures communityPrompts == old(communityPrompts)
      ensures generationsRemaining == old(generationsRemaining) && theme == old(theme)
    {
      var p := NewPrompt(data, id, now);
      prompts := [p] + prompts;
      ShowNotification(SavedMessage, Success);
      newId := p.id;
    }

    /** Removes the entries with the id once the user confirms; does nothing otherwise. */
    method DeletePrompt(id: string, confirmed: bool)
      modifies this
      ensures prompts == if confirmed then DeleteIn(old(prompts), id) else old(prompts)
      ensures notification == if confirmed then Some(Notice(DeletedMessage, Error)) else old(notification)
      ensures communityPrompts == old(communityPrompts)
      ensures generationsRemaining == old(generationsRemaining) && theme == old(theme)
    {
      if confirmed {
        prompts := Filter(OtherThan(id), prompts);
        ShowNotification(DeletedMessage, Error);
      }
    }

    method ToggleFavorite(id: string)
      modifies this
      ensures prompts == ToggleFavoriteIn(old(prompts), id)
      ensures communityPrompts == old(communityPrompts) && notification == old(notification)
      ensures generationsRemaining == old(generationsRemaining) && theme == old(theme)
    {
      prompts := UpdateWhere(prompts, id, FlipFavorite);
    }

    method PublishPrompt(id: string, now: int)
      modifies this
      ensures var r := Publish(old(prompts), old(communityPrompts), id, now);
        && prompts == r.personal && communityPrompts == r.community
        && notification == if r.announced then Some(Notice(PublishedMessage, Success)) else old(notification)
      ensures generationsRemaining == old(generationsRemaining) && theme == old(theme)
    {
      var updated, toPublish := PublishScan(prompts, id);
      prompts := updated;
      if toPublish.Some? && id !in Ids(communityPrompts) {
        communityPrompts := [CommunityCopy(toPublish.value, now)] + communityPrompts;
        ShowNotification(PublishedMessage, Success);
      }
    }

    method IncrementDownloads(id: string)
      modifies this
      ensures communityPrompts == IncrementDownloadsIn(old(communityPrompts), id)
      ensures prompts == old(prompts) && notification == old(notification)
      ensures generationsRemaining == old(generationsRemaining) && theme == old(theme)
    {
      communityPrompts := UpdateWhere(communityPrompts, id, BumpDownloads);
    }

    method DecrementGenerations()
      modifies this
      ensures generationsRemaining == DecrementedCredits(old(generationsRemaining))
      ensures prompts == old(prompts) && communityPrompts == old(communityPrompts)
      ensures notification == old(notification) && theme == old(theme)
    {
      generationsRemaining := if generationsRemaining - 1 > 0 then generationsRemaining - 1 else 0;
    }

    method ImportPrompts(input: Parsed, now: int)
      modifies this
      ensures prompts == ImportedList(old(prompts), input, now)
      ensures notification == Some(ImportNotice(Import(old(prompts), input, now)))
      ensures communityPrompts == old(communityPrompts)
      ensures generationsRemaining == old(generationsRemaining) && theme == old(theme)
    {
      var outcome := Import(prompts, input, now);
      match outcome
      case ImportFailed =>
        ShowNotification(ImportErrorMessage, Error);
      case NoValidPrompts =>
        ShowNotification(NoValidMessage, Error);
      case Imported(list, n) =>
        prompts := list;
        ShowNotification("¡" + NatToString(n) + " prompts importados con éxito!", Success);
    }
  }
}
