/**
 * The personal repository page (components/Repository.tsx): the all/favourites view,
 * the publish control of a card, and the export of the whole personal list.
 */
module Repository {
  import opened Types
  import opened Seqs
  import opened Store

  datatype RepoFilter = All | Favorites

  /** `filteredPrompts`: the whole list, or the entries whose `isFavorite` is truthy. */
  function FilteredPrompts(ps: seq<Prompt>, filter: RepoFilter): (r: seq<Prompt>)
    ensures filter == All ==> r == ps
    ensures filter == Favorites ==> forall p :: p in r <==> p in ps && IsFavorite(p)
    ensures filter == Favorites ==> forall p :: multiset(r)[p] == if IsFavorite(p) then multiset(ps)[p] else 0
  {
    if filter == Favorites then Filter(IsFavorite, ps) else ps
  }

  /** The favourites view keeps the list's order: viewing a concatenation views each part in turn. */
  lemma FavoritesKeepOrder(a: seq<Prompt>, b: seq<Prompt>)
    ensures FilteredPrompts(a + b, Favorites) == FilteredPrompts(a, Favorites) + FilteredPrompts(b, Favorites)
  {
    FilterAppend(IsFavorite, a, b);
  }

  /** The publish button of a card is disabled exactly when the entry is marked published. */
  predicate PublishDisabled(p: Prompt) {
    Truthy(p.isPublished)
  }

  /**
   * On a list with distinct ids, a card whose publish button is disabled could not have
   * changed anything had it been clicked: `publishPrompt` on its id is a no-op.
   */
  lemma DisabledPublishIsNoOp(ps: seq<Prompt>, cs: seq<Prompt>, k: nat, now: int)
    requires DistinctIds(ps) && k < |ps| && PublishDisabled(ps[k])
    ensures Publish(ps, cs, ps[k].id, now) == PublishResult(ps, cs, false)
  {
    PublishAlreadyPublished(ps, cs, ps[k].id, now);
  }

  const ExportFileName := "intelliprompt_export.json"
  const NothingToExportMessage := "No tienes prompts para exportar."
  const ExportedMessage := "¡Todos los prompts exportados con éxito!"

  /** A downloaded file: its name and the records it holds. */
  datatype ExportFile = ExportFile(name: string, records: seq<Raw>)

  /** What `handleExport` produces for a personal list: nothing for an empty list, else the whole list. */
  function ExportOf(ps: seq<Prompt>): (r: Option<ExportFile>)
    ensures r.None? <==> ps == []
    ensures r.Some? ==> r.value.name == ExportFileName && |r.value.records| == |ps|
    ensures r.Some? ==> forall i :: 0 <= i < |ps| ==> r.value.records[i].RawRecord? && r.value.records[i].id == Some(ps[i].id)
  {
    if |ps| == 0 then None else Some(ExportFile(ExportFileName, Exported(ps)))
  }

  /** The notice `handleExport` shows. */
  function ExportNotice(file: Option<ExportFile>): (n: Notice)
    ensures n.kind == Error <==> file.None?
  {
    if file.None? then Notice(NothingToExportMessage, Error) else Notice(ExportedMessage, Success)
  }

  /** An entry whose export passes the import check: id, title, content and category are non-empty. */
  predicate HasRequiredFields(p: Prompt) {
    p.id != "" && p.title != "" && p.content != "" && p.category != ""
  }

  /**
   * Importing an exported file back into the list it came from leaves the list as it was,
   * and it is reported as a successful import as soon as one entry has its required fields.
   */
  lemma ExportThenImportIsNoOp(ps: seq<Prompt>, k: nat, now: int)
    requires k < |ps| && HasRequiredFields(ps[k])
    ensures var file := ExportOf(ps);
      && file.Some?
      && Import(ps, JsonArray(file.value.records), now).Imported?
      && ImportedList(ps, JsonArray(file.value.records), now) == ps
  {
    var items := Exported(ps);
    ReimportAddsNothing(ps, now);
    assert IsValidRaw(items[k]);
    assert items[k] in Filter(IsValidRaw, items);
  }

  /** `handleExport`: writes the file when there is something to write, and says so. */
  method HandleExport(store: AppStore) returns (file: Option<ExportFile>)
    modifies store
    ensures file == ExportOf(old(store.prompts))
    ensures store.notification == Some(ExportNotice(file))
    ensures store.prompts == old(store.prompts) && store.communityPrompts == old(store.communityPrompts)
    ensures store.generationsRemaining == old(store.generationsRemaining) && store.theme == old(store.theme)
  {
    if |store.prompts| == 0 {
      store.ShowNotification(NothingToExportMessage, Error);
      return None;
    }
    file := Some(ExportFile(ExportFileName, Exported(store.prompts)));
    store.ShowNotification(ExportedMessage, Success);
  }
}
