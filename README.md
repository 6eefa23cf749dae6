# GeniusPrompt core, modelled in Dafny

GeniusPrompt is a React app for writing AI prompts, keeping a personal collection of
them and sharing them with a community library. This project models the logic under its
pages and proves properties of that model:

- **The store** (`store.dfy`, module `Store`). It holds the personal list, the
  community list, the free-generation counter, the theme and the notification slot,
  and its operations are add, delete, toggle favourite, publish, count a download,
  spend a generation, import and toggle theme. The class `AppStore` has these fields
  and one method per operation. Each method is specified by pure list transforms, and
  the properties are proved about those transforms as lemmas: ids kept distinct,
  newest-first order, the publish/community invariants, and the import's
  prefix-and-append shape. `publishPrompt` fills the captured `promptToPublish`
  inside a `map` callback; `PublishScan` models that as a loop and proves it against
  the pure definition.
- **The views**:
  - `library.dfy`: search, category filter and the three sort orders of the
    community library, the top-twelve recommendations, and the download filename.
  - `repository.dfy`: the favourites filter, the publish control and the export.
  - `dashboard.dfy`: the per-category count, the chart's "has data" test and the
    first four favourites.
- **The creation form** (`create_prompt.dfy`). It covers JavaScript's `trim`, the
  starter templates, the loading messages, the two assistant calls and their error
  wrapping (the service file), the guards on the three buttons, the save-time
  validation and the saved description. The class `CreateForm` has the form's state
  and one method per handler.
- **The header** (`header.dfy`): the title shown for each route.

`types.dfy` holds the shared `Prompt` record and JavaScript's truthiness rules for its
optional fields. `seqs.dfy` holds generic `filter`, `map` and `slice` helpers.

Conventions:

- Every input the code takes from its environment is a parameter:
  - the fresh id and the clock;
  - the user's answer to the delete confirmation;
  - the three coin flips of the seed favourites;
  - what storage held at start-up;
  - the already-parsed import file;
  - the assistant's raw HTTP reply;
  - what the file reader delivered.
- `createdAt` is an integer ordered like the timestamps it stands for.
- A rating is an integer number of tenths.

## Model

| member | source | states |
|---|---|---|
| Store.StripCatalogue | src/context/AppContext.tsx:325-329 | The default community list has the catalogue's length. Each entry is the catalogue entry with `rating` and `downloads` absent. |
| Store.SeedPersonalUnpublished | src/context/AppContext.tsx:331 | The seed personal list is the first three catalogue entries, each with its coin-flip favourite flag. All three start unpublished, because no catalogue id is 'ideal-2'. |
| Store.HydratePersonal | src/context/AppContext.tsx:370-378 | A stored personal list is used as is. A missing or unreadable one falls back to the seed entries. |
| Store.HydrateCommunitySpec | src/context/AppContext.tsx:380-398 | Without a readable stored list the community starts as the examples. A stored list keeps its length and entries, except that a catalogue entry by 'IntelliBot' loses both metrics. |
| Store.HydrateGenerations | src/context/AppContext.tsx:403-416 | A stored integer is kept, even a negative one. A missing, unreadable or non-numeric value falls back to 10. |
| Store.InitialTheme | src/context/AppContext.tsx:354-365 | A stored 'dark' or 'light' wins. Otherwise the theme is dark exactly when the host prefers dark. |
| Store.ToggledTheme | src/context/AppContext.tsx:456-458 | Toggling always changes the theme. |
| Store.ToggleFavoriteIn | src/context/AppContext.tsx:487-491 | Same length. Every entry with the id gets the negated truth value of its flag, now present, and nothing else of it changes. Every other entry is unchanged. |
| Store.ToggleFavoriteTwice | src/context/AppContext.tsx:487-491 | Toggling twice restores every entry's truth value. An absent flag comes back as an explicit false. |
| Store.IncrementDownloadsIn | src/context/AppContext.tsx:518-522 | Every entry with the id gets `(downloads or 0) + 1` and nothing else of it changes. Every other entry and the length are unchanged. |
| Store.IncrementDownloadsKeepsIds | src/context/AppContext.tsx:518-522 | Counting a download keeps the community list's set of ids. |
| Store.DecrementedCredits | src/context/AppContext.tsx:524-526 | The result is `n - 1` for `n >= 1` and 0 below that, so it is never negative. |
| Store.AddPromptKeepsDistinct | src/context/AppContext.tsx:467-478 | Prepending a record with a fresh id keeps the ids distinct. |
| Store.AddPromptKeepsNewestFirst | src/context/AppContext.tsx:467-478 | If the clock does not run backwards, prepending keeps the list newest first. |
| Store.AddPromptPublishesNothing | src/context/AppContext.tsx:467-478 | The new record starts unpublished, so the set of published ids is unchanged. |
| Store.DeleteIn | src/context/AppContext.tsx:480-485 | Exactly the entries with the id are gone. Every other entry keeps its multiplicity. The id leaves the set of ids and the set of published ids; nothing else leaves either set. |
| Store.DeleteKeepsOrder | src/context/AppContext.tsx:480-485 | Deleting distributes over concatenation, so the survivors keep their order. |
| Store.PublishPersonalSpec | src/context/AppContext.tsx:496-503 | Every entry with the id ends published. One that already was is unchanged; one that was not gets `isPublished` and author 'Tú' and nothing else. Other entries, the length and the ids are unchanged. |
| Store.PublishPersonalPublishedIds | src/context/AppContext.tsx:496-503 | The published ids gain exactly the id, when the list holds it, and lose none. |
| Store.ToPublishSpec | src/context/AppContext.tsx:494-503 | The captured `promptToPublish` is set exactly when some entry with the id is unpublished. It then holds the last such entry as marked published. |
| Store.PublishScan | src/context/AppContext.tsx:494-503 | The `map` loop that fills `promptToPublish` computes exactly the published personal list and the captured value. |
| Store.PublishAlreadyPublished | src/context/AppContext.tsx:493-516 | If every entry with the id is already published, publishing changes neither list and announces nothing. |
| Store.PublishCommunity | src/context/AppContext.tsx:505-515 | The community list gains a copy at its front exactly when an unpublished entry existed and no community entry had the id. Otherwise the list is unchanged. The id's community count becomes 1 or stays as it was. The copy is the last unpublished personal entry with the id, published and by 'Tú', with rating 0, downloads 0 and the new timestamp; its title, description, content, category and favourite flag are that entry's. |
| Store.PublishIdempotent | src/context/AppContext.tsx:493-516 | A second publish of the same id, at any later time, changes nothing. |
| Store.PublishTwiceAtMostOneCopy | src/context/AppContext.tsx:493-516 | With at most one community entry for the id beforehand, two publishes leave at most one. |
| Store.CompleteFillsDefaults | src/context/AppContext.tsx:537-543 | A valid record keeps its fields. Absent `createdAt` becomes now. `isFavorite` and `isPublished` become present, and true only when the record had true. |
| Store.Validated | src/context/AppContext.tsx:535-543 | As many entries as valid elements. |
| Store.ValidatedMembers | src/context/AppContext.tsx:535-543 | The validated entries are exactly the completions of the valid elements. |
| Store.ValidatedAppend | src/context/AppContext.tsx:535-543 | Validation distributes over concatenation, so it keeps input order. |
| Store.NewEntries | src/context/AppContext.tsx:551-552 | An entry is new exactly when it is validated and its id is not in the personal list. |
| Store.Import | src/context/AppContext.tsx:528-562 | The import fails exactly when the file is not an array or has a null element. It finds nothing exactly when no element is valid. On success it reports the number of all valid elements, which is positive. |
| Store.ImportEmptyArray | src/context/AppContext.tsx:545-548 | Importing `[]` reports "no valid prompts" and leaves the list as it was. |
| Store.ImportedListShape | src/context/AppContext.tsx:550-554 | A successful import yields the old list followed by the new entries. Any other outcome leaves the list as it was. |
| Store.ImportAppendsOnlyNew | src/context/AppContext.tsx:550-554 | The old list is an unchanged prefix. Each appended entry is the completion of a valid element, has an id the list did not hold and has both flags present. Every valid element with a new id is appended. |
| Store.ReimportAddsNothing | src/context/AppContext.tsx:550-554 | Re-importing an export of the current list does not fail and appends nothing. |
| Store.ImportCanDuplicateIds | src/context/AppContext.tsx:550-554 | De-duplication is only against the existing list: a file that holds one valid record twice adds it twice. |
| Store.ImportKeepsDistinct | src/context/AppContext.tsx:550-554 | The ids stay distinct when the list's ids and the file's valid ids are each distinct. |
| Store.ImportKeepsPublished | src/context/AppContext.tsx:550-554 | An import never unpublishes anything. |
| Store.AppStore.constructor | src/context/AppContext.tsx:369-416 | The initial state is the hydrated personal list, community list, counter and theme, with no notification. |
| Store.AppStore.ShowNotification | src/context/AppContext.tsx:460-465 | Sets the notification and nothing else. |
| Store.AppStore.ToggleTheme | src/context/AppContext.tsx:456-458 | Flips the theme and nothing else. |
| Store.AppStore.AddPrompt | src/context/AppContext.tsx:467-478 | The new record, with both flags false, is prepended to the unchanged old list. It returns the record's id and shows the saved notice. The other fields are unchanged. |
| Store.AppStore.DeletePrompt | src/context/AppContext.tsx:480-485 | When confirmed, the list becomes `DeleteIn` of it and the deleted notice shows. When not, nothing changes. |
| Store.AppStore.ToggleFavorite | src/context/AppContext.tsx:487-491 | The personal list becomes `ToggleFavoriteIn` of it, and nothing else changes. |
| Store.AppStore.PublishPrompt | src/context/AppContext.tsx:493-516 | Both lists become the result of `Publish`. The published notice shows exactly when a copy was added. |
| Store.AppStore.IncrementDownloads | src/context/AppContext.tsx:518-522 | The community list becomes `IncrementDownloadsIn` of it. The personal list and everything else are unchanged. |
| Store.AppStore.DecrementGenerations | src/context/AppContext.tsx:524-526 | The counter becomes `DecrementedCredits` of it, and nothing else changes. |
| Store.AppStore.ImportPrompts | src/context/AppContext.tsx:528-562 | The list becomes `ImportedList`, and the notice matches the outcome. The other fields are unchanged. |
| Library.Lower | src/components/Library.tsx:126-127 | Same length. Each character is lower-cased, and no upper-case ASCII letter is left. |
| Library.IncludesIff | src/components/Library.tsx:126-127 | `includes` holds exactly when the needle occurs at some position of the haystack. |
| Library.SortBy | src/components/Library.tsx:137-148 | A permutation of its input, sorted by the order's descending keys. |
| Library.FilteredAndSorted | src/components/Library.tsx:120-151 | Holds each entry that passes the search and the category filter as often as the community list does, and nothing else. It is sorted by the requested order ('newest' and unknown values by date, descending), and it is no longer than the community list. |
| Library.Recommended | src/components/Library.tsx:153-158 | At most twelve entries, all with both metrics, drawn from the measured community entries without extra copies. It is sorted by rating, then downloads, descending. |
| Library.RecommendedAreTop | src/components/Library.tsx:153-158 | No measured entry left out of the recommendations ranks above one that is in them. |
| Library.DownloadStemSpec | src/components/Library.tsx:49 | The stem has the title's length. It keeps each ASCII letter or digit, lower-cased, and puts '_' everywhere else, so it is all `[a-z0-9_]`. Sanitising it again changes nothing. The file name is the stem plus `.txt`. components/Repository.tsx:48 uses the same rule. |
| Library.HandleDownload | src/components/Library.tsx:41-54 | Counts one download for the card's id and names the file. Nothing else in the store changes. |
| Repository.FilteredPrompts | components/Repository.tsx:100-105 | 'all' returns the list. 'favorites' returns exactly the favourites, each as often as in the list. |
| Repository.FavoritesKeepOrder | components/Repository.tsx:101-102 | The favourites view distributes over concatenation, so it keeps the list's order. |
| Repository.DisabledPublishIsNoOp | components/Repository.tsx:85 | On a list with distinct ids, a card whose publish control is disabled would change nothing if clicked. |
| Repository.ExportOf | components/Repository.tsx:107-124 | No file exactly when the list is empty. Otherwise the file is 'intelliprompt_export.json' with one record per entry, in order and with the entry's id. |
| Repository.ExportNotice | components/Repository.tsx:108-123 | The notice is an error exactly when nothing was exported. |
| Repository.ExportThenImportIsNoOp | components/Repository.tsx:107-124 | Importing the exported file back, when one entry has its required fields, counts as a success and leaves the list as it was. |
| Repository.HandleExport | components/Repository.tsx:107-124 | Returns the export and shows its notice. Both lists, the counter and the theme are unchanged. |
| Dashboard.FirstAppearancesSpec | src/components/Dashboard.tsx:117-120 | The chart's categories are exactly those of the list, each once. |
| Dashboard.BumpSpec | src/components/Dashboard.tsx:118 | One bump adds 1 to the key's count and leaves the other counts alone. A new key goes last and an existing one keeps its place. The sum grows by one and no count is zero. |
| Dashboard.PromptsByCategory | src/components/Dashboard.tsx:117-120 | One entry per category in first-appearance order. Each count is the number of prompts in that category, every count is positive, and the counts add up to the list's length. |
| Dashboard.PromptsByCategoryDistinct | src/components/Dashboard.tsx:117-120 | No category is listed twice. |
| Dashboard.ChartCategories | src/components/Dashboard.tsx:117-120 | A category is listed exactly when it has a positive count. |
| Dashboard.HasData | src/components/Dashboard.tsx:27-28 | The total is positive exactly when some count is positive. |
| Dashboard.HasDataIffPrompts | src/components/Dashboard.tsx:27-28 | The dashboard's chart has data exactly when the personal list is not empty. |
| Dashboard.FavoritePrompts | src/components/Dashboard.tsx:122-124 | The panel is the prefix of the favourites, in list order, of length min(4, number of favourites). So it holds only favourites from the list and, when fewer than four are shown, every favourite. |
| Dashboard.FavoritesFromTheTop | src/components/Dashboard.tsx:122-124 | The panel of a concatenation is the first four of the first part's panel followed by the second part's. The first part's favourites come first, and once it holds four, what follows changes nothing. |
| CreatePrompt.TrimStartSpec | src/components/CreatePrompt.tsx:180 | The leading-space trim is the suffix from the first non-space character; everything before it is white space. |
| CreatePrompt.TrimEndSpec | src/components/CreatePrompt.tsx:180 | The trailing-space trim is the prefix up to the last non-space character; everything after it is white space. |
| CreatePrompt.TrimSpec | src/components/CreatePrompt.tsx:180 | `trim` is the slice from the first to the last non-space character. White space lies only outside it. |
| CreatePrompt.TrimBlankIff | src/components/CreatePrompt.tsx:180-182 | A string trims to nothing exactly when it is all white space. |
| CreatePrompt.TrimKeepsClean | src/components/CreatePrompt.tsx:190 | A string with no white space at either end trims to itself. |
| CreatePrompt.TrimIdempotent | src/components/CreatePrompt.tsx:180 | Trimming twice is trimming once. |
| CreatePrompt.TrimDropsTrailingSpace | src/components/CreatePrompt.tsx:190 | After a clean string, trailing white space is all that trimming removes. |
| CreatePrompt.FindTemplate | src/components/CreatePrompt.tsx:101 | Nothing exactly when no template has the name. Otherwise the first template with that name. |
| CreatePrompt.TemplateNamesDistinct | src/components/CreatePrompt.tsx:7-23 | Fifteen templates, each with its own name. |
| CreatePrompt.TemplateContentsDistinct | src/components/CreatePrompt.tsx:7-23 | No two templates have the same text, and no template's text is empty. |
| CreatePrompt.SwitchingTemplatesClearsError | src/components/CreatePrompt.tsx:59-63 | Moving from one starter template to a different one changes the idea to a non-empty text, so a pending generation error is cleared. |
| CreatePrompt.TemplateCategoriesKnown | src/components/CreatePrompt.tsx:7-22 | Every template's category is one of the fifteen labels of types.ts. |
| CreatePrompt.FindEachTemplate | src/components/CreatePrompt.tsx:98-109 | Choosing a template by its name finds that very template. |
| CreatePrompt.LoadingMessagesShown | src/components/CreatePrompt.tsx:65-82 | After `n` ticks, `n + 1` messages have been shown, cycling through the list from its start. The index `i % length` is always in bounds. |
| CreatePrompt.CallApi | src/services/geminiService.ts:2-31 | Text comes back exactly for an OK reply with non-empty text. Every failure message starts with the user-facing prefix. |
| CreatePrompt.GenerateAdvancedPrompt | src/services/geminiService.ts:41-51 | A blank idea without a file is refused without spending. Anything else asks the assistant. A credit is spent exactly on success. |
| CreatePrompt.RefineGeneratedPrompt | src/services/geminiService.ts:62-72 | An empty prompt or empty feedback is refused without spending. Anything else asks the assistant. A credit is spent exactly on success. |
| CreatePrompt.EnabledGenerateReachesAssistant | src/components/CreatePrompt.tsx:197 | An enabled generate button gets past the handler's guard and the service's guard, to the assistant. |
| CreatePrompt.BlankIdeaStopsAtService | src/components/CreatePrompt.tsx:142 | An idea of white space alone passes the handler's guard, which does not trim. The service then refuses it without spending a credit. |
| CreatePrompt.EnabledRefineReachesAssistant | src/components/CreatePrompt.tsx:320 | With a prompt on screen, an enabled refine button gets past both guards, to the assistant. |
| CreatePrompt.FormErrors | src/components/CreatePrompt.tsx:179-185 | A title error exactly when the trimmed title is empty. A category error exactly when no category is chosen. A prompt error exactly when the trimmed prompt is empty. No other keys; each message is the field's. |
| CreatePrompt.SavesIff | src/components/CreatePrompt.tsx:187-189 | There are no errors exactly when the title and the prompt are not blank and a category is chosen. |
| CreatePrompt.EnabledSaveHasPrompt | src/components/CreatePrompt.tsx:353 | An enabled save button never meets the missing-prompt error. |
| CreatePrompt.DescriptionWithoutFile | src/components/CreatePrompt.tsx:190 | Without a file name, the saved description ends at the quoted idea and its period; the trailing space is trimmed. |
| CreatePrompt.DescriptionWithFile | src/components/CreatePrompt.tsx:190 | With a file name that does not end in white space, the description names the file after the idea. |
| CreatePrompt.AfterInputChange | src/components/CreatePrompt.tsx:59-63 | Unchanged inputs keep the error. A change that leaves an idea or a file clears it. Inputs left with neither an idea nor a file keep it. |
| CreatePrompt.CreateForm.constructor | src/components/CreatePrompt.tsx:39-57 | The empty form, offering the starter templates. |
| CreatePrompt.CreateForm.ResetForm | src/components/CreatePrompt.tsx:85-96 | Every input, the errors, the new id and the generation error are cleared. |
| CreatePrompt.CreateForm.EditIdea | src/components/CreatePrompt.tsx:111-113 | The idea becomes the text, then the error-clearing effect runs. |
| CreatePrompt.CreateForm.SelectTemplate | src/components/CreatePrompt.tsx:98-109 | A known name sets the idea to the template's content and the category to its category, then the effect runs. The empty name and unknown names change nothing. |
| CreatePrompt.CreateForm.LoadFile | src/components/CreatePrompt.tsx:115-134 | A read file sets its name and content and shows the loaded notice. A failed read clears both and shows the error. Then the effect runs. The store's lists are unchanged. |
| CreatePrompt.CreateForm.RemoveFile | src/components/CreatePrompt.tsx:136-139 | Content and name cleared, then the effect runs. |
| CreatePrompt.CreateForm.HandleGenerate | src/components/CreatePrompt.tsx:141-158 | Without an idea or file, or without credits, nothing changes. Otherwise a credit is spent exactly when the service succeeded. A reply becomes the prompt. A failure is shown, kept as the generation error and leaves no prompt. |
| CreatePrompt.CreateForm.HandleRefine | src/components/CreatePrompt.tsx:160-176 | Without feedback, without a prompt or without credits, nothing changes. Otherwise a credit is spent exactly on success. A reply replaces the prompt and clears the feedback. A failure is shown and kept; the prompt and feedback stay. |
| CreatePrompt.CreateForm.ValidateAndSave | src/components/CreatePrompt.tsx:178-195 | The errors are `FormErrors` of the fields. With none, exactly one record with the saved description is prepended to the store, its id is kept and the dialog opens. Otherwise the store's list is unchanged, and the generate-first notice shows when the prompt is blank. |
| Header.PageTitle | src/components/Header.tsx:6-21 | Each of the four named routes gets its own title. '/' and every other path get the dashboard's title. |
| Header.TitlesTellRoutesApart | src/components/Header.tsx:10-17 | The four named routes have four distinct titles, none of them the dashboard's. |

## Left out

- **Storage.** Reading and writing `localStorage`, and the persistence effects, are not modelled. Start-up receives what storage held as a parameter.
- **JSON.** `JSON.parse`, `JSON.stringify` and `parseInt`/`isNaN` are not modelled. An import receives an already-parsed value; export yields the records a file would hold.
- **Clock, randomness and confirmation.** `Date.now()`, `new Date()`, `Math.random` and `window.confirm` are parameters.
- **Dates.** `createdAt` is an integer ordered like the ISO timestamps. Invalid dates, whose comparison gives `NaN`, are not modelled.
- **The network.** `fetch` and `response.json()` are not modelled. Each handler receives the assistant's raw reply as a parameter, and its `await`s run to completion in one step, so the form is never observed while `isLoading` is true.
- **React timing.** Batching and the stale closures in `publishPrompt` are not modelled; the store updates are read sequentially.
- **Timers.** The notification's three-second expiry is not modelled. The loading messages are modelled as the list shown after a number of ticks.
- **Browser I/O.** Blob downloads, `FileReader`, object URLs, the clipboard button and navigation after saving are not modelled.
- **Catalogue text.** Each catalogue entry keeps its id, category, metrics, author and publication flag. Its title, description and text are the placeholder "…". Each template's text is its own name, so no two templates share a text, as in the source.
- **Numbers.** Ratings are integer tenths (4.9 is 49). Chart percentages are not modelled.
- **Text.** Case folding covers ASCII only. The template order that `localeCompare` produces is written out rather than computed.
- Library.DownloadStemSpec: a Dafny `char` is a Unicode scalar value, while the regular expression, which has no `u` flag, replaces each UTF-16 code unit. A character outside the Basic Multilingual Plane (an emoji, say) therefore becomes one '_' in the model but two in the source, and "the stem has the title's length" holds in code points, not code units.
- **Sorting.** `Array.prototype.sort` works in place and is stable. It is modelled as a stable insertion sort on values, but stability is not stated.
- **Import input.** A non-string value in a required field is not modelled. The model's fields are strings or absent, and only emptiness is tested of them.
- **Chart key order.** `Object.entries` lists integer-like keys first. The model keeps insertion order, which is right for the category labels.
- Dashboard.PromptsByCategory: the count object starts from `{}`, which inherits the members of `Object.prototype`. A category named like one of them (an import accepts any non-empty category) is miscounted by the source: "constructor" makes the count a string, and "__proto__" is never counted. The model counts every category as an ordinary name.
- Store.Validated: its own contract states only the length. The contents are stated by `ValidatedMembers` and `ValidatedAppend`.
- Store.HydrateCommunity: carries no contract of its own. `HydrateCommunitySpec` states its behaviour.
