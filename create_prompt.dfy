/**
 * The prompt creation page (src/components/CreatePrompt.tsx) and the two calls it makes
 * to the AI assistant (src/services/geminiService.ts): the form's state and handlers,
 * the guards on its three buttons, the save-time validation, the starter templates and
 * the rotating loading messages.
 *
 * The network round trip is not modelled: each handler receives the assistant's raw
 * response as a parameter. A handler runs to completion in one step, so the form is never
 * observed while `isLoading` is true.
 */
module CreatePrompt {
  import opened Types
  import Store

  // ---------------------------------------------------------------------------
  // `String.prototype.trim`
  // ---------------------------------------------------------------------------

  /** ECMAScript white space and line terminators, by code point. */
  predicate IsJsSpace(c: char) {
    var n := c as int;
    (9 <= n <= 13) || n == 0x20 || n == 0xA0 || n == 0x1680 || (0x2000 <= n <= 0x200A) ||
    n == 0x2028 || n == 0x2029 || n == 0x202F || n == 0x205F || n == 0x3000 || n == 0xFEFF
  }

  /** Drops the leading white space. */
  function TrimStart(s: string): string {
    if s != [] && IsJsSpace(s[0]) then TrimStart(s[1..]) else s
  }

  /** Drops the trailing white space. */
  function TrimEnd(s: string): string {
    if s != [] && IsJsSpace(s[|s| - 1]) then TrimEnd(s[..|s| - 1]) else s
  }

  /** `s.trim()`. */
  function Trim(s: string): string {
    TrimEnd(TrimStart(s))
  }

  /** `TrimStart` returns the suffix that starts at the first character that is not white space. */
  lemma {:induction false} TrimStartSpec(s: string)
    ensures var r := TrimStart(s);
      && |r| <= |s| && r == s[|s| - |r|..]
      && (r == [] || !IsJsSpace(r[0]))
      && forall i :: 0 <= i < |s| - |r| ==> IsJsSpace(s[i])
  {
    if s != [] && IsJsSpace(s[0]) {
      TrimStartSpec(s[1..]);
      var r := TrimStart(s);
      forall i | 0 <= i < |s| - |r| ensures IsJsSpace(s[i]) {
        if i > 0 {
          assert s[i] == s[1..][i - 1];
        }
      }
    }
  }

  /** `TrimEnd` returns the prefix that ends at the last character that is not white space. */
  lemma {:induction false} TrimEndSpec(s: string)
    ensures var r := TrimEnd(s);
      && |r| <= |s| && r == s[..|r|]
      && (r == [] || !IsJsSpace(r[|r| - 1]))
      && forall i :: |r| <= i < |s| ==> IsJsSpace(s[i])
  {
    if s != [] && IsJsSpace(s[|s| - 1]) {
      TrimEndSpec(s[..|s| - 1]);
      var r := TrimEnd(s);
      forall i | |r| <= i < |s| ensures IsJsSpace(s[i]) {
        if i < |s| - 1 {
          assert s[i] == s[..|s| - 1][i];
        }
      }
    }
  }

  /**
   * `trim` returns the slice of `s` from its first to its last character that is not
   * white space: white space lies only outside that slice, and the slice starts and
   * ends with a character that is not.
   */
  lemma TrimSpec(s: string)
    ensures var r, a := Trim(s), |s| - |TrimStart(s)|;
      && 0 <= a <= a + |r| <= |s| && r == s[a..a + |r|]
      && (forall i :: 0 <= i < a ==> IsJsSpace(s[i]))
      && (forall i :: a + |r| <= i < |s| ==> IsJsSpace(s[i]))
      && (r == [] || (!IsJsSpace(r[0]) && !IsJsSpace(r[|r| - 1])))
  {
    var t := TrimStart(s);
    TrimStartSpec(s);
    TrimEndSpec(t);
    var r := Trim(s);
    var a := |s| - |t|;
    assert r == t[..|r|];
    forall i | a + |r| <= i < |s| ensures IsJsSpace(s[i]) {
      assert s[i] == t[i - a];
    }
    if r != [] {
      assert r[0] == t[0];
    }
  }

  /** A string trims to nothing exactly when it is all white space (the empty string included). */
  lemma TrimBlankIff(s: string)
    ensures Trim(s) == "" <==> forall i :: 0 <= i < |s| ==> IsJsSpace(s[i])
  {
    TrimSpec(s);
    var r, a := Trim(s), |s| - |TrimStart(s)|;
    if r != "" {
      assert s[a] == r[0];
    }
  }

  /** A string with no white space at either end trims to itself. */
  lemma TrimKeepsClean(s: string)
    requires s == [] || (!IsJsSpace(s[0]) && !IsJsSpace(s[|s| - 1]))
    ensures Trim(s) == s
  {
  }

  /** Trimming twice is trimming once. */
  lemma TrimIdempotent(s: string)
    ensures Trim(Trim(s)) == Trim(s)
  {
    TrimSpec(s);
    TrimKeepsClean(Trim(s));
  }

  /** Trailing white space after a clean string is all that trimming removes. */
  lemma TrimDropsTrailingSpace(s: string, tail: string)
    requires s != [] && !IsJsSpace(s[0]) && !IsJsSpace(s[|s| - 1])
    requires forall i :: 0 <= i < |tail| ==> IsJsSpace(tail[i])
    ensures Trim(s + tail) == s
    decreases |tail|
  {
    assert TrimStart(s + tail) == s + tail;
    if tail != [] {
      var shorter := tail[..|tail| - 1];
      assert (s + tail)[..|s + tail| - 1] == s + shorter;
      TrimDropsTrailingSpace(s, shorter);
    }
  }

  // ---------------------------------------------------------------------------
  // Starter templates and loading messages
  // ---------------------------------------------------------------------------

  datatype Template = Template(name: string, category: string, content: string)

  /**
   * A starter template whose text the model does not reproduce: its name stands in for it,
   * so that, as in the source, no two templates carry the same text.
   */
  function Starter(name: string, category: string): Template {
    Template(name, category, name)
  }

  /** `starterTemplates`, in the order `localeCompare` puts their names in. */
  const StarterTemplates: seq<Template> := [
    Starter("Análisis FODA", "Negocios"),
    Starter("Blog", "Escritura"),
    Starter("Brief de Diseño", "Arte y Diseño"),
    Starter("Código", "Codificación"),
    Starter("Consulta SQL", "Análisis de datos"),
    Starter("Email Financiero", "Finanzas"),
    Starter("Explicación Técnica", "Tecnología"),
    Starter("Historia Corta", "Creatividad"),
    Starter("Ideas Generales", "Otras"),
    Starter("Itinerario de Viaje", "Viajes"),
    Starter("Plan de Comidas", "Salud y Bienestar"),
    Starter("Plan de Lección", "Educación"),
    Starter("Redes Sociales", "Social Media"),
    Starter("Resumen de Artículo", "Investigación"),
    Starter("Slogans", "Marketing")]


  /** `starterTemplates.find(t => t.name === name)`: the first template with that name. */
  function FindTemplate(ts: seq<Template>, name: string): (r: Option<Template>)
    ensures r.None? <==> forall i :: 0 <= i < |ts| ==> ts[i].name != name
    ensures r.Some? ==> exists i :: (0 <= i < |ts| && ts[i] == r.value && r.value.name == name &&
      forall j :: 0 <= j < i ==> ts[j].name != name)
  {
    if ts == [] then None
    else if ts[0].name == name then Some(ts[0])
    else
      var r := FindTemplate(ts[1..], name);
      assert forall i :: 1 <= i < |ts| ==> ts[i] == ts[1..][i - 1];
      r
  }

  /** Every template has its own name. */
  lemma TemplateNamesDistinct()
    ensures |StarterTemplates| == 15
    ensures forall i, j :: 0 <= i < j < |StarterTemplates| ==> StarterTemplates[i].name != StarterTemplates[j].name
  {
  }

  /** No two templates carry the same text, and none is empty. */
  lemma TemplateContentsDistinct()
    ensures forall i, j :: 0 <= i < j < |StarterTemplates| ==> StarterTemplates[i].content != StarterTemplates[j].content
    ensures forall i :: 0 <= i < |StarterTemplates| ==> StarterTemplates[i].content != ""
  {
    TemplateNamesDistinct();
  }

  /**
   * Switching from one starter template to another one changes the idea, and the text it
   * leaves is not empty, so the effect clears a pending generation error.
   */
  lemma SwitchingTemplatesClearsError(k: nat, m: nat, file: Option<string>, error: Option<string>)
    requires k < |StarterTemplates| && m < |StarterTemplates| && k != m
    ensures AfterInputChange(StarterTemplates[k].content, file, StarterTemplates[m].content, file, error) == None
  {
    TemplateContentsDistinct();
    assert StarterTemplates[k].content != StarterTemplates[m].content;
  }

  /** Every template is filed under one of the fifteen category labels. */
  lemma TemplateCategoriesKnown()
    ensures forall i :: 0 <= i < |StarterTemplates| ==> StarterTemplates[i].category in Categories
  {
  }

  /** Choosing a template by its name finds that very template. */
  lemma FindEachTemplate(k: nat)
    requires k < |StarterTemplates|
    ensures FindTemplate(StarterTemplates, StarterTemplates[k].name) == Some(StarterTemplates[k])
  {
    TemplateNamesDistinct();
    var name := StarterTemplates[k].name;
    var r := FindTemplate(StarterTemplates, name);
    var i :| 0 <= i < |StarterTemplates| && StarterTemplates[i] == r.value && r.value.name == name &&
      forall j :: 0 <= j < i ==> StarterTemplates[j].name != name;
    assert i == k;
  }

  const LoadingMessages: seq<string> := [
    "Analizando tu idea inicial...",
    "Contactando a los modelos de IA...",
    "Construyendo la estructura del prompt...",
    "Aplicando técnicas de ingeniería de prompts...",
    "Esto puede tardar unos segundos...",
    "Casi listo..."]

  /**
   * The loading effect: the first message at once, then one more per interval tick with
   * a counter `i` that starts at 1, `loadingMessages[i % loadingMessages.length]`. After
   * `ticks` ticks the messages shown so far cycle through the list from its start.
   */
  method LoadingMessagesShown(ticks: nat) returns (shown: seq<string>)
    ensures |shown| == ticks + 1
    ensures forall k :: 0 <= k < |shown| ==> shown[k] == LoadingMessages[k % |LoadingMessages|]
  {
    shown := [LoadingMessages[0]];
    var i := 1;
    while i <= ticks
      invariant 1 <= i <= ticks + 1
      invariant |shown| == i
      invariant forall k :: 0 <= k < i ==> shown[k] == LoadingMessages[k % |LoadingMessages|]
    {
      shown := shown + [LoadingMessages[i % |LoadingMessages|]];
      i := i + 1;
    }
  }

  // ---------------------------------------------------------------------------
  // The assistant service
  // ---------------------------------------------------------------------------

  datatype Outcome = Ok(text: string) | Failed(message: string)

  /**
   * What `fetch` and `response.json()` delivered: a thrown error with its message, or an
   * HTTP response with its status flag, status text and the body's `error` and `text`.
   */
  datatype ApiResponse =
    | Threw(details: string)
    | Response(ok: bool, statusText: string, error: Option<string>, text: Option<string>)

  const ApiFailurePrefix := "No se pudo comunicar con el asistente de IA. Detalles: "
  const MissingTextMessage := "La respuesta de la API no contenía texto."
  const ServerErrorPrefix := "Error del servidor: "

  /** `callApi`: the reply's text, or an error message wrapped in the user-facing prefix. */
  function CallApi(resp: ApiResponse): (r: Outcome)
    ensures r.Ok? <==> resp.Response? && resp.ok && TruthyText(resp.text)
    ensures r.Ok? ==> r.text == resp.text.value && r.text != ""
    ensures r.Failed? ==> |ApiFailurePrefix| <= |r.message| && r.message[..|ApiFailurePrefix|] == ApiFailurePrefix
  {
    match resp
    case Threw(details) => Failed(ApiFailurePrefix + details)
    case Response(ok, statusText, error, text) =>
      if !ok then
        Failed(ApiFailurePrefix + if TruthyText(error) then error.value else ServerErrorPrefix + statusText)
      else if !TruthyText(text) then Failed(ApiFailurePrefix + MissingTextMessage)
      else Ok(text.value)
  }

  /** A service call's outcome, and whether it ran its `onComplete` callback (which spends a credit). */
  datatype ServiceCall = ServiceCall(outcome: Outcome, spent: bool)

  const NoIdeaMessage := "Por favor, proporciona una idea o un archivo de contexto para el prompt."
  const NoRefineInputMessage := "No se puede refinar sin el prompt actual y el feedback."

  /** `generateAdvancedPrompt`: refuses a blank idea without a file, else asks; a credit goes only on success. */
  function GenerateAdvancedPrompt(idea: string, fileContext: Option<string>, resp: ApiResponse): (r: ServiceCall)
    ensures r.spent <==> r.outcome.Ok?
    ensures Trim(idea) == "" && !TruthyText(fileContext) ==> r == ServiceCall(Failed(NoIdeaMessage), false)
    ensures Trim(idea) != "" || TruthyText(fileContext) ==> r.outcome == CallApi(resp)
  {
    if Trim(idea) == "" && !TruthyText(fileContext) then ServiceCall(Failed(NoIdeaMessage), false)
    else
      var outcome := CallApi(resp);
      ServiceCall(outcome, outcome.Ok?)
  }

  /** `refineGeneratedPrompt`: refuses an empty prompt or feedback, else asks; a credit goes only on success. */
  function RefineGeneratedPrompt(currentPrompt: string, feedback: string, resp: ApiResponse): (r: ServiceCall)
    ensures r.spent <==> r.outcome.Ok?
    ensures currentPrompt == "" || feedback == "" ==> r == ServiceCall(Failed(NoRefineInputMessage), false)
    ensures currentPrompt != "" && feedback != "" ==> r.outcome == CallApi(resp)
  {
    if currentPrompt == "" || feedback == "" then ServiceCall(Failed(NoRefineInputMessage), false)
    else
      var outcome := CallApi(resp);
      ServiceCall(outcome, outcome.Ok?)
  }

  // ---------------------------------------------------------------------------
  // Buttons and handler guards
  // ---------------------------------------------------------------------------

  /** `isGenerationDisabled`, negated. */
  predicate GenerateEnabled(isLoading: bool, idea: string, fileContent: Option<string>, credits: int) {
    !(isLoading || (Trim(idea) == "" && !TruthyText(fileContent)) || credits <= 0)
  }

  /** The early return at the top of `handleGenerate`, negated. */
  predicate GenerateProceeds(idea: string, fileContent: Option<string>, credits: int) {
    !((idea == "" && !TruthyText(fileContent)) || credits <= 0)
  }

  /** The refine button's `disabled` expression, negated. */
  predicate RefineEnabled(isLoading: bool, feedback: string, credits: int) {
    !(isLoading || Trim(feedback) == "" || credits <= 0)
  }

  /** The early return at the top of `handleRefine`, negated. */
  predicate RefineProceeds(feedback: string, generatedPrompt: string, credits: int) {
    !(feedback == "" || generatedPrompt == "" || credits <= 0)
  }

  /** The save button's `disabled` expression, negated. */
  predicate SaveEnabled(isLoading: bool, generatedPrompt: string) {
    !(isLoading || Trim(generatedPrompt) == "")
  }

  /** An enabled generate button always gets past the handler's guard and the service's guard, to the assistant. */
  lemma EnabledGenerateReachesAssistant(isLoading: bool, idea: string, fileContent: Option<string>, credits: int, resp: ApiResponse)
    requires GenerateEnabled(isLoading, idea, fileContent, credits)
    ensures GenerateProceeds(idea, fileContent, credits)
    ensures GenerateAdvancedPrompt(idea, fileContent, resp).outcome == CallApi(resp)
  {
    if idea == "" {
      assert Trim(idea) == "";
    }
  }

  /**
   * The handler's guard is weaker than the button's and the service's: an idea of white
   * space alone passes it, and the service then refuses without spending a credit.
   */
  lemma BlankIdeaStopsAtService(resp: ApiResponse)
    ensures GenerateProceeds(" ", None, 1)
    ensures GenerateAdvancedPrompt(" ", None, resp) == ServiceCall(Failed(NoIdeaMessage), false)
  {
    assert IsJsSpace(' ');
    TrimBlankIff(" ");
  }

  /** With a prompt on screen, an enabled refine button gets past both guards, to the assistant. */
  lemma EnabledRefineReachesAssistant(isLoading: bool, feedback: string, generatedPrompt: string, credits: int, resp: ApiResponse)
    requires RefineEnabled(isLoading, feedback, credits) && generatedPrompt != ""
    ensures RefineProceeds(feedback, generatedPrompt, credits)
    ensures RefineGeneratedPrompt(generatedPrompt, feedback, resp).outcome == CallApi(resp)
  {
  }

  // ---------------------------------------------------------------------------
  // Saving
  // ---------------------------------------------------------------------------

  const TitleKey := "title"
  const CategoryKey := "category"
  const PromptKey := "generatedPrompt"
  const TitleRequired := "El nombre del prompt es requerido."
  const CategoryRequired := "Debes seleccionar una categoría."
  const PromptRequired := "Debes generar un prompt válido primero."
  const GenerateFirstNotice := "Por favor, genera un prompt válido antes de guardar."

  /** The errors `validateAndSave` collects: one per missing field, under the field's name. */
  function FormErrors(title: string, category: string, generatedPrompt: string): (r: map<string, string>)
    ensures TitleKey in r <==> Trim(title) == ""
    ensures CategoryKey in r <==> category == ""
    ensures PromptKey in r <==> Trim(generatedPrompt) == ""
    ensures r.Keys <= {TitleKey, CategoryKey, PromptKey}
    ensures TitleKey in r ==> r[TitleKey] == TitleRequired
    ensures CategoryKey in r ==> r[CategoryKey] == CategoryRequired
    ensures PromptKey in r ==> r[PromptKey] == PromptRequired
  {
    var e1: map<string, string> := if Trim(title) == "" then map[TitleKey := TitleRequired] else map[];
    var e2 := if category == "" then e1[CategoryKey := CategoryRequired] else e1;
    if Trim(generatedPrompt) == "" then e2[PromptKey := PromptRequired] else e2
  }

  /** The form saves exactly when the title and the prompt are not blank and a category is chosen. */
  lemma SavesIff(title: string, category: string, generatedPrompt: string)
    ensures |FormErrors(title, category, generatedPrompt)| == 0 <==>
      Trim(title) != "" && category != "" && Trim(generatedPrompt) != ""
  {
    var r := FormErrors(title, category, generatedPrompt);
    if |r| == 0 {
      assert r == map[];
    } else {
      var k :| k in r;
    }
  }

  /** An enabled save button never meets the missing-prompt error. */
  lemma EnabledSaveHasPrompt(isLoading: bool, title: string, category: string, generatedPrompt: string)
    requires SaveEnabled(isLoading, generatedPrompt)
    ensures PromptKey !in FormErrors(title, category, generatedPrompt)
  {
  }

  /** The words the saved description opens with, up to the quote that opens the idea. */
  const DescriptionLead := "Prompt generado por IA " + "a partir de la idea: \""
  const FileContextLead := "Contexto del archivo: "

  /** `descriptionToSave`. */
  function SavedDescription(idea: string, fileName: Option<string>): string {
    Trim(DescriptionLead + idea + "\". " + (if TruthyText(fileName) then FileContextLead + fileName.value else ""))
  }

  /** The description starts with a letter. */
  lemma LeadIsClean()
    ensures |DescriptionLead| > 0 && !IsJsSpace(DescriptionLead[0])
  {
  }

  /** Without a file name the description ends at the quoted idea: the trailing space is trimmed. */
  lemma DescriptionWithoutFile(idea: string, fileName: Option<string>)
    requires !TruthyText(fileName)
    ensures SavedDescription(idea, fileName) == DescriptionLead + idea + "\"."
  {
    var body := idea + "\".";
    var s := DescriptionLead + body;
    LeadIsClean();
    assert s[0] == DescriptionLead[0];
    assert s[|s| - 1] == '.';
    assert DescriptionLead + idea + "\". " + "" == s + " ";
    TrimDropsTrailingSpace(s, " ");
  }

  /** With a file name that does not end in white space, the description names it after the idea. */
  lemma DescriptionWithFile(idea: string, name: string)
    requires name != "" && !IsJsSpace(name[|name| - 1])
    ensures SavedDescription(idea, Some(name)) == DescriptionLead + idea + "\". " + FileContextLead + name
  {
    var body := idea + "\". " + FileContextLead + name;
    var s := DescriptionLead + body;
    LeadIsClean();
    assert s[0] == DescriptionLead[0];
    assert s[|s| - 1] == name[|name| - 1];
    assert DescriptionLead + idea + "\". " + (FileContextLead + name) == s;
    TrimKeepsClean(s);
  }

  /** The record `validateAndSave` hands to `addPrompt`: title and content as typed, no author or metrics. */
  function SavedData(title: string, category: string, idea: string, fileName: Option<string>, generatedPrompt: string): Store.PromptData {
    Store.PromptData(title, SavedDescription(idea, fileName), generatedPrompt, category, None, None, None)
  }

  // ---------------------------------------------------------------------------
  // The form
  // ---------------------------------------------------------------------------

  const FileLoadedMessage := "Archivo cargado como contexto."
  const FileReadErrorMessage := "Error al leer el archivo."

  /**
   * The effect that clears the generation error: it runs when the idea or the file content
   * changed, and clears the error when either of them is truthy.
   */
  function AfterInputChange(oldIdea: string, oldFile: Option<string>, idea: string, file: Option<string>, error: Option<string>): (r: Option<string>)
    ensures (oldIdea == idea && oldFile == file) ==> r == error
    ensures (oldIdea != idea || oldFile != file) && (idea != "" || TruthyText(file)) ==> r == None
    ensures idea == "" && !TruthyText(file) ==> r == error
    ensures r == None || r == error
  {
    if (oldIdea != idea || oldFile != file) && (idea != "" || TruthyText(file)) then None else error
  }

  class CreateForm {
    /** The template list the form offers; the constructor sets it to `StarterTemplates`. */
    const templates: seq<Template>
    var title: string
    var category: string
    var generatedPrompt: string
    var promptIdea: string
    var refinementFeedback: string
    var fileContent: Option<string>
    var fileName: Option<string>
    var isLoading: bool
    var generationError: Option<string>
    var showSuccessModal: bool
    var newlyCreatedPromptId: Option<string>
    var errors: map<string, string>

    /** The empty form; an empty `category` means none is chosen. */
    constructor ()
      ensures templates == StarterTemplates
      ensures title == "" && category == "" && generatedPrompt == "" && promptIdea == "" && refinementFeedback == ""
      ensures fileContent == None && fileName == None && !isLoading && generationError == None
      ensures !showSuccessModal && newlyCreatedPromptId == None && errors == map[]
    {
      templates := StarterTemplates;
      title, category, generatedPrompt, promptIdea, refinementFeedback := "", "", "", "", "";
      fileContent, fileName, isLoading, generationError := None, None, false, None;
      showSuccessModal, newlyCreatedPromptId, errors := false, None, map[];
    }

    /** `resetForm`: every input and error cleared; the loading flag and the success dialog stay. */
    method ResetForm()
      modifies this`title, this`category, this`promptIdea, this`generatedPrompt, this`refinementFeedback,
        this`errors, this`newlyCreatedPromptId, this`generationError, this`fileContent, this`fileName
      ensures title == "" && category == "" && generatedPrompt == "" && promptIdea == "" && refinementFeedback == ""
      ensures fileContent == None && fileName == None && generationError == None
      ensures newlyCreatedPromptId == None && errors == map[]
    {
      title, category, promptIdea, generatedPrompt, refinementFeedback := "", "", "", "", "";
      errors, newlyCreatedPromptId, generationError := map[], None, None;
      fileContent, fileName := None, None;
    }

    /** Typing into the idea box, followed by the error-clearing effect. */
    method EditIdea(text: string)
      modifies this`promptIdea, this`generationError
      ensures promptIdea == text
      ensures generationError == AfterInputChange(old(promptIdea), fileContent, text, fileContent, old(generationError))
    {
      generationError := AfterInputChange(promptIdea, fileContent, text, fileContent, generationError);
      promptIdea := text;
    }

    /**
     * `handleTemplateSelection`: a known template name fills the idea and the category
     * (then the effect runs); the empty name and unknown names change nothing.
     */
    method SelectTemplate(name: string)
      modifies this`promptIdea, this`category, this`generationError
      ensures var t := FindTemplate(templates, name);
        if name != "" && t.Some? then
          && promptIdea == t.value.content && category == t.value.category
          && generationError == AfterInputChange(old(promptIdea), fileContent, t.value.content, fileContent, old(generationError))
        else
          promptIdea == old(promptIdea) && category == old(category) && generationError == old(generationError)
    {
      if name != "" {
        var template := FindTemplate(templates, name);
        if template.Some? {
          generationError := AfterInputChange(promptIdea, fileContent, template.value.content, fileContent, generationError);
          promptIdea := template.value.content;
          category := template.value.category;
        }
      }
    }

    /**
     * `handleFileChange` for a chosen file, once the reader is done: `read` is the text it
     * read, or `None` when it failed, which drops the file again.
     */
    method LoadFile(store: Store.AppStore, name: string, read: Option<string>)
      modifies this`fileName, this`fileContent, this`generationError, store
      ensures read.Some? ==> fileName == Some(name) && fileContent == read
      ensures read.None? ==> fileName == None && fileContent == None
      ensures generationError == AfterInputChange(promptIdea, old(fileContent), promptIdea, fileContent, old(generationError))
      ensures store.notification == Some(if read.Some? then Store.Notice(FileLoadedMessage, Store.Success)
                                         else Store.Notice(FileReadErrorMessage, Store.Error))
      ensures store.prompts == old(store.prompts) && store.communityPrompts == old(store.communityPrompts)
      ensures store.generationsRemaining == old(store.generationsRemaining) && store.theme == old(store.theme)
    {
      var previous := fileContent;
      fileName := Some(name);
      if read.Some? {
        fileContent := read;
        store.ShowNotification(FileLoadedMessage, Store.Success);
      } else {
        store.ShowNotification(FileReadErrorMessage, Store.Error);
        fileContent := None;
        fileName := None;
      }
      generationError := AfterInputChange(promptIdea, previous, promptIdea, fileContent, generationError);
    }

    /** `removeFile`, followed by the error-clearing effect. */
    method RemoveFile()
      modifies this`fileContent, this`fileName, this`generationError
      ensures fileContent == None && fileName == None
      ensures generationError == AfterInputChange(promptIdea, old(fileContent), promptIdea, None, old(generationError))
    {
      generationError := AfterInputChange(promptIdea, fileContent, promptIdea, None, generationError);
      fileContent, fileName := None, None;
    }

    /**
     * `handleGenerate`: nothing happens without an idea or file, or without credits.
     * Otherwise the assistant is asked; a reply replaces the generated prompt and spends a
     * credit, a failure is shown, kept as the generation error, and leaves no prompt.
     */
    method HandleGenerate(store: Store.AppStore, resp: ApiResponse)
      modifies this`isLoading, this`generatedPrompt, this`generationError, store
      ensures !GenerateProceeds(old(promptIdea), old(fileContent), old(store.generationsRemaining)) ==>
        && generatedPrompt == old(generatedPrompt) && generationError == old(generationError)
        && isLoading == old(isLoading) && store.notification == old(store.notification)
        && store.generationsRemaining == old(store.generationsRemaining)
      ensures GenerateProceeds(old(promptIdea), old(fileContent), old(store.generationsRemaining)) ==>
        var call := GenerateAdvancedPrompt(promptIdea, fileContent, resp);
        && !isLoading
        && store.generationsRemaining ==
             (if call.spent then Store.DecrementedCredits(old(store.generationsRemaining)) else old(store.generationsRemaining))
        && (call.outcome.Ok? ==> generatedPrompt == call.outcome.text && generationError == None
                                 && store.notification == old(store.notification))
        && (call.outcome.Failed? ==> generatedPrompt == "" && generationError == Some(call.outcome.message)
                                     && store.notification == Some(Store.Notice(call.outcome.message, Store.Error)))
      ensures store.prompts == old(store.prompts) && store.communityPrompts == old(store.communityPrompts)
      ensures store.theme == old(store.theme)
    {
      if (promptIdea == "" && !TruthyText(fileContent)) || store.generationsRemaining <= 0 {
        return;
      }
      isLoading := true;
      generatedPrompt := "";
      generationError := None;
      var call := GenerateAdvancedPrompt(promptIdea, fileContent, resp);
      if call.spent {
        store.DecrementGenerations();
      }
      match call.outcome {
        case Ok(text) =>
          generatedPrompt := text;
        case Failed(message) =>
          store.ShowNotification(message, Store.Error);
          generationError := Some(message);
          generatedPrompt := "";
      }
      isLoading := false;
    }

    /**
     * `handleRefine`: nothing happens without feedback, without a prompt, or without
     * credits. Otherwise a reply replaces the prompt, clears the feedback and spends a
     * credit; a failure is shown and kept as the generation error, the prompt stays.
     */
    method HandleRefine(store: Store.AppStore, resp: ApiResponse)
      modifies this`isLoading, this`generatedPrompt, this`refinementFeedback, this`generationError, store
      ensures !RefineProceeds(old(refinementFeedback), old(generatedPrompt), old(store.generationsRemaining)) ==>
        && generatedPrompt == old(generatedPrompt) && refinementFeedback == old(refinementFeedback)
        && generationError == old(generationError) && isLoading == old(isLoading)
        && store.notification == old(store.notification)
        && store.generationsRemaining == old(store.generationsRemaining)
      ensures RefineProceeds(old(refinementFeedback), old(generatedPrompt), old(store.generationsRemaining)) ==>
        var call := RefineGeneratedPrompt(old(generatedPrompt), old(refinementFeedback), resp);
        && !isLoading
        && store.generationsRemaining ==
             (if call.spent then Store.DecrementedCredits(old(store.generationsRemaining)) else old(store.generationsRemaining))
        && (call.outcome.Ok? ==> generatedPrompt == call.outcome.text && refinementFeedback == ""
                                 && generationError == None && store.notification == old(store.notification))
        && (call.outcome.Failed? ==> generatedPrompt == old(generatedPrompt) && refinementFeedback == old(refinementFeedback)
                                     && generationError == Some(call.outcome.message)
                                     && store.notification == Some(Store.Notice(call.outcome.message, Store.Error)))
      ensures store.prompts == old(store.prompts) && store.communityPrompts == old(store.communityPrompts)
      ensures store.theme == old(store.theme)
    {
      if refinementFeedback == "" || generatedPrompt == "" || store.generationsRemaining <= 0 {
        return;
      }
      isLoading := true;
      generationError := None;
      var call := RefineGeneratedPrompt(generatedPrompt, refinementFeedback, resp);
      if call.spent {
        store.DecrementGenerations();
      }
      match call.outcome {
        case Ok(text) =>
          generatedPrompt := text;
          refinementFeedback := "";
        case Failed(message) =>
          store.ShowNotification(message, Store.Error);
          generationError := Some(message);
      }
      isLoading := false;
    }

    /**
     * `validateAndSave`: collects one error per missing field (a blank prompt also raises
     * a notice), stores them, and only when there are none adds the prompt to the store,
     * remembers its id and opens the success dialog. `id` and `now` are the clock's values.
     */
    method ValidateAndSave(store: Store.AppStore, id: string, now: int)
      modifies this`errors, this`newlyCreatedPromptId, this`showSuccessModal, store
      ensures errors == FormErrors(title, category, generatedPrompt)
      ensures |errors| == 0 ==>
        && store.prompts == [Store.NewPrompt(SavedData(title, category, promptIdea, fileName, generatedPrompt), id, now)] + old(store.prompts)
        && newlyCreatedPromptId == Some(id) && showSuccessModal
        && store.notification == Some(Store.Notice(Store.SavedMessage, Store.Success))
      ensures |errors| != 0 ==>
        && store.prompts == old(store.prompts)
        && newlyCreatedPromptId == old(newlyCreatedPromptId) && showSuccessModal == old(showSuccessModal)
        && store.notification == (if PromptKey in errors then Some(Store.Notice(GenerateFirstNotice, Store.Error))
                                  else old(store.notification))
      ensures store.communityPrompts == old(store.communityPrompts)
      ensures store.generationsRemaining == old(store.generationsRemaining) && store.theme == old(store.theme)
    {
      var newErrors := FormErrors(title, category, generatedPrompt);
      if PromptKey in newErrors {
        store.ShowNotification(GenerateFirstNotice, Store.Error);
      }
      errors := newErrors;
      if |newErrors| == 0 {
        var newId := store.AddPrompt(SavedData(title, category, promptIdea, fileName, generatedPrompt), id, now);
        newlyCreatedPromptId := Some(newId);
        showSuccessModal := true;
      }
    }
  }
}
