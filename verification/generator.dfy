/**
 The app-idea generator's event handlers as transitions of the form state.
 One user event applies its handler's state updates together (they are
 batched into one render), and then the effect that watches the language
 runs against the language of the previous render: when the language changed
 to a non-empty value, it clears the framework.
 */
module Generator {
  import opened Strings
  import opened Sequences
  import opened FormState
  import opened PromptAssembly

  /** The user events the generator reacts to. */
  datatype Event =
    | SetAppType(appType: string)
    | ToggleFunctionality(name: string, checked: bool)
    | SetLanguage(language: string)
    | SetFramework(framework: string)
    | SetArchitecture(architecture: string)
    | SetComplexity(complexity: int)
    | SetIncludeAuth(includeAuth: bool)
    | SetDataStorage(dataStorage: string)
    | SetTargetAudience(targetAudience: string)
    | AddFiles(names: seq<string>)
    | AddFolders(paths: seq<string>)
    | SetUrlInput(text: string)
    | AddUrl
    | GeneratePrompt(at: Instant)
    | ImportConfig(config: Config)
    | Autofill

  /** `fs.filter(f => f !== name)`: every occurrence of `name` removed. */
  function RemoveAll(fs: seq<string>, name: string): (r: seq<string>)
    ensures name !in r
    ensures IsSubsequence(r, fs)
    ensures forall x :: x != name ==> multiset(r)[x] == multiset(fs)[x]
  {
    FilterIsSubsequence(fs, f => f != name);
    forall x | x != name
      ensures multiset(Filter(fs, f => f != name))[x] == multiset(fs)[x]
    {
      FilterCounts(fs, f => f != name, x);
    }
    FilterMembership(fs, f => f != name, name);
    Filter(fs, f => f != name)
  }

  /** The checkbox handler: a checked box appends the name at the end, an
      unchecked one removes every occurrence. */
  function Toggle(fs: seq<string>, name: string, checked: bool): (r: seq<string>)
    ensures checked ==> |r| == |fs| + 1 && r[..|fs|] == fs && r[|fs|] == name
    ensures !checked ==> name !in r && IsSubsequence(r, fs)
    ensures !checked ==> forall x :: x != name ==> multiset(r)[x] == multiset(fs)[x]
  {
    if checked then fs + [name] else RemoveAll(fs, name)
  }

  /** The nine fields that export writes out: importing them back into the
      same state restores it exactly. */
  function Export(s: Form): (r: Config)
    ensures Carries(s, r)
    ensures Import(s, r) == s
  {
    Config(s.appType, s.mainFunctionalities, s.programmingLanguage, s.framework,
           s.architecture, s.complexity, s.includeAuth, s.dataStorage, s.targetAudience)
  }

  /** The nine setters of the import handler, each field taken verbatim. */
  function Import(s: Form, c: Config): (r: Form)
    ensures Carries(r, c)
    ensures SameSessionFields(r, s)
  {
    s.(appType := c.appType, mainFunctionalities := c.mainFunctionalities,
       programmingLanguage := c.programmingLanguage, framework := c.framework,
       architecture := c.architecture, complexity := c.complexity,
       includeAuth := c.includeAuth, dataStorage := c.dataStorage,
       targetAudience := c.targetAudience)
  }

  /** Exporting right after the import setters, before any effect, gives back
      the imported configuration. */
  lemma ImportThenExport(s: Form, c: Config)
    ensures Export(Import(s, c)) == c
  {
  }

  /** The fixed configuration the autofill button writes. */
  const AutofillConfig := Config("Web App", ["User Management", "E-commerce"], "JavaScript", "React",
                                 "Microservices", 7, true, "SQL Database", "General Public")

  /** The state updates of an event's handler, before any effect runs. Only
      generation writes the history, and only by appending one entry; only the
      language, import and autofill handlers write the language; no handler
      lists an empty URL. */
  function Apply(s: Form, e: Event): (r: Form)
    ensures |r.promptHistory| == |s.promptHistory| + (if e.GeneratePrompt? then 1 else 0)
    ensures r.promptHistory[..|s.promptHistory|] == s.promptHistory
    ensures r.programmingLanguage != s.programmingLanguage ==> e.SetLanguage? || e.ImportConfig? || e.Autofill?
    ensures UrlsNonEmpty(s) ==> UrlsNonEmpty(r)
  {
    match e
    case SetAppType(v) => s.(appType := v)
    case ToggleFunctionality(name, checked) =>
      s.(mainFunctionalities := Toggle(s.mainFunctionalities, name, checked))
    case SetLanguage(v) => s.(programmingLanguage := v)
    case SetFramework(v) => s.(framework := v)
    case SetArchitecture(v) => s.(architecture := v)
    case SetComplexity(v) => s.(complexity := v)
    case SetIncludeAuth(b) => s.(includeAuth := b)
    case SetDataStorage(v) => s.(dataStorage := v)
    case SetTargetAudience(v) => s.(targetAudience := v)
    case AddFiles(names) => s.(selectedFiles := s.selectedFiles + names)
    case AddFolders(paths) => s.(selectedFolders := s.selectedFolders + paths)
    case SetUrlInput(v) => s.(urlInput := v)
    case AddUrl =>
      if s.urlInput != "" then s.(inputURLs := s.inputURLs + [s.urlInput], urlInput := "") else s
    case GeneratePrompt(at) => Generate(s, at)
    case ImportConfig(c) => Import(s, c)
    case Autofill => Import(s, AutofillConfig)
  }

  /** The language effect, run after the render that produced `next` from
      `prev`: it fires only when the language changed, and then clears the
      framework only when the new language is non-empty. */
  function LanguageEffect(prev: Form, next: Form): (r: Form)
    ensures r == next.(framework := r.framework)
    ensures next.programmingLanguage != prev.programmingLanguage && next.programmingLanguage != "" ==>
      r.framework == ""
    ensures next.programmingLanguage == prev.programmingLanguage || next.programmingLanguage == "" ==>
      r.framework == next.framework
  {
    if next.programmingLanguage != prev.programmingLanguage && next.programmingLanguage != "" then
      next.(framework := "")
    else
      next
  }

  /** One user event: the handler's batched updates, then the language effect.
      A language newly set to a non-empty value leaves no framework behind,
      a framework chosen on its own is kept, and the history is the handler's. */
  function Step(s: Form, e: Event): (r: Form)
    ensures r.programmingLanguage != s.programmingLanguage && r.programmingLanguage != "" ==> r.framework == ""
    ensures e.SetFramework? ==> r.framework == e.framework
    ensures |r.promptHistory| == |s.promptHistory| + (if e.GeneratePrompt? then 1 else 0)
    ensures r.promptHistory[..|s.promptHistory|] == s.promptHistory
  {
    LanguageEffect(s, Apply(s, e))
  }

  /** A sequence of user events, in order. */
  function Run(s: Form, es: seq<Event>): Form
    decreases |es|
  {
    if |es| == 0 then s else Run(Step(s, es[0]), es[1..])
  }

  /** Number of prompt generations among `es`. */
  function Generations(es: seq<Event>): nat
    decreases |es|
  {
    if |es| == 0 then 0 else (if es[0].GeneratePrompt? then 1 else 0) + Generations(es[1..])
  }

  // ---------------------------------------------------------------------
  // The language effect

  /** Whatever the event, once the language has changed to a non-empty value
      the framework is empty, even when the same event set a framework. */
  lemma FrameworkClearedOnLanguageChange(s: Form, e: Event)
    ensures var t := Step(s, e);
      t.programmingLanguage != s.programmingLanguage && t.programmingLanguage != "" ==> t.framework == ""
  {
  }

  /** Only the framework is touched by the effect: every other field is the
      handler's, and when the language did not change to a non-empty value
      the framework is the handler's too. */
  lemma EffectTouchesOnlyFramework(s: Form, e: Event)
    ensures var t := Step(s, e);
      var a := Apply(s, e);
      && t == a.(framework := t.framework)
      && (a.programmingLanguage == s.programmingLanguage || a.programmingLanguage == "" ==>
            t.framework == a.framework)
  {
  }

  /** Choosing a framework for the current language keeps it; choosing a
      different non-empty language clears it. */
  lemma LanguageThenFramework(s: Form, language: string, framework: string)
    requires language != ""
    ensures Step(Step(s, SetLanguage(language)), SetFramework(framework)).framework == framework
    ensures language != s.programmingLanguage ==> Step(s, SetLanguage(language)).framework == ""
    ensures language == s.programmingLanguage ==> Step(s, SetLanguage(language)) == s
  {
  }

  /** Clearing the language leaves the framework alone. */
  lemma ClearingLanguageKeepsFramework(s: Form)
    ensures Step(s, SetLanguage("")).framework == s.framework
    ensures Step(s, SetLanguage("")).programmingLanguage == ""
  {
  }

  // ---------------------------------------------------------------------
  // Functionalities

  /** Checking a box appends the name at the end; nothing else changes. */
  lemma CheckAppends(s: Form, name: string)
    ensures var t := Step(s, ToggleFunctionality(name, true));
      t.mainFunctionalities == s.mainFunctionalities + [name]
      && t == s.(mainFunctionalities := t.mainFunctionalities)
  {
  }

  /** Unchecking a box removes every occurrence of the name, keeps the others
      in their order and with their multiplicities; nothing else changes. */
  lemma UncheckRemovesAll(s: Form, name: string)
    ensures var t := Step(s, ToggleFunctionality(name, false));
      && name !in t.mainFunctionalities
      && IsSubsequence(t.mainFunctionalities, s.mainFunctionalities)
      && (forall x :: x != name ==> multiset(t.mainFunctionalities)[x] == multiset(s.mainFunctionalities)[x])
      && t == s.(mainFunctionalities := t.mainFunctionalities)
  {
  }

  /** Unchecking undoes checking when the name was not selected before. */
  lemma {:induction false} UncheckAfterCheck(fs: seq<string>, name: string)
    requires name !in fs
    ensures Toggle(Toggle(fs, name, true), name, false) == fs
  {
    assert forall i :: 0 <= i < |fs| ==> (f => f != name)(fs[i]);
    FilterKeepsAll(fs, f => f != name);
    FilterSnocDropped(fs, name);
  }

  /** Filtering out the last element when it is the one removed. */
  lemma {:induction false} FilterSnocDropped(fs: seq<string>, name: string)
    ensures Filter(fs + [name], f => f != name) == Filter(fs, f => f != name)
    decreases |fs|
  {
    if |fs| > 0 {
      assert (fs + [name])[1..] == fs[1..] + [name];
      FilterSnocDropped(fs[1..], name);
    } else {
      assert ([] + [name])[1..] == [];
    }
  }

  /** A box shows as checked exactly when its name is listed, so it can only
      be checked while the name is absent; toggling then never lists a name
      twice. */
  lemma CheckUncheckKeepsDistinct(fs: seq<string>, name: string, checked: bool)
    requires Distinct(fs)
    requires checked ==> name !in fs
    ensures Distinct(Toggle(fs, name, checked))
  {
    if !checked {
      var r := Toggle(fs, name, checked);
      forall i, j | 0 <= i < j < |r|
        ensures r[i] != r[j]
      {
        if r[i] == r[j] {
          assert multiset(r)[r[i]] >= 2 by {
            assert r == r[..i] + [r[i]] + r[i + 1..j] + [r[j]] + r[j + 1..];
          }
          assert multiset(fs)[r[i]] >= 2;
          DistinctCountsAtMostOne(fs, r[i]);
        }
      }
    }
  }

  /** No name is listed twice. */
  predicate Distinct(fs: seq<string>)
  {
    forall i, j :: 0 <= i < j < |fs| ==> fs[i] != fs[j]
  }

  lemma {:induction false} DistinctCountsAtMostOne(fs: seq<string>, x: string)
    requires Distinct(fs)
    ensures multiset(fs)[x] <= 1
    decreases |fs|
  {
    if |fs| > 0 {
      assert fs == [fs[0]] + fs[1..];
      DistinctCountsAtMostOne(fs[1..], x);
      if fs[0] == x {
        assert x !in fs[1..];
      }
    }
  }

  // ---------------------------------------------------------------------
  // URLs

  /** Adding a URL with text in the box appends it and empties the box;
      nothing else changes. */
  lemma AddUrlAppends(s: Form)
    requires s.urlInput != ""
    ensures var t := Step(s, AddUrl);
      t.inputURLs == s.inputURLs + [s.urlInput] && t.urlInput == ""
      && t == s.(inputURLs := t.inputURLs, urlInput := "")
  {
  }

  /** Adding a URL with an empty box changes nothing. */
  lemma AddUrlEmptyIsNoop(s: Form)
    requires s.urlInput == ""
    ensures Step(s, AddUrl) == s
  {
  }

  /** Every listed URL is non-empty. */
  predicate UrlsNonEmpty(s: Form)
  {
    forall i :: 0 <= i < |s.inputURLs| ==> s.inputURLs[i] != ""
  }

  /** No event can list an empty URL. */
  lemma StepKeepsUrlsNonEmpty(s: Form, e: Event)
    requires UrlsNonEmpty(s)
    ensures UrlsNonEmpty(Step(s, e))
  {
  }

  // ---------------------------------------------------------------------
  // Prompt history

  /** The shown prompt is the last one recorded, and nothing is shown before
      the first generation. */
  predicate HistoryConsistent(s: Form)
  {
    if |s.promptHistory| == 0 then s.generatedPrompt == ""
    else s.promptHistory[|s.promptHistory| - 1].prompt == s.generatedPrompt
  }

  /** Every event keeps the shown prompt and the history consistent. */
  lemma StepKeepsHistoryConsistent(s: Form, e: Event)
    requires HistoryConsistent(s)
    ensures HistoryConsistent(Step(s, e))
  {
  }

  /** Generating adds one entry stamped `at` holding the prompt of the
      current state; earlier entries stay as they were. */
  lemma GenerateRecordsPrompt(s: Form, at: Instant)
    ensures var t := Step(s, GeneratePrompt(at));
      && t.promptHistory == s.promptHistory + [HistoryEntry(at, AssemblePrompt(s))]
      && t.generatedPrompt == AssemblePrompt(s)
      && SameConfigFields(t, s)
  {
    var t := Generate(s, at);
    assert t.promptHistory == t.promptHistory[..|s.promptHistory|] + [t.promptHistory[|s.promptHistory|]];
  }

  /** Only prompt generation touches the history, and it only appends. */
  lemma StepHistory(s: Form, e: Event)
    ensures var h := Step(s, e).promptHistory;
      && |h| == |s.promptHistory| + (if e.GeneratePrompt? then 1 else 0)
      && h[..|s.promptHistory|] == s.promptHistory
  {
  }

  /** Over any run the history only grows, by one entry per generation, and
      the entries already there are kept in place. */
  lemma {:induction false} RunHistoryAppendOnly(s: Form, es: seq<Event>)
    ensures var h := Run(s, es).promptHistory;
      && |h| == |s.promptHistory| + Generations(es)
      && h[..|s.promptHistory|] == s.promptHistory
    decreases |es|
  {
    if |es| > 0 {
      var t := Step(s, es[0]);
      StepHistory(s, es[0]);
      RunHistoryAppendOnly(t, es[1..]);
      var h := Run(s, es).promptHistory;
      assert h[..|t.promptHistory|][..|s.promptHistory|] == h[..|s.promptHistory|];
    }
  }

  /** The two invariants hold from mount through any run. */
  lemma {:induction false} RunKeepsInvariants(s: Form, es: seq<Event>)
    requires UrlsNonEmpty(s) && HistoryConsistent(s)
    ensures UrlsNonEmpty(Run(s, es)) && HistoryConsistent(Run(s, es))
    decreases |es|
  {
    if |es| > 0 {
      StepKeepsUrlsNonEmpty(s, es[0]);
      StepKeepsHistoryConsistent(s, es[0]);
      RunKeepsInvariants(Step(s, es[0]), es[1..]);
    }
  }

  /** The mount state satisfies both invariants. */
  lemma InitialInvariants()
    ensures UrlsNonEmpty(Initial()) && HistoryConsistent(Initial())
  {
  }

  // ---------------------------------------------------------------------
  // Export and import

  /** Export reads only the nine configuration fields. */
  lemma ExportIgnoresSession(s: Form, t: Form)
    ensures Export(s) == Export(t) <==> SameConfigFields(s, t)
  {
  }

  /** Importing what was just exported restores the state exactly. */
  lemma ImportExportRoundTrip(s: Form)
    ensures Step(s, ImportConfig(Export(s))) == s
  {
  }

  /** Importing into any state: the nine fields are the imported ones, except
      that the framework is cleared when the imported language differs from
      the current one and is non-empty; nothing outside the nine changes. */
  lemma ImportOverwrites(s: Form, c: Config)
    ensures var t := Step(s, ImportConfig(c));
      var clears := c.programmingLanguage != s.programmingLanguage && c.programmingLanguage != "";
      && Export(t) == (if clears then c.(framework := "") else c)
      && SameSessionFields(t, s)
  {
  }

  /** Exporting after an import gives back the imported configuration
      exactly when the effect does not clear a framework it carried. */
  lemma ExportAfterImport(s: Form, c: Config)
    ensures Export(Step(s, ImportConfig(c))) == c <==>
      (c.programmingLanguage == s.programmingLanguage || c.programmingLanguage == "" || c.framework == "")
  {
    ImportOverwrites(s, c);
  }

  // ---------------------------------------------------------------------
  // Autofill

  /** Autofill writes its fixed values, but its "React" framework survives
      only when the language already was "JavaScript". */
  lemma AutofillResult(s: Form)
    ensures var t := Step(s, Autofill);
      && Export(t) == AutofillConfig.(framework := t.framework)
      && (t.framework == "React" <==> s.programmingLanguage == "JavaScript")
      && (t.framework == "" <==> s.programmingLanguage != "JavaScript")
      && SameSessionFields(t, s)
  {
  }

  /** A fresh form after autofill, with "React" already cleared. */
  const Autofilled := Initial().(appType := "Web App",
      mainFunctionalities := ["User Management", "E-commerce"], programmingLanguage := "JavaScript",
      architecture := "Microservices", complexity := 7, includeAuth := true,
      dataStorage := "SQL Database", targetAudience := "General Public")

  /** Autofill on a fresh form: the effect clears the framework it just set. */
  lemma AutofillFromMount()
    ensures Step(Initial(), Autofill) == Autofilled
  {
  }

  // The clauses the autofilled fields produce, one at a time.

  lemma AutofillOpening()
    ensures OpeningClause("Web App") == "Analyze the provided folders and files to create a functional Web App that "
  {
  }

  lemma AutofillFunctionalities()
    ensures ListClause(FunctionalitiesLead, ["User Management", "E-commerce"]) == "includes User Management, E-commerce. "
  {
    assert Join(["User Management", "E-commerce"], ListSeparator) == "User Management, E-commerce";
  }

  lemma AutofillLanguage()
    ensures LanguageClause("JavaScript") == "The app should be written in JavaScript "
  {
  }

  lemma AutofillArchitecture()
    ensures ArchitectureClause("Microservices") == "and follow Microservices architecture. "
  {
  }

  lemma AutofillComplexity()
    ensures ComplexityClause(7) == "The app's complexity level is 7/10. "
  {
    assert IntToDecimal(7) == "7";
  }

  lemma AutofillStorage()
    ensures StorageClause("SQL Database") == "Use SQL Database for data storage. "
  {
  }

  lemma AutofillAudience()
    ensures AudienceClause("General Public") == "The target audience is General Public. "
  {
  }

  /** With authentication on and no framework, files, folders or URLs, the
      prompt is the remaining eight clauses in writing order. */
  lemma PromptOfEightClauses(s: Form)
    requires s.framework == "" && s.includeAuth
    requires |s.selectedFiles| == 0 && |s.selectedFolders| == 0 && |s.inputURLs| == 0
    ensures AssemblePrompt(s)
         == OpeningClause(s.appType)
          + ListClause(FunctionalitiesLead, s.mainFunctionalities)
          + LanguageClause(s.programmingLanguage)
          + ArchitectureClause(s.architecture)
          + ComplexityClause(s.complexity)
          + "Include user authentication and authorization. "
          + StorageClause(s.dataStorage)
          + AudienceClause(s.targetAudience)
  {
    var opening, functionalities, language := OpeningClause(s.appType),
      ListClause(FunctionalitiesLead, s.mainFunctionalities), LanguageClause(s.programmingLanguage);
    var architecture, complexity, storage, audience := ArchitectureClause(s.architecture),
      ComplexityClause(s.complexity), StorageClause(s.dataStorage), AudienceClause(s.targetAudience);
    var auth := "Include user authentication and authorization. ";
    var head := opening + functionalities + language;
    var tail := auth + storage + audience;
    calc {
      AssemblePrompt(s);
    == { PromptSpelledOut(s); }
      head + FrameworkClause(s.framework) + architecture + complexity + AuthClause(s.includeAuth) + storage + audience
        + ListClause(FilesLead, s.selectedFiles) + ListClause(FoldersLead, s.selectedFolders) + ListClause(UrlsLead, s.inputURLs);
    == { assert FrameworkClause(s.framework) == "" && AuthClause(s.includeAuth) == auth; }
      head + "" + architecture + complexity + auth + storage + audience + "" + "" + "";
    == { assert head + "" == head; }
      head + architecture + complexity + auth + storage + audience + "" + "" + "";
    == { assert head + architecture + complexity + auth + storage + audience + "" + "" + ""
             == head + architecture + complexity + auth + storage + audience; }
      head + architecture + complexity + auth + storage + audience;
    }
  }

  /** The prompt of the autofilled fresh form: there is no framework clause. */
  lemma AutofilledPrompt()
    ensures AssemblePrompt(Autofilled)
         == "Analyze the provided folders and files to create a functional Web App that "
          + "includes User Management, E-commerce. "
          + "The app should be written in JavaScript "
          + "and follow Microservices architecture. "
          + "The app's complexity level is 7/10. "
          + "Include user authentication and authorization. "
          + "Use SQL Database for data storage. "
          + "The target audience is General Public. "
  {
    PromptOfEightClauses(Autofilled);
    AutofillOpening();
    AutofillFunctionalities();
    AutofillLanguage();
    AutofillArchitecture();
    AutofillComplexity();
    AutofillStorage();
    AutofillAudience();
  }

  /** Autofill on a fresh form and then generate: the shown prompt and the
      one recorded entry are the text above. */
  lemma AutofillPromptFromMount(at: Instant)
    ensures var t := Step(Step(Initial(), Autofill), GeneratePrompt(at));
      t.generatedPrompt == AssemblePrompt(Autofilled)
      && t.promptHistory == [HistoryEntry(at, AssemblePrompt(Autofilled))]
  {
    AutofillFromMount();
    GenerateRecordsPrompt(Autofilled, at);
  }
}
