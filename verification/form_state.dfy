/**
 The state of the app-idea generator form, as an immutable record.
 Files and folders are reduced to the strings the prompt reads from them
 (a file's `name`, a folder entry's `webkitRelativePath`); the moment a
 prompt was generated is an opaque value supplied by the caller.
 */
module FormState {

  /** Opaque timestamp of a history entry (the source reads the clock). */
  type Instant = int

  /** One entry of the prompt history. */
  datatype HistoryEntry = HistoryEntry(timestamp: Instant, prompt: string)

  /** The nine fields an exported configuration carries. */
  datatype Config = Config(
    appType: string,
    mainFunctionalities: seq<string>,
    programmingLanguage: string,
    framework: string,
    architecture: string,
    complexity: int,
    includeAuth: bool,
    dataStorage: string,
    targetAudience: string)

  /** Everything the generator keeps between renders that the logic reads or writes. */
  datatype Form = Form(
    appType: string,
    mainFunctionalities: seq<string>,
    programmingLanguage: string,
    framework: string,
    architecture: string,
    complexity: int,
    includeAuth: bool,
    dataStorage: string,
    targetAudience: string,
    generatedPrompt: string,
    promptHistory: seq<HistoryEntry>,
    selectedFiles: seq<string>,
    selectedFolders: seq<string>,
    inputURLs: seq<string>,
    urlInput: string)

  /** The state at mount: nothing chosen, nothing generated or selected, the
      complexity slider in the middle of its 1 to 10 scale, authentication off. */
  function Initial(): (r: Form)
    ensures r.appType == "" && r.mainFunctionalities == [] && r.programmingLanguage == "" && r.framework == ""
    ensures r.architecture == "" && r.dataStorage == "" && r.targetAudience == ""
    ensures r.complexity == 5 && 1 <= r.complexity <= 10 && !r.includeAuth
    ensures r.generatedPrompt == "" && r.promptHistory == []
    ensures r.selectedFiles == [] && r.selectedFolders == [] && r.inputURLs == [] && r.urlInput == ""
  {
    Form("", [], "", "", "", 5, false, "", "", "", [], [], [], [], "")
  }

  /** The nine configuration fields of two states agree. */
  predicate SameConfigFields(s: Form, t: Form)
  {
    && s.appType == t.appType
    && s.mainFunctionalities == t.mainFunctionalities
    && s.programmingLanguage == t.programmingLanguage
    && s.framework == t.framework
    && s.architecture == t.architecture
    && s.complexity == t.complexity
    && s.includeAuth == t.includeAuth
    && s.dataStorage == t.dataStorage
    && s.targetAudience == t.targetAudience
  }

  /** The nine configuration fields of `s` hold exactly the values of `c`. */
  predicate Carries(s: Form, c: Config)
  {
    && s.appType == c.appType
    && s.mainFunctionalities == c.mainFunctionalities
    && s.programmingLanguage == c.programmingLanguage
    && s.framework == c.framework
    && s.architecture == c.architecture
    && s.complexity == c.complexity
    && s.includeAuth == c.includeAuth
    && s.dataStorage == c.dataStorage
    && s.targetAudience == c.targetAudience
  }

  /** Everything outside the nine configuration fields agrees. */
  predicate SameSessionFields(s: Form, t: Form)
  {
    && s.generatedPrompt == t.generatedPrompt
    && s.promptHistory == t.promptHistory
    && s.selectedFiles == t.selectedFiles
    && s.selectedFolders == t.selectedFolders
    && s.inputURLs == t.inputURLs
    && s.urlInput == t.urlInput
  }
}
