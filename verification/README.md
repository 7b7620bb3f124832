# App idea generator: a Dafny model of its form logic and documentation search

The application is a React form. The user picks the attributes of an app they
want built, and the form turns them into one natural-language prompt. Each
generated prompt is kept in a history. The nine configuration fields can be
exported and imported. A separate documentation page filters a fixed list of
entries by a case-insensitive search term.

This project models that logic as immutable records and pure functions:

- `strings.dfy` (module `Strings`): `items.join(", ")`, the decimal text a
  template literal prints for an integer, and the reference notion of one
  string occurring in another.
- `search.dfy` (module `Search`): `toLowerCase` on ASCII letters, and the
  left-to-right scan of `String.prototype.includes`.
- `sequences.dfy` (module `Sequences`): the order-preserving
  `Array.prototype.filter` used by both the checkbox handler and the
  documentation search, and the subsequence relation.
- `form_state.dfy` (module `FormState`): the generator's state record, the
  nine-field configuration, and history entries.
- `prompt.dfy` (module `PromptAssembly`): `generatePrompt`. The prompt is
  defined as the twelve clause contributions in writing order. Lemmas state
  its layout: where each clause sits, when it is present, that clauses keep
  their order, and what emptying one field does.
- `generator.dfy` (module `Generator`): the generator's event handlers.
  One user event applies its handler's updates together, since React batches
  them into one render. Then the effect watching `programmingLanguage` runs
  against the previous render's language. When the language changed to a
  non-empty value, the effect clears `framework`. This also happens when the
  same event (import, autofill) set a framework.
- `documentation.dfy` (module `Documentation`): the search filter, the
  page's load and search effects, and the fetched entries.

Three details of the code are easy to miss, and the model follows each:

- Export and import carry nine fields (`appType` through `targetAudience`,
  including `framework`), not eight.
- The prompt has three more optional clauses after the audience: files,
  folders and URLs.
- The framework is cleared only when the language changes to a non-empty
  value. Clearing the language keeps the framework, and so does importing a
  configuration whose language equals the current one.

Timestamps are an opaque `Instant` supplied by the caller. Files and folders
are reduced to the strings the prompt reads from them: a file's `name` and a
folder entry's `webkitRelativePath`.

## Model

| member | source | states |
|---|---|---|
| `PromptAssembly.AssemblePrompt` | src/components/AppIdeaGenerator.jsx:85-96 | the prompt starts with the opening clause (line 85) and ends with the URL clause (line 96), which is empty when no URL is listed |
| `PromptAssembly.PromptSpelledOut` | src/components/AppIdeaGenerator.jsx:84-96 | the prompt is the opening, functionalities, language, framework, architecture, complexity, auth, storage, audience, files, folders and URL clauses appended in that order |
| `PromptAssembly.ClauseWrittenIffPresent` | src/components/AppIdeaGenerator.jsx:85-96 | a clause contributes text exactly when its field is non-empty (or true); the opening, language and complexity clauses are always written |
| `PromptAssembly.PieceOccursAtStart` | src/components/AppIdeaGenerator.jsx:85-96 | every clause's text occurs verbatim in the prompt at the point where the clauses before it end |
| `PromptAssembly.ClausesInWritingOrder` | src/components/AppIdeaGenerator.jsx:85-96 | of any two clauses, the one written first ends before the later one begins |
| `PromptAssembly.PromptBeginsWithOpening` | src/components/AppIdeaGenerator.jsx:85 | the prompt starts with "Analyze the provided folders and files to create a functional ", the app type and " that ", even for an empty app type |
| `PromptAssembly.PromptMentionsAppType` | src/components/AppIdeaGenerator.jsx:85 | the app type occurs verbatim right after the opening text |
| `PromptAssembly.PromptMentionsLanguage` | src/components/AppIdeaGenerator.jsx:87 | the language occurs verbatim right after "The app should be written in ", whatever the other fields hold |
| `PromptAssembly.PromptMentionsComplexity` | src/components/AppIdeaGenerator.jsx:90 | the complexity, printed in decimal and followed by "/10. ", occurs right after "The app's complexity level is ", whatever the other fields hold |
| `PromptAssembly.FunctionalitiesStart` | src/components/AppIdeaGenerator.jsx:85-87 | the functionalities clause starts where the opening clause ends, and the language clause follows it |
| `PromptAssembly.FunctionalitiesClauseIff` | src/components/AppIdeaGenerator.jsx:86 | "includes " follows the opening clause if and only if at least one functionality is selected |
| `PromptAssembly.ListClauseLayout` | src/components/AppIdeaGenerator.jsx:86 | a non-empty list clause is its lead followed by the joined items |
| `PromptAssembly.FunctionalitiesJoinOccurs` | src/components/AppIdeaGenerator.jsx:86 | the comma-joined functionalities follow "includes " in the prompt |
| `PromptAssembly.FunctionalitiesListedInOrder` | src/components/AppIdeaGenerator.jsx:86 | each selected functionality occurs verbatim at its computed offset, each one ending before the next begins |
| `PromptAssembly.OmitPiece` | src/components/AppIdeaGenerator.jsx:86-96 | emptying one optional field silences its own clause and leaves every other clause's text unchanged |
| `PromptAssembly.PiecesOfOmit` | src/components/AppIdeaGenerator.jsx:86-96 | after emptying an optional field, the clause list is the old one with that clause blanked |
| `PromptAssembly.OmittingFieldDropsOnlyItsClause` | src/components/AppIdeaGenerator.jsx:86-96 | emptying an optional field removes exactly its clause: the text before and after it is kept |
| `PromptAssembly.Generate` | src/components/AppIdeaGenerator.jsx:84-98 | generating shows the assembled prompt and appends one entry holding it, stamped with the given instant; earlier entries and the configuration are unchanged |
| `Strings.Join` | src/components/AppIdeaGenerator.jsx:86 | joining no items gives ""; otherwise the length is the items' total length plus one separator between each pair of neighbours |
| `Strings.JoinPlacesItems` | src/components/AppIdeaGenerator.jsx:86 | each item occurs verbatim at its offset in the joined text |
| `Strings.JoinSeparatesItems` | src/components/AppIdeaGenerator.jsx:86 | neighbouring items are separated by exactly ", " |
| `Strings.JoinItemOccurs` | src/components/AppIdeaGenerator.jsx:86 | wherever a joined list occurs, each of its items occurs at its offset |
| `Strings.JoinSnoc` | src/components/AppIdeaGenerator.jsx:86 | appending one item to a non-empty list appends the separator and the item to the joined text |
| `Strings.IntToDecimal` | src/components/AppIdeaGenerator.jsx:90 | the complexity is printed as an optional minus sign and decimal digits with no leading zero, with a minus sign exactly for negative values |
| `Strings.IntToDecimalRoundTrip` | src/components/AppIdeaGenerator.jsx:90 | reading the printed complexity back gives the same integer, so distinct values print differently |
| `Strings.ConcatAround` | src/components/AppIdeaGenerator.jsx:85-96 | text built clause by clause splits into what comes before a clause, the clause, and what comes after it |
| `Strings.ConcatBlankPart` | src/components/AppIdeaGenerator.jsx:86-96 | blanking one clause removes exactly its text from the built prompt |
| `Search.Lower` | src/pages/Documentation.jsx:26-27 | lower-casing keeps the length and maps every character through the ASCII lower-case map |
| `Search.LowerIdempotent` | src/pages/Documentation.jsx:26-27 | lower-casing twice is lower-casing once |
| `Search.Includes` | src/pages/Documentation.jsx:26-27 | the scan accepts the empty needle and never accepts a needle longer than the haystack |
| `Search.IncludesIsSubstring` | src/pages/Documentation.jsx:26-27 | the `includes` scan answers true exactly when the needle occurs at some index of the haystack |
| `Search.LowerPreservesSubstring` | src/pages/Documentation.jsx:26-27 | if one string contains another, their lower-cased forms do too |
| `Sequences.Filter` | src/pages/Documentation.jsx:25-28 | a filter result is no longer than its input and holds only elements that pass |
| `Sequences.FilterIsSubsequence` | src/pages/Documentation.jsx:25-29 | a filter result is a subsequence of its input, in input order |
| `Sequences.FilterCounts` | src/pages/Documentation.jsx:25-29 | a filter keeps every copy of an element that passes and no copy of one that fails |
| `Sequences.FilterMembership` | src/pages/Documentation.jsx:25-29 | an element is in the result exactly when it is in the input and passes |
| `Sequences.FilterKeepsAll` | src/pages/Documentation.jsx:25-29 | when every element passes, the result is the input |
| `Sequences.FilterIdempotent` | src/pages/Documentation.jsx:25-29 | filtering twice with the same test equals filtering once |
| `Sequences.FilterAgree` | src/pages/Documentation.jsx:25-29 | two tests that agree on every element give the same result |
| `Sequences.FilterMonotone` | src/pages/Documentation.jsx:25-29 | a stricter test keeps a subsequence of what a looser test keeps |
| `Sequences.SubsequenceTransitive` | src/pages/Documentation.jsx:25-29 | a subsequence of a subsequence is a subsequence |
| `Generator.RemoveAll` | src/components/AppIdeaGenerator.jsx:218 | unchecking removes every occurrence of the name, keeps the others in order and keeps how often each other name occurs |
| `Generator.Toggle` | src/components/AppIdeaGenerator.jsx:214-220 | checking appends the name after the unchanged list; unchecking removes it everywhere and keeps the rest in order |
| `Generator.CheckAppends` | src/components/AppIdeaGenerator.jsx:215-216 | a checked box appends the name at the end and changes nothing else in the state |
| `Generator.UncheckRemovesAll` | src/components/AppIdeaGenerator.jsx:217-218 | an unchecked box removes every occurrence of the name, keeps the other names in order and with their multiplicities, and changes nothing else |
| `Generator.UncheckAfterCheck` | src/components/AppIdeaGenerator.jsx:214-220 | unchecking a name right after checking it restores the list, when the name was not listed before |
| `Generator.FilterSnocDropped` | src/components/AppIdeaGenerator.jsx:218 | removing a name from a list ending in that name ignores that last copy |
| `Generator.CheckUncheckKeepsDistinct` | src/components/AppIdeaGenerator.jsx:213-220 | since a box can only be checked while its name is absent, toggling never lists a name twice |
| `Generator.DistinctCountsAtMostOne` | src/components/AppIdeaGenerator.jsx:213-220 | in a list without repeats, every name occurs at most once |
| `Generator.Apply` | src/components/AppIdeaGenerator.jsx:69-157 | of the handlers, only generating writes the history, and only by appending one entry; only the language setter, import and autofill write the language; none lists an empty URL |
| `Generator.Step` | src/components/AppIdeaGenerator.jsx:63-67 | after any event, a language newly set to a non-empty value leaves an empty framework, a framework chosen on its own is kept, and the history grows only by generation |
| `Generator.LanguageEffect` | src/components/AppIdeaGenerator.jsx:63-67 | the effect touches only the framework: it is empty when the language changed to a non-empty value, and is the handler's otherwise |
| `Generator.FrameworkClearedOnLanguageChange` | src/components/AppIdeaGenerator.jsx:63-67 | after any event that changes the language to a non-empty value, the framework is empty |
| `Generator.EffectTouchesOnlyFramework` | src/components/AppIdeaGenerator.jsx:63-67 | the effect changes nothing but the framework, and changes even that only when the language changed to a non-empty value |
| `Generator.LanguageThenFramework` | src/components/AppIdeaGenerator.jsx:63-67 | a different non-empty language clears the framework; the same language changes nothing; a framework chosen afterwards stays |
| `Generator.ClearingLanguageKeepsFramework` | src/components/AppIdeaGenerator.jsx:63-67 | clearing the language leaves the framework as it was |
| `Generator.AddUrlAppends` | src/components/AppIdeaGenerator.jsx:77-82 | with text in the box, adding a URL appends that text and empties the box; nothing else changes |
| `Generator.AddUrlEmptyIsNoop` | src/components/AppIdeaGenerator.jsx:77-82 | with an empty box, adding a URL changes nothing |
| `Generator.StepKeepsUrlsNonEmpty` | src/components/AppIdeaGenerator.jsx:77-82 | no event can put an empty URL in the list |
| `Generator.StepKeepsHistoryConsistent` | src/components/AppIdeaGenerator.jsx:97-98 | after every event, the shown prompt is the last history entry's prompt, or "" before the first generation |
| `Generator.GenerateRecordsPrompt` | src/components/AppIdeaGenerator.jsx:84-98 | generating appends exactly one entry holding the current state's prompt and the given instant, and leaves the configuration alone |
| `Generator.StepHistory` | src/components/AppIdeaGenerator.jsx:97-98 | only generating touches the history, and it only appends one entry |
| `Generator.RunHistoryAppendOnly` | src/components/AppIdeaGenerator.jsx:97-98 | over any run of events, the old history stays in place and grows by one entry per generation |
| `Generator.RunKeepsInvariants` | src/components/AppIdeaGenerator.jsx:77-98 | both invariants, non-empty URLs and a consistent history, hold after any run that starts where they hold |
| `FormState.Initial` | src/components/AppIdeaGenerator.jsx:25-42 | the form mounts with every text field empty and no functionality chosen, nothing generated or selected, the complexity at 5 (the middle of the slider's 1 to 10 scale), and authentication off |
| `Generator.InitialInvariants` | src/components/AppIdeaGenerator.jsx:25-42 | the mount state has no URLs, no history and no shown prompt |
| `Generator.Import` | src/components/AppIdeaGenerator.jsx:131-140 | the import setters write the nine fields verbatim from the configuration; session fields are untouched |
| `Generator.Export` | src/components/AppIdeaGenerator.jsx:112-116 | the exported configuration carries the nine fields, and importing it into the same state gives that state back |
| `Generator.ImportThenExport` | src/components/AppIdeaGenerator.jsx:112-140 | exporting right after the import setters, before any effect, gives back the imported configuration |
| `Generator.ExportIgnoresSession` | src/components/AppIdeaGenerator.jsx:112-116 | two states export alike exactly when their nine configuration fields agree |
| `Generator.ImportExportRoundTrip` | src/components/AppIdeaGenerator.jsx:112-140 | importing what was just exported restores the whole state |
| `Generator.ImportOverwrites` | src/components/AppIdeaGenerator.jsx:131-140 | importing into any state writes the nine fields, but clears the framework when the imported language is new and non-empty; nothing else changes |
| `Generator.ExportAfterImport` | src/components/AppIdeaGenerator.jsx:112-140 | exporting right after an import returns the imported configuration exactly when the effect did not clear a framework it carried |
| `Generator.AutofillResult` | src/components/AppIdeaGenerator.jsx:145-157 | autofill writes its fixed values; its "React" framework survives exactly when the language already was "JavaScript", and is empty otherwise |
| `Generator.AutofillFromMount` | src/components/AppIdeaGenerator.jsx:145-157 | on a fresh form, autofill leaves the fixed values with an empty framework |
| `Generator.AutofilledPrompt` | src/components/AppIdeaGenerator.jsx:85-96 | the autofilled fresh form's prompt is the given text, with no framework clause |
| `Generator.AutofillPromptFromMount` | src/components/AppIdeaGenerator.jsx:145-157 | autofill and then generate on a fresh form shows that prompt and records it as the only history entry |
| `Documentation.Matches` | src/pages/Documentation.jsx:25-28 | the empty term matches every entry, and a term longer than both the title and the description matches none |
| `Documentation.MatchesMeaning` | src/pages/Documentation.jsx:25-28 | an entry passes the search test exactly when the lower-cased term occurs in its lower-cased title or description |
| `Documentation.FilterDocs` | src/pages/Documentation.jsx:24-30 | the shown entries are no more than the loaded ones, and each of them matches the term |
| `Documentation.FilterDocsIsSubsequence` | src/pages/Documentation.jsx:25-29 | the shown entries are a subsequence of the loaded ones, in their original order |
| `Documentation.FilterDocsKeepsExactlyMatches` | src/pages/Documentation.jsx:25-29 | an entry is shown, as often as it is loaded, exactly when it matches; otherwise it is not shown |
| `Documentation.EmptyTermMatches` | src/pages/Documentation.jsx:25-28 | every entry matches the empty term |
| `Documentation.EmptyTermKeepsAll` | src/pages/Documentation.jsx:25-29 | an empty search box shows every loaded entry |
| `Documentation.FilterDocsIdempotent` | src/pages/Documentation.jsx:25-29 | searching the shown entries again with the same term changes nothing |
| `Documentation.FilterDocsCaseInsensitive` | src/pages/Documentation.jsx:26-27 | terms that lower-case alike show the same entries |
| `Documentation.FilterDocsNarrows` | src/pages/Documentation.jsx:25-29 | a term that contains the previous term shows a subsequence of what the previous term showed |
| `Documentation.Mount` | src/pages/Documentation.jsx:10-12 | the mounted page already shows the search result for its term and entries |
| `Documentation.ApplyPage` | src/pages/Documentation.jsx:16-18 | a load stores the fetched entries and shows all of them; typing (line 38) stores the term and leaves the entries and the shown list alone |
| `Documentation.StepPage` | src/pages/Documentation.jsx:14-30 | an event followed by the search effect keeps the entries and term the handler stored; a load always leaves the shown entries equal to the search result, and typing keeps that so |
| `Documentation.SearchEffect` | src/pages/Documentation.jsx:24-30 | the effect touches only the shown entries; when the term changed or a list was loaded they become the search result for the current term and entries, and otherwise they stay as they were |
| `Documentation.StepPageKeepsConsistent` | src/pages/Documentation.jsx:14-30 | after every event, the shown entries are the search result for the current term and loaded entries |
| `Documentation.LoadShowsFetched` | src/pages/Documentation.jsx:14-22 | after the load, the page holds the fetched entries and shows those matching the current term; with an empty term it shows all of them |
| `Documentation.LoadFetchedShowsAll` | src/utils/documentation.js:3-269 | loading the four fetched entries into a fresh page shows all four |

## Left out

- Rendering, tooltips, tabs, comboboxes and the slider are left out. So is the UI-only state that never reaches the prompt: `ideaInput`, `showAdvanced` and `activeTab`.
- React's scheduler is left out. Each event is modelled as one batched render followed by one run of the effects whose dependencies changed. This assumes React 18 automatic batching, which also covers the setters inside the `FileReader` callback.
- Browser I/O is left out: `Blob`, `URL.createObjectURL`, the download link, and `FileReader`. Export and import are modelled as a record copy of the nine fields.
- `JSON.stringify` and `JSON.parse` are left out, since they are foreign library calls. This covers the uncaught error on malformed input. It also covers configurations with missing keys or wrongly typed values, which import would write as `undefined` or as values of another type. The model's `Config` always holds the nine typed fields.
- `complexity` is an integer. The slider yields integers from 1 to 10, and import writes the value verbatim with no range check. The model takes any integer, but JavaScript numbers are doubles, so this is wider than the code: non-integer numbers, magnitudes beyond 2^53 and exponent notation are not modelled.
- `Strings.IntToDecimal` prints every integer exactly. For integers beyond 2^53 the code prints the double's shortest round-trip digits instead (2^60 prints as `1152921504606847000`); that rounding is not modelled.
- `Search.Lower` maps only the ASCII letters A–Z. Full Unicode `toLowerCase` is left out. `Search.LowerPreservesSubstring` and `Documentation.FilterDocsNarrows` rest on that: JavaScript's `toLowerCase` is context-sensitive (final sigma), so `"ΑΣ"` lower-cases to `"ας"` while `"ΑΣΑ"` lower-cases to `"ασα"`, which does not contain `"ας"`. An entry titled "ΑΣΑ" is then shown for the term "ΑΣΑ" but not for "ΑΣ", so extending a term does not narrow the result for every entry in the real page. Both properties hold for the four fetched entries, which are ASCII.
- `Search.LowerPreservesSubstring` holds only for the ASCII lower-casing of the model, not for JavaScript's context-sensitive `toLowerCase` (see the line above).
- `Documentation.FilterDocsNarrows` holds only for the ASCII lower-casing of the model; with JavaScript's `toLowerCase` a longer term can show an entry a shorter one hides (see the line above).
- The framework menu reads a per-language table of framework options (src/components/AppIdeaGenerator.jsx:267). That menu is rendered only while the advanced options are shown (line 256). So a non-empty language outside the table makes the render fail while the advanced options are open, or as soon as they are opened. The option catalogs and that render failure are left out, and any string is accepted as a language or framework.
- `Documentation.LoadFetchedShowsAll` keeps only the four titles and descriptions of the fetched entries, as they are searched. The code examples and notes are left empty. No lemma evaluates a search over the literal entries; the search properties are proved for all entry lists.
- `Documentation.SearchEffect` treats every load as storing a new entry list, as React's identity comparison of the array does. The fetch runs once on mount, so this is the only load.
- src/App.jsx and src/pages/Index.jsx hold routing and layout only and are not part of this model.
