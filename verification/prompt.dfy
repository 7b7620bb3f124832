/**
 Prompt assembly (`generatePrompt`): twelve clauses appended in a fixed
 order, three of them always and the others only when their field is
 non-empty (or true), followed by one appended history entry.
 */
module PromptAssembly {
  import opened Strings
  import opened FormState

  const OpeningText := "Analyze the provided folders and files to create a functional "
  const LanguageText := "The app should be written in "
  const ComplexityText := "The app's complexity level is "
  const FunctionalitiesLead := "includes "
  const FilesLead := "Analyze the following files: "
  const FoldersLead := "Analyze the following folders: "
  const UrlsLead := "Analyze the following URLs: "
  const ListSeparator := ", "

  function OpeningClause(appType: string): string
  {
    OpeningText + appType + " that "
  }

  /** A list written as `<lead><items joined by ", ">. `, or nothing for an empty list. */
  function ListClause(lead: string, items: seq<string>): string
  {
    if |items| > 0 then lead + Join(items, ListSeparator) + ". " else ""
  }

  function LanguageClause(language: string): string
  {
    LanguageText + language + " "
  }

  function FrameworkClause(framework: string): string
  {
    if framework != "" then "using " + framework + " framework " else ""
  }

  function ArchitectureClause(architecture: string): string
  {
    if architecture != "" then "and follow " + architecture + " architecture. " else ""
  }

  function ComplexityClause(complexity: int): string
  {
    ComplexityText + IntToDecimal(complexity) + "/10. "
  }

  function AuthClause(includeAuth: bool): string
  {
    if includeAuth then "Include user authentication and authorization. " else ""
  }

  function StorageClause(dataStorage: string): string
  {
    if dataStorage != "" then "Use " + dataStorage + " for data storage. " else ""
  }

  function AudienceClause(targetAudience: string): string
  {
    if targetAudience != "" then "The target audience is " + targetAudience + ". " else ""
  }

  /** Clicking "Generate Prompt": show the prompt and append it, stamped
      with `at`, to the history; nothing else changes. */
  function Generate(s: Form, at: Instant): (r: Form)
    ensures r.generatedPrompt == AssemblePrompt(s)
    ensures |r.promptHistory| == |s.promptHistory| + 1
    ensures r.promptHistory[..|s.promptHistory|] == s.promptHistory
    ensures r.promptHistory[|s.promptHistory|] == HistoryEntry(at, r.generatedPrompt)
    ensures SameConfigFields(r, s)
    ensures r.selectedFiles == s.selectedFiles && r.selectedFolders == s.selectedFolders
    ensures r.inputURLs == s.inputURLs && r.urlInput == s.urlInput
  {
    var prompt := AssemblePrompt(s);
    s.(generatedPrompt := prompt, promptHistory := s.promptHistory + [HistoryEntry(at, prompt)])
  }

  // ---------------------------------------------------------------------
  // The prompt read as a sequence of clauses

  datatype Clause =
    | Opening | Functionalities | Language | Framework | Architecture | Complexity
    | Auth | Storage | Audience | Files | Folders | Urls

  /** Number of clauses `generatePrompt` considers. */
  const ClauseCount := 12

  /** The `i`-th clause in writing order. */
  function ClauseAt(i: nat): Clause
    requires i < ClauseCount
  {
    [Opening, Functionalities, Language, Framework, Architecture, Complexity,
     Auth, Storage, Audience, Files, Folders, Urls][i]
  }

  /** Position of a clause in writing order. */
  function Rank(c: Clause): (i: nat)
    ensures i < ClauseCount && ClauseAt(i) == c
  {
    match c
    case Opening => 0
    case Functionalities => 1
    case Language => 2
    case Framework => 3
    case Architecture => 4
    case Complexity => 5
    case Auth => 6
    case Storage => 7
    case Audience => 8
    case Files => 9
    case Folders => 10
    case Urls => 11
  }

  /** Clauses written whatever the state. */
  predicate Mandatory(c: Clause)
  {
    c == Opening || c == Language || c == Complexity
  }

  /** The field condition under which clause `c` is meant to be written. */
  predicate Present(s: Form, c: Clause)
  {
    match c
    case Opening => true
    case Functionalities => |s.mainFunctionalities| > 0
    case Language => true
    case Framework => s.framework != ""
    case Architecture => s.architecture != ""
    case Complexity => true
    case Auth => s.includeAuth
    case Storage => s.dataStorage != ""
    case Audience => s.targetAudience != ""
    case Files => |s.selectedFiles| > 0
    case Folders => |s.selectedFolders| > 0
    case Urls => |s.inputURLs| > 0
  }

  /** What clause `c` contributes to the prompt of `s`. */
  function Piece(s: Form, c: Clause): string
  {
    match c
    case Opening => OpeningClause(s.appType)
    case Functionalities => ListClause(FunctionalitiesLead, s.mainFunctionalities)
    case Language => LanguageClause(s.programmingLanguage)
    case Framework => FrameworkClause(s.framework)
    case Architecture => ArchitectureClause(s.architecture)
    case Complexity => ComplexityClause(s.complexity)
    case Auth => AuthClause(s.includeAuth)
    case Storage => StorageClause(s.dataStorage)
    case Audience => AudienceClause(s.targetAudience)
    case Files => ListClause(FilesLead, s.selectedFiles)
    case Folders => ListClause(FoldersLead, s.selectedFolders)
    case Urls => ListClause(UrlsLead, s.inputURLs)
  }

  /** The contributions of all clauses, in writing order. */
  function Pieces(s: Form): (ps: seq<string>)
    ensures |ps| == ClauseCount
  {
    seq(ClauseCount, i requires 0 <= i < ClauseCount => Piece(s, ClauseAt(i)))
  }

  /** The text `generatePrompt` builds from the state of the render it runs in:
      every clause's contribution, in writing order. */
  function AssemblePrompt(s: Form): (r: string)
    ensures OpeningClause(s.appType) <= r
    ensures |ListClause(UrlsLead, s.inputURLs)| <= |r|
    ensures r[|r| - |ListClause(UrlsLead, s.inputURLs)|..] == ListClause(UrlsLead, s.inputURLs)
  {
    var ps := Pieces(s);
    assert ps[0] == OpeningClause(s.appType) by { assert ClauseAt(0) == Opening; }
    assert ps[11] == ListClause(UrlsLead, s.inputURLs) by { assert ClauseAt(11) == Urls; }
    assert ps == ps[..1] + ps[1..];
    ConcatAppend(ps[..1], ps[1..]);
    assert ps[..1][..0] == [];
    Concat(ps)
  }

  /** A clause contributes text exactly when its field condition holds, and
      the mandatory clauses always do. */
  lemma ClauseWrittenIffPresent(s: Form, c: Clause)
    ensures Piece(s, c) != "" <==> Present(s, c)
    ensures Mandatory(c) ==> Present(s, c)
  {
  }

  lemma ConcatTwelve(p0: string, p1: string, p2: string, p3: string, p4: string, p5: string,
                     p6: string, p7: string, p8: string, p9: string, p10: string, p11: string)
    ensures Concat([p0, p1, p2, p3, p4, p5, p6, p7, p8, p9, p10, p11])
         == p0 + p1 + p2 + p3 + p4 + p5 + p6 + p7 + p8 + p9 + p10 + p11
  {
    var ps: seq<string> := [];
    ConcatSnoc(ps, p0);
    ps := ps + [p0];
    ConcatSnoc(ps, p1);
    ps := ps + [p1];
    ConcatSnoc(ps, p2);
    ps := ps + [p2];
    ConcatSnoc(ps, p3);
    ps := ps + [p3];
    ConcatSnoc(ps, p4);
    ps := ps + [p4];
    ConcatSnoc(ps, p5);
    ps := ps + [p5];
    ConcatSnoc(ps, p6);
    ps := ps + [p6];
    ConcatSnoc(ps, p7);
    ps := ps + [p7];
    ConcatSnoc(ps, p8);
    ps := ps + [p8];
    ConcatSnoc(ps, p9);
    ps := ps + [p9];
    ConcatSnoc(ps, p10);
    ps := ps + [p10];
    ConcatSnoc(ps, p11);
    ps := ps + [p11];
    assert ps == [p0, p1, p2, p3, p4, p5, p6, p7, p8, p9, p10, p11];
  }

  lemma ConcatTwelveIndexed(ps: seq<string>)
    requires |ps| == 12
    ensures Concat(ps) == ps[0] + ps[1] + ps[2] + ps[3] + ps[4] + ps[5] + ps[6] + ps[7] + ps[8] + ps[9] + ps[10] + ps[11]
  {
    assert ps == [ps[0], ps[1], ps[2], ps[3], ps[4], ps[5], ps[6], ps[7], ps[8], ps[9], ps[10], ps[11]];
    ConcatTwelve(ps[0], ps[1], ps[2], ps[3], ps[4], ps[5], ps[6], ps[7], ps[8], ps[9], ps[10], ps[11]);
  }

  lemma ConcatOfPieces(s: Form)
    ensures Concat(Pieces(s)) == Piece(s, Opening) + Piece(s, Functionalities) + Piece(s, Language) + Piece(s, Framework) + Piece(s, Architecture) + Piece(s, Complexity) + Piece(s, Auth) + Piece(s, Storage) + Piece(s, Audience) + Piece(s, Files) + Piece(s, Folders) + Piece(s, Urls)
  {
    var ps := Pieces(s);
    ConcatTwelveIndexed(ps);
    assert ps[0] == Piece(s, Opening);
    assert ps[1] == Piece(s, Functionalities);
    assert ps[2] == Piece(s, Language);
    assert ps[3] == Piece(s, Framework);
    assert ps[4] == Piece(s, Architecture);
    assert ps[5] == Piece(s, Complexity);
    assert ps[6] == Piece(s, Auth);
    assert ps[7] == Piece(s, Storage);
    assert ps[8] == Piece(s, Audience);
    assert ps[9] == Piece(s, Files);
    assert ps[10] == Piece(s, Folders);
    assert ps[11] == Piece(s, Urls);
  }

  /** The prompt spelled out: the twelve clauses appended in the order the
      template writes them. */
  lemma PromptSpelledOut(s: Form)
    ensures AssemblePrompt(s)
         == OpeningClause(s.appType)
          + ListClause(FunctionalitiesLead, s.mainFunctionalities)
          + LanguageClause(s.programmingLanguage)
          + FrameworkClause(s.framework)
          + ArchitectureClause(s.architecture)
          + ComplexityClause(s.complexity)
          + AuthClause(s.includeAuth)
          + StorageClause(s.dataStorage)
          + AudienceClause(s.targetAudience)
          + ListClause(FilesLead, s.selectedFiles)
          + ListClause(FoldersLead, s.selectedFolders)
          + ListClause(UrlsLead, s.inputURLs)
  {
    ConcatOfPieces(s);
    PiecesSpelledOut(s);
  }

  lemma PiecesSpelledOut(s: Form)
    ensures Piece(s, Opening) + Piece(s, Functionalities) + Piece(s, Language) + Piece(s, Framework) + Piece(s, Architecture) + Piece(s, Complexity) + Piece(s, Auth) + Piece(s, Storage) + Piece(s, Audience) + Piece(s, Files) + Piece(s, Folders) + Piece(s, Urls)
         == OpeningClause(s.appType)
          + ListClause(FunctionalitiesLead, s.mainFunctionalities)
          + LanguageClause(s.programmingLanguage)
          + FrameworkClause(s.framework)
          + ArchitectureClause(s.architecture)
          + ComplexityClause(s.complexity)
          + AuthClause(s.includeAuth)
          + StorageClause(s.dataStorage)
          + AudienceClause(s.targetAudience)
          + ListClause(FilesLead, s.selectedFiles)
          + ListClause(FoldersLead, s.selectedFolders)
          + ListClause(UrlsLead, s.inputURLs)
  {
  }

  /** Each clause's contribution sits at its rank. */
  lemma PieceAtRank(s: Form, c: Clause)
    ensures Pieces(s)[Rank(c)] == Piece(s, c)
  {
  }

  /** Where clause `c` would start in the prompt of `s`. */
  function ClauseStart(s: Form, c: Clause): nat
  {
    |Concat(Pieces(s)[..Rank(c)])|
  }

  /** Every clause's contribution occurs, verbatim, at its start. */
  lemma PieceOccursAtStart(s: Form, c: Clause)
    ensures OccursAt(AssemblePrompt(s), Piece(s, c), ClauseStart(s, c))
  {
    var ps := Pieces(s);
    var k := Rank(c);
    PieceAtRank(s, c);
    ConcatAround(ps, k);
    var before := Concat(ps[..k]);
    assert AssemblePrompt(s) == before + ps[k] + Concat(ps[k + 1..]);
    assert (before + ps[k] + Concat(ps[k + 1..]))[|before|..|before| + |ps[k]|] == ps[k];
  }

  /** Clauses that are written appear in writing order and do not overlap:
      the earlier one ends before the later one begins. */
  lemma ClausesInWritingOrder(s: Form, c: Clause, d: Clause)
    requires Rank(c) < Rank(d)
    ensures OccursAt(AssemblePrompt(s), Piece(s, c), ClauseStart(s, c))
    ensures OccursAt(AssemblePrompt(s), Piece(s, d), ClauseStart(s, d))
    ensures ClauseStart(s, c) + |Piece(s, c)| <= ClauseStart(s, d)
  {
    PieceOccursAtStart(s, c);
    PieceOccursAtStart(s, d);
    PieceAtRank(s, c);
    ConcatPrefixGrows(Pieces(s), Rank(c), Rank(d));
  }

  /** The prompt opens with the opening clause, whatever the app type (even empty). */
  lemma PromptBeginsWithOpening(s: Form)
    ensures |OpeningClause(s.appType)| <= |AssemblePrompt(s)|
    ensures AssemblePrompt(s)[..|OpeningClause(s.appType)|] == OpeningText + s.appType + " that "
  {
    PieceOccursAtStart(s, Opening);
    assert Pieces(s)[..0] == [];
  }

  /** The prompt contains the app type verbatim, right after the opening text. */
  lemma PromptMentionsAppType(s: Form)
    ensures OccursAt(AssemblePrompt(s), s.appType, |OpeningText|)
    ensures IsSubstring(s.appType, AssemblePrompt(s))
  {
    PieceOccursAtStart(s, Opening);
    assert Pieces(s)[..0] == [];
    var t := OpeningClause(s.appType);
    assert t[|OpeningText|..|OpeningText| + |s.appType|] == s.appType;
    OccursWithin(AssemblePrompt(s), t, 0, s.appType, |OpeningText|);
  }

  /** The prompt contains the language verbatim, inside the language clause. */
  lemma PromptMentionsLanguage(s: Form)
    ensures OccursAt(AssemblePrompt(s), s.programmingLanguage, ClauseStart(s, Language) + |LanguageText|)
    ensures IsSubstring(s.programmingLanguage, AssemblePrompt(s))
  {
    PieceOccursAtStart(s, Language);
    var t := LanguageClause(s.programmingLanguage);
    assert t[|LanguageText|..|LanguageText| + |s.programmingLanguage|] == s.programmingLanguage;
    OccursWithin(AssemblePrompt(s), t, ClauseStart(s, Language), s.programmingLanguage, |LanguageText|);
  }

  /** The prompt states the complexity in decimal, out of 10, inside the
      complexity clause, whatever the other fields hold. */
  lemma PromptMentionsComplexity(s: Form)
    ensures OccursAt(AssemblePrompt(s), IntToDecimal(s.complexity) + "/10. ",
                     ClauseStart(s, Complexity) + |ComplexityText|)
  {
    PieceOccursAtStart(s, Complexity);
    var t := ComplexityClause(s.complexity);
    var n := IntToDecimal(s.complexity) + "/10. ";
    assert t[|ComplexityText|..|ComplexityText| + |n|] == n;
    OccursWithin(AssemblePrompt(s), t, ClauseStart(s, Complexity), n, |ComplexityText|);
  }

  /** Where the opening clause ends and the functionalities clause (if any) begins. */
  lemma FunctionalitiesStart(s: Form)
    ensures ClauseStart(s, Functionalities) == |OpeningClause(s.appType)|
    ensures ClauseStart(s, Language) == |OpeningClause(s.appType)| + |Piece(s, Functionalities)|
  {
    var ps := Pieces(s);
    ConcatPrefixStep(ps, 0);
    ConcatPrefixStep(ps, 1);
    assert ps[..0] == [];
    PieceAtRank(s, Opening);
    PieceAtRank(s, Functionalities);
  }

  /** Right after the opening clause the prompt reads "includes " exactly
      when at least one functionality is selected. */
  lemma FunctionalitiesClauseIff(s: Form)
    ensures var b := |OpeningClause(s.appType)|;
      var p := AssemblePrompt(s);
      |s.mainFunctionalities| > 0 <==>
        (b + |FunctionalitiesLead| <= |p| && p[b..b + |FunctionalitiesLead|] == FunctionalitiesLead)
  {
    var b := |OpeningClause(s.appType)|;
    var p := AssemblePrompt(s);
    FunctionalitiesStart(s);
    if |s.mainFunctionalities| > 0 {
      PieceOccursAtStart(s, Functionalities);
      ListClauseLayout(FunctionalitiesLead, s.mainFunctionalities);
      OccursWithin(p, Piece(s, Functionalities), b, FunctionalitiesLead, 0);
    } else {
      PieceOccursAtStart(s, Language);
      var t := Piece(s, Language);
      assert p[b] == t[0] == 'T';
      assert FunctionalitiesLead[0] == 'i';
    }
  }

  /** Where the `i`-th selected functionality starts in the prompt. */
  function FunctionalityStart(s: Form, i: nat): nat
    requires i < |s.mainFunctionalities|
  {
    |OpeningClause(s.appType)| + |FunctionalitiesLead| + ItemOffset(s.mainFunctionalities, ListSeparator, i)
  }

  /** A non-empty list clause starts with its lead and then holds the joined items. */
  lemma ListClauseLayout(lead: string, items: seq<string>)
    requires |items| > 0
    ensures OccursAt(ListClause(lead, items), lead, 0)
    ensures OccursAt(ListClause(lead, items), Join(items, ListSeparator), |lead|)
  {
    var j := Join(items, ListSeparator);
    var t := ListClause(lead, items);
    assert t == lead + j + ". ";
    assert t[..|lead|] == lead;
    assert t[|lead|..|lead| + |j|] == j;
  }

  /** The joined functionalities follow the opening clause and the lead. */
  lemma FunctionalitiesJoinOccurs(s: Form)
    requires |s.mainFunctionalities| > 0
    ensures OccursAt(AssemblePrompt(s), Join(s.mainFunctionalities, ListSeparator),
                     |OpeningClause(s.appType)| + |FunctionalitiesLead|)
  {
    FunctionalitiesStart(s);
    PieceOccursAtStart(s, Functionalities);
    ListClauseLayout(FunctionalitiesLead, s.mainFunctionalities);
    OccursWithin(AssemblePrompt(s), Piece(s, Functionalities), |OpeningClause(s.appType)|,
                 Join(s.mainFunctionalities, ListSeparator), |FunctionalitiesLead|);
  }

  /** Every selected functionality is written verbatim, in selection order,
      each one ending before the next begins. */
  lemma FunctionalitiesListedInOrder(s: Form, i: nat)
    requires i < |s.mainFunctionalities|
    ensures OccursAt(AssemblePrompt(s), s.mainFunctionalities[i], FunctionalityStart(s, i))
    ensures i + 1 < |s.mainFunctionalities| ==>
      FunctionalityStart(s, i) + |s.mainFunctionalities[i]| < FunctionalityStart(s, i + 1)
  {
    var fs := s.mainFunctionalities;
    FunctionalitiesJoinOccurs(s);
    JoinItemOccurs(AssemblePrompt(s), fs, ListSeparator, |OpeningClause(s.appType)| + |FunctionalitiesLead|, i);
    if i + 1 < |fs| {
      ItemOffsetStep(fs, ListSeparator, i);
    }
  }

  /** The state with the field behind clause `c` emptied (or switched off). */
  function Omit(s: Form, c: Clause): Form
  {
    match c
    case Functionalities => s.(mainFunctionalities := [])
    case Framework => s.(framework := "")
    case Architecture => s.(architecture := "")
    case Auth => s.(includeAuth := false)
    case Storage => s.(dataStorage := "")
    case Audience => s.(targetAudience := "")
    case Files => s.(selectedFiles := [])
    case Folders => s.(selectedFolders := [])
    case Urls => s.(inputURLs := [])
    case _ => s
  }

  /** Emptying one optional field silences its clause and no other. */
  lemma OmitPiece(s: Form, c: Clause, d: Clause)
    requires !Mandatory(c)
    ensures Piece(Omit(s, c), d) == if d == c then "" else Piece(s, d)
  {
  }

  /** The clause contributions after emptying the field of `c`. */
  lemma PiecesOfOmit(s: Form, c: Clause)
    requires !Mandatory(c)
    ensures Pieces(Omit(s, c)) == Pieces(s)[Rank(c) := ""]
  {
    var ps := Pieces(s);
    var qs := Pieces(Omit(s, c));
    forall d: Clause
      ensures qs[Rank(d)] == if d == c then "" else ps[Rank(d)]
    {
      OmitPiece(s, c, d);
    }
    forall i | 0 <= i < ClauseCount
      ensures qs[i] == ps[Rank(c) := ""][i]
    {
      assert Rank(ClauseAt(i)) == i;
    }
  }

  /** Emptying the field of an optional clause removes exactly that clause
      from the prompt: the text before it and the text after it are kept. */
  lemma OmittingFieldDropsOnlyItsClause(s: Form, c: Clause)
    requires !Mandatory(c)
    ensures !Present(Omit(s, c), c)
    ensures var ps := Pieces(s);
      && AssemblePrompt(s) == Concat(ps[..Rank(c)]) + Piece(s, c) + Concat(ps[Rank(c) + 1..])
      && AssemblePrompt(Omit(s, c)) == Concat(ps[..Rank(c)]) + Concat(ps[Rank(c) + 1..])
  {
    var ps := Pieces(s);
    PiecesOfOmit(s, c);
    PieceAtRank(s, c);
    ConcatAround(ps, Rank(c));
    ConcatBlankPart(ps, Rank(c));
  }
}
