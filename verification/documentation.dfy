/**
 The documentation page: a list of entries loaded once, a search box, and
 the entries shown, which are those whose lower-cased title or description
 contains the lower-cased search term, in their original order.
 */
module Documentation {
  import opened Strings
  import opened Search
  import opened Sequences

  /** One documentation entry; only the title and the description are searched. */
  datatype DocEntry = DocEntry(title: string, description: string, examples: string, notes: string)

  /** The search test the page applies to one entry. The empty term matches
      every entry, and a term longer than both fields matches none. */
  predicate Matches(term: string, d: DocEntry): (r: bool)
    ensures term == "" ==> r
    ensures r ==> |term| <= |d.title| || |term| <= |d.description|
  {
    Includes(Lower(d.title), Lower(term)) || Includes(Lower(d.description), Lower(term))
  }

  /** Reference meaning of a match: the lower-cased term occurs in the
      lower-cased title or in the lower-cased description. */
  ghost predicate MatchesSpec(term: string, d: DocEntry)
  {
    IsSubstring(Lower(term), Lower(d.title)) || IsSubstring(Lower(term), Lower(d.description))
  }

  /** The page's test answers the reference question, both ways. */
  lemma MatchesMeaning(term: string, d: DocEntry)
    ensures Matches(term, d) <==> MatchesSpec(term, d)
  {
    IncludesIsSubstring(Lower(d.title), Lower(term));
    IncludesIsSubstring(Lower(d.description), Lower(term));
  }

  /** The entries the search effect shows for `term`. */
  function FilterDocs(docs: seq<DocEntry>, term: string): (r: seq<DocEntry>)
    ensures |r| <= |docs|
    ensures forall i :: 0 <= i < |r| ==> MatchesSpec(term, r[i])
  {
    var r := Filter(docs, d => Matches(term, d));
    forall i | 0 <= i < |r|
      ensures MatchesSpec(term, r[i])
    {
      MatchesMeaning(term, r[i]);
    }
    r
  }

  /** The shown entries keep the order of the loaded list. */
  lemma FilterDocsIsSubsequence(docs: seq<DocEntry>, term: string)
    ensures IsSubsequence(FilterDocs(docs, term), docs)
  {
    FilterIsSubsequence(docs, d => Matches(term, d));
  }

  /** An entry is shown, as many times as it is loaded, exactly when it
      matches; one that does not match is not shown at all. */
  lemma FilterDocsKeepsExactlyMatches(docs: seq<DocEntry>, term: string, d: DocEntry)
    ensures multiset(FilterDocs(docs, term))[d] == if MatchesSpec(term, d) then multiset(docs)[d] else 0
    ensures d in FilterDocs(docs, term) <==> d in docs && MatchesSpec(term, d)
  {
    MatchesMeaning(term, d);
    FilterCounts(docs, e => Matches(term, e), d);
    FilterMembership(docs, e => Matches(term, e), d);
  }

  /** Every entry matches the empty term. */
  lemma EmptyTermMatches(d: DocEntry)
    ensures Matches("", d)
  {
    EmptyIsSubstring(Lower(d.title));
    MatchesMeaning("", d);
  }

  /** An empty search box shows every entry. */
  lemma EmptyTermKeepsAll(docs: seq<DocEntry>)
    ensures FilterDocs(docs, "") == docs
  {
    forall i | 0 <= i < |docs|
      ensures (d => Matches("", d))(docs[i])
    {
      EmptyTermMatches(docs[i]);
    }
    FilterKeepsAll(docs, d => Matches("", d));
  }

  /** Searching the shown entries again with the same term changes nothing. */
  lemma FilterDocsIdempotent(docs: seq<DocEntry>, term: string)
    ensures FilterDocs(FilterDocs(docs, term), term) == FilterDocs(docs, term)
  {
    FilterIdempotent(docs, d => Matches(term, d));
  }

  /** Terms that lower-case alike show the same entries. */
  lemma FilterDocsCaseInsensitive(docs: seq<DocEntry>, t1: string, t2: string)
    requires Lower(t1) == Lower(t2)
    ensures FilterDocs(docs, t1) == FilterDocs(docs, t2)
  {
    FilterAgree(docs, d => Matches(t1, d), d => Matches(t2, d));
  }

  /** Typing more so that the new term contains the old one can only narrow
      the shown entries, keeping their order. */
  lemma FilterDocsNarrows(docs: seq<DocEntry>, shorter: string, longer: string)
    requires IsSubstring(shorter, longer)
    ensures IsSubsequence(FilterDocs(docs, longer), FilterDocs(docs, shorter))
  {
    LowerPreservesSubstring(shorter, longer);
    forall i | 0 <= i < |docs|
      ensures (d => Matches(longer, d))(docs[i]) ==> (d => Matches(shorter, d))(docs[i])
    {
      var d := docs[i];
      MatchesMeaning(longer, d);
      MatchesMeaning(shorter, d);
      if IsSubstring(Lower(longer), Lower(d.title)) {
        SubstringTransitive(Lower(shorter), Lower(longer), Lower(d.title));
      }
      if IsSubstring(Lower(longer), Lower(d.description)) {
        SubstringTransitive(Lower(shorter), Lower(longer), Lower(d.description));
      }
    }
    FilterMonotone(docs, d => Matches(longer, d), d => Matches(shorter, d));
  }

  // ---------------------------------------------------------------------
  // The page

  /** The page's state: the search box, the loaded entries, the shown entries. */
  datatype Page = Page(searchTerm: string, documentation: seq<DocEntry>, filteredDocs: seq<DocEntry>)

  /** What the page reacts to: the fetch resolving, and typing in the search box. */
  datatype PageEvent = Loaded(docs: seq<DocEntry>) | TypeSearch(term: string)

  /** The state at mount, after the search effect's first run over no entries. */
  function Mount(): (p: Page)
    ensures Consistent(p)
  {
    Page("", [], [])
  }

  /** The state updates of an event's handler, before any effect runs: a load
      stores the entries and shows all of them, typing stores the term only. */
  function ApplyPage(p: Page, e: PageEvent): (r: Page)
    ensures r.documentation == (if e.Loaded? then e.docs else p.documentation)
    ensures r.searchTerm == (if e.TypeSearch? then e.term else p.searchTerm)
    ensures r.filteredDocs == (if e.Loaded? then e.docs else p.filteredDocs)
  {
    match e
    case Loaded(docs) => p.(documentation := docs, filteredDocs := docs)
    case TypeSearch(term) => p.(searchTerm := term)
  }

  /** The search effect reruns when the term changed or a new entry list was
      stored (every load stores a new list), and replaces the shown entries. */
  function SearchEffect(prev: Page, e: PageEvent, next: Page): (r: Page)
    ensures r == next.(filteredDocs := r.filteredDocs)
    ensures e.Loaded? || next.searchTerm != prev.searchTerm ==> Consistent(r)
    ensures !e.Loaded? && next.searchTerm == prev.searchTerm ==> r.filteredDocs == next.filteredDocs
  {
    if e.Loaded? || next.searchTerm != prev.searchTerm then
      next.(filteredDocs := FilterDocs(next.documentation, next.searchTerm))
    else
      next
  }

  /** One page event: the handler's updates, then the search effect. A load
      always leaves the page consistent, and typing keeps a consistent page so. */
  function StepPage(p: Page, e: PageEvent): (r: Page)
    ensures r.documentation == (if e.Loaded? then e.docs else p.documentation)
    ensures r.searchTerm == (if e.TypeSearch? then e.term else p.searchTerm)
    ensures e.Loaded? || Consistent(p) ==> Consistent(r)
  {
    SearchEffect(p, e, ApplyPage(p, e))
  }

  /** The shown entries are the search result for the current term and entries. */
  predicate Consistent(p: Page)
  {
    p.filteredDocs == FilterDocs(p.documentation, p.searchTerm)
  }

  /** Every event keeps the shown entries in step with the term and the entries. */
  lemma StepPageKeepsConsistent(p: Page, e: PageEvent)
    requires Consistent(p)
    ensures Consistent(StepPage(p, e))
  {
  }

  /** After the load, the page holds the fetched entries and shows those that
      match whatever was typed meanwhile; with an empty box, all of them. */
  lemma LoadShowsFetched(p: Page, docs: seq<DocEntry>)
    ensures StepPage(p, Loaded(docs)).documentation == docs
    ensures StepPage(p, Loaded(docs)).filteredDocs == FilterDocs(docs, p.searchTerm)
    ensures p.searchTerm == "" ==> StepPage(p, Loaded(docs)).filteredDocs == docs
  {
    if p.searchTerm == "" {
      EmptyTermKeepsAll(docs);
    }
  }

  // ---------------------------------------------------------------------
  // The entries the page fetches

  /** The four fetched entries; their code examples and notes are left empty
      here because the search never reads them. */
  const Fetched: seq<DocEntry> := [
    DocEntry("App Idea Generator", "A tool to generate app ideas based on user inputs.", "", ""),
    DocEntry("Documentation", "A section to view and search through the application's documentation.", "", ""),
    DocEntry("Navigation", "Components for navigating through the application.", "", ""),
    DocEntry("Index Page", "The main entry point of the application.", "", "")
  ]

  /** With nothing typed, the page shows all four fetched entries once loaded. */
  lemma LoadFetchedShowsAll()
    ensures StepPage(Mount(), Loaded(Fetched)).documentation == Fetched
    ensures StepPage(Mount(), Loaded(Fetched)).filteredDocs == Fetched
  {
    LoadShowsFetched(Mount(), Fetched);
  }
}
