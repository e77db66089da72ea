/**
 The search tab: a list of results narrowed first by the selected category
 pill and then by the search text, matched case-insensitively against each
 result's title or subtitle.
 */
module Search {
  import opened Seqs
  import opened Text
  import opened TaskModel

  datatype SearchResult = SearchResult(
    title: string,
    subtitle: string,
    icon: string,
    color: Color,
    category: string)

  /** The pill that disables the category test. */
  const AllCategory: string := "All"

  /** The category pills, in display order. */
  const Categories: seq<string> := ["All", "Tasks", "Projects", "Notes", "People"]

  /** `localizedCaseInsensitiveContains`, with ASCII case folding. An empty
      needle is found nowhere. */
  function ContainsIgnoringCase(hay: string, needle: string): (b: bool)
    ensures b <==> needle != [] && exists i :: OccursAt(FoldAll(hay), FoldAll(needle), i)
  {
    needle != [] && Contains(FoldAll(hay), FoldAll(needle))
  }

  /** Only the case of ASCII letters in the needle is ignored. */
  lemma ContainsIgnoresNeedleCase(hay: string, needle: string)
    ensures ContainsIgnoringCase(hay, FoldAll(needle)) == ContainsIgnoringCase(hay, needle)
  {
    FoldAllIdempotent(needle);
  }

  predicate InCategory(r: SearchResult, category: string) {
    category == AllCategory || r.category == category
  }

  predicate MatchesText(r: SearchResult, text: string) {
    text == [] || ContainsIgnoringCase(r.title, text) || ContainsIgnoringCase(r.subtitle, text)
  }

  /** The closure handed to the category stage's `filter`. */
  function CategoryTest(category: string): SearchResult -> bool {
    (x: SearchResult) => x.category == category
  }

  /** The closure handed to the text stage's `filter`. */
  function TextTest(text: string): SearchResult -> bool {
    (x: SearchResult) => ContainsIgnoringCase(x.title, text) || ContainsIgnoringCase(x.subtitle, text)
  }

  /** The first stage: every result under "All", otherwise those of exactly that category. */
  function ByCategory(all: seq<SearchResult>, category: string): (r: seq<SearchResult>)
    ensures IsSubsequence(r, all)
    ensures forall i :: 0 <= i < |r| ==> InCategory(r[i], category)
    ensures forall x :: x in all && InCategory(x, category) ==> x in r
  {
    if category == AllCategory then
      SubsequenceReflexive(all);
      all
    else
      FilterSpec(all, CategoryTest(category));
      var r := Filter(all, CategoryTest(category));
      assert forall x :: x in all && InCategory(x, category) ==> multiset(r)[x] == multiset(all)[x];
      r
  }

  /** The second stage: the results whose title or subtitle contains the text. */
  function ByText(rs: seq<SearchResult>, text: string): (r: seq<SearchResult>)
    requires text != []
    ensures IsSubsequence(r, rs)
    ensures forall i :: 0 <= i < |r| ==> MatchesText(r[i], text)
    ensures forall x :: x in rs && MatchesText(x, text) ==> x in r
  {
    FilterSpec(rs, TextTest(text));
    var r := Filter(rs, TextTest(text));
    assert forall x :: x in rs && MatchesText(x, text) ==> multiset(r)[x] == multiset(rs)[x];
    r
  }

  /** `filteredResults`: the category filter, then the text filter unless the text is empty. */
  function FilteredResults(all: seq<SearchResult>, category: string, text: string): (r: seq<SearchResult>)
    ensures IsSubsequence(r, all)
    ensures forall i :: 0 <= i < |r| ==> InCategory(r[i], category) && MatchesText(r[i], text)
    ensures forall x :: x in all && InCategory(x, category) && MatchesText(x, text) ==> x in r
  {
    var byCategory := ByCategory(all, category);
    if text == [] then
      byCategory
    else
      var byText := ByText(byCategory, text);
      SubsequenceTransitive(byText, byCategory, all);
      assert forall x :: x in byText ==> x in byCategory by {
        forall x | x in byText
          ensures x in byCategory
        {
          SubsequenceMembers(byText, byCategory, x);
        }
      }
      byText
  }

  /** The one-pass definition: keep exactly the results that pass both tests. */
  predicate Selected(r: SearchResult, category: string, text: string) {
    InCategory(r, category) && MatchesText(r, text)
  }

  /** The two-stage filter equals a single filter by both tests together. */
  lemma FilteredResultsIsOnePass(all: seq<SearchResult>, category: string, text: string)
    ensures FilteredResults(all, category, text)
      == Filter(all, (x: SearchResult) => Selected(x, category, text))
  {
    var sel := (x: SearchResult) => Selected(x, category, text);
    var cat, txt := CategoryTest(category), TextTest(text);
    if category == AllCategory {
      if text == [] {
        FilterKeepsAll(all, sel);
      } else {
        assert forall x :: sel(x) == txt(x);
        FilterFilter(all, (x: SearchResult) => true, txt, sel);
        FilterKeepsAll(all, (x: SearchResult) => true);
      }
    } else {
      if text == [] {
        FilterFilter(all, cat, (x: SearchResult) => true, sel);
        FilterKeepsAll(Filter(all, cat), (x: SearchResult) => true);
      } else {
        FilterFilter(all, cat, txt, sel);
      }
    }
  }

  /** With the "All" pill and no text the full list comes back unchanged. */
  lemma AllAndEmptyTextIsIdentity(all: seq<SearchResult>)
    ensures FilteredResults(all, AllCategory, "") == all
  {
  }

  /** A category that no result carries yields nothing. */
  lemma UnusedCategoryIsEmpty(all: seq<SearchResult>, category: string, text: string)
    requires category != AllCategory
    requires forall i :: 0 <= i < |all| ==> all[i].category != category
    ensures FilteredResults(all, category, text) == []
  {
    var r := FilteredResults(all, category, text);
    if r != [] {
      SubsequenceMembers(r, all, r[0]);
    }
  }

  /** The results the search tab shows. */
  const AllResults: seq<SearchResult> := [
    SearchResult("Complete project proposal", "Task • Due Dec 25", "checkmark.circle.fill", MyGreen, "Tasks"),
    SearchResult("Redesign landing page", "Project • In Progress", "folder.fill", MyPurple, "Projects"),
    SearchResult("Team standup meeting", "Task • Due Today", "checkmark.circle.fill", MyGreen, "Tasks"),
    SearchResult("Meeting notes - Q4 Planning", "Note • Updated 2 days ago", "note.text", SoftSalmon, "Notes"),
    SearchResult("Review design mockups", "Task • Due Tomorrow", "checkmark.circle.fill", MyGreen, "Tasks"),
    SearchResult("Sarah Johnson", "Team Member • Product Manager", "person.circle.fill", MyPurple, "People"),
    SearchResult("API Documentation Project", "Project • Planning", "folder.fill", MyPurple, "Projects"),
    SearchResult("Weekly sprint notes", "Note • Updated yesterday", "note.text", SoftSalmon, "Notes")
  ]

  /** On the tab's own results, the "Notes" pill with no text shows the two notes, in order. */
  lemma NotesPillExample()
    ensures FilteredResults(AllResults, "Notes", "") == [AllResults[3], AllResults[7]]
  {
  }

  /** Over the shown results, a category that has no pill gives an empty list. */
  lemma UnknownCategoryIsEmpty(category: string, text: string)
    requires category !in Categories
    ensures FilteredResults(AllResults, category, text) == []
  {
    UnusedCategoryIsEmpty(AllResults, category, text);
  }
}
