/**
 * The dashboard's list logic (app/dashboard/page.tsx): the mock workflow
 * data, the case-insensitive search filter over name and id, pagination with
 * eight rows per page, and the single expanded row.
 */
module Dashboard {
  import opened Wrappers
  import opened Seqs
  import opened Text

  // ---------------------------------------------------------------- data

  datatype Status = Passed | Failed

  datatype Execution = Execution(date: string, status: Status)

  datatype Workflow = Workflow(
    id: string,
    name: string,
    lastEdited: string,
    description: string,
    status: Status,
    executions: seq<Execution>)

  const MockCount: nat := 15
  /** The number in the id of the first mock workflow. */
  const FirstMockNumber: nat := 494
  const MockDate := "28/05 - 22:43 IST"

  /** The mock workflow at position `index` of the generated list. */
  function MockWorkflow(index: nat): Workflow {
    var even := if index % 2 == 0 then Passed else Failed;
    Workflow(
      "#" + DecimalString(FirstMockNumber + index),
      "Workflow Name here...",
      "Zubin Khanna | 22:43 IST - 28/05",
      "Some Description Here Regarding The Flow..",
      if index % 3 == 0 then Passed else Failed,
      [Execution(MockDate, even), Execution(MockDate, Failed), Execution(MockDate, even)])
  }

  /** `Array(15).fill(null).map(...)`: the list the dashboard starts with. */
  function MockWorkflows(): seq<Workflow> {
    seq(MockCount, i requires 0 <= i => MockWorkflow(i))
  }

  /** Shape of the mock data: ids count up from #494, a third of them passed, three executions each. */
  lemma MockWorkflowsShape()
    ensures |MockWorkflows()| == 15
    ensures forall i :: 0 <= i < 15 ==> MockWorkflows()[i].id == "#" + DecimalString(494 + i)
    ensures forall i :: 0 <= i < 15 ==> (MockWorkflows()[i].status == Passed <==> i % 3 == 0)
    ensures forall i :: 0 <= i < 15 ==> |MockWorkflows()[i].executions| == 3
    ensures forall i :: 0 <= i < 15 ==> MockWorkflows()[i].executions[1].status == Failed
  {
  }

  /** The ids run from "#494" to "#508". */
  lemma MockIdsFirstAndLast()
    ensures MockWorkflows()[0].id == "#494"
    ensures MockWorkflows()[14].id == "#508"
  {
    assert DecimalString(49) == "49" by {
      assert DecimalString(4) == "4";
      assert DecimalString(49) == DecimalString(4) + [DigitChar(9)];
    }
    assert DecimalString(494) == "494";
    assert DecimalString(50) == "50" by {
      assert DecimalString(5) == "5";
      assert DecimalString(50) == DecimalString(5) + [DigitChar(0)];
    }
    assert DecimalString(508) == "508";
  }

  /** No two mock workflows share an id, so an id names one row. */
  lemma MockIdsDistinct()
    ensures forall i, j :: 0 <= i < j < |MockWorkflows()| ==> MockWorkflows()[i].id != MockWorkflows()[j].id
  {
    var ws := MockWorkflows();
    forall i, j | 0 <= i < j < |ws|
      ensures ws[i].id != ws[j].id
    {
      var a, b := DecimalString(494 + i), DecimalString(494 + j);
      if ws[i].id == ws[j].id {
        assert a == ws[i].id[1..] == ws[j].id[1..] == b;
        DecimalStringInjective(494 + i, 494 + j);
      }
    }
  }

  // -------------------------------------------------------------- search

  /** The search predicate: the lower-cased term occurs in the lower-cased name or id. */
  predicate Matches(w: Workflow, term: string) {
    Includes(Lower(w.name), Lower(term)) || Includes(Lower(w.id), Lower(term))
  }

  /** `workflows.filter(...)`: keeps the matching workflows, in order. */
  function Filter(ws: seq<Workflow>, term: string): (r: seq<Workflow>)
    ensures |r| <= |ws|
  {
    if ws == [] then []
    else (if Matches(ws[0], term) then [ws[0]] else []) + Filter(ws[1..], term)
  }

  /** A workflow is kept exactly when it is in the list and matches the term. */
  lemma {:induction false} FilterMembership(ws: seq<Workflow>, term: string, w: Workflow)
    ensures w in Filter(ws, term) <==> w in ws && Matches(w, term)
  {
    if ws != [] {
      FilterMembership(ws[1..], term, w);
      assert w in ws <==> w == ws[0] || w in ws[1..];
    }
  }

  /** Every copy of a matching workflow is kept and every copy of a non-matching one dropped. */
  lemma {:induction false} FilterCount(ws: seq<Workflow>, term: string, w: Workflow)
    ensures multiset(Filter(ws, term))[w] == if Matches(w, term) then multiset(ws)[w] else 0
  {
    if ws != [] {
      FilterCount(ws[1..], term, w);
      assert ws == [ws[0]] + ws[1..];
    }
  }

  /** A workflow matches exactly when the lower-cased term is a substring of its lower-cased name or id. */
  lemma MatchesIffSubstring(w: Workflow, term: string)
    ensures Matches(w, term) <==>
      IsSubstring(Lower(term), Lower(w.name)) || IsSubstring(Lower(term), Lower(w.id))
  {
    IncludesIffSubstring(Lower(w.name), Lower(term));
    IncludesIffSubstring(Lower(w.id), Lower(term));
  }

  /** The filtered list is the input with some elements deleted and the order of the rest kept. */
  lemma {:induction false} FilterIsSubsequence(ws: seq<Workflow>, term: string)
    ensures IsSubsequence(Filter(ws, term), ws)
  {
    if ws != [] {
      FilterIsSubsequence(ws[1..], term);
      var r, rest := Filter(ws, term), Filter(ws[1..], term);
      if Matches(ws[0], term) {
        assert r == [ws[0]] + rest && r[1..] == rest;
      } else {
        assert r == rest;
      }
    }
  }

  /** The filter keeps the whole list exactly when every workflow matches. */
  lemma {:induction false} FilterKeepsAllIff(ws: seq<Workflow>, term: string)
    ensures Filter(ws, term) == ws <==> forall i :: 0 <= i < |ws| ==> Matches(ws[i], term)
  {
    if forall i :: 0 <= i < |ws| ==> Matches(ws[i], term) {
      if ws != [] {
        assert forall i :: 0 <= i < |ws[1..]| ==> Matches(ws[1..][i], term) by {
          forall i | 0 <= i < |ws[1..]| ensures Matches(ws[1..][i], term) {
            assert ws[1..][i] == ws[i + 1];
          }
        }
        FilterKeepsAllIff(ws[1..], term);
      }
    } else {
      var i :| 0 <= i < |ws| && !Matches(ws[i], term);
      FilterMembership(ws, term, ws[i]);
    }
  }

  /** An empty search term keeps every workflow. */
  lemma FilterEmptyTerm(ws: seq<Workflow>)
    ensures Filter(ws, "") == ws
  {
    forall i | 0 <= i < |ws|
      ensures Matches(ws[i], "")
    {
      IncludesEmpty(Lower(ws[i].name));
    }
    FilterKeepsAllIff(ws, "");
  }

  /** Filtering an already filtered list changes nothing. */
  lemma FilterIdempotent(ws: seq<Workflow>, term: string)
    ensures Filter(Filter(ws, term), term) == Filter(ws, term)
  {
    var r := Filter(ws, term);
    forall i | 0 <= i < |r|
      ensures Matches(r[i], term)
    {
      FilterMembership(ws, term, r[i]);
    }
    FilterKeepsAllIff(r, term);
  }

  // ---------------------------------------------------------- pagination

  const ItemsPerPage: nat := 8

  /** `Math.ceil(n / itemsPerPage)`: the fewest pages of eight that hold `n` rows. */
  function TotalPages(n: nat): (r: nat)
    ensures r * ItemsPerPage >= n
    ensures r > 0 ==> (r - 1) * ItemsPerPage < n
  {
    (n + ItemsPerPage - 1) / ItemsPerPage
  }

  /** `s.slice(start, end)` for non-negative arguments: both ends are clamped to the length. */
  function Slice<T>(s: seq<T>, start: nat, end: nat): (r: seq<T>)
    ensures |r| == if start < |s| && start < end then Min(end, |s|) - start else 0
    ensures forall k :: 0 <= k < |r| ==> r[k] == s[start + k]
  {
    var a := Min(start, |s|);
    s[a..Max(a, Min(end, |s|))]
  }

  /** The rows shown on page `page` (numbered from 1). */
  function PageItems<T>(s: seq<T>, page: nat): (r: seq<T>)
    requires page >= 1
    ensures |r| <= ItemsPerPage
    ensures forall k :: 0 <= k < |r| ==> (page - 1) * ItemsPerPage + k < |s| && r[k] == s[(page - 1) * ItemsPerPage + k]
    ensures page <= TotalPages(|s|) <==> r != []
  {
    var startIndex := (page - 1) * ItemsPerPage;
    Slice(s, startIndex, startIndex + ItemsPerPage)
  }

  /** A page in range holds exactly the rows from `(page-1)*8` up to `page*8` or the end. */
  lemma PageItemsInRange<T>(s: seq<T>, page: nat)
    requires 1 <= page <= TotalPages(|s|)
    ensures PageItems(s, page) == s[(page - 1) * ItemsPerPage..Min(page * ItemsPerPage, |s|)]
  {
  }

  /** Pages 1 to `k`, in order. */
  function PagesUpTo<T>(s: seq<T>, k: nat): (r: seq<seq<T>>)
    ensures |r| == k
    ensures forall i :: 0 <= i < k ==> r[i] == PageItems(s, i + 1)
  {
    if k == 0 then [] else PagesUpTo(s, k - 1) + [PageItems(s, k)]
  }

  /** The pages offered by the pagination bar: 1 to `totalPages`. */
  function AllPages<T>(s: seq<T>): seq<seq<T>> {
    PagesUpTo(s, TotalPages(|s|))
  }

  /** The first `k` pages, concatenated, are the first `min(8k, n)` rows. */
  lemma {:induction false} PagesUpToFlatten<T>(s: seq<T>, k: nat)
    requires k <= TotalPages(|s|)
    ensures Flatten(PagesUpTo(s, k)) == s[..Min(k * ItemsPerPage, |s|)]
  {
    if k > 0 {
      var ps := PagesUpTo(s, k);
      assert ps[..|ps| - 1] == PagesUpTo(s, k - 1);
      PagesUpToFlatten(s, k - 1);
      PageItemsInRange(s, k);
      assert (k - 1) * ItemsPerPage < |s|;
    }
  }

  /** The pages partition the list: each holds one to eight rows, and together they give it back exactly. */
  lemma PagesPartition<T>(s: seq<T>)
    ensures Flatten(AllPages(s)) == s
    ensures forall i :: 0 <= i < |AllPages(s)| ==> 0 < |AllPages(s)[i]| <= ItemsPerPage
  {
    PagesUpToFlatten(s, TotalPages(|s|));
  }

  // ------------------------------------------------------------ expansion

  /** `toggleExpand`: collapse the row if it is the expanded one, otherwise expand it instead. */
  function Toggled(expanded: Option<string>, id: string): (r: Option<string>)
    ensures r == None <==> expanded == Some(id)
    ensures r == None || r == Some(id)
  {
    if expanded == Some(id) then None else Some(id)
  }

  /** Toggling the same row twice restores the previous state exactly when no other row was expanded. */
  lemma ToggleTwice(expanded: Option<string>, id: string)
    ensures Toggled(Toggled(expanded, id), id) == expanded <==> expanded == None || expanded == Some(id)
  {
  }

  // ---------------------------------------------------- component state

  /** The state of the dashboard component that the list logic reads and writes. */
  class DashboardPage {
    var searchTerm: string
    var workflows: seq<Workflow>
    var filteredWorkflows: seq<Workflow>
    var currentPage: nat
    var expandedWorkflow: Option<string>

    /** The shown list is the filter of the workflows by the term, and the page is one the bar offers (or 1). */
    ghost predicate Valid()
      reads this
    {
      && filteredWorkflows == Filter(workflows, searchTerm)
      && 1 <= currentPage
      && (currentPage == 1 || currentPage <= TotalPages(|filteredWorkflows|))
    }

    /** The initial state over a list: empty search, the whole list shown, page 1, no row expanded. */
    constructor (initial: seq<Workflow>)
      ensures Valid()
      ensures searchTerm == "" && workflows == initial && filteredWorkflows == initial
      ensures currentPage == 1 && expandedWorkflow == None
    {
      searchTerm := "";
      workflows := initial;
      filteredWorkflows := workflows;
      currentPage := 1;
      expandedWorkflow := None;
      new;
      FilterEmptyTerm(workflows);
      assert filteredWorkflows == Filter(workflows, searchTerm);
    }

    /** Typing in the search box, followed by the filter effect: refilter and go back to page 1. */
    method Search(term: string)
      requires Valid()
      modifies this`searchTerm, this`filteredWorkflows, this`currentPage
      ensures Valid()
      ensures searchTerm == term
      ensures filteredWorkflows == Filter(workflows, term)
      ensures currentPage == 1
    {
      searchTerm := term;
      filteredWorkflows := Filter(workflows, searchTerm);
      currentPage := 1;
    }

    /** Clicking one of the page links 1..totalPages. */
    method GoToPage(page: nat)
      requires Valid()
      requires 1 <= page <= TotalPages(|filteredWorkflows|)
      modifies this`currentPage
      ensures Valid()
      ensures currentPage == page
    {
      currentPage := page;
    }

    method ToggleExpand(id: string)
      requires Valid()
      modifies this`expandedWorkflow
      ensures Valid()
      ensures expandedWorkflow == Toggled(old(expandedWorkflow), id)
    {
      if expandedWorkflow == Some(id) {
        expandedWorkflow := None;
      } else {
        expandedWorkflow := Some(id);
      }
    }

    /** `getCurrentPageItems`: the rows of the current page; never empty while some workflow matches. */
    method GetCurrentPageItems() returns (items: seq<Workflow>)
      requires Valid()
      ensures items == PageItems(filteredWorkflows, currentPage)
      ensures |items| <= ItemsPerPage
      ensures filteredWorkflows != [] ==> items != []
      ensures forall w :: w in items ==> w in workflows && Matches(w, searchTerm)
    {
      var startIndex := (currentPage - 1) * ItemsPerPage;
      var endIndex := startIndex + ItemsPerPage;
      items := Slice(filteredWorkflows, startIndex, endIndex);
      forall w | w in items
        ensures w in workflows && Matches(w, searchTerm)
      {
        FilterMembership(workflows, searchTerm, w);
      }
    }

    /** The row with this id shows its execution history. */
    predicate RowExpanded(id: string)
      reads this
    {
      expandedWorkflow == Some(id)
    }

    /** Among rows with distinct ids, at most one is expanded. */
    lemma AtMostOneRowExpanded(rows: seq<Workflow>, i: nat, j: nat)
      requires forall a, b :: 0 <= a < b < |rows| ==> rows[a].id != rows[b].id
      requires i < |rows| && j < |rows|
      requires RowExpanded(rows[i].id) && RowExpanded(rows[j].id)
      ensures i == j
    {
    }
  }

  /** The dashboard as it first renders: both lists start as the mock data. */
  method Mount() returns (page: DashboardPage)
    ensures fresh(page) && page.Valid()
    ensures page.searchTerm == "" && page.workflows == MockWorkflows() && page.filteredWorkflows == MockWorkflows()
    ensures page.currentPage == 1 && page.expandedWorkflow == None
  {
    page := new DashboardPage(MockWorkflows());
  }
}
