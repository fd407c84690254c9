/**
 * The referral page: the wallet's direct team, with team statistics computed
 * when the team is loaded, an address search, "recent" and "investment" sort
 * modes, and pages of 10 members.
 */
module Referral {
  import opened Wrappers
  import opened Sorting
  import Text
  import Reduce
  import Paging
  import Fetch

  const ItemsPerPage: nat := 10

  /** A team member; `joinTime` is `new Date(joinDate).getTime()`. */
  datatype Member = Member(address: string, invitedBy: string, joinTime: int, packagesPurchased: seq<int>)

  datatype SortBy = Recent | Investment

  datatype TeamStats = TeamStats(totalMembers: nat, totalInvested: int, averageInvestment: real)

  // ---------------------------------------------------------------- totals

  function Identity(x: int): int { x }

  /** `member.packagesPurchased.reduce((a, b) => a + b, 0)`: a member's investment, also each row's "Total Investment". */
  function MemberInvestment(m: Member): int {
    Reduce.Sum(m.packagesPurchased, Identity)
  }

  /** A whole number of cents. */
  predicate WholeCents(r: real) {
    (r * 100.0).Floor as real == r * 100.0
  }

  /** `Math.round(x * 100) / 100`: rounding to cents, halves upward. */
  function RoundToCents(x: real): (r: real)
    ensures WholeCents(r)
    ensures x - 1.0 / 200.0 < r <= x + 1.0 / 200.0
  {
    var cents := (x * 100.0 + 0.5).Floor;
    assert (cents as real) <= x * 100.0 + 0.5 < (cents as real) + 1.0;
    assert (cents as real / 100.0) * 100.0 == cents as real;
    cents as real / 100.0
  }

  /** Those two properties pin the rounding down: no other whole number of cents lies that close to x. */
  lemma RoundToCentsUnique(x: real, r: real)
    requires WholeCents(r) && x - 1.0 / 200.0 < r <= x + 1.0 / 200.0
    ensures r == RoundToCents(x)
  {
    var q := RoundToCents(x);
    var m, n := (r * 100.0).Floor, (q * 100.0).Floor;
    assert m as real - n as real == (r - q) * 100.0;
    assert -1.0 < (r - q) * 100.0 < 1.0;
    assert m == n;
  }

  /** The statistics the load handler stores: the team size, the summed investments and their rounded mean. */
  function TeamStatsOf(data: seq<Member>): (st: TeamStats)
    ensures st.totalMembers == |data|
    ensures st.totalInvested == Reduce.Sum(data, MemberInvestment)
    ensures |data| == 0 ==> st.averageInvestment == 0.0
    ensures |data| > 0 ==>
      var mean := st.totalInvested as real / |data| as real;
      mean - 1.0 / 200.0 < st.averageInvestment <= mean + 1.0 / 200.0
    ensures WholeCents(st.averageInvestment)
  {
    var total := Reduce.Sum(data, MemberInvestment);
    var mean := if |data| > 0 then total as real / |data| as real else 0.0;
    assert RoundToCents(0.0) == 0.0;
    TeamStats(|data|, total, RoundToCents(mean))
  }

  /** The totals do not depend on the order of the team. */
  lemma TeamStatsIgnoreOrder(a: seq<Member>, b: seq<Member>)
    requires multiset(a) == multiset(b)
    ensures TeamStatsOf(a) == TeamStatsOf(b)
  {
    Reduce.SumPermutation(a, b, MemberInvestment);
    assert |a| == |multiset(a)| == |multiset(b)| == |b|;
  }

  // ---------------------------------------------------------------- filter

  predicate Matches(m: Member, term: string) {
    Text.Includes(Text.Lower(m.address), Text.Lower(term))
  }

  /** `teamMembers.filter(...)`: the members whose lowercased address contains the lowercased term. */
  function Filter(data: seq<Member>, term: string): (r: seq<Member>)
    ensures |r| <= |data|
    ensures forall x :: x in r <==> x in data && Matches(x, term)
    ensures forall x :: multiset(r)[x] == if Matches(x, term) then multiset(data)[x] else 0
    decreases |data|
  {
    if data == [] then []
    else
      var init := data[..|data| - 1];
      var x := data[|data| - 1];
      assert data == init + [x];
      if Matches(x, term) then Filter(init, term) + [x] else Filter(init, term)
  }

  /** The empty search keeps the whole team, in order. */
  lemma {:induction false} FilterEmptyTerm(data: seq<Member>)
    ensures Filter(data, "") == data
    decreases |data|
  {
    if data != [] {
      var init := data[..|data| - 1];
      var x := data[|data| - 1];
      assert data == init + [x];
      Text.IncludesEmpty(Text.Lower(x.address));
      FilterEmptyTerm(init);
    }
  }

  // ------------------------------------------------------------ comparators

  /**
   * The sort's `c(a, b) <= 0`: "investment" compares `sumB - sumA`, "recent"
   * compares `b`'s join time minus `a`'s, so both put larger values first.
   */
  function Le(mode: SortBy): (Member, Member) -> bool {
    (a: Member, b: Member) =>
      match mode
      case Investment => MemberInvestment(b) - MemberInvestment(a) <= 0
      case Recent => b.joinTime - a.joinTime <= 0
  }

  lemma LeTotalPreorder(mode: SortBy)
    ensures TotalPreorder(Le(mode))
  {
  }

  /**
   * The sorted list is a permutation of the filtered one; in "investment" mode
   * it is non-increasing by investment, in "recent" mode non-increasing by
   * join time.
   */
  lemma SortOrder(s: seq<Member>, mode: SortBy)
    ensures multiset(InsertionSort(s, Le(mode))) == multiset(s)
    ensures var r := InsertionSort(s, Le(mode));
      forall i, j :: 0 <= i < j < |r| ==>
        if mode == Investment then MemberInvestment(r[i]) >= MemberInvestment(r[j]) else r[i].joinTime >= r[j].joinTime
  {
    InsertionSortPermutes(s, Le(mode));
    LeTotalPreorder(mode);
    InsertionSortSorted(s, Le(mode));
  }

  /** The rows of all pages together invest what the filtered team invests. */
  lemma RowsInvestAsFiltered(data: seq<Member>, term: string, mode: SortBy)
    ensures var rows := InsertionSort(Filter(data, term), Le(mode));
      Reduce.Sum(Paging.PagesUpTo(rows, ItemsPerPage, Paging.TotalPages(|rows|, ItemsPerPage)), MemberInvestment)
      == Reduce.Sum(Filter(data, term), MemberInvestment)
  {
    var rows := InsertionSort(Filter(data, term), Le(mode));
    Paging.PagesConcatenate(rows, ItemsPerPage);
    InsertionSortPermutes(Filter(data, term), Le(mode));
    Reduce.SumPermutation(rows, Filter(data, term), MemberInvestment);
  }

  // ------------------------------------------------------------------- page

  class ReferralPage {
    var teamMembers: seq<Member>
    var stats: TeamStats
    var loading: bool
    var error: Option<string>
    var searchTerm: string
    var sortBy: SortBy
    var currentPage: int

    /** The stored statistics are always those of the stored team. */
    ghost predicate Valid()
      reads this
    {
      stats == TeamStatsOf(teamMembers)
    }

    constructor()
      ensures Valid()
      ensures teamMembers == [] && !loading && error == None && searchTerm == ""
      ensures sortBy == Recent && currentPage == 1
      ensures stats == TeamStats(0, 0, 0.0)
    {
      teamMembers := [];
      stats := TeamStats(0, 0, 0.0);
      loading := false;
      error := None;
      searchTerm := "";
      sortBy := Recent;
      currentPage := 1;
    }

    /** `filteredAndSortedMembers`. */
    function Rows(): seq<Member>
      reads this
    {
      InsertionSort(Filter(teamMembers, searchTerm), Le(sortBy))
    }

    function TotalPages(): nat
      reads this
    {
      Paging.TotalPages(|Rows()|, ItemsPerPage)
    }

    /** `filteredAndSortedMembers.slice((currentPage - 1) * itemsPerPage, currentPage * itemsPerPage)`. */
    function PageRows(): (r: seq<Member>)
      reads this
      ensures r == Paging.Page(Rows(), currentPage, ItemsPerPage)
    {
      assert currentPage * ItemsPerPage == Paging.StartIndex(currentPage, ItemsPerPage) + ItemsPerPage;
      Paging.Slice(Rows(), (currentPage - 1) * ItemsPerPage, currentPage * ItemsPerPage)
    }

    /** The caption's upper bound, `Math.min(currentPage * itemsPerPage, length)`. */
    function ShowingTo(): (r: int)
      reads this
      ensures r == Paging.ShowingTo(currentPage, ItemsPerPage, |Rows()|)
    {
      assert currentPage * ItemsPerPage == Paging.StartIndex(currentPage, ItemsPerPage) + ItemsPerPage;
      Paging.Min(currentPage * ItemsPerPage, |Rows()|)
    }

    /**
     * The fetch effect. Without a connected wallet nothing happens. A failure
     * keeps the previous team and statistics and records the message; a
     * success stores the team and its statistics.
     */
    method Load(connected: bool, response: Fetch.Response<Member>)
      requires Valid()
      requires !response.NotAnArray?
      modifies this
      ensures Valid()
      ensures !connected ==> teamMembers == old(teamMembers) && loading == old(loading) && error == old(error)
      ensures connected && response.Failed? ==> teamMembers == old(teamMembers) && error == Some(response.message)
      ensures connected && response.AnArray? ==> teamMembers == response.items && error == None
      ensures connected ==> !loading
      ensures searchTerm == old(searchTerm) && sortBy == old(sortBy) && currentPage == old(currentPage)
    {
      if !connected {
        return;
      }
      loading := true;
      error := None;
      if response.Failed? {
        error := Some(response.message);
      } else {
        teamMembers := response.items;
        stats := TeamStatsOf(response.items);
      }
      loading := false;
    }

    /** Typing in the search box stores the term and returns to page 1. */
    method SetSearchTerm(term: string)
      requires Valid()
      modifies this
      ensures Valid()
      ensures searchTerm == term && currentPage == 1
      ensures teamMembers == old(teamMembers) && stats == old(stats) && sortBy == old(sortBy)
      ensures loading == old(loading) && error == old(error)
    {
      searchTerm := term;
      currentPage := 1;
    }

    /** The "Recent" and "Investment" buttons: set the mode and return to page 1. */
    method SetSortBy(mode: SortBy)
      requires Valid()
      modifies this
      ensures Valid()
      ensures sortBy == mode && currentPage == 1
      ensures teamMembers == old(teamMembers) && stats == old(stats) && searchTerm == old(searchTerm)
      ensures loading == old(loading) && error == old(error)
    {
      sortBy := mode;
      currentPage := 1;
    }

    method PreviousPage()
      requires Valid()
      modifies this
      ensures Valid()
      ensures currentPage == Paging.Previous(old(currentPage))
      ensures teamMembers == old(teamMembers) && stats == old(stats)
      ensures searchTerm == old(searchTerm) && sortBy == old(sortBy)
      ensures loading == old(loading) && error == old(error)
    {
      currentPage := Paging.Previous(currentPage);
    }

    method NextPage()
      requires Valid()
      modifies this
      ensures Valid()
      ensures currentPage == Paging.Next(old(currentPage), old(TotalPages()))
      ensures teamMembers == old(teamMembers) && stats == old(stats)
      ensures searchTerm == old(searchTerm) && sortBy == old(sortBy)
      ensures loading == old(loading) && error == old(error)
    {
      currentPage := Paging.Next(currentPage, TotalPages());
    }

    /** A click on one of the page-number buttons the window shows. */
    method GoToPage(p: int)
      requires Valid()
      requires p in Paging.PageWindow(currentPage, TotalPages())
      modifies this
      ensures Valid()
      ensures currentPage == p && 1 <= p <= TotalPages()
      ensures teamMembers == old(teamMembers) && stats == old(stats)
      ensures searchTerm == old(searchTerm) && sortBy == old(sortBy)
      ensures loading == old(loading) && error == old(error)
    {
      Paging.WindowLaws(currentPage, TotalPages());
      currentPage := p;
    }

    /** `filtered.sort(...)`: the filtered members sorted in place in a fresh array. */
    method SortedMembers() returns (rows: seq<Member>)
      ensures rows == Rows()
      ensures multiset(rows) == multiset(Filter(teamMembers, searchTerm))
    {
      var filtered := Filter(teamMembers, searchTerm);
      var a := new Member[|filtered|](i requires 0 <= i < |filtered| => filtered[i]);
      assert a[..] == filtered;
      LeTotalPreorder(sortBy);
      SortInPlace(a, Le(sortBy));
      rows := a[..];
      InsertionSortPermutes(filtered, Le(sortBy));
    }
  }

  /** With no search, the stored total investment is what the rows of all pages add up to. */
  lemma RowsInvestTotal(page: ReferralPage)
    requires page.Valid() && page.searchTerm == ""
    ensures var rows := page.Rows();
      Reduce.Sum(Paging.PagesUpTo(rows, ItemsPerPage, Paging.TotalPages(|rows|, ItemsPerPage)), MemberInvestment)
      == page.stats.totalInvested
  {
    RowsInvestAsFiltered(page.teamMembers, "", page.sortBy);
    FilterEmptyTerm(page.teamMembers);
  }
}
