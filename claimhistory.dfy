/**
 * The claim-history page: the backend's claim records are normalised, filtered
 * by a search term, sorted on a copy by a chosen column, cut into pages of 15
 * rows and summarised in a statistics row.
 */
module ClaimHistory {
  import opened Wrappers
  import opened Sorting
  import opened Columns
  import Text
  import Reduce
  import Paging
  import Fetch

  const ItemsPerPage: nat := 15

  /** One claim record; every field may be missing. */
  datatype ClaimRecord = ClaimRecord(
    id: Option<string>,
    userAddress: Option<string>,
    claimedAmount: Option<int>,
    claimType: Option<string>,
    date: Option<string>,
    version: Option<int>,
    status: Option<string>,
    transactionHash: Option<string>)

  /**
   * An element of the fetched array: `null`, another non-object value (a
   * number, a string, a boolean), or a JSON object.
   */
  datatype Item = Null | OtherValue | Object(record: ClaimRecord)

  /** The record's columns a sort configuration can name (`keyof ClaimRecord`). */
  datatype Key = Id | UserAddress | ClaimedAmount | ClaimType | Date | Version | Status | TransactionHash

  const Success := "success"
  const Pending := "pending"

  // --------------------------------------------------------- normalisation

  /**
   * The callback mapped over the array (app/claimhistory/page.tsx:46-52).
   * Reading `item.claimedAmount` on `null` throws a TypeError (`None`); any
   * other non-object reads `undefined` there and spreads to no fields.
   */
  function Normalize(item: Item): (r: Option<ClaimRecord>)
    ensures r.None? <==> item.Null?
    ensures r.Some? ==> r.value.status == Some(Success) && r.value.transactionHash == None
    ensures item.Object? ==>
      (r.value.id == item.record.id && r.value.userAddress == item.record.userAddress
       && r.value.claimedAmount == item.record.claimedAmount && r.value.claimType == item.record.claimType
       && r.value.date == item.record.date && r.value.version == item.record.version)
    ensures item.OtherValue? ==> r == Some(ClaimRecord(None, None, None, None, None, None, Some(Success), None))
  {
    match item
    case Null => None
    case OtherValue => Some(ClaimRecord(None, None, None, None, None, None, Some(Success), None))
    case Object(rec) => Some(rec.(status := Some(Success), transactionHash := None))
  }

  /** What the fetch effect's `try` block ends with: the records to store, or the message `catch` stores. */
  datatype Loaded = Records(rows: seq<ClaimRecord>) | Threw(message: string)

  /** The message of the TypeError that `item.claimedAmount` raises on `null` (V8's wording). */
  const NullReadMessage := "Cannot read properties of null (reading 'claimedAmount')"

  /** `result.map(...)`: it throws at the first `null`, and otherwise normalises each element. */
  function Formatted(items: seq<Item>): (r: Loaded)
    ensures r.Threw? <==> exists i :: 0 <= i < |items| && items[i].Null?
    ensures r.Threw? ==> r.message == NullReadMessage
    ensures r.Records? ==>
      |r.rows| == |items| && forall i :: 0 <= i < |items| ==> Normalize(items[i]) == Some(r.rows[i])
  {
    if exists i :: 0 <= i < |items| && items[i].Null? then Threw(NullReadMessage)
    else Records(seq(|items|, i requires 0 <= i < |items| => Normalize(items[i]).value))
  }

  /**
   * The whole `try` block: a failed request throws its own error, a body that
   * is not an array gives `[]`, and an array is mapped.
   */
  function Fetched(response: Fetch.Response<Item>): (r: Loaded)
    ensures response.Failed? ==> r == Threw(response.message)
    ensures response.NotAnArray? ==> r == Records([])
    ensures response.AnArray? ==> r == Formatted(response.items)
  {
    match response
    case Failed(m) => Threw(m)
    case NotAnArray => Records([])
    case AnArray(items) => Formatted(items)
  }

  /** The data the page holds after a load: the records, or `[]` after `catch`. */
  function LoadedRows(response: Fetch.Response<Item>): (r: seq<ClaimRecord>)
    ensures Fetched(response).Records? ==> r == Fetched(response).rows
    ensures Fetched(response).Threw? ==> r == []
  {
    var o := Fetched(response);
    if o.Records? then o.rows else []
  }

  /** Every loaded record says `success` and has no transaction hash. */
  lemma FormattedAllSuccessful(response: Fetch.Response<Item>)
    ensures forall r :: r in LoadedRows(response) ==> r.status == Some(Success) && r.transactionHash == None
  {
    var rows := LoadedRows(response);
    forall r | r in rows
      ensures r.status == Some(Success) && r.transactionHash == None
    {
      var i :| 0 <= i < |rows| && rows[i] == r;
      assert Normalize(response.items[i]) == Some(r);
    }
  }

  /** An array without `null` elements always loads, one record per element. */
  lemma NullFreeArrayLoads(items: seq<Item>)
    requires forall i :: 0 <= i < |items| ==> !items[i].Null?
    ensures Fetched(Fetch.AnArray(items)).Records?
    ensures |LoadedRows(Fetch.AnArray(items))| == |items|
  {
  }

  /** One `null` anywhere in the array empties the page and reports the TypeError. */
  lemma NullElementEmptiesPage(items: seq<Item>, k: nat)
    requires k < |items| && items[k].Null?
    ensures LoadedRows(Fetch.AnArray(items)) == []
    ensures Fetched(Fetch.AnArray(items)) == Threw(NullReadMessage)
  {
  }

  // ---------------------------------------------------------------- filter

  /** `field?.toLowerCase().includes(term.toLowerCase())`: a missing field never matches. */
  predicate FieldMatches(field: Option<string>, term: string) {
    field.Some? && Text.Includes(Text.Lower(field.value), Text.Lower(term))
  }

  predicate Matches(r: ClaimRecord, term: string) {
    FieldMatches(r.claimType, term) || FieldMatches(r.status, term) || FieldMatches(r.id, term)
  }

  /** `data.filter(...)`: the records whose type, status or id contains the term, in their order. */
  function Filter(data: seq<ClaimRecord>, term: string): (r: seq<ClaimRecord>)
    ensures |r| <= |data|
    ensures forall x :: x in r <==> x in data && Matches(x, term)
    ensures forall x :: multiset(r)[x] == if Matches(x, term) then multiset(data)[x] else 0
    decreases |data|
  {
    if data == [] then []
    else
      var init := data[..|data| - 1];
      var x := data[|data| - 1];
      assert data == init + [x];
      if Matches(x, term) then Filter(init, term) + [x] else Filter(init, term)
  }

  /** A record with no type, status and id is never shown, whatever the term. */
  lemma BlankNeverMatches(r: ClaimRecord, term: string)
    requires r.claimType.None? && r.status.None? && r.id.None?
    ensures !Matches(r, term)
  {
  }

  /**
   * Every loaded record has status `success`, so every term that occurs in
   * "success" (the empty term among them) keeps all loaded records.
   */
  lemma FilterKeepsLoaded(response: Fetch.Response<Item>, term: string)
    requires Text.Includes(Success, Text.Lower(term))
    ensures Filter(LoadedRows(response), term) == LoadedRows(response)
  {
    var data := LoadedRows(response);
    FormattedAllSuccessful(response);
    assert Text.Lower(Success) == Success by {
      Text.LowerIdempotent(Success);
    }
    KeepAll(data, term);
  }

  lemma {:induction false} KeepAll(data: seq<ClaimRecord>, term: string)
    requires forall x :: x in data ==> Matches(x, term)
    ensures Filter(data, term) == data
    decreases |data|
  {
    if data != [] {
      var init := data[..|data| - 1];
      assert data == init + [data[|data| - 1]];
      KeepAll(init, term);
    }
  }

  lemma EmptyTermKeepsLoaded(response: Fetch.Response<Item>)
    ensures Filter(LoadedRows(response), "") == LoadedRows(response)
  {
    Text.IncludesEmpty(Success);
    FilterKeepsLoaded(response, "");
  }

  // ------------------------------------------------------------ comparator

  /** `a[sortConfig.key]`: a missing field reads as `undefined`. */
  function Value(r: ClaimRecord, k: Key): (v: Field)
    ensures k in {ClaimedAmount, Version} ==> !v.Text?
    ensures k !in {ClaimedAmount, Version} ==> !v.Number?
  {
    match k
    case Id => StringField(r.id)
    case UserAddress => StringField(r.userAddress)
    case ClaimedAmount => NumberField(r.claimedAmount)
    case ClaimType => StringField(r.claimType)
    case Date => StringField(r.date)
    case Version => NumberField(r.version)
    case Status => StringField(r.status)
    case TransactionHash => StringField(r.transactionHash)
  }

  /**
   * The comparator on two values: two undefined values are equal; an undefined
   * value goes last ascending and first descending.
   */
  function Compare(x: Field, y: Field, d: Direction): (c: int)
    ensures x.Absent? && y.Absent? ==> c == 0
    ensures x.Absent? && !y.Absent? ==> (c > 0 <==> d == Asc) && c != 0
    ensures !x.Absent? && y.Absent? ==> (c < 0 <==> d == Asc) && c != 0
  {
    if x.Absent? && y.Absent? then 0
    else if x.Absent? then (if d == Asc then 1 else -1)
    else if y.Absent? then (if d == Asc then -1 else 1)
    else ComparePresent(x, y, d)
  }

  /** `sortConfig.key` may be null; then every pair compares equal. */
  function Le(key: Option<Key>, d: Direction): (ClaimRecord, ClaimRecord) -> bool {
    (a: ClaimRecord, b: ClaimRecord) =>
      match key
      case None => true
      case Some(k) => Compare(Value(a, k), Value(b, k), d) <= 0
  }

  /** Descending is ascending with the arguments swapped. */
  lemma DescendingReverses(x: Field, y: Field)
    ensures Compare(x, y, Desc) == Compare(y, x, Asc)
  {
    ComparePresentAntisymmetric(x, y, Desc);
  }

  lemma AscendingPreorderAt(x: Field, y: Field, z: Field)
    requires Comparable(x, y) && Comparable(y, z) && Comparable(x, z)
    ensures Compare(x, y, Asc) <= 0 || Compare(y, x, Asc) <= 0
    ensures Compare(x, y, Asc) <= 0 && Compare(y, z, Asc) <= 0 ==> Compare(x, z, Asc) <= 0
  {
    ComparePresentAntisymmetric(x, y, Asc);
    if Compare(x, y, Asc) <= 0 && Compare(y, z, Asc) <= 0 && !z.Absent? {
      ComparePresentTransitive(x, y, z, Asc);
    }
  }

  /** For every sort configuration the comparator is consistent: a total preorder on records. */
  lemma LeTotalPreorder(key: Option<Key>, d: Direction)
    ensures TotalPreorder(Le(key, d))
  {
    forall a, b, c
      ensures PreorderAt(Le(key, d), a, b, c)
    {
      if key.Some? {
        var k := key.value;
        var x, y, z := Value(a, k), Value(b, k), Value(c, k);
        if d == Asc {
          AscendingPreorderAt(x, y, z);
        } else {
          DescendingReverses(x, y);
          DescendingReverses(y, x);
          DescendingReverses(y, z);
          DescendingReverses(x, z);
          AscendingPreorderAt(y, x, z);
          AscendingPreorderAt(z, y, x);
        }
      }
    }
  }

  /** `[...filteredData].sort(...)`: a sorted copy; the filtered list itself is a separate value. */
  function SortedCopy(filtered: seq<ClaimRecord>, key: Option<Key>, d: Direction): seq<ClaimRecord> {
    InsertionSort(filtered, Le(key, d))
  }

  /** How two values sit in the sorted copy. */
  predicate InOrder(x: Field, y: Field, d: Direction) {
    && (d == Asc && x.Absent? ==> y.Absent?)
    && (d == Desc && y.Absent? ==> x.Absent?)
    && (x.Number? && y.Number? ==> if d == Asc then x.n <= y.n else x.n >= y.n)
    && (x.Text? && y.Text? ==> if d == Asc then Text.LexCompare(x.s, y.s) <= 0 else Text.LexCompare(y.s, x.s) <= 0)
  }

  /**
   * The sorted copy is a permutation of the filtered records; undefined values
   * come last ascending and first descending, and defined values follow the
   * direction.
   */
  lemma SortedCopyOrder(filtered: seq<ClaimRecord>, k: Key, d: Direction)
    ensures multiset(SortedCopy(filtered, Some(k), d)) == multiset(filtered)
    ensures var r := SortedCopy(filtered, Some(k), d);
      forall i, j :: 0 <= i < j < |r| ==> InOrder(Value(r[i], k), Value(r[j], k), d)
  {
    InsertionSortPermutes(filtered, Le(Some(k), d));
    LeTotalPreorder(Some(k), d);
    InsertionSortSorted(filtered, Le(Some(k), d));
  }

  /** With no sort key the copy keeps the filtered order. */
  lemma NoKeyKeepsOrder(filtered: seq<ClaimRecord>, d: Direction)
    ensures SortedCopy(filtered, None, d) == filtered
  {
    InsertionSortAllEqual(filtered, Le(None, d));
  }

  // ------------------------------------------------------------ sort header

  /** `handleSort`'s new direction: descending only on a second click of a column sorted ascending. */
  function ToggleDirection(prevKey: Option<Key>, prevDirection: Direction, k: Key): (r: Direction)
    ensures r == Desc <==> prevKey == Some(k) && prevDirection == Asc
  {
    if prevKey == Some(k) && prevDirection == Asc then Desc else Asc
  }

  /** Clicking the same column again always flips the direction. */
  lemma ToggleFlips(prevKey: Option<Key>, prevDirection: Direction, k: Key)
    ensures var d := ToggleDirection(prevKey, prevDirection, k);
      ToggleDirection(Some(k), d, k) != d
  {
  }

  // -------------------------------------------------------------- statistics

  datatype Stats = Stats(totalClaims: nat, totalClaimed: int, successfulClaims: nat, pendingClaims: nat)

  predicate IsSuccessful(r: ClaimRecord) { r.status == Some(Success) }
  predicate IsPending(r: ClaimRecord) { r.status == Some(Pending) }

  /** `record.claimedAmount || 0`. */
  function ClaimedOrZero(r: ClaimRecord): int { r.claimedAmount.GetOr(0) }

  /** The statistics row over every loaded record. */
  function ComputeStats(data: seq<ClaimRecord>): (st: Stats)
    ensures st.totalClaims == |data|
    ensures st.successfulClaims + st.pendingClaims <= st.totalClaims
    ensures st.totalClaimed == Reduce.Sum(data, ClaimedOrZero)
  {
    Reduce.CountExclusive(data, IsSuccessful, IsPending);
    Stats(|data|, Reduce.Sum(data, ClaimedOrZero), Reduce.Count(data, IsSuccessful), Reduce.Count(data, IsPending))
  }

  /** Because of the normalisation every loaded claim counts as successful and none as pending. */
  lemma LoadedStats(response: Fetch.Response<Item>)
    ensures var st := ComputeStats(LoadedRows(response));
      st.successfulClaims == st.totalClaims && st.pendingClaims == 0
  {
    var data := LoadedRows(response);
    FormattedAllSuccessful(response);
    Reduce.CountAll(data, IsSuccessful);
    Reduce.CountNone(data, IsPending);
  }

  /** `totalClaimed` adds the present amounts: a missing amount contributes nothing. */
  lemma {:induction false} TotalClaimedCountsPresent(data: seq<ClaimRecord>, r: ClaimRecord)
    requires r.claimedAmount.None?
    ensures ComputeStats(data + [r]).totalClaimed == ComputeStats(data).totalClaimed
  {
    assert (data + [r])[..|data|] == data;
  }

  // ------------------------------------------------------------------- page

  class ClaimHistoryPage {
    var data: seq<ClaimRecord>
    var loading: bool
    var error: Option<string>
    var searchTerm: string
    var sortKey: Option<Key>
    var direction: Direction
    var currentPage: int

    /** The state before the first fetch: sorted by date, descending, on page 1. */
    constructor()
      ensures data == [] && loading && error == None && searchTerm == ""
      ensures sortKey == Some(Date) && direction == Desc && currentPage == 1
    {
      data := [];
      loading := true;
      error := None;
      searchTerm := "";
      sortKey := Some(Date);
      direction := Desc;
      currentPage := 1;
    }

    function FilteredData(): seq<ClaimRecord>
      reads this
    {
      Filter(data, searchTerm)
    }

    /** `sortedData`. */
    function Rows(): seq<ClaimRecord>
      reads this
    {
      SortedCopy(FilteredData(), sortKey, direction)
    }

    function TotalPages(): nat
      reads this
    {
      Paging.TotalPages(|Rows()|, ItemsPerPage)
    }

    /** `paginatedData`. */
    function PageRows(): seq<ClaimRecord>
      reads this
    {
      Paging.Page(Rows(), currentPage, ItemsPerPage)
    }

    /**
     * The fetch effect. Without a connected wallet nothing happens; otherwise
     * the data is what the `try` block produced, or `[]` with the thrown
     * message kept when it threw (a failed request or a `null` element).
     */
    method Load(connected: bool, response: Fetch.Response<Item>)
      modifies this
      ensures !connected ==> data == old(data) && loading == old(loading) && error == old(error)
      ensures connected ==> data == LoadedRows(response) && !loading
      ensures connected ==> error == (if Fetched(response).Threw? then Some(Fetched(response).message) else None)
      ensures searchTerm == old(searchTerm) && sortKey == old(sortKey) && direction == old(direction)
      ensures currentPage == old(currentPage)
    {
      if !connected {
        return;
      }
      loading := true;
      error := None;
      var outcome := Fetched(response);
      if outcome.Threw? {
        error := Some(outcome.message);
        data := [];
      } else {
        data := outcome.rows;
      }
      loading := false;
    }

    /** Typing in the search box stores the term and returns to page 1. */
    method SetSearchTerm(term: string)
      modifies this
      ensures searchTerm == term && currentPage == 1
      ensures data == old(data) && loading == old(loading) && error == old(error)
      ensures sortKey == old(sortKey) && direction == old(direction)
    {
      searchTerm := term;
      currentPage := 1;
    }

    /** A click on a column header: sort by it, descending only when it was already sorted ascending; back to page 1. */
    method HandleSort(k: Key)
      modifies this
      ensures sortKey == Some(k) && currentPage == 1
      ensures direction == Desc <==> old(sortKey) == Some(k) && old(direction) == Asc
      ensures data == old(data) && loading == old(loading) && error == old(error)
      ensures searchTerm == old(searchTerm)
    {
      direction := ToggleDirection(sortKey, direction, k);
      sortKey := Some(k);
      currentPage := 1;
    }

    method PreviousPage()
      modifies this
      ensures currentPage == Paging.Previous(old(currentPage))
      ensures data == old(data) && loading == old(loading) && error == old(error)
      ensures searchTerm == old(searchTerm) && sortKey == old(sortKey) && direction == old(direction)
    {
      currentPage := Paging.Previous(currentPage);
    }

    method NextPage()
      modifies this
      ensures currentPage == Paging.Next(old(currentPage), old(TotalPages()))
      ensures data == old(data) && loading == old(loading) && error == old(error)
      ensures searchTerm == old(searchTerm) && sortKey == old(sortKey) && direction == old(direction)
    {
      currentPage := Paging.Next(currentPage, TotalPages());
    }

    /** A click on one of the page-number buttons the window shows. */
    method GoToPage(p: int)
      requires p in Paging.PageWindow(currentPage, TotalPages())
      modifies this
      ensures currentPage == p && 1 <= p <= TotalPages()
      ensures data == old(data) && loading == old(loading) && error == old(error)
      ensures searchTerm == old(searchTerm) && sortKey == old(sortKey) && direction == old(direction)
    {
      Paging.WindowLaws(currentPage, TotalPages());
      currentPage := p;
    }
  }
}
