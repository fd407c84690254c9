/**
 * The binary-matching history page: the backend's matching records are
 * filtered by a search term, sorted by a chosen column, cut into pages of 15
 * rows and summarised in a statistics row.
 */
module MyBinary {
  import opened Wrappers
  import opened Sorting
  import opened Columns
  import Text
  import Reduce
  import Paging
  import Fetch

  const ItemsPerPage: nat := 15

  /**
   * One matching record. Every field may be missing from the JSON the backend
   * sends, so each is optional; a present field has the type the record's
   * interface declares.
   */
  datatype BinaryRecord = BinaryRecord(
    id: Option<string>,
    userAddress: Option<string>,
    matchedUserAddress: Option<string>,
    purchasedAmount: Option<int>,
    binaryMatchingReward: Option<int>,
    leg: Option<string>,
    date: Option<string>)

  /** An element of the fetched array: a JSON object, or anything else (`null`, a number, …). */
  datatype Entry = NonObject | Object(record: BinaryRecord)

  /** The record's columns a table header can sort by. */
  datatype Key = Id | UserAddress | MatchedUserAddress | PurchasedAmount | BinaryMatchingReward | Leg | Date

  // ---------------------------------------------------------------- filter

  /** `record._id ? String(record._id).toLowerCase() : ''` */
  function IdText(r: BinaryRecord): string {
    match r.id
    case Some(s) => Text.Lower(s)
    case None => ""
  }

  /** `record.leg ? String(record.leg).toLowerCase() : ''` */
  function LegText(r: BinaryRecord): string {
    match r.leg
    case Some(s) => Text.Lower(s)
    case None => ""
  }

  /** The filter's test for one record. */
  predicate Matches(r: BinaryRecord, term: string) {
    var needle := Text.Lower(term);
    Text.Includes(IdText(r), needle) || Text.Includes(LegText(r), needle)
  }

  /**
   * `data.filter(...)`: the objects whose lowercased id or leg contains the
   * lowercased term, in their original order; other entries are dropped.
   */
  function Filter(data: seq<Entry>, term: string): (r: seq<BinaryRecord>)
    ensures |r| <= |data|
    ensures forall x :: x in r <==> Object(x) in data && Matches(x, term)
    ensures forall x :: multiset(r)[x] == if Matches(x, term) then multiset(data)[Object(x)] else 0
    decreases |data|
  {
    if data == [] then []
    else
      var init := data[..|data| - 1];
      var e := data[|data| - 1];
      assert data == init + [e];
      var rest := Filter(init, term);
      if e.Object? && Matches(e.record, term) then rest + [e.record] else rest
  }

  /** With an empty search term every object is kept, and every non-object is still dropped. */
  lemma FilterEmptyTermKeepsObjects(data: seq<Entry>)
    ensures forall x :: x in Filter(data, "") <==> Object(x) in data
  {
    forall x | Object(x) in data
      ensures Matches(x, "")
    {
      Text.IncludesEmpty(IdText(x));
    }
  }

  /** Filtering a concatenation filters each part. */
  lemma {:induction false} FilterAppend(a: seq<Entry>, b: seq<Entry>, term: string)
    ensures Filter(a + b, term) == Filter(a, term) + Filter(b, term)
    decreases |b|
  {
    if b == [] {
      assert a + b == a;
    } else {
      var b' := b[..|b| - 1];
      assert (a + b)[..|a + b| - 1] == a + b';
      assert (a + b)[|a + b| - 1] == b[|b| - 1];
      FilterAppend(a, b', term);
    }
  }

  // ------------------------------------------------------------ comparator

  /** `a[sortConfig.key]`: a missing field reads as `undefined`. */
  function Value(r: BinaryRecord, k: Key): (v: Field)
    ensures k in {PurchasedAmount, BinaryMatchingReward} ==> !v.Text?
    ensures k !in {PurchasedAmount, BinaryMatchingReward} ==> !v.Number?
  {
    match k
    case Id => StringField(r.id)
    case UserAddress => StringField(r.userAddress)
    case MatchedUserAddress => StringField(r.matchedUserAddress)
    case PurchasedAmount => NumberField(r.purchasedAmount)
    case BinaryMatchingReward => NumberField(r.binaryMatchingReward)
    case Leg => StringField(r.leg)
    case Date => StringField(r.date)
  }

  /**
   * The page's comparator as written: a missing left value answers 1 before the
   * right value is looked at, so two missing values are each "greater" than the other.
   */
  function CompareAsWritten(x: Field, y: Field, d: Direction): int {
    if x.Absent? then 1
    else if y.Absent? then -1
    else ComparePresent(x, y, d)
  }

  /** The comparator as intended: two missing values are equal; one missing value sorts last. */
  function Compare(x: Field, y: Field, d: Direction): (c: int)
    ensures x.Absent? && y.Absent? ==> c == 0
    ensures x.Absent? && !y.Absent? ==> c > 0
    ensures !x.Absent? && y.Absent? ==> c < 0
    ensures !(x.Absent? && y.Absent?) ==> c == CompareAsWritten(x, y, d)
  {
    if x.Absent? && y.Absent? then 0 else CompareAsWritten(x, y, d)
  }

  /** The sort's `c(a, b) <= 0` relation on whole records for the current sort key and direction. */
  function Le(k: Key, d: Direction): (BinaryRecord, BinaryRecord) -> bool {
    (a: BinaryRecord, b: BinaryRecord) => Compare(Value(a, k), Value(b, k), d) <= 0
  }

  /** The comparator as written is inconsistent: two records both missing the key each compare greater. */
  lemma AsWrittenNotConsistent(a: BinaryRecord, b: BinaryRecord, k: Key, d: Direction)
    requires Value(a, k).Absent? && Value(b, k).Absent?
    ensures CompareAsWritten(Value(a, k), Value(b, k), d) > 0
    ensures CompareAsWritten(Value(b, k), Value(a, k), d) > 0
    ensures !PreorderAt((p: BinaryRecord, q: BinaryRecord) => CompareAsWritten(Value(p, k), Value(q, k), d) <= 0, a, b, b)
  {
  }

  /** A concrete pair: two records with no leg, sorted by leg. */
  lemma AsWrittenCounterexample()
    ensures var blank := BinaryRecord(None, None, None, None, None, None, None);
      CompareAsWritten(Value(blank, Leg), Value(blank, Leg), Asc) == 1
  {
  }

  /** Totality and transitivity of the intended comparator at one triple of values of one column. */
  lemma ComparePreorderAt(x: Field, y: Field, z: Field, d: Direction)
    requires Comparable(x, y) && Comparable(y, z) && Comparable(x, z)
    ensures Compare(x, y, d) <= 0 || Compare(y, x, d) <= 0
    ensures Compare(x, y, d) <= 0 && Compare(y, z, d) <= 0 ==> Compare(x, z, d) <= 0
  {
    ComparePresentAntisymmetric(x, y, d);
    if Compare(x, y, d) <= 0 && Compare(y, z, d) <= 0 && !z.Absent? {
      ComparePresentTransitive(x, y, z, d);
    }
  }

  /** For every key and direction the intended comparator is consistent: a total preorder on records. */
  lemma LeTotalPreorder(k: Key, d: Direction)
    ensures TotalPreorder(Le(k, d))
  {
    forall x, y, z
      ensures PreorderAt(Le(k, d), x, y, z)
    {
      ComparePreorderAt(Value(x, k), Value(y, k), Value(z, k), d);
    }
  }

  /** How two values sit in a sorted table: a missing value is followed only by missing values, and present values are in the direction's order. */
  predicate InOrder(x: Field, y: Field, d: Direction) {
    && (x.Absent? ==> y.Absent?)
    && (x.Number? && y.Number? ==> if d == Asc then x.n <= y.n else x.n >= y.n)
    && (x.Text? && y.Text? ==> if d == Asc then Text.LexCompare(x.s, y.s) <= 0 else Text.LexCompare(y.s, x.s) <= 0)
  }

  /**
   * The sorted table holds exactly the filtered records, records missing the
   * key come after those that have it, and numeric (and string) keys are
   * non-decreasing ascending and non-increasing descending.
   */
  lemma SortOrder(s: seq<BinaryRecord>, k: Key, d: Direction)
    ensures multiset(InsertionSort(s, Le(k, d))) == multiset(s)
    ensures var r := InsertionSort(s, Le(k, d));
      forall i, j :: 0 <= i < j < |r| ==> InOrder(Value(r[i], k), Value(r[j], k), d)
  {
    InsertionSortPermutes(s, Le(k, d));
    LeTotalPreorder(k, d);
    InsertionSortSorted(s, Le(k, d));
  }

  // ------------------------------------------------------------ sort header

  /** `handleSort`'s new direction: ascending only on a second click of a column sorted descending. */
  function ToggleDirection(prevKey: Key, prevDirection: Direction, k: Key): (r: Direction)
    ensures r == Asc <==> prevKey == k && prevDirection == Desc
  {
    if prevKey == k && prevDirection == Desc then Asc else Desc
  }

  /** Clicking the same column again always flips the direction. */
  lemma ToggleFlips(prevKey: Key, prevDirection: Direction, k: Key)
    ensures var d := ToggleDirection(prevKey, prevDirection, k);
      ToggleDirection(k, d, k) != d
  {
  }

  // -------------------------------------------------------------- statistics

  /** The field the statistics add up, of an element of the fetched array. */
  function AmountOf(e: Entry, f: BinaryRecord -> Option<int>): Option<int> {
    if e.Object? then f(e.record) else None
  }

  /**
   * `data.reduce((sum, record) => sum + field, 0)`. A missing amount makes the
   * source's sum `NaN` (or a non-number); the model gives None for it.
   */
  function Total(data: seq<Entry>, f: BinaryRecord -> Option<int>): (r: Option<int>)
    ensures r.Some? <==> forall i :: 0 <= i < |data| ==> AmountOf(data[i], f).Some?
    ensures r.Some? ==> r.value == Reduce.Sum(data, (e: Entry) => AmountOf(e, f).GetOr(0))
    decreases |data|
  {
    if data == [] then Some(0)
    else
      var init := data[..|data| - 1];
      match (Total(init, f), AmountOf(data[|data| - 1], f))
      case (Some(t), Some(v)) => Some(t + v)
      case _ => None
  }

  predicate IsLeft(e: Entry) { e.Object? && e.record.leg == Some("left") }
  predicate IsRight(e: Entry) { e.Object? && e.record.leg == Some("right") }

  /** `averageReward`: the text '0' for no records, else the mean reward (shown to 4 places). */
  datatype Average = ZeroText | Mean(value: real) | NotANumber

  datatype Stats = Stats(
    totalMatches: nat,
    totalAmount: Option<int>,
    totalReward: Option<int>,
    leftMatches: nat,
    rightMatches: nat,
    averageReward: Average)

  function PurchasedAmountOf(r: BinaryRecord): Option<int> { r.purchasedAmount }
  function RewardOf(r: BinaryRecord): Option<int> { r.binaryMatchingReward }

  /** The statistics row, over every fetched entry (not only the filtered ones). */
  function ComputeStats(data: seq<Entry>): (st: Stats)
    ensures st.totalMatches == |data|
    ensures st.totalAmount == Total(data, PurchasedAmountOf) && st.totalReward == Total(data, RewardOf)
    ensures st.totalAmount.Some? ==> st.totalAmount.value == Reduce.Sum(data, (e: Entry) => AmountOf(e, PurchasedAmountOf).GetOr(0))
    ensures st.totalReward.Some? ==> st.totalReward.value == Reduce.Sum(data, (e: Entry) => AmountOf(e, RewardOf).GetOr(0))
    ensures st.leftMatches == Reduce.Count(data, IsLeft) && st.rightMatches == Reduce.Count(data, IsRight)
    ensures st.leftMatches + st.rightMatches <= st.totalMatches
    ensures st.averageReward == ZeroText <==> |data| == 0
    ensures st.averageReward.Mean? <==> |data| > 0 && st.totalReward.Some?
    ensures st.averageReward.Mean? ==> st.averageReward.value * (|data| as real) == st.totalReward.value as real
  {
    var reward := Total(data, RewardOf);
    Reduce.CountExclusive(data, IsLeft, IsRight);
    Stats(
      |data|,
      Total(data, PurchasedAmountOf),
      reward,
      Reduce.Count(data, IsLeft),
      Reduce.Count(data, IsRight),
      if |data| == 0 then ZeroText
      else if reward.None? then NotANumber
      else Mean(reward.value as real / |data| as real))
  }

  /** The totals do not depend on the order the backend sends the records in. */
  lemma TotalsIgnoreOrder(a: seq<Entry>, b: seq<Entry>, f: BinaryRecord -> Option<int>)
    requires multiset(a) == multiset(b)
    ensures Total(a, f) == Total(b, f)
  {
    Reduce.SumPermutation(a, b, (e: Entry) => AmountOf(e, f).GetOr(0));
    if Total(a, f).Some? {
      AllPresentTransfers(a, b, f);
    }
    if Total(b, f).Some? {
      AllPresentTransfers(b, a, f);
    }
  }

  lemma AllPresentTransfers(a: seq<Entry>, b: seq<Entry>, f: BinaryRecord -> Option<int>)
    requires multiset(a) == multiset(b)
    requires forall i :: 0 <= i < |a| ==> AmountOf(a[i], f).Some?
    ensures forall i :: 0 <= i < |b| ==> AmountOf(b[i], f).Some?
  {
    forall i | 0 <= i < |b|
      ensures AmountOf(b[i], f).Some?
    {
      assert b[i] in multiset(a);
      var j :| 0 <= j < |a| && a[j] == b[i];
    }
  }

  // ------------------------------------------------------------------- page

  /** The page's state: the fetched data, the search box, the sort header and the current page. */
  class BinaryHistory {
    var data: seq<Entry>
    var loading: bool
    var error: Option<string>
    var searchTerm: string
    var sortKey: Key
    var direction: Direction
    var currentPage: int

    /** The state before the first fetch: sorted by date, newest first, on page 1. */
    constructor()
      ensures data == [] && loading && error == None && searchTerm == ""
      ensures sortKey == Date && direction == Desc && currentPage == 1
    {
      data := [];
      loading := true;
      error := None;
      searchTerm := "";
      sortKey := Date;
      direction := Desc;
      currentPage := 1;
    }

    /** `filteredAndSortedData`. */
    function Rows(): seq<BinaryRecord>
      reads this
    {
      InsertionSort(Filter(data, searchTerm), Le(sortKey, direction))
    }

    function TotalPages(): nat
      reads this
    {
      Paging.TotalPages(|Rows()|, ItemsPerPage)
    }

    /** `paginatedData`: the rows the table shows. */
    function PageRows(): seq<BinaryRecord>
      reads this
    {
      Paging.Page(Rows(), currentPage, ItemsPerPage)
    }

    /**
     * The fetch effect. Without a connected wallet it only stops loading;
     * otherwise the data is the fetched array, or empty on a failure or a
     * non-array body, and a failure's message is kept.
     */
    method Load(connected: bool, response: Fetch.Response<Entry>)
      modifies this
      ensures !loading
      ensures !connected ==> data == old(data) && error == old(error)
      ensures connected ==> data == Fetch.ItemsOr(response)
      ensures connected ==> error == (if response.Failed? then Some(response.message) else None)
      ensures searchTerm == old(searchTerm) && sortKey == old(sortKey) && direction == old(direction)
      ensures currentPage == old(currentPage)
    {
      if !connected {
        loading := false;
        return;
      }
      loading := true;
      error := None;
      if response.Failed? {
        error := Some(response.message);
        data := [];
      } else {
        data := Fetch.ItemsOr(response);
      }
      loading := false;
    }

    /** Typing in the search box stores the term and returns to page 1. */
    method SetSearchTerm(term: string)
      modifies this
      ensures searchTerm == term && currentPage == 1
      ensures data == old(data) && loading == old(loading) && error == old(error)
      ensures sortKey == old(sortKey) && direction == old(direction)
    {
      searchTerm := term;
      currentPage := 1;
    }

    /** A click on a column header: sort by it, ascending only when it was already sorted descending. */
    method HandleSort(k: Key)
      modifies this
      ensures sortKey == k
      ensures direction == Asc <==> old(sortKey) == k && old(direction) == Desc
      ensures data == old(data) && loading == old(loading) && error == old(error)
      ensures searchTerm == old(searchTerm) && currentPage == old(currentPage)
    {
      direction := ToggleDirection(sortKey, direction, k);
      sortKey := k;
    }

    method PreviousPage()
      modifies this
      ensures currentPage == Paging.Previous(old(currentPage))
      ensures data == old(data) && loading == old(loading) && error == old(error)
      ensures searchTerm == old(searchTerm) && sortKey == old(sortKey) && direction == old(direction)
    {
      currentPage := Paging.Previous(currentPage);
    }

    method NextPage()
      modifies this
      ensures currentPage == Paging.Next(old(currentPage), old(TotalPages()))
      ensures data == old(data) && loading == old(loading) && error == old(error)
      ensures searchTerm == old(searchTerm) && sortKey == old(sortKey) && direction == old(direction)
    {
      currentPage := Paging.Next(currentPage, TotalPages());
    }

    /** A click on one of the page-number buttons the window shows. */
    method GoToPage(p: int)
      requires p in Paging.PageWindow(currentPage, TotalPages())
      modifies this
      ensures currentPage == p && 1 <= p <= TotalPages()
      ensures data == old(data) && loading == old(loading) && error == old(error)
      ensures searchTerm == old(searchTerm) && sortKey == old(sortKey) && direction == old(direction)
    {
      Paging.WindowLaws(currentPage, TotalPages());
      currentPage := p;
    }

    /**
     * `filtered.sort(...)`: the filtered records are copied into an array and
     * sorted in place; the result is the table's row order.
     */
    method SortedRows() returns (rows: seq<BinaryRecord>)
      ensures rows == Rows()
      ensures multiset(rows) == multiset(Filter(data, searchTerm))
    {
      var filtered := Filter(data, searchTerm);
      var a := new BinaryRecord[|filtered|](i requires 0 <= i < |filtered| => filtered[i]);
      assert a[..] == filtered;
      LeTotalPreorder(sortKey, direction);
      SortInPlace(a, Le(sortKey, direction));
      rows := a[..];
      InsertionSortPermutes(filtered, Le(sortKey, direction));
    }
  }
}
