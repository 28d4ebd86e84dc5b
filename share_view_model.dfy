/**
 * The share table model: an ordered list of share records, a list of header
 * labels and a configured column count, answered to a view through the
 * role-based query protocol of the UI toolkit and changed in place by the
 * append, replace, remove, clear and sort operations.
 */
module ShareView {
  import opened ShareItem
  import opened ItemSort

  // Item data roles of the UI toolkit, by their numeric values.
  const DisplayRole := 0
  const EditRole := 2
  const TextAlignmentRole := 7
  const UserRole := 0x0100

  /** Left alignment (0x01) combined with vertical centring (0x80). */
  const AlignLeftVCenter := 0x0081

  datatype Orientation = Horizontal | Vertical

  /** A model index: `Root` is the invalid index that names the table
      itself, `Cell` a valid one (rows and columns of a valid index are
      never negative). */
  datatype ModelIndex = Root | Cell(row: nat, column: nat)

  /** The values a query can answer with; `Empty` is the null variant. */
  datatype Variant = Empty | Text(text: string) | Alignment(flags: int) | Share(item: Item)

  /** The unsigned 16-bit type of the configured column count. */
  newtype u16 = x: int | 0 <= x < 0x1_0000

  /** The list with position `i` taken out. */
  function RemoveAt(s: seq<Item>, i: int): (r: seq<Item>)
    requires 0 <= i < |s|
    ensures |r| == |s| - 1
    ensures forall k :: 0 <= k < i ==> r[k] == s[k]
    ensures forall k :: i <= k < |r| ==> r[k] == s[k + 1]
    ensures multiset(r) + multiset{s[i]} == multiset(s)
  {
    assert s == s[..i] + [s[i]] + s[i + 1..];
    s[..i] + s[i + 1..]
  }

  /** Outcome of removing a row with the guard as the source writes it. */
  datatype Removal = Refused | Removed(rest: seq<Item>) | OutOfRange

  /** Row removal with the source's guard, which refuses only rows below 0
      or above the length: the row equal to the length passes the guard and
      reaches the list removal, outside that removal's domain (`OutOfRange`). */
  function RemoveRowAsWritten(items: seq<Item>, row: int): (r: Removal)
    ensures r.Refused? <==> row < 0 || row > |items|
    ensures r.OutOfRange? <==> row == |items|
    ensures r.Removed? ==> 0 <= row < |items| && r.rest == RemoveAt(items, row)
  {
    if row < 0 || row > |items| then Refused
    else if row < |items| then Removed(RemoveAt(items, row))
    else OutOfRange
  }

  /** The smallest input that shows it: row 0 of an empty table. */
  lemma RemoveRowAsWrittenOnEmptyTable()
    ensures RemoveRowAsWritten([], 0) == OutOfRange
  {
  }

  class RaptorShareViewModel {
    var items: seq<Item>
    var headers: seq<string>
    var columnCount: u16
    /** The locale-aware three-way string compare the sort uses. */
    const collator: (string, string) -> int

    constructor (collator: (string, string) -> int)
      ensures this.collator == collator
      ensures items == [] && headers == [] && columnCount == 0
    {
      this.collator := collator;
      items := [];
      headers := [];
      columnCount := 0;
    }

    /** Header query: column `section` is labelled by `headers[section - 1]`;
        column 0 is reserved and has no label. */
    function HeaderData(section: int, orientation: Orientation, role: int): (r: Variant)
      reads this
      ensures r.Text? <==> orientation == Horizontal && role == DisplayRole && 0 < section <= |headers|
      ensures r.Text? ==> r.text == headers[section - 1]
      ensures r.Alignment? <==> orientation == Horizontal && role == TextAlignmentRole
      ensures r.Alignment? ==> r.flags == AlignLeftVCenter
      ensures !r.Text? && !r.Alignment? ==> r == Empty
    {
      if orientation != Horizontal then Empty
      else if role == DisplayRole then
        if 0 < section <= |headers| then Text(headers[section - 1]) else Empty
      else if role == TextAlignmentRole then Alignment(AlignLeftVCenter)
      else Empty
    }

    /** Number of rows: the number of items under the root, none under a cell. */
    function RowCount(parent: ModelIndex): (n: int)
      reads this
      ensures parent == Root ==> n == |items|
      ensures parent.Cell? ==> n == 0
    {
      if parent.Cell? then 0 else |items|
    }

    /** Number of columns: the configured count under the root, whatever the
        number of header labels, and none under a cell. */
    function ColumnCount(parent: ModelIndex): (n: int)
      reads this
      ensures parent == Root ==> n == columnCount as int
      ensures parent.Cell? ==> n == 0
      ensures 0 <= n < 0x1_0000
    {
      if parent.Cell? then 0 else columnCount as int
    }

    /** Cell query. Every valid index reads the item at its row, so the row
        must be in range. */
    function Data(index: ModelIndex, role: int): (r: Variant)
      reads this
      requires index.Cell? ==> index.row < |items|
      ensures index == Root ==> r == Empty
      ensures index.Cell? && role == UserRole ==> r == Share(items[index.row])
      ensures index.Cell? && role == DisplayRole && index.column == 1 ==> r == Text(items[index.row].name)
      ensures index.Cell? && role == DisplayRole && index.column == 2 ==> r == Text(DatePart(items[index.row].expired))
      ensures r.Text? ==> role == DisplayRole && index.Cell? && (index.column == 1 || index.column == 2)
      ensures index.Cell? && role == DisplayRole && index.column != 1 && index.column != 2 ==> r == Empty
      ensures index.Cell? && role == TextAlignmentRole ==> r == Alignment(AlignLeftVCenter)
      ensures role != UserRole && role != DisplayRole && role != TextAlignmentRole ==> r == Empty
    {
      if !index.Cell? then Empty
      else
        var item := items[index.row];
        if role == UserRole then Share(item)
        else if role == DisplayRole then
          if index.column == 1 then Text(item.name)
          else if index.column == 2 then Text(DatePart(item.expired))
          else Empty
        else if role == TextAlignmentRole then Alignment(AlignLeftVCenter)
        else Empty
    }

    /** Edit: a valid index, the edit role and a share record as payload
        replace exactly the item at that row; anything else changes nothing.
        The replacing branch writes the row unchecked, so it needs the row
        in range. */
    method SetData(index: ModelIndex, value: Variant, role: int)
      requires index.Cell? && role == EditRole && value.Share? ==> index.row < |items|
      modifies this`items
      ensures |items| == |old(items)|
      ensures index.Cell? && role == EditRole && value.Share? ==>
        items[index.row] == value.item &&
        forall k :: 0 <= k < |items| && k != index.row ==> items[k] == old(items)[k]
      ensures !(index.Cell? && role == EditRole && value.Share?) ==> items == old(items)
    {
      if !index.Cell? {
        return;
      }
      if role != EditRole {
        return;
      }
      if !value.Share? {
        return;
      }
      items := items[index.row := value.item];
    }

    /** Removes the item at `row` when there is one, and says whether it did.
        The guard refuses every row at or past the end. */
    method RemoveRow(row: int) returns (removed: bool)
      modifies this`items
      ensures removed <==> 0 <= row < |old(items)|
      ensures removed ==> items == RemoveAt(old(items), row)
      ensures !removed ==> items == old(items)
    {
      if row < 0 || row >= |items| {
        return false;
      }
      items := RemoveAt(items, row);
      return true;
    }

    /** Sorts by column 1 (name) or 2 (expiry) in the order asked for; any
        other column leaves the list as it is. Which of several equal items
        comes first is not promised. */
    method Sort(column: int, order: SortOrder)
      requires IsCollation(collator)
      modifies this`items
      ensures column != 1 && column != 2 ==> items == old(items)
      ensures multiset(items) == multiset(old(items))
      ensures column == 1 ==> OrderedByKey(collator, ByName, order, items)
      ensures column == 2 ==> OrderedByKey(collator, ByExpired, order, items)
    {
      if column == 0 {
        return;
      }
      if column == 1 || column == 2 {
        var c := Comparator(collator, if column == 1 then ByName else ByExpired, order);
        InsertionSortOrders(c, items);
        items := InsertionSort(c, items);
      }
    }

    method SetHeaders(labels: seq<string>)
      modifies this`headers
      ensures headers == labels
    {
      headers := labels;
    }

    method SetColumnCount(count: u16)
      modifies this`columnCount
      ensures columnCount == count
    {
      columnCount := count;
    }

    /** Appends one item at the end. */
    method AppendItem(item: Item)
      modifies this`items
      ensures items == old(items) + [item]
    {
      items := items + [item];
    }

    /** Appends a batch at the end, in order; an empty batch changes nothing. */
    method AppendItems(batch: seq<Item>)
      modifies this`items
      ensures items == old(items) + batch
    {
      if |batch| == 0 {
        return;
      }
      items := items + batch;
    }

    method ClearItems()
      modifies this`items
      ensures items == []
    {
      items := [];
    }
  }

  /** A client of the model: what the contracts above let a caller conclude. */
  method Walkthrough(a: Item, b: Item, c: Item, collator: (string, string) -> int)
    requires IsCollation(collator)
  {
    var m := new RaptorShareViewModel(collator);
    m.AppendItems([]);
    assert m.RowCount(Root) == 0;
    m.AppendItems([a, b, c]);
    assert m.RowCount(Root) == 3 && m.items == [a, b, c];
    assert m.Data(Cell(1, 1), DisplayRole) == Text(b.name);
    assert m.Data(Cell(1, 2), DisplayRole).text <= b.expired;
    assert m.HeaderData(0, Horizontal, DisplayRole) == Empty;
    m.Sort(0, AscendingOrder);
    assert m.items == [a, b, c];
    m.Sort(1, AscendingOrder);
    assert collator(m.items[0].name, m.items[2].name) <= 0;
    m.ClearItems();
    m.AppendItem(a);
    var removed := m.RemoveRow(1);
    assert !removed && m.RowCount(Root) == 1;
    removed := m.RemoveRow(0);
    assert removed && m.RowCount(Root) == 0;
  }
}
