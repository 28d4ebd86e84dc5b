# Raptor share table model in Dafny

This project models `RaptorShareViewModel`, the table model behind Raptor's
list of shares. The model owns three things:

- an ordered list of share records (`_Items`);
- the header labels (`_Headers`);
- a configured column count (`_ColumnCount`).

It answers the view's queries: header labels, row and column counts, and cell
values. It changes the list in place: replace one row, remove one row, append
one item or a batch, clear, and sort by name or by expiry string.

Files:

- `share_item.dfy` (module `ShareItem`): the share record, reduced to its
  name, its expiry string and an opaque rest. Also `DatePart`, the text of
  the expiry string before its first space, which column 2 shows.
- `item_sort.dfy` (module `ItemSort`): the collator as a three-way compare
  that is assumed to be a total preorder (`IsCollation`), and the four
  comparators the sort uses. An insertion sort stands in for `std::sort`,
  with its permutation and order proved.
- `share_view_model.dfy` (module `ShareView`): the class
  `RaptorShareViewModel`. Its `items`, `headers` and `columnCount` fields
  are changed by the mutator methods. The queries are functions that read
  them.

Qt's `QModelIndex` is `ModelIndex`. `Root` is the invalid index and
`Cell(row, column)` a valid one. A `QVariant` is `Variant`; `Empty` is the
null variant. Roles are the toolkit's numbers: display 0, edit 2, text
alignment 7, user 256. The alignment answer is `AlignLeft | AlignVCenter`,
which is 0x81.

The source reads `_Items[row]` in `data` and writes it in `setData` without
checking the row. The model makes this a precondition: the row of a valid
index must be in range. For `data` this holds on every valid index. For
`setData` it holds only on the branch that writes.

## Model

| member | source | states |
|---|---|---|
| `ShareView.RaptorShareViewModel.constructor` | Src/Model/Page/Share/RaptorShareViewModel.cpp:26-29 | The model starts with no items, no headers and column count 0, and keeps the collator it is given. |
| `ShareView.RaptorShareViewModel.HeaderData` | Src/Model/Page/Share/RaptorShareViewModel.cpp:31-53 | A horizontal display-role query returns a label exactly when `section` is between 1 and the number of headers, and the label is `headers[section - 1]`. Column 0 is never labelled. The alignment constant comes back exactly for the horizontal alignment role. Every other query is empty. |
| `ShareView.RaptorShareViewModel.RowCount` | Src/Model/Page/Share/RaptorShareViewModel.cpp:55-63 | The root has one row per item; a valid parent has none. |
| `ShareView.RaptorShareViewModel.ColumnCount` | Src/Model/Page/Share/RaptorShareViewModel.cpp:65-73 | The root has the configured number of columns, which does not depend on the headers and stays below 65536; a valid parent has none. |
| `ShareView.RaptorShareViewModel.Data` | Src/Model/Page/Share/RaptorShareViewModel.cpp:75-104 | The root index gives empty. The row of a valid index must be in range. The user role gives the whole record. Display column 1 gives the name and display column 2 gives the date part of the expiry; every other display column is empty, and a text answer only comes from those two columns. The alignment role gives the constant; every other role is empty. |
| `ShareItem.DatePart` | Src/Model/Page/Share/RaptorShareViewModel.cpp:94 | The date part is a prefix of the expiry string with no space in it. It ends at the end of the string or just before a space. |
| `ShareItem.DatePartIsFirstField` | Src/Model/Page/Share/RaptorShareViewModel.cpp:94 | Those three facts determine the date part: any prefix that has them equals `DatePart`. |
| `ShareItem.DatePartOfTimestamp` | Src/Model/Page/Share/RaptorShareViewModel.cpp:94 | For `date + " " + time` with no space in `date`, the date part is `date`. |
| `ShareItem.DatePartWithoutSpace` | Src/Model/Page/Share/RaptorShareViewModel.cpp:94 | A string without a space is its own date part. |
| `ShareView.RaptorShareViewModel.SetData` | Src/Model/Page/Share/RaptorShareViewModel.cpp:106-127 | A valid index with the edit role and a share record as payload replaces exactly that row. The length and every other row are unchanged. Any other index, role or payload leaves the list untouched. |
| `ShareView.RemoveAt` | Src/Model/Page/Share/RaptorShareViewModel.cpp:137 | Removing position `i` shortens the list by one. Items before `i` keep their place and items after it move up by one. The multiset loses exactly `s[i]`. |
| `ShareView.RaptorShareViewModel.RemoveRow` | Src/Model/Page/Share/RaptorShareViewModel.cpp:129-140 | It removes exactly when `row` is between 0 and the number of items minus one, and says so. Then the list becomes `RemoveAt(old, row)`; otherwise it is unchanged. The guard is corrected (see Findings). |
| `ShareView.RemoveRowAsWritten` | Src/Model/Page/Share/RaptorShareViewModel.cpp:131-137 | With the guard as written, rows below 0 or above the length are refused. The row equal to the length passes the guard and reaches an out-of-range removal. Every other row is removed as `RemoveAt` says. |
| `ShareView.RemoveRowAsWrittenOnEmptyTable` | Src/Model/Page/Share/RaptorShareViewModel.cpp:131 | Row 0 of an empty table passes the written guard and reaches the out-of-range removal. |
| `ShareView.RaptorShareViewModel.Sort` | Src/Model/Page/Share/RaptorShareViewModel.cpp:142-179 | Column 0 and any column other than 1 or 2 leave the list as it is. Columns 1 and 2 leave a permutation of the old list. It is ordered by the collator on the name or the expiry string, ascending or descending as asked. |
| `ItemSort.ItemsByNameAsc` | Src/Model/Page/Share/RaptorShareViewModel.cpp:224-227 | True exactly when the collator puts the first item's name strictly before the second's. |
| `ItemSort.ItemsByNameDesc` | Src/Model/Page/Share/RaptorShareViewModel.cpp:229-232 | True exactly when the collator puts the first item's name strictly after the second's. |
| `ItemSort.ItemsByExpiredAsc` | Src/Model/Page/Share/RaptorShareViewModel.cpp:234-237 | True exactly when the collator puts the first item's expiry string strictly before the second's. |
| `ItemSort.ItemsByExpiredDesc` | Src/Model/Page/Share/RaptorShareViewModel.cpp:239-242 | True exactly when the collator puts the first item's expiry string strictly after the second's. |
| `ItemSort.Comparator.Less` | Src/Model/Page/Share/RaptorShareViewModel.cpp:150-176 | The comparator the sort receives for a column and an order: `a` comes before `b` exactly when the collator puts `a`'s key (name for column 1, expiry for column 2) strictly before `b`'s in ascending order, strictly after in descending order. |
| `ItemSort.ComparatorIsStrictWeakOrder` | Src/Model/Page/Share/RaptorShareViewModel.cpp:224-242 | If the collator is a total preorder, each of the four comparators is a strict weak order: irreflexive, asymmetric and transitive, with transitive incomparability. That is what the sort demands of its comparator. |
| `ItemSort.SortedByIffOrderedByKey` | Src/Model/Page/Share/RaptorShareViewModel.cpp:150-176 | A list is sorted under the chosen comparator if and only if it is ordered by that key in that direction under the collator. |
| `ItemSort.Insert` | Src/Model/Page/Share/RaptorShareViewModel.cpp:156 | Inserting `x` gives a list whose multiset is the old one plus `x`. |
| `ItemSort.InsertionSort` | Src/Model/Page/Share/RaptorShareViewModel.cpp:156-170 | The sorted list is a permutation of its input. |
| `ItemSort.InsertKeepsSorted` | Src/Model/Page/Share/RaptorShareViewModel.cpp:156-170 | Inserting into a sorted list keeps it sorted under the comparator. |
| `ItemSort.InsertionSortOrders` | Src/Model/Page/Share/RaptorShareViewModel.cpp:150-176 | The sort yields a permutation of its input. It is sorted under the comparator and ordered by the key in the direction asked for. |
| `ShareView.RaptorShareViewModel.SetHeaders` | Src/Model/Page/Share/RaptorShareViewModel.cpp:181-184 | The header labels become exactly the given list; nothing else changes. |
| `ShareView.RaptorShareViewModel.SetColumnCount` | Src/Model/Page/Share/RaptorShareViewModel.cpp:186-189 | The column count becomes the given 16-bit value; nothing else changes. |
| `ShareView.RaptorShareViewModel.AppendItem` | Src/Model/Page/Share/RaptorShareViewModel.cpp:191-196 | The list becomes `old + [item]`. |
| `ShareView.RaptorShareViewModel.AppendItems` | Src/Model/Page/Share/RaptorShareViewModel.cpp:198-208 | The list becomes `old + batch`, in order. An empty batch changes nothing. |
| `ShareView.RaptorShareViewModel.ClearItems` | Src/Model/Page/Share/RaptorShareViewModel.cpp:210-215 | The list becomes empty; headers and column count are unchanged. |

## Left out

- The change notifications are not modelled. These are the insert, remove and reset brackets and `dataChanged`. They are signals to the view and do not change the list.
- The return value of `setData` is not modelled. Every path returns whatever the toolkit's base `setData` returns, and that code is not part of this model.
- The collator is an abstract three-way compare. The source uses one with the Chinese locale, numeric mode off and punctuation ignored. That ordering belongs to a foreign library, so the model assumes only that it is a total preorder (`IsCollation`).
- `ShareView.RaptorShareViewModel.Sort` states permutation and order only. The standard library sort is not stable, and which order it gives equal items is not specified. The insertion sort in the body is one admissible result.
- `ShareItem.Item` has only the name, the expiry string and an opaque rest. The record's declaration is not part of this model.
- The initial column count of 0 is an assumption. The member initialisers are in a header that is not part of this model.
- Payload conversion is simplified. A payload counts as convertible to a share record exactly when it holds one (`Share`).
- The `parent` argument of `removeRow` is not modelled. It only feeds the removal notification.
- Row and column counts are unbounded integers. A list longer than the toolkit's `int` range is not considered.

## Findings

| source | as written | input that shows it | evidently intended | confidence | as-written member | corrected member |
|---|---|---|---|---|---|---|
| Src/Model/Page/Share/RaptorShareViewModel.cpp:131 | `qRow < 0 \|\| qRow > _Items.length()` refuses only rows past the end, so `qRow == _Items.length()` reaches `_Items.removeAt(qRow)` with an index outside the list | `removeRow(0)` on an empty model (any row equal to the length) | `qRow >= _Items.length()`: refuse every row that does not name an item | high; not executed | `ShareView.RemoveRowAsWritten` | `ShareView.RaptorShareViewModel.RemoveRow` |
