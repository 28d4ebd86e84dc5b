/**
 * The ordering behind the share table's sort. The table compares names or
 * expiry strings with a locale-aware collator and hands one of four
 * "comes before" predicates to the standard library's sort. Here the
 * collator is a parameter, assumed only to behave like a total preorder,
 * and an insertion sort stands in for the library sort.
 */
module ItemSort {
  import opened ShareItem

  /** What is assumed of the collator's three-way compare: the sign flips
      when the arguments are swapped, and "not after" is transitive. Together
      they make `compare(a, b) <= 0` a total preorder on strings. */
  ghost predicate IsCollation(compare: (string, string) -> int) {
    && (forall a, b :: compare(a, b) < 0 <==> compare(b, a) > 0)
    && (forall a, b, c :: compare(a, b) <= 0 && compare(b, c) <= 0 ==> compare(a, c) <= 0)
  }

  /** The sortable columns: 1 is the name, 2 the expiry string. */
  datatype SortKey = ByName | ByExpired

  datatype SortOrder = AscendingOrder | DescendingOrder

  function KeyOf(item: Item, key: SortKey): string {
    match key
    case ByName => item.name
    case ByExpired => item.expired
  }

  // The four comparators of the table model, each a strict "comes before".

  predicate ItemsByNameAsc(compare: (string, string) -> int, item: Item, iten: Item) {
    compare(item.name, iten.name) < 0
  }

  predicate ItemsByNameDesc(compare: (string, string) -> int, item: Item, iten: Item) {
    compare(item.name, iten.name) > 0
  }

  predicate ItemsByExpiredAsc(compare: (string, string) -> int, item: Item, iten: Item) {
    compare(item.expired, iten.expired) < 0
  }

  predicate ItemsByExpiredDesc(compare: (string, string) -> int, item: Item, iten: Item) {
    compare(item.expired, iten.expired) > 0
  }

  /** The collator bound to one of the four comparators, as the sort gets it. */
  datatype Comparator = Comparator(compare: (string, string) -> int, key: SortKey, order: SortOrder) {
    /** `a` comes strictly before `b` on the chosen column in the chosen
        direction. */
    predicate Less(a: Item, b: Item)
      ensures Less(a, b) <==>
        if order == AscendingOrder then compare(KeyOf(a, key), KeyOf(b, key)) < 0
        else compare(KeyOf(a, key), KeyOf(b, key)) > 0
    {
      match (key, order)
      case (ByName, AscendingOrder) => ItemsByNameAsc(compare, a, b)
      case (ByName, DescendingOrder) => ItemsByNameDesc(compare, a, b)
      case (ByExpired, AscendingOrder) => ItemsByExpiredAsc(compare, a, b)
      case (ByExpired, DescendingOrder) => ItemsByExpiredDesc(compare, a, b)
    }
  }

  /** What the sort promises for comparator `c`: no item comes before an
      item placed ahead of it. */
  ghost predicate SortedBy(c: Comparator, s: seq<Item>) {
    forall i, j :: 0 <= i < j < |s| ==> !c.Less(s[j], s[i])
  }

  /** The order a user asks for, stated on the keys: ascending puts no key
      after a later one, descending puts none before a later one. */
  ghost predicate OrderedByKey(compare: (string, string) -> int, key: SortKey, order: SortOrder, s: seq<Item>) {
    forall i, j :: 0 <= i < j < |s| ==>
      if order == AscendingOrder then compare(KeyOf(s[i], key), KeyOf(s[j], key)) <= 0
      else compare(KeyOf(s[i], key), KeyOf(s[j], key)) >= 0
  }

  /** Each of the four comparators is a strict weak order when the collator
      is a total preorder, which is what the library sort demands of it. */
  lemma ComparatorIsStrictWeakOrder(c: Comparator)
    requires IsCollation(c.compare)
    ensures forall a :: !c.Less(a, a)
    ensures forall a, b :: c.Less(a, b) ==> !c.Less(b, a)
    ensures forall a, b, d :: c.Less(a, b) && c.Less(b, d) ==> c.Less(a, d)
    ensures forall a, b, d :: !c.Less(a, b) && !c.Less(b, d) ==> !c.Less(a, d)
  {
  }

  /** Sorted by the comparator means ordered by the key, both ways. */
  lemma SortedByIffOrderedByKey(c: Comparator, s: seq<Item>)
    requires IsCollation(c.compare)
    ensures SortedBy(c, s) <==> OrderedByKey(c.compare, c.key, c.order, s)
  {
  }

  /** Puts `x` in front of the first item that does not come before it. */
  function Insert(c: Comparator, x: Item, s: seq<Item>): (r: seq<Item>)
    ensures multiset(r) == multiset(s) + multiset{x}
  {
    if s == [] then [x]
    else if !c.Less(s[0], x) then [x] + s
    else
      assert s == [s[0]] + s[1..];
      [s[0]] + Insert(c, x, s[1..])
  }

  /** Insertion sort: a permutation of its input by construction. */
  function InsertionSort(c: Comparator, s: seq<Item>): (r: seq<Item>)
    ensures multiset(r) == multiset(s)
  {
    if s == [] then []
    else
      assert s == [s[0]] + s[1..];
      Insert(c, s[0], InsertionSort(c, s[1..]))
  }

  lemma {:induction false} InsertKeepsSorted(c: Comparator, x: Item, s: seq<Item>)
    requires IsCollation(c.compare)
    requires SortedBy(c, s)
    ensures SortedBy(c, Insert(c, x, s))
  {
    ComparatorIsStrictWeakOrder(c);
    if s != [] && c.Less(s[0], x) {
      var t := s[1..];
      InsertKeepsSorted(c, x, t);
      var r := Insert(c, x, t);
      forall j | 0 <= j < |r|
        ensures !c.Less(r[j], s[0])
      {
        assert r[j] in multiset(r);
        if r[j] != x {
          assert r[j] in multiset(t);
          var k :| 0 <= k < |t| && t[k] == r[j];
          assert s[k + 1] == r[j];
        }
      }
    }
  }

  /** The insertion sort yields a permutation of its input ordered by the
      key in the direction asked for. */
  lemma {:induction false} InsertionSortOrders(c: Comparator, s: seq<Item>)
    requires IsCollation(c.compare)
    ensures multiset(InsertionSort(c, s)) == multiset(s)
    ensures SortedBy(c, InsertionSort(c, s))
    ensures OrderedByKey(c.compare, c.key, c.order, InsertionSort(c, s))
  {
    if s != [] {
      InsertionSortOrders(c, s[1..]);
      InsertKeepsSorted(c, s[0], InsertionSort(c, s[1..]));
    }
    SortedByIffOrderedByKey(c, InsertionSort(c, s));
  }
}
