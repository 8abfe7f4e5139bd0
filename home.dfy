/**
 * The home screen's search filter (app/ HomeScreen.kt): with a non-empty
 * query, the items whose title contains it ignoring case, in list order.
 * The case mappings are parameters (see module Text).
 */
module Home {
  import opened Text
  import opened Items

  /** `a` is `b` with some elements left out, the rest in their order. */
  predicate IsSubsequence<T(==)>(a: seq<T>, b: seq<T>)
    decreases |b|
  {
    a == [] || (b != [] && ((a[0] == b[0] && IsSubsequence(a[1..], b[1..])) || IsSubsequence(a, b[1..])))
  }

  predicate TitleMatches(item: Item, query: string, upper: char -> char, lower: char -> char) {
    ContainsIgnoreCase(item.title, query, upper, lower)
  }

  /** `itemList.filter { it.title.contains(query, ignoreCase = true) }`: the
      matching items, each as often as in the list, in list order. */
  function TitleFilter(items: seq<Item>, query: string, upper: char -> char, lower: char -> char): (r: seq<Item>)
    ensures IsSubsequence(r, items)
    ensures forall x :: x in r <==> x in items && TitleMatches(x, query, upper, lower)
    ensures forall x :: multiset(r)[x] == if TitleMatches(x, query, upper, lower) then multiset(items)[x] else 0
  {
    if items == [] then []
    else
      var rest := TitleFilter(items[1..], query, upper, lower);
      assert items == [items[0]] + items[1..];
      if TitleMatches(items[0], query, upper, lower) then
        assert ([items[0]] + rest)[1..] == rest;
        [items[0]] + rest
      else rest
  }

  /** `filteredItems`: the whole list for an empty query, otherwise the title filter. */
  function FilteredItems(itemList: seq<Item>, searchQuery: string, upper: char -> char, lower: char -> char): (r: seq<Item>)
    ensures searchQuery == "" ==> r == itemList
    ensures IsSubsequence(r, itemList) && |r| <= |itemList|
    ensures forall x :: x in r <==> x in itemList && (searchQuery == "" || TitleMatches(x, searchQuery, upper, lower))
    ensures forall x :: multiset(r)[x] == (if searchQuery == "" || TitleMatches(x, searchQuery, upper, lower)
                                           then multiset(itemList)[x] else 0)
  {
    SubsequenceLength(TitleFilter(itemList, searchQuery, upper, lower), itemList);
    if searchQuery == "" then
      EmptyQueryKeepsAll(itemList, upper, lower);
      itemList
    else TitleFilter(itemList, searchQuery, upper, lower)
  }

  lemma {:induction false} SubsequenceLength<T>(a: seq<T>, b: seq<T>)
    requires IsSubsequence(a, b)
    ensures |a| <= |b|
    decreases |b|
  {
    if a != [] {
      if a[0] == b[0] && IsSubsequence(a[1..], b[1..]) {
        SubsequenceLength(a[1..], b[1..]);
      } else {
        SubsequenceLength(a, b[1..]);
      }
    }
  }

  /** The empty-query branch is only a shortcut: filtering by "" keeps every item. */
  lemma {:induction false} EmptyQueryKeepsAll(items: seq<Item>, upper: char -> char, lower: char -> char)
    ensures TitleFilter(items, "", upper, lower) == items
    decreases |items|
  {
    if items != [] {
      ContainsEmpty(items[0].title, upper, lower);
      EmptyQueryKeepsAll(items[1..], upper, lower);
    }
  }
}
