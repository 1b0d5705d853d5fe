/**
 * The lost-and-found page: a fixed list of reported items, narrowed by a
 * search box and a lost/found selector.
 */
module LostFound {
  import opened Text
  import opened Filtering

  /** The `type` field of an item: was it lost or found? */
  datatype ItemType = Lost | Found

  /** The string the page stores in `type` and compares against the selector. */
  function TypeName(t: ItemType): string
  {
    match t
    case Lost => "lost"
    case Found => "found"
  }

  datatype ImageUrl = NoImage | Image(url: string)

  /** One reported item. `date` is the calendar date written as the integer yyyymmdd. */
  datatype Item = Item(
    id: int,
    title: string,
    description: string,
    location: string,
    itemType: ItemType,
    date: int,
    image: ImageUrl)

  /** The selector value that shows items of both types. */
  const AllTypes: string := "all"

  /** The search box test: title or description contains the query, ignoring case. */
  predicate MatchesSearch(item: Item, query: string)
  {
    Includes(ToLower(item.title), ToLower(query)) || Includes(ToLower(item.description), ToLower(query))
  }

  /** The selector test: the selector shows everything, or names this item's type. */
  predicate MatchesFilter(item: Item, filter: string)
  {
    filter == AllTypes || TypeName(item.itemType) == filter
  }

  predicate Matches(item: Item, query: string, filter: string)
  {
    MatchesSearch(item, query) && MatchesFilter(item, filter)
  }

  /** `filteredItems`: the items that pass both tests, in list order. */
  function FilteredItems(items: seq<Item>, query: string, filter: string): seq<Item>
  {
    Filter(items, (item: Item) => Matches(item, query, filter))
  }

  /** The result keeps items in list order and adds or repeats nothing. */
  lemma FilteredItemsIsSubsequence(items: seq<Item>, query: string, filter: string)
    ensures IsSubsequence(FilteredItems(items, query, filter), items)
  {
    FilterIsSubsequence(items, (item: Item) => Matches(item, query, filter));
  }

  /**
   * Sound and complete: an item is shown exactly when (its lower-cased title
   * or description contains the lower-cased query) and (the selector is "all"
   * or equals its type).
   */
  lemma FilteredItemsSoundComplete(items: seq<Item>, query: string, filter: string)
    ensures forall item :: item in FilteredItems(items, query, filter) <==>
      item in items
      && (Includes(ToLower(item.title), ToLower(query)) || Includes(ToLower(item.description), ToLower(query)))
      && (filter == "all" || TypeName(item.itemType) == filter)
  {
    FilterMembers(items, (item: Item) => Matches(item, query, filter));
  }

  /** An item that is shown is shown as often as it occurs in the list. */
  lemma FilteredItemsMultiplicity(items: seq<Item>, query: string, filter: string, item: Item)
    ensures multiset(FilteredItems(items, query, filter))[item]
         == if Matches(item, query, filter) then multiset(items)[item] else 0
  {
    FilterMultiplicity(items, (item: Item) => Matches(item, query, filter), item);
  }

  /** The page's initial state (empty search, selector "all") lists every item. */
  lemma InitialStateShowsAll(items: seq<Item>)
    ensures FilteredItems(items, "", "all") == items
  {
    forall item | item in items ensures Matches(item, "", "all") {
      IncludesEmpty(ToLower(item.title));
    }
    FilterKeepsAll(items, (item: Item) => Matches(item, "", "all"));
  }

  /** Queries that differ only in the case of ASCII letters give the same list. */
  lemma SearchIgnoresCase(items: seq<Item>, query1: string, query2: string, filter: string)
    requires EqualUpToCase(query1, query2)
    ensures FilteredItems(items, query1, filter) == FilteredItems(items, query2, filter)
  {
    ToLowerIffEqualUpToCase(query1, query2);
    FilterCongruent(items, (item: Item) => Matches(item, query1, filter), (item: Item) => Matches(item, query2, filter));
  }

  /** The location is never searched: replacing every location changes no decision. */
  lemma LocationIgnored(item: Item, location: string, query: string, filter: string)
    ensures Matches(item.(location := location), query, filter) == Matches(item, query, filter)
  {
  }

  /** Filtering the list already shown, with the same query and selector, changes nothing. */
  lemma RefilterChangesNothing(items: seq<Item>, query: string, filter: string)
    ensures FilteredItems(FilteredItems(items, query, filter), query, filter) == FilteredItems(items, query, filter)
  {
    FilterIdempotent(items, (item: Item) => Matches(item, query, filter));
  }

  /** With the same query, the "lost" and the "found" lists split the "all" list between them. */
  lemma LostAndFoundPartitionAll(items: seq<Item>, query: string)
    ensures multiset(FilteredItems(items, query, "lost")) + multiset(FilteredItems(items, query, "found"))
         == multiset(FilteredItems(items, query, "all"))
  {
    FilterSplit(items,
      (item: Item) => Matches(item, query, "all"),
      (item: Item) => Matches(item, query, "lost"),
      (item: Item) => Matches(item, query, "found"));
  }

  /** A selector value other than "all", "lost" and "found" shows nothing. */
  lemma UnknownFilterShowsNothing(items: seq<Item>, query: string, filter: string)
    requires filter != "all" && filter != "lost" && filter != "found"
    ensures FilteredItems(items, query, filter) == []
  {
    FilterKeepsNone(items, (item: Item) => Matches(item, query, filter));
  }

  /** The ids of a list, in order: the keys the page renders the list by. */
  function Ids(items: seq<Item>): seq<int>
  {
    Map(items, (item: Item) => item.id)
  }

  /** With an empty search, only the selector decides. */
  lemma EmptySearchFiltersByType(items: seq<Item>, filter: string)
    ensures FilteredItems(items, "", filter) == Filter(items, (item: Item) => MatchesFilter(item, filter))
  {
    forall item | item in items ensures MatchesSearch(item, "") {
      IncludesEmpty(ToLower(item.title));
    }
    FilterCongruent(items, (item: Item) => Matches(item, "", filter), (item: Item) => MatchesFilter(item, filter));
  }

  /** A lower-case query that neither searched field contains is not matched. */
  lemma MissesSearch(item: Item, query: string)
    requires ToLower(query) == query
    requires !Includes(ToLower(item.title), query) && !Includes(ToLower(item.description), query)
    ensures !MatchesSearch(item, query)
  {
  }
}
