# Campus hub list queries

This project models the list-query logic of two pages of a campus web portal:

- **Lost & Found.** The page holds six hard-coded item reports. Each has an id, a title, a description, a location, a type ("lost" or "found"), a date and an optional image. A search box and a type selector ("all", "lost", "found") narrow the list. An item is shown when its title or its description, lower-cased, contains the lower-cased query, and the selector is "all" or equals the item's type. Shown items keep their list order.
- **Notices.** The page holds seven hard-coded notices. Each has an id, a title, content, a category, an author, a date and the flags isNew and isPinned. A search box (title or content) and a category selector ("All" or one of five categories) narrow the list in the same way.
  - The page sorts a copy of the narrowed list. Pinned notices come first, and within each group the later date comes first.
  - Each notice is drawn with a badge style looked up from a table keyed by its category.

Modules:

- `Text` (text.dfy): ASCII lower-casing and substring search. These model `toLowerCase` and `includes`.
- `Filtering` (filtering.dfy): the order-preserving `filter` of a sequence, with its general laws.
- `LostFound` (lost_found.dfy): the item record, the two match tests, `FilteredItems`, and the laws of the item query.
- `LostFoundList` (lost_found_list.dfy): the six items exactly as the page lists them, and the results of concrete queries over them.
- `Notices` (notices.dfy): categories, the badge-style table and `BadgeColor`, the notice record and `FilteredNotices`.
  - It also holds the comparator `Compare` and its specification `StableSort`, a stable insertion sort by the comparator.
  - The in-place array sort `SortInPlace` and `SortedNotices` model `[...filteredNotices].sort(cmp)`. `SortedNotices` copies into a fresh array, sorts the copy, and leaves the filtered list untouched.
- `NoticesList` (notices_list.dfy): the seven notices exactly as the page lists them, and the order of the start page.

Notes on how the code is read:

- The search test has no separate "query is empty" case. It always calls `includes`, and `IncludesEmpty` shows that every text includes "". So an empty query matches everything.
- The category selector and the type selector are free strings compared with `===`. A value that names no category or type shows nothing (`UnknownCategoryShowsNothing`, `UnknownFilterShowsNothing`).
- The badge table is a string-keyed record, not a table over the category enumeration. It is modelled as `map<string, string>`, and `CategoryColorsTotal` shows that every category name is a key.
- Dates are the calendar date as the integer yyyymmdd. The comparator returns `b.date - a.date` on those integers. That value is not the millisecond difference, but it has the same sign, and the sign is all that `sort` reads.

## Model

| member | source | states |
|---|---|---|
| Text.Includes | src/pages/LostFound.tsx:88-89 | `String.prototype.includes`: the query occurs in the text at some position from 0 to the length difference |
| Text.ToLower | src/pages/LostFound.tsx:88-89 | the lower-cased string has the same length and lower-cases every position (ASCII letters only) |
| Text.ToLowerIffEqualUpToCase | src/pages/LostFound.tsx:88-89 | two strings lower-case to the same string exactly when they agree position by position up to letter case |
| Text.ToLowerIdempotent | src/pages/LostFound.tsx:88-89 | lower-casing an already lower-cased string changes nothing |
| Text.IncludesEmpty | src/pages/LostFound.tsx:88-89 | every text includes the empty query, so an empty search box matches |
| Text.IncludesChar | src/pages/LostFound.tsx:88-89 | a one-character query is included exactly when that character occurs in the text |
| Text.ExcludesLetter | src/pages/LostFound.tsx:88-89 | if a letter of the query occurs in neither case in the text, the lower-cased text does not include the query |
| Text.ExcludesLetterPair | src/pages/LostFound.tsx:88-89 | if no occurrence of the query's letter pair, in either case, is adjacent in the text, the lower-cased text does not include the query |
| Filtering.Filter | src/pages/LostFound.tsx:86 | `Array.prototype.filter`: the elements that pass the test, first to last; never longer than the input |
| Filtering.Map | src/pages/LostFound.tsx:186-187 | `Array.prototype.map`: the result has the input's length and holds the function's value of each element at the same position |
| Filtering.FilterIsSubsequence | src/pages/LostFound.tsx:86 | `filter` keeps a subsequence of its input, in input order |
| Filtering.FilterMembers | src/pages/LostFound.tsx:86 | an element is in the filtered list exactly when it is in the input and passes the test |
| Filtering.FilterMultiplicity | src/pages/LostFound.tsx:86 | a passing element occurs as often as in the input, a failing one not at all |
| Filtering.FilterIdempotent | src/pages/LostFound.tsx:86 | filtering twice by the same test equals filtering once |
| Filtering.FilterSplit | src/pages/LostFound.tsx:86 | filtering by two disjoint tests whose union is a third gives, together, the third's result as a multiset |
| LostFound.MatchesSearch | src/pages/LostFound.tsx:87-89 | `matchesSearch`: the lower-cased title or the lower-cased description includes the lower-cased query |
| LostFound.MatchesFilter | src/pages/LostFound.tsx:90 | `matchesFilter`: the selector is "all" or equals the item's type name |
| LostFound.Matches | src/pages/LostFound.tsx:91 | an item passes when it passes both tests |
| LostFound.FilteredItems | src/pages/LostFound.tsx:86-92 | `filteredItems`: the list filtered by `Matches` for the current query and selector |
| LostFound.FilteredItemsIsSubsequence | src/pages/LostFound.tsx:86-92 | the shown items are a subsequence of the list: order kept, nothing added or repeated |
| LostFound.FilteredItemsSoundComplete | src/pages/LostFound.tsx:87-91 | an item is shown exactly when it is listed, its lower-cased title or description includes the lower-cased query, and the selector is "all" or its type |
| LostFound.FilteredItemsMultiplicity | src/pages/LostFound.tsx:86-92 | a matching item is shown as often as it is listed, a non-matching one never |
| LostFound.InitialStateShowsAll | src/pages/LostFound.tsx:82-92 | with the initial state (empty search, "all") every item is shown, in order |
| LostFound.SearchIgnoresCase | src/pages/LostFound.tsx:88-89 | queries that differ only in letter case give the same list |
| LostFound.LocationIgnored | src/pages/LostFound.tsx:87-91 | changing an item's location never changes whether it matches |
| LostFound.RefilterChangesNothing | src/pages/LostFound.tsx:86-92 | applying the same query to the shown list again returns it unchanged |
| LostFound.LostAndFoundPartitionAll | src/pages/LostFound.tsx:90 | for any query, the "lost" and "found" results together are the "all" result, as a multiset |
| LostFound.UnknownFilterShowsNothing | src/pages/LostFound.tsx:90 | a selector value other than "all", "lost" or "found" shows nothing |
| LostFound.EmptySearchFiltersByType | src/pages/LostFound.tsx:86-92 | with an empty query the result is the list filtered by the type selector alone |
| LostFound.Ids | src/pages/LostFound.tsx:186-187 | the ids of a list in order, the keys the page renders the items by (a `Map` by `id`) |
| LostFoundList.LostFoundItems | src/pages/LostFound.tsx:24-79 | the six item reports, with the page's ids, titles, descriptions, locations, types, dates and images, in the page's order |
| LostFoundList.LostItemsOnStart | src/pages/LostFound.tsx:24-92 | with an empty search and "lost", the page shows items 2, 4 and 6 |
| LostFoundList.FoundItemsOnStart | src/pages/LostFound.tsx:24-92 | with an empty search and "found", the page shows items 1, 3 and 5 |
| LostFoundList.BlueUmbrellaMatchesUmbrella | src/pages/LostFound.tsx:25-33 | "umbrella" matches the title "Blue Umbrella" of item 1 |
| LostFoundList.UmbrellaFindsOnlyItemOne | src/pages/LostFound.tsx:24-92 | the query "umbrella" with "all" shows exactly item 1 |
| LostFoundList.HostelFindsNothing | src/pages/LostFound.tsx:70-92 | item 6's location is "Hostel Block A", yet "hostel" with "all" shows nothing, because location is not searched |
| Notices.Categories | src/pages/Notices.tsx:7 | the selector options "All", "Academic", "Hostel", "Clubs", "Placement", "General", in the page's order |
| Notices.CategoryColors | src/pages/Notices.tsx:82-88 | the badge style of each of the five categories |
| Notices.CategoryColorsTotal | src/pages/Notices.tsx:82-88 | every category has a badge style; the style table's keys are exactly the selector options other than "All" |
| Notices.BadgeColor | src/pages/Notices.tsx:168 | a notice's badge style is the table entry for its category, and that entry exists |
| Notices.MatchesSearch | src/pages/Notices.tsx:95-97 | `matchesSearch`: the lower-cased title or the lower-cased content includes the lower-cased query |
| Notices.MatchesCategory | src/pages/Notices.tsx:98 | `matchesCategory`: the selector is "All" or equals the notice's category name |
| Notices.Matches | src/pages/Notices.tsx:99 | a notice passes when it passes both tests |
| Notices.FilteredNotices | src/pages/Notices.tsx:94-100 | `filteredNotices`: the list filtered by `Matches` for the current query and selector |
| Notices.FilteredNoticesIsSubsequence | src/pages/Notices.tsx:94-100 | the shown notices are a subsequence of the list, in list order |
| Notices.FilteredNoticesSoundComplete | src/pages/Notices.tsx:95-99 | a notice is shown exactly when listed, its lower-cased title or content includes the lower-cased query, and the selector is "All" or its category; multiplicities are kept |
| Notices.InitialStateShowsAllNotices | src/pages/Notices.tsx:91-100 | with the initial state (empty search, "All") every notice is shown in list order |
| Notices.NoticeSearchIgnoresCase | src/pages/Notices.tsx:96-97 | queries that differ only in letter case give the same notices |
| Notices.UnknownCategoryShowsNothing | src/pages/Notices.tsx:98 | a selector value that is neither "All" nor a category shows nothing |
| Notices.Compare | src/pages/Notices.tsx:103-107 | negative exactly when a is pinned and b not, or both share a pin flag and a is later; zero exactly on the same flag and date; positive in the mirror cases |
| Notices.CompareConsistent | src/pages/Notices.tsx:103-107 | the comparator is antisymmetric in sign and transitive, as a sort comparator must be |
| Notices.Sorted | src/pages/Notices.tsx:103-107 | a list is in comparator order: no notice stands after one that the comparator puts before it |
| Notices.Insert | src/pages/Notices.tsx:103 | one insertion step of the sort: `x` moves left past the notices it precedes and stops behind the first one it does not |
| Notices.StableSort | src/pages/Notices.tsx:103 | the result of `sort` with the comparator: each notice of the input inserted in turn into the sorted prefix |
| Notices.InsertPermutes | src/pages/Notices.tsx:103 | inserting x adds exactly x to the multiset |
| Notices.StableSortPermutes | src/pages/Notices.tsx:103 | the sorted list is a permutation of the input |
| Notices.InsertSorted | src/pages/Notices.tsx:103-107 | inserting into a sorted list keeps it sorted |
| Notices.StableSortSorted | src/pages/Notices.tsx:103-107 | the output is ordered by the comparator |
| Notices.InsertTied | src/pages/Notices.tsx:103 | insertion keeps the relative order of notices with equal sort keys |
| Notices.StableSortTied | src/pages/Notices.tsx:103 | the sort is stable: notices with equal keys keep their input order |
| Notices.SortedOrder | src/pages/Notices.tsx:104-106 | in a sorted list, every pinned notice comes before every unpinned one, and adjacent notices with the same pin flag have non-increasing dates |
| Notices.StableSortSpec | src/pages/Notices.tsx:102-107 | the sort output is a permutation, sorted, pinned first, and stable |
| Notices.SortedTiedUnique | src/pages/Notices.tsx:103 | two sorted lists with the same tie classes are equal |
| Notices.StableSortUnique | src/pages/Notices.tsx:103 | any sorted list with the input's tie classes is the sort's output, so every stable sort by this comparator gives the same order |
| Notices.InsertAt | src/pages/Notices.tsx:103 | insertion puts x after the last notice it does not precede |
| Notices.InsertInPlace | src/pages/Notices.tsx:103 | shifting a[i] left in place leaves a[..i+1] equal to the insertion of old a[i] into old a[..i], with the rest unchanged |
| Notices.SortInPlace | src/pages/Notices.tsx:103-107 | the array is sorted in place to the stable sort of its old contents |
| Notices.SortedNotices | src/pages/Notices.tsx:102-107 | the result is a fresh array holding the stable sort of the filtered list; it is a permutation, sorted and stable, and the filtered list is unchanged |
| NoticesList.NoticeList | src/pages/Notices.tsx:9-80 | the seven notices, with the page's ids, titles, contents, categories, authors, dates and flags, in the page's order |
| NoticesList.Ids | src/pages/Notices.tsx:150-152 | the ids of a list in order, the keys the page renders the notices by (a `Map` by `id`) |
| NoticesList.SortSeven | src/pages/Notices.tsx:102-107 | for seven notices where only the first and third are pinned, the first is not older than the third, and the rest have non-increasing dates, the sort moves the third to second place |
| NoticesList.NoticesOnStart | src/pages/Notices.tsx:9-107 | on start (empty search, "All") the page shows notices 1, 3, 2, 4, 5, 6, 7 |

## Left out

- Rendering is not modelled: JSX, icons, layout, CSS classes other than the badge table, the empty-list message and `isNew` badges. The fields `isNew`, `author`, the item `date` and the `image` are carried in the records but never read by the queries.
- React state (`useState`, `onChange`, `onClick`, `onValueChange`) is not modelled. The current query and selector values are parameters of the query functions.
- The "report lost or found item" dialog (src/pages/LostFound.tsx:105-156) is not modelled. Its submit button has no handler, so it adds nothing to the list.
- src/pages/Signup.tsx is not part of this model. It is a form with no list logic.
- Date display (`toLocaleDateString`) is not modelled.
- Date parsing (`new Date(...).getTime()`) is replaced by yyyymmdd integers. Every date on the page is a valid ISO date, so the NaN case of an unparsable date does not arise and is not modelled.
- The JavaScript engine's `sort` algorithm cannot be seen from the source. It is specified here by a stable insertion sort. `StableSortUnique` shows that every stable sort by this comparator produces the same list.
- Text.ToLower: folds only the ASCII letters A–Z. JavaScript's `toLowerCase` also folds non-ASCII letters, and a few of those change the string's length. Every string on the page is ASCII, but the typed query need not be: JavaScript lower-cases some non-ASCII characters to ASCII letters (U+212A KELVIN SIGN becomes `k`), so such a query can match an item or notice in the page and matches nothing in the model.
- Notices.Compare: returns the difference of yyyymmdd integers, not of milliseconds. The sign is the same for valid dates, and the sign is all that `sort` reads.
