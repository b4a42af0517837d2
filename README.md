# Doctor listing page: filter, sort, autocomplete and query-string sync

A Dafny model of the logic inside the React component `DoctorListPage`
(`App.jsx`). The page fetches a list of doctor records once. It narrows the
list by a case-insensitive name search, a consultation type and a set of
specialties (any one of which may match), and can sort it by fees (lowest
first) or by experience (highest first). It offers up to three name
suggestions, and it mirrors every selection into the address's query string
so that a view can be shared and later restored.

Modules:

- `Seqs`: `Keep`, which models `Array.prototype.filter`, and its laws:
  membership, concatenation, composing two filters, and the identity case.
- `Directory`: the `Doctor` record and the `Filters` state. Also ASCII
  `Lower`, `Includes` (`String.prototype.includes`), and the three filter
  stages, each of which is inactive when its selection is empty.
- `Sorting`: the two comparators (`a.fees - b.fees`,
  `b.experience - a.experience`). `SortBy` is a stable insertion sort that
  serves as the specification. The lemmas prove it sorted, a permutation and
  stable. They also prove it is the only sorted, stable rearrangement, so
  every stable sort gives the same result.
- `SortArray`: the in-place sort of the copied array (`data.sort(...)`),
  proved equal to `SortBy`.
- `FilterEngine`: `applyFilters` as a method that narrows stage by stage and
  then sorts. It is proved equal to `Displayed`, which is defined as one
  filter by the conjunction of the active stages followed by the sort.
- `Autocomplete`: the suggestion list (`filter(...).slice(0, 3)`).
- `QuerySync`: the `URLSearchParams` store from the WHATWG URL Standard,
  section 6.2, modelled as a list of name-value pairs. It defines `get`,
  `getAll`, `set`, `delete` and `append`, the method `updateQueryParams`, and
  the state seeding done at load.
- `ViewModel`: the `DoctorListPage` class, holding the component's state
  fields and one method per handler. Its invariant `Valid()` says two things.
  Reading the store back the way the component seeds itself gives the current
  state. The displayed list is `Displayed` of that state.
- `Scenarios`: example sessions over two doctors (Alice Smith and Bob Lee),
  worked through the model.

## Model

| member | source | states |
|---|---|---|
| `Seqs.Keep` | App.jsx:47 | `Array.prototype.filter`, used at lines 47, 50, 53, 68 and 83; its contract says only that the result is no longer than the input, and its meaning is stated by `Seqs.KeepMembers` and the lemmas below |
| `Seqs.KeepMembers` | App.jsx:47 | a record is kept by `filter` exactly when it is in the input and passes the predicate |
| `Seqs.KeepAppend` | App.jsx:47 | filtering a concatenation is the concatenation of the filtered parts |
| `Seqs.KeepKeep` | App.jsx:46-54 | two filters applied one after the other equal one filter by the conjunction of their predicates |
| `Seqs.KeepAll` | App.jsx:45-54 | a filter that every element passes returns its input unchanged, so a stage that accepts everything is harmless |
| `Seqs.KeepSame` | App.jsx:46-54 | filters whose predicates agree on every element give the same list |
| `Directory.LowerChar` | App.jsx:47 | `toLowerCase` on one ASCII character: the result is never an upper-case letter, an upper-case letter becomes a lower-case one, and every other character is unchanged |
| `Directory.Lower` | App.jsx:47 | `toLowerCase` on a string, character by character; the result has the input's length |
| `Directory.Includes` | App.jsx:47 | `String.prototype.includes`; definition, no contract (characterised by `Directory.IncludesAt`) |
| `Directory.NameMatches` | App.jsx:47 | the search predicate, lower-cased name contains lower-cased text; definition, no contract |
| `Directory.SharesSpecialty` | App.jsx:53 | `specialties.some(spec => doc.specialties.includes(spec))`; definition, no contract |
| `Directory.NameStage` | App.jsx:46-48 | the name stage, a pass-through when the search is empty; definition, no contract |
| `Directory.TypeStage` | App.jsx:49-51 | the consultation stage, a pass-through when no type is chosen; definition, no contract |
| `Directory.SpecialtyStage` | App.jsx:52-54 | the specialty stage, a pass-through when nothing is selected; definition, no contract |
| `Directory.Admits` | App.jsx:46-54 | a record passes all three stages; definition, no contract (its use is stated by `FilterEngine.DisplayedSpec`) |
| `Directory.IncludesAt` | App.jsx:47 | `includes` holds exactly when the needle is a prefix of some suffix of the haystack; the empty needle is always included |
| `Sorting.Compare` | App.jsx:56-58 | the comparators `a.fees - b.fees` and `b.experience - a.experience`; definition, no contract |
| `Sorting.Sorted` | App.jsx:55-59 | no later element compares below an earlier one; definition, no contract |
| `Sorting.Ties` | App.jsx:55-59 | the elements that compare equal to one record, in order; definition, no contract |
| `Sorting.Insert` | App.jsx:55-59 | one insertion step of the specification sort; definition, no contract (stated by `Sorting.InsertTies` and the lemmas on `SortBy`) |
| `Sorting.SortBy` | App.jsx:55-59 | the stable sort by a comparator; definition, no contract (stated by `Sorting.SortBySorted`, `Sorting.SortByPermutes`, `Sorting.SortByStable` and `Sorting.StableSortUnique`) |
| `Sorting.SortByPermutes` | App.jsx:55-59 | the sorted list is a permutation of its input (same multiset) |
| `Sorting.SortBySorted` | App.jsx:55-59 | in the sorted list, no later element compares below an earlier one under the selected comparator |
| `Sorting.SortByStable` | App.jsx:55-59 | for every record y, the records that compare equal to y appear in the same relative order before and after sorting (stability) |
| `Sorting.InsertTies` | App.jsx:55-59 | inserting one element adds it to the end of its own tie group and changes no other tie group |
| `Sorting.SortBySortedIdentity` | App.jsx:55-59 | sorting a list that is already in comparator order leaves it unchanged |
| `Sorting.SortedTiesDetermine` | App.jsx:55-59 | two sorted lists with the same tie groups are equal |
| `Sorting.StableSortUnique` | App.jsx:55-59 | any list in comparator order whose tie groups match the input's equals `SortBy` of the input, so every stable sort returns the same list |
| `SortArray.InsertBelowRun` | App.jsx:56 | inserting below a run of elements that compare above the new one leaves that run, unchanged, after it |
| `SortArray.InsertNext` | App.jsx:56 | one insertion pass on the array turns the sorted prefix plus the next element into that prefix with the element inserted, and leaves the rest of the array alone |
| `SortArray.SortInPlace` | App.jsx:55-59 | sorting the array in place leaves in it exactly `SortBy` of its old contents |
| `SortArray.SortData` | App.jsx:55-59 | sorting a copy of `data` gives `SortBy(data)` |
| `FilterEngine.AdmittedBy` | App.jsx:46-54 | the conjunction of the active stages as one predicate; definition, no contract |
| `FilterEngine.Passing` | App.jsx:45-54 | the copied list narrowed by every active stage; definition, no contract |
| `FilterEngine.Arranged` | App.jsx:55-59 | sort by fees, by experience, or keep the order for any other sort string; definition, no contract |
| `FilterEngine.Displayed` | App.jsx:44-61 | the list `applyFilters` returns; definition, no contract (stated by `FilterEngine.DisplayedSpec`, `FilterEngine.DisplayedStable` and `FilterEngine.DisplayedIdempotent`) |
| `FilterEngine.ApplyFilters` | App.jsx:44-61 | the staged narrowing plus the optional sort returns exactly `Displayed`: the records passing every active stage, then sorted by the selected key |
| `FilterEngine.DisplayedSpec` | App.jsx:44-60 | the result is no longer than the fetched list and holds exactly the records that pass every active stage. With no known sort key it is their subsequence in fetch order. Otherwise it is a permutation of that subsequence: fees non-decreasing for `fees`, experience non-increasing for `experience` |
| `FilterEngine.DisplayedStable` | App.jsx:55-59 | under `fees` or `experience`, records that compare equal keep their fetch order |
| `FilterEngine.DisplayedIdempotent` | App.jsx:44-61 | applying the filters again to the displayed list, under the same state, gives the same list |
| `Autocomplete.MatchesText` | App.jsx:68 | the suggestion predicate, the same test as the name stage; definition, no contract |
| `Autocomplete.Matching` | App.jsx:68 | `doctors.filter(...)` before the slice; definition, no contract |
| `Autocomplete.Suggestions` | App.jsx:67-72 | empty text gives no suggestions. Otherwise the result is the first min(3, #matches) records, in fetch order, whose lower-cased name contains the lower-cased text. The other filters play no part, and every suggestion is a fetched record that matches |
| `Autocomplete.SuggestionsLeadDisplay` | App.jsx:46-48 | the suggestions are a prefix of the list the page displays for the same text when every other filter and the sort are cleared |
| `QuerySync.GetAll` | App.jsx:21 | `getAll`, the values of every pair with the name, in order; definition, no contract (stated by `QuerySync.GetAllAppend` and the lemmas below) |
| `QuerySync.GetOrEmpty` | App.jsx:18 | `get(key)`, defaulting to the empty string when it is null; definition, no contract |
| `QuerySync.Delete` | App.jsx:36 | `delete`; definition, no contract (stated by `QuerySync.DeleteSpec`) |
| `QuerySync.Append` | App.jsx:37 | `append`; definition, no contract (stated by `QuerySync.AppendSpec`) |
| `QuerySync.ReplaceFirst` | App.jsx:39 | the present-key branch of `set`; definition, no contract (stated by `QuerySync.ReplaceFirstSpec`) |
| `QuerySync.Set` | App.jsx:39 | `set`; definition, no contract (stated by `QuerySync.SetSpec` and `QuerySync.SetInPlace`) |
| `QuerySync.Tagged` | App.jsx:37 | the pairs the `forEach` appends; definition, no contract (stated by `QuerySync.TaggedSpec`) |
| `QuerySync.Written` | App.jsx:33-42 | the store `updateQueryParams` hands to the router; definition, no contract (stated by `QuerySync.WrittenSpec` and `QuerySync.WrittenOthers`) |
| `QuerySync.Seed` | App.jsx:18-22 | the state the four `useState` initialisers read from a store; definition, no contract |
| `QuerySync.WriteBack` | App.jsx:33-42 | all four fields of the seeded state written back in turn; definition, no contract (stated by `QuerySync.SeedRoundTrip`) |
| `QuerySync.Get` | App.jsx:18 | `get` returns null exactly when `getAll` is empty, and otherwise the first value `getAll` returns |
| `QuerySync.GetAllAppend` | App.jsx:37 | `getAll` over two stores laid end to end is the concatenation of their `getAll` results |
| `QuerySync.DeleteSpec` | App.jsx:36 | after `delete(key)` no pair is called `key`, and every other name reads as before |
| `QuerySync.AppendSpec` | App.jsx:37 | `append(key, v)` adds `v` at the end of `getAll(key)` and changes no other name |
| `QuerySync.DeleteTwice` | App.jsx:36 | deleting a key twice is the same as deleting it once |
| `QuerySync.ReplaceFirstSpec` | App.jsx:39 | replacing the first pair called `key` leaves exactly one pair called `key`, holding the new value, and the other pairs as they were, in order |
| `QuerySync.SetSpec` | App.jsx:39 | after `set(key, v)` exactly one pair is called `key` and it holds `v`; the pairs with other names are unchanged and in the same order |
| `QuerySync.ReplaceFirstAt` | App.jsx:39 | replacing the first pair called `key` writes the new value at that pair's position and leaves the pairs before it as they were |
| `QuerySync.SetInPlace` | App.jsx:39 | when `key` is present, `set` writes at the position of its first pair and leaves the pairs before it as they were |
| `QuerySync.TaggedSpec` | App.jsx:37 | the pairs appended for a list read back under `getAll(key)` as that list, in order, and hold no other name |
| `QuerySync.WrittenSpec` | App.jsx:33-42 | pairs with other names are untouched, in order. In list mode `getAll(key)` afterwards is the given list. A non-empty string leaves exactly one pair for `key` and `get(key)` gives it. An empty string leaves no pair for `key` |
| `QuerySync.WrittenOthers` | App.jsx:33-42 | `get` and `getAll` of every other name are the same before and after `updateQueryParams` |
| `QuerySync.UpdateQueryParams` | App.jsx:33-42 | the method (delete and an append loop for a list; `set` or `delete` for a string) returns exactly the store `Written` describes |
| `QuerySync.ReadBack` | App.jsx:18-22 | reading a written key the way the page seeds itself (`get(key)` defaulting to the empty string, or `getAll`) gives back the value written |
| `QuerySync.SeedRoundTrip` | App.jsx:18-22 | seeding the state from a store and writing every field back gives a store that seeds the same state and reads the same under every other name |
| `ViewModel.Without` | App.jsx:83 | `specialties.filter(s => s !== value)`; definition, no contract |
| `ViewModel.Toggled` | App.jsx:81-84 | membership of the toggled value flips. Removing that value from the old and new lists gives the same list, so no other entry changes or moves. An absent value is appended at the end |
| `ViewModel.ToggleTwice` | App.jsx:81-84 | toggling an absent value on and then off restores the original selection |
| `ViewModel.KeepsSeed` | App.jsx:33-42 | writing one of the page's four keys changes only that field of the seeded state, and sets it to the value written |
| `ViewModel.DoctorListPage.State` | App.jsx:18-22 | the four filter fields as one `Filters` value; definition, no contract |
| `ViewModel.DoctorListPage.Valid` | App.jsx:28-31 | the class invariant: the store seeds the current state, and the displayed list is `Displayed` of it; definition, no contract |
| `ViewModel.DoctorListPage.constructor` | App.jsx:15-22 | the first render seeds search, consultation and sort from `get(...)` defaulting to the empty string and specialties from `getAll`. The doctor, suggestion and displayed lists start empty, and the invariant holds |
| `ViewModel.DoctorListPage.Refresh` | App.jsx:28-31 | the effect replaces the displayed list with `Displayed` of the current records and state |
| `ViewModel.DoctorListPage.ReceiveDoctors` | App.jsx:24-26 | the resolved fetch replaces the records and recomputes the displayed list. The filter state, the store and the suggestions are unchanged |
| `ViewModel.DoctorListPage.HandleSearchChange` | App.jsx:63-73 | the search becomes the typed text and the `search` key is written with it. The suggestions become `Suggestions(doctors, text)`. The invariant is kept |
| `ViewModel.DoctorListPage.HandleSuggestionClick` | App.jsx:75-79 | the search becomes exactly the clicked name, the `search` key is written with it, the suggestions are cleared and the invariant is kept |
| `ViewModel.DoctorListPage.ToggleSpecialty` | App.jsx:81-87 | the selection becomes `Toggled(old, value)`, the `specialties` key is rewritten in list mode with the new list and the invariant is kept |
| `ViewModel.DoctorListPage.ChooseConsultation` | App.jsx:129-145 | either radio button's `onChange` (lines 129-132 and 142-145) sets the consultation and writes the `consultation` key, keeping the invariant |
| `ViewModel.DoctorListPage.ChooseSort` | App.jsx:174-190 | either radio button's `onChange` (lines 174-177 and 187-190) sets the sort and writes the `sort` key, keeping the invariant |
| `Scenarios.ByConsultation` | App.jsx:49-51 | with the two example doctors, choosing "Video Consult" displays only Bob Lee |
| `Scenarios.ByFeesAndExperience` | App.jsx:55-59 | with the two example doctors, sorting by fees and sorting by experience both give Bob Lee before Alice Smith |
| `Scenarios.BySpecialties` | App.jsx:52-54 | selecting "Dentist" and "Cardiologist" displays both example doctors (the specialties match with OR) |
| `Scenarios.SuggestBob` | App.jsx:67-69 | typing "bob" suggests Bob Lee alone |
| `Scenarios.TypeAndPick` | App.jsx:63-79 | on a page with both doctors fetched, typing "bob" and then clicking the suggestion leaves the search "Bob Lee", no suggestions, and `get('search')` returning "Bob Lee" |

## Left out

- The `axios.get` fetch (App.jsx:24-26) is network I/O. `ReceiveDoctors` takes the resolved list as a parameter. A failed fetch never calls it, so the list stays empty.
- React's `useState`, `useEffect` scheduling and batching (App.jsx:15-31) are framework reactivity. Each handler calls `Refresh` itself, in place of the effect that reruns `applyFilters` whenever its inputs change.
- `useSearchParams` and `setSearchParams` (App.jsx:3, 15, 41) are router and history integration. Only the pair list is modelled. Each handler assigns the new list to `params`; navigation, history entries and the query string's text encoding are left out. The invariant `ViewModel.DoctorListPage.Valid` (store seeds state) relies on this: in the component the `useState` initialisers at App.jsx:18-22 run on mount only, while `updateQueryParams` copies the router's current `searchParams` (App.jsx:34). A Back or Forward step changes the query string without re-seeding the state, so the filters shown can then disagree with the address, and the next handler computes the value it writes from that stale state. This is an observation about the source, not executed, and the model does not cover it.
- All JSX rendering, CSS classes and `data-testid` strings (App.jsx:89-220), including the regular-expression replaces at App.jsx:157, are UI.
- JavaScript number semantics are left out. `fees` and `experience` are unbounded integers, so the comparator subtraction is exact. There is no floating point and no string coercion.
- `toLowerCase` is modelled for ASCII letters only. Unicode case mapping is a library detail.
- The specialty list `specialtiesList` (App.jsx:7-12) feeds only the checkboxes. The code never checks a selected value against it, so there is nothing about it to prove.
- The sort algorithm inside the JavaScript engine is not modelled. The model sorts by insertion. `Sorting.StableSortUnique` shows that every stable sort with the same comparator gives the same list.
- Suggestions are not recomputed when the fetch resolves, because the component does not recompute them. Suggestions derived from a search seeded from the address stay empty until the user types.
- Selected specialties are an array, as in the code, not a set. It may hold repeats read from the address. Consultation and sort values are plain strings, not closed enumerations, and any other sort string leaves fetch order.
- `QuerySync.SeedRoundTrip`: the round trip is stated as "seeds the same state and reads the same under other names", not as equality of stores. Writing back can legitimately change the stored list: an empty `search=` pair is dropped, repeated single-valued keys collapse to one pair, and the `specialties` pairs move to the end.
