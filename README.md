# Shopping-list detail view: a Dafny model

This project models the list-detail view of a shared-shopping-list browser
client (`src/components/ShoppingListDetail.js`). The view holds three pieces of
state:

- `shoppingList`: the list record, or null while the view is loading;
- `newItem`: the text of the add-item input;
- `newMemberId`: the text of the add-member input.

It reads the list id from the route and the current user from the user
context. Each handler guards its input, awaits one API call and, only when
the call resolves, hands a pure transform to `setShoppingList`: append,
filter by key, map with assignment, or reset to null. A rejected call leaves
the state as it was.

The model has six modules:

- `Wrappers` (wrappers.dfy): the `Option` type, for a property that may be
  absent (`undefined`).
- `JsString` (js_string.dfy): `String.prototype.trim` and the add handlers'
  guard `!s.trim()`. The guard holds exactly when the input is whitespace
  alone, the empty input included.
- `JsArray` (js_array.dfy): `Array.prototype.filter` and `map` as recursive
  functions on sequences. The lemmas say a filter keeps exactly the passing
  elements, in their order and multiplicity, and distributes over
  concatenation.
- `ListRecords` (list_records.dfy): the item, member and list records, and the
  updater transforms the handlers pass to `setShoppingList`.
- `ShoppingListDetail` (detail_view.dfy): the component as the class
  `ShoppingListDetailView`. Its fields are the state above. It has one method
  per handler, and each API call is replaced by its outcome, given as a
  parameter.
- `Scenarios` (scenarios.dfy): clients that drive the class through short
  sessions, for all inputs.

Item and member keys are kept per field, each one possibly absent:

- Items fetched from the server carry `_id`. An item appended after a
  successful add carries `id` (line 49). Delete and toggle match on `_id`
  (lines 63 and 76).
- Members fetched from the server carry `userId`. A member appended after a
  successful add carries `id` (line 94). Remove matches on `userId` (line 107).

The model states the consequences rather than hiding them. A delete or toggle
called with the server-issued item id misses the locally added item. A remove
called with the member id misses the locally added member. The buttons pass
`item._id` and `member.userId`, which are absent for local entries. A call
with an absent key therefore hits every local entry at once.

Further behaviour of the code that the model keeps:

- Delete and toggle match on `_id`, and remove matches on `userId`. Neither
  matches the `id` key that a local entry is stored under.
- Adding a member and then removing it by its member id leaves it in place.
  Adding and then removing restores the member list only when the removal
  passes the row's key (absent) and no other local member exists.
- The add guards trim the input, but the raw, untrimmed input is stored.
- The load effect's guard is `id && currentUser`, so an empty route id also
  blocks the fetch.

## Model

| member | source | states |
|---|---|---|
| `JsString.Trim` | src/components/ShoppingListDetail.js:41 | `s.trim()` is the slice of `s` between its leading and trailing whitespace; it is empty exactly when every character of `s` is whitespace, and otherwise neither begins nor ends with whitespace |
| `JsString.IsBlank` | src/components/ShoppingListDetail.js:41 | the guard `!newItem.trim()` (and `!newMemberId.trim()` at line 85) holds exactly when every character of the input is whitespace, the empty input included |
| `JsArray.Filter` | src/components/ShoppingListDetail.js:61-64 | `filter` keeps an element exactly when it is in the input and passes the test, and is never longer than its input |
| `JsArray.FilterIsSubsequence` | src/components/ShoppingListDetail.js:63 | what `filter` keeps stays in its original relative order |
| `JsArray.FilterCount` | src/components/ShoppingListDetail.js:63 | every passing element is kept as often as it occurs; every failing one is gone |
| `JsArray.FilterAppend` | src/components/ShoppingListDetail.js:107 | filtering distributes over concatenation |
| `JsArray.FilterKeepsAll` | src/components/ShoppingListDetail.js:107 | a filter that every element passes returns its input |
| `JsArray.FilterIdempotent` | src/components/ShoppingListDetail.js:63 | filtering twice with the same test equals filtering once |
| `JsArray.Map` | src/components/ShoppingListDetail.js:75-77 | `map` returns one result per element, position by position |
| `ListRecords.FromFetched` | src/components/ShoppingListDetail.js:26-29 | the loaded record is the fetched one with `id` set to `_id`, unless the record has its own `id`, which wins; nothing else changes |
| `ListRecords.WithItemAdded` | src/components/ShoppingListDetail.js:45-51 | the add-item updater appends exactly one item at the end, `{id: itemId, name, purchased: false}` with no `_id` and no quantity; earlier items and all other fields are unchanged |
| `ListRecords.WithItemDeleted` | src/components/ShoppingListDetail.js:61-64 | the delete updater leaves an item exactly when it was there and its `_id` differs from the key (an absent key matches absent `_id`s); survivors keep their order; nothing but `items` changes |
| `ListRecords.DeleteKeepsOthers` | src/components/ShoppingListDetail.js:63 | every copy of an item with another `_id` survives a delete |
| `ListRecords.Toggled` | src/components/ShoppingListDetail.js:76 | the map callback changes only `purchased`, and sets it to the new status exactly when the item's `_id` equals the key; other items come back unchanged |
| `ListRecords.WithItemToggled` | src/components/ShoppingListDetail.js:73-78 | the toggle updater keeps the length; each item whose `_id` matches gets `purchased` set to the new status with its other fields kept; every other item is unchanged |
| `ListRecords.WithMemberAdded` | src/components/ShoppingListDetail.js:92-95 | the add-member updater appends exactly one member `{id: memberId, name: "User " + memberId}` with no `userId`; earlier members and all other fields are unchanged |
| `ListRecords.WithMemberRemoved` | src/components/ShoppingListDetail.js:105-108 | the remove updater leaves a member exactly when it was there and its `userId` differs from the key; survivors keep their order; nothing but `members` changes |
| `ListRecords.RemoveKeepsOthers` | src/components/ShoppingListDetail.js:107 | every copy of a member with another `userId` survives a removal |
| `ListRecords.ToggleIdempotent` | src/components/ShoppingListDetail.js:76 | toggling is an assignment: applying the same toggle twice equals applying it once |
| `ListRecords.ToggleLastWins` | src/components/ShoppingListDetail.js:76 | of two toggles of the same key, the later status wins |
| `ListRecords.DeleteIdempotent` | src/components/ShoppingListDetail.js:63 | deleting the same key twice equals deleting it once |
| `ListRecords.DeleteByServerIdKeepsAddedItem` | src/components/ShoppingListDetail.js:49-63 | after an add, a delete with the server-issued item id leaves the added item in place as the last item |
| `ListRecords.ToggleByServerIdMissesAddedItem` | src/components/ShoppingListDetail.js:49-76 | after an add, a toggle with the server-issued item id leaves the added item untouched |
| `ListRecords.AddThenDeleteUndefinedRestores` | src/components/ShoppingListDetail.js:45-64 | when every earlier item has an `_id`, adding an item and deleting with the absent key its row passes restores the list |
| `ListRecords.RemoveByMemberIdKeepsAddedMember` | src/components/ShoppingListDetail.js:94-107 | after an add, removing by the same member id leaves the synthesized member in place as the last member |
| `ListRecords.AddThenRemoveUndefinedRestores` | src/components/ShoppingListDetail.js:92-108 | when every earlier member has a `userId`, adding a member and removing with the absent key its row passes restores the list |
| `ShoppingListDetail.ShoppingListDetailView.constructor` | src/components/ShoppingListDetail.js:15-20 | the mounted view starts with a null list and empty inputs |
| `ShoppingListDetail.ShoppingListDetailView.CurrentPhase` | src/components/ShoppingListDetail.js:129 | the view shows "Loading" exactly when `shoppingList` is null |
| `ShoppingListDetail.ShoppingListDetailView.CanLoad` | src/components/ShoppingListDetail.js:35 | the effect guard `id && currentUser` holds exactly when the route id is present and non-empty (a truthy string) and a current user is present |
| `ShoppingListDetail.ShoppingListDetailView.LoadShoppingList` | src/components/ShoppingListDetail.js:22-38 | the fetch is sent exactly when the route id is non-empty and there is a current user; a resolved fetch replaces the list wholesale; a rejected one changes nothing |
| `ShoppingListDetail.ShoppingListDetailView.ChangeUser` | src/components/ShoppingListDetail.js:35-38 | a change of current user re-runs the load effect, and a switch to the same user does not |
| `ShoppingListDetail.ShoppingListDetailView.SetNewItem` | src/components/ShoppingListDetail.js:155 | typing sets the item input |
| `ShoppingListDetail.ShoppingListDetailView.SetNewMemberId` | src/components/ShoppingListDetail.js:175 | typing sets the member input |
| `ShoppingListDetail.ShoppingListDetailView.HandleAddItem` | src/components/ShoppingListDetail.js:40-56 | a blank input or a missing user sends nothing and changes nothing; on success the item is appended with the raw input as its name and the input is cleared; on failure the list and the input are unchanged; the view stays loaded |
| `ShoppingListDetail.ShoppingListDetailView.HandleDeleteItem` | src/components/ShoppingListDetail.js:58-68 | on success the list becomes the delete updater's result; on failure or with no user it is unchanged |
| `ShoppingListDetail.ShoppingListDetailView.HandleToggleItem` | src/components/ShoppingListDetail.js:70-82 | on success the list becomes the toggle updater's result; on failure or with no user it is unchanged |
| `ShoppingListDetail.ShoppingListDetailView.HandleAddMember` | src/components/ShoppingListDetail.js:84-100 | a blank input or a missing user sends nothing and changes nothing; on success the synthesized member is appended and the input cleared; on failure both are unchanged |
| `ShoppingListDetail.ShoppingListDetailView.HandleRemoveMember` | src/components/ShoppingListDetail.js:102-112 | on success the list becomes the remove updater's result; on failure or with no user it is unchanged |
| `ShoppingListDetail.ShoppingListDetailView.HandleLeaveList` | src/components/ShoppingListDetail.js:114-127 | on success the list becomes null (Loading) and the inputs are untouched; on failure nothing changes |
| `Scenarios.RefuseBlankItem` | src/components/ShoppingListDetail.js:41 | a whitespace-only item name sends no request and leaves the loaded list and the input as they were |
| `Scenarios.AddItem` | src/components/ShoppingListDetail.js:44-52 | adding a name to an empty list yields exactly `[{id: itemId, name, purchased: false}]` and clears the input |
| `Scenarios.TickAndDelete` | src/components/ShoppingListDetail.js:145-147 | ticking an unpurchased local item and then deleting it, with the arguments its row passes (`item._id`, `!item.purchased`), leaves it first purchased, then gone |
| `Scenarios.AddMember` | src/components/ShoppingListDetail.js:91-96 | adding a member id to a list with no members yields exactly the synthesized member |
| `Scenarios.RemoveMember` | src/components/ShoppingListDetail.js:104-108 | removing a synthesized member by its member id keeps it; removing it with its row's key empties the member list |
| `Scenarios.LeaveList` | src/components/ShoppingListDetail.js:114-129 | a rejected leave keeps the view loaded; an acknowledged one returns it to Loading |

## Left out

- JSX rendering and CSS (lines 131-182): only the fact that a null list renders "Loading..." is kept, as `CurrentPhase`.
- The API module and the user context are not part of this model. Each API call is its outcome (`Response`, with the issued item id or the fetched record as its data). The current user is an optional user id. The route id is an optional string.
- The request arguments (list id, item id, quantity 1, user id) go to the server and change no local state, so they are not modelled.
- Interleaving of async responses is not modelled: each handler runs atomically from its guard to its state update. A late response that updates a view the user has left, and rapid double submission, are therefore not covered.
- `console.log`, `console.error` and `alert` are I/O and change no state.
- A fetch response without a `shoppingList` field, which throws inside the `try` and changes nothing, is not modelled; the fetched record is the response data.
- Records carry a fixed set of fields (`_id`, `id`, title, name, `purchased`, quantity, `userId`). Other fields a server record may carry, which the spreads copy along unchanged, are not represented.
- The item and member handlers require a loaded list, because their buttons are rendered only then (line 129). Calling them with a null list, where the updater itself would throw, is not modelled.
