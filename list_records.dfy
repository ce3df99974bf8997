/**
 * The in-memory shopping-list record of the list-detail view and the pure
 * transforms its handlers hand to `setShoppingList`.
 *
 * The records keep the source's key fields apart, each one possibly absent:
 * items fetched from the server carry `_id`, while an item appended locally
 * after a successful add carries `id`; fetched members carry `userId`, while a
 * member appended locally carries `id`. Delete and toggle match items on
 * `_id`, remove matches members on `userId`. The lemmas at the end of this
 * module state what follows from that.
 */
module ListRecords {

  import opened Wrappers
  import JsArray

  /** One entry of `items`. `underscoreId` is the record's `_id` key,
      `quantity` a server-side field that local appends do not set. */
  datatype Item = Item(
    underscoreId: Option<string>,
    id: Option<string>,
    name: string,
    purchased: bool,
    quantity: Option<int>)

  /** One entry of `members`. */
  datatype Member = Member(userId: Option<string>, id: Option<string>, name: string)

  /** The `shoppingList` state value (when it is not null). */
  datatype ShoppingList = ShoppingList(
    id: Option<string>,
    underscoreId: Option<string>,
    title: string,
    items: seq<Item>,
    members: seq<Member>)

  /** `{ id: rec._id, ...rec }`: the fetched record with an `id` key that
      copies `_id`, unless the record brings an `id` of its own, which the
      spread writes over it. */
  function FromFetched(rec: ShoppingList): (l: ShoppingList)
    ensures rec.id.None? ==> l.id == rec.underscoreId
    ensures rec.id.Some? ==> l.id == rec.id
    ensures l.(id := rec.id) == rec
  {
    var withId := rec.(id := rec.underscoreId);
    if rec.id.Some? then withId.(id := rec.id) else withId
  }

  /** The add-item updater: `{...prev, items: [...prev.items, {id: itemId,
      name, purchased: false}]}`. The new item has no `_id` and no quantity,
      and keeps the name exactly as given. */
  function WithItemAdded(prev: ShoppingList, itemId: Option<string>, name: string): (next: ShoppingList)
    ensures next.(items := prev.items) == prev
    ensures |next.items| == |prev.items| + 1
    ensures next.items[..|prev.items|] == prev.items
    ensures next.items[|prev.items|] == Item(None, itemId, name, false, None)
  {
    prev.(items := prev.items + [Item(None, itemId, name, false, None)])
  }

  /** The delete-item updater: `prev.items.filter(item => item._id !==
      itemId)`. Every item whose `_id` equals `itemId` goes (absent equals
      absent), every other item stays, in order and as often as before. */
  function WithItemDeleted(prev: ShoppingList, itemId: Option<string>): (next: ShoppingList)
    ensures next.(items := prev.items) == prev
    ensures forall it :: it in next.items <==> it in prev.items && it.underscoreId != itemId
    ensures JsArray.IsSubsequence(next.items, prev.items)
  {
    var keep := (it: Item) => it.underscoreId != itemId;
    JsArray.FilterIsSubsequence(prev.items, keep);
    prev.(items := JsArray.Filter(prev.items, keep))
  }

  /** A delete keeps every copy of every item with another `_id`. */
  lemma DeleteKeepsOthers(prev: ShoppingList, itemId: Option<string>, it: Item)
    requires it.underscoreId != itemId
    ensures multiset(WithItemDeleted(prev, itemId).items)[it] == multiset(prev.items)[it]
  {
    JsArray.FilterCount(prev.items, (x: Item) => x.underscoreId != itemId, it);
  }

  /** `item._id === itemId ? { ...item, purchased: status } : item`. */
  /** Only `purchased` may change; it becomes `status` exactly when the
      item's `_id` equals `itemId`. */
  function Toggled(item: Item, itemId: Option<string>, status: bool): (r: Item)
    ensures r.(purchased := item.purchased) == item
    ensures r.purchased == if item.underscoreId == itemId then status else item.purchased
  {
    if item.underscoreId == itemId then item.(purchased := status) else item
  }

  /** The toggle-item updater: `prev.items.map(...)` with `Toggled`. Same
      length; an item whose `_id` equals `itemId` gets `purchased` set to
      `status` (not flipped) with every other field kept; any other item is
      unchanged. */
  function WithItemToggled(prev: ShoppingList, itemId: Option<string>, status: bool): (next: ShoppingList)
    ensures next.(items := prev.items) == prev
    ensures |next.items| == |prev.items|
    ensures forall i :: 0 <= i < |prev.items| && prev.items[i].underscoreId == itemId ==>
      next.items[i] == prev.items[i].(purchased := status)
    ensures forall i :: 0 <= i < |prev.items| && prev.items[i].underscoreId != itemId ==>
      next.items[i] == prev.items[i]
  {
    prev.(items := JsArray.Map(prev.items, (it: Item) => Toggled(it, itemId, status)))
  }

  /** The add-member updater: `{...prev, members: [...prev.members, {id:
      memberId, name: `User ${memberId}`}]}`. The new member has no `userId`. */
  function WithMemberAdded(prev: ShoppingList, memberId: string): (next: ShoppingList)
    ensures next.(members := prev.members) == prev
    ensures |next.members| == |prev.members| + 1
    ensures next.members[..|prev.members|] == prev.members
    ensures next.members[|prev.members|] == Member(None, Some(memberId), "User " + memberId)
  {
    prev.(members := prev.members + [Member(None, Some(memberId), "User " + memberId)])
  }

  /** The remove-member updater: `prev.members.filter(member =>
      member.userId !== memberId)`. */
  function WithMemberRemoved(prev: ShoppingList, memberId: Option<string>): (next: ShoppingList)
    ensures next.(members := prev.members) == prev
    ensures forall m :: m in next.members <==> m in prev.members && m.userId != memberId
    ensures JsArray.IsSubsequence(next.members, prev.members)
  {
    var keep := (m: Member) => m.userId != memberId;
    JsArray.FilterIsSubsequence(prev.members, keep);
    prev.(members := JsArray.Filter(prev.members, keep))
  }

  /** A removal keeps every copy of every member with another `userId`. */
  lemma RemoveKeepsOthers(prev: ShoppingList, memberId: Option<string>, m: Member)
    requires m.userId != memberId
    ensures multiset(WithMemberRemoved(prev, memberId).members)[m] == multiset(prev.members)[m]
  {
    JsArray.FilterCount(prev.members, (x: Member) => x.userId != memberId, m);
  }

  // ----- Properties relating several updates -----

  /** Setting `purchased` is an assignment: repeating it changes nothing. */
  lemma ToggleIdempotent(l: ShoppingList, itemId: Option<string>, status: bool)
    ensures WithItemToggled(WithItemToggled(l, itemId, status), itemId, status)
         == WithItemToggled(l, itemId, status)
  {
    var once := WithItemToggled(l, itemId, status);
    var twice := WithItemToggled(once, itemId, status);
    assert twice.items == once.items;
  }

  /** Of two toggles of the same key, the later status wins. */
  lemma ToggleLastWins(l: ShoppingList, itemId: Option<string>, first: bool, second: bool)
    ensures WithItemToggled(WithItemToggled(l, itemId, first), itemId, second)
         == WithItemToggled(l, itemId, second)
  {
    var a := WithItemToggled(WithItemToggled(l, itemId, first), itemId, second);
    var b := WithItemToggled(l, itemId, second);
    assert a.items == b.items;
  }

  /** Deleting the same key twice is deleting it once. */
  lemma DeleteIdempotent(l: ShoppingList, itemId: Option<string>)
    ensures WithItemDeleted(WithItemDeleted(l, itemId), itemId) == WithItemDeleted(l, itemId)
  {
    JsArray.FilterIdempotent(l.items, (it: Item) => it.underscoreId != itemId);
  }

  /** A locally added item is keyed by `id`, so a delete that passes the
      server-issued id does not remove it: it is still the last item. */
  lemma DeleteByServerIdKeepsAddedItem(l: ShoppingList, itemId: string, name: string)
    ensures var added := WithItemAdded(l, Some(itemId), name);
      var after := WithItemDeleted(added, Some(itemId));
      |after.items| > 0 && after.items[|after.items| - 1] == added.items[|l.items|]
  {
    var keep := (it: Item) => it.underscoreId != Some(itemId);
    var local := Item(None, Some(itemId), name, false, None);
    JsArray.FilterAppend(l.items, [local], keep);
  }

  /** The delete button passes `item._id`, absent for a local item; a delete
      with an absent key removes every local item at once. When all earlier
      items came from the server (each with an `_id`), adding an item and
      deleting it this way restores the list. */
  lemma AddThenDeleteUndefinedRestores(l: ShoppingList, itemId: Option<string>, name: string)
    requires forall i :: 0 <= i < |l.items| ==> l.items[i].underscoreId.Some?
    ensures WithItemDeleted(WithItemAdded(l, itemId, name), None) == l
  {
    var keep := (it: Item) => it.underscoreId != None;
    JsArray.FilterAppend(l.items, [Item(None, itemId, name, false, None)], keep);
    JsArray.FilterKeepsAll(l.items, keep);
  }

  /** A toggle that passes the server-issued id leaves a locally added item
      untouched (still not purchased). */
  lemma ToggleByServerIdMissesAddedItem(l: ShoppingList, itemId: string, name: string, status: bool)
    ensures var added := WithItemAdded(l, Some(itemId), name);
      WithItemToggled(added, Some(itemId), status).items[|l.items|] == added.items[|l.items|]
  {
  }

  /** A locally added member is keyed by `id`, so removing it by the member
      id it was added with leaves it in place. */
  lemma RemoveByMemberIdKeepsAddedMember(l: ShoppingList, memberId: string)
    ensures var added := WithMemberAdded(l, memberId);
      var after := WithMemberRemoved(added, Some(memberId));
      |after.members| > 0 && after.members[|after.members| - 1] == added.members[|l.members|]
  {
    var keep := (m: Member) => m.userId != Some(memberId);
    JsArray.FilterAppend(l.members, [Member(None, Some(memberId), "User " + memberId)], keep);
  }

  /** The remove button passes `member.userId`, absent for a local member.
      When all earlier members came from the server (each with a `userId`),
      adding a member and removing it this way restores the list. */
  lemma AddThenRemoveUndefinedRestores(l: ShoppingList, memberId: string)
    requires forall i :: 0 <= i < |l.members| ==> l.members[i].userId.Some?
    ensures WithMemberRemoved(WithMemberAdded(l, memberId), None) == l
  {
    var keep := (m: Member) => m.userId != None;
    JsArray.FilterAppend(l.members, [Member(None, Some(memberId), "User " + memberId)], keep);
    JsArray.FilterKeepsAll(l.members, keep);
  }
}
