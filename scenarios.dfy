/**
 * Clients of the list-detail view that drive it through short user
 * sessions, for all inputs, using only the handlers' contracts. The
 * keys passed to the delete, toggle and remove handlers are read from the
 * rendered records, as the buttons do (`item._id`, `member.userId`).
 */
module Scenarios {

  import opened Wrappers
  import opened ListRecords
  import opened ShoppingListDetail
  import JsString
  import JsArray

  /** A whitespace-only name sends no request and leaves the list and the
      input as they were. */
  method RefuseBlankItem(listId: string, user: string, fetched: ShoppingList, blank: string)
    returns (sent: bool, list: Option<ShoppingList>, input: string)
    requires listId != ""
    requires forall i :: 0 <= i < |blank| ==> JsString.IsWhitespace(blank[i])
    ensures !sent
    ensures list == Some(FromFetched(fetched)) && input == blank
  {
    var view := new ShoppingListDetailView(Some(listId), Some(user));
    sent := view.LoadShoppingList(Success(fetched));
    view.SetNewItem(blank);
    sent := view.HandleAddItem(Success(Some("unused")));
    list, input := view.shoppingList, view.newItem;
  }

  /** Open a list fetched with no items and add a name: it ends up as the
      only item, under the server-issued id and not yet purchased, and the
      input is cleared. */
  method AddItem(listId: string, user: string, fetched: ShoppingList, name: string, itemId: string)
    returns (items: seq<Item>, input: string)
    requires listId != "" && fetched.items == []
    requires !JsString.IsBlank(name)
    ensures items == [Item(None, Some(itemId), name, false, None)]
    ensures input == ""
  {
    var view := new ShoppingListDetailView(Some(listId), Some(user));
    var sent := view.LoadShoppingList(Success(fetched));
    view.SetNewItem(name);
    sent := view.HandleAddItem(Success(Some(itemId)));
    items, input := view.shoppingList.value.items, view.newItem;
  }

  /** Tick the unpurchased local item, then delete it, each with the
      arguments its row passes (`item._id`, `!item.purchased`): the item is
      first purchased, then gone. */
  method TickAndDelete(view: ShoppingListDetailView, local: Item) returns (ticked: seq<Item>, items: seq<Item>)
    requires view.currentUser.Some? && view.shoppingList.Some?
    requires local.underscoreId.None? && !local.purchased
    requires view.shoppingList.value.items == [local]
    modifies view
    ensures ticked == [local.(purchased := true)]
    ensures items == []
  {
    var sent := view.HandleToggleItem(local.underscoreId, !local.purchased, Success(()));
    ticked := view.shoppingList.value.items;
    sent := view.HandleDeleteItem(ticked[0].underscoreId, Success(()));
    items := view.shoppingList.value.items;
    JsArray.SubsequenceLength(items, ticked);
  }

  /** Open a list fetched with no members and add a member id: the list
      shows the synthesized member. */
  method AddMember(listId: string, user: string, fetched: ShoppingList, memberId: string)
    returns (members: seq<Member>)
    requires listId != "" && fetched.members == []
    requires !JsString.IsBlank(memberId)
    ensures members == [Member(None, Some(memberId), "User " + memberId)]
  {
    var view := new ShoppingListDetailView(Some(listId), Some(user));
    var sent := view.LoadShoppingList(Success(fetched));
    view.SetNewMemberId(memberId);
    sent := view.HandleAddMember(Success(()));
    members := view.shoppingList.value.members;
  }

  /** Removing a synthesized member by its member id leaves it in place (it
      has no `userId`); removing it with the key its row passes takes it
      away. */
  method RemoveMember(view: ShoppingListDetailView, memberId: string) returns (afterById: seq<Member>, afterByRow: seq<Member>)
    requires view.currentUser.Some? && view.shoppingList.Some?
    requires view.shoppingList.value.members == [Member(None, Some(memberId), "User " + memberId)]
    modifies view
    ensures afterById == [Member(None, Some(memberId), "User " + memberId)]
    ensures afterByRow == []
  {
    var synthesized := Member(None, Some(memberId), "User " + memberId);
    var sent := view.HandleRemoveMember(Some(memberId), Success(()));
    afterById := view.shoppingList.value.members;
    JsArray.SubsequenceLength(afterById, [synthesized]);
    assert synthesized in afterById;

    sent := view.HandleRemoveMember(synthesized.userId, Success(()));
    afterByRow := view.shoppingList.value.members;
    JsArray.SubsequenceLength(afterByRow, afterById);
  }

  /** Leaving the list returns the view to Loading; a rejected leave keeps it
      loaded. */
  method LeaveList(listId: string, user: string, fetched: ShoppingList) returns (afterRejected: ViewPhase, afterLeave: ViewPhase)
    requires listId != ""
    ensures afterRejected == Loaded
    ensures afterLeave == Loading
  {
    var view := new ShoppingListDetailView(Some(listId), Some(user));
    var sent := view.LoadShoppingList(Success(fetched));
    sent := view.HandleLeaveList(Failure);
    afterRejected := view.CurrentPhase();
    sent := view.HandleLeaveList(Success(()));
    afterLeave := view.CurrentPhase();
  }
}
