/**
 * The list-detail view as a state machine: the component's three pieces of
 * state (`shoppingList`, `newItem`, `newMemberId`), the route's list id and
 * the current user taken from the user context, and one method per handler.
 *
 * Each awaited API call is replaced by its outcome, passed in as a
 * parameter; a handler is atomic (it runs from its guard to its state update
 * without another handler in between). A handler reads `currentUser.id`
 * before the call, so with no current user the read throws, the request is
 * never sent and nothing changes; every method returns whether the request
 * was sent.
 */
module ShoppingListDetail {

  import opened Wrappers
  import opened ListRecords
  import JsString

  /** The outcome of one awaited API call: resolved with the response data,
      or rejected. */
  datatype Response<T> = Success(data: T) | Failure

  /** A call whose response carries nothing the view reads. */
  type Ack = Response<()>

  /** What the component renders: a null `shoppingList` shows "Loading...". */
  datatype ViewPhase = Loading | Loaded

  class ShoppingListDetailView {
    /** The `:id` route parameter. */
    const id: Option<string>
    /** The id of the user the user context currently provides. */
    var currentUser: Option<string>
    var shoppingList: Option<ShoppingList>
    var newItem: string
    var newMemberId: string

    /** The mounted component, before its load effect has completed. */
    constructor (id: Option<string>, currentUser: Option<string>)
      ensures this.id == id && this.currentUser == currentUser
      ensures shoppingList == None && newItem == "" && newMemberId == ""
    {
      this.id := id;
      this.currentUser := currentUser;
      shoppingList := None;
      newItem := "";
      newMemberId := "";
    }

    function CurrentPhase(): (p: ViewPhase)
      reads this
      ensures p == Loading <==> shoppingList.None?
    {
      if shoppingList.None? then Loading else Loaded
    }

    /** The effect's guard `id && currentUser`: the route id is a truthy
        string (present and non-empty) and a user is present. */
    predicate CanLoad()
      reads this
      ensures CanLoad() <==> id.Some? && |id.value| > 0 && currentUser.Some?
    {
      id.Some? && id.value != "" && currentUser.Some?
    }

    /** The load effect: when the guard holds, fetch the list and, if the
        fetch resolves, replace `shoppingList` wholesale with the fetched
        record; a rejected fetch leaves the state as it was. */
    method LoadShoppingList(response: Response<ShoppingList>) returns (called: bool)
      modifies this`shoppingList
      ensures called == CanLoad()
      ensures shoppingList ==
        if called && response.Success? then Some(FromFetched(response.data)) else old(shoppingList)
      ensures called && response.Success? ==> CurrentPhase() == Loaded
    {
      called := CanLoad();
      if called && response.Success? {
        shoppingList := Some(FromFetched(response.data));
      }
    }

    /** The user context provides another user. The effect depends on
        `currentUser`, so it runs again only when the user really changes. */
    method ChangeUser(user: Option<string>, response: Response<ShoppingList>) returns (called: bool)
      modifies this`currentUser, this`shoppingList
      ensures currentUser == user
      ensures called == (user != old(currentUser) && CanLoad())
      ensures shoppingList ==
        if called && response.Success? then Some(FromFetched(response.data)) else old(shoppingList)
    {
      var changed := user != currentUser;
      currentUser := user;
      called := false;
      if changed {
        called := LoadShoppingList(response);
      }
    }

    /** Typing into the item input. */
    method SetNewItem(value: string)
      modifies this`newItem
      ensures newItem == value
    {
      newItem := value;
    }

    /** Typing into the member input. */
    method SetNewMemberId(value: string)
      modifies this`newMemberId
      ensures newMemberId == value
    {
      newMemberId := value;
    }

    /** `handleAddItem`: a blank input sends nothing and changes nothing.
        Otherwise, once the server resolves with an item id, the item is
        appended under that id with the raw, untrimmed input as its name
        and the input is cleared; on a rejection the list and the input stay
        as they were. */
    method HandleAddItem(response: Response<Option<string>>) returns (called: bool)
      requires shoppingList.Some?
      modifies this`shoppingList, this`newItem
      ensures called == (!JsString.IsBlank(old(newItem)) && currentUser.Some?)
      ensures shoppingList ==
        if called && response.Success?
        then Some(WithItemAdded(old(shoppingList).value, response.data, old(newItem)))
        else old(shoppingList)
      ensures newItem == if called && response.Success? then "" else old(newItem)
      ensures CurrentPhase() == Loaded
    {
      called := false;
      if JsString.IsBlank(newItem) {
        return;
      }
      if currentUser.None? {
        return;
      }
      called := true;
      if response.Success? {
        shoppingList := Some(WithItemAdded(shoppingList.value, response.data, newItem));
        newItem := "";
      }
    }

    /** `handleDeleteItem(itemId)`: once the server acknowledges, every item
        whose `_id` equals `itemId` is removed. */
    method HandleDeleteItem(itemId: Option<string>, response: Ack) returns (called: bool)
      requires shoppingList.Some?
      modifies this`shoppingList
      ensures called == currentUser.Some?
      ensures shoppingList ==
        if called && response.Success?
        then Some(WithItemDeleted(old(shoppingList).value, itemId))
        else old(shoppingList)
      ensures CurrentPhase() == Loaded
    {
      called := currentUser.Some?;
      if called && response.Success? {
        shoppingList := Some(WithItemDeleted(shoppingList.value, itemId));
      }
    }

    /** `handleToggleItem(itemId, newStatus)`: once the server acknowledges,
        every item whose `_id` equals `itemId` gets `purchased := newStatus`. */
    method HandleToggleItem(itemId: Option<string>, newStatus: bool, response: Ack) returns (called: bool)
      requires shoppingList.Some?
      modifies this`shoppingList
      ensures called == currentUser.Some?
      ensures shoppingList ==
        if called && response.Success?
        then Some(WithItemToggled(old(shoppingList).value, itemId, newStatus))
        else old(shoppingList)
      ensures CurrentPhase() == Loaded
    {
      called := currentUser.Some?;
      if called && response.Success? {
        shoppingList := Some(WithItemToggled(shoppingList.value, itemId, newStatus));
      }
    }

    /** `handleAddMember`: a blank input sends nothing and changes nothing.
        Otherwise, once the server acknowledges, a member synthesized from
        the raw input is appended and the input is cleared; on a rejection
        the list and the input stay as they were. */
    method HandleAddMember(response: Ack) returns (called: bool)
      requires shoppingList.Some?
      modifies this`shoppingList, this`newMemberId
      ensures called == (!JsString.IsBlank(old(newMemberId)) && currentUser.Some?)
      ensures shoppingList ==
        if called && response.Success?
        then Some(WithMemberAdded(old(shoppingList).value, old(newMemberId)))
        else old(shoppingList)
      ensures newMemberId == if called && response.Success? then "" else old(newMemberId)
      ensures CurrentPhase() == Loaded
    {
      called := false;
      if JsString.IsBlank(newMemberId) {
        return;
      }
      if currentUser.None? {
        return;
      }
      called := true;
      if response.Success? {
        shoppingList := Some(WithMemberAdded(shoppingList.value, newMemberId));
        newMemberId := "";
      }
    }

    /** `handleRemoveMember(memberId)`: once the server acknowledges, every
        member whose `userId` equals `memberId` is removed. */
    method HandleRemoveMember(memberId: Option<string>, response: Ack) returns (called: bool)
      requires shoppingList.Some?
      modifies this`shoppingList
      ensures called == currentUser.Some?
      ensures shoppingList ==
        if called && response.Success?
        then Some(WithMemberRemoved(old(shoppingList).value, memberId))
        else old(shoppingList)
      ensures CurrentPhase() == Loaded
    {
      called := currentUser.Some?;
      if called && response.Success? {
        shoppingList := Some(WithMemberRemoved(shoppingList.value, memberId));
      }
    }

    /** `handleLeaveList`: once the server acknowledges, `shoppingList`
        becomes null and the view is back in its Loading phase; a rejection
        changes nothing. The inputs are not touched either way. */
    method HandleLeaveList(response: Ack) returns (called: bool)
      modifies this`shoppingList
      ensures called == currentUser.Some?
      ensures shoppingList == if called && response.Success? then None else old(shoppingList)
      ensures called && response.Success? ==> CurrentPhase() == Loading
    {
      called := currentUser.Some?;
      if called && response.Success? {
        shoppingList := None;
      }
    }
  }
}
