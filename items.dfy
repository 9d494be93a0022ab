/**
 The store-item handlers (controllers/items.controller.js): an admin-only
 listing and an admin-only delete that returns the deleted record.
 */
module Items {
  import opened Common
  import opened Entities

  /** `getStoreItems`: every item, for admins only; others get 403 (not 401). */
  function GetStoreItems(s: State, caller: Caller): (r: Response<map<Id, Item>>)
    ensures r.Failure? <==> !IsAdmin(caller)
    ensures r.Failure? ==> r.code == FORBIDDEN
    ensures r.Success? ==> r.body.Keys == s.items.Keys && forall id :: id in r.body ==> r.body[id] == s.items[id]
  {
    if !IsAdmin(caller) then Failure(FORBIDDEN) else Success(s.items)
  }

  /** `deleteItem`: removes the item under `id` and answers with the removed record. */
  function DeleteItem(s: State, caller: Caller, id: Id): (r: Step<Item>)
    ensures Valid(s) ==> Valid(r.state)
    ensures r.state.users == s.users && r.state.ecopontos == s.ecopontos
    ensures r.state.utilizacoes == s.utilizacoes && r.state.nextId == s.nextId
    ensures r.state.items.Keys <= s.items.Keys
    ensures r.response.Failure? ==> r.state == s
    ensures r.response.Success? ==> id in s.items && r.response.body == s.items[id]
  {
    if !IsAdmin(caller) then Step(s, Failure(FORBIDDEN))
    else if id !in s.items then Step(s, Failure(NOT_FOUND))
    else Step(s.(items := s.items - {id}), Success(s.items[id]))
  }

  /** A caller who is not an admin is refused with 403 and no item changes. */
  lemma DeleteItemNonAdmin(s: State, caller: Caller, id: Id)
    requires !IsAdmin(caller)
    ensures DeleteItem(s, caller, id) == Step(s, Failure(FORBIDDEN))
  {
  }

  /** Deleting a stored item removes exactly that item and answers with it. */
  lemma DeleteItemExisting(s: State, admin: Caller, id: Id)
    requires IsAdmin(admin) && id in s.items
    ensures var r := DeleteItem(s, admin, id);
      && r.response == Success(s.items[id])
      && id !in r.state.items
      && r.state.items.Keys == s.items.Keys - {id}
      && forall k :: k in r.state.items ==> r.state.items[k] == s.items[k]
  {
  }

  /** Deleting an id that is not stored answers 404 and changes nothing. */
  lemma DeleteItemMissing(s: State, admin: Caller, id: Id)
    requires IsAdmin(admin) && id !in s.items
    ensures DeleteItem(s, admin, id) == Step(s, Failure(NOT_FOUND))
  {
  }
}
