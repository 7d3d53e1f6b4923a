/** Types shared by every part of the model. */
module Common {

  /** Session ids, user ids and cookie values. The empty string stands for
      every falsy value the server tests with `!x` (undefined, null and ""),
      so a guard `if (!id) return null` is `if id == "" ...` here. */
  type Id = string

  datatype Option<+T> = None | Some(value: T)

  /** What awaiting a key-value store `get` yields. `Nothing` is the falsy
      value returned for a falsy key or a failed call; `Reply` is the store's
      reply object, which is truthy whether or not it holds an item. */
  datatype Lookup<+T> = Nothing | Reply(item: Option<T>)
  {
    /** The `?.Item` test the code applies before using a record. */
    predicate HasItem() { Reply? && item.Some? }
  }

  /** `getSession` of a store table (the user-session and the audio-session
      modules each define one, with the same code): null for a falsy id
      without reading the store, otherwise the store's reply, which holds
      the item exactly when the key is present. */
  function StoreGet<T>(items: map<Id, T>, id: Id): (r: Lookup<T>)
    ensures r.Nothing? <==> id == ""
    ensures r.HasItem() <==> id != "" && id in items
    ensures r.HasItem() ==> r.item.value == items[id]
  {
    if id == "" then Nothing
    else if id in items then Reply(Some(items[id]))
    else Reply(None)
  }
}
