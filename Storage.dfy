/** The browser's `localStorage`, shared by the login form and the app shell. */
module Storage {
  import opened Wrappers

  const UserIdKey := "userId"
  const NicknameKey := "userNickname"

  class LocalStore {
    var items: map<string, string>

    constructor (items: map<string, string>)
      ensures this.items == items
    {
      this.items := items;
    }

    /** `getItem`: null for a missing key. */
    function GetItem(key: string): Option<string>
      reads this
    {
      if key in items then Some(items[key]) else None
    }

    method SetItem(key: string, value: string)
      modifies this
      ensures items == old(items)[key := value]
    {
      items := items[key := value];
    }

    method RemoveItem(key: string)
      modifies this
      ensures items == old(items) - {key}
    {
      items := items - {key};
    }
  }

  /** `if (value)`: null and the empty string are both falsy. */
  predicate Truthy(v: Option<string>) {
    v.Some? && v.value != ""
  }
}
