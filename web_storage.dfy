/** The browser's `localStorage`: string items under string keys. Every access throws
    when storage is disabled or blocked, which `available` records. */
module WebStorage {
  import opened Wrappers
  import opened JsValue

  /** The exception a blocked storage throws. */
  const StorageUnavailable: Exception := Error("The operation is insecure.")

  class Storage {
    var items: map<string, string>
    var available: bool

    constructor (initial: map<string, string>, accessible: bool)
      ensures items == initial && available == accessible
    {
      items := initial;
      available := accessible;
    }

    /** `getItem(k)`: the stored string, `None` (null) for a missing key, or the error. */
    function GetItem(k: string): Result<Option<string>, Exception>
      reads this
    {
      if !available then Err(StorageUnavailable)
      else if k in items then Ok(Some(items[k]))
      else Ok(None)
    }

    /** `setItem(k, v)`. */
    method SetItem(k: string, v: string) returns (r: Result<(), Exception>)
      modifies this
      ensures available == old(available)
      ensures old(available) ==> r == Ok(()) && items == old(items)[k := v]
      ensures !old(available) ==> r == Err(StorageUnavailable) && items == old(items)
    {
      if !available {
        return Err(StorageUnavailable);
      }
      items := items[k := v];
      return Ok(());
    }

    /** `removeItem(k)`. */
    method RemoveItem(k: string) returns (r: Result<(), Exception>)
      modifies this
      ensures available == old(available)
      ensures old(available) ==> r == Ok(()) && items == old(items) - {k}
      ensures !old(available) ==> r == Err(StorageUnavailable) && items == old(items)
    {
      if !available {
        return Err(StorageUnavailable);
      }
      items := items - {k};
      return Ok(());
    }
  }
}
