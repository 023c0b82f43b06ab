/**
 * `chrome.storage.local`, the extension's key-value store shared by the popup
 * and the content script. Values are the three shapes the core writes.
 * Writes are modelled as immediate; change notification and asynchrony are
 * not part of this model.
 */
module ChromeStorage {
  import opened Wrappers

  datatype Value = Flag(b: bool) | Str(s: string) | TextList(items: seq<string>)

  class LocalArea {
    var entries: map<string, Value>

    constructor (initial: map<string, Value>)
      ensures entries == initial
    {
      entries := initial;
    }

    /** `chrome.storage.local.get(key)`: the stored value, if any. */
    function Get(key: string): (r: Option<Value>)
      reads this
      ensures r.Some? <==> key in entries
      ensures r.Some? ==> entries[key] == r.value
    {
      if key in entries then Some(entries[key]) else None
    }

    /** `chrome.storage.local.set({key: v})` merges one key into the store. */
    method Set(key: string, v: Value)
      modifies this
      ensures entries == old(entries)[key := v]
      ensures Get(key) == Some(v)
    {
      entries := entries[key := v];
    }
  }
}
