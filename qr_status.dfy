/**
 * The overlay-visibility flag (entrypoints/utils/qr-status.ts): a module
 * boolean mirrored to the `hideContents` key of `chrome.storage.local`
 * whenever that storage exists.
 */
module QrStatus {
  import opened Wrappers
  import opened ChromeStorage

  const HIDE_KEY := "hideContents"

  datatype StorageError = StorageUnavailable

  /** `data.hideContents ?? false`, given what `get(HIDE_KEY)` found. */
  function StoredFlag(stored: Option<Value>): (b: bool)
    ensures stored.None? ==> !b
    ensures stored.Some? && stored.value.Flag? ==> b == stored.value.b
  {
    if stored.Some? && stored.value.Flag? then stored.value.b else false
  }

  class QrStatusStore {
    /** The module variable `qrStatus`. */
    var qrStatus: bool
    /** `chrome.storage.local`, or null where `chrome.storage` is undefined. */
    const local: LocalArea?

    /** Module load: the flag starts false. */
    constructor (local: LocalArea?)
      ensures qrStatus == false && this.local == local
    {
      qrStatus := false;
      this.local := local;
    }

    /** `setQrStatus(status)`: sets the flag and, when storage exists, writes it. */
    method Set(status: bool)
      modifies this, local
      ensures qrStatus == status
      ensures local != null ==> local.entries == old(local.entries)[HIDE_KEY := Flag(status)]
    {
      qrStatus := status;
      if local != null {
        local.Set(HIDE_KEY, Flag(status));
      }
    }

    /** `getQrStatus()`: resolves to the stored flag (default false) and caches it; rejects without storage. */
    method Get() returns (r: Result<bool, StorageError>)
      modifies this
      ensures local == null ==> r == Err(StorageUnavailable) && qrStatus == old(qrStatus)
      ensures local != null ==> r == Ok(StoredFlag(local.Get(HIDE_KEY))) && qrStatus == r.value
    {
      if local != null {
        qrStatus := StoredFlag(local.Get(HIDE_KEY));
        r := Ok(qrStatus);
      } else {
        r := Err(StorageUnavailable);
      }
    }
  }

  /** With storage present, a get after a set of `s` resolves to `s`. */
  method SetThenGet(q: QrStatusStore, s: bool) returns (r: Result<bool, StorageError>)
    requires q.local != null
    modifies q, q.local
    ensures r == Ok(s) && q.qrStatus == s
  {
    q.Set(s);
    r := q.Get();
  }
}
