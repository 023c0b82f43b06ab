/**
 * The popup's "hide contents" checkbox (entrypoints/popup/components/CheckBox.tsx):
 * React state `isHidden`, loaded from the visibility flag on mount and
 * negated, with a write-through, on every click.
 */
module CheckBox {
  import opened ChromeStorage
  import opened QrStatus

  class HideContentsBox {
    var isHidden: bool
    const status: QrStatusStore

    constructor (status: QrStatusStore)
      ensures isHidden == false && this.status == status
    {
      isHidden := false;
      this.status := status;
    }

    /** The mount effect: awaits the flag; a rejection leaves the state as it was. */
    method Mount()
      modifies this, status
      ensures status.local != null ==> isHidden == StoredFlag(status.local.Get(HIDE_KEY))
      ensures status.local == null ==> isHidden == old(isHidden) && status.qrStatus == old(status.qrStatus)
      ensures isHidden == status.qrStatus || status.local == null
    {
      var r := status.Get();
      if r.Ok? {
        isHidden := r.value;
      }
    }

    /** `handleToggle`: stores the negation of `isHidden` and shows it. */
    method Toggle()
      modifies this, status, status.local
      ensures isHidden == !old(isHidden) && status.qrStatus == isHidden
      ensures status.local != null ==> status.local.entries == old(status.local.entries)[HIDE_KEY := Flag(isHidden)]
    {
      var newState := !isHidden;
      status.Set(newState);
      isHidden := newState;
    }
  }

  /** Two clicks restore the original state, and storage then holds that state. */
  method ToggleTwice(box: HideContentsBox)
    requires box.status.local != null
    modifies box, box.status, box.status.local
    ensures box.isHidden == old(box.isHidden)
    ensures StoredFlag(box.status.local.Get(HIDE_KEY)) == box.isHidden
  {
    box.Toggle();
    box.Toggle();
  }
}
