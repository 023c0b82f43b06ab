/**
 * The background script's single-slot mailbox (entrypoints/background/index.ts).
 * Two runtime-message listeners share one string: `saveData` overwrites it,
 * `getData` replies with it. Every message reaches both listeners.
 */
module Coordinator {
  import opened Wrappers

  datatype Message = Message(action: string, data: string)

  const SAVE_ACTION := "saveData"
  const GET_ACTION := "getData"

  /** The slot after the messages `log` were delivered to a fresh mailbox. */
  function Stored(log: seq<Message>): string {
    if log == [] then ""
    else if log[|log| - 1].action == SAVE_ACTION then log[|log| - 1].data
    else Stored(log[..|log| - 1])
  }

  /** The slot never holds anything but the initial "" or data some save carried. */
  lemma {:induction false} StoredIsLastSave(log: seq<Message>)
    ensures (forall i :: 0 <= i < |log| ==> log[i].action != SAVE_ACTION) ==> Stored(log) == ""
    ensures (exists i :: 0 <= i < |log| && log[i].action == SAVE_ACTION) ==>
      exists i :: 0 <= i < |log| && log[i].action == SAVE_ACTION && Stored(log) == log[i].data &&
        forall j :: i < j < |log| ==> log[j].action != SAVE_ACTION
  {
    if log != [] {
      var init := log[..|log| - 1];
      StoredIsLastSave(init);
      if log[|log| - 1].action != SAVE_ACTION {
        if exists i :: 0 <= i < |log| && log[i].action == SAVE_ACTION {
          var k :| 0 <= k < |log| && log[k].action == SAVE_ACTION;
          assert init[k].action == SAVE_ACTION;
          var i :| 0 <= i < |init| && init[i].action == SAVE_ACTION && Stored(init) == init[i].data &&
            forall j :: i < j < |init| ==> init[j].action != SAVE_ACTION;
          assert log[i] == init[i];
        }
      }
    }
  }

  /** Messages that are not saves, `getData` ones included, leave the slot as it was. */
  lemma {:induction false} StoredIgnoresNonSaves(log: seq<Message>, tail: seq<Message>)
    requires forall j :: 0 <= j < |tail| ==> tail[j].action != SAVE_ACTION
    ensures Stored(log + tail) == Stored(log)
  {
    if tail == [] {
      assert log + tail == log;
    } else {
      var t := tail[..|tail| - 1];
      assert (log + tail)[..|log + tail| - 1] == log + t;
      assert (log + tail)[|log + tail| - 1] == tail[|tail| - 1];
      StoredIgnoresNonSaves(log, t);
    }
  }

  /** The reply a message gets from the two listeners, given the slot's value. */
  function Reply(m: Message, stored: string): (r: Option<string>)
    ensures r.Some? <==> m.action == GET_ACTION
    ensures r.Some? ==> r.value == stored
  {
    if m.action == GET_ACTION then Some(stored) else None
  }

  class Mailbox {
    var storedData: string
    /** Every message delivered so far, oldest first. */
    ghost var log: seq<Message>

    ghost predicate Valid()
      reads this
    {
      storedData == Stored(log)
    }

    constructor ()
      ensures Valid() && log == [] && storedData == ""
    {
      storedData := "";
      log := [];
    }

    /** Delivers `m` to the saving listener and then to the replying one. */
    method Deliver(m: Message) returns (reply: Option<string>)
      requires Valid()
      modifies this
      ensures Valid() && log == old(log) + [m]
      ensures storedData == (if m.action == SAVE_ACTION then m.data else old(storedData))
      ensures reply == Reply(m, storedData)
    {
      if m.action == SAVE_ACTION {
        storedData := m.data;
      }
      if m.action == GET_ACTION {
        reply := Some(storedData);
      } else {
        reply := None;
      }
      log := log + [m];
      assert log[..|log| - 1] == old(log);
    }
  }

  /** A get right after a save of `d` answers `d`, and a second get agrees. */
  method SaveThenGet(box: Mailbox, d: string) returns (first: Option<string>, second: Option<string>)
    requires box.Valid()
    modifies box
    ensures box.Valid() && box.storedData == d
    ensures first == Some(d) && second == Some(d)
  {
    var saved := box.Deliver(Message(SAVE_ACTION, d));
    assert saved == None;
    first := box.Deliver(Message(GET_ACTION, ""));
    second := box.Deliver(Message(GET_ACTION, ""));
  }
}
