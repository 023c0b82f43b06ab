/**
 * The content script's demo overlay (entrypoints/content/App.tsx): a list of
 * messages grown by a button, rendered a second time with each entry placed
 * 30 px below the previous one.
 */
module ContentApp {

  const GREETING := "Hello, World!"
  const LINE_HEIGHT := 30

  /** One positioned entry: its text and its CSS `top` in pixels. */
  datatype Placement = Placement(text: string, top: int)

  /** The second `message.map`: entry `i` at `top: i * 30px`. */
  function Placements(messages: seq<string>): (ps: seq<Placement>)
    ensures |ps| == |messages|
    ensures forall i :: 0 <= i < |ps| ==> ps[i].text == messages[i]
    ensures ps != [] ==> ps[0].top == 0
    ensures forall i :: 0 <= i < |ps| - 1 ==> ps[i + 1].top == ps[i].top + LINE_HEIGHT
  {
    seq(|messages|, i requires 0 <= i < |messages| => Placement(messages[i], i * LINE_HEIGHT))
  }

  /** No two entries share a position: offsets grow by 30 px per index. */
  lemma PlacementsIncreasing(messages: seq<string>, i: nat, j: nat)
    requires i < j < |messages|
    ensures Placements(messages)[i].top + LINE_HEIGHT * (j - i) == Placements(messages)[j].top
    ensures Placements(messages)[i].top < Placements(messages)[j].top
  {
  }

  class Overlay {
    /** The `message` state. */
    var message: seq<string>

    /** Only the greeting is ever added. */
    ghost predicate Valid()
      reads this
    {
      forall i :: 0 <= i < |message| ==> message[i] == GREETING
    }

    constructor ()
      ensures Valid() && message == []
    {
      message := [];
    }

    /** `addMessage`: one greeting at the end; earlier entries untouched. */
    method AddMessage()
      requires Valid()
      modifies this
      ensures Valid()
      ensures message == old(message) + [GREETING]
      ensures |message| == |old(message)| + 1 && message[..|old(message)|] == old(message)
    {
      message := message + [GREETING];
    }
  }
}
