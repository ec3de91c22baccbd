/** Device records, the monitor event stream, and what a consumer makes of it. */
module Devices {

  import opened Wrappers

  datatype UsbSpeed =
    | Unknown | LowSpeed | FullSpeed | HighSpeed | SuperSpeed | SuperSpeed10 | SuperSpeed20 | Usb4Gen40 | Usb4Gen80

  datatype DeviceInfo = DeviceInfo(
    devicePath: string,
    stableId: string,
    model: string,
    vendorId: Option<string>,
    productId: Option<string>,
    serial: Option<string>,
    usbSpeed: UsbSpeed,
    capacityBytes: Option<nat>,
    isRemovable: bool,
    detectedFs: Option<string>)

  datatype UsbEvent = Inserted(info: DeviceInfo) | Removed(stableId: string)
  {
    function Id(): string {
      match this case Inserted(info) => info.stableId case Removed(id) => id
    }

    /** The ids a consumer holds after this event. */
    function Apply(held: set<string>): set<string> {
      if Inserted? then held + {Id()} else held - {Id()}
    }
  }

  /** The ids a consumer holds after replaying a stream. */
  function Replay(held: set<string>, events: seq<UsbEvent>): set<string>
    decreases events
  {
    if events == [] then held else Replay(events[0].Apply(held), events[1..])
  }

  lemma {:induction false} ReplayConcat(held: set<string>, a: seq<UsbEvent>, b: seq<UsbEvent>)
    ensures Replay(held, a + b) == Replay(Replay(held, a), b)
    decreases a
  {
    if a == [] {
      assert a + b == b;
    } else {
      assert (a + b)[0] == a[0] && (a + b)[1..] == a[1..] + b;
      ReplayConcat(a[0].Apply(held), a[1..], b);
    }
  }

  /** Every removal names an id that is held when it arrives. */
  predicate RemovalsMatched(held: set<string>, events: seq<UsbEvent>)
    decreases events
  {
    events == [] ||
    ((events[0].Removed? ==> events[0].Id() in held) && RemovalsMatched(events[0].Apply(held), events[1..]))
  }

  /** Every event changes whether its id is held: per id, insertions and removals alternate. */
  predicate Alternating(held: set<string>, events: seq<UsbEvent>)
    decreases events
  {
    events == [] ||
    ((events[0].Removed? <==> events[0].Id() in held) && Alternating(events[0].Apply(held), events[1..]))
  }

  lemma {:induction false} RemovalsMatchedConcat(held: set<string>, a: seq<UsbEvent>, b: seq<UsbEvent>)
    ensures RemovalsMatched(held, a + b) <==> RemovalsMatched(held, a) && RemovalsMatched(Replay(held, a), b)
    decreases a
  {
    if a == [] {
      assert a + b == b;
    } else {
      assert (a + b)[0] == a[0] && (a + b)[1..] == a[1..] + b;
      RemovalsMatchedConcat(a[0].Apply(held), a[1..], b);
    }
  }

  lemma {:induction false} AlternatingConcat(held: set<string>, a: seq<UsbEvent>, b: seq<UsbEvent>)
    ensures Alternating(held, a + b) <==> Alternating(held, a) && Alternating(Replay(held, a), b)
    decreases a
  {
    if a == [] {
      assert a + b == b;
    } else {
      assert (a + b)[0] == a[0] && (a + b)[1..] == a[1..] + b;
      AlternatingConcat(a[0].Apply(held), a[1..], b);
    }
  }

  function CountInserted(events: seq<UsbEvent>): nat {
    if events == [] then 0 else (if events[0].Inserted? then 1 else 0) + CountInserted(events[1..])
  }

  function CountRemoved(events: seq<UsbEvent>): nat {
    if events == [] then 0 else (if events[0].Removed? then 1 else 0) + CountRemoved(events[1..])
  }

  /** In an alternating stream, insertions minus removals is how many more ids are held. */
  lemma {:induction false} AlternatingBalance(held: set<string>, events: seq<UsbEvent>)
    requires Alternating(held, events)
    ensures |Replay(held, events)| + CountRemoved(events) == |held| + CountInserted(events)
    decreases events
  {
    if events != [] {
      var e := events[0];
      if e.Inserted? {
        assert |held + {e.Id()}| == |held| + 1;
      } else {
        assert |held - {e.Id()}| == |held| - 1;
      }
      AlternatingBalance(e.Apply(held), events[1..]);
    }
  }

  /** Position of the last event about `id`, or -1. */
  function LastAbout(events: seq<UsbEvent>, id: string): (j: int)
    ensures -1 <= j < |events|
    ensures j >= 0 ==> events[j].Id() == id
    ensures forall k :: j < k < |events| ==> events[k].Id() != id
  {
    if events == [] then -1
    else if events[|events| - 1].Id() == id then |events| - 1
    else LastAbout(events[..|events| - 1], id)
  }

  /** An id is held exactly when the last event about it was an insertion. */
  lemma {:induction false} HeldIffLastInserted(events: seq<UsbEvent>, id: string)
    ensures id in Replay({}, events) <==> LastAbout(events, id) >= 0 && events[LastAbout(events, id)].Inserted?
  {
    if events != [] {
      var n := |events| - 1;
      HeldIffLastInserted(events[..n], id);
      ReplayConcat({}, events[..n], [events[n]]);
      assert events == events[..n] + [events[n]];
    }
  }

  lemma {:induction false} RemovalHeld(held: set<string>, events: seq<UsbEvent>, i: nat)
    requires RemovalsMatched(held, events) && i < |events| && events[i].Removed?
    ensures events[i].Id() in Replay(held, events[..i])
    decreases events
  {
    if i > 0 {
      RemovalHeld(events[0].Apply(held), events[1..], i - 1);
      assert events[1..][..i - 1] == events[..i][1..];
    }
  }

  /** Each removal has an earlier insertion of its id with no other event about it between. */
  lemma {:induction false} RemovalHasInsertion(events: seq<UsbEvent>, i: nat)
    requires RemovalsMatched({}, events) && i < |events| && events[i].Removed?
    ensures var j := LastAbout(events[..i], events[i].Id()); j >= 0 && events[j].Inserted?
  {
    RemovalHeld({}, events, i);
    HeldIffLastInserted(events[..i], events[i].Id());
  }
}
