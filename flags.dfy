/** The repeatable command-line options (arrayFlags) and the set of events to
    leave out of the upload that is built from the -filterEvent values. */
module Flags {

  /** arrayFlags: the values of a repeatable option, in the order given. */
  class ArrayFlags {
    var values: seq<string>

    /** A repeatable option before any value is given: Go's nil slice. */
    constructor ()
      ensures values == []
    {
      values := [];
    }

    /** arrayFlags.Set: appends one more value, keeping the earlier ones and any duplicates. */
    method Set(value: string)
      modifies this
      ensures values == old(values) + [value]
      ensures |values| > 0
    {
      values := values + [value];
    }
  }

  /** The set of events an upload leaves out, built from a sequence of event
      names one name at a time, each mapped to true. */
  function FilterSet(events: seq<string>): (m: map<string, bool>)
    ensures forall e :: e in m <==> e in events
    ensures forall e :: e in m ==> m[e]
  {
    if events == [] then map[]
    else FilterSet(events[..|events| - 1])[events[|events| - 1] := true]
  }

  /** The filter set depends only on which names occur: not on their order, nor on repetitions. */
  lemma FilterSetOfSameNames(a: seq<string>, b: seq<string>)
    requires forall e :: e in a <==> e in b
    ensures FilterSet(a) == FilterSet(b)
  {
  }

  /** Adding one more -filterEvent value adds exactly that name. */
  lemma FilterSetAppend(events: seq<string>, v: string)
    ensures FilterSet(events + [v]).Keys == FilterSet(events).Keys + {v}
  {
  }

  lemma FilterSetOfDuplicates()
    ensures FilterSet(["e1", "e1", "e2"]).Keys == {"e1", "e2"}
    ensures |FilterSet(["e1", "e1", "e2"])| == 2
  {
  }

  /** The package state behind FEvents and FilterEventsSet. */
  class FilterEvents {
    const fEvents: ArrayFlags
    var filterEventsSet: map<string, bool>

    /** Before InitFilterEventsSet runs, FilterEventsSet is Go's nil map, which holds no key. */
    constructor (fEvents: ArrayFlags)
      ensures this.fEvents == fEvents && filterEventsSet == map[]
    {
      this.fEvents := fEvents;
      filterEventsSet := map[];
    }

    /** InitFilterEventsSet: replaces FilterEventsSet by a new map holding
        exactly the names in FEvents, each mapped to true; no earlier key stays. */
    method InitFilterEventsSet()
      modifies this
      ensures filterEventsSet == FilterSet(fEvents.values)
      ensures forall e :: e in filterEventsSet <==> e in fEvents.values
      ensures forall e :: e in filterEventsSet ==> filterEventsSet[e]
    {
      filterEventsSet := map[];
      var events := fEvents.values;
      var i := 0;
      while i < |events|
        invariant 0 <= i <= |events|
        invariant filterEventsSet == FilterSet(events[..i])
      {
        assert events[..i + 1][..i] == events[..i];
        filterEventsSet := filterEventsSet[events[i] := true];
        i := i + 1;
      }
      assert events[..i] == events;
    }
  }
}
