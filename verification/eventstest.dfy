/** The recording handler of package eventstest (eventstest/handler.go):
    it keeps a copy of every event it handles and compares them with the
    events a test expects. `testing.TB` is modelled by the list of failures
    it has been told about. */
module EventsTest {
  import opened Events

  /** The fields `assertEqualEvent` compares, in the order it compares them. */
  datatype Field = Args | Debug | Message

  /** A call to `t.Errorf`. */
  datatype Failure =
    | CountMismatch(expected: nat, got: nat)
    | FieldMismatch(field: Field)
    | EventMismatch(index: nat)

  /** The part of `testing.TB` the assertions use. */
  class Reporter {
    var failures: seq<Failure>

    constructor ()
      ensures failures == []
    {
      failures := [];
    }

    method Errorf(f: Failure)
      modifies this
      ensures failures == old(failures) + [f]
    {
      failures := failures + [f];
    }
  }

  /** The first field on which the two events differ, checking Args, then
      Debug, then Message; Source and Time are never looked at. */
  function FirstDifference(got: Event, expected: Event): (r: Option<Field>)
    ensures r.None? <==> got.args == expected.args && got.debug == expected.debug && got.message == expected.message
    ensures r == Some(Debug) ==> got.args == expected.args
    ensures r == Some(Message) ==> got.args == expected.args && got.debug == expected.debug
  {
    if got.args != expected.args then Some(Args)
    else if got.debug != expected.debug then Some(Debug)
    else if got.message != expected.message then Some(Message)
    else None
  }

  predicate SameEvent(got: Event, expected: Event)
  {
    FirstDifference(got, expected).None?
  }

  /** The first index at or after `i` where the two lists hold events that
      differ, if any. */
  function FirstMismatch(got: seq<Event>, expected: seq<Event>, i: nat): (r: Option<nat>)
    requires |got| == |expected| && i <= |got|
    ensures r.Some? ==> i <= r.value < |got| && !SameEvent(got[r.value], expected[r.value])
    ensures forall j :: i <= j < |got| && (r.None? || j < r.value) ==> SameEvent(got[j], expected[j])
    decreases |got| - i
  {
    if i == |got| then None
    else if !SameEvent(got[i], expected[i]) then Some(i)
    else FirstMismatch(got, expected, i + 1)
  }

  /** The failures `AssertEvents` reports: a count mismatch alone, or, for
      the first pair of events that differ, the field and then the index. */
  function Failures(got: seq<Event>, expected: seq<Event>): seq<Failure>
  {
    if |got| != |expected| then [CountMismatch(|expected|, |got|)]
    else match FirstMismatch(got, expected, 0)
      case None => []
      case Some(i) => [FieldMismatch(FirstDifference(got[i], expected[i]).value), EventMismatch(i)]
  }

  /** `assertEqualEvent`: reports the first field that differs and tells
      whether the events are equal on Args, Debug and Message. */
  method AssertEqualEvent(t: Reporter, got: Event, expected: Event) returns (equal: bool)
    modifies t
    ensures equal <==> SameEvent(got, expected)
    ensures t.failures == old(t.failures) +
              (if equal then [] else [FieldMismatch(FirstDifference(got, expected).value)])
  {
    equal := AssertEqualField(t, Args, got.args == expected.args);
    if equal {
      equal := AssertEqualField(t, Debug, got.debug == expected.debug);
    }
    if equal {
      equal := AssertEqualField(t, Message, got.message == expected.message);
    }
  }

  /** `assertEqualField`, given the outcome of `reflect.DeepEqual`. */
  method AssertEqualField(t: Reporter, field: Field, deepEqual: bool) returns (equal: bool)
    modifies t
    ensures equal == deepEqual
    ensures t.failures == old(t.failures) + (if deepEqual then [] else [FieldMismatch(field)])
  {
    if !deepEqual {
      t.Errorf(FieldMismatch(field));
      return false;
    }
    return true;
  }

  class Handler {
    var events: seq<Event>

    constructor ()
      ensures events == []
    {
      events := [];
    }

    /** HandleEvent: records a copy of the event. */
    method HandleEvent(e: Event)
      modifies this
      ensures events == old(events) + [Clone(e)]
    {
      events := events + [Clone(e)];
    }

    /** AssertEvents. */
    method AssertEvents(t: Reporter, expected: seq<Event>)
      modifies t
      ensures t.failures == old(t.failures) + Failures(events, expected)
    {
      if |events| != |expected| {
        t.Errorf(CountMismatch(|expected|, |events|));
        return;
      }

      for i := 0 to |events|
        invariant t.failures == old(t.failures)
        invariant FirstMismatch(events, expected, 0) == FirstMismatch(events, expected, i)
      {
        var equal := AssertEqualEvent(t, events[i], expected[i]);
        if !equal {
          t.Errorf(EventMismatch(i));
          return;
        }
      }
    }
  }

  /** The assertions pass exactly when the handler saw as many events as
      expected and each agrees with its counterpart on Args, Debug and
      Message. */
  lemma FailuresEmpty(got: seq<Event>, expected: seq<Event>)
    ensures Failures(got, expected) == [] <==>
              |got| == |expected| && forall i :: 0 <= i < |got| ==> SameEvent(got[i], expected[i])
  {
    if |got| == |expected| && FirstMismatch(got, expected, 0).Some? {
      var i := FirstMismatch(got, expected, 0).value;
      assert !SameEvent(got[i], expected[i]);
    }
  }

  /** Source and Time take no part in the comparison. */
  lemma SameEventIgnores(got: Event, expected: Event, source: string, time: Time)
    ensures SameEvent(got, expected) <==> SameEvent(got.(source := source, time := time), expected)
  {
  }

  /** At most two failures are reported, whatever the number of events. */
  lemma FailuresStop(got: seq<Event>, expected: seq<Event>)
    ensures |Failures(got, expected)| <= 2
    ensures |got| != |expected| ==> Failures(got, expected) == [CountMismatch(|expected|, |got|)]
  {
  }

  /** Events compared with themselves, or with copies differing only in
      Source and Time, raise no failure. */
  lemma RecordedMatch(got: seq<Event>, expected: seq<Event>)
    requires |got| == |expected|
    requires forall i :: 0 <= i < |got| ==> got[i] == expected[i].(source := got[i].source, time := got[i].time)
    ensures Failures(got, expected) == []
  {
    forall i | 0 <= i < |got|
      ensures SameEvent(got[i], expected[i])
    {
      SameEventIgnores(expected[i], expected[i], got[i].source, got[i].time);
    }
    FailuresEmpty(got, expected);
  }
}
