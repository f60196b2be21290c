/**
  The order in which the plugin goes over the events of a batch and the metrics of an event
  (`out_daap.rb`, lines 62-657): records and samples come in that order, and an exception ends both.
 */
module PluginOrder {
  import opened Options
  import opened Records
  import opened TextRecords
  import opened PluginBatch

  /** Records one behind the other, unless either side raises an exception. */
  function Joined(a: Option<seq<Data>>, b: Option<seq<Data>>): Option<seq<Data>> {
    if a.None? || b.None? then None else Some(a.value + b.value)
  }

  lemma JoinedOn(a: Option<seq<Data>>, b: Option<seq<Data>>, c: Option<seq<Data>>)
    ensures Joined(Joined(a, b), c) == Joined(a, Joined(b, c))
  {
    if a.Some? && b.Some? && c.Some? {
      assert (a.value + b.value) + c.value == a.value + (b.value + c.value);
    }
  }

  lemma JoinedNothing(a: Option<seq<Data>>)
    ensures Joined(a, Some([])) == a && Joined(Some([]), a) == a
  {
    if a.Some? {
      assert a.value + [] == a.value && [] + a.value == a.value;
    }
  }

  lemma {:induction false} ChildrenStep(cs: seq<Child>)
    ensures cs == [] ==> ChildrenOut(cs) == Some([])
    ensures cs != [] ==> ChildrenOut(cs) == Joined(ChildrenOut(cs[..|cs| - 1]), ChildOut(cs[|cs| - 1]))
  {
    hide ChildOut;
  }

  /** The metrics of an event, one behind the other. */
  lemma {:induction false} ChildrenInOrder(a: seq<Child>, b: seq<Child>)
    ensures ChildrenOut(a + b) == Joined(ChildrenOut(a), ChildrenOut(b))
    decreases |b|
  {
    hide ChildOut, ChildrenOut, Joined;
    ChildrenStep(b);
    if b == [] {
      assert a + b == a;
      JoinedNothing(ChildrenOut(a));
    } else {
      var front, last := b[..|b| - 1], b[|b| - 1];
      assert (a + b)[..|a + b| - 1] == a + front && (a + b)[|a + b| - 1] == last;
      ChildrenStep(a + b);
      ChildrenInOrder(a, front);
      JoinedOn(ChildrenOut(a), ChildrenOut(front), ChildOut(last));
    }
  }

  lemma {:induction false} OneChild(c: Child)
    ensures ChildrenOut([c]) == ChildOut(c)
  {
    hide ChildOut, ChildrenOut, Joined;
    ChildrenStep([c]);
    ChildrenStep([]);
    assert [c][..0] == [];
    JoinedNothing(ChildOut(c));
  }

  lemma {:induction false} BatchStep(events: seq<Event>)
    ensures events == [] ==> BatchOut(events) == Some([])
    ensures events != [] ==> BatchOut(events) == Joined(BatchOut(events[..|events| - 1]), EventOut(events[|events| - 1]))
  {
    hide EventOut;
  }

  /** The events of a batch, one behind the other. */
  lemma {:induction false} BatchInOrder(a: seq<Event>, b: seq<Event>)
    ensures BatchOut(a + b) == Joined(BatchOut(a), BatchOut(b))
    decreases |b|
  {
    hide EventOut, BatchOut, Joined;
    BatchStep(b);
    if b == [] {
      assert a + b == a;
      JoinedNothing(BatchOut(a));
    } else {
      var front, last := b[..|b| - 1], b[|b| - 1];
      assert (a + b)[..|a + b| - 1] == a + front && (a + b)[|a + b| - 1] == last;
      BatchStep(a + b);
      BatchInOrder(a, front);
      JoinedOn(BatchOut(a), BatchOut(front), EventOut(last));
    }
  }

  /** An event by itself: its message, or its metrics. */
  lemma {:induction false} OneEvent(e: Event)
    ensures BatchOut([e]) ==
      match e.body
      case Neither => Some([])
      case Message(text) => TextOut(text)
      case Metrics(children) => ChildrenOut(children)
  {
    hide BatchOut, Joined, TextOut, ChildrenOut;
    BatchStep([e]);
    BatchStep([]);
    assert [e][..0] == [];
    JoinedNothing(EventOut(e));
  }

  lemma SampleStep(events: seq<Event>)
    ensures events == [] ==> BatchSamples(events) == []
    ensures events != [] ==>
      var front := events[..|events| - 1];
      BatchSamples(events) == BatchSamples(front) + if BatchOut(front).None? then [] else EventSamples(events[|events| - 1])
  {
    hide BatchOut, EventSamples;
  }

  /** The samples of a batch, in the order of the events; none behind an exception. */
  lemma {:induction false} SamplesInOrder(a: seq<Event>, b: seq<Event>)
    ensures BatchSamples(a + b) == BatchSamples(a) + if BatchOut(a).None? then [] else BatchSamples(b)
    decreases |b|
  {
    hide EventSamples, BatchOut, BatchSamples;
    SampleStep(b);
    if b == [] {
      assert a + b == a;
    } else {
      var front, last := b[..|b| - 1], b[|b| - 1];
      assert (a + b)[..|a + b| - 1] == a + front && (a + b)[|a + b| - 1] == last;
      SampleStep(a + b);
      SamplesInOrder(a, front);
      BatchInOrder(a, front);
    }
  }

  lemma ChildrenSampleStep(time: int, cs: seq<Child>)
    ensures cs == [] ==> ChildrenSamples(time, cs) == []
    ensures cs != [] ==>
      var front := cs[..|cs| - 1];
      ChildrenSamples(time, cs) ==
        ChildrenSamples(time, front) + if ChildrenOut(front).None? then [] else ChildSamples(time, cs[|cs| - 1])
  {
    hide ChildrenOut, ChildSamples;
  }

  /** The same for the metrics of an event. */
  lemma {:induction false} ChildrenSamplesInOrder(time: int, a: seq<Child>, b: seq<Child>)
    ensures ChildrenSamples(time, a + b) ==
      ChildrenSamples(time, a) + if ChildrenOut(a).None? then [] else ChildrenSamples(time, b)
    decreases |b|
  {
    hide ChildrenOut, ChildSamples, ChildrenSamples;
    ChildrenSampleStep(time, b);
    if b == [] {
      assert a + b == a;
    } else {
      var front, last := b[..|b| - 1], b[|b| - 1];
      assert (a + b)[..|a + b| - 1] == a + front && (a + b)[|a + b| - 1] == last;
      ChildrenSampleStep(time, a + b);
      ChildrenSamplesInOrder(time, a, front);
      ChildrenInOrder(a, front);
    }
  }

  lemma {:induction false} OneChildSamples(time: int, c: Child)
    ensures ChildrenSamples(time, [c]) == ChildSamples(time, c)
  {
    hide ChildSamples, ChildrenSamples, ChildrenOut;
    ChildrenStep([]);
    ChildrenSampleStep(time, [c]);
    ChildrenSampleStep(time, []);
    assert [c][..0] == [];
  }

  /** The samples of an event are those of its metrics, at its time. */
  lemma {:induction false} OneEventSamples(e: Event)
    ensures BatchSamples([e]) == if e.body.Metrics? then ChildrenSamples(e.time, e.body.children) else []
  {
    hide ChildrenSamples, BatchSamples, BatchOut;
    SampleStep([e]);
    SampleStep([]);
    BatchStep([]);
    assert [e][..0] == [];
  }
}
