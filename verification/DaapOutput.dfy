/**
  `DAAPOutput.process` of `out_daap.rb` (lines 58-688): records are objects that are cloned
  and changed, and the cache of jobs is a field that stays from batch to batch.
 */
module DaapOutput {
  import opened Options
  import opened CStrings
  import opened PluginText
  import opened Records
  import opened TextRecords
  import opened PluginBatch

  /** A record on its way out: an object, in contrast to the pairs of a message. */
  type Rec = Records.Rec

  predicate Distinct(recs: seq<Rec>) {
    forall i, j | 0 <= i < j < |recs| :: recs[i] != recs[j]
  }

  /** The records are different objects with these contents. */
  ghost predicate Holds(recs: seq<Rec>, datas: seq<Data>)
    reads recs
  {
    && |recs| == |datas| && Distinct(recs)
    && forall i | 0 <= i < |recs| :: recs[i].data == datas[i]
  }

  lemma PushHolds(recs: seq<Rec>, datas: seq<Data>, r: Rec)
    requires Holds(recs, datas) && r !in recs
    ensures Holds(recs + [r], datas + [r.data])
  {
    var more := recs + [r];
    forall i, j | 0 <= i < j < |more| ensures more[i] != more[j] {
      assert more[i] == recs[i] && recs[i] in recs;
    }
  }

  lemma Concat(a: seq<Data>, b: seq<Data>, d: Data)
    ensures a + (b + [d]) == a + b + [d]
  {
  }

  /** Something handed to the event stream: a time and a record. */
  datatype Sent = Sent(time: Value, rec: Rec)

  class Plugin {
    var jobs: Jobs

    constructor ()
      ensures jobs == map[]
    {
      jobs := map[];
    }

    /** The loops that make a clone for each of a list of fields. */
    method FanOut(newRec: Rec, c: Child, items: seq<string>, metrics: seq<Rec>, ghost datas: seq<Data>) returns (more: seq<Rec>)
      requires Known(c) && Holds(metrics, datas) && newRec !in metrics
      ensures Holds(more, datas + Fan(newRec.data, c, items))
      ensures metrics <= more && fresh(set r | r in more[|metrics|..])
    {
      more := metrics;
      assert datas + [] == datas;
      for i := 0 to |items|
        invariant metrics <= more && fresh(set r | r in more[|metrics|..])
        invariant Holds(more, datas + Fan(newRec.data, c, items[..i]))
      {
        var dup := newRec.Clone();
        dup.Set("type", Text(TypeOf(c.name.value, items[i])));
        dup.Set("val", Get(c.fields.value, items[i]));
        if c.name.value == "infiniband" {
          dup.Set("device", Get(c.tags, "device"));
        }
        PushHolds(more, datas + Fan(newRec.data, c, items[..i]), dup);
        assert items[..i + 1][..i] == items[..i];
        Concat(datas, Fan(newRec.data, c, items[..i]), Dup(newRec.data, c, items[i]));
        more := more + [dup];
      }
      assert items[..|items|] == items;
    }

    /** A memory sample of a job; `ok` is false if it is not a number: then the comparison raises an exception. */
    method Remember(jobKey: string, time: int, newMem: Value) returns (ok: bool)
      modifies this
      ensures jobs == Add(old(jobs), Sample(jobKey, time, Amount(newMem))) && ok == Amount(newMem).Some?
    {
      if jobKey !in jobs {
        jobs := jobs[jobKey := Job(time, 0.0, 0)];
      }
      var maxMem, samples := jobs[jobKey].maxMem, jobs[jobKey].samples;
      samples := samples + 1;
      var amount := Amount(newMem);
      if amount.None? {
        assert jobs[jobKey := jobs[jobKey]] == jobs;
        return false;
      }
      if amount.value > maxMem {
        jobs := jobs[jobKey := Job(time, amount.value, samples)];
      } else {
        jobs := jobs[jobKey := Job(time, maxMem, samples)];
      }
      return true;
    }

    /** Forgetting old jobs. */
    method Clean(now: int)
      modifies this
      ensures jobs == Evict(old(jobs), now)
    {
      ghost var before := jobs;
      var keys := jobs.Keys;
      while keys != {}
        invariant keys <= jobs.Keys <= before.Keys
        invariant forall k | k in jobs :: jobs[k] == before[k]
        invariant forall k | k in before && k !in keys :: k in jobs <==> now - before[k].timestamp <= MAX_AGE
        decreases |keys|
      {
        var k :| k in keys;
        keys := keys - {k};
        var diff := now - jobs[k].timestamp;
        if diff > MAX_AGE {
          jobs := jobs - {k};
        }
      }
    }

    /** What a message says, entered into a new record. */
    method EnterMessage(newRec: Rec, c: Child)
      requires Known(c) && !Raises(c) && newRec.data == map[]
      modifies newRec
      ensures newRec.data == MessageData(c)
    {
      var prefix := if Contains(c.tags["jobinfo"].text, "flag_perf_tests_") then "flag_daap_" else "";
      var message := Get(c.fields.value, "message");
      if !message.Text? {
        return;
      }
      if message.text == "__daap_heartbeat" {
        newRec.Set("metric", Text(prefix + "heartbeat"));
        newRec.Set("type", Text("heartbeat"));
        newRec.Set("val", Int(1));
      }
      if message.text == "__daap_jobstart" {
        newRec.Set("metric", Text(prefix + "job_state"));
        newRec.Set("state", Text("start"));
      }
      if message.text == "__daap_jobend" {
        newRec.Set("metric", Text(prefix + "job_state"));
        newRec.Set("state", Text("end"));
      }
      if Contains(message.text, "__daap_jobduration:") {
        newRec.Set("metric", Text(prefix + "job_duration"));
        if c.duration.Some? {
          newRec.Set("duration", Int(c.duration.value));
        }
      }
    }

    /** What one of the expressions for the job information captures. */
    method EnterCaptures(newRec: Rec, c: Captures, groups: nat)
      modifies newRec
      ensures newRec.data ==
        if groups >= 6 then Job6(old(newRec.data), c)
        else if groups >= 4 then Job4(old(newRec.data), c) else Job3(old(newRec.data), c)
    {
      newRec.Set("jobid", Text(c.jobid));
      newRec.Set("job_name", Text(c.jobName));
      newRec.Set("user", Text(c.user));
      if groups >= 4 {
        newRec.Set("ranks", Text(c.ranks));
      }
      if groups >= 6 {
        newRec.Set("version", Text(c.version));
        newRec.Set("probsize", Text(c.probsize));
      }
    }

    method EnterJob(newRec: Rec, job: JobInfo)
      modifies newRec
      ensures newRec.data == JobData(old(newRec.data), job)
    {
      hide Job3, Job4, Job6;
      if job.basic.Some? {
        EnterCaptures(newRec, job.basic.value, 3);
      }
      if job.ranked.Some? {
        EnterCaptures(newRec, job.ranked.value, 4);
      }
      if job.sized.Some? {
        EnterCaptures(newRec, job.sized.value, 6);
      }
    }

    /** The fields that all records of a metric have, and the key of its job; None where there is no job. */
    method Begin(c: Child) returns (newRec: Rec, jobKey: Option<string>)
      requires Known(c) && !Raises(c)
      ensures fresh(newRec)
      ensures jobKey == if HasJob(c.job) then Some(JobKey(c)) else None
      ensures HasJob(c.job) ==> newRec.data == Common(c)
    {
      hide MessageData, JobData;
      newRec := new Records.Rec(map[]);
      EnterMessage(newRec, c);
      newRec.Set("host", Text(RemoveDomain(c.tags["host"].text)));
      newRec.Set("timestamp", Int(c.timestamp));
      ghost var before := newRec.data;
      EnterJob(newRec, c.job);
      if !HasJob(c.job) {
        return newRec, None;
      }
      JobIdentity(before, c.job);
      jobKey := Some(newRec.data["jobid"].text + "_" + newRec.data["job_name"].text);
      if "mpirank" in c.tags {
        newRec.Set("mpirank", c.tags["mpirank"]);
      }
    }

    /** A metric that gives one record. */
    method Finish(newRec: Rec, c: Child)
      requires Accepted(c)
      modifies newRec
      ensures newRec.data == Single(old(newRec.data), c)
    {
      hide Enter, PreTeamTags, HplTags, SnapTags, SnapFloats, SnapInts;
      var name := c.name.value;
      if name == "pre_team_pavilion_parser" {
        newRec.Set("metric", Text("pre_team"));
        newRec.EnterAll(c.tags, PreTeamTags(), AsIs);
      }
      if name == "pre_team_pavilion_hpl_parser" {
        newRec.Set("metric", Text("pre_team_hpl"));
        newRec.EnterAll(c.tags, HplTags(), AsIs);
      }
      if name == "temp" {
        newRec.Set("metric", Text(MetricPrefix(c) + "temp"));
        newRec.Set("val", Get(c.fields.value, "temp"));
        newRec.Set("sensor", Get(c.tags, "sensor"));
      }
      if name == "snap_pavilion_parser" {
        newRec.Set("metric", Text("snap_pavilion_parser"));
        newRec.EnterAll(c.tags, SnapTags(), AsIs);
        newRec.EnterAll(c.tags, SnapFloats(), AsFloat(None));
        newRec.EnterAll(c.tags, SnapInts(), AsInt);
        newRec.Set("jobid", Get(c.tags, "job_id"));
      }
    }

    method AddInfiniband(newRec: Rec, c: Child, metrics: seq<Rec>, ghost datas: seq<Data>) returns (more: seq<Rec>)
      requires Accepted(c) && c.name.value == "infiniband"
      requires Holds(metrics, datas) && newRec !in metrics && newRec.data == Common(c)
      modifies newRec
      ensures Holds(more, datas + Made(c))
      ensures metrics <= more && fresh(set r | r in more[|metrics|..])
    {
      hide Common, Single, Fan, IbErrors, IbCounts, MetricPrefix, Raises;
      ghost var base := newRec.data;
      newRec.Set("metric", Text(MetricPrefix(c) + "infiniband_errors"));
      var some := FanOut(newRec, c, IbErrors(), metrics, datas);
      ghost var errors := Fan(Metric(base, c, "infiniband_errors"), c, IbErrors());
      SetAgain(base, "metric", Text(MetricPrefix(c) + "infiniband_errors"), Text(MetricPrefix(c) + "infiniband_metrics"));
      newRec.Set("metric", Text(MetricPrefix(c) + "infiniband_metrics"));
      more := FanOut(newRec, c, IbCounts(), some, datas + errors);
      ghost var counts := Fan(Metric(base, c, "infiniband_metrics"), c, IbCounts());
      assert datas + errors + counts == datas + (errors + counts);
      NewBehind(metrics, some, more);
    }

    method AddCpu(newRec: Rec, c: Child, metrics: seq<Rec>, ghost datas: seq<Data>) returns (more: seq<Rec>)
      requires Accepted(c) && c.name.value == "cpu"
      requires Holds(metrics, datas) && newRec !in metrics && newRec.data == Common(c)
      modifies newRec
      ensures Holds(more, datas + Made(c))
      ensures metrics <= more && fresh(set r | r in more[|metrics|..])
    {
      newRec.Set("metric", Text(MetricPrefix(c) + "cpu_usage"));
      more := FanOut(newRec, c, CpuTimes(), metrics, datas);
    }

    method AddMem(time: int, jobKey: string, newRec: Rec, c: Child, metrics: seq<Rec>, ghost datas: seq<Data>, ghost before: Jobs)
      returns (ok: bool, more: seq<Rec>)
      requires IsSample(c) && jobKey == JobKey(c) && jobs == before
      requires Holds(metrics, datas) && newRec !in metrics && newRec.data == Common(c)
      modifies this, newRec
      ensures jobs == AddAll(before, ChildSamples(time, c)) && (ok <==> !Breaks(c))
      ensures ok ==> Holds(more, datas + Made(c))
      ensures metrics <= more && fresh(set r | r in more[|metrics|..])
    {
      newRec.Set("metric", Text(MetricPrefix(c) + "mem_usage"));
      more := metrics;
      ok := Remember(jobKey, time, Get(c.fields.value, "used_percent"));
      OneSample(before, ChildSamples(time, c));
      if ok {
        more := FanOut(newRec, c, ["used_percent"], metrics, datas);
      }
    }

    method AddSingle(newRec: Rec, c: Child, metrics: seq<Rec>, ghost datas: seq<Data>) returns (more: seq<Rec>)
      requires Accepted(c) && c.name.value !in {"infiniband", "cpu", "mem"}
      requires c.name.value == "snap_pavilion_parser" ==> SnapMarked(c)
      requires Holds(metrics, datas) && newRec !in metrics && newRec.data == Common(c)
      modifies newRec
      ensures Holds(more, datas + Made(c)) && more == metrics + [newRec]
    {
      Finish(newRec, c);
      PushHolds(metrics, datas, newRec);
      more := metrics + [newRec];
    }

    /** What an accepted metric adds, once its record is begun. */
    method AddAccepted(time: int, newRec: Rec, jobKey: string, c: Child, metrics: seq<Rec>, ghost datas: seq<Data>, ghost before: Jobs)
      returns (ok: bool, more: seq<Rec>)
      requires Accepted(c) && jobKey == JobKey(c) && jobs == before
      requires Holds(metrics, datas) && newRec !in metrics && newRec.data == Common(c)
      modifies this, newRec
      ensures jobs == AddAll(before, ChildSamples(time, c)) && (ok <==> !Breaks(c))
      ensures ok ==> Holds(more, datas + Made(c))
      ensures metrics <= more && fresh(set r | r in more[|metrics|..] && r != newRec)
    {
      hide Holds, Single;
      ok, more := true, metrics;
      assert datas + [] == datas;
      var name := c.name.value;
      if name == "infiniband" {
        more := AddInfiniband(newRec, c, metrics, datas);
      } else if name == "cpu" {
        more := AddCpu(newRec, c, metrics, datas);
      } else if name == "mem" {
        ok, more := AddMem(time, jobKey, newRec, c, metrics, datas, before);
      } else if name != "snap_pavilion_parser" || SnapMarked(c) {
        more := AddSingle(newRec, c, metrics, datas);
      }
    }

    /** The body of the loop over the metrics of an event; `ok` is false if it raises an exception. */
    method AddChild(time: int, c: Child, metrics: seq<Rec>, ghost datas: seq<Data>, ghost before: Jobs)
      returns (ok: bool, more: seq<Rec>)
      requires Holds(metrics, datas) && jobs == before
      modifies this
      ensures jobs == AddAll(before, ChildSamples(time, c)) && (ok <==> ChildOut(c).Some?)
      ensures ok ==> Holds(more, datas + ChildOut(c).value)
      ensures metrics <= more && fresh(set r | r in more[|metrics|..])
    {
      hide Holds, Made, Raises, Common, Breaks;
      ok, more := true, metrics;
      assert datas + [] == datas;
      if c.fields.None? || c.name.None? || c.name.value !in Names() {
        return;
      }
      if Raises(c) {
        ok := false;
        return;
      }
      var newRec, jobKey := Begin(c);
      if jobKey.None? {
        return;
      }
      ok, more := AddAccepted(time, newRec, jobKey.value, c, metrics, datas, before);
    }

    method AddChildren(time: int, cs: seq<Child>, metrics: seq<Rec>, ghost datas: seq<Data>, ghost before: Jobs)
      returns (ok: bool, more: seq<Rec>)
      requires Holds(metrics, datas) && jobs == before
      modifies this
      ensures jobs == AddAll(before, ChildrenSamples(time, cs)) && (ok <==> ChildrenOut(cs).Some?)
      ensures ok ==> Holds(more, datas + ChildrenOut(cs).value)
      ensures metrics <= more && fresh(set r | r in more[|metrics|..])
    {
      hide Holds, ChildOut, ChildSamples;
      ok, more := true, metrics;
      assert datas + [] == datas;
      for i := 0 to |cs|
        invariant jobs == AddAll(before, ChildrenSamples(time, cs[..i])) && ChildrenOut(cs[..i]).Some?
        invariant Holds(more, datas + ChildrenOut(cs[..i]).value)
        invariant metrics <= more && fresh(set r | r in more[|metrics|..])
        invariant ok
      {
        var some := more;
        ok, more := AddChild(time, cs[i], some, datas + ChildrenOut(cs[..i]).value, jobs);
        ChildrenNext(time, cs, i);
        AddAllBoth(before, ChildrenSamples(time, cs[..i]), ChildSamples(time, cs[i]));
        NewBehind(metrics, some, more);
        if !ok {
          AfterRaise(time, cs, i + 1);
          return;
        }
        Assoc(datas, ChildrenOut(cs[..i]).value, ChildOut(cs[i]).value);
      }
      assert cs[..|cs|] == cs;
    }

    /** A message; `ok` is false if it raises an exception. */
    method AddText(text: PlainMessage, metrics: seq<Rec>, ghost datas: seq<Data>) returns (ok: bool, more: seq<Rec>)
      requires Holds(metrics, datas)
      ensures ok <==> TextOut(text).Some?
      ensures ok ==> Holds(more, datas + TextOut(text).value)
      ensures metrics <= more && fresh(set r | r in more[|metrics|..])
    {
      ok, more := true, metrics;
      assert datas + [] == datas;
      var kind := KindFrom(text, 0);
      if kind.None? {
        return;
      }
      hide TextOut, KindFrom;
      var newRec;
      ok, newRec := ReadText(text, kind.value);
      if newRec.Some? {
        PushHolds(metrics, datas, newRec.value);
        more := metrics + [newRec.value];
      }
    }

    method AddEvent(e: Event, metrics: seq<Rec>, ghost datas: seq<Data>, ghost before: Jobs) returns (ok: bool, more: seq<Rec>)
      requires Holds(metrics, datas) && jobs == before
      modifies this
      ensures jobs == AddAll(before, EventSamples(e)) && (ok <==> EventOut(e).Some?)
      ensures ok ==> Holds(more, datas + EventOut(e).value)
      ensures metrics <= more && fresh(set r | r in more[|metrics|..])
    {
      hide Holds, TextOut, ChildrenOut, ChildrenSamples;
      ok, more := true, metrics;
      assert datas + [] == datas;
      match e.body
      case Neither =>
      case Message(text) => ok, more := AddText(text, metrics, datas);
      case Metrics(children) => ok, more := AddChildren(e.time, children, metrics, datas, before);
    }

    /** The loop over the events of a batch. */
    method AddEvents(events: seq<Event>, ghost before: Jobs) returns (ok: bool, metrics: seq<Rec>)
      requires jobs == before
      modifies this
      ensures jobs == AddAll(before, BatchSamples(events)) && (ok <==> BatchOut(events).Some?)
      ensures ok ==> Holds(metrics, BatchOut(events).value)
      ensures fresh(set r | r in metrics)
    {
      hide ChildrenOut, TextOut, ChildrenSamples;
      ok, metrics := true, [];
      for i := 0 to |events|
        invariant jobs == AddAll(before, BatchSamples(events[..i])) && BatchOut(events[..i]).Some?
        invariant Holds(metrics, BatchOut(events[..i]).value)
        invariant fresh(set r | r in metrics)
      {
        var some := metrics;
        ok, metrics := AddEvent(events[i], some, BatchOut(events[..i]).value, jobs);
        BatchNext(events, i);
        AddAllBoth(before, BatchSamples(events[..i]), EventSamples(events[i]));
        if !ok {
          AfterException(events, i + 1);
          return;
        }
        NewBehind([], some, metrics);
      }
      assert events[..|events|] == events;
    }

    /** The loop that rewrites time stamps and fills the stream. */
    method Send(metrics: seq<Rec>, ghost datas: seq<Data>) returns (out: seq<Sent>)
      requires Holds(metrics, datas)
      modifies metrics
      ensures |out| == |metrics| && forall i | 0 <= i < |out| :: out[i] == Sent(Get(datas[i], "timestamp"), metrics[i])
      ensures Holds(metrics, Finals(datas))
    {
      out := [];
      for i := 0 to |metrics|
        invariant |out| == i && forall j | 0 <= j < i :: out[j] == Sent(Get(datas[j], "timestamp"), metrics[j])
        invariant forall j | 0 <= j < i :: metrics[j].data == Final(datas[j])
        invariant forall j | i <= j < |metrics| :: metrics[j].data == datas[j]
      {
        var m := metrics[i];
        var ts := Get(m.data, "timestamp");
        if Rewritten(m.data) {
          m.Set("timestamp", Formatted(ts));
        }
        out := out + [Sent(ts, m)];
      }
    }

    /**
      `process`: what is sent is the records of the events in order, each an object of its
      own, with its time stamp as it was and its record as it is after rewriting; the cache
      takes the samples, and old entries go only if something is sent.
     */
    method Process(events: seq<Event>, now: int) returns (ok: bool, out: seq<Sent>)
      modifies this
      ensures jobs == PluginBatch.Process(old(jobs), Batch(events, now))
      ensures ok <==> BatchOut(events).Some?
      ensures !ok ==> out == []
      ensures ok ==>
        && |out| == |BatchOut(events).value|
        && (forall i | 0 <= i < |out| :: out[i].time == Get(BatchOut(events).value[i], "timestamp"))
        && (forall i | 0 <= i < |out| :: out[i].rec.data == Final(BatchOut(events).value[i]))
        && (forall i, j | 0 <= i < j < |out| :: out[i].rec != out[j].rec)
    {
      var metrics;
      ok, metrics := AddEvents(events, jobs);
      out := [];
      if !ok || |metrics| == 0 {
        return;
      }
      out := Send(metrics, BatchOut(events).value);
      Clean(now);
    }
  }

  lemma Assoc(a: seq<Data>, b: seq<Data>, c: seq<Data>)
    ensures a + b + c == a + (b + c)
  {
  }

  lemma {:induction false} AddAllBoth(jobs: Jobs, a: seq<Sample>, b: seq<Sample>)
    ensures AddAll(AddAll(jobs, a), b) == AddAll(jobs, a + b)
    decreases |b|
  {
    if b == [] {
      assert a + b == a;
    } else {
      AddAllBoth(jobs, a, b[..|b| - 1]);
      assert (a + b)[..|a + b| - 1] == a + b[..|b| - 1];
    }
  }

  lemma {:induction false} ChildrenNext(time: int, cs: seq<Child>, i: nat)
    requires i < |cs| && ChildrenOut(cs[..i]).Some?
    ensures ChildrenSamples(time, cs[..i + 1]) == ChildrenSamples(time, cs[..i]) + ChildSamples(time, cs[i])
    ensures var out := ChildOut(cs[i]);
      ChildrenOut(cs[..i + 1]) == if out.None? then None else Some(ChildrenOut(cs[..i]).value + out.value)
  {
    hide ChildOut, ChildSamples;
    assert cs[..i + 1][..i] == cs[..i];
  }

  lemma {:induction false} AfterRaise(time: int, cs: seq<Child>, k: nat)
    requires k <= |cs| && ChildrenOut(cs[..k]).None?
    ensures ChildrenOut(cs).None? && ChildrenSamples(time, cs) == ChildrenSamples(time, cs[..k])
    decreases |cs|
  {
    hide ChildOut, ChildSamples;
    if k == |cs| {
      assert cs[..k] == cs;
    } else {
      assert cs[..|cs| - 1][..k] == cs[..k];
      AfterRaise(time, cs[..|cs| - 1], k);
    }
  }

  lemma BatchNext(events: seq<Event>, i: nat)
    requires i < |events| && BatchOut(events[..i]).Some?
    ensures BatchSamples(events[..i + 1]) == BatchSamples(events[..i]) + EventSamples(events[i])
    ensures var out := EventOut(events[i]);
      BatchOut(events[..i + 1]) == if out.None? then None else Some(BatchOut(events[..i]).value + out.value)
  {
    hide EventOut, EventSamples;
    assert events[..i + 1][..i] == events[..i];
  }

  /** Nothing behind an exception counts. */
  lemma {:induction false} AfterException(events: seq<Event>, k: nat)
    requires k <= |events| && BatchOut(events[..k]).None?
    ensures BatchOut(events).None? && BatchSamples(events) == BatchSamples(events[..k])
    decreases |events|
  {
    hide EventOut, EventSamples;
    if k == |events| {
      assert events[..k] == events;
    } else {
      assert events[..|events| - 1][..k] == events[..k];
      AfterException(events[..|events| - 1], k);
    }
  }

  lemma SetAgain(d: Data, key: string, a: Value, b: Value)
    ensures d[key := a][key := b] == d[key := b]
  {
  }

  lemma {:induction false} OneSample(jobs: Jobs, samples: seq<Sample>)
    requires |samples| == 1
    ensures AddAll(jobs, samples) == Add(jobs, samples[0])
  {
  }

  lemma NewBehind(a: seq<Rec>, b: seq<Rec>, c: seq<Rec>)
    requires a <= b <= c
    ensures (set r | r in c[|a|..]) == (set r | r in b[|a|..]) + (set r | r in c[|b|..])
  {
    assert c[|a|..] == b[|a|..] + c[|b|..];
  }
}
