/**
  What a batch means to the fluentd plugin (`process` of `out_daap.rb`): the records each
  metric fans out into, and the memory samples that go into the cache of jobs. All of it on
  values; `DaapOutput` is the code.
 */
module PluginBatch {
  import opened Options
  import opened CStrings
  import opened PluginText
  import opened Records
  import opened TextRecords

  /** What the longest of the three expressions for the job information captures. */
  datatype Captures = Captures(jobid: string, jobName: string, user: string, ranks: string, version: string, probsize: string)

  /** What each of the three expressions finds: the first has three groups, the second four, the third six. */
  datatype JobInfo = JobInfo(basic: Option<Captures>, ranked: Option<Captures>, sized: Option<Captures>)

  /** A metric of telegraf. `duration` is the number behind `__daap_jobduration: `, if there is one. */
  datatype AnyChild = Child(
    name: Option<string>, fields: Option<Data>, tags: Data, timestamp: int, job: JobInfo, duration: Option<int>)

  /** The mesh and zone reports of flag tests are not part of this model. */
  predicate IsCovered(c: AnyChild) {
    c.fields.Some? && Get(c.tags, "jobinfo").Text? && Get(c.fields.value, "message").Text? &&
    Contains(c.tags["jobinfo"].text, "flag_perf_tests_") ==>
      !Contains(c.fields.value["message"].text, "mesh") && !Contains(c.fields.value["message"].text, "zones:")
  }

  type Child = c: AnyChild | IsCovered(c) witness Child(None, None, map[], 0, JobInfo(None, None, None), None)

  datatype Body = Neither | Message(text: PlainMessage) | Metrics(children: seq<Child>)

  datatype Event = Event(time: int, body: Body)

  // -- Metrics

  function Names(): set<string> {
    {"infiniband", "cpu", "mem", "temp", "daap", "snap_pavilion_parser", "pre_team_pavilion_parser", "pre_team_pavilion_hpl_parser"}
  }

  function IbErrors(): seq<string> {
    ["link_downed", "link_error_recovery", "local_link_integrity_errors", "port_rcv_constraint_errors",
     "port_rcv_errors", "port_xmit_discards", "port_rcv_remote_physical_errors", "port_rcv_switch_relay_errors",
     "port_xmit_constraint_errors"]
  }

  function IbCounts(): seq<string> {
    ["multicast_rcv_packets", "multicast_xmit_packets", "port_rcv_data", "port_rcv_packets", "port_xmit_data",
     "port_xmit_packets", "port_xmit_wait", "unicast_rcv_packets", "unicast_xmit_packets"]
  }

  function CpuTimes(): seq<string> {
    ["usage_guest", "usage_guest_nice", "usage_idle", "usage_iowait", "usage_irq", "usage_nice",
     "usage_softirq", "usage_steal", "usage_system", "usage_user"]
  }

  function PreTeamTags(): seq<string> {
    ["job_cpu_total", "job_duration", "job_ended", "job_id", "job_max_mem", "job_name", "job_nodes",
     "job_result", "job_started", "job_user", "sys_name"]
  }

  function HplTags(): seq<string> {
    ["cpumode", "cpuspeed", "gflops", "job_id", "sys_name", "valalign", "valbcast", "valdepth", "valequil", "vall1",
     "valn", "valnb", "valnbmin", "valndiv", "valp", "valpfact", "valpmap", "valq", "valrfact", "valswap", "valu", "node"]
  }

  function SnapTags(): seq<string> {
    ["job_result", "job_started", "job_ended", "test_node_list"]
  }

  function SnapFloats(): seq<string> {
    ["execution_time", "grind_time", "job_duration"]
  }

  function SnapInts(): seq<string> {
    ["job_nodes", "job_max_mem", "allocated_words", "job_cpu_total"]
  }

  /** A metric the plugin looks at. */
  predicate Known(c: Child) {
    c.fields.Some? && c.name.Some? && c.name.value in Names()
  }

  /** Such a metric without job information or host, or with a message that is not a text, raises an exception. */
  predicate Raises(c: Child)
    requires Known(c)
  {
    || !Get(c.tags, "jobinfo").Text? || !Get(c.tags, "host").Text?
    || ("message" in c.fields.value && !c.fields.value["message"].Text?)
  }

  /** One of the expressions has found a job. */
  predicate HasJob(job: JobInfo) {
    job.basic.Some? || job.ranked.Some? || job.sized.Some?
  }

  /** The metric gets past all checks. */
  predicate Accepted(c: Child) {
    Known(c) && !Raises(c) && HasJob(c.job)
  }

  function MetricPrefix(c: Child): string
    requires Known(c) && !Raises(c)
  {
    if Contains(c.tags["jobinfo"].text, "flag_perf_tests_") then "flag_daap_" else ""
  }

  /** What the message of a metric says. */
  function MessageData(c: Child): Data
    requires Known(c) && !Raises(c)
  {
    var prefix := MetricPrefix(c);
    match Get(c.fields.value, "message")
    case Text(m) =>
      if m == "__daap_heartbeat" then map["metric" := Text(prefix + "heartbeat"), "type" := Text("heartbeat"), "val" := Int(1)]
      else if m == "__daap_jobstart" then map["metric" := Text(prefix + "job_state"), "state" := Text("start")]
      else if m == "__daap_jobend" then map["metric" := Text(prefix + "job_state"), "state" := Text("end")]
      else if Contains(m, "__daap_jobduration:") then
        var d: Data := map["metric" := Text(prefix + "job_duration")];
        if c.duration.Some? then d["duration" := Int(c.duration.value)] else d
      else map[]
    case _ => map[]
  }

  /** `gsub(/.localdomain/, '')`: the dot is any character but a line end. */
  function RemoveDomain(s: string): string {
    if s == "" then ""
    else if s[0] != '\n' && "localdomain" <= s[1..] then RemoveDomain(s[12..])
    else [s[0]] + RemoveDomain(s[1..])
  }

  /** The fields of a job, by as many groups as an expression has. */
  function Job3(d: Data, c: Captures): Data {
    d["jobid" := Text(c.jobid)]["job_name" := Text(c.jobName)]["user" := Text(c.user)]
  }

  function Job4(d: Data, c: Captures): Data {
    Job3(d, c)["ranks" := Text(c.ranks)]
  }

  function Job6(d: Data, c: Captures): Data {
    Job4(d, c)["version" := Text(c.version)]["probsize" := Text(c.probsize)]
  }

  /** A later expression goes over an earlier one. */
  function JobData(d: Data, job: JobInfo): Data {
    var d3 := if job.basic.Some? then Job3(d, job.basic.value) else d;
    var d4 := if job.ranked.Some? then Job4(d3, job.ranked.value) else d3;
    if job.sized.Some? then Job6(d4, job.sized.value) else d4
  }

  /** The captures that id and name come from in the end. */
  function Deciding(job: JobInfo): Captures
    requires HasJob(job)
  {
    if job.sized.Some? then job.sized.value else if job.ranked.Some? then job.ranked.value else job.basic.value
  }

  lemma JobIdentity(d: Data, job: JobInfo)
    requires HasJob(job)
    ensures Get(JobData(d, job), "jobid") == Text(Deciding(job).jobid)
    ensures Get(JobData(d, job), "job_name") == Text(Deciding(job).jobName)
  {
  }

  /** The fields all records of a metric have. */
  function Common(c: Child): Data
    requires Accepted(c)
  {
    var d := MessageData(c)["host" := Text(RemoveDomain(c.tags["host"].text))]["timestamp" := Int(c.timestamp)];
    var j := JobData(d, c.job);
    if "mpirank" in c.tags then j["mpirank" := c.tags["mpirank"]] else j
  }

  function TypeOf(name: string, item: string): string {
    if name == "cpu" then RemoveAll(item, "usage_") else if name == "mem" then item + "_max" else item
  }

  /** One of the records a metric fans out into. */
  function Dup(base: Data, c: Child, item: string): Data
    requires Known(c)
  {
    var d := base["type" := Text(TypeOf(c.name.value, item))]["val" := Get(c.fields.value, item)];
    if c.name.value == "infiniband" then d["device" := Get(c.tags, "device")] else d
  }

  function Fan(base: Data, c: Child, items: seq<string>): (r: seq<Data>)
    requires Known(c)
    ensures |r| == |items| && forall i | 0 <= i < |items| :: r[i] == Dup(base, c, items[i])
    decreases |items|
  {
    if items == [] then [] else Fan(base, c, items[..|items| - 1]) + [Dup(base, c, items[|items| - 1])]
  }

  predicate SnapMarked(c: Child)
    requires c.fields.Some?
  {
    Get(c.fields.value, "message") == Text("daap_pavilion_parser")
  }

  /** The record of a metric that does not fan out. */
  function Single(base: Data, c: Child): Data
    requires Accepted(c)
  {
    var name := c.name.value;
    if name == "pre_team_pavilion_parser" then Enter(base["metric" := Text("pre_team")], c.tags, PreTeamTags(), AsIs)
    else if name == "pre_team_pavilion_hpl_parser" then Enter(base["metric" := Text("pre_team_hpl")], c.tags, HplTags(), AsIs)
    else if name == "temp" then
      base["metric" := Text(MetricPrefix(c) + "temp")]["val" := Get(c.fields.value, "temp")]["sensor" := Get(c.tags, "sensor")]
    else if name == "snap_pavilion_parser" then
      var d := Enter(base["metric" := Text("snap_pavilion_parser")], c.tags, SnapTags(), AsIs);
      Enter(Enter(d, c.tags, SnapFloats(), AsFloat(None)), c.tags, SnapInts(), AsInt)["jobid" := Get(c.tags, "job_id")]
    else base
  }

  function Metric(base: Data, c: Child, metric: string): Data
    requires Accepted(c)
  {
    base["metric" := Text(MetricPrefix(c) + metric)]
  }

  /** All records of a metric that is accepted. */
  function Made(c: Child): seq<Data>
    requires Accepted(c)
  {
    var name, base := c.name.value, Common(c);
    if name == "infiniband" then
      Fan(Metric(base, c, "infiniband_errors"), c, IbErrors()) + Fan(Metric(base, c, "infiniband_metrics"), c, IbCounts())
    else if name == "cpu" then Fan(Metric(base, c, "cpu_usage"), c, CpuTimes())
    else if name == "mem" then Fan(Metric(base, c, "mem_usage"), c, ["used_percent"])
    else if name == "snap_pavilion_parser" && !SnapMarked(c) then []
    else [Single(base, c)]
  }

  /** What a value is to the comparison with the maximum; None if it raises an exception there. */
  function Amount(v: Value): Option<real> {
    match v
    case Number(r) => Some(r)
    case Int(n) => Some(n as real)
    case _ => None
  }

  /** A memory sample that is not a number. */
  predicate Breaks(c: Child)
    requires Known(c)
  {
    c.name.value == "mem" && Amount(Get(c.fields.value, "used_percent")).None?
  }

  /** The metric raises an exception, in the checks or later. */
  predicate Throws(c: Child) {
    Known(c) && (Raises(c) || (HasJob(c.job) && Breaks(c)))
  }

  /** The records of a metric; None for an exception. */
  function ChildOut(c: Child): Option<seq<Data>> {
    if Throws(c) then None else if Accepted(c) then Some(Made(c)) else Some([])
  }

  function ChildrenOut(cs: seq<Child>): Option<seq<Data>> {
    if cs == [] then Some([]) else
      var last := ChildOut(cs[|cs| - 1]);
      match ChildrenOut(cs[..|cs| - 1])
      case None => None
      case Some(before) => if last.None? then None else Some(before + last.value)
  }

  /** How many records a metric gives. */
  function Size(c: Child): nat {
    if !Accepted(c) then 0
    else if c.name.value == "infiniband" then 18
    else if c.name.value == "cpu" then 10
    else if c.name.value == "snap_pavilion_parser" && !SnapMarked(c) then 0
    else 1
  }

  lemma ChildSize(c: Child)
    ensures ChildOut(c).Some? ==> |ChildOut(c).value| == Size(c)
  {
    hide Single, Common, Metric;
    assert |IbErrors()| == 9 && |IbCounts()| == 9 && |CpuTimes()| == 10;
  }

  /** The records of a metric that fans out differ in type, value, and the kind of metric only. */
  lemma FanShares(c: Child, i: nat, key: string)
    requires Accepted(c) && c.name.value in {"infiniband", "cpu", "mem"} && i < |Made(c)|
    requires key !in {"metric", "type", "val", "device"}
    ensures Get(Made(c)[i], key) == Get(Common(c), key)
  {
    hide Single, MetricPrefix, Common, IbErrors, IbCounts, CpuTimes, TypeOf, RemoveAll;
    var base := Common(c);
    assert Get(Metric(base, c, "infiniband_errors"), key) == Get(base, key);
    assert Get(Metric(base, c, "infiniband_metrics"), key) == Get(base, key);
  }

  // -- Batches

  /** The records of an event; None for an exception. */
  function EventOut(e: Event): Option<seq<Data>> {
    match e.body
    case Neither => Some([])
    case Message(text) => TextOut(text)
    case Metrics(children) => ChildrenOut(children)
  }

  /** The records of a batch, in order; None if some event raises an exception. */
  function BatchOut(events: seq<Event>): Option<seq<Data>> {
    if events == [] then Some([]) else
      var last := EventOut(events[|events| - 1]);
      match BatchOut(events[..|events| - 1])
      case None => None
      case Some(before) => if last.None? then None else Some(before + last.value)
  }

  /** One record for a message of a known code, but none for an xrage message without pairs. */
  function TextSize(text: string): nat {
    match KindFrom(text, 0)
    case None => 0
    case Some(kind) => if kind.code == "xrage" && Items(text, kind.code, kind.firstField) == [] then 0 else 1
  }

  function EventSize(e: Event): nat {
    match e.body
    case Neither => 0
    case Message(text) => TextSize(text)
    case Metrics(children) => ChildrenSize(children)
  }

  function ChildrenSize(cs: seq<Child>): nat {
    if cs == [] then 0 else ChildrenSize(cs[..|cs| - 1]) + Size(cs[|cs| - 1])
  }

  function BatchSize(events: seq<Event>): nat {
    if events == [] then 0 else BatchSize(events[..|events| - 1]) + EventSize(events[|events| - 1])
  }

  lemma {:induction false} ChildrenSizes(cs: seq<Child>)
    ensures ChildrenOut(cs).Some? ==> |ChildrenOut(cs).value| == ChildrenSize(cs)
  {
    hide ChildOut, Size;
    if cs != [] {
      ChildrenSizes(cs[..|cs| - 1]);
      ChildSize(cs[|cs| - 1]);
    }
  }

  /** A batch gives the records of its events, one after the other, and of each as many as it has. */
  lemma {:induction false} BatchSizes(events: seq<Event>)
    ensures BatchOut(events).Some? ==> |BatchOut(events).value| == BatchSize(events)
  {
    hide ChildrenOut, ChildOut;
    if events != [] {
      BatchSizes(events[..|events| - 1]);
      var e := events[|events| - 1];
      if e.body.Metrics? {
        ChildrenSizes(e.body.children);
      }
    }
  }

  lemma {:induction false} ChildrenRaiseIff(cs: seq<Child>)
    ensures ChildrenOut(cs).None? <==> exists i | 0 <= i < |cs| :: Throws(cs[i])
  {
    if cs != [] {
      ChildrenRaiseIff(cs[..|cs| - 1]);
      assert forall i | 0 <= i < |cs| - 1 :: cs[..|cs| - 1][i] == cs[i];
    }
  }

  /** The event holds a metric that raises, or a message with an item that has no value. */
  predicate EventRaises(e: Event) {
    match e.body
    case Neither => false
    case Message(text) =>
      (match KindFrom(text, 0)
       case None => false
       case Some(kind) =>
         var items := Items(text, kind.code, kind.firstField);
         exists i | 0 <= i < |items| :: Pair(items[i]) == None)
    case Metrics(cs) => exists i | 0 <= i < |cs| :: Throws(cs[i])
  }

  lemma EventRaisesIff(e: Event)
    ensures EventOut(e).None? <==> EventRaises(e)
  {
    hide Pair, Pairs, TextData, ChildrenOut;
    match e.body
    case Neither =>
    case Metrics(cs) => ChildrenRaiseIff(cs);
    case Message(text) =>
      var kind := KindFrom(text, 0);
      if kind.Some? {
        RaisesIff(map["metric" := kind.value.metric], Items(text, kind.value.code, kind.value.firstField));
      }
  }

  /** A batch raises an exception if and only if one of its events does. */
  lemma {:induction false} BatchRaisesIff(events: seq<Event>)
    ensures BatchOut(events).None? <==> exists i | 0 <= i < |events| :: EventRaises(events[i])
  {
    hide EventOut, EventRaises;
    if events != [] {
      BatchRaisesIff(events[..|events| - 1]);
      EventRaisesIff(events[|events| - 1]);
      assert forall i | 0 <= i < |events| - 1 :: events[..|events| - 1][i] == events[i];
    }
  }

  /** Records of job states, job durations and the text codes get their time stamp as text. */
  predicate Rewritten(d: Data) {
    Get(d, "metric").Text? && var m := d["metric"].text;
      || Contains(m, "job_state") || Contains(m, "job_duration") || Contains(m, "xrage") || Contains(m, "sap")
      || Contains(m, "ristra") || Contains(m, "lap") || Contains(m, "jayenne") || Contains(m, "mcatk")
  }

  function Final(d: Data): Data {
    if Rewritten(d) then d["timestamp" := Formatted(Get(d, "timestamp"))] else d
  }

  function Finals(datas: seq<Data>): (r: seq<Data>)
    ensures |r| == |datas| && forall i | 0 <= i < |datas| :: r[i] == Final(datas[i])
  {
    if datas == [] then [] else Finals(datas[..|datas| - 1]) + [Final(datas[|datas| - 1])]
  }

  // -- The cache of jobs

  /** A memory sample; None for one that is not a number, which raises an exception once the job has an entry. */
  datatype Sample = Sample(key: string, time: int, mem: Option<real>)

  /** What is kept of a job: the time of its last sample, the largest value, and how many there were. */
  datatype Job = Job(timestamp: int, maxMem: real, samples: nat)

  type Jobs = map<string, Job>

  function JobKey(c: Child): string
    requires Accepted(c)
  {
    Deciding(c.job).jobid + "_" + Deciding(c.job).jobName
  }

  predicate IsSample(c: Child) {
    Accepted(c) && c.name.value == "mem"
  }

  function ChildSamples(time: int, c: Child): seq<Sample> {
    if IsSample(c) then [Sample(JobKey(c), time, Amount(Get(c.fields.value, "used_percent")))] else []
  }

  /** The samples of the metrics of an event; an exception ends it. */
  function ChildrenSamples(time: int, cs: seq<Child>): seq<Sample>
  {
    if cs == [] then [] else
      var front := cs[..|cs| - 1];
      ChildrenSamples(time, front) + if ChildrenOut(front).None? then [] else ChildSamples(time, cs[|cs| - 1])
  }

  function EventSamples(e: Event): seq<Sample>
  {
    if e.body.Metrics? then ChildrenSamples(e.time, e.body.children) else []
  }

  /** The samples of a batch; an exception ends it. */
  function BatchSamples(events: seq<Event>): seq<Sample>
  {
    if events == [] then [] else
      var front := events[..|events| - 1];
      BatchSamples(front) + if BatchOut(front).None? then [] else EventSamples(events[|events| - 1])
  }

  /** One sample: an entry is there in any case; a number changes it. */
  function Add(jobs: Jobs, s: Sample): Jobs {
    var j := if s.key in jobs then jobs[s.key] else Job(s.time, 0.0, 0);
    match s.mem
    case None => jobs[s.key := j]
    case Some(m) => jobs[s.key := Job(s.time, if m > j.maxMem then m else j.maxMem, j.samples + 1)]
  }

  function AddAll(jobs: Jobs, samples: seq<Sample>): Jobs {
    if samples == [] then jobs else Add(AddAll(jobs, samples[..|samples| - 1]), samples[|samples| - 1])
  }

  const MAX_AGE := 1800

  function Evict(jobs: Jobs, now: int): Jobs {
    map k | k in jobs && now - jobs[k].timestamp <= MAX_AGE :: jobs[k]
  }

  /** A batch and the time at which it ends. */
  datatype Batch = Batch(events: seq<Event>, now: int)

  /** The batch hands something on. */
  predicate Emits(b: Batch) {
    var out := BatchOut(b.events);
    out.Some? && out.value != []
  }

  function Process(jobs: Jobs, b: Batch): Jobs
  {
    var after := AddAll(jobs, BatchSamples(b.events));
    if Emits(b) then Evict(after, b.now) else after
  }

  /** Behind its samples, a batch that hands something on drops the entries older than 1800 seconds, and no others. */
  lemma {:induction false} ProcessAt(jobs: Jobs, b: Batch, key: string)
    ensures var after := AddAll(jobs, BatchSamples(b.events));
      && (BatchOut(b.events) == None || BatchOut(b.events) == Some([]) ==> Process(jobs, b) == after)
      && (BatchOut(b.events) != None && BatchOut(b.events) != Some([]) ==>
            && (key in Process(jobs, b) <==> key in after && b.now - after[key].timestamp <= 1800)
            && (key in Process(jobs, b) ==> Process(jobs, b)[key] == after[key]))
  {
    hide BatchOut, BatchSamples, AddAll;
  }

  // -- What the cache holds, from the history alone

  function Of(key: string, samples: seq<Sample>): seq<Sample> {
    if samples == [] then [] else
      var last := samples[|samples| - 1];
      Of(key, samples[..|samples| - 1]) + if last.key == key then [last] else []
  }

  /** Those that are numbers. */
  function Counted(samples: seq<Sample>): (r: seq<Sample>)
    ensures forall i | 0 <= i < |r| :: r[i].mem.Some?
  {
    if samples == [] then [] else
      var last := samples[|samples| - 1];
      Counted(samples[..|samples| - 1]) + if last.mem.Some? then [last] else []
  }

  /** The largest value, and at least 0. */
  function Peak(samples: seq<Sample>): (p: real)
    requires forall i | 0 <= i < |samples| :: samples[i].mem.Some?
    ensures p >= 0.0 && forall i | 0 <= i < |samples| :: p >= samples[i].mem.value
    ensures p == 0.0 || exists i | 0 <= i < |samples| :: p == samples[i].mem.value
  {
    if samples == [] then 0.0 else
      var last := samples[|samples| - 1];
      var before := Peak(samples[..|samples| - 1]);
      assert forall i | 0 <= i < |samples| - 1 :: samples[i] == samples[..|samples| - 1][i];
      assert forall i | 0 <= i < |samples| - 1 :: samples[..|samples| - 1][i] == samples[i];
      if last.mem.value > before then last.mem.value else before
  }

  /** The time of the last number, or of the first sample if there is none. */
  function LastTime(samples: seq<Sample>): int
    requires samples != []
  {
    var numbers := Counted(samples);
    if numbers == [] then samples[0].time else numbers[|numbers| - 1].time
  }

  /** The samples of a job since it was last forgotten. */
  function Live(batches: seq<Batch>, key: string): seq<Sample>
  {
    if batches == [] then [] else
      var b := batches[|batches| - 1];
      var all := Live(batches[..|batches| - 1], key) + Of(key, BatchSamples(b.events));
      if Emits(b) && all != [] && b.now - LastTime(all) > MAX_AGE then [] else all
  }

  /** An entry says what the samples say. */
  predicate Matches(jobs: Jobs, key: string, samples: seq<Sample>) {
    && (key in jobs <==> samples != [])
    && (key in jobs ==> jobs[key] == Job(LastTime(samples), Peak(Counted(samples)), |Counted(samples)|))
  }

  lemma {:induction false} CountedAppend(samples: seq<Sample>, s: Sample)
    ensures Counted(samples + [s]) == Counted(samples) + if s.mem.Some? then [s] else []
  {
    assert (samples + [s])[..|samples|] == samples;
  }

  lemma {:induction false} PeakAppend(samples: seq<Sample>, s: Sample)
    requires s.mem.Some? && forall i | 0 <= i < |samples| :: samples[i].mem.Some?
    ensures Peak(samples + [s]) == if s.mem.value > Peak(samples) then s.mem.value else Peak(samples)
  {
    assert (samples + [s])[..|samples|] == samples;
  }

  lemma AddsNumber(jobs: Jobs, samples: seq<Sample>, s: Sample)
    requires Matches(jobs, s.key, samples) && s.mem.Some?
    ensures Matches(Add(jobs, s), s.key, samples + [s])
  {
    hide Counted, Peak;
    CountedAppend(samples, s);
    CountedNone();
    PeakAppend(Counted(samples), s);
    assert LastTime(samples + [s]) == s.time;
  }

  lemma AddsNoNumber(jobs: Jobs, samples: seq<Sample>, s: Sample)
    requires Matches(jobs, s.key, samples) && s.mem.None?
    ensures Matches(Add(jobs, s), s.key, samples + [s])
  {
    hide Counted, Peak;
    CountedAppend(samples, s);
    CountedNone();
    assert Counted(samples) + [] == Counted(samples);
    assert samples != [] ==> (samples + [s])[0] == samples[0];
    assert LastTime(samples + [s]) == if samples == [] then s.time else LastTime(samples);
  }

  lemma AddMatches(jobs: Jobs, key: string, samples: seq<Sample>, s: Sample)
    requires Matches(jobs, key, samples)
    ensures Matches(Add(jobs, s), key, samples + if s.key == key then [s] else [])
  {
    hide Counted, Peak, LastTime;
    assert samples + [] == samples;
    if s.key == key {
      if s.mem.Some? {
        AddsNumber(jobs, samples, s);
      } else {
        AddsNoNumber(jobs, samples, s);
      }
    }
  }

  lemma CountedNone()
    ensures Counted([]) == [] && Peak([]) == 0.0
  {
  }

  lemma {:induction false} AddAllMatches(jobs: Jobs, key: string, samples: seq<Sample>, added: seq<Sample>)
    requires Matches(jobs, key, samples)
    ensures Matches(AddAll(jobs, added), key, samples + Of(key, added))
    decreases |added|
  {
    if added == [] {
      assert samples + Of(key, added) == samples;
    } else {
      var front, last := added[..|added| - 1], added[|added| - 1];
      AddAllMatches(jobs, key, samples, front);
      AddMatches(AddAll(jobs, front), key, samples + Of(key, front), last);
      assert samples + Of(key, added) == samples + Of(key, front) + if last.key == key then [last] else [];
    }
  }

  /** The cache after a run of batches, from empty. */
  function Cache(batches: seq<Batch>): Jobs
  {
    if batches == [] then map[] else Process(Cache(batches[..|batches| - 1]), batches[|batches| - 1])
  }

  /**
    After any run of batches the cache knows exactly the jobs with live samples, and of each,
    over those that are numbers, the time of the last one, the largest value (at least 0) and
    their number.
   */
  lemma {:induction false} CacheIsHistory(batches: seq<Batch>, key: string)
    ensures Matches(Cache(batches), key, Live(batches, key))
  {
    hide BatchSamples, BatchOut, Of;
    if batches != [] {
      var front, b := batches[..|batches| - 1], batches[|batches| - 1];
      CacheIsHistory(front, key);
      AddAllMatches(Cache(front), key, Live(front, key), BatchSamples(b.events));
    }
  }

  /**
    A job is forgotten by a batch, or stays unknown, if and only if it has had no sample since
    it was last forgotten, or the batch hands something on and its last sample that is a number
    (its first one if none is) is more than 1800 seconds old.
   */
  lemma {:induction false} ForgottenIff(batches: seq<Batch>, key: string)
    requires batches != []
    ensures var b := batches[|batches| - 1];
      var live := Live(batches[..|batches| - 1], key) + Of(key, BatchSamples(b.events));
      key !in Cache(batches) <==> live == [] || (Emits(b) && b.now - LastTime(live) > 1800)
  {
    hide Cache, Emits, Process, Evict, AddAll, Of, BatchSamples, Peak, Counted, LastTime;
    CacheIsHistory(batches, key);
  }

  lemma {:induction false} SampleMeansRecord(time: int, cs: seq<Child>)
    requires ChildrenOut(cs) == Some([])
    ensures ChildrenSamples(time, cs) == []
  {
    hide Made;
    if cs != [] {
      ChildSize(cs[|cs| - 1]);
      SampleMeansRecord(time, cs[..|cs| - 1]);
    }
  }

  lemma {:induction false} NoRecordNoSample(events: seq<Event>)
    requires BatchOut(events) == Some([])
    ensures BatchSamples(events) == []
  {
    hide ChildrenOut, TextOut;
    if events != [] {
      var e := events[|events| - 1];
      NoRecordNoSample(events[..|events| - 1]);
      if e.body.Metrics? {
        SampleMeansRecord(e.time, e.body.children);
      }
    }
  }

  /** A batch without records leaves the cache as it was, however old the entries are. */
  lemma QuietBatch(jobs: Jobs, b: Batch)
    requires BatchOut(b.events) == Some([])
    ensures Process(jobs, b) == jobs
  {
    hide EventOut, EventSamples, BatchOut;
    NoRecordNoSample(b.events);
  }
}
