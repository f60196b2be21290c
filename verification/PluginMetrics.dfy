/**
  The records of each metric of telegraf, field by field (`out_daap.rb`, lines 380-656).
 */
module PluginMetrics {
  import opened Options
  import opened CStrings
  import opened PluginText
  import opened Records
  import opened TextRecords
  import opened PluginBatch

  /** The checks that come before the name counts: job information, a host, a text as message, and a job. */
  predicate Checked(c: Child) {
    && c.fields.Some? && c.name.Some?
    && Get(c.tags, "jobinfo").Text? && Get(c.tags, "host").Text?
    && ("message" in c.fields.value ==> c.fields.value["message"].Text?)
    && (c.job.basic.Some? || c.job.ranked.Some? || c.job.sized.Some?)
  }

  predicate IsName(name: string) {
    || name == "infiniband" || name == "cpu" || name == "mem" || name == "temp" || name == "daap"
    || name == "snap_pavilion_parser" || name == "pre_team_pavilion_parser" || name == "pre_team_pavilion_hpl_parser"
  }

  lemma NamesAre(name: string)
    ensures name in Names() <==> IsName(name)
  {
  }

  /** Metrics without fields or name, of another name, or without a job give nothing. */
  lemma OthersGiveNothing(c: Child)
    requires c.fields.None? || c.name.None? || !IsName(c.name.value)
    ensures ChildOut(c) == Some([])
  {
    hide Names;
    if c.name.Some? {
      NamesAre(c.name.value);
    }
  }

  lemma NoJobGivesNothing(c: Child)
    requires c.fields.Some? && Get(c.tags, "jobinfo").Text? && Get(c.tags, "host").Text?
    requires "message" in c.fields.value ==> c.fields.value["message"].Text?
    requires c.job.basic.None? && c.job.ranked.None? && c.job.sized.None?
    ensures ChildOut(c) == Some([])
  {
    hide Names, Made;
  }

  lemma IsAccepted(c: Child)
    requires Checked(c) && IsName(c.name.value)
    ensures Accepted(c) && MetricPrefix(c) == if Contains(c.tags["jobinfo"].text, "flag_perf_tests_") then "flag_daap_" else ""
  {
    hide Names, Contains;
    NamesAre(c.name.value);
  }

  /** The records, if there is no exception. */
  ghost predicate Gives(c: Child, n: nat) {
    ChildOut(c).Some? && |ChildOut(c).value| == n
  }

  /** Record `i` of those. */
  function Record(c: Child, i: nat): Data
    requires ChildOut(c).Some? && i < |ChildOut(c).value|
  {
    ChildOut(c).value[i]
  }

  /**
    A metric raises an exception if and only if it has one of the names and fields, and its job
    information or host is missing, or its message is not a text, or it is a memory sample of a
    job that is not a number.
   */
  lemma ChildRaisesIff(c: Child)
    ensures ChildOut(c).None? <==>
      && c.fields.Some? && c.name.Some? && IsName(c.name.value)
      && (|| !Get(c.tags, "jobinfo").Text? || !Get(c.tags, "host").Text?
          || ("message" in c.fields.value && !c.fields.value["message"].Text?)
          || (&& c.name.value == "mem" && (c.job.basic.Some? || c.job.ranked.Some? || c.job.sized.Some?)
              && !Get(c.fields.value, "used_percent").Number? && !Get(c.fields.value, "used_percent").Int?))
  {
    hide Names, Made;
    if c.name.Some? {
      NamesAre(c.name.value);
    }
  }

  // -- Metrics that fan out

  lemma {:induction false} FanAt(base: Data, c: Child, items: seq<string>, i: nat)
    requires Known(c) && i < |items|
    ensures var r := Fan(base, c, items)[i];
      && Get(r, "type") == Text(TypeOf(c.name.value, items[i])) && Get(r, "val") == Get(c.fields.value, items[i])
      && (c.name.value == "infiniband" ==> Get(r, "device") == Get(c.tags, "device"))
      && Get(r, "metric") == Get(base, "metric")
  {
    hide TypeOf, Names;
  }

  /** The field that record `i` of an infiniband metric is about. */
  function IbItem(i: nat): string
    requires i < 18
  {
    ["link_downed", "link_error_recovery", "local_link_integrity_errors", "port_rcv_constraint_errors",
     "port_rcv_errors", "port_xmit_discards", "port_rcv_remote_physical_errors", "port_rcv_switch_relay_errors",
     "port_xmit_constraint_errors",
     "multicast_rcv_packets", "multicast_xmit_packets", "port_rcv_data", "port_rcv_packets", "port_xmit_data",
     "port_xmit_packets", "port_xmit_wait", "unicast_rcv_packets", "unicast_xmit_packets"][i]
  }

  lemma IbItemAt(i: nat)
    requires i < 18
    ensures |IbErrors()| == 9 && |IbCounts()| == 9
    ensures IbItem(i) == if i < 9 then IbErrors()[i] else IbCounts()[i - 9]
  {
  }

  /**
    18 records: nine errors and nine counts, each with the value of its own field, the name of
    that field as its type, and the device.
   */
  lemma InfinibandRecords(c: Child, i: nat)
    requires Checked(c) && c.name == Some("infiniband") && i < 18
    ensures Gives(c, 18)
    ensures Get(Record(c, i), "metric") ==
      Text((if Contains(c.tags["jobinfo"].text, "flag_perf_tests_") then "flag_daap_" else "") +
           (if i < 9 then "infiniband_errors" else "infiniband_metrics"))
    ensures Get(Record(c, i), "type") == Text(IbItem(i))
    ensures Get(Record(c, i), "val") == Get(c.fields.value, IbItem(i))
    ensures Get(Record(c, i), "device") == Get(c.tags, "device")
  {
    hide Contains, Common, Fan, IbErrors, IbCounts, IbItem, Names, MetricPrefix, Raises;
    IsAccepted(c);
    IbItemAt(i);
    var base := Common(c);
    if i < 9 {
      FanAt(Metric(base, c, "infiniband_errors"), c, IbErrors(), i);
    } else {
      FanAt(Metric(base, c, "infiniband_metrics"), c, IbCounts(), i - 9);
    }
  }

  /** The kinds of processor time, as record `i` of a cpu metric names them. */
  function CpuType(i: nat): string
    requires i < 10
  {
    ["guest", "guest_nice", "idle", "iowait", "irq", "nice", "softirq", "steal", "system", "user"][i]
  }

  lemma CpuItemAt(i: nat)
    requires i < 10
    ensures |CpuTimes()| == 10 && CpuTimes()[i] == "usage_" + CpuType(i)
  {
  }

  lemma PrefixHas(s: string, pat: string, c: char)
    requires pat <= s && c in pat
    ensures c in s
  {
    var k: nat :| k < |pat| && pat[k] == c;
    assert s[k] == c;
  }

  lemma {:induction false} RemovesNone(s: string, pat: string, c: char)
    requires c in pat && c !in s
    ensures RemoveAll(s, pat) == s
    decreases |s|
  {
    if s != "" {
      if pat <= s {
        PrefixHas(s, pat, c);
      }
      RemovesNone(s[1..], pat, c);
    }
  }

  lemma {:induction false} RemovesFront(pat: string, s: string, c: char)
    requires c in pat && c !in s
    ensures RemoveAll(pat + s, pat) == s
  {
    hide RemoveAll;
    RemovesNone(s, pat, c);
    RemoveFront(pat, s);
  }

  lemma {:induction false} RemoveFront(pat: string, s: string)
    requires pat != ""
    ensures RemoveAll(pat + s, pat) == RemoveAll(s, pat)
  {
    assert (pat + s)[|pat|..] == s && pat <= pat + s;
  }

  /** None of the kinds holds "usage_" itself: one has no "a", the others no underscore. */
  lemma CpuTypeClean(i: nat)
    requires i < 10
    ensures RemoveAll("usage_" + CpuType(i), "usage_") == CpuType(i)
  {
    hide RemoveAll;
    assert "usage_"[2] == 'a' && "usage_"[5] == '_';
    RemovesFront("usage_", CpuType(i), if i == 1 then 'a' else '_');
  }

  /** Ten records, for the kinds of processor time. */
  lemma CpuRecords(c: Child, i: nat)
    requires Checked(c) && c.name == Some("cpu") && i < 10
    ensures Gives(c, 10)
    ensures Get(Record(c, i), "metric") ==
      Text((if Contains(c.tags["jobinfo"].text, "flag_perf_tests_") then "flag_daap_" else "") + "cpu_usage")
    ensures Get(Record(c, i), "type") == Text(CpuType(i))
    ensures Get(Record(c, i), "val") == Get(c.fields.value, "usage_" + CpuType(i))
  {
    hide Contains, Common, Fan, CpuTimes, CpuType, Names, MetricPrefix, Raises, RemoveAll;
    IsAccepted(c);
    CpuItemAt(i);
    CpuTypeClean(i);
    FanAt(Metric(Common(c), c, "cpu_usage"), c, CpuTimes(), i);
  }

  /** One record, with the memory in use; a value that is not a number raises an exception. */
  lemma MemRecord(c: Child)
    requires Checked(c) && c.name == Some("mem")
    ensures var v := Get(c.fields.value, "used_percent");
      if v.Number? || v.Int? then
        && Gives(c, 1)
        && Get(Record(c, 0), "metric") ==
             Text((if Contains(c.tags["jobinfo"].text, "flag_perf_tests_") then "flag_daap_" else "") + "mem_usage")
        && Get(Record(c, 0), "type") == Text("used_percent_max") && Get(Record(c, 0), "val") == v
      else ChildOut(c) == None
  {
    hide Contains, Common, Fan, Names, MetricPrefix, Raises, RemoveAll;
    IsAccepted(c);
    FanAt(Metric(Common(c), c, "mem_usage"), c, ["used_percent"], 0);
    assert "used_percent" + "_max" == "used_percent_max";
  }

  // -- The fields all records have

  /** What comes from the job information: of the expressions that have a field, the longest that matches decides. */
  function OfJob(job: JobInfo, key: string): Value {
    if key in {"version", "probsize"} then
      if job.sized.None? then Nil else Text(if key == "version" then job.sized.value.version else job.sized.value.probsize)
    else if key == "ranks" then
      if job.sized.Some? then Text(job.sized.value.ranks) else if job.ranked.Some? then Text(job.ranked.value.ranks) else Nil
    else if key in {"jobid", "job_name", "user"} then
      if job.sized.Some? then Identity(job.sized.value, key)
      else if job.ranked.Some? then Identity(job.ranked.value, key)
      else if job.basic.Some? then Identity(job.basic.value, key) else Nil
    else Nil
  }

  function Identity(c: Captures, key: string): Value {
    Text(if key == "jobid" then c.jobid else if key == "job_name" then c.jobName else c.user)
  }

  lemma JobDataAt(d: Data, job: JobInfo, key: string)
    ensures Get(JobData(d, job), key) == if OfJob(job, key) != Nil then OfJob(job, key) else Get(d, key)
  {
  }

  /** Every field but those that are made of the message. */
  lemma CommonAt(c: Child, key: string)
    requires Checked(c) && IsName(c.name.value)
    ensures Get(Common(c), key) ==
      if key == "mpirank" && "mpirank" in c.tags then c.tags["mpirank"]
      else if OfJob(c.job, key) != Nil then OfJob(c.job, key)
      else if key == "timestamp" then Int(c.timestamp)
      else if key == "host" then Text(RemoveDomain(c.tags["host"].text))
      else Get(MessageData(c), key)
  {
    hide Contains, Names, MetricPrefix, Raises, RemoveDomain, MessageData, JobData, OfJob;
    IsAccepted(c);
    var d := MessageData(c)["host" := Text(RemoveDomain(c.tags["host"].text))]["timestamp" := Int(c.timestamp)];
    JobDataAt(d, c.job, key);
  }

  /** A place where the expression for the domain matches: any character but a line end, and "localdomain" behind it. */
  predicate DomainAt(s: string, i: nat) {
    i < |s| && s[i] != '\n' && "localdomain" <= s[i + 1..]
  }

  lemma DomainHere(s: string)
    requires s != ""
    ensures DomainAt(s, 0) <==> s[0] != '\n' && "localdomain" <= s[1..]
    ensures DomainAt(s, 0) ==> |s| >= 12
  {
    assert |"localdomain"| == 11;
  }

  lemma {:induction false} RemoveStep(s: string)
    requires s != ""
    ensures DomainAt(s, 0) ==> |s| >= 12 && RemoveDomain(s) == RemoveDomain(s[12..])
    ensures !DomainAt(s, 0) ==> RemoveDomain(s) == [s[0]] + RemoveDomain(s[1..])
  {
    hide DomainAt;
    DomainHere(s);
  }

  lemma DomainAtTail(s: string, i: nat)
    requires i + 1 < |s|
    ensures DomainAt(s[1..], i) == DomainAt(s, i + 1)
  {
    assert s[1..][i + 1..] == s[i + 2..];
  }

  lemma DomainFirst(dot: char, b: string)
    requires dot != '\n'
    ensures DomainAt([dot] + ("localdomain" + b), 0) && ([dot] + ("localdomain" + b))[12..] == b
  {
    assert ([dot] + ("localdomain" + b))[1..] == "localdomain" + b;
  }

  /** The first such place and the domain go, and the same with what is behind it. */
  lemma {:induction false} DomainGoes(a: string, dot: char, b: string)
    requires dot != '\n'
    requires forall i | 0 <= i < |a| :: !DomainAt(a + ([dot] + ("localdomain" + b)), i)
    ensures RemoveDomain(a + ([dot] + ("localdomain" + b))) == a + RemoveDomain(b)
    decreases |a|
  {
    hide DomainAt, RemoveDomain;
    var rest := [dot] + ("localdomain" + b);
    RemoveStep(a + rest);
    if a == "" {
      assert a + rest == rest;
      DomainFirst(dot, b);
    } else {
      assert (a + rest)[1..] == a[1..] + rest;
      forall i | 0 <= i < |a| - 1 ensures !DomainAt(a[1..] + rest, i) {
        DomainAtTail(a + rest, i);
      }
      DomainGoes(a[1..], dot, b);
      assert [a[0]] + (a[1..] + RemoveDomain(b)) == a + RemoveDomain(b);
    }
  }

  lemma {:induction false} NoDomainStays(s: string)
    requires forall i | 0 <= i < |s| :: !DomainAt(s, i)
    ensures RemoveDomain(s) == s
    decreases |s|
  {
    hide DomainAt, RemoveDomain;
    if s == "" {
      NothingLeft();
    } else {
      RemoveStep(s);
      forall i | 0 <= i < |s| - 1 ensures !DomainAt(s[1..], i) {
        DomainAtTail(s, i);
      }
      NoDomainStays(s[1..]);
    }
  }

  lemma NothingLeft()
    ensures RemoveDomain("") == ""
  {
  }

  /** What the message of a metric says, by its text. */
  lemma MessageIs(c: Child, front: string, m: string)
    requires Checked(c) && IsName(c.name.value) && Get(c.fields.value, "message") == Text(m)
    requires front == if Contains(c.tags["jobinfo"].text, "flag_perf_tests_") then "flag_daap_" else ""
    ensures m == "__daap_heartbeat" ==>
      MessageData(c) == map["metric" := Text(front + "heartbeat"), "type" := Text("heartbeat"), "val" := Int(1)]
    ensures m == "__daap_jobstart" ==> MessageData(c) == map["metric" := Text(front + "job_state"), "state" := Text("start")]
    ensures m == "__daap_jobend" ==> MessageData(c) == map["metric" := Text(front + "job_state"), "state" := Text("end")]
    ensures Contains(m, "__daap_jobduration:") && c.duration.Some? ==>
      MessageData(c) == map["metric" := Text(front + "job_duration"), "duration" := Int(c.duration.value)]
    ensures Contains(m, "__daap_jobduration:") && c.duration.None? ==>
      MessageData(c) == map["metric" := Text(front + "job_duration")]
    ensures m !in {"__daap_heartbeat", "__daap_jobstart", "__daap_jobend"} && !Contains(m, "__daap_jobduration:") ==>
      MessageData(c) == map[]
  {
    hide Names, Raises;
    IsAccepted(c);
    MarksAreShort();
  }

  lemma NoMessageNothing(c: Child)
    requires Checked(c) && IsName(c.name.value) && "message" !in c.fields.value
    ensures MessageData(c) == map[]
  {
    hide Names, Raises, Contains;
    IsAccepted(c);
  }

  /** The other messages are too short to hold the mark of a duration. */
  lemma MarksAreShort()
    ensures !Contains("__daap_heartbeat", "__daap_jobduration:")
    ensures !Contains("__daap_jobstart", "__daap_jobduration:") && !Contains("__daap_jobend", "__daap_jobduration:")
  {
  }

  /** A metric of the library itself is one record of the common fields. */
  lemma DaapRecord(c: Child)
    requires Checked(c) && c.name == Some("daap")
    ensures IsName(c.name.value) && Accepted(c) && ChildOut(c) == Some([Common(c)])
  {
    hide Contains, Names, MetricPrefix, Raises, Common;
    IsAccepted(c);
  }

  // -- Metrics with one record

  /** The temperature of a sensor. */
  lemma TempRecord(c: Child, key: string)
    requires Checked(c) && c.name == Some("temp")
    ensures Gives(c, 1)
    ensures Get(Record(c, 0), key) ==
      if key == "metric" then
        Text((if Contains(c.tags["jobinfo"].text, "flag_perf_tests_") then "flag_daap_" else "") + "temp")
      else if key == "val" then Get(c.fields.value, "temp")
      else if key == "sensor" then Get(c.tags, "sensor")
      else Get(Common(c), key)
  {
    hide Contains, Common, Names, MetricPrefix, Raises;
    IsAccepted(c);
  }

  /** Copying and converting takes the listed keys from the source, and leaves the others alone. */
  lemma {:induction false} EnterAt(d: Data, from: Data, keys: seq<string>, how: Conversion, key: string)
    ensures Get(Enter(d, from, keys, how), key) == if key in keys then Convert(Get(from, key), how) else Get(d, key)
    decreases |keys|
  {
    if keys != [] {
      EnterAt(d[keys[0] := Convert(Get(from, keys[0]), how)], from, keys[1..], how, key);
      assert keys == [keys[0]] + keys[1..];
    }
  }

  predicate PreTeamKey(key: string) {
    key in ["job_cpu_total", "job_duration", "job_ended", "job_id", "job_max_mem", "job_name", "job_nodes",
            "job_result", "job_started", "job_user", "sys_name"]
  }

  lemma PreTeamRecord(c: Child, key: string)
    requires Checked(c) && c.name == Some("pre_team_pavilion_parser")
    ensures Gives(c, 1)
    ensures Get(Record(c, 0), key) ==
      if PreTeamKey(key) then Get(c.tags, key) else if key == "metric" then Text("pre_team") else Get(Common(c), key)
  {
    hide Contains, Common, Names, MetricPrefix, Raises, Enter, PreTeamTags, PreTeamKey;
    IsAccepted(c);
    EnterAt(Common(c)["metric" := Text("pre_team")], c.tags, PreTeamTags(), AsIs, key);
    PreTeamKeys(key);
  }

  lemma PreTeamKeys(key: string)
    ensures key in PreTeamTags() <==> PreTeamKey(key)
  {
  }

  predicate HplKey(key: string) {
    key in ["cpumode", "cpuspeed", "gflops", "job_id", "sys_name", "valalign", "valbcast", "valdepth", "valequil", "vall1",
            "valn", "valnb", "valnbmin", "valndiv", "valp", "valpfact", "valpmap", "valq", "valrfact", "valswap", "valu", "node"]
  }

  lemma HplKeys(key: string)
    ensures key in HplTags() <==> HplKey(key)
  {
  }

  lemma HplRecord(c: Child, key: string)
    requires Checked(c) && c.name == Some("pre_team_pavilion_hpl_parser")
    ensures Gives(c, 1)
    ensures Get(Record(c, 0), key) ==
      if HplKey(key) then Get(c.tags, key) else if key == "metric" then Text("pre_team_hpl") else Get(Common(c), key)
  {
    hide Contains, Common, Names, MetricPrefix, Raises, Enter, HplTags, HplKey;
    IsAccepted(c);
    EnterAt(Common(c)["metric" := Text("pre_team_hpl")], c.tags, HplTags(), AsIs, key);
    HplKeys(key);
  }

  predicate SnapFloat(key: string) {
    key == "execution_time" || key == "grind_time" || key == "job_duration"
  }

  predicate SnapInt(key: string) {
    key == "job_nodes" || key == "job_max_mem" || key == "allocated_words" || key == "job_cpu_total"
  }

  predicate SnapText(key: string) {
    key == "job_result" || key == "job_started" || key == "job_ended" || key == "test_node_list"
  }

  /** A snap metric with its mark gives one record, with the job of the test; without the mark nothing. */
  lemma SnapRecord(c: Child, key: string)
    requires Checked(c) && c.name == Some("snap_pavilion_parser")
    ensures Get(c.fields.value, "message") != Text("daap_pavilion_parser") ==> Gives(c, 0)
    ensures Get(c.fields.value, "message") == Text("daap_pavilion_parser") ==> Gives(c, 1)
    ensures Get(c.fields.value, "message") == Text("daap_pavilion_parser") ==>
      Get(Record(c, 0), key) ==
        if key == "jobid" then Get(c.tags, "job_id")
        else if SnapInt(key) then ToInt(Get(c.tags, key))
        else if SnapFloat(key) then ToFloat(Get(c.tags, key), None)
        else if SnapText(key) then Get(c.tags, key)
        else if key == "metric" then Text("snap_pavilion_parser") else Get(Common(c), key)
  {
    hide Contains, Common, Names, MetricPrefix, Raises, Enter, SnapTags, SnapFloats, SnapInts;
    IsAccepted(c);
    var d := Common(c)["metric" := Text("snap_pavilion_parser")];
    var d1 := Enter(d, c.tags, SnapTags(), AsIs);
    var d2 := Enter(d1, c.tags, SnapFloats(), AsFloat(None));
    EnterAt(d, c.tags, SnapTags(), AsIs, key);
    EnterAt(d1, c.tags, SnapFloats(), AsFloat(None), key);
    EnterAt(d2, c.tags, SnapInts(), AsInt, key);
    SnapKeys(key);
  }

  lemma SnapKeys(key: string)
    ensures key in SnapTags() <==> SnapText(key)
    ensures key in SnapFloats() <==> SnapFloat(key)
    ensures key in SnapInts() <==> SnapInt(key)
  {
  }

  // -- Memory samples

  /** The entry of a job is found under its number and its name. */
  lemma JobKeyIs(c: Child, jobid: string, jobName: string)
    requires Checked(c) && IsName(c.name.value)
    requires OfJob(c.job, "jobid") == Text(jobid) && OfJob(c.job, "job_name") == Text(jobName)
    ensures Accepted(c) && JobKey(c) == jobid + "_" + jobName
  {
    hide Names, Contains, Raises;
    IsAccepted(c);
  }

  /** A memory metric is one sample, at the time of its event, of the job its record names. */
  lemma MemSample(time: int, c: Child, jobid: string, jobName: string)
    requires Checked(c) && c.name == Some("mem")
    requires OfJob(c.job, "jobid") == Text(jobid) && OfJob(c.job, "job_name") == Text(jobName)
    ensures var v := Get(c.fields.value, "used_percent");
      ChildSamples(time, c) ==
        [Sample(jobid + "_" + jobName, time, if v.Number? then Some(v.number) else if v.Int? then Some(v.whole as real) else None)]
  {
    hide Names, Contains, Raises, JobKey, OfJob;
    JobKeyIs(c, jobid, jobName);
  }

  lemma OthersGiveNoSample(time: int, c: Child)
    requires c.name != Some("mem") || !Checked(c)
    ensures ChildSamples(time, c) == []
  {
    hide Names, Contains, JobKey;
  }
}
