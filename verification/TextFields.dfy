/**
  What the blocks of the plugin for text messages do to the fields of a record (`out_daap.rb`,
  lines 141-371), field by field: which change, and what each becomes.
 */
module TextFields {
  import opened Options
  import opened PluginText
  import opened Records
  import opened TextRecords

  predicate Different(keys: seq<string>) {
    forall i, j | 0 <= i < j < |keys| :: keys[i] != keys[j]
  }

  /** Some fields as floats, some as whole numbers, the rest as they are. */
  function Converted(d: Data, key: string, floats: seq<string>, digits: Option<nat>, ints: seq<string>): Value {
    if key in floats then ToFloat(Get(d, key), digits) else if key in ints then ToInt(Get(d, key)) else Get(d, key)
  }

  lemma {:induction false} TwoLists(d: Data, key: string, floats: seq<string>, digits: Option<nat>, ints: seq<string>)
    requires Different(floats) && Different(ints) && forall k | k in floats :: k !in ints
    ensures Get(Change(Change(d, floats, AsFloat(digits)), ints, AsInt), key) == Converted(d, key, floats, digits, ints)
    ensures Get(Change(Change(d, ints, AsInt), floats, AsFloat(digits)), key) == Converted(d, key, floats, digits, ints)
  {
    ChangeAt(d, floats, AsFloat(digits), key);
    ChangeAt(Change(d, floats, AsFloat(digits)), ints, AsInt, key);
    ChangeAt(d, ints, AsInt, key);
    ChangeAt(Change(d, ints, AsInt), floats, AsFloat(digits), key);
  }

  lemma JayenneAt(d: Data, key: string)
    ensures Get(Fields("jayenne", d), key) == Converted(d, key, ["runtime"], Some(3), ["n_cores", "n_particles"])
  {
    hide Change, Converted;
    TwoLists(d, key, ["runtime"], Some(3), ["n_cores", "n_particles"]);
  }

  lemma McatkAt(d: Data, key: string)
    ensures Get(Fields("mcatk", d), key) == Converted(d, key, ["total_solve_time"], Some(3), ["ppn", "nodes", "numpe"])
  {
    hide Change, Converted;
    TwoLists(d, key, ["total_solve_time"], Some(3), ["ppn", "nodes", "numpe"]);
  }

  lemma SapAt(d: Data, key: string)
    ensures Get(Fields("sap", d), key) ==
      Converted(d, key, ["cpu_time_per_cell", "runtime_per_cycle"], Some(3), ["npes", "cells"])
  {
    hide Change, Converted;
    TwoLists(d, key, ["cpu_time_per_cell", "runtime_per_cycle"], Some(3), ["npes", "cells"]);
  }

  /** A text without its hyphens. */
  function Undashed(v: Value): Value {
    if v.Text? then Text(RemoveAll(v.text, "-")) else v
  }

  lemma PoissonAt(d: Data, key: string)
    ensures Get(Fields("poisson-metrics", d), key) ==
      if key == "jobid" then Undashed(Get(d, key))
      else Converted(d, key, ["cpu", "cycle_time"], Some(3), ["numpe", "cycles", "cells", "nodes", "ppn"])
  {
    hide Change, RemoveAll;
    TwoLists(Dashless(d, "jobid"), key, ["cpu", "cycle_time"], Some(3), ["numpe", "cycles", "cells", "nodes", "ppn"]);
  }

  lemma RenameAt(d: Data, from: string, to: string, key: string)
    requires from != to
    ensures Get(Rename(d, from, to), key) == if key == from then Nil else if key == to then Get(d, from) else Get(d, key)
  {
  }

  lemma LapTimesAt(d: Data, key: string)
    ensures Get(LapTimes(d), key) ==
      if key == "tot-time_cycles-1" then Nil
      else if key == "tot_time_cycles_1" then ToFloat(Get(d, "tot-time_cycles-1"), Some(8))
      else if key == "adjusted_runtime" then ToFloat(Get(d, key), Some(8)) else Get(d, key)
  {
    hide Change, Rename;
    var from, to, how := "tot-time_cycles-1", "tot_time_cycles_1", AsFloat(Some(8));
    var changed := Change(d, [from], how);
    ChangeAt(d, [from], how, key);
    ChangeAt(d, [from], how, from);
    RenameAt(changed, from, to, key);
    ChangeAt(Rename(changed, from, to), ["adjusted_runtime"], how, key);
  }

  lemma LapCountsAt(d: Data, key: string)
    ensures Get(LapCounts(d), key) ==
      if key == "number_of_cycles-1" then Nil
      else if key == "number_of_cycles_1" then ToInt(Get(d, "number_of_cycles-1"))
      else if key == "total_number_of_zones" || key == "total_number_of_processors" then ToInt(Get(d, key)) else Get(d, key)
  {
    hide Change, Rename;
    var from, to, keys := "number_of_cycles-1", "number_of_cycles_1", ["total_number_of_zones", "number_of_cycles-1"];
    var changed := Change(d, keys, AsInt);
    ChangeAt(d, keys, AsInt, key);
    ChangeAt(d, keys, AsInt, from);
    RenameAt(changed, from, to, key);
    ChangeAt(Rename(changed, from, to), ["total_number_of_processors"], AsInt, key);
  }

  /** Two fields of a lap record get other names, and the old names go. */
  lemma LapAt(d: Data, key: string)
    ensures Get(Fields("lap-metrics", d), key) ==
      if key == "tot-time_cycles-1" || key == "number_of_cycles-1" then Nil
      else if key == "tot_time_cycles_1" then ToFloat(Get(d, "tot-time_cycles-1"), Some(8))
      else if key == "number_of_cycles_1" then ToInt(Get(d, "number_of_cycles-1"))
      else Converted(d, key, ["adjusted_runtime"], Some(8), ["total_number_of_zones", "total_number_of_processors"])
  {
    hide LapTimes, LapCounts;
    LapTimesAt(d, key);
    LapTimesAt(d, "number_of_cycles-1");
    LapCountsAt(LapTimes(d), key);
  }

  // -- xrage

  /** The revisions have keys of their own. */
  predicate Separate(rs: seq<(string, string, string)>) {
    KeysDiffer(rs) && KeysDoNotCross(rs)
  }

  predicate KeysDiffer(rs: seq<(string, string, string)>) {
    forall i, j | 0 <= i < j < |rs| :: rs[i].0 != rs[j].0 && rs[i].1 != rs[j].1
  }

  predicate KeysDoNotCross(rs: seq<(string, string, string)>) {
    forall i, j | 0 <= i < |rs| && 0 <= j < |rs| :: rs[i].0 != rs[j].1
  }

  /** The revision with a key, as it is in the message or in the record; -1 if there is none. */
  function Place(rs: seq<(string, string, string)>, key: string, inMessage: bool): (i: int)
    ensures -1 <= i < |rs| && (i != -1 ==> key == if inMessage then rs[i].0 else rs[i].1)
    ensures i == -1 ==> forall j | 0 <= j < |rs| :: key != if inMessage then rs[j].0 else rs[j].1
  {
    if rs == [] then -1
    else if key == (if inMessage then rs[0].0 else rs[0].1) then 0
    else
      var later := Place(rs[1..], key, inMessage);
      assert forall j | 0 < j < |rs| :: rs[j] == rs[1..][j - 1];
      if later == -1 then -1 else later + 1
  }

  /** The revision from the message, or what stands in for it. */
  function Revision(d: Data, r: (string, string, string)): Value {
    if r.0 in d then d[r.0] else Text(r.2)
  }

  function RevisedValue(d: Data, rs: seq<(string, string, string)>, key: string): Value {
    var i := Place(rs, key, false);
    if i != -1 then Revision(d, rs[i]) else if Place(rs, key, true) != -1 then Nil else Get(d, key)
  }

  lemma RevisedOne(d: Data, r: (string, string, string), key: string)
    requires r.0 != r.1
    ensures Get(Revised(d, r), key) == if key == r.1 then Revision(d, r) else if key == r.0 then Nil else Get(d, key)
    ensures key != r.0 && key != r.1 ==> (key in Revised(d, r) <==> key in d)
  {
  }

  lemma {:induction false} PlaceTail(rs: seq<(string, string, string)>, key: string, inMessage: bool)
    requires rs != [] && key != if inMessage then rs[0].0 else rs[0].1
    ensures Place(rs, key, inMessage) == if Place(rs[1..], key, inMessage) == -1 then -1 else Place(rs[1..], key, inMessage) + 1
  {
  }

  /** Each revision of the record comes from the message or is filled in, and the old keys go. */
  lemma {:induction false} AllRevisedAt(d: Data, rs: seq<(string, string, string)>, key: string)
    requires Separate(rs)
    ensures Get(AllRevised(d, rs), key) == RevisedValue(d, rs, key)
    decreases |rs|
  {
    if rs != [] {
      var r, rest := rs[0], rs[1..];
      SeparateTail(rs);
      AllRevisedAt(Revised(d, r), rest, key);
      RevisedOne(d, r, key);
      var i := Place(rest, key, false);
      if i != -1 {
        RevisedOne(d, r, rest[i].0);
        assert rest[i] == rs[i + 1];
      }
      if key != r.1 {
        PlaceTail(rs, key, false);
      }
      if key != r.0 {
        PlaceTail(rs, key, true);
      }
      if key == r.0 || key == r.1 {
        OthersApart(rs, key);
      }
    }
  }

  lemma SeparateTail(rs: seq<(string, string, string)>)
    requires Separate(rs) && rs != []
    ensures Separate(rs[1..])
  {
    var rest := rs[1..];
    assert forall i | 0 <= i < |rest| :: rest[i] == rs[i + 1];
  }

  lemma {:induction false} OthersApart(rs: seq<(string, string, string)>, key: string)
    requires Separate(rs) && rs != [] && (key == rs[0].0 || key == rs[0].1)
    ensures Place(rs[1..], key, false) == -1 && Place(rs[1..], key, true) == -1
  {
    assert forall i | 0 <= i < |rs| - 1 :: rs[1..][i] == rs[i + 1];
  }

  lemma RevisionsSeparate()
    ensures Separate(Revisions())
  {
    hide KeysDiffer, KeysDoNotCross, Revisions;
    RevisionKeysDiffer();
    RevisionKeysDoNotCross();
  }

  lemma RevisionKeysDiffer()
    ensures KeysDiffer(Revisions())
  {
    var rs := Revisions();
    assert |rs| == 6;
  }

  /** The keys of the message have a dot where those of the record have an underscore. */
  lemma RevisionKeysDoNotCross()
    ensures KeysDoNotCross(Revisions())
  {
    var rs := Revisions();
    assert forall i | 0 <= i < 6 :: |rs[i].0| > 8 && |rs[i].1| > 8 && rs[i].0[8] == '.' && rs[i].1[8] == '_';
  }

  lemma IntsDifferent()
    ensures Different(XrageInts())
  {
    var ints := XrageInts();
    assert |ints| == 6;
  }

  lemma FloatsDifferent()
    ensures Different(XrageFloats())
  {
    var floats := XrageFloats();
    assert |floats| == 19;
  }

  lemma ListsApart()
    ensures forall k | k in XrageFloats() :: k !in XrageInts()
  {
    var floats, ints := XrageFloats(), XrageInts();
    assert |floats| == 19 && |ints| == 6;
  }

  lemma XrageLists()
    ensures Different(XrageInts()) && Different(XrageFloats()) && Separate(Revisions())
    ensures forall k | k in XrageFloats() :: k !in XrageInts()
  {
    hide *;
    RevisionsSeparate();
    IntsDifferent();
    FloatsDifferent();
    ListsApart();
  }

  /** Before the conversions: the time of a dated run, the job without hyphens, the revisions. */
  function Prepared(d: Data, key: string): Value {
    if Place(Revisions(), key, false) != -1 || Place(Revisions(), key, true) != -1 then RevisedValue(d, Revisions(), key)
    else if key == "timestamp" && "run_date" in d then Int(Whole(d["run_date"]))
    else if key == "job_id" then Undashed(Get(d, key))
    else Get(d, key)
  }

  lemma PreparedAt(d: Data, key: string)
    ensures Get(AllRevised(Dated(Dashless(d, "job_id")), Revisions()), key) == Prepared(d, key)
  {
    hide AllRevised, RemoveAll, Whole, Place;
    XrageLists();
    var rs := Revisions();
    AllRevisedAt(Dated(Dashless(d, "job_id")), rs, key);
    var i := Place(rs, key, false);
    if i != -1 {
      assert rs[i].0 != "timestamp" && rs[i].0 != "job_id";
    }
  }

  /** An xrage record, field by field; one that gave itself another metric has its driver times converted only. */
  lemma XrageAt(d: Data, key: string)
    ensures Get(Fields("xrage", d), key) ==
      if !IsXrageMetric(d) then (if key in DriverFloats() then ToFloat(Get(d, key), None) else Get(d, key))
      else if key in XrageFloats() then ToFloat(Prepared(d, key), Some(3))
      else if key in XrageInts() then ToInt(Prepared(d, key)) else Prepared(d, key)
  {
    hide Change, Prepared, AllRevised, IsXrageMetric, XrageFloats, XrageInts, Dated, Dashless, Revisions;
    if IsXrageMetric(d) {
      XrageLists();
      PreparedAt(d, key);
      TwoLists(AllRevised(Dated(Dashless(d, "job_id")), Revisions()), key, XrageFloats(), Some(3), XrageInts());
    } else {
      ChangeAt(d, DriverFloats(), AsFloat(None), key);
    }
  }
}
