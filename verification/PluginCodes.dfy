/**
  The text messages of each code, with mark, first field, metric and fields written out
  (`out_daap.rb`, lines 141-377): what the one record of a printed message holds.
 */
module PluginCodes {
  import opened Options
  import opened CStrings
  import opened Numbers
  import opened PluginText
  import opened PluginRoundTrip
  import opened Records
  import opened TextRecords
  import opened TextFields
  import opened PluginDispatch

  /** The pairs of a message, last write wins, over the metric of its code. */
  function MessagePairs(metric: string, ps: seq<Item>, stamp: string): Data {
    AsTexts(Assign(map["metric" := metric], WithStamp(ps, stamp)))
  }

  /** Items, and a time stamp of digits, as they can be printed. */
  predicate Printed(fields: seq<Item>, stamp: string, tail: string) {
    Good(fields) && stamp != "" && AllDigits(stamp) && IsTail(tail)
  }

  /** The first field is the one its block expects, behind tags that do not end in white space. */
  predicate PrintedTags(tags: seq<Item>, fields: seq<Item>, first: string) {
    Good(tags) && EndsPlain(Scrub(tags[|tags| - 1].value)) && fields != [] && Scrub(fields[0].key) == first
  }

  lemma {:induction false} StampKept(metric: string, ps: seq<Item>, stamp: string)
    requires AllDigits(stamp) && stamp != ""
    ensures Get(MessagePairs(metric, ps, stamp), "timestamp") == Text(stamp)
    ensures Whole(Text(stamp)) == NumberOf(stamp)
  {
    hide Assign, Strip, Atoi, NumberOf;
    AssignAppend(map["metric" := metric], ps, Item("timestamp", stamp));
    StripDigits(stamp);
    AtoiDigits(stamp);
  }

  /** A record is the fields of its code, with the time in seconds. */
  lemma RecordAt(kind: Kind, ps: seq<Item>, stamp: string, key: string)
    ensures var d, r := Fields(kind.code, MessagePairs(kind.metric, ps, stamp)), TextData(kind, OwnPairs(kind, ps, stamp));
      Get(r, key) == if key == "timestamp" then Int(Whole(Get(d, key)) / 1_000_000_000) else Get(d, key)
  {
    hide Fields, Assign, AsTexts;
  }

  lemma KindsListed()
    ensures |Kinds()| == 6
    ensures Kinds()[0] == ("lap-metrics,", Kind("lap-metrics", "problem_name", "lap_metrics"))
    ensures Kinds()[1] == ("poisson-metrics ", Kind("poisson-metrics", "app", "ristra_metrics"))
    ensures Kinds()[2] == ("jayenne,", Kind("jayenne", "runtime", "jayenne_metrics"))
    ensures Kinds()[3] == ("mcatk ", Kind("mcatk", "", "mcatk_metrics"))
    ensures Kinds()[4] == ("sap,", Kind("sap", "npes", "sap_metrics"))
    ensures Kinds()[5] == ("xrage,", Kind("xrage", "job_id", "xrage_metrics"))
  {
  }

  /** A message without any of the six marks gives nothing. */
  lemma NoMarkNothing(m: PlainMessage)
    requires !Contains(m, "lap-metrics,") && !Contains(m, "poisson-metrics ") && !Contains(m, "jayenne,")
    requires !Contains(m, "mcatk ") && !Contains(m, "sap,") && !Contains(m, "xrage,")
    ensures TextOut(m) == Some([])
  {
    hide Kinds, Contains, Parsed, Items, TextData;
    KindsListed();
    assert KindFrom(m, 5) == None;
    assert KindFrom(m, 4) == None;
    assert KindFrom(m, 3) == None;
    assert KindFrom(m, 2) == None;
    assert KindFrom(m, 1) == None;
  }

  /** One record. */
  ghost predicate One(m: string) {
    IsPlain(m) && TextOut(m).Some? && |TextOut(m).value| == 1
  }

  function Only(m: string): Data
    requires One(m)
  {
    TextOut(m).value[0]
  }

  /** A printed message of a code with tags that no earlier mark claims is one record of its code. */
  lemma {:induction false} Tagged(i: nat, tags: seq<Item>, fields: seq<Item>, stamp: string, tail: string, key: string)
    requires i < |Kinds()| && !Plain(Kinds()[i].1.code) && Printed(fields, stamp, tail)
    requires PrintedTags(tags, fields, Kinds()[i].1.firstField)
    requires var m := TaggedText(Kinds()[i].1.code, tags, fields, stamp, tail); IsPlain(m) && Untaken(m, i)
    ensures var kind := Kinds()[i].1;
      var m := TaggedText(kind.code, tags, fields, stamp, tail);
      var d := Fields(kind.code, MessagePairs(kind.metric, ScrubItems(tags) + ScrubItems(fields), stamp));
      One(m) && Get(Only(m), key) == if key == "timestamp" then Int(Whole(Get(d, key)) / 1_000_000_000) else Get(d, key)
  {
    hide Kinds, TaggedText, TextOut, TextData, Fields, MessagePairs, OwnPairs, Good, Scrub, Untaken, IsPlain;
    TaggedIff(i, tags, fields, stamp, tail);
    RecordAt(Kinds()[i].1, ScrubItems(tags) + ScrubItems(fields), stamp, key);
  }

  lemma {:induction false} Untagged(i: nat, fields: seq<Item>, stamp: string, tail: string, key: string)
    requires i < |Kinds()| && Plain(Kinds()[i].1.code) && Printed(fields, stamp, tail)
    requires var m := UntaggedText(Kinds()[i].1.code, fields, stamp, tail); IsPlain(m) && Untaken(m, i)
    ensures var kind := Kinds()[i].1;
      var m := UntaggedText(kind.code, fields, stamp, tail);
      var d := Fields(kind.code, MessagePairs(kind.metric, ScrubItems(fields), stamp));
      One(m) && Get(Only(m), key) == if key == "timestamp" then Int(Whole(Get(d, key)) / 1_000_000_000) else Get(d, key)
  {
    hide Kinds, UntaggedText, TextOut, TextData, Fields, MessagePairs, OwnPairs, Good, Scrub, Untaken, IsPlain;
    UntaggedIff(i, fields, stamp, tail);
    RecordAt(Kinds()[i].1, ScrubItems(fields), stamp, key);
  }

  lemma {:induction false} StampOf(fields: seq<Item>, stamp: string, tail: string, metric: string, ps: seq<Item>)
    requires Printed(fields, stamp, tail)
    ensures Whole(Get(MessagePairs(metric, ps, stamp), "timestamp")) == NumberOf(stamp)
  {
    StampKept(metric, ps, stamp);
  }

  // -- Code by code

  /** "lap-metrics,TAGS problem_name=... STAMP". */
  lemma {:induction false} LapMessage(tags: seq<Item>, fields: seq<Item>, stamp: string, tail: string, key: string)
    requires Printed(fields, stamp, tail) && PrintedTags(tags, fields, "problem_name")
    requires IsPlain("lap-metrics," + ItemsText(tags) + " " + ItemsText(fields) + " " + stamp + tail)
    ensures var m := "lap-metrics," + ItemsText(tags) + " " + ItemsText(fields) + " " + stamp + tail;
      var d := MessagePairs("lap_metrics", ScrubItems(tags) + ScrubItems(fields), stamp);
      One(m) && Get(Only(m), key) ==
        if key == "timestamp" then Int(NumberOf(stamp) / 1_000_000_000)
        else if key == "tot-time_cycles-1" || key == "number_of_cycles-1" then Nil
        else if key == "tot_time_cycles_1" then ToFloat(Get(d, "tot-time_cycles-1"), Some(8))
        else if key == "number_of_cycles_1" then ToInt(Get(d, "number_of_cycles-1"))
        else if key == "adjusted_runtime" then ToFloat(Get(d, key), Some(8))
        else if key == "total_number_of_zones" || key == "total_number_of_processors" then ToInt(Get(d, key))
        else Get(d, key)
  {
    hide Kinds, TextOut, Fields, MessagePairs, Good, Scrub, IsPlain, Whole, NumberOf, Contains, Printed, PrintedTags, One, Only, ItemsText;
    var d := MessagePairs("lap_metrics", ScrubItems(tags) + ScrubItems(fields), stamp);
    KindsListed();
    assert "lap-metrics" + "," == "lap-metrics,";
    Tagged(0, tags, fields, stamp, tail, key);
    LapAt(d, key);
    StampOf(fields, stamp, tail, "lap_metrics", ScrubItems(tags) + ScrubItems(fields));
  }

  /** "jayenne,TAGS runtime=... STAMP". */
  lemma {:induction false} JayenneMessage(tags: seq<Item>, fields: seq<Item>, stamp: string, tail: string, key: string)
    requires Printed(fields, stamp, tail) && PrintedTags(tags, fields, "runtime")
    requires var m := "jayenne," + ItemsText(tags) + " " + ItemsText(fields) + " " + stamp + tail;
      IsPlain(m) && !Contains(m, "lap-metrics,") && !Contains(m, "poisson-metrics ")
    ensures var m := "jayenne," + ItemsText(tags) + " " + ItemsText(fields) + " " + stamp + tail;
      var d := MessagePairs("jayenne_metrics", ScrubItems(tags) + ScrubItems(fields), stamp);
      One(m) && Get(Only(m), key) ==
        if key == "timestamp" then Int(NumberOf(stamp) / 1_000_000_000)
        else if key == "runtime" then ToFloat(Get(d, key), Some(3))
        else if key == "n_cores" || key == "n_particles" then ToInt(Get(d, key))
        else Get(d, key)
  {
    hide Kinds, TextOut, Fields, MessagePairs, Good, Scrub, IsPlain, Whole, NumberOf, Contains, Printed, PrintedTags, One, Only, ItemsText;
    var d := MessagePairs("jayenne_metrics", ScrubItems(tags) + ScrubItems(fields), stamp);
    KindsListed();
    assert "jayenne" + "," == "jayenne,";
    Tagged(2, tags, fields, stamp, tail, key);
    JayenneAt(d, key);
    StampOf(fields, stamp, tail, "jayenne_metrics", ScrubItems(tags) + ScrubItems(fields));
  }

  /** "sap,TAGS npes=... STAMP". */
  lemma {:induction false} SapMessage(tags: seq<Item>, fields: seq<Item>, stamp: string, tail: string, key: string)
    requires Printed(fields, stamp, tail) && PrintedTags(tags, fields, "npes")
    requires var m := "sap," + ItemsText(tags) + " " + ItemsText(fields) + " " + stamp + tail;
      IsPlain(m) && !Contains(m, "lap-metrics,") && !Contains(m, "poisson-metrics ") && !Contains(m, "jayenne,") &&
      !Contains(m, "mcatk ")
    ensures var m := "sap," + ItemsText(tags) + " " + ItemsText(fields) + " " + stamp + tail;
      var d := MessagePairs("sap_metrics", ScrubItems(tags) + ScrubItems(fields), stamp);
      One(m) && Get(Only(m), key) ==
        if key == "timestamp" then Int(NumberOf(stamp) / 1_000_000_000)
        else if key == "cpu_time_per_cell" || key == "runtime_per_cycle" then ToFloat(Get(d, key), Some(3))
        else if key == "npes" || key == "cells" then ToInt(Get(d, key))
        else Get(d, key)
  {
    hide Kinds, TextOut, Fields, MessagePairs, Good, Scrub, IsPlain, Whole, NumberOf, Contains, Printed, PrintedTags, One, Only, ItemsText;
    var d := MessagePairs("sap_metrics", ScrubItems(tags) + ScrubItems(fields), stamp);
    KindsListed();
    assert "sap" + "," == "sap,";
    Tagged(4, tags, fields, stamp, tail, key);
    SapAt(d, key);
    StampOf(fields, stamp, tail, "sap_metrics", ScrubItems(tags) + ScrubItems(fields));
  }

  /** "poisson-metrics FIELDS STAMP". */
  lemma {:induction false} PoissonMessage(fields: seq<Item>, stamp: string, tail: string, key: string)
    requires Printed(fields, stamp, tail)
    requires var m := "poisson-metrics " + ItemsText(fields) + " " + stamp + tail;
      IsPlain(m) && !Contains(m, "lap-metrics,")
    ensures var m := "poisson-metrics " + ItemsText(fields) + " " + stamp + tail;
      var d := MessagePairs("ristra_metrics", ScrubItems(fields), stamp);
      One(m) && Get(Only(m), key) ==
        if key == "timestamp" then Int(NumberOf(stamp) / 1_000_000_000)
        else if key == "jobid" then Undashed(Get(d, key))
        else if key == "cpu" || key == "cycle_time" then ToFloat(Get(d, key), Some(3))
        else if key in ["numpe", "cycles", "cells", "nodes", "ppn"] then ToInt(Get(d, key))
        else Get(d, key)
  {
    hide Kinds, TextOut, Fields, MessagePairs, Good, Scrub, IsPlain, Whole, NumberOf, Contains, Printed, PrintedTags, One, Only, ItemsText;
    var d := MessagePairs("ristra_metrics", ScrubItems(fields), stamp);
    KindsListed();
    assert "poisson-metrics" + " " == "poisson-metrics ";
    Untagged(1, fields, stamp, tail, key);
    PoissonAt(d, key);
    StampOf(fields, stamp, tail, "ristra_metrics", ScrubItems(fields));
  }

  /** "mcatk FIELDS STAMP". */
  lemma {:induction false} McatkMessage(fields: seq<Item>, stamp: string, tail: string, key: string)
    requires Printed(fields, stamp, tail)
    requires var m := "mcatk " + ItemsText(fields) + " " + stamp + tail;
      IsPlain(m) && !Contains(m, "lap-metrics,") && !Contains(m, "poisson-metrics ") && !Contains(m, "jayenne,")
    ensures var m := "mcatk " + ItemsText(fields) + " " + stamp + tail;
      var d := MessagePairs("mcatk_metrics", ScrubItems(fields), stamp);
      One(m) && Get(Only(m), key) ==
        if key == "timestamp" then Int(NumberOf(stamp) / 1_000_000_000)
        else if key == "total_solve_time" then ToFloat(Get(d, key), Some(3))
        else if key == "ppn" || key == "nodes" || key == "numpe" then ToInt(Get(d, key))
        else Get(d, key)
  {
    hide Kinds, TextOut, Fields, MessagePairs, Good, Scrub, IsPlain, Whole, NumberOf, Contains, Printed, PrintedTags, One, Only, ItemsText;
    var d := MessagePairs("mcatk_metrics", ScrubItems(fields), stamp);
    KindsListed();
    assert "mcatk" + " " == "mcatk ";
    Untagged(3, fields, stamp, tail, key);
    McatkAt(d, key);
    StampOf(fields, stamp, tail, "mcatk_metrics", ScrubItems(fields));
  }

  predicate XrageInt(key: string) {
    key in ["numpe", "nodes", "ppn_min", "ppn_max", "dims", "n_cycles"]
  }

  predicate XrageFloat(key: string) {
    || key in ["scale", "rss_min", "rss_avg", "rss_max", "rss_max_min", "rss_max_avg", "rss_max_max"]
    || key in ["cyc_cc_min", "cyc_cc_avg", "cyc_cc_max", "cyc_sec_min", "cyc_sec_avg", "cyc_sec_max", "sum_cyc_sec"]
    || key in ["avg_cells_min", "avg_cells_avg", "avg_cells_max", "elapsed_s", "elapsed_minus_first_s"]
  }

  predicate DriverFloat(key: string) {
    key == "driver_after_cyclemin" || key == "driver_after_cyclemax" || key == "driver_after_cycleavg"
  }

  lemma XrageIntKeys(key: string)
    ensures key in XrageInts() <==> XrageInt(key)
  {
  }

  lemma XrageFloatKeys(key: string)
    ensures key in XrageFloats() <==> XrageFloat(key)
  {
  }

  lemma DriverKeys(key: string)
    ensures key in DriverFloats() <==> DriverFloat(key)
  {
  }

  /** A revision under its key of the message, or what stands in for it. */
  function RevisionOf(d: Data, key: string, standIn: string): Value {
    if key in d then d[key] else Text(standIn)
  }

  /** A field of an xrage record before it is converted. */
  function XrageField(d: Data, key: string): Value {
    if key == "scm_id_0_EH0" then RevisionOf(d, "scm_id_0.EH0", "9c29c13659d2e995cbd4f22fb8634bc7c5b47b5b")
    else if key == "scm_id_0_EB0" then RevisionOf(d, "scm_id_0.EB0", "master")
    else if key == "scm_id_1_EB1" then RevisionOf(d, "scm_id_1.EB1", "master")
    else if key == "scm_id_1_EH1" then RevisionOf(d, "scm_id_1.EH1", "72df37ead555035ba71867782fe6a69b216ff30a")
    else if key == "scm_id_2_EH2" then RevisionOf(d, "scm_id_2.EH2", "b877a35ac8480f5f05280f760f47e4a43f1b24c3")
    else if key == "scm_id_2_EB2" then RevisionOf(d, "scm_id_2.EB2", "master")
    else if IsOldKey(key) then Nil
    else if key == "job_id" then Undashed(Get(d, key))
    else Get(d, key)
  }

  predicate IsOldKey(key: string) {
    || key == "scm_id_0.EH0" || key == "scm_id_0.EB0" || key == "scm_id_1.EB1"
    || key == "scm_id_1.EH1" || key == "scm_id_2.EH2" || key == "scm_id_2.EB2"
  }

  lemma RevisionsListed()
    ensures |Revisions()| == 6
    ensures Revisions()[0] == ("scm_id_0.EH0", "scm_id_0_EH0", "9c29c13659d2e995cbd4f22fb8634bc7c5b47b5b")
    ensures Revisions()[1] == ("scm_id_0.EB0", "scm_id_0_EB0", "master")
    ensures Revisions()[2] == ("scm_id_1.EB1", "scm_id_1_EB1", "master")
    ensures Revisions()[3] == ("scm_id_1.EH1", "scm_id_1_EH1", "72df37ead555035ba71867782fe6a69b216ff30a")
    ensures Revisions()[4] == ("scm_id_2.EH2", "scm_id_2_EH2", "b877a35ac8480f5f05280f760f47e4a43f1b24c3")
    ensures Revisions()[5] == ("scm_id_2.EB2", "scm_id_2_EB2", "master")
  {
  }

  lemma RevisionSame(d: Data, r: (string, string, string))
    ensures Revision(d, r) == RevisionOf(d, r.0, r.2)
  {
  }

  lemma NewKeyField(d: Data, key: string, p: nat)
    requires p < |Revisions()| && key == Revisions()[p].1
    ensures XrageField(d, key) == Revision(d, Revisions()[p])
  {
    hide Revisions, Get, Undashed, RevisionOf, Revision, IsOldKey;
    RevisionsListed();
    assert forall j | 0 <= j < p :: Revisions()[j].1 != key;
    RevisionSame(d, Revisions()[p]);
  }

  lemma OtherKeyField(d: Data, key: string)
    requires forall j | 0 <= j < |Revisions()| :: key != Revisions()[j].1
    ensures XrageField(d, key) ==
      if exists j | 0 <= j < |Revisions()| :: key == Revisions()[j].0 then Nil
      else if key == "job_id" then Undashed(Get(d, key)) else Get(d, key)
  {
    hide Revisions, Undashed;
    RevisionsListed();
    assert forall j | 0 <= j < 6 :: Revisions()[j].1 != key;
    assert IsOldKey(key) <==> exists j | 0 <= j < 6 :: key == Revisions()[j].0;
  }

  /** What comes before the conversions, written out. */
  lemma PreparedIs(d: Data, key: string)
    requires key != "timestamp"
    ensures Prepared(d, key) == XrageField(d, key)
  {
    hide Revisions, XrageField, Place, Undashed;
    var p := Place(Revisions(), key, false);
    if p != -1 {
      NewKeyField(d, key, p);
    } else {
      OtherKeyField(d, key);
      var q := Place(Revisions(), key, true);
      assert q != -1 ==> key == Revisions()[q].0;
    }
  }

  /**
    "xrage,TAGS job_id=... STAMP". With a date of the run that is the time; if the pairs name
    another metric only the driver times are converted.
   */
  lemma {:induction false} XrageMessage(tags: seq<Item>, fields: seq<Item>, stamp: string, tail: string, key: string)
    requires Printed(fields, stamp, tail) && PrintedTags(tags, fields, "job_id")
    requires var m := "xrage," + ItemsText(tags) + " " + ItemsText(fields) + " " + stamp + tail;
      IsPlain(m) && !Contains(m, "lap-metrics,") && !Contains(m, "poisson-metrics ") && !Contains(m, "jayenne,") &&
      !Contains(m, "mcatk ") && !Contains(m, "sap,")
    ensures var m := "xrage," + ItemsText(tags) + " " + ItemsText(fields) + " " + stamp + tail;
      var d := MessagePairs("xrage_metrics", ScrubItems(tags) + ScrubItems(fields), stamp);
      One(m) && Get(Only(m), key) ==
        if key == "timestamp" then
          Int((if IsXrageMetric(d) && "run_date" in d then Whole(d["run_date"]) else NumberOf(stamp)) / 1_000_000_000)
        else if !IsXrageMetric(d) then (if DriverFloat(key) then ToFloat(Get(d, key), None) else Get(d, key))
        else if XrageFloat(key) then ToFloat(XrageField(d, key), Some(3))
        else if XrageInt(key) then ToInt(XrageField(d, key)) else XrageField(d, key)
  {
    hide Kinds, TextOut, Fields, MessagePairs, Good, Scrub, IsPlain, Whole, NumberOf, Contains, Printed, PrintedTags, One, Only, ItemsText,
      IsXrageMetric, XrageFloats, XrageInts, DriverFloats, Prepared, XrageFloat, XrageInt, DriverFloat, XrageField;
    var d := MessagePairs("xrage_metrics", ScrubItems(tags) + ScrubItems(fields), stamp);
    KindsListed();
    assert "xrage" + "," == "xrage,";
    Tagged(5, tags, fields, stamp, tail, key);
    XrageAt(d, key);
    TimesUnlisted();
    PreparedTime(d);
    XrageFloatKeys(key);
    XrageIntKeys(key);
    DriverKeys(key);
    if key != "timestamp" {
      PreparedIs(d, key);
    }
    StampOf(fields, stamp, tail, "xrage_metrics", ScrubItems(tags) + ScrubItems(fields));
  }

  /** The time stamp is none of the fields that are converted. */
  lemma TimesUnlisted()
    ensures !XrageFloat("timestamp") && !XrageInt("timestamp") && !DriverFloat("timestamp")
  {
  }

  lemma PreparedTime(d: Data)
    ensures Whole(Prepared(d, "timestamp")) == if "run_date" in d then Whole(d["run_date"]) else Whole(Get(d, "timestamp"))
  {
    hide Place, Revisions, RevisedValue;
    RevisionsListed();
    assert forall j | 0 <= j < 6 :: Revisions()[j].0[0] == 's' && Revisions()[j].1[0] == 's';
    assert "timestamp"[0] == 't';
  }
}
