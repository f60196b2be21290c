/**
  What becomes of the pairs of a text message (`out_daap.rb`, lines 141-377): for each code
  some fields are converted, renamed or cleaned before the record is queued.
 */
module TextRecords {
  import opened Options
  import opened CStrings
  import opened Numbers
  import opened PluginText
  import opened Records

  /** The revisions of an xrage record: the key of the message, the key of the record, and what stands in for a missing one. */
  function Revisions(): seq<(string, string, string)> {
    [("scm_id_0.EH0", "scm_id_0_EH0", "9c29c13659d2e995cbd4f22fb8634bc7c5b47b5b"),
     ("scm_id_0.EB0", "scm_id_0_EB0", "master"),
     ("scm_id_1.EB1", "scm_id_1_EB1", "master"),
     ("scm_id_1.EH1", "scm_id_1_EH1", "72df37ead555035ba71867782fe6a69b216ff30a"),
     ("scm_id_2.EH2", "scm_id_2_EH2", "b877a35ac8480f5f05280f760f47e4a43f1b24c3"),
     ("scm_id_2.EB2", "scm_id_2_EB2", "master")]
  }

  function XrageInts(): seq<string> {
    ["numpe", "nodes", "ppn_min", "ppn_max", "dims", "n_cycles"]
  }

  function XrageFloats(): seq<string> {
    ["scale", "rss_min", "rss_avg", "rss_max", "cyc_cc_min", "cyc_cc_avg", "cyc_cc_max", "cyc_sec_min", "cyc_sec_avg",
     "cyc_sec_max", "sum_cyc_sec", "rss_max_min", "rss_max_avg", "rss_max_max", "avg_cells_min", "avg_cells_avg",
     "avg_cells_max", "elapsed_s", "elapsed_minus_first_s"]
  }

  function DriverFloats(): seq<string> {
    ["driver_after_cyclemin", "driver_after_cyclemax", "driver_after_cycleavg"]
  }

  function Revised(d: Data, revision: (string, string, string)): Data {
    if revision.0 in d then Rename(d, revision.0, revision.1) else d[revision.1 := Text(revision.2)]
  }

  function AllRevised(d: Data, revisions: seq<(string, string, string)>): Data
    decreases |revisions|
  {
    if revisions == [] then d else AllRevised(Revised(d, revisions[0]), revisions[1..])
  }

  /** A text as a whole number; a value that is a whole number already; 0 for nothing. */
  function Whole(v: Value): int {
    match v
    case Text(s) => Atoi(s)
    case Int(n) => n
    case _ => 0
  }

  function LapTimes(d: Data): Data {
    var renamed := Rename(Change(d, ["tot-time_cycles-1"], AsFloat(Some(8))), "tot-time_cycles-1", "tot_time_cycles_1");
    Change(renamed, ["adjusted_runtime"], AsFloat(Some(8)))
  }

  function LapCounts(d: Data): Data {
    var changed := Change(d, ["total_number_of_zones", "number_of_cycles-1"], AsInt);
    Change(Rename(changed, "number_of_cycles-1", "number_of_cycles_1"), ["total_number_of_processors"], AsInt)
  }

  function Lap(d: Data): Data {
    LapCounts(LapTimes(d))
  }

  function Poisson(d: Data): Data {
    Change(Change(Dashless(d, "jobid"), ["cpu", "cycle_time"], AsFloat(Some(3))),
           ["numpe", "cycles", "cells", "nodes", "ppn"], AsInt)
  }

  predicate IsXrageMetric(d: Data) {
    Get(d, "metric").Text? && Contains(d["metric"].text, "xrage_metrics")
  }

  /** A run with a date of its own has that as its time. */
  function Dated(d: Data): Data {
    if "run_date" in d then d["timestamp" := Int(Whole(d["run_date"]))] else d
  }

  /** A message can give itself another metric; then only the driver times are converted. */
  function Xrage(d: Data): Data {
    if IsXrageMetric(d) then
      Change(Change(AllRevised(Dated(Dashless(d, "job_id")), Revisions()), XrageInts(), AsInt), XrageFloats(), AsFloat(Some(3)))
    else Change(d, DriverFloats(), AsFloat(None))
  }

  /** The fields of a record by its code, but for the time stamp. */
  function Fields(code: string, d: Data): Data {
    if code == "lap-metrics" then Lap(d)
    else if code == "poisson-metrics" then Poisson(d)
    else if code == "jayenne" then Change(Change(d, ["runtime"], AsFloat(Some(3))), ["n_cores", "n_particles"], AsInt)
    else if code == "mcatk" then Change(Change(d, ["total_solve_time"], AsFloat(Some(3))), ["ppn", "nodes", "numpe"], AsInt)
    else if code == "sap" then
      Change(Change(d, ["cpu_time_per_cell", "runtime_per_cycle"], AsFloat(Some(3))), ["npes", "cells"], AsInt)
    else Xrage(d)
  }

  /** The time stamp in seconds. */
  function Stamped(d: Data): Data {
    d["timestamp" := Int(Whole(Get(d, "timestamp")) / 1_000_000_000)]
  }

  function AsTexts(rec: PluginText.Rec): Data {
    map k | k in rec :: Text(rec[k])
  }

  function TextData(kind: Kind, rec: PluginText.Rec): Data {
    Stamped(Fields(kind.code, AsTexts(rec)))
  }

  /** Messages with JSON in them and caliper messages are not part of this model. */
  predicate IsPlain(message: string) {
    !Contains(message, "fields") && !Contains(message, ",desc=caliper")
  }

  type PlainMessage = message: string | IsPlain(message) witness ""

  /** The record of a message, if it gives one; None where splitting raises an exception. An xrage message without pairs gives none. */
  function TextOut(message: PlainMessage): Option<seq<Data>> {
    match KindFrom(message, 0)
    case None => Some([])
    case Some(kind) =>
      match Parsed(message, kind.code, kind.firstField, kind.metric)
      case None => None
      case Some(rec) =>
        if kind.code == "xrage" && Items(message, kind.code, kind.firstField) == [] then Some([]) else Some([TextData(kind, rec)])
  }

  // -- The code

  method FinishLap(newRec: Records.Rec)
    modifies newRec
    ensures newRec.data == Lap(old(newRec.data))
  {
    newRec.ChangeAll(["tot-time_cycles-1"], AsFloat(Some(8)));
    newRec.Move("tot-time_cycles-1", "tot_time_cycles_1");
    newRec.ChangeAll(["adjusted_runtime"], AsFloat(Some(8)));
    newRec.ChangeAll(["total_number_of_zones", "number_of_cycles-1"], AsInt);
    newRec.Move("number_of_cycles-1", "number_of_cycles_1");
    newRec.ChangeAll(["total_number_of_processors"], AsInt);
  }

  method Revise(newRec: Records.Rec)
    modifies newRec
    ensures newRec.data == AllRevised(old(newRec.data), Revisions())
  {
    var revisions := Revisions();
    ghost var start := newRec.data;
    for i := 0 to |revisions|
      invariant AllRevised(start, revisions) == AllRevised(newRec.data, revisions[i..])
    {
      assert revisions[i..][1..] == revisions[i + 1..];
      var (from, to, standIn) := revisions[i];
      if from in newRec.data {
        newRec.Move(from, to);
      } else {
        newRec.Set(to, Text(standIn));
      }
    }
  }

  method FinishXrage(newRec: Records.Rec)
    modifies newRec
    ensures newRec.data == Xrage(old(newRec.data))
  {
    hide Change, AllRevised, XrageInts, XrageFloats, DriverFloats, Revisions, Contains;
    if IsXrageMetric(newRec.data) {
      newRec.RemoveDashes("job_id");
      if "run_date" in newRec.data {
        newRec.Set("timestamp", Int(Whole(newRec.data["run_date"])));
      }
      Revise(newRec);
      newRec.ChangeAll(XrageInts(), AsInt);
      newRec.ChangeAll(XrageFloats(), AsFloat(Some(3)));
    } else {
      newRec.ChangeAll(DriverFloats(), AsFloat(None));
    }
  }

  method FinishFields(newRec: Records.Rec, code: string)
    modifies newRec
    ensures newRec.data == Fields(code, old(newRec.data))
  {
    hide Change, Xrage, Lap;
    if code == "lap-metrics" {
      FinishLap(newRec);
    } else if code == "poisson-metrics" {
      newRec.RemoveDashes("jobid");
      newRec.ChangeAll(["cpu", "cycle_time"], AsFloat(Some(3)));
      newRec.ChangeAll(["numpe", "cycles", "cells", "nodes", "ppn"], AsInt);
    } else if code == "jayenne" {
      newRec.ChangeAll(["runtime"], AsFloat(Some(3)));
      newRec.ChangeAll(["n_cores", "n_particles"], AsInt);
    } else if code == "mcatk" {
      newRec.ChangeAll(["total_solve_time"], AsFloat(Some(3)));
      newRec.ChangeAll(["ppn", "nodes", "numpe"], AsInt);
    } else if code == "sap" {
      newRec.ChangeAll(["cpu_time_per_cell", "runtime_per_cycle"], AsFloat(Some(3)));
      newRec.ChangeAll(["npes", "cells"], AsInt);
    } else {
      FinishXrage(newRec);
    }
  }

  /** One of the blocks of lines 141-377, once the message is known to be of its kind; no record for None or an exception. */
  method ReadText(text: PlainMessage, kind: Kind) returns (ok: bool, newRec: Option<Records.Rec>)
    requires KindFrom(text, 0) == Some(kind)
    ensures ok <==> TextOut(text).Some?
    ensures newRec.Some? ==> ok && fresh(newRec.value) && TextOut(text).value == [newRec.value.data]
    ensures ok && newRec.None? ==> TextOut(text).value == []
  {
    hide Fields, Parsed, Items, KindFrom;
    var m := new Message(text);
    var rec, pairs := ParseMessage(m, kind.code, kind.firstField, kind.metric);
    if rec.None? {
      return false, None;
    }
    if kind.code == "xrage" && pairs < 1 {
      return true, None;
    }
    var r := new Records.Rec(AsTexts(rec.value));
    FinishFields(r, kind.code);
    r.Set("timestamp", Int(Whole(Get(r.data, "timestamp")) / 1_000_000_000));
    return true, Some(r);
  }

  /** The bare code is such a message. */
  lemma BareXrage()
    ensures IsPlain("xrage,") && TextOut("xrage,") == Some([])
  {
    hide Fields, TextData;
    var s := "xrage,";
    assert Contains(s, "xrage,") by {
      ContainsSelf(s);
    }
    forall i: nat | i <= |s| ensures !ContainsAt(s, "sap,", i) && !ContainsAt(s, "mcatk ", i) {
      assert i + 4 <= |s| ==> s[i..i + 4][0] == s[i] != 's';
      assert i + 6 <= |s| ==> s[i..i + 6][0] == s[i] != 'm';
    }
    var k := Kinds();
    assert KindFrom(s, 5) == Some(k[5].1);
    assert KindFrom(s, 4) == KindFrom(s, 5);
    assert KindFrom(s, 3) == KindFrom(s, 4);
    assert KindFrom(s, 2) == KindFrom(s, 3);
    assert KindFrom(s, 1) == KindFrom(s, 2);
    assert KindFrom(s, 0) == KindFrom(s, 1);
    assert s[6..] == "";
    assert RemovePrefix(s, Prefix("xrage"), true) == "";
    assert Scrub("") == "" && Join("", "job_id=") == "";
    assert Span("", 0, {'\n'}, false) == 0 && LastStamp("", 0) == -1 && StampLines("") == "";
    assert Span("", 0, {','}, false) == 0 && SplitOn("", ',') == [""] && DropEmpty([""]) == [];
  }
}
