/**
  Which records get their time stamp as text before they are handed on (`out_daap.rb`, lines
  663-676), by the metrics that records have.
 */
module PluginStamps {
  import opened Options
  import opened CStrings
  import opened PluginText
  import opened Records
  import opened TextRecords
  import opened PluginBatch

  lemma Holds(a: string, pat: string, b: string)
    ensures Contains(a + pat + b, pat)
  {
    ContainsMiddle(a, pat, b);
  }

  lemma JobMetrics()
    ensures Contains("job_state", "job_state") && Contains("flag_daap_job_state", "job_state")
    ensures Contains("job_duration", "job_duration") && Contains("flag_daap_job_duration", "job_duration")
  {
    hide Contains;
    ContainsSelf("job_state");
    ContainsSelf("job_duration");
    Holds("flag_daap_", "job_state", "");
    Holds("flag_daap_", "job_duration", "");
    assert "flag_daap_" + "job_state" + "" == "flag_daap_job_state";
    assert "flag_daap_" + "job_duration" + "" == "flag_daap_job_duration";
  }

  lemma CodeMetrics()
    ensures Contains("lap_metrics", "lap") && Contains("ristra_metrics", "ristra") && Contains("jayenne_metrics", "jayenne")
    ensures Contains("mcatk_metrics", "mcatk") && Contains("sap_metrics", "sap") && Contains("xrage_metrics", "xrage")
  {
    hide Contains;
    Holds("", "lap", "_metrics");
    Holds("", "ristra", "_metrics");
    Holds("", "jayenne", "_metrics");
    Holds("", "mcatk", "_metrics");
    Holds("", "sap", "_metrics");
    Holds("", "xrage", "_metrics");
    assert "" + "lap" + "_metrics" == "lap_metrics" && "" + "ristra" + "_metrics" == "ristra_metrics";
    assert "" + "jayenne" + "_metrics" == "jayenne_metrics" && "" + "mcatk" + "_metrics" == "mcatk_metrics";
    assert "" + "sap" + "_metrics" == "sap_metrics" && "" + "xrage" + "_metrics" == "xrage_metrics";
  }

  /** The metrics of job states, job durations and the six codes. */
  predicate IsDated(m: string) {
    || m == "job_state" || m == "flag_daap_job_state" || m == "job_duration" || m == "flag_daap_job_duration"
    || m == "lap_metrics" || m == "ristra_metrics" || m == "jayenne_metrics"
    || m == "mcatk_metrics" || m == "sap_metrics" || m == "xrage_metrics"
  }

  /** Their time stamp becomes a text, and nothing else changes. */
  lemma DatedAsText(d: Data, m: string)
    requires Get(d, "metric") == Text(m) && IsDated(m)
    ensures Final(d) == d["timestamp" := Formatted(Get(d, "timestamp"))]
  {
    hide Contains;
    JobMetrics();
    CodeMetrics();
  }

  predicate IsTriple(s: string, i: nat, pat: string)
    requires |pat| == 3
  {
    i + 3 <= |s| && s[i] == pat[0] && s[i + 1] == pat[1] && s[i + 2] == pat[2]
  }

  /** None of the marks can be in the text. */
  predicate Unmarked(s: string) {
    && 'j' !in s && 'x' !in s && 'k' !in s
    && forall i | 0 <= i < |s| :: !IsTriple(s, i, "sap") && !IsTriple(s, i, "lap") && !IsTriple(s, i, "ris")
  }

  lemma FrontUnmarked(front: string, s: string)
    requires Unmarked(front) && Unmarked(s) && front != "" && front[|front| - 1] == '_'
    ensures Unmarked(front + s)
  {
    var t, n := front + s, |front|;
    assert "sap"[0] != '_' && "sap"[1] != '_' && "sap"[2] != '_';
    assert "lap"[0] != '_' && "lap"[1] != '_' && "lap"[2] != '_';
    assert "ris"[0] != '_' && "ris"[1] != '_' && "ris"[2] != '_';
    forall i | 0 <= i < |t| ensures !IsTriple(t, i, "sap") && !IsTriple(t, i, "lap") && !IsTriple(t, i, "ris") {
      if i >= n {
        assert !IsTriple(s, i - n, "sap") && !IsTriple(s, i - n, "lap") && !IsTriple(s, i - n, "ris");
      } else {
        assert !IsTriple(front, i, "sap") && !IsTriple(front, i, "lap") && !IsTriple(front, i, "ris");
        assert t[n - 1] == '_';
      }
    }
  }

  /** A mark is at least three characters, of which one of the first is missing or the first three do not stand together. */
  lemma MarkMissing(s: string, pat: string, c: char)
    requires c in pat && c !in s
    ensures !Contains(s, pat)
  {
    var k: nat :| k < |pat| && pat[k] == c;
    forall i: nat | i <= |s| ensures !ContainsAt(s, pat, i) {
      assert i + |pat| <= |s| ==> s[i..i + |pat|][k] == s[i + k] != c;
    }
  }

  lemma TripleMissing(s: string, pat: string)
    requires |pat| >= 3 && forall i | 0 <= i < |s| :: !IsTriple(s, i, pat[..3])
    ensures !Contains(s, pat)
  {
    forall i: nat | i <= |s| ensures !ContainsAt(s, pat, i) {
      if i + |pat| <= |s| && i < |s| {
        assert !IsTriple(s, i, pat[..3]);
        var part := s[i..i + |pat|];
        assert part[0] == s[i] && part[1] == s[i + 1] && part[2] == s[i + 2];
      }
    }
  }

  lemma MarksAre()
    ensures 'j' in "job_state" && 'j' in "job_duration" && 'j' in "jayenne" && 'x' in "xrage" && 'k' in "mcatk"
    ensures "ristra"[..3] == "ris" && "sap"[..3] == "sap" && "lap"[..3] == "lap"
  {
    assert "job_state"[0] == 'j' && "job_duration"[0] == 'j' && "jayenne"[0] == 'j' && "xrage"[0] == 'x' && "mcatk"[4] == 'k';
  }

  lemma UnmarkedStays(d: Data, m: string)
    requires Get(d, "metric") == Text(m) && Unmarked(m)
    ensures Final(d) == d
  {
    hide Contains, IsTriple;
    MarksAre();
    MarkMissing(m, "job_state", 'j');
    MarkMissing(m, "job_duration", 'j');
    MarkMissing(m, "jayenne", 'j');
    MarkMissing(m, "xrage", 'x');
    MarkMissing(m, "mcatk", 'k');
    TripleMissing(m, "sap");
    TripleMissing(m, "lap");
    TripleMissing(m, "ristra");
  }

  /** The metrics of telegraf. */
  predicate IsPlainMetric(m: string) {
    || m == "infiniband_errors" || m == "infiniband_metrics" || m == "cpu_usage" || m == "mem_usage"
    || m == "temp" || m == "heartbeat"
  }

  predicate IsTeamMetric(m: string) {
    m == "pre_team" || m == "pre_team_hpl" || m == "snap_pavilion_parser"
  }

  lemma IbUnmarked()
    ensures Unmarked("infiniband_errors") && Unmarked("infiniband_metrics")
  {
  }

  lemma UsageUnmarked()
    ensures Unmarked("cpu_usage") && Unmarked("mem_usage")
  {
  }

  lemma RestUnmarked()
    ensures Unmarked("temp") && Unmarked("heartbeat")
  {
  }

  lemma PlainUnmarked(m: string)
    requires IsPlainMetric(m)
    ensures Unmarked(m)
  {
    hide Unmarked;
    IbUnmarked();
    UsageUnmarked();
    RestUnmarked();
  }

  lemma PreTeamUnmarked()
    ensures Unmarked("pre_team") && Unmarked("pre_team_hpl")
  {
  }

  lemma SnapUnmarked()
    ensures Unmarked("snap_pavilion_parser")
  {
  }

  lemma TeamUnmarked(m: string)
    requires IsTeamMetric(m)
    ensures Unmarked(m)
  {
    hide Unmarked;
    PreTeamUnmarked();
    SnapUnmarked();
  }

  lemma FlagUnmarked()
    ensures Unmarked("flag_daap_")
  {
  }

  /** All other records keep their time stamp as a number, with the mark of flag tests or without. */
  lemma OthersAsTheyAre(d: Data, m: string)
    requires IsTeamMetric(m) || IsPlainMetric(m)
    ensures Get(d, "metric") == Text(m) ==> Final(d) == d
    ensures Get(d, "metric") == Text("flag_daap_" + m) && IsPlainMetric(m) ==> Final(d) == d
    ensures "metric" !in d ==> Final(d) == d
  {
    hide Contains, Unmarked, Final;
    if Get(d, "metric") == Text(m) {
      if IsPlainMetric(m) {
        PlainUnmarked(m);
      } else {
        TeamUnmarked(m);
      }
      UnmarkedStays(d, m);
    }
    if Get(d, "metric") == Text("flag_daap_" + m) && IsPlainMetric(m) {
      PlainUnmarked(m);
      FlagUnmarked();
      FrontUnmarked("flag_daap_", m);
      UnmarkedStays(d, "flag_daap_" + m);
    }
    NoMetricStays(d);
  }

  lemma NoMetricStays(d: Data)
    ensures "metric" !in d ==> Final(d) == d
  {
  }
}
