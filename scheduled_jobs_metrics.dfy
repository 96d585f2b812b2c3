/** metrics/scheduled_jobs_metrics.go: the `system_scheduled_jobs_info{
    job_name,schedule,last_run_status}` family, one series per entry of the
    system crontab. */
module ScheduledJobsMetrics {
  import opened Common
  import opened GoStrings
  import opened Gauge
  import opened Host

  const ScheduledJobLabels: seq<string> := ["job_name", "schedule", "last_run_status"]

  const CrontabPath := "/etc/crontab"

  /** The status label of every job: the run status is not looked up. */
  const UnknownStatus := "unknown"

  /** What one line of /etc/crontab sets: nothing for a comment (a line
      starting with '#'), a blank line or a line of fewer than six fields;
      else the sixth field as the job, the first five joined by single
      spaces as the schedule, and the unknown status. */
  function CronTuple(line: string): Option<LabelTuple> {
    if HasPrefix(line, "#") || TrimSpace(line) == "" then None
    else
      var fields := Fields(line);
      if |fields| < 6 then None
      else Some([fields[5], Join(fields[..5], " "), UnknownStatus])
  }

  /** A line is a job exactly when it does not start with '#' and has at
      least six fields; a blank line has none. */
  lemma CronTupleKept(line: string)
    ensures CronTuple(line).Some? <==> (line == [] || line[0] != '#') && |Fields(line)| >= 6
  {
    TrimSpaceEmptyIffAllSpace(line);
    FieldsEmptyIffAllSpace(line);
    assert HasPrefix(line, "#") <==> line != [] && line[0] == '#';
  }

  /** A '#' after leading white space does not make a comment: such a line
      with six fields is a job like any other. */
  lemma IndentedHashIsAJob(line: string)
    requires line != [] && IsSpace(line[0]) && |Fields(line)| >= 6
    ensures CronTuple(line).Some?
  {
    CronTupleKept(line);
  }

  /** The first five of a line's fields, joined by single spaces, split
      back into the same five fields. */
  lemma ScheduleRoundTrip(fields: seq<string>)
    requires |fields| >= 5
    requires forall i :: 0 <= i < |fields| ==> fields[i] != [] && NoSpace(fields[i])
    ensures Fields(Join(fields[..5], " ")) == fields[..5]
  {
    var schedule := fields[..5];
    forall i | 0 <= i < |schedule|
      ensures schedule[i] != [] && NoSpace(schedule[i])
    {
      assert schedule[i] == fields[i];
    }
    FieldsOfJoin(schedule);
  }

  /** The labels of a job: the job name is the sixth field, a single word;
      the schedule splits back into exactly the first five fields; fields
      after the sixth are dropped. */
  lemma JobLabels(line: string)
    requires CronTuple(line).Some?
    ensures var t := CronTuple(line).value;
      var fields := Fields(line);
      && |t| == |ScheduledJobLabels|
      && t[0] == fields[5] && t[0] != [] && NoSpace(t[0])
      && t[1] == Join(fields[..5], " ") && Fields(t[1]) == fields[..5]
      && t[2] == UnknownStatus
  {
    var fields := Fields(line);
    assert CronTuple(line).value == [fields[5], Join(fields[..5], " "), UnknownStatus];
    ScheduleRoundTrip(fields);
  }

  function CronTuples(lines: seq<string>): seq<LabelTuple> {
    FilterMap(CronTuple, lines)
  }

  lemma CronTuplesStep(lines: seq<string>, i: nat)
    requires i < |lines|
    ensures CronTuples(lines[i..]) == Values(CronTuple(lines[i])) + CronTuples(lines[i + 1..])
  {
    assert lines[i..][0] == lines[i] && lines[i..][1..] == lines[i + 1..];
  }

  /** What one run of `CollectScheduledJobsMetrics` sets: nothing when the
      crontab cannot be opened, else the jobs of the lines read. */
  function CrontabTuples(h: Host): seq<LabelTuple> {
    match Scan(h, CrontabPath)
    case OpenFailed => []
    case Scanned(lines, _, _) => CronTuples(lines)
  }

  /** A read error ends the scan but is only logged: the jobs read before
      it, and those of the lines still delivered after it, stay set, exactly
      as if the file had ended there. */
  lemma ReadErrorKeepsEarlierJobs(h: Host, lines: seq<string>, late: nat)
    requires Scan(h, CrontabPath) == Scanned(lines, true, late)
    ensures CrontabTuples(h) == CronTuples(lines)
    ensures CrontabTuples(h) == CrontabTuples(h.(scans := h.scans[CrontabPath := Scanned(lines, false, 0)]))
  {
  }

  /** `CollectScheduledJobsMetrics()` */
  method CollectScheduledJobsMetrics(g: GaugeVec, h: Host)
    requires g.Valid() && g.labelNames == ScheduledJobLabels
    modifies g
    ensures g.Valid() && g.series == SetAll(old(g.series), CrontabTuples(h), 1)
  {
    var scan := Scan(h, CrontabPath);
    if scan.OpenFailed? {
      return;
    }
    var lines := scan.lines;
    var i := 0;
    while i < |lines|
      invariant 0 <= i <= |lines| && g.Valid()
      invariant SetAll(g.series, CronTuples(lines[i..]), 1) == SetAll(old(g.series), CronTuples(lines), 1)
    {
      var line := lines[i];
      CronTuplesStep(lines, i);
      SetAllStep(g.series, CronTuple(line), CronTuples(lines[i + 1..]), 1);
      if HasPrefix(line, "#") || TrimSpace(line) == "" {
        i := i + 1;
        continue;
      }
      var fields := Fields(line);
      if |fields| < 6 {
        i := i + 1;
        continue;
      }
      var schedule := Join(fields[..5], " ");
      var jobName := fields[5];
      var lastRunStatus := UnknownStatus;
      g.Set([jobName, schedule, lastRunStatus], 1);
      i := i + 1;
    }
    assert lines[i..] == [];
  }
}
