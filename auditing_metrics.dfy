/** metrics/auditing_metrics.go: the `system_auditing_info{file_path,
    last_modified,size}` family, one series per regular file found by
    walking /var/log and /etc. */
module AuditingMetrics {
  import opened Common
  import opened Gauge
  import opened Host
  import opened ByteFormat

  const AuditingLabels: seq<string> := ["file_path", "last_modified", "size"]

  /** The directories walked, in walking order. */
  const AuditedDirectories: seq<string> := ["/var/log", "/etc"]

  /** The callbacks `filepath.Walk(root, ...)` makes, in order; a root that
      cannot be walked yields none that set anything. */
  function Walk(h: Host, root: string): seq<WalkVisit> {
    if root in h.walks then h.walks[root] else []
  }

  /** What the walk callback sets for one visit: nothing for a visit that
      carries an error or for a directory, else (path, modification time,
      formatted size). */
  function VisitTuple(render: Render, v: WalkVisit): Option<LabelTuple> {
    if v.failed || v.isDir then None
    else Some([v.path, v.modTime, ByteLabel(v.size, render)])
  }

  function VisitTuples(render: Render, visits: seq<WalkVisit>): seq<LabelTuple> {
    FilterMap(v => VisitTuple(render, v), visits)
  }

  lemma VisitTuplesStep(render: Render, visits: seq<WalkVisit>, i: nat)
    requires i < |visits|
    ensures VisitTuples(render, visits[i..])
      == Values(VisitTuple(render, visits[i])) + VisitTuples(render, visits[i + 1..])
  {
    assert visits[i..][0] == visits[i] && visits[i..][1..] == visits[i + 1..];
  }

  /** Everything the walks of `dirs` set, in walking order. */
  function DirectoryTuples(h: Host, render: Render, dirs: seq<string>): seq<LabelTuple>
    decreases |dirs|
  {
    if dirs == [] then []
    else DirectoryTuples(h, render, dirs[..|dirs| - 1]) + VisitTuples(render, Walk(h, dirs[|dirs| - 1]))
  }

  lemma DirectoryTuplesPrefix(h: Host, render: Render, dirs: seq<string>, i: nat)
    requires i < |dirs|
    ensures DirectoryTuples(h, render, dirs[..i + 1])
      == DirectoryTuples(h, render, dirs[..i]) + VisitTuples(render, Walk(h, dirs[i]))
  {
    var p := dirs[..i + 1];
    assert p[|p| - 1] == dirs[i] && p[..|p| - 1] == dirs[..i];
  }

  function AuditingTuples(h: Host, render: Render): seq<LabelTuple> {
    DirectoryTuples(h, render, AuditedDirectories)
  }

  /** A series is set exactly for each visit of a regular file that came
      without an error: never for a directory. */
  lemma OnlyFilesAreSet(render: Render, visits: seq<WalkVisit>, t: LabelTuple)
    ensures t in VisitTuples(render, visits) <==>
      exists i :: 0 <= i < |visits| && !visits[i].failed && !visits[i].isDir
        && t == [visits[i].path, visits[i].modTime, ByteLabel(visits[i].size, render)]
  {
    FilterMapMembership(v => VisitTuple(render, v), visits, t);
  }

  /** The visits of a walk are set in order. */
  lemma VisitTuplesAppend(render: Render, a: seq<WalkVisit>, b: seq<WalkVisit>)
    ensures VisitTuples(render, a + b) == VisitTuples(render, a) + VisitTuples(render, b)
  {
    FilterMapAppend(v => VisitTuple(render, v), a, b);
  }

  /** An error on one path is logged and the walk goes on: the files
      visited after it are set as if it had not happened. */
  lemma ErrorsDoNotStopTheWalk(render: Render, before: seq<WalkVisit>, v: WalkVisit, after: seq<WalkVisit>)
    requires v.failed
    ensures VisitTuples(render, before + [v] + after) == VisitTuples(render, before) + VisitTuples(render, after)
  {
    VisitTuplesAppend(render, before + [v], after);
    VisitTuplesAppend(render, before, [v]);
    assert [v][0..] == [v] && [v][1..] == [];
    VisitTuplesStep(render, [v], 0);
    assert VisitTuple(render, v) == None && VisitTuples(render, []) == [];
    assert VisitTuples(render, before) + [] == VisitTuples(render, before);
  }

  /** The walk of /var/log comes first, then that of /etc. */
  lemma LogsBeforeEtc(h: Host, render: Render)
    ensures AuditingTuples(h, render)
      == VisitTuples(render, Walk(h, "/var/log")) + VisitTuples(render, Walk(h, "/etc"))
  {
    var dirs := AuditedDirectories;
    var first := dirs[..1];
    assert dirs[|dirs| - 1] == "/etc" && dirs[..|dirs| - 1] == first;
    assert first[|first| - 1] == "/var/log" && first[..|first| - 1] == [];
    assert DirectoryTuples(h, render, first) == [] + VisitTuples(render, Walk(h, "/var/log"));
  }

  /** One `filepath.Walk` with the callback of `CollectAuditingMetrics`. */
  method WalkDirectory(g: GaugeVec, h: Host, render: Render, root: string)
    requires g.Valid() && g.labelNames == AuditingLabels
    modifies g
    ensures g.Valid() && g.series == SetAll(old(g.series), VisitTuples(render, Walk(h, root)), 1)
  {
    var visits := Walk(h, root);
    var i := 0;
    while i < |visits|
      invariant 0 <= i <= |visits| && g.Valid()
      invariant SetAll(g.series, VisitTuples(render, visits[i..]), 1)
        == SetAll(old(g.series), VisitTuples(render, visits), 1)
    {
      var visit := visits[i];
      VisitTuplesStep(render, visits, i);
      SetAllStep(g.series, VisitTuple(render, visit), VisitTuples(render, visits[i + 1..]), 1);
      if visit.failed {
        i := i + 1;
        continue;
      }
      if visit.isDir {
        i := i + 1;
        continue;
      }
      var size := FormatBytes(visit.size, render);
      g.Set([visit.path, visit.modTime, size], 1);
      i := i + 1;
    }
    assert visits[i..] == [];
  }

  /** `CollectAuditingMetrics()` */
  method CollectAuditingMetrics(g: GaugeVec, h: Host, render: Render)
    requires g.Valid() && g.labelNames == AuditingLabels
    modifies g
    ensures g.Valid() && g.series == SetAll(old(g.series), AuditingTuples(h, render), 1)
  {
    var dirs := AuditedDirectories;
    var i := 0;
    while i < |dirs|
      invariant 0 <= i <= |dirs| && g.Valid()
      invariant g.series == SetAll(old(g.series), DirectoryTuples(h, render, dirs[..i]), 1)
    {
      WalkDirectory(g, h, render, dirs[i]);
      DirectoryTuplesPrefix(h, render, dirs, i);
      SetAllAppend(old(g.series), DirectoryTuples(h, render, dirs[..i]), VisitTuples(render, Walk(h, dirs[i])), 1);
      i := i + 1;
    }
    assert dirs[..i] == dirs;
  }
}
