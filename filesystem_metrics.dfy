/** metrics/filesystem_metrics.go: the `system_filesystem_info{mount_point,
    filesystem_type,total_space,used_space}` family, one series per fixed
    mount point whose `statfs` succeeds. */
module FilesystemMetrics {
  import opened Common
  import opened Gauge
  import opened Host
  import opened ByteFormat

  const FilesystemLabels: seq<string> := ["mount_point", "filesystem_type", "total_space", "used_space"]

  const Ext4SuperMagic: int := 0xEF53
  const TmpfsMagic: int := 0x01021994

  /** The mount points probed, in probing order. */
  const MountPoints: seq<string> := ["/", "/home", "/var"]

  /** `getFilesystemType`: the name of a `statfs` magic number. */
  function FilesystemType(fsType: int): (name: string)
    ensures name == "ext4" <==> fsType == Ext4SuperMagic
    ensures name == "tmpfs" <==> fsType == TmpfsMagic
    ensures name == "unknown" <==> fsType != Ext4SuperMagic && fsType != TmpfsMagic
  {
    if fsType == Ext4SuperMagic then "ext4"
    else if fsType == TmpfsMagic then "tmpfs"
    else "unknown"
  }

  /** `uint64(x)` of an int64 and the uint64 product, both modulo 2^64. */
  function ToUint64(x: int): nat {
    x % TwoTo64
  }

  function MulUint64(a: int, b: int): nat {
    (a * b) % TwoTo64
  }

  /** `int64(stat.Blocks * uint64(stat.Bsize))` */
  function TotalSpace(st: Statfs): int {
    WrapInt64(MulUint64(st.blocks, ToUint64(st.bsize)))
  }

  /** `int64(stat.Bfree * uint64(stat.Bsize))` */
  function FreeSpace(st: Statfs): int {
    WrapInt64(MulUint64(st.bfree, ToUint64(st.bsize)))
  }

  /** `totalSpace - freeSpace` in int64 arithmetic. */
  function UsedSpace(st: Statfs): int {
    WrapInt64(TotalSpace(st) - FreeSpace(st))
  }

  lemma ProductBounds(blocks: int, bfree: int, bsize: int)
    requires 0 < bsize && 0 <= bfree <= blocks
    ensures 0 <= bfree * bsize <= blocks * bsize
    ensures (blocks - bfree) * bsize == blocks * bsize - bfree * bsize
  {
    assert blocks * bsize - bfree * bsize == (blocks - bfree) * bsize;
  }

  /** When the sizes fit an int64, as they do on any real filesystem, no
      arithmetic wraps: the used space is the allocated blocks times the
      block size, and lies between zero and the total. */
  lemma UsedSpaceIsAllocatedBlocks(st: Statfs)
    requires 0 < st.bsize && 0 <= st.bfree <= st.blocks
    requires st.blocks * st.bsize <= MaxInt64
    ensures TotalSpace(st) == st.blocks * st.bsize
    ensures FreeSpace(st) == st.bfree * st.bsize
    ensures UsedSpace(st) == (st.blocks - st.bfree) * st.bsize
    ensures 0 <= UsedSpace(st) <= TotalSpace(st)
  {
    ProductBounds(st.blocks, st.bfree, st.bsize);
    var total, free := st.blocks * st.bsize, st.bfree * st.bsize;
    assert ToUint64(st.bsize) == st.bsize;
    assert MulUint64(st.blocks, st.bsize) == total;
    assert MulUint64(st.bfree, st.bsize) == free;
    assert TotalSpace(st) == total && FreeSpace(st) == free;
  }

  /** The tuple one mount point sets: none when `statfs` fails. */
  function MountTuple(h: Host, render: Render, mountPoint: string): Option<LabelTuple> {
    if mountPoint !in h.statfs then None
    else
      var st := h.statfs[mountPoint];
      Some([mountPoint, FilesystemType(st.fsType),
            ByteLabel(TotalSpace(st), render), ByteLabel(UsedSpace(st), render)])
  }

  function MountTuples(h: Host, render: Render, mountPoints: seq<string>): seq<LabelTuple> {
    FilterMap(mp => MountTuple(h, render, mp), mountPoints)
  }

  lemma MountTuplesStep(h: Host, render: Render, mountPoints: seq<string>, i: nat)
    requires i < |mountPoints|
    ensures MountTuples(h, render, mountPoints[i..])
      == Values(MountTuple(h, render, mountPoints[i])) + MountTuples(h, render, mountPoints[i + 1..])
  {
    assert mountPoints[i..][0] == mountPoints[i] && mountPoints[i..][1..] == mountPoints[i + 1..];
  }

  function FilesystemTuples(h: Host, render: Render): seq<LabelTuple> {
    MountTuples(h, render, MountPoints)
  }

  /** A series is set for a mount point exactly when it is one of the fixed
      three and its `statfs` succeeds; it then carries that mount point's
      type and sizes. */
  lemma FilesystemTuplesAreProbedMounts(h: Host, render: Render, t: LabelTuple)
    ensures t in FilesystemTuples(h, render) <==>
      exists i :: 0 <= i < |MountPoints| && MountPoints[i] in h.statfs
        && t == MountTuple(h, render, MountPoints[i]).value
  {
    FilterMapMembership(mp => MountTuple(h, render, mp), MountPoints, t);
  }

  /** The mount points are probed in order: root, then /home, then /var. */
  lemma MountsInProbingOrder(h: Host, render: Render)
    ensures FilesystemTuples(h, render)
      == Values(MountTuple(h, render, "/")) + Values(MountTuple(h, render, "/home"))
        + Values(MountTuple(h, render, "/var"))
  {
    var f := mp => MountTuple(h, render, mp);
    assert MountPoints == ["/"] + (["/home"] + ["/var"]);
    FilterMapAppend(f, ["/"], ["/home"] + ["/var"]);
    FilterMapAppend(f, ["/home"], ["/var"]);
  }

  /** The body of the mount point loop: probe one mount point and set its
      series when the probe succeeds. */
  method CollectMountPoint(g: GaugeVec, h: Host, render: Render, mountPoint: string)
    requires g.Valid() && g.labelNames == FilesystemLabels
    modifies g
    ensures g.Valid()
    ensures var t := MountTuple(h, render, mountPoint);
      g.series == if t.Some? then old(g.series)[t.value := 1] else old(g.series)
  {
    if mountPoint !in h.statfs {
      return;
    }
    var st := h.statfs[mountPoint];
    var totalSpace := TotalSpace(st);
    var usedSpace := UsedSpace(st);
    var filesystemType := FilesystemType(st.fsType);
    var total := FormatBytes(totalSpace, render);
    var used := FormatBytes(usedSpace, render);
    g.Set([mountPoint, filesystemType, total, used], 1);
  }

  /** `CollectFilesystemMetrics()` */
  method CollectFilesystemMetrics(g: GaugeVec, h: Host, render: Render)
    requires g.Valid() && g.labelNames == FilesystemLabels
    modifies g
    ensures g.Valid() && g.series == SetAll(old(g.series), FilesystemTuples(h, render), 1)
  {
    var mountPoints := MountPoints;
    var i := 0;
    while i < |mountPoints|
      invariant 0 <= i <= |mountPoints| && g.Valid()
      invariant SetAll(g.series, MountTuples(h, render, mountPoints[i..]), 1)
        == SetAll(old(g.series), MountTuples(h, render, mountPoints), 1)
    {
      MountTuplesStep(h, render, mountPoints, i);
      SetAllStep(g.series, MountTuple(h, render, mountPoints[i]), MountTuples(h, render, mountPoints[i + 1..]), 1);
      CollectMountPoint(g, h, render, mountPoints[i]);
      i := i + 1;
    }
    assert mountPoints[i..] == [];
  }
}
