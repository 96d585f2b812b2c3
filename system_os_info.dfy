/** system_os_info.go: the resource limits derived from the command-line
    flags, the address the exporter listens on, and one collection cycle of
    the ticker loop. */
module SystemOSInfo {
  import opened Common
  import opened Gauge
  import opened Host
  import PackageVersions
  import OSInfo
  import PackageUpdates

  const MillicoresPerCore := 1000

  /** `int(math.Ceil(float64(millicores) / 1000.0))`: the cores granted by a
      CPU cap, the least count whose millicores cover the cap. */
  function NumCores(millicores: int): (cores: int)
    requires millicores > 0
    ensures cores >= 1
    ensures (cores - 1) * MillicoresPerCore < millicores <= cores * MillicoresPerCore
  {
    (millicores + MillicoresPerCore - 1) / MillicoresPerCore
  }

  /** The `GOMAXPROCS` value a run sets: only a positive cap sets one, and
      it is the least core count whose millicores cover the cap. */
  function CpuCap(millicores: int): (r: Option<int>)
    ensures r.None? <==> millicores <= 0
    ensures r.Some? ==>
      r.value >= 1 && (r.value - 1) * MillicoresPerCore < millicores <= r.value * MillicoresPerCore
  {
    if millicores > 0 then Some(NumCores(millicores)) else None
  }

  /** `*memoryLimit * 1024 * 1024` in int64 arithmetic. */
  function MemoryLimitBytes(mb: Int64): (bytes: Int64)
    ensures IsInt64(mb * 1024 * 1024) ==> bytes == mb * 1024 * 1024
  {
    WrapInt64(mb * 1024 * 1024)
  }

  /** The limit the memory monitor enforces: it runs only for a positive
      limit. */
  function MonitoredLimit(mb: Int64): Option<Int64> {
    if mb > 0 then Some(MemoryLimitBytes(mb)) else None
  }

  /** `memStats.Alloc > uint64(memoryLimitBytes)`: the uint64 conversion
      reinterprets the int64 limit modulo 2^64. */
  predicate Breach(alloc: nat, limitBytes: Int64) {
    alloc > limitBytes % TwoTo64
  }

  /** For a limit whose byte count fits an int64, the monitor stops the
      process exactly when the allocated bytes exceed it; reaching the
      limit exactly is not a breach. */
  lemma BreachIsStrict(mb: Int64, alloc: nat)
    requires mb > 0 && mb * 1024 * 1024 <= MaxInt64
    ensures MonitoredLimit(mb) == Some(mb * 1024 * 1024)
    ensures Breach(alloc, mb * 1024 * 1024) <==> alloc > mb * 1024 * 1024
    ensures !Breach(mb * 1024 * 1024, mb * 1024 * 1024)
  {
  }

  /** `*address + ":" + *port` */
  function ServerAddress(address: string, port: string): string {
    address + ":" + port
  }

  /** The listening address splits back at its last ':' into the address
      and the port whenever the port holds no ':' (an IPv6 address may hold
      several). */
  lemma ServerAddressSplits(address: string, port: string)
    requires ':' !in port
    ensures var s := ServerAddress(address, port);
      && s[|address|] == ':' && s[..|address|] == address && s[|address| + 1..] == port
      && forall k :: |address| < k < |s| ==> s[k] != ':'
  {
    var s := ServerAddress(address, port);
    forall k | |address| < k < |s| ensures s[k] != ':' {
      assert s[k] == port[k - |address| - 1];
    }
  }

  /** One tick of the collection goroutine: package versions, then the
      operating system, then update availability. */
  method CollectionCycle(versions: GaugeVec, osInfo: GaugeVec, updates: GaugeVec, h: Host)
    requires versions != osInfo && versions != updates && osInfo != updates
    requires versions.Valid() && versions.labelNames == PackageVersions.PackageVersionLabels
    requires osInfo.Valid() && osInfo.labelNames == OSInfo.OSInfoLabels
    requires updates.Valid() && updates.labelNames == PackageUpdates.PackageUpdateLabels
    modifies versions, osInfo, updates
    ensures versions.Valid() && versions.series == SetAll(old(versions.series), PackageVersions.PackageVersionTuples(h), 1)
    ensures osInfo.Valid() && osInfo.series == SetAll(old(osInfo.series), Values(OSInfo.OSInfoTuple(h)), 1)
    ensures updates.Valid() && updates.series == PackageUpdates.SetUpdate(old(updates.series), PackageUpdates.PackageUpdate(h))
  {
    PackageVersions.CollectPackageVersions(versions, h);
    OSInfo.CollectOSInfo(osInfo, h);
    PackageUpdates.CollectPackageUpdateAvailability(updates, h);
  }
}
