/** The memory screen's figures: the device totals from the activity manager
    and the per-process breakdown, completed by a "System & Other Apps"
    remainder and listed largest first. Platform answers are inputs: the
    totals, the running processes with the outcome of their label lookup,
    and the PSS values (in KiB) the activity manager returns. */
module Memory {
  import opened Wrappers
  import opened Sorting
  import opened Sizes

  /** The device's memory figures (`MemoryInfo`). */
  datatype MemoryInfo = MemoryInfo(totalMem: int, availMem: int, usedMem: int, threshold: int,
                                   lowMemory: bool, usedPercentage: real)

  /** `getMemoryInfo`: used is total minus available; the fraction in use is
      0 when the total is not positive. */
  function GetMemoryInfo(totalMem: int, availMem: int, threshold: int, lowMemory: bool): (m: MemoryInfo)
    ensures m.totalMem == totalMem && m.availMem == availMem
    ensures m.threshold == threshold && m.lowMemory == lowMemory
    ensures m.usedMem + m.availMem == m.totalMem
    ensures totalMem <= 0 ==> m.usedPercentage == 0.0
    ensures totalMem > 0 ==> m.usedPercentage * totalMem as real == m.usedMem as real
    ensures 0 <= availMem <= totalMem && totalMem > 0 ==> 0.0 <= m.usedPercentage <= 1.0
  {
    var usedMem := totalMem - availMem;
    MemoryInfo(totalMem, availMem, usedMem, threshold, lowMemory, UsedFraction(usedMem, totalMem))
  }

  /** A running process: its name and the label the package manager gives
      it, or `None` when that lookup throws. */
  datatype RunningProcess = RunningProcess(processName: string, appLabel: Option<string>)

  /** One row of the breakdown (`AppMemoryInfo`; the icon is not modelled). */
  datatype AppMemoryInfo = AppMemoryInfo(appName: string, packageName: string, memoryBytes: int)

  const SYSTEM_NAME: string := "System & Other Apps"
  const SYSTEM_PACKAGE: string := "system"

  /** The PSS of the process at `index` in bytes: its `totalPss` times 1024
      when the activity manager returned that many values, else 0. */
  function Pss(memoryInfos: seq<int>, index: nat): int
  {
    if index < |memoryInfos| then memoryInfos[index] * 1024 else 0
  }

  /** The label shown for a process: its application label, or its process
      name when the lookup failed. */
  function Label(p: RunningProcess): (shown: string)
    ensures p.appLabel.Some? ==> shown == p.appLabel.value
    ensures p.appLabel.None? ==> shown == p.processName
  {
    p.appLabel.GetOr(p.processName)
  }

  function EntryFor(processes: seq<RunningProcess>, memoryInfos: seq<int>, index: nat): AppMemoryInfo
    requires index < |processes|
  {
    AppMemoryInfo(Label(processes[index]), processes[index].processName, Pss(memoryInfos, index))
  }

  /** The rows collected from the first `n` processes, in process order:
      one for each process with a positive PSS. */
  function Collected(processes: seq<RunningProcess>, memoryInfos: seq<int>, n: nat): seq<AppMemoryInfo>
    requires n <= |processes|
  {
    if n == 0 then []
    else Collected(processes, memoryInfos, n - 1) +
         (if Pss(memoryInfos, n - 1) > 0 then [EntryFor(processes, memoryInfos, n - 1)] else [])
  }

  function SumBytes(s: seq<AppMemoryInfo>): int
  {
    if s == [] then 0 else SumBytes(s[..|s| - 1]) + s[|s| - 1].memoryBytes
  }

  /** The unsorted list: the collected rows, then the remainder row when the
      memory in use exceeds what the rows account for. */
  function Entries(processes: seq<RunningProcess>, memoryInfos: seq<int>, totalUsedBytes: int): seq<AppMemoryInfo>
  {
    var rows := Collected(processes, memoryInfos, |processes|);
    var systemMemory := totalUsedBytes - SumBytes(rows);
    if systemMemory > 0 then rows + [AppMemoryInfo(SYSTEM_NAME, SYSTEM_PACKAGE, systemMemory)] else rows
  }

  /** `sortedByDescending { it.memoryBytes }` as an ascending key. */
  function ByBytesDescending(e: AppMemoryInfo): seq<int>
  {
    [-e.memoryBytes]
  }

  /** `getRunningAppsMemory`. */
  method GetRunningAppsMemory(processes: seq<RunningProcess>, memoryInfos: seq<int>, totalUsedBytes: int)
    returns (result: seq<AppMemoryInfo>)
    ensures result == SortBy(Entries(processes, memoryInfos, totalUsedBytes), ByBytesDescending)
  {
    var list, accountedMemory := CollectProcesses(processes, memoryInfos);
    var systemMemory := totalUsedBytes - accountedMemory;
    if systemMemory > 0 {
      list := list + [AppMemoryInfo(SYSTEM_NAME, SYSTEM_PACKAGE, systemMemory)];
    }
    result := SortBy(list, ByBytesDescending);
  }

  /** The loop over the running processes: the rows of those with a positive
      PSS, and the bytes they account for. */
  method CollectProcesses(processes: seq<RunningProcess>, memoryInfos: seq<int>)
    returns (list: seq<AppMemoryInfo>, accountedMemory: int)
    ensures list == Collected(processes, memoryInfos, |processes|)
    ensures accountedMemory == SumBytes(list)
  {
    list := [];
    accountedMemory := 0;
    if |processes| > 0 {
      for index := 0 to |processes|
        invariant list == Collected(processes, memoryInfos, index)
        invariant accountedMemory == SumBytes(list)
      {
        var pss := if index < |memoryInfos| then memoryInfos[index] * 1024 else 0;
        if pss > 0 {
          var appLabel := match processes[index].appLabel
            case Some(l) => l
            case None => processes[index].processName;
          var entry := AppMemoryInfo(appLabel, processes[index].processName, pss);
          SumBytesAppend(list, entry);
          list := list + [entry];
          accountedMemory := accountedMemory + pss;
        }
      }
    }
  }

  /** A process has a row exactly when its PSS is positive; every row is the
      row of such a process and has positive size. */
  lemma {:induction false} CollectedRows(processes: seq<RunningProcess>, memoryInfos: seq<int>, n: nat)
    requires n <= |processes|
    ensures |Collected(processes, memoryInfos, n)| <= n
    ensures forall i :: 0 <= i < n && Pss(memoryInfos, i) > 0 ==>
              EntryFor(processes, memoryInfos, i) in Collected(processes, memoryInfos, n)
    ensures forall e :: e in Collected(processes, memoryInfos, n) ==>
              e.memoryBytes > 0 &&
              exists i :: 0 <= i < n && Pss(memoryInfos, i) > 0 && e == EntryFor(processes, memoryInfos, i)
  {
    if n > 0 {
      CollectedRows(processes, memoryInfos, n - 1);
    }
  }

  lemma SumBytesAppend(s: seq<AppMemoryInfo>, e: AppMemoryInfo)
    ensures SumBytes(s + [e]) == SumBytes(s) + e.memoryBytes
  {
    assert (s + [e])[..|s|] == s;
  }

  /** The remainder row is added exactly when the collected rows account for
      less than the memory in use, and then the rows add up to exactly that
      amount; otherwise they already account for at least that much. */
  lemma EntriesAccountForUsed(processes: seq<RunningProcess>, memoryInfos: seq<int>, totalUsedBytes: int)
    ensures var rows := Collected(processes, memoryInfos, |processes|);
            var entries := Entries(processes, memoryInfos, totalUsedBytes);
            (SumBytes(rows) < totalUsedBytes ==>
               entries == rows + [AppMemoryInfo(SYSTEM_NAME, SYSTEM_PACKAGE, totalUsedBytes - SumBytes(rows))] &&
               SumBytes(entries) == totalUsedBytes) &&
            (SumBytes(rows) >= totalUsedBytes ==> entries == rows && SumBytes(entries) >= totalUsedBytes)
  {
    var rows := Collected(processes, memoryInfos, |processes|);
    if SumBytes(rows) < totalUsedBytes {
      SumBytesAppend(rows, AppMemoryInfo(SYSTEM_NAME, SYSTEM_PACKAGE, totalUsedBytes - SumBytes(rows)));
    }
  }

  /** Under the descending key, "not smaller" means "at most as many bytes". */
  lemma DescendingKeyOrder(a: AppMemoryInfo, b: AppMemoryInfo)
    ensures !LexLess(ByBytesDescending(b), ByBytesDescending(a)) <==> b.memoryBytes <= a.memoryBytes
  {
    assert ByBytesDescending(b)[1..] == [] && ByBytesDescending(a)[1..] == [];
  }

  /** The breakdown lists every entry once, largest first, and entries of
      equal size stay in the order they were collected. */
  lemma BreakdownOrdered(processes: seq<RunningProcess>, memoryInfos: seq<int>, totalUsedBytes: int)
    ensures var entries := Entries(processes, memoryInfos, totalUsedBytes);
            var r := SortBy(entries, ByBytesDescending);
            multiset(r) == multiset(entries) &&
            (forall i, j :: 0 <= i < j < |r| ==> r[i].memoryBytes >= r[j].memoryBytes) &&
            (forall k :: WithKey(r, ByBytesDescending, k) == WithKey(entries, ByBytesDescending, k))
  {
    var entries := Entries(processes, memoryInfos, totalUsedBytes);
    var r := SortBy(entries, ByBytesDescending);
    forall i, j | 0 <= i < j < |r| ensures r[i].memoryBytes >= r[j].memoryBytes {
      DescendingKeyOrder(r[i], r[j]);
    }
    forall k ensures WithKey(r, ByBytesDescending, k) == WithKey(entries, ByBytesDescending, k) {
      SortByStable(entries, ByBytesDescending, k);
    }
  }
}
