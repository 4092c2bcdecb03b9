/**
 * The dashboard back end of srott/srott_web.py: the global `scan_status`
 * record, `run_scan` (a fresh scan whose results are reshaped for the page),
 * the `start_scan` guard, `get_results` and the `manage_process` dispatch.
 * Flask, SocketIO emits, timestamps and the background thread are not
 * modelled; a JSON reply is `Json(body)` and an error reply `Error(message, status)`.
 */
module Web {
  import opened Wrappers
  import opened Sniffer
  import Manager

  // ---------------------------------------------------------------------
  // Shapes of the replies
  // ---------------------------------------------------------------------

  /** The `process` object of one open port: `{}` or the five defaulted fields. */
  datatype ProcessView =
    | NoProcess
    | ProcessView(pid: Option<int>, name: string, user: string, status: string, cmdline: string)

  /** One element of `open_ports`. */
  datatype PortEntry = PortEntry(port: int, isSystem: bool, process: ProcessView)

  /** The `statistics` object (its `scan_time` stamp is not modelled). */
  datatype Statistics = Statistics(totalScanned: int, openCount: nat, closedCount: nat)

  /** `processed_results`. */
  datatype WebResults = WebResults(openPorts: seq<PortEntry>, statistics: Statistics)

  datatype Reply<T> = Json(body: T) | Error(message: string, status: int)

  const UnknownName := "Unknown"

  // ---------------------------------------------------------------------
  // Shaping the scan result
  // ---------------------------------------------------------------------

  /**
   * The `process` object for one port: empty when there is no info, else
   * `pid` copied and the other fields defaulted when the key is missing.
   */
  function ShapeProcess(info: Option<ProcessInfo>): (v: ProcessView)
    ensures info.None? <==> v.NoProcess?
    ensures info.Some? ==> v.pid == info.value.pid
    ensures info.Some? ==> v.name == (if info.value.name.Some? then info.value.name.value else "Unknown")
    ensures info.Some? ==> v.user == (if info.value.user.Some? then info.value.user.value else "N/A")
    ensures info.Some? ==> v.status == (if info.value.status.Some? then info.value.status.value else "N/A")
    ensures info.Some? ==> v.cmdline == (if info.value.cmdline.Some? then info.value.cmdline.value else "")
  {
    match info
    case None => NoProcess
    case Some(p) =>
      ProcessView(p.pid, p.name.GetOr(UnknownName), p.user.GetOr(NotAvailable),
                  p.status.GetOr(NotAvailable), p.cmdline.GetOr(""))
  }

  /** One `port_data` entry; `is_system` is the same test as `ProcessManager.is_system_port`. */
  function ShapeEntry(port: int, info: Option<ProcessInfo>): (e: PortEntry)
    ensures e.port == port && e.process == ShapeProcess(info)
    ensures e.isSystem == Manager.IsSystemPort(port)
  {
    PortEntry(port, port < 1024, ShapeProcess(info))
  }

  /** The keys of the open map in ascending order: `sorted(results['open'].items())`. */
  function SortedPorts(ports: set<int>): (s: seq<int>)
    ensures |s| == |ports|
    ensures forall i :: 0 <= i < |s| ==> s[i] in ports
    ensures forall p :: p in ports ==> p in s
    ensures forall i, j :: 0 <= i < j < |s| ==> s[i] < s[j]
    decreases |ports|
  {
    if ports == {} then []
    else
      var m := Least(ports);
      var rest := SortedPorts(ports - {m});
      LeastPrepended(ports, m, rest);
      [m] + rest
  }

  lemma LeastPrepended(ports: set<int>, m: int, rest: seq<int>)
    requires m in ports && forall p :: p in ports ==> m <= p
    requires |rest| == |ports - {m}|
    requires forall i :: 0 <= i < |rest| ==> rest[i] in ports - {m}
    requires forall p :: p in ports - {m} ==> p in rest
    requires forall i, j :: 0 <= i < j < |rest| ==> rest[i] < rest[j]
    ensures var s := [m] + rest;
      && |s| == |ports|
      && (forall i :: 0 <= i < |s| ==> s[i] in ports)
      && (forall p :: p in ports ==> p in s)
      && (forall i, j :: 0 <= i < j < |s| ==> s[i] < s[j])
  {
    var s := [m] + rest;
    forall i, j | 0 <= i < j < |s| ensures s[i] < s[j] {
      if i == 0 {
        assert s[j] == rest[j - 1] && rest[j - 1] in ports - {m};
      } else {
        assert s[i] == rest[i - 1] && s[j] == rest[j - 1];
      }
    }
    forall p | p in ports ensures p in s {
      if p != m {
        assert p in ports - {m};
      }
    }
  }

  /** The smallest element of a non-empty finite set. */
  function Least(ports: set<int>): (m: int)
    requires ports != {}
    ensures m in ports && forall p :: p in ports ==> m <= p
  {
    LeastExists(ports);
    var m :| m in ports && forall p :: p in ports ==> m <= p;
    m
  }

  lemma LeastExists(ports: set<int>)
    requires ports != {}
    ensures exists m :: m in ports && forall p :: p in ports ==> m <= p
  {
    var m := LeastWitness(ports);
  }

  /** Every non-empty finite set of integers has a least element. */
  lemma {:induction false} LeastWitness(ports: set<int>) returns (m: int)
    requires ports != {}
    ensures m in ports && forall p :: p in ports ==> m <= p
    decreases |ports|
  {
    NonEmptyHasElement(ports);
    var x: int :| x in ports;
    if ports == {x} {
      m := x;
    } else {
      var rest := ports - {x};
      var k := LeastWitness(rest);
      m := if x <= k then x else k;
      forall p | p in ports ensures m <= p {
        if p != x {
          assert p in rest;
        }
      }
    }
  }

  lemma NonEmptyHasElement(ports: set<int>)
    requires ports != {}
    ensures exists x :: x in ports
  {
    if forall x :: x !in ports {
      assert false;
    }
  }

  /**
   * What `run_scan` stores: one entry per open port in strictly ascending
   * port order, and the three counts of the scan.
   */
  function Shaped(r: ScanResult): (w: WebResults)
    ensures |w.openPorts| == |r.open|
    ensures forall i, j :: 0 <= i < j < |w.openPorts| ==> w.openPorts[i].port < w.openPorts[j].port
    ensures forall i :: 0 <= i < |w.openPorts| ==>
      w.openPorts[i].port in r.open && w.openPorts[i] == ShapeEntry(w.openPorts[i].port, r.open[w.openPorts[i].port])
    ensures forall p :: p in r.open ==> exists i :: 0 <= i < |w.openPorts| && w.openPorts[i].port == p
    ensures w.statistics == Statistics(r.totalScanned, |r.open|, |r.closed|)
  {
    var ports := SortedPorts(r.open.Keys);
    var entries := EntriesOf(r.open, ports);
    EntriesFacts(r.open, ports);
    WebResults(entries, Statistics(r.totalScanned, |r.open|, |r.closed|))
  }

  /** One shaped entry per port of `ports`, in that order. */
  function EntriesOf(open: map<int, Option<ProcessInfo>>, ports: seq<int>): (entries: seq<PortEntry>)
    requires forall i :: 0 <= i < |ports| ==> ports[i] in open
    ensures |entries| == |ports|
    ensures forall i :: 0 <= i < |ports| ==> entries[i] == ShapeEntry(ports[i], open[ports[i]])
  {
    seq(|ports|, i requires 0 <= i < |ports| => ShapeEntry(ports[i], open[ports[i]]))
  }

  lemma EntriesFacts(open: map<int, Option<ProcessInfo>>, ports: seq<int>)
    requires forall i :: 0 <= i < |ports| ==> ports[i] in open
    requires forall p :: p in open ==> p in ports
    requires forall i, j :: 0 <= i < j < |ports| ==> ports[i] < ports[j]
    ensures var entries := EntriesOf(open, ports);
      && (forall i, j :: 0 <= i < j < |entries| ==> entries[i].port < entries[j].port)
      && (forall i :: 0 <= i < |entries| ==>
            entries[i].port in open && entries[i] == ShapeEntry(entries[i].port, open[entries[i].port]))
      && (forall p :: p in open ==> exists i :: 0 <= i < |entries| && entries[i].port == p)
  {
    var entries := EntriesOf(open, ports);
    forall i | 0 <= i < |entries| ensures entries[i].port == ports[i] {
    }
    forall p | p in open ensures exists i :: 0 <= i < |entries| && entries[i].port == p {
      var i :| 0 <= i < |ports| && ports[i] == p;
      assert entries[i].port == p;
    }
  }

  /** Shaping one more port appends its entry. */
  lemma EntriesOfSnoc(open: map<int, Option<ProcessInfo>>, ports: seq<int>, i: int)
    requires forall k :: 0 <= k < |ports| ==> ports[k] in open
    requires 0 <= i < |ports|
    ensures EntriesOf(open, ports[..i + 1]) == EntriesOf(open, ports[..i]) + [ShapeEntry(ports[i], open[ports[i]])]
  {
    assert ports[..i + 1] == ports[..i] + [ports[i]];
  }

  /** The loop of `run_scan` that appends one entry per sorted open port. */
  method ShapeResults(r: ScanResult) returns (w: WebResults)
    ensures w == Shaped(r)
  {
    var stats := Statistics(r.totalScanned, |r.open|, |r.closed|);
    var ports := SortedPorts(r.open.Keys);
    var entries: seq<PortEntry> := [];
    for i := 0 to |ports|
      invariant entries == EntriesOf(r.open, ports[..i])
    {
      var port := ports[i];
      var info := r.open[port];
      var entry := PortEntry(port, port < 1024, ShapeProcess(info));
      assert entry == ShapeEntry(port, info);
      EntriesOfSnoc(r.open, ports, i);
      entries := entries + [entry];
    }
    assert ports[..|ports|] == ports;
    w := WebResults(entries, stats);
  }

  /**
   * What the page shows for an open port whose info came from the
   * correlator: a full record is copied as it is, the degraded record shows
   * 'Access Denied', 'N/A' as status and an empty command line, and no info
   * gives an empty process; the 'Unknown' name default is never needed.
   */
  lemma CorrelatedView(port: int, table: ConnTable, inspect: Option<int> -> Inspection)
    ensures var info := GetProcessInfo(port, table, inspect);
      var v := ShapeProcess(info);
      && (info.None? ==> v == NoProcess)
      && (info.Some? ==> v.name != "Unknown" || info.value.name == Some("Unknown"))
      && (info.Some? && info.value.cmdline.None? ==>
            v == ProcessView(info.value.pid, "Access Denied", "N/A", "N/A", ""))
  {
  }

  // ---------------------------------------------------------------------
  // scan_status and run_scan
  // ---------------------------------------------------------------------

  /** The global `scan_status` record (its `last_scan` stamp is not modelled). */
  class ScanStatus {
    var isScanning: bool
    var progress: int
    var total: int
    var results: Option<WebResults>

    constructor ()
      ensures !isScanning && progress == 0 && total == 0 && results == None
    {
      isScanning := false;
      progress := 0;
      total := 0;
      results := None;
    }
  }

  /**
   * `run_scan(start_port, end_port, timeout)`: marks the scan as running,
   * scans with a new `PortSniffer` while the progress callback records the
   * completed count, then stores the shaped results and clears the flag.
   */
  method RunScan(status: ScanStatus, host: Host, startPort: int, endPort: int, order: seq<int>)
    requires IsCompletionOrder(order, startPort, endPort)
    modifies status
    ensures !status.isScanning
    ensures status.total == endPort - startPort + 1
    ensures status.progress == |PortRange(startPort, endPort)|
    ensures status.results == Some(Shaped(FreshScan(host, startPort, endPort, order)))
    ensures GetResults(status) == Json(Shaped(FreshScan(host, startPort, endPort, order)))
  {
    status.isScanning := true;
    status.progress := 0;
    status.total := endPort - startPort + 1;
    var r, calls := ScanOnce(host, startPort, endPort, order);
    if |calls| > 0 {
      status.progress := calls[|calls| - 1].0;
    }
    var w := ShapeResults(r);
    status.results := Some(w);
    status.isScanning := false;
  }

  /**
   * The statistics of a completed web scan: the counts of the fresh scan,
   * which add up to the size of a non-empty range, and one entry for each
   * port of the range that accepted a connection.
   */
  lemma FreshStatistics(host: Host, start: int, end: int, order: seq<int>)
    requires IsCompletionOrder(order, start, end)
    ensures var w := Shaped(FreshScan(host, start, end, order));
      && w.statistics.totalScanned == end - start + 1
      && (start <= end ==> w.statistics.openCount + w.statistics.closedCount == w.statistics.totalScanned)
      && (forall i :: 0 <= i < |w.openPorts| ==> start <= w.openPorts[i].port <= end && IsOpen(host, w.openPorts[i].port))
      && (forall p :: start <= p <= end && IsOpen(host, p) ==>
            exists i :: 0 <= i < |w.openPorts| && w.openPorts[i].port == p)
  {
    FreshScanPartition(host, start, end, order);
    var r := FreshScan(host, start, end, order);
    forall p | start <= p <= end && IsOpen(host, p) ensures p in r.open {
      assert PortRange(start, end)[p - start] == p;
    }
  }

  // ---------------------------------------------------------------------
  // Routes
  // ---------------------------------------------------------------------

  /** The JSON body of `POST /api/scan` (its `timeout` is not modelled). */
  datatype ScanRequest = ScanRequest(startPort: Option<int>, endPort: Option<int>)

  /** The scan `start_scan` hands to its background thread. */
  datatype ScanJob = ScanJob(startPort: int, endPort: int)

  /**
   * `start_scan()`: refuses while a scan is marked running, otherwise starts
   * one over the requested range, 1..65535 for missing bounds.
   */
  function StartScan(status: ScanStatus, body: ScanRequest): (r: Reply<ScanJob>)
    reads status
    ensures r.Error? <==> status.isScanning
    ensures r.Error? ==> r == Error("Scan already in progress", 400)
    ensures r.Json? ==> r.body.startPort == (if body.startPort.Some? then body.startPort.value else 1)
    ensures r.Json? ==> r.body.endPort == (if body.endPort.Some? then body.endPort.value else 65535)
  {
    if status.isScanning then Error("Scan already in progress", 400)
    else Json(ScanJob(body.startPort.GetOr(1), body.endPort.GetOr(65535)))
  }

  /** `get_results()`: the stored results, or a 404 before any scan finished. */
  function GetResults(status: ScanStatus): (r: Reply<WebResults>)
    reads status
    ensures status.results.Some? <==> r.Json?
    ensures r.Json? ==> r.body == status.results.value
    ensures r.Error? ==> r == Error("No scan results available", 404)
  {
    match status.results
    case Some(w) => Json(w)
    case None => Error("No scan results available", 404)
  }

  /** The JSON body of `POST /api/process/<pid>`. */
  datatype ActionRequest = ActionRequest(action: Option<string>, force: Option<bool>)

  /**
   * `manage_process(pid)`: 'start', 'pause' and 'kill' go to the matching
   * `ProcessManager` action (`force` defaults to false); any other action,
   * or none, is a 400 'Invalid action'.
   */
  function ManageProcess(pid: nat, body: ActionRequest, os: Manager.Os): (r: Reply<Manager.ActionResult>)
    ensures r.Error? <==> body.action !in {Some("start"), Some("pause"), Some("kill")}
    ensures r.Error? ==> r == Error("Invalid action", 400)
    ensures body.action == Some("start") ==> r == Json(Manager.StartProcess(pid, os))
    ensures body.action == Some("pause") ==> r == Json(Manager.PauseProcess(pid, os))
    ensures body.action == Some("kill") ==> r == Json(Manager.KillProcess(pid, body.force == Some(true), os))
  {
    match body.action
    case Some(action) =>
      if action == "start" then Json(Manager.StartProcess(pid, os))
      else if action == "pause" then Json(Manager.PauseProcess(pid, os))
      else if action == "kill" then Json(Manager.KillProcess(pid, body.force.GetOr(false), os))
      else Error("Invalid action", 400)
    case None => Error("Invalid action", 400)
  }

  /** A kill without `force` asks politely: it sends SIGTERM, never SIGKILL. */
  lemma KillDefaultsToTerminate(pid: nat, os: Manager.Os)
    ensures ManageProcess(pid, ActionRequest(Some("kill"), None), os) ==
      Json(Manager.KillProcess(pid, false, os))
    ensures ManageProcess(pid, ActionRequest(Some("kill"), None), os).body.success <==>
      os(pid, Manager.SIGTERM).Delivered?
  {
  }
}
