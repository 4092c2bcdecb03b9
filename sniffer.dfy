/**
 * The scan engine of srott/srott.py: `PortSniffer` probes every port of a
 * range on the loopback address, classifies it open or closed, and for an
 * open port looks up the listening process in the connection table.
 *
 * The socket layer and psutil are replaced by a `Host` oracle; the thread
 * pool is replaced by `order`, the sequence in which the probes complete,
 * which may be any permutation of the ports of the range.
 */
module Sniffer {
  import opened Wrappers
  import Strings

  // ---------------------------------------------------------------------
  // The host, as the probes and the correlator see it
  // ---------------------------------------------------------------------

  /** What `connect_ex(('127.0.0.1', port))` gives: an errno (0 = connected), or an exception. */
  datatype ProbeOutcome = ConnectResult(errno: int) | ProbeRaised

  /**
   * One row of `psutil.net_connections()`: local port (None when the row has
   * no local address, so that reading `laddr.port` raises), TCP state and
   * owning pid (psutil may give none).
   */
  datatype Conn = Conn(localPort: Option<int>, status: string, pid: Option<int>)

  /** A read of the connection table, or the exception that read raised. */
  datatype ConnTable = Table(conns: seq<Conn>) | TableRaised

  /** What inspecting a process with `psutil.Process(pid)` and its accessors gives. */
  datatype Inspection =
    | Inspected(name: string, cmdline: seq<string>, user: string, status: string)
    | NoSuchProcess
    | AccessDenied
    | OtherFailure

  /**
   * The operating system as the scan sees it. The connection table is
   * re-read for every port that is correlated, and process inspection happens
   * at that moment too, so both are indexed by the port being checked.
   */
  datatype Host = Host(
    probe: int -> ProbeOutcome,
    table: int -> ConnTable,
    inspect: int -> Option<int> -> Inspection)

  // ---------------------------------------------------------------------
  // Results
  // ---------------------------------------------------------------------

  /**
   * The process dictionary of `get_process_info`. `pid` is always a key (its
   * value may be None); a field of type Option is a key that may be missing.
   */
  datatype ProcessInfo = ProcessInfo(
    pid: Option<int>,
    name: Option<string>,
    cmdline: Option<string>,
    user: Option<string>,
    status: Option<string>)

  /** The tuple `(port, is_open, process_info)` of `check_port`. */
  datatype PortCheck = PortCheck(port: int, isOpen: bool, info: Option<ProcessInfo>)

  /** The dictionary `{'open': ..., 'closed': ..., 'total_scanned': ...}` of `scan_ports`. */
  datatype ScanResult = ScanResult(open: map<int, Option<ProcessInfo>>, closed: seq<int>, totalScanned: int)

  const ListenStatus := "LISTEN"
  const AccessDeniedName := "Access Denied"
  const NotAvailable := "N/A"

  /** The record both psutil failures collapse to. */
  function DegradedInfo(pid: Option<int>): ProcessInfo
  {
    ProcessInfo(pid, Some(AccessDeniedName), None, Some(NotAvailable), None)
  }

  // ---------------------------------------------------------------------
  // get_process_info
  // ---------------------------------------------------------------------

  predicate IsListenerFor(c: Conn, port: int)
  {
    c.localPort == Some(port) && c.status == ListenStatus
  }

  /** The walk over the table stops at a listener for the port, or raises at a row without an address. */
  predicate StopsWalk(c: Conn, port: int)
  {
    c.localPort.None? || IsListenerFor(c, port)
  }

  /** The index of the first row where the walk stops, if any. */
  function FirstStop(conns: seq<Conn>, port: int): (r: Option<nat>)
    ensures r.Some? ==> r.value < |conns| && StopsWalk(conns[r.value], port)
    ensures r.Some? ==> forall j :: 0 <= j < r.value ==> !StopsWalk(conns[j], port)
    ensures r.None? <==> forall j :: 0 <= j < |conns| ==> !StopsWalk(conns[j], port)
  {
    if |conns| == 0 then None
    else if StopsWalk(conns[0], port) then Some(0)
    else match FirstStop(conns[1..], port)
      case None => None
      case Some(i) => Some(i + 1)
  }

  /**
   * The row whose process `get_process_info` reports: the first listener,
   * provided every row before it has an address.
   */
  predicate ReportsRow(conns: seq<Conn>, port: int, i: int)
  {
    0 <= i < |conns| && IsListenerFor(conns[i], port) && forall j :: 0 <= j < i ==> !StopsWalk(conns[j], port)
  }

  /**
   * `get_process_info(port)`: the first listening row for the port decides;
   * a failed table read, no listener, a row without an address before the
   * listener, or an unexpected psutil error gives None.
   */
  function GetProcessInfo(port: int, table: ConnTable, inspect: Option<int> -> Inspection): (r: Option<ProcessInfo>)
    ensures r.Some? ==> r.value.name.Some? && r.value.user.Some?
  {
    match table
    case TableRaised => None
    case Table(conns) =>
      match FirstStop(conns, port)
      case None => None
      case Some(i) =>
        if conns[i].localPort.None? then None
        else
          var pid := conns[i].pid;
          match inspect(pid)
          case Inspected(name, cmdline, user, status) =>
            Some(ProcessInfo(pid, Some(name), Some(Strings.Join(cmdline, ' ')), Some(user), Some(status)))
          case NoSuchProcess => Some(DegradedInfo(pid))
          case AccessDenied => Some(DegradedInfo(pid))
          case OtherFailure => None
  }

  /**
   * Info is found exactly when the table was read, some row is reported and
   * psutil did not fail unexpectedly on its process; it is then the full
   * record of that process or the degraded record of its pid.
   */
  lemma ProcessInfoFound(port: int, table: ConnTable, inspect: Option<int> -> Inspection)
    ensures var r := GetProcessInfo(port, table, inspect);
      && (r.Some? <==>
           table.Table? && (exists i :: ReportsRow(table.conns, port, i) && inspect(table.conns[i].pid) != OtherFailure))
      && (r.Some? ==> forall i :: ReportsRow(table.conns, port, i) ==>
           var pid := table.conns[i].pid;
           match inspect(pid)
           case Inspected(name, cmdline, user, status) =>
             r.value == ProcessInfo(pid, Some(name), Some(Strings.Join(cmdline, ' ')), Some(user), Some(status))
           case _ => r.value == DegradedInfo(pid))
  {
    if table.Table? {
      ReportedRowIsFirstStop(table.conns, port);
    }
  }

  /** The reported row is the one where the walk stops, when that row has an address. */
  lemma ReportedRowIsFirstStop(conns: seq<Conn>, port: int)
    ensures forall i :: ReportsRow(conns, port, i) <==>
      0 <= i && FirstStop(conns, port) == Some(i) && conns[i].localPort.Some?
  {
  }

  /** Rows after the one where the walk stops never change the answer. */
  lemma {:induction false} LaterRowsIgnored(port: int, conns: seq<Conn>, more: seq<Conn>, inspect: Option<int> -> Inspection)
    requires exists j :: 0 <= j < |conns| && StopsWalk(conns[j], port)
    ensures GetProcessInfo(port, Table(conns + more), inspect) == GetProcessInfo(port, Table(conns), inspect)
  {
    FirstStopPrefix(conns, more, port);
  }

  lemma FirstStopPrefix(conns: seq<Conn>, more: seq<Conn>, port: int)
    requires exists j :: 0 <= j < |conns| && StopsWalk(conns[j], port)
    ensures FirstStop(conns + more, port) == FirstStop(conns, port)
  {
    var all := conns + more;
    var k := FirstStop(conns, port).value;
    assert all[k] == conns[k];
    assert forall i :: 0 <= i < k ==> all[i] == conns[i];
  }

  /**
   * A vanished process and a denied inspection cannot be told apart: both
   * give the pid of the listening row with name 'Access Denied' and user 'N/A'.
   */
  lemma FailuresIndistinguishable(port: int, conns: seq<Conn>, i: nat, inspect1: Option<int> -> Inspection, inspect2: Option<int> -> Inspection)
    requires ReportsRow(conns, port, i)
    requires inspect1(conns[i].pid) == NoSuchProcess
    requires inspect2(conns[i].pid) == AccessDenied
    ensures GetProcessInfo(port, Table(conns), inspect1) == GetProcessInfo(port, Table(conns), inspect2)
    ensures GetProcessInfo(port, Table(conns), inspect1) == Some(ProcessInfo(conns[i].pid, Some("Access Denied"), None, Some("N/A"), None))
  {
    assert FirstStop(conns, port) == Some(i);
  }

  // ---------------------------------------------------------------------
  // check_port
  // ---------------------------------------------------------------------

  /** Python's socket layer refuses a port outside 0..65535 with OverflowError. */
  predicate IsValidSocketPort(port: int)
  {
    0 <= port <= 65535
  }

  /** The correlation `check_port` runs for an open port. */
  function Correlate(host: Host, port: int): Option<ProcessInfo>
  {
    GetProcessInfo(port, host.table(port), host.inspect(port))
  }

  /**
   * `check_port(port)`: open with process info exactly when the connection
   * attempt returned 0; a nonzero result or any exception means closed
   * without info.
   */
  function CheckPort(host: Host, port: int): (r: PortCheck)
    ensures r.port == port
    ensures r.isOpen <==> IsValidSocketPort(port) && host.probe(port) == ConnectResult(0)
    ensures r.isOpen ==> r.info == Correlate(host, port)
    ensures !r.isOpen ==> r.info == None
  {
    if !IsValidSocketPort(port) then PortCheck(port, false, None)
    else match host.probe(port)
      case ConnectResult(errno) =>
        if errno == 0 then PortCheck(port, true, Correlate(host, port))
        else PortCheck(port, false, None)
      case ProbeRaised => PortCheck(port, false, None)
  }

  // ---------------------------------------------------------------------
  // Specification of scan_ports
  // ---------------------------------------------------------------------

  /** `range(start, end + 1)`: empty when start > end. */
  function PortRange(start: int, end: int): (r: seq<int>)
    ensures |r| == if start <= end then end - start + 1 else 0
    ensures forall i :: 0 <= i < |r| ==> r[i] == start + i
  {
    if start > end then [] else seq(end - start + 1, i => start + i)
  }

  predicate IsOpen(host: Host, port: int)
  {
    CheckPort(host, port).isOpen
  }

  /** The entries a scan of `ports` adds to `open_ports`, whatever the order. */
  function OpenFound(host: Host, ports: seq<int>): (m: map<int, Option<ProcessInfo>>)
    ensures forall p :: p in m ==> p in ports && CheckPort(host, p) == PortCheck(p, true, m[p])
  {
    map p | p in ports && IsOpen(host, p) :: Correlate(host, p)
  }

  /** The ports a scan completing in `order` appends to `closed_ports`, in that order. */
  function ClosedFound(host: Host, order: seq<int>): (c: seq<int>)
    ensures |c| <= |order|
    ensures forall i :: 0 <= i < |c| ==> c[i] in order && CheckPort(host, c[i]) == PortCheck(c[i], false, None)
  {
    if order == [] then []
    else
      var last := order[|order| - 1];
      ClosedFound(host, order[..|order| - 1]) + (if IsOpen(host, last) then [] else [last])
  }

  /** The progress callback's arguments after `n` completions: (1, total), (2, total), ... */
  predicate IsProgressTrace(calls: seq<(int, int)>, n: nat, total: int)
  {
    |calls| == n && forall k :: 0 <= k < n ==> calls[k] == (k + 1, total)
  }

  predicate Distinct(s: seq<int>)
  {
    forall i, j :: 0 <= i < j < |s| ==> s[i] != s[j]
  }

  /** Every port of the range completes exactly once, in some order. */
  predicate IsCompletionOrder(order: seq<int>, start: int, end: int)
  {
    multiset(order) == multiset(PortRange(start, end))
  }

  // ---------------------------------------------------------------------
  // PortSniffer
  // ---------------------------------------------------------------------

  class PortSniffer {
    const startPort: int
    const endPort: int
    var openPorts: map<int, Option<ProcessInfo>>
    var closedPorts: seq<int>

    /** `__init__`: the range is stored as given, the collections start empty. */
    constructor (startPort: int, endPort: int)
      ensures this.startPort == startPort && this.endPort == endPort
      ensures openPorts == map[] && closedPorts == []
    {
      this.startPort := startPort;
      this.endPort := endPort;
      openPorts := map[];
      closedPorts := [];
    }

    /**
     * `scan_ports(progress_callback)`: the outcomes, completing in `order`,
     * are added to the instance's own `open_ports` and `closed_ports`, which
     * are not reset first. Returns the result and the callback's arguments.
     */
    method ScanPorts(host: Host, order: seq<int>) returns (r: ScanResult, calls: seq<(int, int)>)
      requires IsCompletionOrder(order, startPort, endPort)
      modifies this
      ensures openPorts == old(openPorts) + OpenFound(host, PortRange(startPort, endPort))
      ensures closedPorts == old(closedPorts) + ClosedFound(host, order)
      ensures r == ScanResult(openPorts, closedPorts, endPort - startPort + 1)
      ensures IsProgressTrace(calls, |PortRange(startPort, endPort)|, endPort - startPort + 1)
    {
      var completed := 0;
      var total := endPort - startPort + 1;
      calls := [];
      for i := 0 to |order|
        invariant completed == i
        invariant openPorts == old(openPorts) + OpenFound(host, order[..i])
        invariant closedPorts == old(closedPorts) + ClosedFound(host, order[..i])
        invariant IsProgressTrace(calls, i, total)
      {
        var check := CheckPort(host, order[i]);
        completed := completed + 1;
        ScanStep(host, order, i);
        if check.isOpen {
          MergeUpdate(old(openPorts), OpenFound(host, order[..i]), check.port, check.info);
          openPorts := openPorts[check.port := check.info];
        } else {
          closedPorts := closedPorts + [check.port];
        }
        calls := calls + [(completed, total)];
      }
      assert order[..|order|] == order;
      OpenFoundSameMembers(host, order, PortRange(startPort, endPort));
      assert |order| == |multiset(order)| == |PortRange(startPort, endPort)|;
      r := ScanResult(openPorts, closedPorts, total);
    }
  }

  lemma OpenFoundSnoc(host: Host, order: seq<int>, i: nat)
    requires i < |order|
    ensures OpenFound(host, order[..i + 1]) ==
      if IsOpen(host, order[i]) then OpenFound(host, order[..i])[order[i] := Correlate(host, order[i])]
      else OpenFound(host, order[..i])
  {
    assert order[..i + 1] == order[..i] + [order[i]];
  }

  /** One more completion: the open map or the closed list grows by that port. */
  lemma ScanStep(host: Host, order: seq<int>, i: nat)
    requires i < |order|
    ensures OpenFound(host, order[..i + 1]) ==
      if IsOpen(host, order[i]) then OpenFound(host, order[..i])[order[i] := Correlate(host, order[i])]
      else OpenFound(host, order[..i])
    ensures ClosedFound(host, order[..i + 1]) ==
      ClosedFound(host, order[..i]) + if IsOpen(host, order[i]) then [] else [order[i]]
  {
    OpenFoundSnoc(host, order, i);
    assert order[..i + 1][..i] == order[..i];
  }

  /** Updating a merged map is merging into the updated map. */
  lemma MergeUpdate<V>(m: map<int, V>, n: map<int, V>, k: int, v: V)
    ensures (m + n)[k := v] == m + n[k := v]
  {
  }

  lemma OpenFoundSameMembers(host: Host, s: seq<int>, t: seq<int>)
    requires multiset(s) == multiset(t)
    ensures OpenFound(host, s) == OpenFound(host, t)
  {
    forall p ensures p in s <==> p in t {
      assert p in s <==> p in multiset(s);
      assert p in t <==> p in multiset(t);
    }
  }

  // ---------------------------------------------------------------------
  // What a scan on a fresh instance promises
  // ---------------------------------------------------------------------

  /** A closed port is listed exactly when it completed and its probe failed. */
  lemma {:induction false} ClosedFoundMembers(host: Host, order: seq<int>, p: int)
    ensures p in ClosedFound(host, order) <==> p in order && !IsOpen(host, p)
  {
    if order != [] {
      var init := order[..|order| - 1];
      ClosedFoundMembers(host, init, p);
      assert order == init + [order[|order| - 1]];
    }
  }

  /** When no port completes twice, no port is listed closed twice. */
  lemma {:induction false} ClosedFoundDistinct(host: Host, order: seq<int>)
    requires Distinct(order)
    ensures Distinct(ClosedFound(host, order))
  {
    if order != [] {
      var init := order[..|order| - 1];
      var last := order[|order| - 1];
      ClosedFoundDistinct(host, init);
      ClosedFoundMembers(host, init, last);
      assert last !in init;
    }
  }

  /** Every completed port lands in exactly one of the two collections. */
  lemma {:induction false} ScanCount(host: Host, order: seq<int>)
    requires Distinct(order)
    ensures |OpenFound(host, order)| + |ClosedFound(host, order)| == |order|
  {
    if order != [] {
      var n := |order| - 1;
      var init := order[..n];
      assert Distinct(init);
      ScanCount(host, init);
      OpenFoundGrows(host, order);
      ClosedFoundGrows(host, order);
    }
  }

  lemma OpenFoundGrows(host: Host, order: seq<int>)
    requires order != [] && Distinct(order)
    ensures var n := |order| - 1;
      |OpenFound(host, order)| == |OpenFound(host, order[..n])| + if IsOpen(host, order[n]) then 1 else 0
  {
    var n := |order| - 1;
    var before := OpenFound(host, order[..n]);
    OpenFoundSnoc(host, order, n);
    assert order[..n + 1] == order;
    assert order[n] !in order[..n];
    assert order[n] !in before;
  }

  lemma ClosedFoundGrows(host: Host, order: seq<int>)
    requires order != []
    ensures var n := |order| - 1;
      |ClosedFound(host, order)| == |ClosedFound(host, order[..n])| + if IsOpen(host, order[n]) then 0 else 1
  {
  }

  lemma DistinctRange(start: int, end: int)
    ensures Distinct(PortRange(start, end))
  {
  }

  /** A sequence with no repeats has every element once in its multiset. */
  lemma {:induction false} DistinctMultiplicity(s: seq<int>, x: int)
    requires Distinct(s)
    ensures multiset(s)[x] <= 1
  {
    if s != [] {
      var init := s[..|s| - 1];
      DistinctMultiplicity(init, x);
      assert s == init + [s[|s| - 1]];
      if x == s[|s| - 1] {
        assert x !in init;
      }
    }
  }

  /** An element at two positions is counted twice. */
  lemma TwoPositions(s: seq<int>, i: nat, j: nat)
    requires i < j < |s|
    ensures s[i] == s[j] ==> multiset(s)[s[i]] >= 2
  {
    assert s == s[..i] + [s[i]] + s[i + 1..j] + [s[j]] + s[j + 1..];
  }

  /** A permutation of a sequence without repeats has none either. */
  lemma PermutationDistinct(s: seq<int>, t: seq<int>)
    requires Distinct(t) && multiset(s) == multiset(t)
    ensures Distinct(s)
  {
    forall i, j | 0 <= i < j < |s| ensures s[i] != s[j] {
      DistinctMultiplicity(t, s[i]);
      TwoPositions(s, i, j);
    }
  }

  /** The result a scan on a fresh instance returns. */
  function FreshScan(host: Host, start: int, end: int, order: seq<int>): ScanResult
  {
    ScanResult(OpenFound(host, PortRange(start, end)), ClosedFound(host, order), end - start + 1)
  }

  /**
   * On a fresh instance every port of the range is open or closed and not
   * both, nothing outside the range appears, no port is closed twice, and
   * the two collections together hold one entry per port of the range.
   */
  lemma FreshScanPartition(host: Host, start: int, end: int, order: seq<int>)
    requires IsCompletionOrder(order, start, end)
    ensures var r := FreshScan(host, start, end, order);
      && (forall p :: start <= p <= end ==> (p in r.open <==> p !in r.closed))
      && (forall p :: p in r.open ==> start <= p <= end && IsOpen(host, p))
      && (forall p :: p in r.closed ==> start <= p <= end && !IsOpen(host, p))
      && Distinct(r.closed)
      && |r.open| + |r.closed| == |PortRange(start, end)|
      && r.totalScanned == end - start + 1
  {
    var r := FreshScan(host, start, end, order);
    DistinctRange(start, end);
    PermutationDistinct(order, PortRange(start, end));
    OpenFoundSameMembers(host, order, PortRange(start, end));
    forall p ensures p in order <==> start <= p <= end {
      assert p in order <==> p in multiset(order);
      assert p in PortRange(start, end) <==> start <= p <= end by {
        if start <= p <= end {
          assert PortRange(start, end)[p - start] == p;
        }
      }
    }
    forall p ensures p in r.closed <==> p in order && !IsOpen(host, p) {
      ClosedFoundMembers(host, order, p);
    }
    ClosedFoundDistinct(host, order);
    ScanCount(host, order);
    assert |order| == |multiset(order)| == |PortRange(start, end)|;
  }

  /**
   * The scan `main` and the web layer run: a new `PortSniffer` for the range,
   * scanned once.
   */
  method ScanOnce(host: Host, start: int, end: int, order: seq<int>) returns (r: ScanResult, calls: seq<(int, int)>)
    requires IsCompletionOrder(order, start, end)
    ensures r == FreshScan(host, start, end, order)
    ensures forall p :: start <= p <= end ==> (p in r.open <==> p !in r.closed)
    ensures forall p :: p in r.open ==> start <= p <= end && IsOpen(host, p)
    ensures forall p :: p in r.closed ==> start <= p <= end && !IsOpen(host, p)
    ensures r.totalScanned == end - start + 1
    ensures start <= end ==> |r.open| + |r.closed| == r.totalScanned
    ensures IsProgressTrace(calls, |PortRange(start, end)|, end - start + 1)
  {
    var sniffer := new PortSniffer(start, end);
    r, calls := sniffer.ScanPorts(host, order);
    assert map[] + OpenFound(host, PortRange(start, end)) == OpenFound(host, PortRange(start, end));
    assert [] + ClosedFound(host, order) == ClosedFound(host, order);
    FreshScanPartition(host, start, end, order);
  }

  /**
   * The interactive "refresh": the same instance scanned a second time. The
   * closed list of the first scan is kept and extended, so a port closed
   * both times is listed twice, and a port open at first but closed now is
   * both a key of `open` and an element of `closed`.
   */
  method Rescan(host1: Host, host2: Host, start: int, end: int, order1: seq<int>, order2: seq<int>)
    returns (r1: ScanResult, r2: ScanResult)
    requires IsCompletionOrder(order1, start, end) && IsCompletionOrder(order2, start, end)
    ensures r1 == FreshScan(host1, start, end, order1)
    ensures r2.open == r1.open + OpenFound(host2, PortRange(start, end))
    ensures r2.closed == r1.closed + ClosedFound(host2, order2)
    ensures r2.totalScanned == r1.totalScanned == end - start + 1
    ensures forall p :: p in r1.open && start <= p <= end && !IsOpen(host2, p) ==> p in r2.open && p in r2.closed
    ensures forall p :: p in r1.closed && start <= p <= end && !IsOpen(host2, p) ==> multiset(r2.closed)[p] == 2
    ensures |r2.closed| == |r1.closed| + |ClosedFound(host2, order2)|
  {
    var sniffer := new PortSniffer(start, end);
    var calls;
    r1, calls := sniffer.ScanPorts(host1, order1);
    assert map[] + OpenFound(host1, PortRange(start, end)) == OpenFound(host1, PortRange(start, end));
    assert [] + ClosedFound(host1, order1) == ClosedFound(host1, order1);
    r2, calls := sniffer.ScanPorts(host2, order2);
    RescanFacts(host1, host2, start, end, order1, order2);
  }

  lemma RescanFacts(host1: Host, host2: Host, start: int, end: int, order1: seq<int>, order2: seq<int>)
    requires IsCompletionOrder(order1, start, end) && IsCompletionOrder(order2, start, end)
    ensures var r1 := FreshScan(host1, start, end, order1);
      var closed2 := ClosedFound(host2, order2);
      && (forall p :: p in r1.open && start <= p <= end && !IsOpen(host2, p) ==> p in closed2)
      && (forall p :: p in r1.closed && start <= p <= end && !IsOpen(host2, p) ==> multiset(r1.closed + closed2)[p] == 2)
  {
    FreshScanPartition(host1, start, end, order1);
    FreshScanPartition(host2, start, end, order2);
    var r1 := FreshScan(host1, start, end, order1);
    var closed2 := ClosedFound(host2, order2);
    forall p | p in r1.closed && start <= p <= end && !IsOpen(host2, p)
      ensures multiset(r1.closed + closed2)[p] == 2
    {
      DistinctMultiplicity(r1.closed, p);
      DistinctMultiplicity(closed2, p);
      assert p in closed2;
    }
  }
}
