# SROTT port sniffer — a Dafny model of its scanning core

SROTT probes a range of TCP ports on the loopback address. It classifies each
port as open or closed and, for an open port, looks up the listening process
in the connection table. It can resume, pause or kill that process with a
signal. The same engine serves a command line (`srott.py`) and a small web
dashboard (`srott_web.py`).

The model has six modules:

- `Sniffer` (`sniffer.dfy`) models `PortSniffer`:
  - `check_port` and `get_process_info` are functions over a `Host` oracle. The oracle stands for the socket layer and psutil.
  - `scan_ports` is a method of the `PortSniffer` class. It updates the instance's `openPorts` map and `closedPorts` list in a loop.
  - The thread pool is replaced by `order`, the sequence in which probes complete. It may be any permutation of the range.
  - The method is proved against the specification functions `OpenFound` and `ClosedFound`. Lemmas cover partition, count and distinctness.
- `Manager` (`manager.dfy`) models `ProcessManager`: the system-port test and which signal each action sends. Delivery is an oracle `Os`.
- `PortArgs` (`port_args.dfy`) models how `main` turns `--quick` / `--ports` into a start and end port, including the ways `int()` or the unpacking raise on malformed text.
- `Web` (`web.dfy`) models the dashboard back end:
  - the `scan_status` record, as a class;
  - `run_scan`, with the reshaping loop as a method proved against `Shaped`;
  - the `start_scan` guard, `get_results`, and the `manage_process` dispatch.
- `Strings` models the Python built-ins the core uses: `str.split`, `str.join`, `int()` on a decimal literal, and `str()` of an integer.
- `Wrappers` defines `Option` and `Result`.

Behaviour worth knowing:

- The port range is not validated. A reversed range scans nothing, and `total_scanned` is then `end - start + 1` (zero or negative).
- A port outside 0..65535 is reported closed, because Python's socket layer raises `OverflowError` and `check_port` catches it.
- `open_ports` and `closed_ports` belong to the instance and are not reset by `scan_ports`. A second scan on the same instance therefore accumulates results (`Sniffer.Rescan`).
- `NoSuchProcess` and `AccessDenied` produce the same degraded record.

## Model

| member | source | states |
|---|---|---|
| Sniffer.FirstStop | srott/srott.py:54-55 | the walk over the connection table stops at the first row that listens on the port or has no local address; no earlier row does |
| Sniffer.GetProcessInfo | srott/srott.py:58-67 | a record that is found always carries a name and a user |
| Sniffer.ProcessInfoFound | srott/srott.py:51-70 | info is present exactly when the table is read, the first listener is preceded only by rows with an address, and psutil does not fail unexpectedly; it is then the full record (command line joined with spaces) or the degraded 'Access Denied'/'N/A' record for the listener's pid |
| Sniffer.ReportedRowIsFirstStop | srott/srott.py:54-58 | the reported row is the first stopping row, provided that row has an address |
| Sniffer.LaterRowsIgnored | srott/srott.py:54-58 | rows after the one where the walk stops never change the result |
| Sniffer.FirstStopPrefix | srott/srott.py:54-55 | appending rows after a stopping row does not move the first stop |
| Sniffer.FailuresIndistinguishable | srott/srott.py:66-67 | a vanished process and a denied inspection give the same record: the pid, name 'Access Denied', user 'N/A' |
| Sniffer.CheckPort | srott/srott.py:33-49 | a port is open exactly when it is a valid socket port and the connection attempt returned 0; an open port carries the correlated info, a closed one none |
| Sniffer.PortRange | srott/srott.py:77-78 | `range(start, end + 1)`: end - start + 1 consecutive ports from start, empty when start > end |
| Sniffer.PortSniffer.constructor | srott/srott.py:25-31 | the range is stored as given and both collections start empty |
| Sniffer.PortSniffer.ScanPorts | srott/srott.py:72-101 | for any completion order, the open map gains exactly the open ports of the range with their info, the closed list gains the closed ports in completion order, the result equals both collections with total end - start + 1, and the callback sees (1, total) ... (n, total) |
| Sniffer.ScanStep | srott/srott.py:84-90 | one more completion grows the open map by the port and its info when it is open, and the closed list by the port otherwise |
| Sniffer.OpenFoundSameMembers | srott/srott.py:83-88 | the open map does not depend on the order in which probes complete |
| Sniffer.OpenFound | srott/srott.py:87-88 | every key of the open map is a scanned port whose `check_port` tuple is (port, True, its value) |
| Sniffer.ClosedFound | srott/srott.py:89-90 | the closed list is no longer than the completions, and each listed port completed with the `check_port` tuple (port, False, None) |
| Sniffer.ClosedFoundMembers | srott/srott.py:89-90 | a port is listed closed exactly when it completed and was not open |
| Sniffer.ClosedFoundDistinct | srott/srott.py:89-90 | when no port completes twice, no port is listed closed twice |
| Sniffer.ScanCount | srott/srott.py:83-90 | every completed port lands in exactly one of the two collections, so their sizes add up to the number of completions |
| Sniffer.OpenFoundGrows | srott/srott.py:87-88 | a new open port grows the open map by one, a closed one leaves it |
| Sniffer.PermutationDistinct | srott/srott.py:83 | a completion order, being a permutation of the range, has no repeats |
| Sniffer.FreshScanPartition | srott/srott.py:72-101 | on a fresh instance every port of the range is open or closed and not both, nothing outside the range appears, no port is closed twice, and the collections hold one entry per port |
| Sniffer.ScanOnce | srott/srott.py:301-318 | the scan `main` runs on a new instance returns the fresh-scan result with its partition and count properties |
| Sniffer.Rescan | srott/srott.py:30-31 | a second scan on the same instance keeps earlier results: a port open then closed is in both collections, a port closed twice is listed twice |
| Sniffer.RescanFacts | srott/srott.py:88-90 | the membership and multiplicity facts behind `Rescan` |
| Manager.IsSystemPort | srott/srott.py:105-107 | on valid port numbers, `is_system_port` (below 1024) agrees with the System Ports range of RFC 6335 section 6 |
| Manager.Send | srott/srott.py:112-116 | success exactly when the signal is delivered; the message is the success text or "Failed to <verb> process <pid>: <reason>" |
| Manager.StartProcess | srott/srott.py:110-116 | resume succeeds exactly when SIGCONT is delivered to the pid |
| Manager.PauseProcess | srott/srott.py:119-125 | pause succeeds exactly when SIGSTOP is delivered to the pid |
| Manager.KillProcess | srott/srott.py:128-137 | kill succeeds exactly when SIGKILL (forced) or SIGTERM (otherwise) is delivered |
| Manager.FailureIsReported | srott/srott.py:136-137 | an undeliverable kill returns failure with the message "Failed to kill process <pid>: <reason>" instead of raising |
| Manager.SuccessMessageNamesPid | srott/srott.py:114 | the success message holds the pid's digits at a fixed place, and they read back as the pid |
| PortArgs.Min | srott/srott.py:285 | `min` returns a member of the list that is at most every member |
| PortArgs.Max | srott/srott.py:286 | `max` returns a member of the list that is at least every member |
| PortArgs.ParseAll | srott/srott.py:291 | the list parses exactly when every piece is an integer, giving each piece's value in order |
| PortArgs.UnpackPair | srott/srott.py:289 | unpacking succeeds exactly when there are two pieces and both are integers, giving them in order |
| PortArgs.ListSpan | srott/srott.py:291-293 | a comma list gives its smallest and largest value, both listed, bounding every listed port |
| PortArgs.SpanOfParsed | srott/srott.py:292-293 | the minimum and maximum of the parsed list bound every piece and occur in it |
| PortArgs.ParsePorts | srott/srott.py:281-298 | quick mode gives 21..8888; no or empty `--ports` gives 1..65535 |
| PortArgs.QuickSpan | srott/srott.py:283-286 | the quick port list spans 21..8888 |
| PortArgs.DashArgument | srott/srott.py:288-289 | with a dash, the argument succeeds exactly when it is two integers around one dash; the pair is used unchecked, even reversed |
| PortArgs.CommaArgument | srott/srott.py:290-293 | a comma list succeeds exactly when every piece is an integer, and spans from its least to its greatest port |
| PortArgs.SingleArgument | srott/srott.py:294-295 | otherwise the argument succeeds exactly when it is one integer, scanned alone |
| PortArgs.RangeArgumentRoundTrip | srott/srott.py:288-289 | `-p A-B` written from two port numbers parses back to (A, B) |
| PortArgs.DashPair | srott/srott.py:288-289 | two dash-free numbers around one dash contain a dash and split back into the two |
| PortArgs.SinglePortRoundTrip | srott/srott.py:294-295 | `-p N` written from a port number parses back to (N, N) |
| Strings.Split | srott/srott.py:289 | `split` yields one more piece than there are separators, none holding the separator |
| Strings.JoinSplit | srott/srott.py:289 | joining the pieces of a split gives back the text |
| Strings.SplitJoin | srott/srott.py:289 | splitting a join of separator-free pieces gives back the pieces |
| Strings.SplitAtSeparator | srott/srott.py:289 | the first separator of the text ends the first piece |
| Strings.SplitWithoutSeparator | srott/srott.py:289 | text without the separator is one piece |
| Strings.Join | srott/srott.py:61 | the joined text is empty for no parts, starts with the first part, and has the separator right after it when more parts follow; JoinSplit and SplitJoin are its round trips with `split` |
| Strings.IntToString | srott/srott.py:114 | `str(n)` is non-empty, starts with '-' exactly when n is negative, and is digits otherwise; ParseIntToString reads it back |
| Strings.ParseInt | srott/srott.py:289 | `int(text)` succeeds exactly when the stripped text is an optional sign and at least one digit; an unsigned literal gives a non-negative value |
| Strings.NatToString | srott/srott.py:114 | `str(n)` of a natural number is a non-empty string of digits |
| Strings.DigitsValueOfNatToString | srott/srott.py:114 | the digits of `str(n)` have the value n |
| Strings.ParseIntToString | srott/srott.py:289 | `int(str(n)) == n` for every integer |
| Web.ShapeProcess | srott/srott_web.py:90-100 | no info gives an empty process; otherwise pid is copied and name, user, status and cmdline default to 'Unknown', 'N/A', 'N/A' and '' when missing |
| Web.ShapeEntry | srott/srott_web.py:87-91 | an entry carries its port, the `is_system_port` test and the shaped process |
| Web.SortedPorts | srott/srott_web.py:86 | the keys of the open map in strictly ascending order, each once |
| Web.Shaped | srott/srott_web.py:76-102 | one entry per open port in strictly ascending port order, each the shaped entry of its info, and statistics holding the scan's total and the two counts |
| Web.EntriesOf | srott/srott_web.py:86-102 | one shaped entry per port of the list, in that order |
| Web.EntriesFacts | srott/srott_web.py:86-102 | entries of the sorted keys are strictly ascending, come from the open map, and cover it |
| Web.EntriesOfSnoc | srott/srott_web.py:102 | shaping one more port appends its entry |
| Web.ShapeResults | srott/srott_web.py:86-102 | the loop builds exactly the shaped results |
| Web.CorrelatedView | srott/srott_web.py:93-100 | for info from the correlator, the degraded record shows 'Access Denied', 'N/A' and an empty command line, and the 'Unknown' default is never needed |
| Web.ScanStatus.constructor | srott/srott_web.py:20-26 | the status starts idle with no results |
| Web.RunScan | srott/srott_web.py:56-106 | after the scan the flag is clear, the total is end - start + 1, progress is the number of ports scanned, and the stored (and served) results are the shaped fresh scan |
| Web.FreshStatistics | srott/srott_web.py:78-83 | the statistics of a web scan add up to the range size, and the open entries are exactly the open ports of the range |
| Web.StartScan | srott/srott_web.py:34-54 | refused with 400 'Scan already in progress' exactly while a scan is marked running; otherwise scans the requested bounds, 1 and 65535 when missing |
| Web.GetResults | srott/srott_web.py:111-115 | the stored results when there are any, else 404 'No scan results available' |
| Web.ManageProcess | srott/srott_web.py:118-133 | 'start', 'pause' and 'kill' dispatch to the matching action, kill forced only by `force: true`; any other or missing action is 400 'Invalid action' |
| Web.KillDefaultsToTerminate | srott/srott_web.py:127-129 | a kill without `force` sends SIGTERM, never SIGKILL |

## Left out

- Sockets, the per-probe timeout (a float) and the loopback connection itself are replaced by the `Host.probe` oracle.
- psutil is replaced by the `Host.table` and `Host.inspect` oracles. They are indexed by the port being checked because each correlation re-reads the table.
- The `create_time` field is left out: it is a float, and nothing in the core reads it.
- The thread pool and `max_workers` are represented only by the completion order. Concurrent interleaving of the collection updates is not modelled, because the source updates them from the single consuming loop.
- The result dictionary aliases the instance's own collections. The model returns a value equal to them and does not model later mutation through that alias.
- The progress print every 1000 ports when no callback is given is console output and is left out.
- The banner and status prints, `display_results`, `interactive_mode`, the JSON export, the argparse surface, `os.geteuid` and `system_info` are presentation and are not part of this model.
- Flask routing, SocketIO emits, the progress percentage (a float), the `last_scan` and `scan_time` timestamps, and the daemon thread are left out. `start_scan` returns the job that the thread would run.
- The race between `start_scan`'s check and `run_scan` setting `is_scanning` needs concurrency and is not modelled.
- The `timeout` field of the scan request is not modelled (a float passed through to the sockets).
- Request bodies are assumed to be JSON objects with integer ports and a boolean `force`. A missing body, non-integer values and Python truthiness of a non-boolean `force` are not modelled.
- `os.kill` is the `Os` oracle. Which exceptions it raises and their texts come from the operating system.
- Strings.ParseInt: accepts space, tab, line feed, vertical tab, form feed and carriage return around an optional sign and decimal digits, which is what `int()` accepts for ASCII text. Python's `int()` also accepts underscores between digits, and for text with non-ASCII characters it also accepts non-ASCII digits and a wider set of whitespace. The model rejects those literals. In the other direction, Python 3.11 and later raise `ValueError` for a literal of more than 4300 digits, which the model accepts.
- Sniffer.CheckPort: does not model a raise outside the `try` (srott/srott.py:35-36). `socket.socket()` and `settimeout` run before it, so a negative or non-numeric timeout, or running out of file descriptors, makes `check_port` raise. `future.result()` then re-raises and `scan_ports` aborts with the collections partly filled. The model's `CheckPort` always returns a tuple and `ScanPorts` always completes.
- Sniffer.PortSniffer.ScanPorts: does not model a worker count below 1. `-w 0` or a negative `-w` (srott/srott.py:264, passed on at line 302) makes `ThreadPoolExecutor(max_workers=...)` at line 76 raise `ValueError` before any port is probed. `scan_ports` then raises, and `main` reports the error and exits with status 1. The model's constructor takes no worker count, and `ScanPorts` and `ScanOnce` always complete.
- Web.RunScan: does not model the scan aborting (see `Sniffer.CheckPort`). In the source, an abort happens after `is_scanning` is set to true (srott/srott_web.py:60), so line 106 never runs. The flag stays set and every later `start_scan` is refused with 400. The model's `RunScan` always ends with the flag clear.
