/**
 * The port-range argument handling of `main` in srott/srott.py: `-q` scans
 * the span of a fixed list of common ports, `-p` takes `A-B`, a comma list
 * (reduced to its smallest and largest port) or a single port, and without
 * either the whole 1..65535 is scanned. Nothing checks the range: a reversed
 * or out-of-range pair is passed on as it is. A malformed argument raises
 * `ValueError`, which `main` turns into an error exit; here it is `Err`.
 */
module PortArgs {
  import opened Wrappers
  import Strings

  /** Why `int(...)` or the unpacking into `start_port, end_port` raised. */
  datatype ArgError = InvalidLiteral(text: string) | TooManyValues

  /** The common ports of quick mode. */
  const QuickPorts: seq<int> :=
    [21, 22, 23, 25, 53, 80, 110, 111, 135, 139, 143, 443, 445, 993, 995,
     1723, 3306, 3389, 5900, 8080, 8443, 8888]

  const DefaultStart := 1
  const DefaultEnd := 65535

  /** `min(xs)` */
  function Min(xs: seq<int>): (m: int)
    requires |xs| > 0
    ensures m in xs && forall x :: x in xs ==> m <= x
  {
    if |xs| == 1 then xs[0]
    else
      var rest := Min(xs[1..]);
      assert forall x :: x in xs ==> x == xs[0] || x in xs[1..];
      if xs[0] <= rest then xs[0] else rest
  }

  /** `max(xs)` */
  function Max(xs: seq<int>): (m: int)
    requires |xs| > 0
    ensures m in xs && forall x :: x in xs ==> x <= m
  {
    if |xs| == 1 then xs[0]
    else
      var rest := Max(xs[1..]);
      assert forall x :: x in xs ==> x == xs[0] || x in xs[1..];
      if xs[0] >= rest then xs[0] else rest
  }

  /** `list(map(int, pieces))`: the first piece that is not an integer raises. */
  function ParseAll(pieces: seq<string>): (r: Result<seq<int>, ArgError>)
    ensures r.Ok? <==> forall i :: 0 <= i < |pieces| ==> Strings.ParseInt(pieces[i]).Some?
    ensures r.Ok? ==> |r.value| == |pieces|
    ensures r.Ok? ==> forall i :: 0 <= i < |pieces| ==> Strings.ParseInt(pieces[i]) == Some(r.value[i])
  {
    if |pieces| == 0 then Ok([])
    else match Strings.ParseInt(pieces[0])
      case None => Err(InvalidLiteral(pieces[0]))
      case Some(n) =>
        match ParseAll(pieces[1..])
        case Err(e) => Err(e)
        case Ok(ns) => Ok([n] + ns)
  }

  /**
   * `start_port, end_port = map(int, pieces)`: the pieces are converted one
   * by one as the unpacking pulls them, and a third piece is still converted
   * before the unpacking complains that there are too many.
   */
  function UnpackPair(pieces: seq<string>): (r: Result<(int, int), ArgError>)
    requires |pieces| >= 2
    ensures r.Ok? <==> |pieces| == 2 && Strings.ParseInt(pieces[0]).Some? && Strings.ParseInt(pieces[1]).Some?
    ensures r.Ok? ==> r.value == (Strings.ParseInt(pieces[0]).value, Strings.ParseInt(pieces[1]).value)
  {
    match Strings.ParseInt(pieces[0])
    case None => Err(InvalidLiteral(pieces[0]))
    case Some(a) =>
      match Strings.ParseInt(pieces[1])
      case None => Err(InvalidLiteral(pieces[1]))
      case Some(b) =>
        if |pieces| == 2 then Ok((a, b))
        else if Strings.ParseInt(pieces[2]).None? then Err(InvalidLiteral(pieces[2]))
        else Err(TooManyValues)
  }

  /** The smallest and the largest of the parsed list, or the error that stopped the parse. */
  function ListSpan(pieces: seq<string>): (r: Result<(int, int), ArgError>)
    requires |pieces| >= 1
    ensures r.Ok? <==> forall i :: 0 <= i < |pieces| ==> Strings.ParseInt(pieces[i]).Some?
    ensures r.Ok? ==> forall i :: 0 <= i < |pieces| ==>
      r.value.0 <= Strings.ParseInt(pieces[i]).value <= r.value.1
    ensures r.Ok? ==> exists i :: 0 <= i < |pieces| && Strings.ParseInt(pieces[i]) == Some(r.value.0)
    ensures r.Ok? ==> exists j :: 0 <= j < |pieces| && Strings.ParseInt(pieces[j]) == Some(r.value.1)
  {
    match ParseAll(pieces)
    case Err(e) => Err(e)
    case Ok(ns) =>
      SpanOfParsed(pieces, ns);
      Ok((Min(ns), Max(ns)))
  }

  lemma SpanOfParsed(pieces: seq<string>, ns: seq<int>)
    requires |pieces| >= 1 && |ns| == |pieces|
    requires forall i :: 0 <= i < |pieces| ==> Strings.ParseInt(pieces[i]) == Some(ns[i])
    ensures forall i :: 0 <= i < |pieces| ==> Min(ns) <= Strings.ParseInt(pieces[i]).value <= Max(ns)
    ensures exists i :: 0 <= i < |pieces| && Strings.ParseInt(pieces[i]) == Some(Min(ns))
    ensures exists j :: 0 <= j < |pieces| && Strings.ParseInt(pieces[j]) == Some(Max(ns))
  {
    var lo, hi := Min(ns), Max(ns);
    forall i | 0 <= i < |pieces| ensures lo <= Strings.ParseInt(pieces[i]).value <= hi {
      assert ns[i] in ns;
    }
    var i :| 0 <= i < |ns| && ns[i] == lo;
    var j :| 0 <= j < |ns| && ns[j] == hi;
    assert Strings.ParseInt(pieces[i]) == Some(lo);
    assert Strings.ParseInt(pieces[j]) == Some(hi);
  }

  /**
   * The `(start_port, end_port)` that `main` computes from `--quick` and
   * `--ports`; an empty `--ports` counts as absent.
   */
  function ParsePorts(quick: bool, ports: Option<string>): (r: Result<(int, int), ArgError>)
    ensures quick ==> r == Ok((21, 8888))
    ensures !quick && (ports == None || ports == Some("")) ==> r == Ok((1, 65535))
  {
    if quick then
      QuickSpan();
      Ok((Min(QuickPorts), Max(QuickPorts)))
    else if ports.Some? && ports.value != "" then
      var s := ports.value;
      if '-' in s then
        assert multiset(s)['-'] > 0;
        UnpackPair(Strings.Split(s, '-'))
      else if ',' in s then
        ListSpan(Strings.Split(s, ','))
      else
        match Strings.ParseInt(s)
        case None => Err(InvalidLiteral(s))
        case Some(n) => Ok((n, n))
    else Ok((DefaultStart, DefaultEnd))
  }

  /** A value that occurs in a list and bounds it from below is its minimum. */
  lemma MinIs(xs: seq<int>, v: int)
    requires v in xs && forall x :: x in xs ==> v <= x
    ensures Min(xs) == v
  {
  }

  /** A value that occurs in a list and bounds it from above is its maximum. */
  lemma MaxIs(xs: seq<int>, v: int)
    requires v in xs && forall x :: x in xs ==> x <= v
    ensures Max(xs) == v
  {
  }

  /** The quick list spans 21..8888. */
  lemma QuickSpan()
    ensures Min(QuickPorts) == 21 && Max(QuickPorts) == 8888
  {
    var ports := QuickPorts;
    assert forall i :: 0 <= i < |ports| ==> 21 <= ports[i] <= 8888;
    assert ports[0] == 21 && ports[|ports| - 1] == 8888;
    MinIs(ports, 21);
    MaxIs(ports, 8888);
  }

  /**
   * With a `-` anywhere, the argument must be exactly two integers around
   * one dash, and they are used as they are, even when reversed.
   */
  lemma DashArgument(s: string)
    requires '-' in s
    ensures var r := ParsePorts(false, Some(s));
      var pieces := Strings.Split(s, '-');
      && (r.Ok? <==> |pieces| == 2 && Strings.ParseInt(pieces[0]).Some? && Strings.ParseInt(pieces[1]).Some?)
      && (r.Ok? ==> r.value == (Strings.ParseInt(pieces[0]).value, Strings.ParseInt(pieces[1]).value))
  {
    assert multiset(s)['-'] > 0;
  }

  /**
   * Without a dash, a comma list must be all integers and gives its smallest
   * and largest value: every listed port lies in the range, both ends are
   * listed.
   */
  lemma CommaArgument(s: string)
    requires '-' !in s && ',' in s
    ensures var r := ParsePorts(false, Some(s));
      var pieces := Strings.Split(s, ',');
      && (r.Ok? <==> forall i :: 0 <= i < |pieces| ==> Strings.ParseInt(pieces[i]).Some?)
      && (r.Ok? ==> forall i :: 0 <= i < |pieces| ==>
            r.value.0 <= Strings.ParseInt(pieces[i]).value <= r.value.1)
      && (r.Ok? ==> (exists i :: 0 <= i < |pieces| && Strings.ParseInt(pieces[i]) == Some(r.value.0)) &&
                    (exists j :: 0 <= j < |pieces| && Strings.ParseInt(pieces[j]) == Some(r.value.1)))
  {
  }

  /** Neither dash nor comma: one integer, scanned alone. */
  lemma SingleArgument(s: string)
    requires s != "" && '-' !in s && ',' !in s
    ensures var r := ParsePorts(false, Some(s));
      && (r.Ok? <==> Strings.ParseInt(s).Some?)
      && (r.Ok? ==> r.value == (Strings.ParseInt(s).value, Strings.ParseInt(s).value))
  {
  }

  /** `-p A-B` written from two port numbers reads back as exactly that pair. */
  lemma {:induction false} RangeArgumentRoundTrip(a: nat, b: nat)
    ensures ParsePorts(false, Some(Strings.NatToString(a) + "-" + Strings.NatToString(b))) == Ok((a, b))
  {
    var x, y := Strings.NatToString(a), Strings.NatToString(b);
    assert '-' !in x && '-' !in y;
    DashPair(x, y);
    DashArgument(x + "-" + y);
    Strings.ParseIntToString(a);
    Strings.ParseIntToString(b);
  }

  /** Two dash-free texts around one dash split back into the two. */
  lemma DashPair(x: string, y: string)
    requires '-' !in x && '-' !in y
    ensures '-' in x + "-" + y
    ensures Strings.Split(x + "-" + y, '-') == [x, y]
  {
    var s := x + "-" + y;
    assert s == x + ['-'] + y;
    assert s[|x|] == '-';
    Strings.SplitAtSeparator(x, '-', y);
    Strings.SplitWithoutSeparator(y, '-');
  }

  /** `-p N` written from one port number scans that port alone. */
  lemma {:induction false} SinglePortRoundTrip(a: nat)
    ensures ParsePorts(false, Some(Strings.NatToString(a))) == Ok((a, a))
  {
    var x := Strings.NatToString(a);
    assert '-' !in x && ',' !in x;
    Strings.ParseIntToString(a);
  }
}
