/**
 * The static helpers of the tooling's `Util` class: the random source port
 * and the parsers of the `ip:port` and `[ip]:port` endpoint arguments.
 */
module Util {
  import opened Wrappers
  import opened PyStr

  /** A parsed endpoint argument; the port is whatever integer the text held. */
  datatype Endpoint = Endpoint(ip: string, port: int)

  /** The exception the parsers raise, carrying the offending argument. */
  datatype ArgError = InvalidIpv4Arg(arg: string) | InvalidIpv6Arg(arg: string)

  /**
   * `int(random.random() * 50000 + 10000)` for a draw in [0, 1), in exact
   * real arithmetic.
   */
  function RandPort(draw: real): (port: int)
    requires 0.0 <= draw < 1.0
    ensures 10000 <= port < 60000
  {
    (draw * 50000.0 + 10000.0).Floor
  }

  /**
   * `parse_ipv4_arg`: no argument gives no endpoint; otherwise the text must
   * split on ':' into exactly two parts and the second must be an integer,
   * or the parser raises.
   */
  function ParseIpv4Arg(arg: Option<string>): (r: Result<Option<Endpoint>, ArgError>)
    ensures arg.None? <==> r == Success(None)
    ensures r.Failure? ==> r.error == InvalidIpv4Arg(arg.value)
  {
    match arg
    case None => Success(None)
    case Some(s) =>
      var parts := Split(s, ":");
      if |parts| != 2 then Failure(InvalidIpv4Arg(s))
      else
        match ParseInt(parts[1])
        case None => Failure(InvalidIpv4Arg(s))
        case Some(port) => Success(Some(Endpoint(parts[0], port)))
  }

  /**
   * `parse_ipv6_arg`: no argument gives no endpoint; otherwise every leading
   * and trailing '[' is stripped, the rest must split on "]:" into exactly
   * two parts and the second must be an integer, or the parser raises.
   */
  function ParseIpv6Arg(arg: Option<string>): (r: Result<Option<Endpoint>, ArgError>)
    ensures arg.None? <==> r == Success(None)
    ensures r.Failure? ==> r.error == InvalidIpv6Arg(arg.value)
  {
    match arg
    case None => Success(None)
    case Some(s) =>
      var parts := Split(StripChar(s, '['), "]:");
      if |parts| != 2 then Failure(InvalidIpv6Arg(s))
      else
        match ParseInt(parts[1])
        case None => Failure(InvalidIpv6Arg(s))
        case Some(port) => Success(Some(Endpoint(parts[0], port)))
  }

  lemma OccursAtOne(s: string, c: char, i: int)
    ensures OccursAt(s, [c], i) <==> 0 <= i < |s| && s[i] == c
  {
    if 0 <= i < |s| {
      assert s[i..i + 1] == [s[i]];
    }
  }

  lemma OccursAtTwo(s: string, a: char, b: char, i: int)
    ensures OccursAt(s, [a, b], i) <==> 0 <= i && i + 2 <= |s| && s[i] == a && s[i + 1] == b
  {
    if 0 <= i && i + 2 <= |s| {
      assert s[i..i + 2] == [s[i], s[i + 1]];
    }
  }

  lemma SplitOfIpv4Arg(ip: string, d: string)
    requires ':' !in ip && ':' !in d
    ensures Split(ip + ":" + d, ":") == [ip, d]
  {
    var s := ip + ":" + d;
    var j := |ip|;
    OccursAtOne(s, ':', j);
    forall i | OccursAt(s, ":", i)
      ensures i == j
    {
      OccursAtOne(s, ':', i);
    }
    assert NoneBetween(s, ":", 0, j);
    assert NoneAfter(s, ":", j);
    SplitPair(s, ":", j, 0);
    assert s[0..] == s;
    assert s[..j] == ip && s[j + 1..] == d;
  }

  /** `parse_ipv4_arg(ip + ":" + str(port))` gives back `ip` and `port` when `ip` has no ':'. */
  lemma ParseIpv4ArgRoundTrip(ip: string, port: int)
    requires ':' !in ip
    ensures ParseIpv4Arg(Some(ip + ":" + IntToString(port))) == Success(Some(Endpoint(ip, port)))
  {
    var d := IntToString(port);
    assert ':' !in d by {
      forall i | 0 <= i < |d|
        ensures d[i] != ':'
      {
      }
    }
    SplitOfIpv4Arg(ip, d);
    ParseIntOfIntToString(port);
  }

  /**
   * Whatever `parse_ipv4_arg` accepts is the endpoint's ip, the only ':' of
   * the argument, and text that `int()` reads as the endpoint's port.
   */
  lemma ParseIpv4ArgSound(s: string, e: Endpoint)
    requires ParseIpv4Arg(Some(s)) == Success(Some(e))
    ensures |e.ip| < |s| && s[..|e.ip|] == e.ip && s[|e.ip|] == ':'
    ensures ParseInt(s[|e.ip| + 1..]) == Some(e.port)
    ensures forall i :: 0 <= i < |s| && s[i] == ':' ==> i == |e.ip|
  {
    var parts := Split(s, ":");
    SplitJoin(s, ":");
    SplitPartsFree(s, ":");
    assert parts[1..] == [parts[1]];
    assert s == parts[0] + ":" + parts[1];
    forall i | 0 <= i < |s| && s[i] == ':'
      ensures i == |e.ip|
    {
      if i < |parts[0]| {
        OccursAtOne(parts[0], ':', i);
      } else if i > |parts[0]| {
        OccursAtOne(parts[1], ':', i - |parts[0]| - 1);
      }
    }
    assert s[|e.ip| + 1..] == parts[1];
  }

  lemma StripBracketsOfArg(ip: string, d: string)
    requires ip == [] || ip[0] != '['
    requires |d| >= 1 && d[|d| - 1] != '['
    ensures StripChar("[" + ip + "]:" + d, '[') == ip + "]:" + d
  {
    var arg := "[" + ip + "]:" + d;
    var s := ip + "]:" + d;
    assert arg[1..] == s;
    assert LStrip(s, x => x == '[') == s;
    assert LStrip(arg, x => x == '[') == s;
    assert RStrip(s, x => x == '[') == s;
  }

  lemma SplitOfArg(ip: string, d: string)
    requires !Contains(ip, "]:")
    requires ']' !in d
    ensures Split(ip + "]:" + d, "]:") == [ip, d]
  {
    var s := ip + "]:" + d;
    var j := |ip|;
    OccursAtTwo(s, ']', ':', j);
    forall i | 0 <= i < j - 1
      ensures OccursAt(s, "]:", i) ==> OccursAt(ip, "]:", i)
    {
      assert s[i..i + 2] == ip[i..i + 2];
    }
    forall i | j + 2 <= i < |s|
      ensures s[i] == d[i - j - 2]
    {
    }
    forall i | OccursAt(s, "]:", i)
      ensures i == j
    {
      OccursAtTwo(s, ']', ':', i);
    }
    SplitPair(s, "]:", j, 0);
    assert s[0..] == s;
    assert s[..j] == ip && s[j + 2..] == d;
  }

  /**
   * `parse_ipv6_arg("[" + ip + "]:" + str(port))` gives back `ip` and `port`
   * when `ip` does not start with '[' and has no "]:".
   */
  lemma ParseIpv6ArgRoundTrip(ip: string, port: int)
    requires ip == [] || ip[0] != '['
    requires !Contains(ip, "]:")
    ensures ParseIpv6Arg(Some("[" + ip + "]:" + IntToString(port))) == Success(Some(Endpoint(ip, port)))
  {
    var d := IntToString(port);
    StripBracketsOfArg(ip, d);
    SplitOfArg(ip, d);
    ParseIntOfIntToString(port);
  }

  /**
   * Whatever `parse_ipv6_arg` accepts is, after the brackets are stripped,
   * the endpoint's ip (free of "]:"), then "]:", then text that `int()`
   * reads as the endpoint's port.
   */
  lemma ParseIpv6ArgSound(s: string, e: Endpoint)
    requires ParseIpv6Arg(Some(s)) == Success(Some(e))
    ensures var t := StripChar(s, '[');
      && |e.ip| + 2 <= |t| && t[..|e.ip|] == e.ip && t[|e.ip|..|e.ip| + 2] == "]:"
      && ParseInt(t[|e.ip| + 2..]) == Some(e.port)
      && !Contains(e.ip, "]:")
  {
    var t := StripChar(s, '[');
    var parts := Split(t, "]:");
    SplitJoin(t, "]:");
    SplitPartsFree(t, "]:");
    assert parts[1..] == [parts[1]];
    assert t == parts[0] + "]:" + parts[1];
    assert t[|e.ip| + 2..] == parts[1];
  }
}
