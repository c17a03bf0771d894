/**
 * The reply of the example UDP echo server: for every datagram it asks the
 * UOA module for the client's real address and answers the apparent sender
 * with the message, followed by the real address when one was found.
 */
module UdpServ {
  import opened Wrappers
  import opened PyStr
  import opened BaseTest

  /** What `get_real_address` returns: family, address text and port. */
  datatype RealAddrInfo = RealAddrInfo(af: int, ip: string, port: int)

  /** The outcome of the `get_real_address` call for one datagram. */
  datatype Resolution = ResolverRaised | Resolved(res: Option<RealAddrInfo>)

  datatype SockAddr = SockAddr(host: string, port: int)

  /** A received datagram: the decoded message and the apparent sender. */
  datatype Datagram = Datagram(msg: string, caddr: SockAddr)

  datatype Reply = Reply(text: string, dest: SockAddr)

  /** `Msg=<msg>`, then `, RealAddr=<ip>:<port>` when the resolver found an address. */
  function ReplyMsg(msg: string, res: Option<RealAddrInfo>): string
  {
    var base := "Msg=" + msg;
    match res
    case None => base
    case Some(info) => base + ", " + REAL_ADDR_MARKER + info.ip + ":" + IntToString(info.port)
  }

  /**
   * One pass of the receive loop: a resolver that raises means no reply and
   * the loop goes on; otherwise the reply goes back to the apparent sender.
   */
  function HandleDatagram(d: Datagram, r: Resolution): (out: Option<Reply>)
    ensures out.None? <==> r.ResolverRaised?
    ensures out.Some? ==> out.value.dest == d.caddr
    ensures out.Some? ==> "Msg=" + d.msg <= out.value.text
  {
    match r
    case ResolverRaised => None
    case Resolved(res) => Some(Reply(ReplyMsg(d.msg, res), d.caddr))
  }

  /** The address family the resolver reports never shows in the reply. */
  lemma ReplyIgnoresFamily(msg: string, info: RealAddrInfo, af: int)
    ensures ReplyMsg(msg, Some(info)) == ReplyMsg(msg, Some(info.(af := af)))
  {
  }

  /**
   * The checker reads back from a reply with an address exactly
   * `<ip>:<port>`, whatever the client's message held, as long as the
   * address text holds no marker.
   */
  lemma ReplyRoundTrip(msg: string, info: RealAddrInfo)
    requires !Contains(info.ip, REAL_ADDR_MARKER)
    ensures ExtractRealAddr(ReplyMsg(msg, Some(info))) == Some(info.ip + ":" + IntToString(info.port))
  {
    var m := REAL_ADDR_MARKER;
    var tail := ":" + IntToString(info.port);
    assert m[|m| - 1] !in tail by {
      assert forall i | 0 <= i < |tail| :: tail[i] == ':' || IsDigit(tail[i]) || tail[i] == '-';
    }
    ConcatWithoutSeparator(info.ip, tail, m);
    var prefix := "Msg=" + msg + ", ";
    assert ReplyMsg(msg, Some(info)) == prefix + m + (info.ip + tail);
    ExtractAfterLastMarker(prefix, info.ip + tail);
    assert info.ip + tail == info.ip + ":" + IntToString(info.port);
  }

  /**
   * A reply without an address has nothing for the checker to read, unless
   * the client's own message held the marker.
   */
  lemma ReplyWithoutAddr(msg: string)
    ensures ExtractRealAddr(ReplyMsg(msg, None)).None? <==> !Contains(msg, REAL_ADDR_MARKER)
  {
    ExtractRealAddrSpec(ReplyMsg(msg, None));
    ContainsBehindPrefix("Msg=", msg, REAL_ADDR_MARKER);
  }
}
