/** The proxy's two UDP sockets, replaced by scripts: each send consumes one
    scripted outcome and each backend receive consumes one scripted datagram. */
module Net {
  import opened Bytes

  /** One backend receive: a datagram, or a failure (timeout or socket error). */
  datatype Recv = Got(bytes: Datagram) | Timeout

  /** The sending side of a socket. `outcomes` says whether each successive send
      succeeds (an exhausted script fails every send); `sent` lists, in order,
      every packet handed to a send call, whether or not the send succeeded. */
  datatype Channel = Channel(outcomes: seq<bool>, sent: seq<seq<byte>>)

  /** The backend socket: a sending side and the datagrams still to arrive
      (an exhausted inbox makes every receive time out). */
  datatype Backend = Backend(link: Channel, inbox: seq<Recv>)

  /** Whether the next send on `c` succeeds. */
  predicate SendSucceeds(c: Channel)
  {
    |c.outcomes| > 0 && c.outcomes[0]
  }

  /** Hand `p` to the socket; the result says whether the send succeeded. */
  function Send(c: Channel, p: seq<byte>): (r: (bool, Channel))
    ensures r.0 == SendSucceeds(c)
    ensures r.1.sent == c.sent + [p]
    ensures r.1.outcomes == if |c.outcomes| > 0 then c.outcomes[1..] else []
  {
    var rest := if |c.outcomes| > 0 then c.outcomes[1..] else [];
    (SendSucceeds(c), Channel(rest, c.sent + [p]))
  }

  /** The receive at position `k` of an inbox: past its end, a timeout. */
  function ReplyAt(inbox: seq<Recv>, k: nat): Recv
  {
    if k < |inbox| then inbox[k] else Timeout
  }

  /** Receive one datagram from the backend; consumes one inbox entry. */
  function Receive(b: Backend): (r: (Recv, Backend))
    ensures r.0 == ReplyAt(b.inbox, 0)
    ensures r.1.link == b.link
    ensures r.1.inbox == if |b.inbox| > 0 then b.inbox[1..] else []
  {
    if |b.inbox| > 0 then (b.inbox[0], b.(inbox := b.inbox[1..])) else (Timeout, b)
  }
}
