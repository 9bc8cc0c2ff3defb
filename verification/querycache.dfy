/** The A2S caching engine of QueryCache/Program.cs as a sequential state
    machine. Sockets become scripted `Backend`/`Channel` values, the clock
    becomes an integer number of seconds passed in by the caller, and the
    locks disappear: every operation runs to completion before the next. */
module QueryCache {
  import opened Wrappers
  import opened Bytes
  import opened Net
  import opened Wire

  /** Requests received and answered, per category: info, and everything else. */
  datatype Counters = Counters(infoQueries: nat, otherQueries: nat, infoAnswered: nat, otherAnswered: nat)

  /** A cached multi-packet answer in receipt order. An entry is None where an
      aborted reassembly left its array element unfilled. */
  type Slot = seq<Option<Datagram>>

  /** The proxy's shared state. An absent cache (None) is a cache that has
      never been written. Timestamps are whole seconds. */
  datatype Proxy = Proxy(
    challenge: Code,
    info: Option<Datagram>,
    players: Option<Slot>,
    rules: Option<Slot>,
    lastInfo: int,
    lastPlayers: int,
    lastRules: int,
    counters: Counters)

  /** The three cached query kinds. */
  datatype Kind = Info | Players | Rules

  /** Seconds a cached answer stays fresh. */
  function Ttl(k: Kind): nat
  {
    match k
    case Info => 5
    case Players => 3
    case Rules => 10
  }

  /** The request type byte that asks for kind `k`. */
  function QueryType(k: Kind): byte
  {
    match k
    case Info => InfoRequest
    case Players => PlayersRequest
    case Rules => RulesRequest
  }

  function LastRefresh(s: Proxy, k: Kind): int
  {
    match k
    case Info => s.lastInfo
    case Players => s.lastPlayers
    case Rules => s.lastRules
  }

  /** Record `now` as the refresh time of kind `k` alone. */
  function Stamp(s: Proxy, k: Kind, now: int): (r: Proxy)
    ensures LastRefresh(r, k) == now
    ensures forall j :: j != k ==> LastRefresh(r, j) == LastRefresh(s, j)
    ensures r == s.(lastInfo := r.lastInfo, lastPlayers := r.lastPlayers, lastRules := r.lastRules)
  {
    match k
    case Info => s.(lastInfo := now)
    case Players => s.(lastPlayers := now)
    case Rules => s.(lastRules := now)
  }

  /** The multi-packet cache of the players or rules kind. */
  function SlotOf(s: Proxy, k: Kind): Option<Slot>
    requires k != Info
  {
    if k == Players then s.players else s.rules
  }

  /** The state after start-up: no code yet, nothing cached, and every
      timestamp 30 seconds before the start time `t0`, so that the first
      request of each kind refreshes. */
  function Init(t0: int): (r: Proxy)
    ensures r.challenge == Sentinel
    ensures r.info.None? && r.players.None? && r.rules.None?
    ensures forall k :: LastRefresh(r, k) + Ttl(k) <= t0
    ensures r.counters == Counters(0, 0, 0, 0)
  {
    Proxy(Sentinel, None, None, None, t0 - 30, t0 - 30, t0 - 30, Counters(0, 0, 0, 0))
  }

  /** A state together with the backend after an operation, and the
      operation's result. */
  datatype Exchange<T> = Exchange(value: T, proxy: Proxy, backend: Backend)

  /** Whether a receive delivered a datagram whose byte 4 announces a challenge. */
  predicate OffersCode(rv: Recv)
  {
    rv.Got? && At(rv.bytes, 4) == ChallengeReply
  }

  /** Return the challenge code, first fetching one from the server when only
      the sentinel is known. The reply is read through a 9-byte buffer and only
      its byte 4 is checked. */
  function RequestChallenge(s: Proxy, b: Backend): (r: Exchange<Code>)
    ensures r.value == r.proxy.challenge && r.proxy == s.(challenge := r.value)
    ensures s.challenge != Sentinel ==> r.value == s.challenge && r.backend == b
    ensures s.challenge == Sentinel ==> r.backend.link.sent == b.link.sent + [ChallengeFetch]
    ensures s.challenge == Sentinel ==>
      r.value == if SendSucceeds(b.link) && OffersCode(ReplyAt(b.inbox, 0))
                 then CodeOf(ReplyAt(b.inbox, 0).bytes) else Sentinel
    ensures s.challenge == Sentinel && !SendSucceeds(b.link) ==> r.backend.inbox == b.inbox
    ensures |r.backend.inbox| <= |b.inbox|
  {
    if s.challenge != Sentinel then Exchange(s.challenge, s, b)
    else
      var (sent, link) := Send(b.link, ChallengeFetch);
      var b1 := b.(link := link);
      if !sent then Exchange(s.challenge, s, b1)
      else
        var (got, b2) := Receive(b1);
        if OffersCode(got) then
          var code := CodeOf(got.bytes);
          Exchange(code, s.(challenge := code), b2)
        else Exchange(s.challenge, s, b2)
  }

  /** A 9-byte request of type `t` carrying the current challenge code. */
  function BuildRequest(t: byte, s: Proxy, b: Backend): (r: Exchange<seq<byte>>)
    ensures |r.value| == 9 && r.value[..4] == Header && r.value[4] == t
    ensures r.value[5..] == r.proxy.challenge
    ensures r.proxy == RequestChallenge(s, b).proxy && r.backend == RequestChallenge(s, b).backend
  {
    var rc := RequestChallenge(s, b);
    Exchange(Packet(t, rc.value), rc.proxy, rc.backend)
  }

  /** Whether bytes 5..8 of a client request equal the current challenge code. */
  function ChallengeIsValid(req: Datagram, s: Proxy, b: Backend): (r: Exchange<bool>)
    ensures r.value <==> forall i :: 0 <= i < 4 ==> At(req, 5 + i) == r.proxy.challenge[i]
    ensures r.proxy == RequestChallenge(s, b).proxy && r.backend == RequestChallenge(s, b).backend
  {
    var rc := RequestChallenge(s, b);
    Exchange(CodeOf(req) == rc.value, rc.proxy, rc.backend)
  }

  /** The outcome of collecting a multi-packet reply. */
  datatype Gathered = Gathered(ok: bool, packets: seq<Datagram>, backend: Backend)

  /** Collect a multi-packet reply of `n` datagrams whose first datagram,
      `first`, has already arrived: receive the remaining `n - 1` in order,
      stopping at the first failed receive. */
  function Gather(first: Datagram, n: nat, b: Backend): (r: Gathered)
    ensures r.backend.link == b.link
    ensures r.ok <==> forall k :: 0 <= k < n - 1 ==> ReplyAt(b.inbox, k).Got?
    ensures r.ok ==> |r.packets| == n
    ensures !r.ok ==> 1 <= |r.packets| < n && ReplyAt(b.inbox, |r.packets| - 1) == Timeout
    ensures n > 0 ==> r.packets[0] == first
    ensures forall k :: 1 <= k < |r.packets| ==> ReplyAt(b.inbox, k - 1) == Got(r.packets[k])
    ensures r.ok && n > 0 ==> n - 1 <= |b.inbox| && r.backend.inbox == b.inbox[n - 1..]
    ensures |r.backend.inbox| <= |b.inbox|
    decreases n
  {
    if n == 0 then Gathered(true, [], b)
    else if n == 1 then Gathered(true, [first], b)
    else
      var (got, b1) := Receive(b);
      match got
      case Timeout => Gathered(false, [first], b1)
      case Got(d) =>
        var g := Gather(d, n - 1, b1);
        assert forall k :: 0 <= k ==> ReplyAt(b1.inbox, k) == ReplyAt(b.inbox, k + 1);
        assert (forall k :: 0 <= k < n - 1 ==> ReplyAt(b.inbox, k).Got?) ==
               (forall k :: 0 <= k < n - 2 ==> ReplyAt(b1.inbox, k).Got?) by {
          if forall k :: 0 <= k < n - 2 ==> ReplyAt(b1.inbox, k).Got? {
            forall k | 0 <= k < n - 1 ensures ReplyAt(b.inbox, k).Got? {
              if k > 0 { assert ReplyAt(b1.inbox, k - 1).Got?; }
            }
          }
        }
        Gathered(g.ok, [first] + g.packets, g.backend)
  }

  /** The array of `n` elements a reassembly leaves behind: the collected
      datagrams, then empty elements. */
  function Fill(packets: seq<Datagram>, n: nat): (slot: Slot)
    ensures |slot| == n
  {
    seq(n, k requires 0 <= k < n => if k < |packets| then Some(packets[k]) else None)
  }

  /** Store a reply that is not a challenge renewal: reassemble a multi-packet
      reply into the slot its byte 16 names, or put a single packet into the
      cache its byte 4 names. The result says whether the reply was handled. */
  function Store(d: Datagram, s: Proxy, b: Backend): (r: Exchange<bool>)
    ensures r.proxy == s.(info := r.proxy.info, players := r.proxy.players, rules := r.proxy.rules)
    ensures r.backend.link == b.link && |r.backend.inbox| <= |b.inbox|
    // single-packet replies, dispatched on byte 4
    ensures At(d, 0) != MultiPacket ==> r.backend == b
    ensures At(d, 0) != MultiPacket ==>
      (r.value <==> At(d, 4) == InfoReply || At(d, 4) == PlayersReply || At(d, 4) == RulesReply)
    ensures At(d, 0) != MultiPacket && At(d, 4) == InfoReply ==> r.proxy == s.(info := Some(d))
    ensures At(d, 0) != MultiPacket && At(d, 4) == PlayersReply ==> r.proxy == s.(players := Some([Some(d)]))
    ensures At(d, 0) != MultiPacket && At(d, 4) == RulesReply ==> r.proxy == s.(rules := Some([Some(d)]))
    ensures !r.value && At(d, 0) != MultiPacket ==> r.proxy == s
    ensures !r.value ==> r.proxy.info == s.info
    ensures !r.value ==> KeptOrHoled(s.players, r.proxy.players) && KeptOrHoled(s.rules, r.proxy.rules)
    // multi-packet replies, dispatched on byte 16
    ensures At(d, 0) == MultiPacket && At(d, TagOffset) != RulesReply && At(d, TagOffset) != PlayersReply ==>
      !r.value && r.proxy == s && r.backend == b
    ensures At(d, 0) == MultiPacket && At(d, TagOffset) == RulesReply ==>
      r.proxy.info == s.info && r.proxy.players == s.players && r.proxy.rules.Some? &&
      |r.proxy.rules.value| == At(d, CountOffset) as nat
    ensures At(d, 0) == MultiPacket && At(d, TagOffset) == PlayersReply ==>
      r.proxy.info == s.info && r.proxy.rules == s.rules && r.proxy.players.Some? &&
      |r.proxy.players.value| == At(d, CountOffset) as nat
  {
    if At(d, 0) == MultiPacket then
      var n := At(d, CountOffset) as nat;
      var tag := At(d, TagOffset);
      if tag == RulesReply || tag == PlayersReply then
        var g := Gather(d, n, b);
        var slot := Fill(g.packets, n);
        assert !g.ok ==> slot[|g.packets|] == None;
        var s' := if tag == RulesReply then s.(rules := Some(slot)) else s.(players := Some(slot));
        Exchange(g.ok, s', g.backend)
      else Exchange(false, s, b)
    else
      var tag := At(d, 4);
      if tag == InfoReply then Exchange(true, s.(info := Some(d)), b)
      else if tag == PlayersReply then Exchange(true, s.(players := Some([Some(d)])), b)
      else if tag == RulesReply then Exchange(true, s.(rules := Some([Some(d)])), b)
      else Exchange(false, s, b)
  }

  /** Send the backend query for type `q`: the fixed info request for 0x54,
      otherwise a challenge-bearing request. The result says whether the send
      succeeded. */
  function SendQuery(q: byte, s: Proxy, b: Backend): (r: Exchange<bool>)
    ensures r.proxy.info == s.info && r.proxy.players == s.players && r.proxy.rules == s.rules
    ensures r.proxy == s.(challenge := r.proxy.challenge)
    ensures |r.backend.inbox| <= |b.inbox|
    ensures b.link.sent < r.backend.link.sent
    ensures r.backend.link.sent[|b.link.sent|] ==
      if q == InfoRequest then InfoQuery
      else if s.challenge == Sentinel then ChallengeFetch
      else Packet(q, s.challenge)
    ensures q == InfoRequest ==>
      && r.proxy == s && r.backend.inbox == b.inbox
      && r.backend.link.sent == b.link.sent + [InfoQuery]
      && r.value == SendSucceeds(b.link)
    ensures q != InfoRequest ==>
      var rc := RequestChallenge(s, b);
      && r.proxy == rc.proxy && r.backend.inbox == rc.backend.inbox
      && r.backend.link.sent == rc.backend.link.sent + [Packet(q, rc.value)]
      && r.value == SendSucceeds(rc.backend.link)
  {
    if q == InfoRequest then
      var (ok, link) := Send(b.link, InfoQuery);
      Exchange(ok, s, b.(link := link))
    else
      var br := BuildRequest(q, s, b);
      var (ok, link) := Send(br.backend.link, br.value);
      Exchange(ok, br.proxy, br.backend.(link := link))
  }

  /** A cache that is either as it was, or was replaced by an array some of
      whose elements an aborted reassembly left unfilled. */
  predicate KeptOrHoled(before: Option<Slot>, after: Option<Slot>)
  {
    after == before || (after.Some? && None in after.value)
  }

  /** Refresh the cache for query type `q` from the backend. A challenge
      renewal in reply replaces the code and repeats the same query; every
      repetition consumes a datagram, which bounds the retries. */
  function UpdateCache(q: byte, s: Proxy, b: Backend): (r: Exchange<bool>)
    ensures r.proxy.counters == s.counters
    ensures r.proxy.lastInfo == s.lastInfo && r.proxy.lastPlayers == s.lastPlayers && r.proxy.lastRules == s.lastRules
    ensures !r.value ==> r.proxy.info == s.info
    ensures !r.value ==> KeptOrHoled(s.players, r.proxy.players) && KeptOrHoled(s.rules, r.proxy.rules)
    ensures b.link.sent < r.backend.link.sent
    ensures |r.backend.inbox| <= |b.inbox|
    decreases |b.inbox|
  {
    var sq := SendQuery(q, s, b);
    if !sq.value then Exchange(false, sq.proxy, sq.backend)
    else
      var (got, b1) := Receive(sq.backend);
      match got
      case Timeout => Exchange(false, sq.proxy, b1)
      case Got(d) =>
        if IsRenewal(d) then
          UpdateCache(q, sq.proxy.(challenge := CodeOf(d)), b1)
        else Store(d, sq.proxy, b1)
  }

  /** The time-to-live gate: refresh kind `k` when its answer is at least
      `Ttl(k)` seconds old, and record `now` as its refresh time on success.
      A false result means the refresh failed and the request is dropped. */
  function Refresh(k: Kind, now: int, s: Proxy, b: Backend): (r: Exchange<bool>)
    ensures now < LastRefresh(s, k) + Ttl(k) ==> r == Exchange(true, s, b)
    ensures LastRefresh(s, k) + Ttl(k) <= now ==> |r.backend.link.sent| > |b.link.sent|
    ensures LastRefresh(r.proxy, k) == if r.value && LastRefresh(s, k) + Ttl(k) <= now then now else LastRefresh(s, k)
    ensures forall j :: j != k ==> LastRefresh(r.proxy, j) == LastRefresh(s, j)
    ensures r.proxy.counters == s.counters
    ensures !r.value ==> LastRefresh(s, k) + Ttl(k) <= now && r.proxy.info == s.info
    ensures |r.backend.inbox| <= |b.inbox|
  {
    if LastRefresh(s, k) + Ttl(k) <= now then
      var u := UpdateCache(QueryType(k), s, b);
      if u.value then Exchange(true, Stamp(u.proxy, k, now), u.backend)
      else Exchange(false, u.proxy, u.backend)
    else Exchange(true, s, b)
  }

  /** Whether every entry of `entries` is a stored datagram and the next
      `|entries|` sends on `c` all succeed. */
  predicate Deliverable(entries: Slot, c: Channel)
  {
    && |entries| <= |c.outcomes|
    && (forall i :: 0 <= i < |entries| ==> entries[i].Some?)
    && (forall i :: 0 <= i < |entries| ==> c.outcomes[i])
  }

  datatype Replayed = Replayed(ok: bool, client: Channel)

  /** Send the cached entries to the client in stored order, stopping at the
      first send that fails; an unfilled entry fails before anything is sent. */
  function Replay(entries: Slot, c: Channel): (r: Replayed)
    ensures c.sent <= r.client.sent && |r.client.sent| <= |c.sent| + |entries|
    ensures forall k :: |c.sent| <= k < |r.client.sent| ==> entries[k - |c.sent|] == Some(r.client.sent[k])
    ensures r.ok <==> Deliverable(entries, c)
    ensures r.ok ==> |r.client.sent| == |c.sent| + |entries|
    decreases |entries|
  {
    if |entries| == 0 then Replayed(true, c)
    else match entries[0]
      case None => Replayed(false, c)
      case Some(p) =>
        var (ok, c1) := Send(c, p);
        if !ok then Replayed(false, c1)
        else Replay(entries[1..], c1)
  }

  /** The proxy after serving one request, and whether the worker ended in an
      unhandled exception (reading a players or rules cache that was never
      written). Such an exception escapes a thread-pool work item, which under
      the default .NET and Mono policy terminates the whole process. */
  datatype Served = Served(proxy: Proxy, backend: Backend, client: Channel, fault: bool)

  function CountInfo(s: Proxy): Proxy
  {
    s.(counters := s.counters.(infoQueries := s.counters.infoQueries + 1))
  }

  function CountOther(s: Proxy): Proxy
  {
    s.(counters := s.counters.(otherQueries := s.counters.otherQueries + 1))
  }

  function AnswerInfo(s: Proxy): Proxy
  {
    s.(counters := s.counters.(infoAnswered := s.counters.infoAnswered + 1))
  }

  function AnswerOther(s: Proxy): Proxy
  {
    s.(counters := s.counters.(otherAnswered := s.counters.otherAnswered + 1))
  }

  /** No category has more answers than requests. */
  predicate CountersOrdered(n: Counters)
  {
    n.infoAnswered <= n.infoQueries && n.otherAnswered <= n.otherQueries
  }

  /** Answer an info request from the cache, refreshing it first when it is
      at least five seconds old. */
  function ServeInfo(now: int, s: Proxy, b: Backend, c: Channel): (r: Served)
    ensures r.proxy.counters == s.counters || r.proxy.counters == AnswerInfo(s).counters
    ensures c.sent <= r.client.sent && !r.fault
    ensures |r.backend.inbox| <= |b.inbox|
  {
    var g := Refresh(Info, now, s, b);
    if !g.value then Served(g.proxy, g.backend, c, false)
    else match g.proxy.info
      // sending the absent cache throws, and the handler's catch returns
      case None => Served(g.proxy, g.backend, c, false)
      case Some(p) =>
        var (ok, c1) := Send(c, p);
        Served(if ok then AnswerInfo(g.proxy) else g.proxy, g.backend, c1, false)
  }

  /** Answer a players or rules request: without the current code, reply with
      a challenge; otherwise refresh when stale and replay the cached
      entries. */
  function ServeCached(k: Kind, req: Datagram, now: int, s: Proxy, b: Backend, c: Channel): (r: Served)
    requires k != Info
    ensures r.proxy.counters == s.counters || r.proxy.counters == AnswerOther(s).counters
    ensures c.sent <= r.client.sent
    ensures |r.backend.inbox| <= |b.inbox|
  {
    var v := ChallengeIsValid(req, s, b);
    if !v.value then
      var reply := BuildRequest(ChallengeReply, v.proxy, v.backend);
      Served(reply.proxy, reply.backend, Send(c, reply.value).1, false)
    else
      var g := Refresh(k, now, v.proxy, v.backend);
      if !g.value then Served(g.proxy, g.backend, c, false)
      else match SlotOf(g.proxy, k)
        case None => Served(g.proxy, g.backend, c, true)
        case Some(entries) =>
          var rp := Replay(entries, c);
          Served(if rp.ok then AnswerOther(g.proxy) else g.proxy, g.backend, rp.client, false)
  }

  /** Answer a challenge request with the proxy's code, fetching one first
      if none is known. */
  function ServeChallenge(s: Proxy, b: Backend, c: Channel): (r: Served)
    ensures r.proxy.counters == s.counters || r.proxy.counters == AnswerOther(s).counters
    ensures c.sent <= r.client.sent && !r.fault
    ensures |r.backend.inbox| <= |b.inbox|
  {
    var reply := BuildRequest(ChallengeReply, s, b);
    var (ok, c1) := Send(c, reply.value);
    Served(if ok then AnswerOther(reply.proxy) else reply.proxy, reply.backend, c1, false)
  }

  /** Serve one client request `req` received at time `now`, replying on `c`. */
  function HandleQuery(req: Datagram, now: int, s: Proxy, b: Backend, c: Channel): (r: Served)
    ensures At(req, 4) == InfoRequest ==>
      && r.proxy.counters.infoQueries == s.counters.infoQueries + 1
      && r.proxy.counters.otherQueries == s.counters.otherQueries
      && r.proxy.counters.otherAnswered == s.counters.otherAnswered
      && r.proxy.counters.infoAnswered - s.counters.infoAnswered in {0, 1}
    ensures At(req, 4) in {PlayersRequest, RulesRequest, ChallengeRequest} ==>
      && r.proxy.counters.otherQueries == s.counters.otherQueries + 1
      && r.proxy.counters.infoQueries == s.counters.infoQueries
      && r.proxy.counters.infoAnswered == s.counters.infoAnswered
      && r.proxy.counters.otherAnswered - s.counters.otherAnswered in {0, 1}
    ensures At(req, 4) !in {InfoRequest, PlayersRequest, RulesRequest, ChallengeRequest} ==>
      r == Served(s, b, c, false)
    ensures CountersOrdered(s.counters) ==> CountersOrdered(r.proxy.counters)
    ensures c.sent <= r.client.sent
    ensures |r.backend.inbox| <= |b.inbox|
  {
    var t := At(req, 4);
    if t == InfoRequest then ServeInfo(now, CountInfo(s), b, c)
    else if t == PlayersRequest then ServeCached(Players, req, now, CountOther(s), b, c)
    else if t == RulesRequest then ServeCached(Rules, req, now, CountOther(s), b, c)
    else if t == ChallengeRequest then ServeChallenge(CountOther(s), b, c)
    else Served(s, b, c, false)
  }
}
