/** Properties of the caching engine that relate several operations or
    several calls: challenge round trips, failure paths, the renewal retry,
    reassembly order, the request handler's replies, and whole scenarios. */
module QueryCacheProps {
  import opened Wrappers
  import opened Bytes
  import opened Net
  import opened Wire
  import opened QueryCache

  /** The reply type byte the server uses for a multi-packet answer of kind `k`. */
  function ReplyTag(k: Kind): byte
  {
    match k
    case Info => InfoReply
    case Players => PlayersReply
    case Rules => RulesReply
  }

  /** Once a code is known, validation consults no backend, and a request is
      valid exactly when it echoes that code; in particular a request built
      with the proxy's own code passes. */
  lemma ValidIffEchoesCode(req: Datagram, t: byte, s: Proxy, b: Backend)
    requires s.challenge != Sentinel
    ensures ChallengeIsValid(req, s, b) == Exchange(CodeOf(req) == s.challenge, s, b)
    ensures |Packet(t, s.challenge)| <= MaxPacket && ChallengeIsValid(Packet(t, s.challenge), s, b).value
  {
    PacketRoundTrip(t, s.challenge);
    var v := ChallengeIsValid(req, s, b);
    assert v.value <==> CodeOf(req) == s.challenge by {
      if v.value {
        assert forall i :: 0 <= i < 4 ==> CodeOf(req)[i] == s.challenge[i];
      }
    }
  }

  /** With the info query or a known code, the query goes out as the first
      send, with no challenge fetch before it and nothing else changed. */
  lemma SendQueryKnown(q: byte, s: Proxy, b: Backend)
    requires q == InfoRequest || s.challenge != Sentinel
    ensures var first := if q == InfoRequest then InfoQuery else Packet(q, s.challenge);
      SendQuery(q, s, b) == Exchange(SendSucceeds(b.link), s, b.(link := Send(b.link, first).1))
  {
  }

  /** A refresh whose query send fails, or whose first receive after the
      query times out, ends with false. Caches, timestamps and counters are
      as they were; only a challenge fetched before the query can have
      changed. With the info query or a known code the whole state is kept,
      and a failed send consumes no reply. */
  lemma BackendFailureKeepsCaches(q: byte, s: Proxy, b: Backend)
    requires var sq := SendQuery(q, s, b);
      !sq.value || ReplyAt(sq.backend.inbox, 0) == Timeout
    ensures var r := UpdateCache(q, s, b);
      && !r.value
      && r.proxy == SendQuery(q, s, b).proxy
      && r.proxy == s.(challenge := r.proxy.challenge)
    ensures q == InfoRequest || s.challenge != Sentinel ==> UpdateCache(q, s, b).proxy == s
    ensures (q == InfoRequest || s.challenge != Sentinel) && !SendSucceeds(b.link) ==>
      UpdateCache(q, s, b).backend.inbox == b.inbox
  {
    if q == InfoRequest || s.challenge != Sentinel {
      SendQueryKnown(q, s, b);
    }
  }

  /** A refresh whose query goes out and is answered by a datagram that is not
      a challenge renewal stores exactly that datagram, as Store does, in the
      state after the query. */
  lemma UpdateCacheStores(q: byte, s: Proxy, b: Backend, d: Datagram)
    requires var sq := SendQuery(q, s, b);
      sq.value && ReplyAt(sq.backend.inbox, 0) == Got(d) && !IsRenewal(d)
    ensures var sq := SendQuery(q, s, b);
      UpdateCache(q, s, b) == Store(d, sq.proxy, Receive(sq.backend).1)
    ensures q == InfoRequest || s.challenge != Sentinel ==>
      var first := if q == InfoRequest then InfoQuery else Packet(q, s.challenge);
      UpdateCache(q, s, b) == Store(d, s, Backend(Send(b.link, first).1, b.inbox[1..]))
  {
    if q == InfoRequest || s.challenge != Sentinel {
      SendQueryKnown(q, s, b);
    }
  }

  /** The first packet a refresh sends is the query for its type: the fixed
      info request for 0x54; otherwise a challenge fetch while the code is
      unknown, or the query carrying the known code. For players and rules
      the query, carrying the code held after any fetch, follows the fetch. */
  lemma UpdateCacheSendsQueryFirst(q: byte, s: Proxy, b: Backend)
    ensures var r := UpdateCache(q, s, b);
      r.backend.link.sent[|b.link.sent|] ==
        if q == InfoRequest then InfoQuery
        else if s.challenge == Sentinel then ChallengeFetch
        else Packet(q, s.challenge)
    ensures q != InfoRequest ==>
      var rc := RequestChallenge(s, b);
      var r := UpdateCache(q, s, b);
      |r.backend.link.sent| > |rc.backend.link.sent| &&
      r.backend.link.sent[|rc.backend.link.sent|] == Packet(q, rc.value)
  {
    var sq := SendQuery(q, s, b);
    if sq.value {
      var (got, b1) := Receive(sq.backend);
      if got.Got? && IsRenewal(got.bytes) {
        var r := UpdateCache(q, sq.proxy.(challenge := CodeOf(got.bytes)), b1);
        assert sq.backend.link.sent <= r.backend.link.sent;
      }
    }
  }

  /** A challenge renewal in reply to a query, in every state, installs the
      new code and repeats the same query from the state after the first one:
      the next packet sent is the query again, carrying the new code (or a
      fetch, should the server renew with the sentinel itself). With the info
      query or a known code, the first query is the only packet before it. */
  lemma {:induction false} RenewalRetriesSameQuery(q: byte, s: Proxy, b: Backend, d: Datagram)
    requires var sq := SendQuery(q, s, b);
      sq.value && ReplyAt(sq.backend.inbox, 0) == Got(d) && IsRenewal(d)
    ensures var sq := SendQuery(q, s, b);
      UpdateCache(q, s, b) == UpdateCache(q, sq.proxy.(challenge := CodeOf(d)), Receive(sq.backend).1)
    ensures var sq := SendQuery(q, s, b);
      var r := UpdateCache(q, s, b);
      |r.backend.link.sent| > |sq.backend.link.sent| &&
      r.backend.link.sent[|sq.backend.link.sent|] ==
        if q == InfoRequest then InfoQuery
        else if CodeOf(d) == Sentinel then ChallengeFetch
        else Packet(q, CodeOf(d))
    ensures q == InfoRequest || s.challenge != Sentinel ==>
      var first := if q == InfoRequest then InfoQuery else Packet(q, s.challenge);
      && SendSucceeds(b.link) && ReplyAt(b.inbox, 0) == Got(d)
      && UpdateCache(q, s, b) ==
         UpdateCache(q, s.(challenge := CodeOf(d)), Backend(Send(b.link, first).1, b.inbox[1..]))
      && |SendQuery(q, s, b).backend.link.sent| == |b.link.sent| + 1
  {
    var sq := SendQuery(q, s, b);
    var b1 := Receive(sq.backend).1;
    assert |b1.link.sent| == |sq.backend.link.sent|;
    UpdateCacheSendsQueryFirst(q, sq.proxy.(challenge := CodeOf(d)), b1);
    if q == InfoRequest || s.challenge != Sentinel {
      SendQueryKnown(q, s, b);
    }
  }

  /** First contact whose challenge fetch goes unanswered: the code stays the
      sentinel, so the players or rules query goes out carrying it. A server
      that answers with a challenge reply, built as the proxy builds its own,
      is recognised as a renewal, and the query is sent a second time with
      the new code. */
  lemma FailedFetchThenRenewal(q: byte, s: Proxy, b: Backend, code: Code)
    requires q != InfoRequest && s.challenge == Sentinel && code != Sentinel
    requires |b.link.outcomes| >= 2 && b.link.outcomes[0] && b.link.outcomes[1]
    requires |b.inbox| >= 2 && b.inbox[0] == Timeout && b.inbox[1] == Got(Packet(ChallengeReply, code))
    ensures var r := UpdateCache(q, s, b);
      |r.backend.link.sent| >= |b.link.sent| + 3 &&
      r.backend.link.sent[|b.link.sent|..|b.link.sent| + 3] ==
        [ChallengeFetch, Packet(q, Sentinel), Packet(q, code)]
  {
    var d := Packet(ChallengeReply, code);
    ReplyIsRenewal(code);
    PacketRoundTrip(ChallengeReply, code);
    var rc := RequestChallenge(s, b);
    assert rc.value == Sentinel && rc.proxy == s;
    assert |rc.backend.link.sent| == |b.link.sent| + 1;
    assert rc.backend.inbox == b.inbox[1..];
    assert SendSucceeds(rc.backend.link);
    var sq := SendQuery(q, s, b);
    assert |sq.backend.link.sent| == |b.link.sent| + 2;
    assert ReplyAt(sq.backend.inbox, 0) == Got(d);
    UpdateCacheSendsQueryFirst(q, s, b);
    RenewalRetriesSameQuery(q, s, b, d);
    var r := UpdateCache(q, s, b);
    assert r.backend.link.sent[|b.link.sent|] == ChallengeFetch;
    assert r.backend.link.sent[|b.link.sent| + 1] == Packet(q, Sentinel);
    assert r.backend.link.sent[|b.link.sent| + 2] == Packet(q, code);
  }

  /** A multi-packet answer whose remaining datagrams all arrive fills the
      slot its tag names with exactly the announced number of datagrams, the
      first one and then the following ones in receipt order, consuming
      exactly those from the inbox. */
  lemma ReassemblyInReceiptOrder(k: Kind, d: Datagram, s: Proxy, b: Backend)
    requires k != Info && At(d, 0) == MultiPacket && At(d, TagOffset) == ReplyTag(k)
    requires forall i :: 0 <= i < At(d, CountOffset) as int - 1 ==> ReplyAt(b.inbox, i).Got?
    ensures var r := Store(d, s, b); var n := At(d, CountOffset) as nat;
      && r.value
      && SlotOf(r.proxy, k).Some?
      && |SlotOf(r.proxy, k).value| == n
      && (n > 0 ==> SlotOf(r.proxy, k).value[0] == Some(d) && r.backend.inbox == b.inbox[n - 1..])
      && (forall i :: 1 <= i < n ==>
            SlotOf(r.proxy, k).value[i].Some? && ReplyAt(b.inbox, i - 1) == Got(SlotOf(r.proxy, k).value[i].value))
      && r.proxy.info == s.info
  {
    var n := At(d, CountOffset) as nat;
    var g := Gather(d, n, b);
    var r := Store(d, s, b);
    assert SlotOf(r.proxy, k) == Some(Fill(g.packets, n));
    forall i | 1 <= i < n
      ensures SlotOf(r.proxy, k).value[i].Some? && ReplyAt(b.inbox, i - 1) == Got(SlotOf(r.proxy, k).value[i].value)
    {
      assert ReplyAt(b.inbox, i - 1) == Got(g.packets[i]);
    }
  }

  /** A multi-packet answer whose follow-up receive fails leaves an array of
      the announced size with unfilled elements, and what it holds does not
      depend on what the slot held before: the previous answer is lost. */
  lemma AbortedReassemblyReplacesSlot(k: Kind, d: Datagram, s: Proxy, s2: Proxy, b: Backend, j: nat)
    requires k != Info && At(d, 0) == MultiPacket && At(d, TagOffset) == ReplyTag(k)
    requires j < At(d, CountOffset) as int - 1 && ReplyAt(b.inbox, j) == Timeout
    ensures var r := Store(d, s, b);
      && !r.value
      && SlotOf(r.proxy, k).Some?
      && |SlotOf(r.proxy, k).value| == At(d, CountOffset) as nat
      && None in SlotOf(r.proxy, k).value
      && SlotOf(r.proxy, k) == SlotOf(Store(d, s2, b).proxy, k)
  {
    var n := At(d, CountOffset) as nat;
    var g := Gather(d, n, b);
    assert !g.ok;
    assert Fill(g.packets, n)[|g.packets|] == None;
  }

  /** An info request within the time-to-live is answered from the cache
      with no backend traffic, and the same bytes go out every time. */
  lemma InfoServedFromCacheWithinTtl(req: Datagram, now: int, s: Proxy, b: Backend, c: Channel, p: Datagram)
    requires At(req, 4) == InfoRequest && now < s.lastInfo + Ttl(Info) && s.info == Some(p)
    ensures var r := HandleQuery(req, now, s, b, c);
      && r.backend == b
      && r.client.sent == c.sent + [p]
      && r.proxy.info == s.info && r.proxy.lastInfo == s.lastInfo
      && r.proxy.counters.infoAnswered == s.counters.infoAnswered + (if SendSucceeds(c) then 1 else 0)
  {
  }

  /** A refresh that fails drops the request: nothing is sent to the client,
      and the refresh time stays as it was so the next request retries. */
  lemma FailedRefreshSendsNothing(req: Datagram, now: int, s: Proxy, b: Backend, c: Channel)
    requires At(req, 4) == InfoRequest
    requires !Refresh(Info, now, CountInfo(s), b).value
    ensures var r := HandleQuery(req, now, s, b, c);
      && r.client == c
      && r.proxy.lastInfo == s.lastInfo
      && r.proxy.counters.infoAnswered == s.counters.infoAnswered
      && !r.fault
  {
  }

  /** A players or rules request that fails validation gets exactly one
      challenge reply, carrying the code the proxy holds afterwards, and no
      cache, refresh time or fault. The code is fetched from the server first
      when only the sentinel is known. When a code was already known, the
      backend is untouched and the reply's code differs from the request's. */
  lemma InvalidChallengeGetsCode(req: Datagram, now: int, s: Proxy, b: Backend, c: Channel)
    requires At(req, 4) == PlayersRequest || At(req, 4) == RulesRequest
    requires !ChallengeIsValid(req, CountOther(s), b).value
    ensures var r := HandleQuery(req, now, s, b, c);
      && r.client.sent == c.sent + [Packet(ChallengeReply, r.proxy.challenge)]
      && r.proxy == CountOther(s).(challenge := r.proxy.challenge)
      && !r.fault
    ensures s.challenge != Sentinel ==>
      var r := HandleQuery(req, now, s, b, c);
      && r.backend == b
      && r.proxy == CountOther(s)
      && CodeOf(r.client.sent[|c.sent|]) != CodeOf(req)
  {
    var k := if At(req, 4) == PlayersRequest then Players else Rules;
    var s1 := CountOther(s);
    assert HandleQuery(req, now, s, b, c) == ServeCached(k, req, now, s1, b, c);
    var r := HandleQuery(req, now, s, b, c);
    PacketRoundTrip(ChallengeReply, r.proxy.challenge);
    if s.challenge != Sentinel {
      ValidIffEchoesCode(req, ChallengeReply, s1, b);
    }
  }

  /** An info request, for every state: when the time-to-live gate's refresh
      fails nothing is sent; otherwise the info cache as it stands after the
      gate is sent, and counted exactly when the send succeeds. */
  lemma InfoRequestOutcome(req: Datagram, now: int, s: Proxy, b: Backend, c: Channel)
    requires At(req, 4) == InfoRequest
    ensures var g := Refresh(Info, now, CountInfo(s), b);
      var r := HandleQuery(req, now, s, b, c);
      && r.backend == g.backend && !r.fault
      && (!g.value ==> r.client == c && r.proxy == g.proxy)
      && (g.value && g.proxy.info.Some? ==>
            && r.client.sent == c.sent + [g.proxy.info.value]
            && r.proxy == if SendSucceeds(c) then AnswerInfo(g.proxy) else g.proxy)
      && (g.value && g.proxy.info.None? ==> r.client == c && r.proxy == g.proxy)
  {
    assert HandleQuery(req, now, s, b, c) == ServeInfo(now, CountInfo(s), b, c);
  }

  /** A players or rules request that passes validation, for every state:
      when the gate's refresh fails nothing is sent and the refresh time is
      kept; otherwise the slot as it stands after the gate is replayed,
      counted exactly when every entry is filled and every send succeeds,
      and a never-written slot ends the worker with nothing sent. */
  lemma CachedRequestOutcome(k: Kind, req: Datagram, now: int, s: Proxy, b: Backend, c: Channel)
    requires k != Info && At(req, 4) == QueryType(k)
    requires ChallengeIsValid(req, CountOther(s), b).value
    ensures var v := ChallengeIsValid(req, CountOther(s), b);
      var g := Refresh(k, now, v.proxy, v.backend);
      var r := HandleQuery(req, now, s, b, c);
      && r.backend == g.backend
      && (!g.value ==> r.client == c && !r.fault && r.proxy == g.proxy && LastRefresh(r.proxy, k) == LastRefresh(s, k))
      && (g.value && SlotOf(g.proxy, k).Some? ==>
            && !r.fault
            && r.client == Replay(SlotOf(g.proxy, k).value, c).client
            && r.proxy == if Deliverable(SlotOf(g.proxy, k).value, c) then AnswerOther(g.proxy) else g.proxy)
      && (g.value && SlotOf(g.proxy, k).None? ==> r.fault && r.client == c)
  {
    assert HandleQuery(req, now, s, b, c) == ServeCached(k, req, now, CountOther(s), b, c);
  }

  /** A challenge request is always answered with a challenge reply carrying
      the code the proxy holds afterwards; no cache or refresh time changes,
      and it counts as answered exactly when the send succeeds. */
  lemma ChallengeRequestAnswered(req: Datagram, now: int, s: Proxy, b: Backend, c: Channel)
    requires At(req, 4) == ChallengeRequest
    ensures var r := HandleQuery(req, now, s, b, c);
      && r.client.sent == c.sent + [Packet(ChallengeReply, r.proxy.challenge)]
      && r.proxy.info == s.info && r.proxy.players == s.players && r.proxy.rules == s.rules
      && r.proxy.lastInfo == s.lastInfo && r.proxy.lastPlayers == s.lastPlayers && r.proxy.lastRules == s.lastRules
      && r.proxy.counters.otherAnswered == s.counters.otherAnswered + (if SendSucceeds(c) then 1 else 0)
      && (s.challenge != Sentinel ==> r.proxy.challenge == s.challenge && r.backend == b)
  {
  }

  /** A valid players or rules request within the time-to-live replays the
      cached entries in stored order without backend traffic; it counts as
      answered exactly when every entry is filled and every send succeeds. */
  lemma ValidRequestReplaysCache(k: Kind, req: Datagram, now: int, s: Proxy, b: Backend, c: Channel, entries: Slot)
    requires k != Info && At(req, 4) == QueryType(k)
    requires s.challenge != Sentinel && CodeOf(req) == s.challenge
    requires now < LastRefresh(s, k) + Ttl(k) && SlotOf(s, k) == Some(entries)
    ensures var r := HandleQuery(req, now, s, b, c);
      && r.backend == b
      && !r.fault
      && r.client == Replay(entries, c).client
      && (forall i :: |c.sent| <= i < |r.client.sent| ==> entries[i - |c.sent|] == Some(r.client.sent[i]))
      && (Deliverable(entries, c) ==> |r.client.sent| == |c.sent| + |entries|)
      && (r.proxy.counters.otherAnswered == s.counters.otherAnswered + 1 <==> Deliverable(entries, c))
  {
    var s1 := CountOther(s);
    CachedDispatch(k, req, now, s, b, c);
    ServeCachedFromCache(k, req, now, s1, b, c, entries);
    ReplayServed(s1, b, c, entries);
  }

  /** What the cached handler's reply from a replayed slot says about the
      client and the answered counter. */
  lemma ReplayServed(s: Proxy, b: Backend, c: Channel, entries: Slot)
    ensures var rp := Replay(entries, c);
      var r := Served(if rp.ok then AnswerOther(s) else s, b, rp.client, false);
      && (forall i :: |c.sent| <= i < |r.client.sent| ==> entries[i - |c.sent|] == Some(r.client.sent[i]))
      && (Deliverable(entries, c) ==> |r.client.sent| == |c.sent| + |entries|)
      && (r.proxy.counters.otherAnswered == s.counters.otherAnswered + 1 <==> Deliverable(entries, c))
  {
  }

  /** A players or rules request is counted and handed to the cached handler. */
  lemma CachedDispatch(k: Kind, req: Datagram, now: int, s: Proxy, b: Backend, c: Channel)
    requires k != Info && At(req, 4) == QueryType(k)
    ensures HandleQuery(req, now, s, b, c) == ServeCached(k, req, now, CountOther(s), b, c)
  {
  }

  /** The players or rules handler, given a valid request within the
      time-to-live, replays the cache and touches nothing else. */
  lemma ServeCachedFromCache(k: Kind, req: Datagram, now: int, s: Proxy, b: Backend, c: Channel, entries: Slot)
    requires k != Info && s.challenge != Sentinel && CodeOf(req) == s.challenge
    requires now < LastRefresh(s, k) + Ttl(k) && SlotOf(s, k) == Some(entries)
    ensures var rp := Replay(entries, c);
      ServeCached(k, req, now, s, b, c) == Served(if rp.ok then AnswerOther(s) else s, b, rp.client, false)
  {
    ValidIffEchoesCode(req, QueryType(k), s, b);
    assert ChallengeIsValid(req, s, b) == Exchange(true, s, b);
    assert Refresh(k, now, s, b) == Exchange(true, s, b);
  }

  /** The whole info path from a fresh start: the first request refreshes
      from the server and forwards the server's bytes; a second request
      within five seconds gets the same bytes with no further backend
      traffic. */
  lemma InfoEndToEnd(t0: int, now2: int, req: Datagram, d: Datagram)
    requires At(req, 4) == InfoRequest
    requires t0 <= now2 < t0 + 5
    requires |d| >= 5 && d[..5] == Header + [InfoReply]
    ensures var b := Backend(Channel([true], []), [Got(d)]);
      var c := Channel([true, true], []);
      var r1 := HandleQuery(req, t0, Init(t0), b, c);
      var r2 := HandleQuery(req, now2, r1.proxy, r1.backend, r1.client);
      && r1.client.sent == [d]
      && r2.client.sent == [d, d]
      && r2.backend.link.sent == [InfoQuery]
      && r2.backend == r1.backend
      && r2.proxy.counters == Counters(2, 0, 2, 0)
  {
    var b := Backend(Channel([true], []), [Got(d)]);
    var c := Channel([true, true], []);
    var s1 := CountInfo(Init(t0));
    assert At(d, 0) == 0xFF && At(d, 4) == InfoReply;
    assert !IsRenewal(d);
    var u := UpdateCache(InfoRequest, s1, b);
    assert u.value && u.proxy == s1.(info := Some(d));
    var r1 := HandleQuery(req, t0, Init(t0), b, c);
    assert r1.proxy.info == Some(d) && r1.proxy.lastInfo == t0;
  }

  /** A three-datagram player list: the cache ends up holding exactly the
      three datagrams in receipt order, and the requester receives exactly
      those three, in that order. */
  lemma ThreePacketPlayerList(req: Datagram, now: int, s: Proxy, p1: Datagram, p2: Datagram, p3: Datagram)
    requires At(req, 4) == PlayersRequest
    requires s.challenge != Sentinel && CodeOf(req) == s.challenge
    requires s.lastPlayers + Ttl(Players) <= now
    requires At(p1, 0) == MultiPacket && At(p1, CountOffset) == 3 && At(p1, TagOffset) == PlayersReply
    ensures var b := Backend(Channel([true], []), [Got(p1), Got(p2), Got(p3)]);
      var c := Channel([true, true, true], []);
      var r := HandleQuery(req, now, s, b, c);
      && r.proxy.players == Some([Some(p1), Some(p2), Some(p3)])
      && r.client.sent == [p1, p2, p3]
      && r.backend.link.sent == [Packet(PlayersRequest, s.challenge)]
      && r.backend.inbox == []
      && r.proxy.lastPlayers == now
      && r.proxy.counters.otherAnswered == s.counters.otherAnswered + 1
  {
    var b := Backend(Channel([true], []), [Got(p1), Got(p2), Got(p3)]);
    var c := Channel([true, true, true], []);
    var s1 := CountOther(s);
    ValidIffEchoesCode(req, PlayersRequest, s1, b);
    assert !IsRenewal(p1) by {
      assert Field(p1, 0, 4)[0] == At(p1, 0);
    }
    var b1 := Backend(Channel([], [Packet(PlayersRequest, s.challenge)]), [Got(p2), Got(p3)]);
    assert SendQuery(PlayersRequest, s1, b).backend == Backend(b1.link, b.inbox);
    ReassemblyInReceiptOrder(Players, p1, s1, b1);
    var st := Store(p1, s1, b1);
    assert SlotOf(st.proxy, Players) == st.proxy.players;
    var slot := st.proxy.players.value;
    assert |slot| == 3;
    assert ReplyAt(b1.inbox, 0) == Got(p2) && ReplyAt(b1.inbox, 1) == Got(p3);
    assert slot[0] == Some(p1) && slot[1] == Some(p2) && slot[2] == Some(p3);
    assert slot == [Some(p1), Some(p2), Some(p3)];
    assert st.proxy.players == Some([Some(p1), Some(p2), Some(p3)]);
    var u := UpdateCache(PlayersRequest, s1, b);
    assert u == st;
    var entries := [Some(p1), Some(p2), Some(p3)];
    assert Deliverable(entries, c);
    assert HandleQuery(req, now, s, b, c) == ServeCached(Players, req, now, s1, b, c);
  }

  /** On a fresh proxy, a players refresh that the server answers with an
      info packet still counts as a success: the players refresh time moves
      to `now` while the players cache was never written, and the worker
      ends in the unhandled exception of reading it. */
  lemma UnrelatedReplyLeavesPlayersUnread(t0: int, req: Datagram, code: Code, info: Datagram)
    requires code != Sentinel
    requires At(req, 4) == PlayersRequest && CodeOf(req) == code
    requires |info| >= 5 && info[..5] == Header + [InfoReply]
    ensures var reply := Packet(ChallengeReply, code);
      |reply| <= MaxPacket &&
      var b := Backend(Channel([true, true], []), [Got(reply), Got(info)]);
      var r := HandleQuery(req, t0, Init(t0), b, Channel([true], []));
      && r.fault
      && r.proxy.lastPlayers == t0
      && r.proxy.players == None
      && r.proxy.info == Some(info)
      && r.client.sent == []
  {
    var reply := Packet(ChallengeReply, code);
    PacketRoundTrip(ChallengeReply, code);
    var b := Backend(Channel([true, true], []), [Got(reply), Got(info)]);
    var s1 := CountOther(Init(t0));
    var rc := RequestChallenge(s1, b);
    assert rc.value == code;
    var v := ChallengeIsValid(req, s1, b);
    assert v.value;
    assert At(info, 0) == 0xFF && At(info, 4) == InfoReply;
    assert !IsRenewal(info);
    var u := UpdateCache(PlayersRequest, v.proxy, v.backend);
    assert u.value && u.proxy.players == None && u.proxy.info == Some(info);
    assert HandleQuery(req, t0, Init(t0), b, Channel([true], [])) == ServeCached(Players, req, t0, s1, b, Channel([true], []));
  }
}
