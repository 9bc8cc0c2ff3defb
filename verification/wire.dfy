/** The A2S (Source-engine server query) wire format as the proxy uses it:
    type bytes, the 4-byte challenge code, and the packets it builds. */
module Wire {
  import opened Bytes

  /** Every single-packet A2S message starts with these four bytes. */
  const Header: seq<byte> := [0xFF, 0xFF, 0xFF, 0xFF]

  const InfoRequest: byte := 0x54
  const PlayersRequest: byte := 0x55
  const RulesRequest: byte := 0x56
  const ChallengeRequest: byte := 0x57
  const ChallengeReply: byte := 0x41
  const InfoReply: byte := 0x49
  const PlayersReply: byte := 0x44
  const RulesReply: byte := 0x45

  /** First byte of every datagram of a multi-packet reply. */
  const MultiPacket: byte := 0xFE
  /** Buffer offsets of the packet count and of the reply type in the first
      datagram of a multi-packet reply. */
  const CountOffset: nat := 8
  const TagOffset: nat := 16

  type Code = c: seq<byte> | |c| == 4 witness [0xFF, 0xFF, 0xFF, 0xFF]

  /** The challenge value meaning "unknown, fetch one from the server". */
  const Sentinel: Code := [0xFF, 0xFF, 0xFF, 0xFF]

  /** The 9-byte layout shared by challenge-bearing requests and challenge
      replies: header, type byte, challenge code. */
  function Packet(t: byte, code: Code): seq<byte>
  {
    Header + [t] + code
  }

  /** The text of an A2S_INFO request, as ASCII bytes. */
  const InfoQueryText: seq<byte> :=
    [0x53, 0x6F, 0x75, 0x72, 0x63, 0x65, 0x20, 0x45, 0x6E, 0x67, 0x69, 0x6E, 0x65,
     0x20, 0x51, 0x75, 0x65, 0x72, 0x79]

  /** The info request the proxy sends to the server: header, 0x54, the text,
      and a terminating zero byte. */
  const InfoQuery: seq<byte> := Header + [InfoRequest] + InfoQueryText + [0x00]

  /** The request the proxy sends to obtain a challenge code. */
  const ChallengeFetch: seq<byte> := Packet(PlayersRequest, Sentinel)

  /** A server reply that hands out a new challenge code. */
  predicate IsRenewal(d: seq<byte>)
  {
    Field(d, 0, 4) == Header && At(d, 4) == ChallengeReply
  }

  /** The challenge code a request or reply carries right after its type byte. */
  function CodeOf(d: seq<byte>): Code
  {
    Field(d, 5, 4)
  }

  /** The info request is 25 bytes and spells "Source Engine Query". */
  lemma InfoQueryLayout()
    ensures |InfoQuery| == 25
    ensures InfoQuery[..4] == Header && InfoQuery[4] == InfoRequest && InfoQuery[24] == 0
    ensures forall i :: 0 <= i < 19 ==> InfoQuery[5 + i] as int == "Source Engine Query"[i] as int
  {
  }

  /** A packet built from a type byte and a code is read back as that type
      byte and that code, through the same buffer offsets the proxy uses. */
  lemma PacketRoundTrip(t: byte, code: Code)
    ensures |Packet(t, code)| == 9
    ensures Field(Packet(t, code), 0, 4) == Header
    ensures At(Packet(t, code), 4) == t
    ensures CodeOf(Packet(t, code)) == code
  {
    var p := Packet(t, code);
    assert Field(p, 0, 4) == p[0..4] == Header;
    assert CodeOf(p) == p[5..9] == code;
  }

  /** A challenge reply the proxy builds is itself recognised as a renewal. */
  lemma ReplyIsRenewal(code: Code)
    ensures IsRenewal(Packet(ChallengeReply, code))
  {
    PacketRoundTrip(ChallengeReply, code);
  }
}
