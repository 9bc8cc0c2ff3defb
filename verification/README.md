# QueryCache in Dafny

QueryCache is a UDP proxy that sits in front of a Source-engine game server
and answers A2S queries (info `0x54`, players `0x55`, rules `0x56`,
challenge `0x57`) from a cache. A request that arrives once the cache's
time-to-live has passed (5 seconds for info, 3 for players, 10 for rules)
refreshes it from the server. Only a successful refresh restarts the
time-to-live, so after a failed one the next request tries again. Requests
for players and rules must carry the proxy's current 4-byte challenge code.
A request that does not carry it is answered with a challenge reply (`0x41`)
that holds the code. The proxy fetches the code from the server the first
time it needs one. Multi-packet answers (first byte `0xFE`, count at byte 8,
type at byte 16) are put back together in the order they arrive, and are
replayed to clients in that order.

This project models two parts of it:

* The caching engine of `QueryCache/Program.cs`, as a sequential state
  machine (modules `Wrappers`, `Bytes`, `Net`, `Wire`, `QueryCache` and
  `QueryCacheProps`). The operations are challenge handling, the backend
  refresh with its renewal retry, reassembly, the time-to-live gates and the
  request handler.
  * The two sockets are scripted values. A `Channel` carries a list of send
    outcomes and logs the datagrams sent. A `Backend` adds an inbox of
    replies, in which `Timeout` stands for a failed receive.
  * The clock is an integer number of seconds passed in by the caller.
  * An exhausted script means a failed send or a timed-out receive. The
    datagrams on the inbox are the only thing that bounds the renewal
    recursion.
* The index search of `QueryCache/czGeoIP.cs` over a qqwry-style IP
  database, held as a byte string (module `GeoIP`). It covers the header
  decode, the 7-byte index records and the bisection loop, with C#'s 32-bit
  wrap-around and truncating division spelled out. It also holds a
  corrected search, because the one as written misses exact range starts
  and the last range (see Findings).

Two behaviours of the code worth noting:
* A refresh whose reply is any recognised single packet counts as a success
  for the kind that asked. An info packet answering a players query
  therefore updates the players refresh time, and leaves the players cache
  unwritten.
* A receive that fails part-way through a multi-packet answer still leaves
  the cache replaced by a partly filled array.

## Model

| member | source | states |
|---|---|---|
| Bytes.Wrap32 | QueryCache/czGeoIP.cs:79-82 | the result is a 32-bit value congruent to the input modulo 2^32, and equal to it when it already fits |
| Bytes.Quot | QueryCache/czGeoIP.cs:82 | C#'s `int` division by a positive divisor: the remainder has the dividend's sign and is smaller than the divisor, so the quotient is truncated toward zero (also the midpoint at czGeoIP.cs:95) |
| Bytes.LittleEndianRoundTrip | QueryCache/czGeoIP.cs:66-68 | decoding the n little-endian bytes of a value below 256^n gives the value back |
| Bytes.ShiftedIsLittleEndian | QueryCache/czGeoIP.cs:66-68 | the shift-and-add composition of 3 or 4 bytes used by Index equals their little-endian value |
| Wire.InfoQueryLayout | QueryCache/Program.cs:119-128 | the info query is the 4-byte header, type 0x54, the text "Source Engine Query", then a terminating zero (25 bytes) |
| Wire.PacketRoundTrip | QueryCache/Program.cs:86-97 | a built 9-byte request has the 0xFF header, the type at byte 4, and gives back its code from bytes 5..8 |
| Wire.ReplyIsRenewal | QueryCache/Program.cs:165-166 | a challenge reply built like the proxy's own (0x41 and a code) is recognised as a renewal when it arrives from the server |
| QueryCache.Init | QueryCache/Program.cs:377-381 | the start state holds the FF FF FF FF sentinel code, no cache and zero counters, and every kind's time-to-live has already run out at the start time, so the first request of each kind refreshes (timestamps backdated 30 seconds, Program.cs:616-618) |
| QueryCache.RequestChallenge | QueryCache/Program.cs:40-84 | a known code is returned with no backend traffic. Under the FF FF FF FF sentinel, exactly one fetch is sent, and the code is adopted only when the send succeeds and the reply's byte 4 is 0x41. Otherwise the sentinel stays |
| QueryCache.BuildRequest | QueryCache/Program.cs:86-97 | the request is 9 bytes: header, type t, then the code the proxy holds afterwards. Its effects are those of RequestChallenge |
| QueryCache.ChallengeIsValid | QueryCache/Program.cs:99-111 | true exactly when all four bytes 5..8 of the request equal the code the proxy holds afterwards |
| QueryCache.Gather | QueryCache/Program.cs:179-250 | reassembly succeeds iff the n-1 follow-up receives all deliver. The packets are the first one and then the received ones in receipt order. On failure the stop is at the first timeout. Exactly n-1 replies are consumed on success |
| QueryCache.Store | QueryCache/Program.cs:172-342 | multi-packet answers go to the slot named by byte 16, as an array of the announced length, and other tags are not handled. Single packets go to the cache named by byte 4 (0x49, 0x44, 0x45), and anything else is unhandled with nothing changed. Only the three caches can change |
| QueryCache.SendQuery | QueryCache/Program.cs:115-151 | for 0x54 the fixed info query is sent with the state unchanged. For other types the challenge is obtained first, then the 9-byte query carrying the code held afterwards is sent, and the result is that send's outcome. Caches are never touched |
| QueryCache.UpdateCache | QueryCache/Program.cs:113-170 | counters and timestamps are untouched and at least one query is sent. On failure the info cache is kept, and each multi-packet cache is kept or replaced by a partly filled array |
| QueryCache.Refresh | QueryCache/Program.cs:406-416 | within the time-to-live nothing happens. Otherwise the backend is queried, and the refresh time of that kind alone becomes `now` exactly on success. A failure leaves the info cache and counters as they were |
| QueryCache.Replay | QueryCache/Program.cs:475-499 | cached entries go out in stored order, each client datagram being the entry at its position. It succeeds iff every entry is filled and every send succeeds, and then all of them are sent |
| QueryCache.ServeInfo | QueryCache/Program.cs:402-441 | the info answered counter rises by at most one, the client log only grows, and nothing faults (the full outcome is QueryCacheProps.InfoRequestOutcome) |
| QueryCache.ServeCached | QueryCache/Program.cs:442-558 | the other answered counter rises by at most one, and the client log only grows (the full outcome is QueryCacheProps.InvalidChallengeGetsCode and QueryCacheProps.CachedRequestOutcome) |
| QueryCache.ServeChallenge | QueryCache/Program.cs:560-575 | the other answered counter rises by at most one, and nothing faults |
| QueryCache.HandleQuery | QueryCache/Program.cs:394-579 | info requests bump the info counters and players, rules and challenge requests the other counters: queries by one and answers by zero or one. Unknown types change nothing. Answers never overtake queries |
| QueryCacheProps.ValidIffEchoesCode | QueryCache/Program.cs:99-111 | once a code is known, validation touches no backend and is true exactly when the request echoes that code. A request built with the proxy's code passes |
| QueryCacheProps.SendQueryKnown | QueryCache/Program.cs:115-151 | with a known code, or for an info query, sending the query makes no challenge fetch: exactly the query is logged and the proxy state is unchanged |
| QueryCacheProps.BackendFailureKeepsCaches | QueryCache/Program.cs:113-163 | a failed send or first receive makes the refresh fail with every cache, counter and time unchanged; only a code fetched first under the sentinel may change. With a known code the proxy state is unchanged, and a failed send leaves the inbox unread |
| QueryCacheProps.UpdateCacheStores | QueryCache/Program.cs:130-170 | a reply that is not a 0x41 renewal is handed to Store with the first reply consumed. With a known code that is Store on the unchanged proxy and the backend after exactly the one query |
| QueryCacheProps.UpdateCacheSendsQueryFirst | QueryCache/Program.cs:115-151 | the first datagram a refresh sends is the info query for 0x54. For other types it is the challenge fetch while the code is unknown, and otherwise the query with the known code; in every state the query carrying the code held after any fetch follows the fetch |
| QueryCacheProps.RenewalRetriesSameQuery | QueryCache/Program.cs:130-170 | in every state, a 0x41 reply to the query installs its code and the refresh restarts from the state after the query. The next datagram sent is the same query carrying the new code (a fetch if the new code is the sentinel). With a known code that is the second datagram |
| QueryCacheProps.FailedFetchThenRenewal | QueryCache/Program.cs:40-170 | from the sentinel state, an unanswered fetch, then a renewal in reply to the query, sends exactly the fetch, the query with the sentinel, and the query with the new code |
| QueryCacheProps.ReassemblyInReceiptOrder | QueryCache/Program.cs:179-250 | a complete multi-packet answer fills its slot with exactly the announced number of datagrams in receipt order, consuming exactly those replies |
| QueryCacheProps.AbortedReassemblyReplacesSlot | QueryCache/Program.cs:190-245 | a follow-up receive that fails leaves an array of the announced size with an unfilled element, independent of the previous contents |
| QueryCacheProps.InfoServedFromCacheWithinTtl | QueryCache/Program.cs:402-441 | within 5 seconds the cached info datagram is sent with no backend traffic, and counted iff the send succeeds |
| QueryCacheProps.FailedRefreshSendsNothing | QueryCache/Program.cs:406-416 | a failed info refresh sends nothing to the client and leaves the refresh time, and so the next retry, unchanged |
| QueryCacheProps.InvalidChallengeGetsCode | QueryCache/Program.cs:442-461 | every players or rules request that fails validation gets exactly one 0x41 reply carrying the code the proxy then holds, with no cache, time or fault change. With a code already known the backend is untouched and the reply's code differs from the request's |
| QueryCacheProps.InfoRequestOutcome | QueryCache/Program.cs:402-441 | for every state, a failed gate refresh sends nothing. Otherwise the info datagram after the gate is sent, counted iff the send succeeds, and nothing is sent when it was never written |
| QueryCacheProps.CachedRequestOutcome | QueryCache/Program.cs:442-558 | for every state and a valid code, a failed gate refresh sends nothing and keeps the refresh time. Otherwise the slot after the gate is replayed, counted iff every entry is filled and every send succeeds, and a never-written slot faults with nothing sent |
| QueryCacheProps.ChallengeRequestAnswered | QueryCache/Program.cs:560-575 | a challenge request gets one 0x41 reply with the proxy's code and changes no cache or time, and it is counted iff the send succeeds |
| QueryCacheProps.ValidRequestReplaysCache | QueryCache/Program.cs:442-558 | a valid players or rules request within its time-to-live replays the cache with no backend traffic. It is counted iff every entry is filled and every send succeeds |
| QueryCacheProps.InfoEndToEnd | QueryCache/Program.cs:402-441 | from start-up, the first info request queries the server and forwards its reply. A second one within 5 seconds gets the same bytes with no new backend traffic |
| QueryCacheProps.ThreePacketPlayerList | QueryCache/Program.cs:216-250 | a three-datagram player list is cached and replayed as exactly those datagrams in receipt order |
| QueryCacheProps.UnrelatedReplyLeavesPlayersUnread | QueryCache/Program.cs:262-283 | an info packet answering a players refresh counts as success: the players time moves, the cache stays unwritten and the worker faults |
| GeoIP.ReadHeader | QueryCache/czGeoIP.cs:77-83 | the header decodes iff 8 bytes are present. Both offsets are 32-bit and the count is bounded. For ordered offsets 7*count is the largest multiple of 7 not above end-start |
| GeoIP.Open | QueryCache/czGeoIP.cs:77-83 | the constructor succeeds iff the file holds a header, and the reader it builds is valid |
| GeoIP.HeaderRoundTrip | QueryCache/czGeoIP.cs:79-82 | encoded offsets decode back, and the count is (end-start)/7 when 0 <= start <= end |
| GeoIP.Index | QueryCache/czGeoIP.cs:62-71 | a record reads iff its wrapped position start+7*i is non-negative with 7 bytes left. Its key fits 32 bits and its offset 24 |
| GeoIP.IndexRoundTrip | QueryCache/czGeoIP.cs:62-71 | a record written as a 4-byte key and a 3-byte offset reads back as exactly those |
| GeoIP.AddressKey | QueryCache/czGeoIP.cs:87-88 | the key is the address's last four octets read big-endian, so the first IPv4 octet is the most significant |
| GeoIP.SearchFromLands | QueryCache/czGeoIP.cs:90-107 | from bracketing bounds, the loop stops at a readable in-range record below the address whose successor is not (or is the last record), or at record 0. With two or more records it never reports the last one. It always stops when every record is readable |
| GeoIP.Bisect | QueryCache/czGeoIP.cs:89-107 | the loop with C#'s truncating midpoint lands as SearchFromLands says: a readable record whose key is below the address while the next is not, never the last of two or more, and always a record when every record is readable |
| GeoIP.Search | QueryCache/czGeoIP.cs:85-109 | for a valid reader, a hit exists iff the search reaches a record, and the text offset is its record offset plus 4. It lands as SearchFromLands says, never on the last of two or more records, and never fails on a readable non-empty file |
| GeoIP.WrittenMissesExactKey | QueryCache/czGeoIP.cs:90-107 | on ascending keys, an address equal to the key of record j >= 1 is reported as record j-1 |
| GeoIP.LandsBelowLastRange | QueryCache/czGeoIP.cs:90-107 | on ascending keys, a landing below the last record for an address at or above the last key can only be record count-2 |
| GeoIP.WrittenMissesLastRange | QueryCache/czGeoIP.cs:90-107 | on ascending readable keys, an address at or above the last key is reported as record count-2, the range before the last |
| GeoIP.SampleOpens | QueryCache/czGeoIP.cs:77-83 | the three-record sample file opens with start 8, end 29 and count 3 |
| GeoIP.WrittenSampleLandsBefore | QueryCache/czGeoIP.cs:90-107 | on keys 0, 10, 20 the address 0.0.0.10 lands on record 0, not record 1 |
| GeoIP.SampleKeys | QueryCache/czGeoIP.cs:62-71 | records 1 and 2 of the sample file read as keys 10 and 20 with offset 0 |
| GeoIP.WrittenSampleMissesLastRange | QueryCache/czGeoIP.cs:90-107 | on keys 0, 10, 20 the address 0.0.0.25 lands on record 1, not record 2 |
| GeoIP.SearchCovering | QueryCache/czGeoIP.cs:85-109 | corrected search: any result is the record whose key is at most the address and whose successor's key is above it. There is one whenever records exist, every record can be read and the first key is at most the address, and none when there are no records or the first key is above the address |
| GeoIP.CoveringIsLast | QueryCache/czGeoIP.cs:90-107 | on ascending keys, every record after the covering one has a key above the address |
| GeoIP.CoveringFindsExactKey | QueryCache/czGeoIP.cs:90-107 | on ascending keys, the corrected search reports an exact range start as that very record |
| GeoIP.CoveringFindsLastRange | QueryCache/czGeoIP.cs:90-107 | on ascending keys, an address at or above the last key is covered only by the last record |
| GeoIP.LookUp | QueryCache/czGeoIP.cs:85-109 | corrected lookup: any hit is the record whose range holds the address's key, with the text offset of that record plus 4. There is a hit whenever records exist, every record can be read and the first key is at most the key |
| GeoIP.IndexAfter | QueryCache/czGeoIP.cs:62-71 | a record encoded right after a prefix of length p reads back, as exactly its key and offset, at the index whose position is p |
| GeoIP.CoversAmongThree | QueryCache/czGeoIP.cs:90-107 | with three records whose later keys are 10 and 20, an address in [10, 20) is covered exactly by record 1 and one at or above 20 exactly by record 2 |
| GeoIP.CorrectedSampleFindsRecord | QueryCache/czGeoIP.cs:90-107 | on keys 0, 10, 20, a record covers 0.0.0.10 iff it is record 1 |
| GeoIP.CorrectedSampleFindsLastRange | QueryCache/czGeoIP.cs:90-107 | on keys 0, 10, 20, a record covers 0.0.0.25 iff it is record 2 |

## Left out

- Sockets, endpoints, the `Init` routine's socket set-up and binding, and the
  receive loop in `Main`: sends and receives are scripted `Channel`/`Backend`
  values, and the state after `Init` plus the start-up timestamps is `QueryCache.Init`.
- Threads, the thread pool, the reader/writer locks and the update mutexes:
  the model is sequential. A `WaitOne(100)` that times out and serves the
  stale cache is not modelled, and neither is the mutex left held after a
  failed refresh returns early. Every refresh is taken to acquire its lock.
- The socket time-outs themselves: a timed-out receive is the `Timeout`
  inbox entry.
- `DateTime`: time is whole seconds passed in as `now`, and a successful
  refresh stamps the same `now` the gate compared, not a second clock read.
- Command-line parsing, the periodic statistics print-out with its counter
  reset, and all console output.
- QueryCache.HandleQuery: the counters are unbounded naturals, so the
  wrap-around of `Interlocked.Increment` on `int` after 2^31 requests is not modelled.
- Datagrams longer than the 1400-byte receive buffer: every received
  datagram is taken to fit (`Bytes.Datagram`).
- QueryCache.RequestChallenge: the fetch reply is read through a 9-byte
  buffer, and the model reads bytes 4..8 from the full datagram. This assumes
  the runtime truncates a longer reply into the buffer; a runtime that raises
  an error on an oversized datagram instead is not modelled.
- The `ApplicationException` handlers around the lock calls, which swallow
  nothing that can arise in a sequential run.
- QueryCache.ServeInfo and QueryCache.ServeCached: their own contracts bound
  only counters and the client log; the per-branch outcome is stated by
  QueryCacheProps.InfoRequestOutcome, QueryCacheProps.InvalidChallengeGetsCode
  and QueryCacheProps.CachedRequestOutcome.
- QueryCache.ServeCached: a never-written players or rules cache is reported
  as `fault`, which stands for the unhandled exception that escapes the
  worker. Under the default .NET and Mono policy that terminates the whole
  process, so `fault` means the proxy is gone; the model stops there.
- `GetString`, `Record` and the GBK text decoding of location records,
  `SearchAsync` and `Dispose` in czGeoIP.cs: `GeoIP.Search` stops at the file
  offset the location text is read from.
- GeoIP.AddressKey: `BitConverter.ToUInt32` is taken to run on a
  little-endian machine.
- The IPv6 case of the lookup is modelled only as the source computes it:
  the last four octets are used as if they were an IPv4 key.

## Findings

| source | as written | input that shows it | evidently intended | confidence | as-written member | corrected member |
|---|---|---|---|---|---|---|
| QueryCache/czGeoIP.cs:90-107 | the loop keeps `right` on keys at least the address and `left` on keys below it, so it stops at i with key(i) < addr <= key(i+1). An address equal to a range's starting key is reported as the previous range | records with keys 0, 10, 20 (header start 8, end 29) and address 0.0.0.10: the search returns record 0 | the last record whose key is at most the address, so 0.0.0.10 gives record 1 | not executed; high that the code does this, medium that it is unintended | GeoIP.WrittenSampleLandsBefore, GeoIP.WrittenMissesExactKey (about GeoIP.Bisect) | GeoIP.LookUp, GeoIP.SearchCovering, GeoIP.CoveringFindsExactKey, GeoIP.CorrectedSampleFindsRecord |
| QueryCache/czGeoIP.cs:90-107 | `right` starts at count-1 and the truncated midpoint of `left < right` is always below `right`, so with two or more records the last one is never reported. An address at or above the last key is reported as the range before it | the same records and address 0.0.0.25: the search returns record 1 | the last record, so 0.0.0.25 gives record 2 | not executed; high that the code does this, medium that it is unintended | GeoIP.WrittenSampleMissesLastRange, GeoIP.WrittenMissesLastRange (about GeoIP.Bisect) | GeoIP.LookUp, GeoIP.SearchCovering, GeoIP.CoveringFindsLastRange, GeoIP.CorrectedSampleFindsLastRange |
