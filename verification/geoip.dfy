/** The index search of QueryCache/czGeoIP.cs over a qqwry-style IP
    database, with the database file held as a byte string. The file starts
    with two little-endian 32-bit offsets, `start` and `end`; between them lie
    7-byte index records, each a 4-byte little-endian IPv4 key followed by a
    3-byte little-endian offset of the location record. */
module GeoIP {
  import opened Wrappers
  import opened Bytes

  /** The header as the constructor keeps it. */
  datatype Header = Header(start: int, end: int, count: int)

  /** An opened database: the file and its decoded header. */
  datatype Reader = Reader(file: seq<byte>, header: Header)

  /** One index record: its key and the offset of its location record. */
  datatype Entry = Entry(addr: nat, offset: nat)

  /** The result of a search: the index record reached, and the file offset
      at which its location text is read (the record offset plus 4). */
  datatype Hit = Hit(index: int, record: int)

  /** The largest magnitude `(end - start) / 7` can have in 32-bit arithmetic. */
  const MaxCount: int := 306783378

  /** The signed 32-bit little-endian integer at `pos`, as BinaryReader.ReadInt32 reads it. */
  function Int32At(file: seq<byte>, pos: nat): int
    requires pos + 4 <= |file|
  {
    Wrap32(UInt32At(file, pos))
  }

  /** Decode the header: fails (the stream ends) unless 8 bytes are present;
      `count` is `(end - start) / 7` in wrapping 32-bit arithmetic with the
      quotient truncated toward zero. */
  function ReadHeader(file: seq<byte>): (h: Option<Header>)
    ensures h.Some? <==> |file| >= 8
    ensures h.Some? ==> IsInt32(h.value.start) && IsInt32(h.value.end)
    ensures h.Some? ==> -MaxCount <= h.value.count <= MaxCount
    ensures h.Some? && 0 <= h.value.start <= h.value.end ==>
      0 <= 7 * h.value.count <= h.value.end - h.value.start < 7 * h.value.count + 7
  {
    if |file| < 8 then None
    else
      var start := Int32At(file, 0);
      var end := Int32At(file, 4);
      Some(Header(start, end, Quot(Wrap32(end - start), 7)))
  }

  /** What the constructor builds; it fails on a file shorter than the header. */
  function Open(file: seq<byte>): (o: Option<Reader>)
    ensures o.Some? <==> |file| >= 8
    ensures o.Some? ==> o.value.file == file && Valid(o.value)
  {
    match ReadHeader(file)
    case None => None
    case Some(h) => Some(Reader(file, h))
  }

  /** A reader the constructor could have built. */
  predicate Valid(g: Reader)
  {
    ReadHeader(g.file) == Some(g.header)
  }

  /** The record count of a reader is within MaxCount of zero. */
  lemma ValidCount(g: Reader)
    requires Valid(g)
    ensures -MaxCount <= g.header.count <= MaxCount
  {
  }

  /** The 8 header bytes for the offsets `start` and `end`. */
  function EncodeHeader(start: int, end: int): seq<byte>
    requires IsInt32(start) && IsInt32(end)
  {
    ToLittleEndian(start % Two32, 4) + ToLittleEndian(end % Two32, 4)
  }

  lemma Int32RoundTrip(x: int)
    requires IsInt32(x)
    ensures Wrap32(LittleEndian(ToLittleEndian(x % Two32, 4))) == x
  {
    Pow256Values();
    LittleEndianRoundTrip(x % Two32, 4);
  }

  /** The header decodes back to the offsets it was encoded from, and for a
      well-ordered file `count` is the number of whole 7-byte records
      between them. */
  lemma HeaderRoundTrip(start: int, end: int, rest: seq<byte>)
    requires IsInt32(start) && IsInt32(end)
    ensures ReadHeader(EncodeHeader(start, end) + rest).Some?
    ensures var h := ReadHeader(EncodeHeader(start, end) + rest).value;
      h.start == start && h.end == end &&
      (0 <= start <= end ==> h.count == (end - start) / 7)
  {
    var file := EncodeHeader(start, end) + rest;
    assert file[0..4] == ToLittleEndian(start % Two32, 4);
    assert file[4..8] == ToLittleEndian(end % Two32, 4);
    ShiftedIsLittleEndian(file, 0);
    ShiftedIsLittleEndian(file, 4);
    Int32RoundTrip(start);
    Int32RoundTrip(end);
    assert Int32At(file, 0) == start && Int32At(file, 4) == end;
  }

  /** The file position of index record `i`: `start + i * 7` in wrapping
      32-bit arithmetic. */
  function RecordPos(h: Header, i: int): (p: int)
    ensures IsInt32(7 * i) && IsInt32(h.start + 7 * i) ==> p == h.start + 7 * i
  {
    Wrap32(h.start + Wrap32(7 * i))
  }

  /** Read index record `i`. The read fails when the position is negative
      (the seek throws) or fewer than 7 bytes remain (a short read). */
  function Index(file: seq<byte>, h: Header, i: int): (r: Option<Entry>)
    ensures r.Some? <==> 0 <= RecordPos(h, i) && RecordPos(h, i) + 7 <= |file|
    ensures r.Some? ==> r.value.addr < Two32 && r.value.offset < 0x100_0000
  {
    var p := RecordPos(h, i);
    if 0 <= p && p + 7 <= |file| then
      Some(Entry(UInt32At(file, p), UInt24At(file, p + 4)))
    else None
  }

  /** A record written as a 4-byte key and a 3-byte offset reads back as them. */
  lemma IndexRoundTrip(file: seq<byte>, h: Header, i: int, addr: nat, offset: nat)
    requires addr < Two32 && offset < 0x100_0000
    requires var p := RecordPos(h, i);
      0 <= p && p + 7 <= |file| && file[p..p + 7] == EncodeRecord(addr, offset)
    ensures Index(file, h, i) == Some(Entry(addr, offset))
  {
    var p := RecordPos(h, i);
    var rec := file[p..p + 7];
    var k, o := ToLittleEndian(addr, 4), ToLittleEndian(offset, 3);
    assert rec == k + o;
    assert file[p..p + 4] == rec[..4] by {
      assert forall n :: 0 <= n < 4 ==> file[p..p + 4][n] == rec[n];
    }
    assert rec[..4] == k;
    assert file[p + 4..p + 7] == rec[4..] by {
      var tail, rtail := file[p + 4..p + 7], rec[4..];
      assert forall n :: 0 <= n < 3 ==> tail[n] == rtail[n];
    }
    assert rec[4..] == o;
    ShiftedIsLittleEndian(file, p);
    ShiftedIsLittleEndian(file, p + 4);
    Pow256Values();
    LittleEndianRoundTrip(addr, 4);
    LittleEndianRoundTrip(offset, 3);
  }

  /** The bytes of an IPAddress: 4 for IPv4, 16 for IPv6. */
  type IpBytes = s: seq<byte> | |s| == 4 || |s| == 16 witness [0, 0, 0, 0]

  function Reverse(s: seq<byte>): (r: seq<byte>)
    ensures |r| == |s| && forall i :: 0 <= i < |s| ==> r[i] == s[|s| - 1 - i]
  {
    seq(|s|, i requires 0 <= i < |s| => s[|s| - 1 - i])
  }

  /** The search key of an address: its bytes reversed, then the first four
      read as a little-endian unsigned integer. For IPv4 the first octet ends
      up most significant; for IPv6 the last four octets are used. */
  function AddressKey(ip: IpBytes): (k: nat)
    ensures var n := |ip|;
      k == ip[n - 4] as nat * 0x100_0000 + ip[n - 3] as nat * 0x1_0000 + ip[n - 2] as nat * 0x100 + ip[n - 1] as nat
    ensures k < Two32
  {
    UInt32At(Reverse(ip), 0)
  }

  /** The distance between the two search bounds, which every step shrinks. */
  function Dist(a: int, b: int): nat
  {
    if a <= b then b - a else a - b
  }

  /** The truncated midpoint lies between the two bounds. */
  lemma MidBetween(left: int, right: int)
    ensures left <= right ==> left <= Quot(left + right, 2) <= right
    ensures right <= left ==> right <= Quot(left + right, 2) <= left
    ensures Quot(left + right, 2) == right ==> Dist(left, right) <= 1
    ensures Quot(left + right, 2) == left ==> Dist(left, right) <= 1
    ensures 0 <= left <= right && Quot(left + right, 2) == right ==> left == right
  {
  }

  /** The search loop as a recursive definition: the index it stops at, or
      None when a record read fails. */
  function SearchFrom(file: seq<byte>, h: Header, addr: nat, left: int, right: int): Option<int>
    decreases Dist(left, right)
  {
    var mid := Quot(left + right, 2);
    MidBetween(left, right);
    match Index(file, h, mid)
    case None => None
    case Some(e) =>
      if addr <= e.addr then
        if right == mid then Some(mid) else SearchFrom(file, h, addr, left, mid)
      else
        if left == mid then Some(mid) else SearchFrom(file, h, addr, mid, right)
  }

  /** One unfolding of SearchFrom, stated for the loop that follows it. */
  lemma SearchStep(file: seq<byte>, h: Header, addr: nat, left: int, right: int)
    ensures var mid := Quot(left + right, 2);
      var e := Index(file, h, mid);
      SearchFrom(file, h, addr, left, right) ==
        if e.None? then None
        else if addr <= e.value.addr then
          if right == mid then Some(mid) else SearchFrom(file, h, addr, left, mid)
        else
          if left == mid then Some(mid) else SearchFrom(file, h, addr, mid, right)
  {
  }

  /** Where the search stops for the address key `addr`. */
  function SearchIndex(g: Reader, addr: nat): Option<int>
  {
    SearchFrom(g.file, g.header, addr, 0, g.header.count - 1)
  }

  /** Every index record in `0 .. count-1` can be read. */
  predicate Readable(g: Reader)
  {
    forall i :: 0 <= i < g.header.count ==> Index(g.file, g.header, i).Some?
  }

  /** Whether record `i` is readable and its key is below `addr`. */
  predicate KeyBelow(g: Reader, i: int, addr: nat)
  {
    Index(g.file, g.header, i).Some? && Index(g.file, g.header, i).value.addr < addr
  }

  /** Whether record `i` is readable and its key is at least `addr`. */
  predicate KeyAtLeast(g: Reader, i: int, addr: nat)
  {
    Index(g.file, g.header, i).Some? && addr <= Index(g.file, g.header, i).value.addr
  }

  /** Where the written search stops for `addr`: at record 0 when `addr` is at
      most its key, and otherwise at a record whose key is below `addr` and
      whose successor's key is at least `addr`, unless the successor is the
      last record (whose key the loop never reads as a successor) or there is
      only one record. */
  predicate LandsBelow(g: Reader, addr: nat, i: int)
  {
    || (i == 0 && KeyAtLeast(g, 0, addr))
    || (KeyBelow(g, i, addr) &&
        (g.header.count == 1 || i + 1 == g.header.count - 1 || KeyAtLeast(g, i + 1, addr)))
  }

  /** The bounds the search starts from: `0` and `count - 1`, whichever order
      they come in. */
  predicate Within(g: Reader, i: int)
  {
    var c := g.header.count;
    if c >= 1 then 0 <= i <= c - 1 else c - 1 <= i <= 0
  }

  /** The loop's facts about its bounds: both stay between the initial ones,
      in order when `count >= 1`, `left` never reaches the last record when
      there are two or more, `left` only ever sits on a key below `addr`
      and `right` only on a key at least `addr`. */
  predicate Bracket(g: Reader, addr: nat, left: int, right: int)
  {
    && Within(g, left) && Within(g, right)
    && (g.header.count >= 1 ==> left <= right)
    && (g.header.count >= 2 ==> left <= g.header.count - 2)
    && (left == 0 || KeyBelow(g, left, addr))
    && (right == g.header.count - 1 || KeyAtLeast(g, right, addr))
  }

  /** Wherever the search stops from bracketing bounds, the record there was
      read, lies between the initial bounds, is not the last record when
      there are two or more, and for `count >= 1` sits just below `addr` as
      LandsBelow says; when every record can be read, the search does stop
      at one. */
  lemma {:induction false} SearchFromLands(g: Reader, addr: nat, left: int, right: int)
    requires Bracket(g, addr, left, right)
    ensures var r := SearchFrom(g.file, g.header, addr, left, right);
      r.Some? ==> Index(g.file, g.header, r.value).Some? && Within(g, r.value)
    ensures var r := SearchFrom(g.file, g.header, addr, left, right);
      r.Some? && g.header.count >= 2 ==> r.value <= g.header.count - 2
    ensures var r := SearchFrom(g.file, g.header, addr, left, right);
      r.Some? && g.header.count >= 1 ==> LandsBelow(g, addr, r.value)
    ensures Readable(g) && g.header.count >= 1 ==> SearchFrom(g.file, g.header, addr, left, right).Some?
    decreases Dist(left, right)
  {
    var mid := Quot(left + right, 2);
    MidBetween(left, right);
    var e := Index(g.file, g.header, mid);
    if e.Some? {
      if addr <= e.value.addr {
        if right != mid {
          SearchFromLands(g, addr, left, mid);
        }
      } else {
        if left != mid {
          SearchFromLands(g, addr, mid, right);
        } else if right == left {
          assert !KeyAtLeast(g, right, addr);
        }
      }
    }
  }

  /** The record count fits the 32-bit bounds a header can produce. */
  predicate CountFits(g: Reader)
  {
    -MaxCount <= g.header.count <= MaxCount
  }

  /** The search loop as written: bisect between `left = 0` and
      `right = count - 1`, moving `right` to the midpoint when
      `addr <= key(mid)` and `left` otherwise, and stopping when the bound to
      move already equals the midpoint. It stops for every count, at the
      index SearchFrom defines: a readable record between the initial bounds,
      never the last of two or more, just below `addr` as LandsBelow says. */
  method Bisect(g: Reader, addr: nat) returns (r: Option<int>)
    requires CountFits(g)
    ensures r == SearchIndex(g, addr)
    ensures r.Some? ==> Index(g.file, g.header, r.value).Some? && Within(g, r.value)
    ensures r.Some? && g.header.count >= 2 ==> r.value <= g.header.count - 2
    ensures r.Some? && g.header.count >= 1 ==> LandsBelow(g, addr, r.value)
    ensures Readable(g) && g.header.count >= 1 ==> r.Some?
  {
    var h := g.header;
    var left := 0;
    var right := h.count - 1;
    var mid := 0;
    ghost var target := SearchIndex(g, addr);
    while true
      invariant Within(g, left) && Within(g, right)
      invariant h.count >= 1 ==> left <= right
      invariant SearchFrom(g.file, h, addr, left, right) == target
      decreases Dist(left, right)
    {
      // both bounds stay within MaxCount of zero, so the C# int sum cannot wrap
      assert IsInt32(left + right);
      mid := Quot(left + right, 2);
      MidBetween(left, right);
      SearchStep(g.file, h, addr, left, right);
      var e := Index(g.file, h, mid);
      if e.None? {
        r := None;
        break;
      }
      if addr <= e.value.addr {
        if right == mid {
          r := Some(mid);
          break;
        }
        right := mid;
      } else {
        if left == mid {
          r := Some(mid);
          break;
        }
        left := mid;
      }
    }
    SearchIndexLands(g, addr);
  }

  /** SearchFromLands from the initial bounds `0` and `count - 1`. */
  lemma SearchIndexLands(g: Reader, addr: nat)
    ensures var r := SearchIndex(g, addr);
      r.Some? ==> Index(g.file, g.header, r.value).Some? && Within(g, r.value)
    ensures var r := SearchIndex(g, addr);
      r.Some? && g.header.count >= 2 ==> r.value <= g.header.count - 2
    ensures var r := SearchIndex(g, addr);
      r.Some? && g.header.count >= 1 ==> LandsBelow(g, addr, r.value)
    ensures Readable(g) && g.header.count >= 1 ==> SearchIndex(g, addr).Some?
  {
    SearchFromLands(g, addr, 0, g.header.count - 1);
  }

  /** Look up an address: convert it to its key, run the search loop, and
      return the record reached together with the offset its location text
      is read from. */
  method Search(g: Reader, ip: IpBytes) returns (r: Option<Hit>)
    requires Valid(g)
    ensures r.Some? <==> SearchIndex(g, AddressKey(ip)).Some?
    ensures r.Some? ==>
      && r.value.index == SearchIndex(g, AddressKey(ip)).value
      && Index(g.file, g.header, r.value.index).Some?
      && r.value.record == Index(g.file, g.header, r.value.index).value.offset + 4
    ensures r.Some? ==> Within(g, r.value.index)
    ensures r.Some? && g.header.count >= 2 ==> r.value.index <= g.header.count - 2
    ensures r.Some? && g.header.count >= 1 ==> LandsBelow(g, AddressKey(ip), r.value.index)
    ensures Readable(g) && g.header.count >= 1 ==> r.Some?
  {
    ValidCount(g);
    var key := AddressKey(ip);
    var found := Bisect(g, key);
    SearchIndexLands(g, key);
    match found {
      case None => r := None;
      case Some(i) => r := Some(Hit(i, Index(g.file, g.header, i).value.offset + 4));
    }
  }

  /** Every record in `0 .. count-1` can be read and their keys strictly
      increase, as the start addresses of consecutive ranges do. */
  predicate Ascending(g: Reader)
  {
    Readable(g) && forall i, j :: 0 <= i < j < g.header.count ==> Key(g, i) < Key(g, j)
  }

  /** The key of record `i`, or -1 when it cannot be read. */
  function Key(g: Reader, i: int): int
  {
    match Index(g.file, g.header, i)
    case Some(e) => e.addr
    case None => -1
  }

  /** Whether record `i` is readable and has the key `addr`. */
  predicate KeyIs(g: Reader, i: int, addr: nat)
  {
    Index(g.file, g.header, i).Some? && Index(g.file, g.header, i).value.addr == addr
  }

  /** Ascending keys compare as their indexes do. */
  lemma KeyOrder(g: Reader, i: int, j: int)
    requires Ascending(g) && 0 <= i < j < g.header.count
    ensures Index(g.file, g.header, i).Some? && Index(g.file, g.header, j).Some?
    ensures Index(g.file, g.header, i).value.addr < Index(g.file, g.header, j).value.addr
  {
    assert Key(g, i) < Key(g, j);
  }

  /** On ascending keys, the only record that LandsBelow allows for an
      address equal to the key of record `j >= 1` is record `j - 1`. */
  lemma LandsBelowExactKey(g: Reader, j: int, addr: nat, r: int)
    requires Ascending(g) && 1 <= j < g.header.count && KeyIs(g, j, addr)
    requires 0 <= r < g.header.count && LandsBelow(g, addr, r)
    ensures r == j - 1
  {
    KeyOrder(g, 0, j);
    assert KeyBelow(g, r, addr);
    if r > j {
      KeyOrder(g, j, r);
      assert false;
    }
    if r + 1 < j {
      KeyOrder(g, r + 1, j);
      assert false;
    }
  }

  /** On ascending keys, an address equal to the key of record `j >= 1` makes
      the written search stop at record `j - 1`: the range that starts at
      `addr` is reported as the range before it. */
  lemma WrittenMissesExactKey(g: Reader, j: int, addr: nat)
    requires Ascending(g) && 1 <= j < g.header.count && KeyIs(g, j, addr)
    ensures SearchIndex(g, addr) == Some(j - 1)
  {
    var r := SearchFrom(g.file, g.header, addr, 0, g.header.count - 1);
    SearchFromLands(g, addr, 0, g.header.count - 1);
    LandsBelowExactKey(g, j, addr, r.value);
  }

  /** On ascending keys, the only record that LandsBelow allows, short of the
      last, for an address at or above the last key is the one before it. */
  lemma LandsBelowLastRange(g: Reader, addr: nat, r: int)
    requires Ascending(g) && g.header.count >= 2 && KeyAtMost(g, g.header.count - 1, addr)
    requires 0 <= r <= g.header.count - 2 && LandsBelow(g, addr, r)
    ensures r == g.header.count - 2
  {
    var last := g.header.count - 1;
    KeyOrder(g, 0, last);
    assert KeyBelow(g, r, addr);
    if r + 1 < last {
      KeyOrder(g, r + 1, last);
      assert false;
    }
  }

  /** On ascending keys with two or more records, an address at or above the
      last key makes the written search stop at the record before the last:
      the last range is never reported. */
  lemma WrittenMissesLastRange(g: Reader, addr: nat)
    requires Ascending(g) && g.header.count >= 2 && KeyAtMost(g, g.header.count - 1, addr)
    ensures SearchIndex(g, addr) == Some(g.header.count - 2)
  {
    SearchIndexLands(g, addr);
    LandsBelowLastRange(g, addr, SearchIndex(g, addr).value);
  }

  /** The 7 bytes of an index record with key `addr` and offset `offset`. */
  function EncodeRecord(addr: nat, offset: nat): (rec: seq<byte>)
    ensures |rec| == 7
  {
    ToLittleEndian(addr, 4) + ToLittleEndian(offset, 3)
  }

  /** A three-record database: header start 8 and end 29, so count is 3,
      with keys 0, 10 and 20. */
  function Sample(): seq<byte>
  {
    EncodeHeader(8, 29) + EncodeRecord(0, 0) + EncodeRecord(10, 0) + EncodeRecord(20, 0)
  }

  /** The sample database opens with count 3. */
  lemma SampleOpens()
    ensures Open(Sample()) == Some(Reader(Sample(), Header(8, 29, 3)))
  {
    HeaderRoundTrip(8, 29, EncodeRecord(0, 0) + EncodeRecord(10, 0) + EncodeRecord(20, 0));
    assert Sample() == EncodeHeader(8, 29) + (EncodeRecord(0, 0) + EncodeRecord(10, 0) + EncodeRecord(20, 0));
  }

  /** Looking up 0.0.0.10, the first address of the range of record 1, the
      written search stops at record 0. */
  lemma WrittenSampleLandsBefore()
    ensures SearchIndex(Reader(Sample(), Header(8, 29, 3)), AddressKey([0, 0, 0, 10])) == Some(0)
  {
    var h := Header(8, 29, 3);
    var file := Sample();
    var head := EncodeHeader(8, 29);
    assert |head| == 8;
    assert RecordPos(h, 1) == 15 && RecordPos(h, 0) == 8;
    assert file[8..15] == EncodeRecord(0, 0);
    assert file[15..22] == EncodeRecord(10, 0);
    Pow256Values();
    IndexRoundTrip(file, h, 0, 0, 0);
    IndexRoundTrip(file, h, 1, 10, 0);
    assert AddressKey([0, 0, 0, 10]) == 10;
    SearchStep(file, h, 10, 0, 2);
    SearchStep(file, h, 10, 0, 1);
  }

  /** Whether record `i` is readable and its key is at most `addr`. */
  predicate KeyAtMost(g: Reader, i: int, addr: nat)
  {
    Index(g.file, g.header, i).Some? && Index(g.file, g.header, i).value.addr <= addr
  }

  /** Whether record `i` is readable and its key is above `addr`. */
  predicate KeyAbove(g: Reader, i: int, addr: nat)
  {
    Index(g.file, g.header, i).Some? && addr < Index(g.file, g.header, i).value.addr
  }

  /** The record whose range holds `addr`: its key is at most `addr`, and the
      next record, if any, starts above `addr`. */
  predicate Covers(g: Reader, addr: nat, i: int)
  {
    0 <= i < g.header.count && KeyAtMost(g, i, addr) &&
    (i + 1 < g.header.count ==> KeyAbove(g, i + 1, addr))
  }

  /** The search as evidently intended: bisect on `lo < hi` keeping
      `key(lo) <= addr` and `hi == count || addr < key(hi)`, so the result
      is the record whose range holds `addr`. It reports nothing when there
      are no records, when `addr` lies below the first key, or when a read
      fails. */
  method SearchCovering(g: Reader, addr: nat) returns (r: Option<int>)
    requires CountFits(g)
    ensures r.Some? ==> Covers(g, addr, r.value)
    ensures Readable(g) && g.header.count >= 1 && KeyAtMost(g, 0, addr) ==> r.Some?
    ensures g.header.count < 1 || KeyAbove(g, 0, addr) ==> r.None?
  {
    var h := g.header;
    if h.count < 1 {
      return None;
    }
    var first := Index(g.file, h, 0);
    if first.None? || addr < first.value.addr {
      return None;
    }
    var lo := 0;
    var hi := h.count;
    while hi - lo > 1
      invariant 0 <= lo < hi <= h.count
      invariant KeyAtMost(g, lo, addr)
      invariant hi == h.count || KeyAbove(g, hi, addr)
      decreases hi - lo
    {
      var mid := lo + (hi - lo) / 2;
      var e := Index(g.file, h, mid);
      if e.None? {
        return None;
      }
      if e.value.addr <= addr {
        lo := mid;
      } else {
        hi := mid;
      }
    }
    r := Some(lo);
  }

  /** On ascending keys the covering record is the last record whose key is at
      most `addr`: every later record starts above it. */
  lemma CoveringIsLast(g: Reader, addr: nat, i: int, j: int)
    requires Ascending(g) && Covers(g, addr, i) && i < j < g.header.count
    ensures KeyAbove(g, j, addr)
  {
    if j > i + 1 {
      KeyOrder(g, i + 1, j);
    }
  }

  /** On ascending keys the corrected search stops at record `j` when `addr`
      is exactly the key of record `j`. */
  lemma CoveringFindsExactKey(g: Reader, j: int, addr: nat, i: int)
    requires Ascending(g) && 0 <= j < g.header.count && KeyIs(g, j, addr)
    requires Covers(g, addr, i)
    ensures i == j
  {
    if i < j {
      CoveringIsLast(g, addr, i, j);
    } else if i > j {
      KeyOrder(g, j, i);
    }
  }

  /** The address lookup with the corrected search: the record whose range
      holds the address, and the offset its location text is read from. */
  method LookUp(g: Reader, ip: IpBytes) returns (r: Option<Hit>)
    requires Valid(g)
    ensures r.Some? ==>
      && Covers(g, AddressKey(ip), r.value.index)
      && r.value.record == Index(g.file, g.header, r.value.index).value.offset + 4
    ensures Readable(g) && g.header.count >= 1 && KeyAtMost(g, 0, AddressKey(ip)) ==> r.Some?
    ensures g.header.count < 1 || KeyAbove(g, 0, AddressKey(ip)) ==> r.None?
  {
    ValidCount(g);
    var found := SearchCovering(g, AddressKey(ip));
    match found {
      case None => r := None;
      case Some(i) => r := Some(Hit(i, Index(g.file, g.header, i).value.offset + 4));
    }
  }

  /** A record encoded right after the bytes `pre` is the record whose
      position is `|pre|`. */
  lemma IndexAfter(pre: seq<byte>, addr: nat, offset: nat, rest: seq<byte>, h: Header, i: int)
    requires addr < Two32 && offset < 0x100_0000
    requires RecordPos(h, i) == |pre|
    ensures Index(pre + EncodeRecord(addr, offset) + rest, h, i) == Some(Entry(addr, offset))
  {
    var file := pre + EncodeRecord(addr, offset) + rest;
    var p := |pre|;
    assert file[p..p + 7] == EncodeRecord(addr, offset);
    IndexRoundTrip(file, h, i, addr, offset);
  }

  /** Records 1 and 2 of the sample read back with keys 10 and 20. */
  lemma SampleKeys()
    ensures Index(Sample(), Header(8, 29, 3), 1) == Some(Entry(10, 0))
    ensures Index(Sample(), Header(8, 29, 3), 2) == Some(Entry(20, 0))
  {
    var h := Header(8, 29, 3);
    var head := EncodeHeader(8, 29);
    var r0, r1, r2 := EncodeRecord(0, 0), EncodeRecord(10, 0), EncodeRecord(20, 0);
    assert |head| == 8;
    Pow256Values();
    assert RecordPos(h, 1) == 15 && RecordPos(h, 2) == 22;
    IndexAfter(head + r0, 10, 0, r2, h, 1);
    assert Sample() == head + r0 + r1 + r2 + [];
    IndexAfter(head + r0 + r1, 20, 0, [], h, 2);
  }

  /** Looking up 0.0.0.25, inside the range of the last record, the written
      search stops at record 1. */
  lemma WrittenSampleMissesLastRange()
    ensures SearchIndex(Reader(Sample(), Header(8, 29, 3)), AddressKey([0, 0, 0, 25])) == Some(1)
  {
    var h := Header(8, 29, 3);
    SampleKeys();
    assert AddressKey([0, 0, 0, 25]) == 25;
    SearchStep(Sample(), h, 25, 0, 2);
    SearchStep(Sample(), h, 25, 1, 2);
  }

  /** On ascending keys, an address at or above the last key is covered by
      the last record. */
  lemma CoveringFindsLastRange(g: Reader, addr: nat, i: int)
    requires Ascending(g) && g.header.count >= 1 && KeyAtMost(g, g.header.count - 1, addr)
    requires Covers(g, addr, i)
    ensures i == g.header.count - 1
  {
    if i + 1 < g.header.count - 1 {
      KeyOrder(g, i + 1, g.header.count - 1);
    }
  }

  /** In a three-record database whose records 1 and 2 start at 10 and 20,
      record 1 and no other covers the addresses from 10 below 20, and
      record 2 and no other covers those from 20 up. */
  lemma CoversAmongThree(g: Reader, addr: nat, i: int)
    requires g.header.count == 3
    requires Index(g.file, g.header, 1) == Some(Entry(10, 0))
    requires Index(g.file, g.header, 2) == Some(Entry(20, 0))
    ensures 10 <= addr < 20 ==> (Covers(g, addr, i) <==> i == 1)
    ensures 20 <= addr ==> (Covers(g, addr, i) <==> i == 2)
  {
  }

  /** In the sample, record 1 and no other covers 0.0.0.10, the first address
      of its range. */
  lemma CorrectedSampleFindsRecord(i: int)
    ensures Covers(Reader(Sample(), Header(8, 29, 3)), AddressKey([0, 0, 0, 10]), i) <==> i == 1
  {
    SampleKeys();
    assert AddressKey([0, 0, 0, 10]) == 10;
    CoversAmongThree(Reader(Sample(), Header(8, 29, 3)), 10, i);
  }

  /** In the sample, the last record and no other covers 0.0.0.25. */
  lemma CorrectedSampleFindsLastRange(i: int)
    ensures Covers(Reader(Sample(), Header(8, 29, 3)), AddressKey([0, 0, 0, 25]), i) <==> i == 2
  {
    SampleKeys();
    assert AddressKey([0, 0, 0, 25]) == 25;
    CoversAmongThree(Reader(Sample(), Header(8, 29, 3)), 25, i);
  }
}
