/** The Ogg page scanner behind the Opus duration (common/audio.go), against the page format of
    section 6 of RFC 3533 and the 48 kHz clock of section 4 of RFC 7845. */
module OpusScanner {
  import opened BodyStorage

  const TWO_63 := 0x8000_0000_0000_0000
  const TWO_64 := 0x1_0000_0000_0000_0000

  // ---------------------------------------------------------------- little-endian integers

  function FromLittleEndian(bytes: seq<Byte>): (x: nat) {
    if bytes == [] then 0 else bytes[0] + 256 * FromLittleEndian(bytes[1..])
  }

  function ToLittleEndian(x: nat, n: nat): (bytes: seq<Byte>)
    ensures |bytes| == n
  {
    if n == 0 then [] else [x % 256] + ToLittleEndian(x / 256, n - 1)
  }

  function Pow256(n: nat): nat {
    if n == 0 then 1 else 256 * Pow256(n - 1)
  }

  lemma {:induction false} LittleEndianRoundTrip(x: nat, n: nat)
    requires x < Pow256(n)
    ensures FromLittleEndian(ToLittleEndian(x, n)) == x
  {
    if n > 0 {
      LittleEndianRoundTrip(x / 256, n - 1);
      assert ToLittleEndian(x, n)[1..] == ToLittleEndian(x / 256, n - 1);
    }
  }

  /** The conversion of a uint64 to an int64, and back. */
  function Signed(x: nat): int {
    if x >= TWO_63 then x - TWO_64 else x
  }

  function Unsigned(x: int): nat
    requires -TWO_63 <= x < TWO_63
  {
    if x < 0 then x + TWO_64 else x
  }

  lemma GranuleRoundTrip(g: int)
    requires -TWO_63 <= g < TWO_63
    ensures Signed(FromLittleEndian(ToLittleEndian(Unsigned(g), 8))) == g
  {
    assert Pow256(4) == 0x1_0000_0000;
    assert Pow256(8) == TWO_64;
    LittleEndianRoundTrip(Unsigned(g), 8);
  }

  // ---------------------------------------------------------------- pages

  function Sum(sizes: seq<Byte>): nat {
    if sizes == [] then 0 else Sum(sizes[..|sizes| - 1]) + sizes[|sizes| - 1]
  }

  const CAPTURE: seq<Byte> := [79, 103, 103, 83]

  /** The capture pattern is the text OggS. */
  lemma CaptureIsOggS()
    ensures |CAPTURE| == 4 && forall i | 0 <= i < 4 :: CAPTURE[i] == "OggS"[i] as int
  {
    assert CAPTURE[0] == 'O' as int && CAPTURE[1] == 'g' as int && CAPTURE[3] == 'S' as int;
  }

  /** One page: `ignored` holds serial number, sequence number and checksum, which the scanner skips. */
  datatype Page = Page(version: Byte, flags: Byte, granule: int, ignored: seq<Byte>, segments: seq<Byte>, body: seq<Byte>)

  ghost predicate WellFormedPage(p: Page) {
    -TWO_63 <= p.granule < TWO_63 && |p.ignored| == 12 && |p.segments| <= 255 && |p.body| == Sum(p.segments)
  }

  ghost function Encode(p: Page): seq<Byte>
    requires WellFormedPage(p)
  {
    CAPTURE + [p.version, p.flags] + ToLittleEndian(Unsigned(p.granule), 8) + p.ignored + [|p.segments|] + p.segments + p.body
  }

  ghost predicate AllWellFormed(pages: seq<Page>) {
    forall p | p in pages :: WellFormedPage(p)
  }

  ghost function EncodeAll(pages: seq<Page>): seq<Byte>
    requires AllWellFormed(pages)
  {
    if pages == [] then [] else Encode(pages[0]) + EncodeAll(pages[1..])
  }

  // ---------------------------------------------------------------- the scan as a function

  predicate Captured(data: seq<Byte>, at: nat) {
    at + 4 <= |data| && data[at..at + 4] == CAPTURE
  }

  function GranuleAt(data: seq<Byte>, at: nat): int
    requires at + 27 <= |data|
  {
    Signed(FromLittleEndian(data[at + 6..at + 14]))
  }

  function Larger(a: int, b: int): int {
    if b > a then b else a
  }

  /** The largest granule position found from `at` on, given the largest before it. */
  function Scan(data: seq<Byte>, at: nat, total: int): int
    decreases |data| - at
  {
    if at + 27 > |data| then total
    else if !Captured(data, at) then Scan(data, at + 1, total)
    else
      var t := Larger(total, GranuleAt(data, at));
      var body := at + 27 + data[at + 26];
      if body > |data| then t else Scan(data, body + Sum(data[at + 27..body]), t)
  }

  lemma SliceOfSlice<T>(s: seq<T>, at: nat, n: nat, i: nat, j: nat)
    requires i <= j <= n && at + n <= |s|
    ensures s[at..at + n][i..j] == s[at + i..at + j]
  {
    var a, b := s[at..at + n][i..j], s[at + i..at + j];
    assert |a| == |b| && forall k | 0 <= k < |a| :: a[k] == b[k];
  }

  function HeaderGranule(page: seq<Byte>): int
    requires |page| == 27
  {
    Signed(FromLittleEndian(page[6..14]))
  }

  /** How one header decides the rest of the scan. */
  lemma ScanStep(data: seq<Byte>, at: nat, page: seq<Byte>, total: int)
    requires at + 27 <= |data| && page == data[at..at + 27]
    ensures page[0..4] != CAPTURE ==> Scan(data, at, total) == Scan(data, at + 1, total)
    ensures page[0..4] == CAPTURE ==>
              var t, body := Larger(total, HeaderGranule(page)), at + 27 + page[26];
              Scan(data, at, total) == if body > |data| then t else Scan(data, body + Sum(data[at + 27..body]), t)
  {
    SliceOfSlice(data, at, 27, 0, 4);
    SliceOfSlice(data, at, 27, 6, 14);
  }

  /** One round of the scan: it either moves the cursor forward and leaves the rest of the scan the same
      answer, or ends with that answer. */
  method ScanRound(r: Reader, total: int) returns (go: bool, largest: int)
    modifies r
    ensures go ==> old(r.cursor) < r.cursor && old(r.cursor) < |r.data|
    ensures Scan(r.data, old(r.cursor), total) == if go then Scan(r.data, r.cursor, largest) else largest
  {
    ghost var at := r.cursor;
    var header := r.Read(27);
    if header.value.eof || |header.value.bytes| < 27 {
      return false, total;
    }
    var page := header.value.bytes;
    ScanStep(r.data, at, page, total);
    if page[0..4] != CAPTURE {
      var _ := r.Seek(-26, FromCurrent);
      return true, total;
    }
    largest := Larger(total, HeaderGranule(page));
    go := SkipPage(r, page[26]);
  }

  /** Reading the segment table and skipping the page body, which may lie past the end. */
  method SkipPage(r: Reader, segments: Byte) returns (ok: bool)
    requires r.cursor <= |r.data|
    modifies r
    ensures ok <==> old(r.cursor) + segments <= |r.data|
    ensures ok ==> r.cursor == old(r.cursor) + segments + Sum(r.data[old(r.cursor)..old(r.cursor) + segments])
  {
    var table := r.Read(segments);
    if |table.value.bytes| < segments {
      return false;
    }
    assert table.value.bytes == r.data[old(r.cursor)..old(r.cursor) + segments];
    var size := TotalSize(table.value.bytes);
    var _ := r.Seek(size, FromCurrent);
    return true;
  }

  /** getOpusDuration. It ends on every byte string, since the cursor moves forward in every round. */
  method OpusDuration(r: Reader) returns (seconds: real)
    modifies r
    ensures seconds == Scan(r.data, 0, 0) as real / 48000.0
  {
    var _ := r.Seek(0, FromStart);
    var total, go := 0, true;
    while go
      invariant Scan(r.data, 0, 0) == if go then Scan(r.data, r.cursor, total) else total
      decreases go, |r.data| - r.cursor
    {
      go, total := ScanRound(r, total);
    }
    return total as real / 48000.0;
  }

  /** The loop over the segment table. */
  method TotalSize(table: seq<Byte>) returns (size: nat)
    ensures size == Sum(table)
  {
    size := 0;
    for i := 0 to |table|
      invariant size == Sum(table[..i])
    {
      assert table[..i + 1][..i] == table[..i];
      size := size + table[i];
    }
    assert table[..|table|] == table;
  }

  // ---------------------------------------------------------------- well-formed input

  ghost function Header(p: Page): seq<Byte>
    requires WellFormedPage(p)
  {
    CAPTURE + [p.version, p.flags] + ToLittleEndian(Unsigned(p.granule), 8) + p.ignored + [|p.segments|]
  }

  lemma HeaderFields(p: Page)
    requires WellFormedPage(p)
    ensures var h := Header(p);
            |h| == 27 && h[0..4] == CAPTURE && h[26] == |p.segments| && HeaderGranule(h) == p.granule
    ensures Encode(p) == Header(p) + (p.segments + p.body)
  {
    var h := Header(p);
    assert h[6..14] == ToLittleEndian(Unsigned(p.granule), 8);
    GranuleRoundTrip(p.granule);
  }

  /** The scan of a page that stands at `at` takes its granule and moves to the byte after it. */
  lemma ScanPage(data: seq<Byte>, at: nat, p: Page, rest: seq<Byte>, total: int)
    requires WellFormedPage(p) && at <= |data| && data[at..] == Encode(p) + rest
    ensures at + |Encode(p)| <= |data| && data[at + |Encode(p)|..] == rest
    ensures Scan(data, at, total) == Scan(data, at + |Encode(p)|, Larger(total, p.granule))
  {
    HeaderFields(p);
    assert Encode(p) + rest == Header(p) + (p.segments + (p.body + rest));
    ScanParts(data, at, Header(p), p.segments, p.body, rest, total);
  }

  lemma ScanParts(data: seq<Byte>, at: nat, h: seq<Byte>, table: seq<Byte>, body: seq<Byte>, rest: seq<Byte>, total: int)
    requires |h| == 27 && h[0..4] == CAPTURE && h[26] == |table| && |body| == Sum(table)
    requires at <= |data| && data[at..] == h + (table + (body + rest))
    ensures var next := at + 27 + |table| + |body|;
            && next <= |data| && data[next..] == rest
            && Scan(data, at, total) == Scan(data, next, Larger(total, HeaderGranule(h)))
  {
    ThreeParts(data, at, h, table, body, rest);
    ScanStep(data, at, h, total);
  }

  lemma ThreeParts(data: seq<Byte>, at: nat, h: seq<Byte>, table: seq<Byte>, body: seq<Byte>, rest: seq<Byte>)
    requires at <= |data| && data[at..] == h + (table + (body + rest))
    ensures at + |h| + |table| + |body| <= |data|
    ensures data[at..at + |h|] == h && data[at + |h|..at + |h| + |table|] == table
    ensures data[at + |h| + |table| + |body|..] == rest
  {
    PrefixAt(data, at, h, table + (body + rest));
    PrefixAt(data, at + |h|, table, body + rest);
    PrefixAt(data, at + |h| + |table|, body, rest);
  }

  lemma PrefixAt(data: seq<Byte>, at: nat, e: seq<Byte>, rest: seq<Byte>)
    requires at <= |data| && data[at..] == e + rest
    ensures at + |e| <= |data| && data[at..at + |e|] == e && data[at + |e|..] == rest
  {
    var tail := data[at..];
    assert tail[..|e|] == e && tail[|e|..] == rest;
    assert data[at..at + |e|] == tail[..|e|] && data[at + |e|..] == tail[|e|..];
  }

  function LargestGranule(pages: seq<Page>, total: int): int {
    if pages == [] then total else LargestGranule(pages[1..], Larger(total, pages[0].granule))
  }

  lemma {:induction false} LargestIsLargest(pages: seq<Page>, total: int)
    ensures var m := LargestGranule(pages, total);
            m >= total && (forall p | p in pages :: m >= p.granule) && (m == total || exists p | p in pages :: p.granule == m)
  {
    if pages != [] {
      LargestIsLargest(pages[1..], Larger(total, pages[0].granule));
      assert pages == [pages[0]] + pages[1..];
    }
  }

  lemma {:induction false} ScanPages(data: seq<Byte>, at: nat, pages: seq<Page>, total: int)
    requires AllWellFormed(pages) && at <= |data| && data[at..] == EncodeAll(pages)
    ensures Scan(data, at, total) == LargestGranule(pages, total)
    decreases |pages|
  {
    if pages != [] {
      ScanPage(data, at, pages[0], EncodeAll(pages[1..]), total);
      ScanPages(data, at + |Encode(pages[0])|, pages[1..], Larger(total, pages[0].granule));
    }
  }

  /** Without a capture pattern before `stop`, the scan slides there byte by byte. */
  lemma {:induction false} ScanJunk(data: seq<Byte>, at: nat, stop: nat, total: int)
    requires at <= stop && stop + 27 <= |data| && (forall i | at <= i < stop :: !Captured(data, i))
    ensures Scan(data, at, total) == Scan(data, stop, total)
    decreases stop - at
  {
    if at < stop {
      ScanJunk(data, at + 1, stop, total);
    }
  }

  /** On pages in a row, after any bytes in which no capture pattern begins, the scan finds the largest
      signed granule position, or zero if none is positive. */
  lemma ScanFindsLargestGranule(junk: seq<Byte>, pages: seq<Page>)
    requires AllWellFormed(pages)
    requires forall i | 0 <= i < |junk| :: !Captured(junk + EncodeAll(pages), i)
    ensures var m := Scan(junk + EncodeAll(pages), 0, 0);
            m >= 0 && (forall p | p in pages :: m >= p.granule) && (m == 0 || exists p | p in pages :: p.granule == m)
  {
    var data := junk + EncodeAll(pages);
    assert data[|junk|..] == EncodeAll(pages);
    if pages == [] {
      ScanNothing(data, 0, 0);
    } else {
      HeaderFields(pages[0]);
      ScanJunk(data, 0, |junk|, 0);
      ScanPages(data, |junk|, pages, 0);
      LargestIsLargest(pages, 0);
    }
  }

  lemma {:induction false} ScanNothing(data: seq<Byte>, at: nat, total: int)
    requires forall i | at <= i < |data| :: !Captured(data, i)
    ensures Scan(data, at, total) == total
    decreases |data| - at
  {
    if at + 27 <= |data| {
      ScanNothing(data, at + 1, total);
    }
  }
}
