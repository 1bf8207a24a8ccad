/** Replayable request bodies (common/body_storage.go) and their usage ledger
    (common/disk_cache_config.go): a memory and a disk storage that refine one abstract object, the two
    ways of creating them, and the counters over every run of creations and closes. */
module BodyStorage {

  type Byte = b: int | 0 <= b < 256

  // ---------------------------------------------------------------- the abstract object

  datatype Body = Body(bytes: seq<Byte>, cursor: nat, closed: bool)

  datatype Error = StorageClosed | BadSeek | TooLarge | ReadFailed | DiskFailed | CannotOpen

  datatype Result<+T> = Ok(value: T) | Err(error: Error)

  /** What a read returns: some bytes, and whether it reports the end of the body. */
  datatype Chunk = Chunk(bytes: seq<Byte>, eof: bool)

  /** A read of up to `n` bytes takes the next bytes at the cursor, at least one if there is one and one
      is asked for, and reports the end only there. */
  ghost predicate Reads(b: Body, n: nat, r: Result<Chunk>, after: Body) {
    if b.closed then r == Err(StorageClosed) && after == b
    else
      && r.Ok?
      && |r.value.bytes| <= n
      && after == b.(cursor := b.cursor + |r.value.bytes|)
      && (r.value.bytes != [] ==> after.cursor <= |b.bytes| && r.value.bytes == b.bytes[b.cursor..after.cursor])
      && (r.value.eof ==> b.cursor >= |b.bytes|)
      && (r.value.bytes == [] && n > 0 ==> r.value.eof)
  }

  datatype Whence = FromStart | FromCurrent | FromEnd | Unknown

  function Target(b: Body, offset: int, whence: Whence): int {
    match whence
    case FromStart => offset
    case FromCurrent => b.cursor + offset
    case FromEnd => |b.bytes| + offset
    case Unknown => -1
  }

  /** A seek may go past the end but not before the start, and a seek that fails moves nothing. */
  function Seeks(b: Body, offset: int, whence: Whence): (Result<nat>, Body) {
    if b.closed then (Err(StorageClosed), b)
    else if Target(b, offset, whence) < 0 then (Err(BadSeek), b)
    else (Ok(Target(b, offset, whence)), b.(cursor := Target(b, offset, whence)))
  }

  /** A run of successful reads: each state follows from the one before it. */
  ghost predicate ReadRun(states: seq<Body>, sizes: seq<nat>, chunks: seq<Chunk>) {
    && |states| == |chunks| + 1 && |sizes| == |chunks|
    && forall i | 0 <= i < |chunks| :: Reads(states[i], sizes[i], Ok(chunks[i]), states[i + 1])
  }

  function Concat(chunks: seq<Chunk>): seq<Byte> {
    if chunks == [] then [] else Concat(chunks[..|chunks| - 1]) + chunks[|chunks| - 1].bytes
  }

  lemma ReadExtends(b: Body, n: nat, chunk: Chunk, after: Body)
    requires Reads(b, n, Ok(chunk), after) && b.cursor <= |b.bytes|
    ensures after.bytes == b.bytes && after.cursor <= |b.bytes|
    ensures b.cursor <= after.cursor && chunk.bytes == b.bytes[b.cursor..after.cursor]
    ensures chunk.eof ==> after.cursor == |b.bytes|
  {
  }

  /** Whatever sizes are asked for and whatever part of them each read returns, the pieces read from the
      cursor on up to the end add up to the rest of the body. */
  lemma {:induction false} ReadsAddUp(states: seq<Body>, sizes: seq<nat>, chunks: seq<Chunk>)
    requires ReadRun(states, sizes, chunks) && states[0].cursor <= |states[0].bytes|
    ensures states[|chunks|].bytes == states[0].bytes
    ensures states[0].cursor <= states[|chunks|].cursor <= |states[0].bytes|
    ensures Concat(chunks) == states[0].bytes[states[0].cursor..states[|chunks|].cursor]
    ensures chunks != [] && chunks[|chunks| - 1].eof ==> Concat(chunks) == states[0].bytes[states[0].cursor..]
  {
    if chunks != [] {
      var n := |chunks| - 1;
      FrontRun(states, sizes, chunks);
      ReadsAddUp(states[..n + 1], sizes[..n], chunks[..n]);
      ReadExtends(states[n], sizes[n], chunks[n], states[n + 1]);
      Adjacent(states[0].bytes, states[0].cursor, states[n].cursor, states[n + 1].cursor);
    }
  }

  lemma FrontRun(states: seq<Body>, sizes: seq<nat>, chunks: seq<Chunk>)
    requires ReadRun(states, sizes, chunks) && chunks != []
    ensures var n := |chunks| - 1;
            && ReadRun(states[..n + 1], sizes[..n], chunks[..n])
            && Reads(states[n], sizes[n], Ok(chunks[n]), states[n + 1])
  {
  }

  lemma Adjacent(bytes: seq<Byte>, a: nat, b: nat, c: nat)
    requires a <= b <= c <= |bytes|
    ensures bytes[a..b] + bytes[b..c] == bytes[a..c]
  {
  }

  /** Where a seek goes: to the offset, counted from the start, the cursor or the end; anything before the start
      and any other origin is refused, as is any seek in a closed storage, with the cursor where it was. */
  lemma SeekGoes(b: Body, offset: int, whence: Whence)
    ensures var (r, after) := Seeks(b, offset, whence);
            && after.bytes == b.bytes && after.closed == b.closed
            && (b.closed ==> r == Err(StorageClosed) && after.cursor == b.cursor)
            && (!b.closed && r.Ok? ==> r.value == after.cursor)
            && (!b.closed && r.Err? ==> r == Err(BadSeek) && after.cursor == b.cursor)
            && (!b.closed && whence.FromStart? ==> (r.Ok? <==> offset >= 0) && (r.Ok? ==> r.value == offset))
            && (!b.closed && whence.FromCurrent? ==>
                  (r.Ok? <==> b.cursor + offset >= 0) && (r.Ok? ==> r.value - b.cursor == offset))
            && (!b.closed && whence.FromEnd? ==>
                  (r.Ok? <==> |b.bytes| + offset >= 0) && (r.Ok? ==> r.value - |b.bytes| == offset))
            && (!b.closed && whence.Unknown? ==> r.Err?)
  {
  }

  // ---------------------------------------------------------------- the ledger

  datatype Counters = Counters(diskFiles: int, diskBytes: int, memoryBuffers: int, memoryBytes: int,
                               diskHits: int, memoryHits: int)

  const NOTHING := Counters(0, 0, 0, 0, 0, 0)

  function Clamped(x: int): int {
    if x < 0 then 0 else x
  }

  /** The counters after a storage of `size` bytes is opened or closed. */
  function Opened(c: Counters, onDisk: bool, size: nat): Counters {
    if onDisk then c.(diskFiles := c.diskFiles + 1, diskBytes := c.diskBytes + size)
    else c.(memoryBuffers := c.memoryBuffers + 1, memoryBytes := c.memoryBytes + size)
  }

  function Closed(c: Counters, onDisk: bool, size: nat): Counters {
    if onDisk then c.(diskFiles := Clamped(c.diskFiles - 1), diskBytes := Clamped(c.diskBytes - size))
    else c.(memoryBuffers := c.memoryBuffers - 1, memoryBytes := c.memoryBytes - size)
  }

  function Hit(c: Counters, onDisk: bool): Counters {
    if onDisk then c.(diskHits := c.diskHits + 1) else c.(memoryHits := c.memoryHits + 1)
  }

  class Ledger {
    var diskFiles: int
    var diskBytes: int
    var memoryBuffers: int
    var memoryBytes: int
    var diskHits: int
    var memoryHits: int

    function Value(): Counters
      reads this
    {
      Counters(diskFiles, diskBytes, memoryBuffers, memoryBytes, diskHits, memoryHits)
    }

    method Increment(onDisk: bool, size: nat)
      modifies this
      ensures Value() == Opened(old(Value()), onDisk, size)
      ensures diskFiles - old(diskFiles) == (if onDisk then 1 else 0) && diskBytes - old(diskBytes) == (if onDisk then size else 0)
      ensures memoryBuffers - old(memoryBuffers) == (if onDisk then 0 else 1)
      ensures memoryBytes - old(memoryBytes) == (if onDisk then 0 else size)
      ensures diskHits == old(diskHits) && memoryHits == old(memoryHits)
    {
      if onDisk {
        diskFiles := diskFiles + 1;
        diskBytes := diskBytes + size;
      } else {
        memoryBuffers := memoryBuffers + 1;
        memoryBytes := memoryBytes + size;
      }
    }

    /** DecrementDiskFiles and DecrementMemoryBuffers: only the disk counters are kept from going below
        zero. */
    method Decrement(onDisk: bool, size: nat)
      modifies this
      ensures Value() == Closed(old(Value()), onDisk, size)
      ensures onDisk ==> diskFiles == (if old(diskFiles) < 1 then 0 else old(diskFiles) - 1)
      ensures onDisk ==> diskBytes == (if old(diskBytes) < size then 0 else old(diskBytes) - size)
      ensures onDisk ==> memoryBuffers == old(memoryBuffers) && memoryBytes == old(memoryBytes)
      ensures !onDisk ==> memoryBuffers == old(memoryBuffers) - 1 && memoryBytes == old(memoryBytes) - size
      ensures !onDisk ==> diskFiles == old(diskFiles) && diskBytes == old(diskBytes)
      ensures diskHits == old(diskHits) && memoryHits == old(memoryHits)
    {
      if onDisk {
        diskFiles := diskFiles - 1;
        if diskFiles < 0 {
          diskFiles := 0;
        }
        diskBytes := diskBytes - size;
        if diskBytes < 0 {
          diskBytes := 0;
        }
      } else {
        memoryBuffers := memoryBuffers - 1;
        memoryBytes := memoryBytes - size;
      }
    }

    method RecordHit(onDisk: bool)
      modifies this
      ensures Value() == Hit(old(Value()), onDisk)
      ensures diskHits - old(diskHits) == (if onDisk then 1 else 0) && memoryHits - old(memoryHits) == (if onDisk then 0 else 1)
    {
      if onDisk {
        diskHits := diskHits + 1;
      } else {
        memoryHits := memoryHits + 1;
      }
    }
  }

  // ---------------------------------------------------------------- readers and files

  /** bytes.Reader. */
  class Reader {
    const data: seq<Byte>
    var cursor: nat

    constructor (data: seq<Byte>)
      ensures View() == Body(data, 0, false)
    {
      this.data, cursor := data, 0;
    }

    function View(): Body
      reads this
    {
      Body(data, cursor, false)
    }

    method Read(n: nat) returns (r: Result<Chunk>)
      modifies this
      ensures Reads(old(View()), n, r, View())
      ensures old(cursor) <= |data| ==> |r.value.bytes| == if n < |data| - old(cursor) then n else |data| - old(cursor)
    {
      if cursor >= |data| {
        return Ok(Chunk([], true));
      }
      var m := if n < |data| - cursor then n else |data| - cursor;
      r := Ok(Chunk(data[cursor..cursor + m], false));
      cursor := cursor + m;
    }

    method Seek(offset: int, whence: Whence) returns (r: Result<nat>)
      modifies this
      ensures (r, View()) == Seeks(old(View()), offset, whence)
    {
      var target := Target(View(), offset, whence);
      if target < 0 {
        return Err(BadSeek);
      }
      cursor := target;
      return Ok(target);
    }
  }

  /** An open file: its bytes, its position, and how many bytes the system hands out at each position. */
  class File {
    const contents: seq<Byte>
    const granted: nat -> nat
    var position: nat

    constructor (contents: seq<Byte>, granted: nat -> nat)
      ensures View() == Body(contents, 0, false)
    {
      this.contents, this.granted, position := contents, granted, 0;
    }

    function View(): Body
      reads this
    {
      Body(contents, position, false)
    }

    method Read(n: nat) returns (r: Result<Chunk>)
      modifies this
      ensures Reads(old(View()), n, r, View())
    {
      if n == 0 {
        return Ok(Chunk([], false));
      }
      if position >= |contents| {
        return Ok(Chunk([], true));
      }
      var available := if n < |contents| - position then n else |contents| - position;
      var granted := this.granted(position);
      var m := if 0 < granted < available then granted else available;
      r := Ok(Chunk(contents[position..position + m], false));
      position := position + m;
    }

    method Seek(offset: int, whence: Whence) returns (r: Result<nat>)
      modifies this
      ensures (r, View()) == Seeks(old(View()), offset, whence)
    {
      var target := Target(View(), offset, whence);
      if target < 0 {
        return Err(BadSeek);
      }
      position := target;
      return Ok(target);
    }

    /** io.ReadFull: it reads on until it has all `n` bytes or the file ends. */
    method ReadFull(n: nat) returns (data: seq<Byte>)
      modifies this
      ensures old(position) <= |contents| ==>
                && position == old(position) + |data|
                && |data| == (if n < |contents| - old(position) then n else |contents| - old(position))
                && data == contents[old(position)..position]
    {
      data := [];
      if position > |contents| {
        return;
      }
      ghost var start := position;
      while |data| < n && position < |contents|
        invariant start <= position <= |contents| && |data| <= n
        invariant data == contents[start..position]
        decreases |contents| - position
      {
        var chunk := Read(n - |data|);
        data := data + chunk.value.bytes;
      }
    }
  }

  // ---------------------------------------------------------------- the two storages

  class MemoryStorage {
    const ledger: Ledger
    const data: seq<Byte>
    const reader: Reader
    var closed: bool

    ghost predicate Valid()
      reads this, reader
    {
      reader.data == data
    }

    function View(): Body
      reads this, reader
    {
      Body(data, reader.cursor, closed)
    }

    /** newMemoryStorage. */
    constructor (data: seq<Byte>, ledger: Ledger)
      modifies ledger
      ensures Valid() && View() == Body(data, 0, false) && fresh(reader) && this.ledger == ledger
      ensures ledger.Value() == Opened(old(ledger.Value()), false, |data|)
    {
      this.ledger, this.data, closed := ledger, data, false;
      reader := new Reader(data);
      new;
      ledger.Increment(false, |data|);
    }

    method Read(n: nat) returns (r: Result<Chunk>)
      requires Valid()
      modifies reader
      ensures Valid() && Reads(old(View()), n, r, View())
    {
      if closed {
        return Err(StorageClosed);
      }
      r := reader.Read(n);
    }

    method Seek(offset: int, whence: Whence) returns (r: Result<nat>)
      requires Valid()
      modifies reader
      ensures Valid() && (r, View()) == Seeks(old(View()), offset, whence)
    {
      if closed {
        return Err(StorageClosed);
      }
      r := reader.Seek(offset, whence);
    }

    /** Close gives the size back once. */
    method Close()
      requires Valid()
      modifies this`closed, ledger
      ensures Valid() && View() == old(View()).(closed := true)
      ensures ledger.Value() == if old(closed) then old(ledger.Value()) else Closed(old(ledger.Value()), false, |data|)
    {
      if !closed {
        closed := true;
        ledger.Decrement(false, |data|);
      }
    }

    method Bytes() returns (r: Result<seq<Byte>>)
      requires Valid()
      ensures r == if closed then Err(StorageClosed) else Ok(View().bytes)
    {
      return if closed then Err(StorageClosed) else Ok(data);
    }

    /** An independent reader at the start of the body. */
    method NewReader() returns (r: Result<Reader>)
      requires Valid()
      ensures closed <==> r == Err(StorageClosed)
      ensures !closed ==> r.Ok? && fresh(r.value) && r.value.View() == Body(View().bytes, 0, false)
    {
      if closed {
        return Err(StorageClosed);
      }
      var reader := new Reader(data);
      return Ok(reader);
    }
  }

  class DiskStorage {
    const ledger: Ledger
    const file: File
    const size: nat
    var closed: bool

    ghost predicate Valid()
      reads this
    {
      size == |file.contents|
    }

    function View(): Body
      reads this, file
    {
      Body(file.contents, file.position, closed)
    }

    /** The end of newDiskStorage and of newDiskStorageFromReader: a file that holds the data, rewound. */
    constructor (data: seq<Byte>, granted: nat -> nat, ledger: Ledger)
      modifies ledger
      ensures Valid() && View() == Body(data, 0, false) && fresh(file) && this.ledger == ledger
      ensures ledger.Value() == Opened(old(ledger.Value()), true, |data|)
    {
      this.ledger, size, closed := ledger, |data|, false;
      file := new File(data, granted);
      new;
      ledger.Increment(true, |data|);
    }

    method Read(n: nat) returns (r: Result<Chunk>)
      requires Valid()
      modifies file
      ensures Valid() && Reads(old(View()), n, r, View())
    {
      if closed {
        return Err(StorageClosed);
      }
      r := file.Read(n);
    }

    method Seek(offset: int, whence: Whence) returns (r: Result<nat>)
      requires Valid()
      modifies file
      ensures Valid() && (r, View()) == Seeks(old(View()), offset, whence)
    {
      if closed {
        return Err(StorageClosed);
      }
      r := file.Seek(offset, whence);
    }

    method Close()
      requires Valid()
      modifies this`closed, ledger
      ensures Valid() && View() == old(View()).(closed := true)
      ensures ledger.Value() == if old(closed) then old(ledger.Value()) else Closed(old(ledger.Value()), true, size)
    {
      if !closed {
        closed := true;
        ledger.Decrement(true, size);
      }
    }

    /** Bytes reads the whole file whatever the system's portions are, and leaves the cursor where it was. */
    method Bytes() returns (r: Result<seq<Byte>>)
      requires Valid()
      modifies file
      ensures Valid() && View() == old(View())
      ensures r == if closed then Err(StorageClosed) else Ok(View().bytes)
    {
      if closed {
        return Err(StorageClosed);
      }
      var current := file.Seek(0, FromCurrent);
      var _ := file.Seek(0, FromStart);
      var data := file.ReadFull(size);
      assert data == file.contents;
      var _ := file.Seek(current.value, FromStart);
      return Ok(data);
    }

    /** A second descriptor over the same file; `opens` is whether the system can open it. */
    method NewReader(opens: bool) returns (r: Result<File>)
      requires Valid()
      ensures closed <==> r == Err(StorageClosed)
      ensures !closed && !opens ==> r == Err(CannotOpen)
      ensures !closed && opens ==> r.Ok? && fresh(r.value) && r.value.View() == Body(View().bytes, 0, false)
    {
      if closed {
        return Err(StorageClosed);
      }
      if !opens {
        return Err(CannotOpen);
      }
      var reader := new File(file.contents, file.granted);
      return Ok(reader);
    }
  }

  // ---------------------------------------------------------------- independent readers

  /** What may happen while a reader is open: a read by that reader, or anything else done with the storage,
      including closing it and opening and reading another reader. */
  datatype Use = ReadHere(n: nat) | ReadStorage(n: nat) | SeekStorage(offset: int, whence: Whence) | AllBytes | CloseStore
               | ReadAnother(n: nat)

  /** Whatever is interleaved with the reads of a reader, what it delivers adds up to the whole body. */
  method ReplayFromDisk(d: DiskStorage, uses: seq<Use>) returns (replayed: seq<Byte>)
    requires d.Valid() && !d.closed
    modifies d, d.file, d.ledger
    ensures d.Valid() && d.View().bytes == old(d.View()).bytes
    ensures replayed == old(d.View()).bytes
  {
    var attempt := d.NewReader(true);
    var reader := attempt.value;
    replayed := [];
    for i := 0 to |uses|
      invariant d.Valid() && reader != d.file && fresh(reader) && reader.contents == d.file.contents
      invariant reader.position <= |reader.contents| && replayed == reader.contents[..reader.position]
    {
      if uses[i].ReadHere? {
        var chunk := reader.Read(uses[i].n);
        replayed := replayed + chunk.value.bytes;
      } else {
        UseDisk(d, uses[i]);
      }
    }
    var rest := reader.ReadFull(|reader.contents|);
    replayed := replayed + rest;
  }

  /** One use of a disk storage by somebody else. */
  method UseDisk(d: DiskStorage, use: Use)
    requires d.Valid()
    modifies d, d.file, d.ledger
    ensures d.Valid()
  {
    match use {
      case ReadHere(_) =>
      case ReadStorage(n) => var _ := d.Read(n);
      case SeekStorage(offset, whence) => var _ := d.Seek(offset, whence);
      case AllBytes => var _ := d.Bytes();
      case CloseStore => d.Close();
      case ReadAnother(n) =>
        var other := d.NewReader(true);
        if other.Ok? {
          var _ := other.value.Read(n);
        }
    }
  }

  method ReplayFromMemory(m: MemoryStorage, uses: seq<Use>) returns (replayed: seq<Byte>)
    requires m.Valid() && !m.closed
    modifies m, m.reader, m.ledger
    ensures m.Valid() && m.View().bytes == old(m.View()).bytes
    ensures replayed == old(m.View()).bytes
  {
    var attempt := m.NewReader();
    var reader := attempt.value;
    replayed := [];
    for i := 0 to |uses|
      invariant m.Valid() && reader != m.reader && fresh(reader) && reader.data == m.data
      invariant reader.cursor <= |reader.data| && replayed == reader.data[..reader.cursor]
    {
      if uses[i].ReadHere? {
        var chunk := reader.Read(uses[i].n);
        replayed := replayed + chunk.value.bytes;
      } else {
        UseMemory(m, uses[i]);
      }
    }
    var rest := reader.Read(|reader.data|);
    replayed := replayed + rest.value.bytes;
  }

  method UseMemory(m: MemoryStorage, use: Use)
    requires m.Valid()
    modifies m, m.reader, m.ledger
    ensures m.Valid()
  {
    match use {
      case ReadHere(_) =>
      case ReadStorage(n) => var _ := m.Read(n);
      case SeekStorage(offset, whence) => var _ := m.Seek(offset, whence);
      case AllBytes => var _ := m.Bytes();
      case CloseStore => m.Close();
      case ReadAnother(n) =>
        var other := m.NewReader();
        if other.Ok? {
          var _ := other.value.Read(n);
        }
    }
  }

  // ---------------------------------------------------------------- creation

  datatype Storage = InMemory(memory: MemoryStorage) | OnDisk(disk: DiskStorage)

  ghost function Footprint(s: Storage): set<object> {
    match s
    case InMemory(m) => {m, m.reader}
    case OnDisk(d) => {d, d.file}
  }

  ghost function ViewOf(s: Storage): Body
    reads Footprint(s)
  {
    match s
    case InMemory(m) => m.View()
    case OnDisk(d) => d.View()
  }

  ghost predicate IsValid(s: Storage)
    reads Footprint(s)
  {
    match s
    case InMemory(m) => m.Valid()
    case OnDisk(d) => d.Valid()
  }

  /** The disk cache settings, in bytes. */
  datatype Config = Config(enabled: bool, threshold: int, limit: int)

  /** How far the system gets with a new cache file. */
  datatype DiskFate = Works | CreateFails | WriteFails | SeekFails

  /** IsDiskCacheAvailable. */
  predicate Available(cfg: Config, usage: int, size: int) {
    cfg.enabled && usage + size <= cfg.limit
  }

  /** Whether a body of this size goes to disk. */
  predicate ToDisk(cfg: Config, usage: int, size: nat, fate: DiskFate) {
    cfg.enabled && size >= cfg.threshold && Available(cfg, usage, size) && fate.Works?
  }

  /** Whether a stream is copied straight to disk, by its declared length. */
  predicate Direct(cfg: Config, usage: int, declared: int) {
    cfg.enabled && declared > 0 && declared >= cfg.threshold && Available(cfg, usage, declared)
  }

  /** Whether a stream of `size` bytes becomes a storage: it must be short enough and readable, and the
      disk must work when it is copied straight there. */
  predicate Accepted(cfg: Config, usage: int, size: nat, fails: bool, declared: int, maxBytes: int, fate: DiskFate) {
    size <= maxBytes && !fails && (Direct(cfg, usage, declared) ==> fate.Works?)
  }

  predicate StreamToDisk(cfg: Config, usage: int, size: nat, declared: int, fate: DiskFate) {
    Direct(cfg, usage, declared) || ToDisk(cfg, usage, size, fate)
  }

  /** CreateBodyStorage: it always succeeds, in memory when the disk does not work. */
  method Create(cfg: Config, data: seq<Byte>, fate: DiskFate, granted: nat -> nat, ledger: Ledger) returns (s: Storage)
    modifies ledger
    ensures IsValid(s) && ViewOf(s) == Body(data, 0, false) && fresh(Footprint(s))
    ensures s.OnDisk? <==> ToDisk(cfg, old(ledger.diskBytes), |data|, fate)
    ensures s.OnDisk? <==>
            cfg.enabled && |data| >= cfg.threshold && old(ledger.diskBytes) + |data| <= cfg.limit && fate.Works?
    ensures ledger.Value() == Opened(old(ledger.Value()), s.OnDisk?, |data|)
  {
    if cfg.enabled && |data| >= cfg.threshold && Available(cfg, ledger.diskBytes, |data|) {
      if fate.Works? {
        var disk := new DiskStorage(data, granted, ledger);
        return OnDisk(disk);
      }
    }
    var memory := new MemoryStorage(data, ledger);
    return InMemory(memory);
  }

  /** A request body as it arrives: its bytes, and whether reading fails after them. */
  datatype Source = Source(bytes: seq<Byte>, fails: bool)

  /** What io.LimitReader lets through, and whether the reading error is reached before the limit. */
  function Limited(source: Source, limit: int): (seq<Byte>, bool) {
    if limit <= 0 then ([], false)
    else if |source.bytes| >= limit then (source.bytes[..limit], false)
    else (source.bytes, source.fails)
  }

  /** CreateBodyStorageFromReader: a storage exactly when the stream is short enough and readable (and
      the disk works, for a stream copied straight there), with identical contents, and a size error
      only for a stream that is too long. Only a storage that is handed out is counted. */
  method CreateFromReader(cfg: Config, source: Source, declared: int, maxBytes: int, fate: DiskFate, granted: nat -> nat,
                          ledger: Ledger)
    returns (r: Result<Storage>)
    modifies ledger
    ensures r.Ok? <==> Accepted(cfg, old(ledger.diskBytes), |source.bytes|, source.fails, declared, maxBytes, fate)
    ensures r.Ok? ==> (r.value.OnDisk? <==> StreamToDisk(cfg, old(ledger.diskBytes), |source.bytes|, declared, fate))
    ensures var size, usage := |source.bytes|, old(ledger.diskBytes);
            var direct := cfg.enabled && declared > 0 && declared >= cfg.threshold && usage + declared <= cfg.limit;
            && (r.Ok? <==> size <= maxBytes && !source.fails && (direct ==> fate.Works?))
            && (r.Ok? ==>
                  (r.value.OnDisk? <==>
                   direct || (cfg.enabled && size >= cfg.threshold && usage + size <= cfg.limit && fate.Works?)))
            && (r == Err(TooLarge) <==> size > maxBytes && !(direct && (fate.CreateFails? || fate.WriteFails?)))
            && (r == Err(ReadFailed) <==> size <= maxBytes && source.fails && !direct)
            && (r.Err? ==> r.error.TooLarge? || r.error.ReadFailed? || r.error.DiskFailed?)
    ensures r.Ok? ==> IsValid(r.value) && ViewOf(r.value) == Body(source.bytes, 0, false) && fresh(Footprint(r.value))
    ensures ledger.Value() == if r.Ok? then Hit(Opened(old(ledger.Value()), r.value.OnDisk?, |source.bytes|), r.value.OnDisk?)
                              else old(ledger.Value())
  {
    var (data, failed) := Limited(source, maxBytes + 1);
    if Direct(cfg, ledger.diskBytes, declared) {
      if fate.CreateFails? || fate.WriteFails? || failed {
        return Err(DiskFailed);
      }
      if |data| > maxBytes {
        return Err(TooLarge);
      }
      if fate.SeekFails? {
        return Err(DiskFailed);
      }
      var disk := new DiskStorage(data, granted, ledger);
      ledger.RecordHit(true);
      return Ok(OnDisk(disk));
    }
    if failed {
      return Err(ReadFailed);
    }
    if |data| > maxBytes {
      return Err(TooLarge);
    }
    var storage := Create(cfg, data, fate, granted, ledger);
    ledger.RecordHit(storage.OnDisk?);
    return Ok(storage);
  }

  // ---------------------------------------------------------------- runs

  datatype Record = Record(size: nat, onDisk: bool, open: bool)

  /** The counters and every storage ever created; a storage is its position. */
  datatype State = State(counters: Counters, records: seq<Record>)

  datatype Event =
    | CreateBytes(size: nat, fate: DiskFate)
    | CreateStream(size: nat, fails: bool, declared: int, maxBytes: int, fate: DiskFate)
    | CloseStorage(ticket: nat)

  const START := State(NOTHING, [])

  function Adding(s: State, onDisk: bool, size: nat): State {
    State(Opened(s.counters, onDisk, size), s.records + [Record(size, onDisk, true)])
  }

  /** One call of the creating functions or of Close, as their contracts above describe it. */
  function Apply(cfg: Config, s: State, e: Event): State {
    var usage := s.counters.diskBytes;
    match e
    case CreateBytes(size, fate) => Adding(s, ToDisk(cfg, usage, size, fate), size)
    case CreateStream(size, fails, declared, maxBytes, fate) =>
      if Accepted(cfg, usage, size, fails, declared, maxBytes, fate) then
        var onDisk := StreamToDisk(cfg, usage, size, declared, fate);
        var t := Adding(s, onDisk, size);
        t.(counters := Hit(t.counters, onDisk))
      else s
    case CloseStorage(ticket) =>
      if ticket < |s.records| && s.records[ticket].open then
        var r := s.records[ticket];
        State(Closed(s.counters, r.onDisk, r.size), s.records[ticket := r.(open := false)])
      else s
  }

  function ApplyAll(cfg: Config, events: seq<Event>): State {
    if events == [] then START else Apply(cfg, ApplyAll(cfg, events[..|events| - 1]), events[|events| - 1])
  }

  ghost predicate Counted(r: Record, onDisk: bool) {
    r.open && r.onDisk == onDisk
  }

  /** The number and the total size of the open storages of one kind. */
  ghost function OpenCount(records: seq<Record>, onDisk: bool): nat {
    if records == [] then 0 else OpenCount(records[1..], onDisk) + if Counted(records[0], onDisk) then 1 else 0
  }

  ghost function OpenBytes(records: seq<Record>, onDisk: bool): nat {
    if records == [] then 0 else OpenBytes(records[1..], onDisk) + if Counted(records[0], onDisk) then records[0].size else 0
  }

  lemma {:induction false} OpenAppend(records: seq<Record>, r: Record, onDisk: bool)
    requires r.open
    ensures OpenCount(records + [r], onDisk) == OpenCount(records, onDisk) + if r.onDisk == onDisk then 1 else 0
    ensures OpenBytes(records + [r], onDisk) == OpenBytes(records, onDisk) + if r.onDisk == onDisk then r.size else 0
  {
    if records == [] {
      assert (records + [r])[1..] == [];
    } else {
      assert (records + [r])[1..] == records[1..] + [r];
      OpenAppend(records[1..], r, onDisk);
    }
  }

  lemma {:induction false} OpenClose(records: seq<Record>, i: nat, onDisk: bool)
    requires i < |records| && records[i].open
    ensures var less := records[i := records[i].(open := false)];
            && OpenCount(records, onDisk) == OpenCount(less, onDisk) + (if records[i].onDisk == onDisk then 1 else 0)
            && OpenBytes(records, onDisk) == OpenBytes(less, onDisk) + (if records[i].onDisk == onDisk then records[i].size else 0)
  {
    var less := records[i := records[i].(open := false)];
    if i == 0 {
      assert less[1..] == records[1..];
    } else {
      assert less[1..] == records[1..][i - 1 := less[i]];
      OpenClose(records[1..], i - 1, onDisk);
    }
  }

  /** The counters are the number and the total size of the open storages. */
  ghost predicate Balanced(s: State) {
    && s.counters.diskFiles == OpenCount(s.records, true) && s.counters.diskBytes == OpenBytes(s.records, true)
    && s.counters.memoryBuffers == OpenCount(s.records, false) && s.counters.memoryBytes == OpenBytes(s.records, false)
  }

  lemma StepBalanced(cfg: Config, s: State, e: Event)
    requires Balanced(s)
    ensures Balanced(Apply(cfg, s, e))
  {
    if e.CloseStorage? {
      if e.ticket < |s.records| && s.records[e.ticket].open {
        OpenClose(s.records, e.ticket, true);
        OpenClose(s.records, e.ticket, false);
      }
    } else {
      var usage := s.counters.diskBytes;
      var onDisk := if e.CreateBytes? then ToDisk(cfg, usage, e.size, e.fate) else StreamToDisk(cfg, usage, e.size, e.declared, e.fate);
      OpenAppend(s.records, Record(e.size, onDisk, true), true);
      OpenAppend(s.records, Record(e.size, onDisk, true), false);
    }
  }

  /** After every run of creations and closes, whatever fails on the way, the counters are the number and
      the total size of the open storages. */
  lemma {:induction false} CountersMatchOpenStorages(cfg: Config, events: seq<Event>)
    ensures Balanced(ApplyAll(cfg, events))
  {
    if events != [] {
      CountersMatchOpenStorages(cfg, events[..|events| - 1]);
      StepBalanced(cfg, ApplyAll(cfg, events[..|events| - 1]), events[|events| - 1]);
    }
  }

  // ---------------------------------------------------------------- the limit

  ghost predicate Within(cfg: Config, events: seq<Event>) {
    var files := OpenBytes(ApplyAll(cfg, events).records, true);
    files == 0 || files <= cfg.limit
  }

  ghost predicate AllAllowed(allowed: Event -> bool, events: seq<Event>) {
    forall e | e in events :: allowed(e)
  }

  /** In every run of the allowed events the open files stay within the limit. */
  ghost predicate AlwaysWithin(cfg: Config, allowed: Event -> bool) {
    forall events | AllAllowed(allowed, events) :: Within(cfg, events)
  }

  predicate Honest(e: Event) {
    e.CreateStream? && e.size <= e.declared
  }

  /** A stream that is copied straight to disk when there is room for what it declares. */
  predicate CopiedStraight(cfg: Config, e: Event) {
    && e.CreateStream? && Direct(cfg, 0, e.declared)
    && e.size <= e.maxBytes && !e.fails && e.fate.Works?
  }

  /** One event keeps the files within the limit unless it is copied straight and understates its size. */
  lemma StepWithin(cfg: Config, events: seq<Event>)
    requires events != [] && Within(cfg, events[..|events| - 1])
    requires var e := events[|events| - 1]; CopiedStraight(cfg, e) ==> e.size <= e.declared
    ensures Within(cfg, events)
  {
    CountersMatchOpenStorages(cfg, events);
    CountersMatchOpenStorages(cfg, events[..|events| - 1]);
  }

  lemma {:induction false} HonestRunsStayWithin(cfg: Config, events: seq<Event>)
    requires forall e | e in events && CopiedStraight(cfg, e) :: e.size <= e.declared
    ensures Within(cfg, events)
  {
    if events != [] {
      HonestRunsStayWithin(cfg, events[..|events| - 1]);
      assert events[|events| - 1] in events;
      StepWithin(cfg, events);
    }
  }

  /** An honest stream that leaves exactly the room `declared`. */
  function Filler(cfg: Config, declared: int): Event
    requires declared <= cfg.limit
  {
    var rest := cfg.limit - declared;
    CreateStream(rest, false, if rest < cfg.threshold then cfg.threshold else rest, rest, Works)
  }

  /** A stream that is copied straight and understates its size exceeds the limit after the filler. */
  lemma UnderstatedLengthExceedsLimit(cfg: Config, e: Event)
    requires CopiedStraight(cfg, e) && e.size > e.declared
    ensures Honest(Filler(cfg, e.declared)) && !Within(cfg, [Filler(cfg, e.declared), e])
  {
    var f := Filler(cfg, e.declared);
    var events := [f, e];
    assert events[..1] == [f] && [f][..0] == [];
    assert ApplyAll(cfg, [f]) == Apply(cfg, START, f);
    assert ApplyAll(cfg, events) == Apply(cfg, Apply(cfg, START, f), e);
    CountersMatchOpenStorages(cfg, events);
  }

  /** Where every honest stream may arrive, the open files stay within the limit in every run if and only if
      no stream that is copied straight to disk is longer than it declares. */
  lemma UsageWithinLimit(cfg: Config, allowed: Event -> bool)
    requires forall e | Honest(e) :: allowed(e)
    ensures AlwaysWithin(cfg, allowed) <==> forall e | allowed(e) && CopiedStraight(cfg, e) :: e.size <= e.declared
  {
    if forall e | allowed(e) && CopiedStraight(cfg, e) :: e.size <= e.declared {
      forall events | AllAllowed(allowed, events) ensures Within(cfg, events) {
        HonestRunsStayWithin(cfg, events);
      }
    } else {
      var e :| allowed(e) && CopiedStraight(cfg, e) && e.size > e.declared;
      UnderstatedLengthExceedsLimit(cfg, e);
      assert AllAllowed(allowed, [Filler(cfg, e.declared), e]);
    }
  }
}
