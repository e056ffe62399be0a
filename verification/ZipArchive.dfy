/**
 Preflight of an uploaded ZIP archive and bounded reads of one entry
 (crates/instagram-archive/src/data_export/archive.rs; sections 4.3.7, 4.3.12 and 4.3.16 of
 PKWARE APPNOTE.TXT).

 `Preflight` is what the reader loop computes, error by error.  `Laid` says what an accepted archive
 looks like without mentioning the loop, and `Print` is a writer.
 */
module ZipArchive {
  import opened Prelude

  type byte = x: int | 0 <= x < 256

  datatype FailureClass = Malformed | DuplicateEntry | UnsupportedEncoding | ResourceLimit

  datatype ArchiveError = ArchiveError(kind: FailureClass, rule: string)

  datatype Limits = Limits(maxEntries: nat, maxEntryPathBytes: nat)

  const CENTRAL_SIGNATURE: seq<byte> := [0x50, 0x4b, 0x01, 0x02]
  const LOCAL_SIGNATURE: seq<byte> := [0x50, 0x4b, 0x03, 0x04]
  const EOCD_SIGNATURE: seq<byte> := [0x50, 0x4b, 0x05, 0x06]
  const EOCD_MINIMUM: nat := 22
  const EOCD_SEARCH: nat := 22 + 65535

  function Failure<T>(rule: string): Result<T, ArchiveError> {
    Err(ArchiveError(Malformed, rule))
  }

  function Refusal<T>(kind: FailureClass, rule: string): Result<T, ArchiveError> {
    Err(ArchiveError(kind, rule))
  }

  // ---------------------------------------------------------------- fields

  function U16(data: seq<byte>, at: nat): (n: nat)
    requires at + 2 <= |data|
    ensures n < 65536
  {
    data[at] as int + 256 * data[at + 1] as int
  }

  function U32(data: seq<byte>, at: nat): (n: nat)
    requires at + 4 <= |data|
    ensures n < 0x1_0000_0000
  {
    U16(data, at) + 65536 * U16(data, at + 2)
  }

  predicate Signed(data: seq<byte>, at: nat, signature: seq<byte>) {
    at + 4 <= |data| && data[at..at + 4] == signature
  }

  // ---------------------------------------------------------------- end of central directory

  /** A record at `at` whose comment ends with the file. */
  predicate Closes(data: seq<byte>, at: nat) {
    Signed(data, at, EOCD_SIGNATURE) && at + 22 <= |data| && at + 22 + U16(data, at + 20) == |data|
  }

  /** The last closing position below `end` and not below `from`. */
  function LastClosing(data: seq<byte>, from: nat, end: nat): (r: Option<nat>)
    requires from <= end
    ensures r.Some? ==> from <= r.value < end && Closes(data, r.value)
    decreases end
  {
    if end == from then None
    else if Closes(data, end - 1) then Some(end - 1)
    else LastClosing(data, from, end - 1)
  }

  datatype Directory = Directory(entries: nat, offset: nat, size: nat)

  function DirectoryAt(data: seq<byte>, at: nat, maximum: nat): Result<Directory, ArchiveError>
    requires at + 22 <= |data|
  {
    var total := U16(data, at + 10);
    var size := U32(data, at + 12);
    var offset := U32(data, at + 16);
    if U16(data, at + 4) != 0 || U16(data, at + 6) != 0 || U16(data, at + 8) != total then Failure("multi_disk")
    else if total == 65535 then Refusal(ResourceLimit, "zip64_entry_count")
    else if total > maximum then Refusal(ResourceLimit, "entry_count")
    else if size == 0xffff_ffff || offset == 0xffff_ffff then Refusal(ResourceLimit, "zip64_directory")
    else if offset + size != at then Failure("central_directory_bounds")
    else Ok(Directory(total, offset, size))
  }

  function EndOfCentralDirectory(data: seq<byte>, maximum: nat): Result<Directory, ArchiveError> {
    if |data| < EOCD_MINIMUM then Failure("eocd_missing")
    else
      match LastClosing(data, |data| - Min(|data|, EOCD_SEARCH), |data|)
      case None => Failure("eocd_missing")
      case Some(at) => DirectoryAt(data, at, maximum)
  }

  lemma {:induction false} LastClosingIsLast(data: seq<byte>, from: nat, end: nat)
    requires from <= end
    ensures
      match LastClosing(data, from, end)
      case None => forall p :: from <= p < end ==> !Closes(data, p)
      case Some(at) => from <= at < end && Closes(data, at) && forall p :: at < p < end ==> !Closes(data, p)
    decreases end
  {
    if from < end && !Closes(data, end - 1) { LastClosingIsLast(data, from, end - 1); }
  }

  /** The search window loses nothing: a record that closes the file lies in its last 65557 bytes. */
  lemma WindowIsEnough(data: seq<byte>, at: nat)
    requires |data| >= EOCD_MINIMUM
    ensures
      LastClosing(data, |data| - Min(|data|, EOCD_SEARCH), |data|) == Some(at) <==>
      Closes(data, at) && forall p :: at < p ==> !Closes(data, p)
  {
    LastClosingIsLast(data, |data| - Min(|data|, EOCD_SEARCH), |data|);
  }

  // ---------------------------------------------------------------- records

  datatype Central = Central(flags: nat, compression: nat, name: seq<byte>, localOffset: nat, next: nat)

  function ReadCentral(data: seq<byte>, at: nat, names: set<seq<byte>>, end: nat, limits: Limits)
    : Result<Central, ArchiveError>
  {
    if at + 46 > |data| then Failure("central_header_read")
    else if data[at..at + 4] != CENTRAL_SIGNATURE then Failure("central_header_signature")
    else
      var length := U16(data, at + 28);
      if length == 0 || length > limits.maxEntryPathBytes then Refusal(ResourceLimit, "entry_path_bytes")
      else if at + 46 + length > |data| then Failure("central_name_read")
      else
        var name := data[at + 46..at + 46 + length];
        var next := at + 46 + length + U16(data, at + 30) + U16(data, at + 32);
        if name in names then Refusal(DuplicateEntry, "central_directory_duplicate")
        else if next > end then Failure("central_directory_bounds")
        else Ok(Central(U16(data, at + 8), U16(data, at + 10), name, U32(data, at + 42), next))
  }

  /** The refusal of a record's local header, if any. */
  function CheckLocal(data: seq<byte>, c: Central, directory: nat): Option<ArchiveError> {
    var at := c.localOffset;
    if at + 30 > |data| then Some(ArchiveError(Malformed, "local_header_read"))
    else if data[at..at + 4] != LOCAL_SIGNATURE then Some(ArchiveError(Malformed, "local_header_signature"))
    else
      var flags := U16(data, at + 6);
      var compression := U16(data, at + 8);
      var length := U16(data, at + 26);
      if c.flags % 2 != 0 || flags % 2 != 0 then Some(ArchiveError(UnsupportedEncoding, "encrypted_entry"))
      else if c.flags != flags then Some(ArchiveError(Malformed, "header_flags_mismatch"))
      else if c.compression != compression then Some(ArchiveError(Malformed, "header_method_mismatch"))
      else if c.compression != 0 && c.compression != 8
        then Some(ArchiveError(UnsupportedEncoding, "compression_method"))
      else if length != |c.name| then Some(ArchiveError(Malformed, "header_name_length_mismatch"))
      else if at + 30 + length > |data| then Some(ArchiveError(Malformed, "local_name_read"))
      else if data[at + 30..at + 30 + length] != c.name then Some(ArchiveError(Malformed, "header_name_mismatch"))
      else if at + 30 + length + U16(data, at + 28) > directory then Some(ArchiveError(Malformed, "local_data_bounds"))
      else None
  }

  /** The loop over the remaining records, starting at `at` with the names seen so far. */
  function Scan(data: seq<byte>, d: Directory, limits: Limits, at: nat, names: set<seq<byte>>, left: nat)
    : Result<nat, ArchiveError>
    decreases left
  {
    if left == 0 then (if at != d.offset + d.size then Failure("central_directory_size") else Ok(d.entries))
    else
      match ReadCentral(data, at, names, d.offset + d.size, limits)
      case Err(e) => Err(e)
      case Ok(c) =>
        match CheckLocal(data, c, d.offset)
        case Some(e) => Err(e)
        case None => Scan(data, d, limits, c.next, names + {c.name}, left - 1)
  }

  function Preflight(data: seq<byte>, limits: Limits): Result<nat, ArchiveError> {
    match EndOfCentralDirectory(data, limits.maxEntries)
    case Err(e) => Err(e)
    case Ok(d) => Scan(data, d, limits, d.offset, {}, d.entries)
  }

  // ---------------------------------------------------------------- declared layout

  /** The central record in data[at..next], if the bytes there form one. */
  predicate CentralRecord(data: seq<byte>, at: nat, next: nat) {
    && Signed(data, at, CENTRAL_SIGNATURE)
    && at + 46 <= next <= |data|
    && next == at + 46 + U16(data, at + 28) + U16(data, at + 30) + U16(data, at + 32)
  }

  function CentralName(data: seq<byte>, at: nat): seq<byte> {
    if at + 46 <= |data| && at + 46 + U16(data, at + 28) <= |data| then data[at + 46..at + 46 + U16(data, at + 28)]
    else []
  }

  /** The local header that the central record at `at` points to agrees with it and ends before the directory. */
  predicate LocalAgrees(data: seq<byte>, at: nat, directory: nat)
    requires at + 46 <= |data|
  {
    var local := U32(data, at + 42);
    && local + 30 <= |data|
    && Signed(data, local, LOCAL_SIGNATURE)
    && U16(data, local + 6) == U16(data, at + 8)
    && U16(data, local + 8) == U16(data, at + 10)
    && U16(data, local + 26) == U16(data, at + 28)
    && local + 30 + U16(data, local + 26) + U16(data, local + 28) <= directory
    && directory <= |data|
    && data[local + 30..local + 30 + U16(data, local + 26)] == CentralName(data, at)
  }

  predicate RecordOk(data: seq<byte>, limits: Limits, directory: nat, at: nat, next: nat) {
    && CentralRecord(data, at, next)
    && 1 <= U16(data, at + 28) <= limits.maxEntryPathBytes
    && U16(data, at + 8) % 2 == 0
    && (U16(data, at + 10) == 0 || U16(data, at + 10) == 8)
    && LocalAgrees(data, at, directory)
  }

  /** Consecutive records between the given boundaries, with names distinct from one another. */
  ghost predicate Records(data: seq<byte>, limits: Limits, directory: nat, bounds: seq<nat>) {
    && |bounds| >= 1
    && (forall i :: 0 <= i < |bounds| - 1 ==> RecordOk(data, limits, directory, bounds[i], bounds[i + 1]))
    && (forall i, j :: 0 <= i < j < |bounds| - 1 ==> CentralName(data, bounds[i]) != CentralName(data, bounds[j]))
  }

  /**
   An acceptable archive of n entries: its last closing record is at `end` and declares n entries and
   a directory that stands directly before it, and the n records tile that directory.
   */
  ghost predicate Laid(data: seq<byte>, limits: Limits, n: nat, bounds: seq<nat>) {
    && |bounds| == n + 1
    && var start, end := bounds[0], bounds[n];
    && Closes(data, end)
    && (forall p :: end < p ==> !Closes(data, p))
    && U16(data, end + 4) == 0 && U16(data, end + 6) == 0
    && U16(data, end + 8) == n && U16(data, end + 10) == n
    && n < 65535 && n <= limits.maxEntries
    && start == U32(data, end + 16) && start < 0xffff_ffff
    && start + U32(data, end + 12) == end && U32(data, end + 12) < 0xffff_ffff
    && Records(data, limits, start, bounds)
  }

  // ---------------------------------------------------------------- the scan recognises the layout

  ghost predicate Unused(data: seq<byte>, bounds: seq<nat>, names: set<seq<byte>>) {
    forall i :: 0 <= i < |bounds| - 1 ==> CentralName(data, bounds[i]) !in names
  }

  /** The record that the loop read at `at`. */
  predicate ReadAt(data: seq<byte>, at: nat, c: Central) {
    && at + 46 <= |data| && at + 46 + U16(data, at + 28) <= |data|
    && c.flags == U16(data, at + 8) && c.compression == U16(data, at + 10)
    && c.name == CentralName(data, at) && c.localOffset == U32(data, at + 42)
  }

  lemma LocalAccepts(data: seq<byte>, at: nat, c: Central, directory: nat)
    requires ReadAt(data, at, c) && directory <= |data|
    ensures CheckLocal(data, c, directory).None? <==>
            && LocalAgrees(data, at, directory)
            && U16(data, at + 8) % 2 == 0
            && (U16(data, at + 10) == 0 || U16(data, at + 10) == 8)
  {
    hide U16, U32;
  }

  predicate NewName(data: seq<byte>, at: nat, names: set<seq<byte>>, limits: Limits) {
    at + 46 <= |data| && 1 <= U16(data, at + 28) <= limits.maxEntryPathBytes && CentralName(data, at) !in names
  }

  lemma CentralAccepts(data: seq<byte>, at: nat, names: set<seq<byte>>, end: nat, limits: Limits)
    requires end <= |data|
    ensures
      var read := ReadCentral(data, at, names, end, limits);
      && (read.Ok? ==>
          ReadAt(data, at, read.value) && CentralRecord(data, at, read.value.next) && read.value.next <= end)
      && (read.Ok? ==> NewName(data, at, names, limits))
      && (forall next: nat :: CentralRecord(data, at, next) && next <= end && NewName(data, at, names, limits) ==>
            read.Ok? && read.value.next == next)
  {
    hide U16, U32;
  }

  /** One turn of the loop accepts exactly a good record with a new name inside the directory. */
  lemma TurnAccepts(data: seq<byte>, d: Directory, limits: Limits, at: nat, names: set<seq<byte>>, next: nat)
    requires d.offset + d.size <= |data|
    ensures
      var read := ReadCentral(data, at, names, d.offset + d.size, limits);
      (read.Ok? && read.value.next == next && CheckLocal(data, read.value, d.offset).None?) <==>
      (RecordOk(data, limits, d.offset, at, next) && next <= d.offset + d.size && CentralName(data, at) !in names)
    ensures
      var read := ReadCentral(data, at, names, d.offset + d.size, limits);
      read.Ok? ==> read.value.name == CentralName(data, at)
  {
    hide U16, U32, ReadCentral, CheckLocal, LocalAgrees;
    var read := ReadCentral(data, at, names, d.offset + d.size, limits);
    CentralAccepts(data, at, names, d.offset + d.size, limits);
    if read.Ok? {
      LocalAccepts(data, at, read.value, d.offset);
    }
  }

  lemma {:induction false} ScanSound(data: seq<byte>, d: Directory, limits: Limits, at: nat, names: set<seq<byte>>,
                                     left: nat)
    returns (bounds: seq<nat>)
    requires d.offset + d.size <= |data|
    requires Scan(data, d, limits, at, names, left).Ok?
    ensures |bounds| == left + 1 && bounds[0] == at && bounds[left] == d.offset + d.size
    ensures Records(data, limits, d.offset, bounds) && Unused(data, bounds, names)
    decreases left
  {
    hide RecordOk, ReadCentral, CheckLocal, CentralName;
    if left == 0 { return [at]; }
    var c := ReadCentral(data, at, names, d.offset + d.size, limits).value;
    TurnAccepts(data, d, limits, at, names, c.next);
    var rest := ScanSound(data, d, limits, c.next, names + {c.name}, left - 1);
    bounds := [at] + rest;
    forall i, j | 0 <= i < j < |bounds| - 1
      ensures CentralName(data, bounds[i]) != CentralName(data, bounds[j])
    {
      assert bounds[j] == rest[j - 1];
      if i > 0 { assert bounds[i] == rest[i - 1]; }
    }
  }

  lemma {:induction false} BoundsGrow(data: seq<byte>, limits: Limits, directory: nat, bounds: seq<nat>, i: nat)
    requires Records(data, limits, directory, bounds) && i < |bounds|
    ensures bounds[i] <= bounds[|bounds| - 1]
    decreases |bounds| - i
  {
    if i < |bounds| - 1 {
      assert RecordOk(data, limits, directory, bounds[i], bounds[i + 1]);
      BoundsGrow(data, limits, directory, bounds, i + 1);
    }
  }

  lemma {:induction false} ScanComplete(data: seq<byte>, d: Directory, limits: Limits, names: set<seq<byte>>,
                                        bounds: seq<nat>)
    requires d.offset + d.size <= |data|
    requires Records(data, limits, d.offset, bounds) && Unused(data, bounds, names)
    requires bounds[|bounds| - 1] == d.offset + d.size
    ensures Scan(data, d, limits, bounds[0], names, |bounds| - 1) == Ok(d.entries)
    decreases |bounds|
  {
    hide RecordOk, ReadCentral, CheckLocal, CentralName;
    if |bounds| > 1 {
      BoundsGrow(data, limits, d.offset, bounds, 1);
      TurnAccepts(data, d, limits, bounds[0], names, bounds[1]);
      var rest := bounds[1..];
      assert Records(data, limits, d.offset, rest);
      ScanComplete(data, d, limits, names + {CentralName(data, bounds[0])}, rest);
    }
  }

  lemma LaidAccepted(data: seq<byte>, limits: Limits, n: nat, bounds: seq<nat>)
    requires Laid(data, limits, n, bounds)
    ensures Preflight(data, limits) == Ok(n)
  {
    hide Records, Scan;
    WindowIsEnough(data, bounds[n]);
    var d := Directory(n, bounds[0], bounds[n] - bounds[0]);
    assert EndOfCentralDirectory(data, limits.maxEntries) == Ok(d);
    ScanComplete(data, d, limits, {}, bounds);
  }

  lemma AcceptedLaid(data: seq<byte>, limits: Limits) returns (bounds: seq<nat>)
    requires Preflight(data, limits).Ok?
    ensures Laid(data, limits, Preflight(data, limits).value, bounds)
  {
    hide Records, Scan;
    var d := EndOfCentralDirectory(data, limits.maxEntries).value;
    WindowIsEnough(data, d.offset + d.size);
    bounds := ScanSound(data, d, limits, d.offset, {}, d.entries);
    ScanComplete(data, d, limits, {}, bounds);
  }

  /** The preflight accepts n entries exactly when the bytes are laid out as an archive of n entries. */
  lemma AcceptsExactlyTheLayout(data: seq<byte>, limits: Limits, n: nat)
    ensures Preflight(data, limits) == Ok(n) <==> exists bounds :: Laid(data, limits, n, bounds)
  {
    hide Preflight, Laid;
    if Preflight(data, limits) == Ok(n) {
      var bounds := AcceptedLaid(data, limits);
    }
    if bounds :| Laid(data, limits, n, bounds) { LaidAccepted(data, limits, n, bounds); }
  }

  // ---------------------------------------------------------------- a writer

  function Le16(n: nat): (s: seq<byte>)
    requires n < 65536
    ensures |s| == 2 && U16(s, 0) == n
  {
    [n % 256, n / 256]
  }

  function Le32(n: nat): (s: seq<byte>)
    requires n < 0x1_0000_0000
    ensures |s| == 4 && U32(s, 0) == n
  {
    Le16(n % 65536) + Le16(n / 65536)
  }

  /** What a writer chooses for one entry: the named fields, and every other header byte freely. */
  datatype Entry = Entry(
    name: seq<byte>,
    flags: nat,
    compression: nat,
    content: seq<byte>,
    localVersion: seq<byte>,
    localMeta: seq<byte>,
    localExtra: seq<byte>,
    centralVersions: seq<byte>,
    centralMeta: seq<byte>,
    centralAttributes: seq<byte>,
    centralExtra: seq<byte>,
    centralComment: seq<byte>
  )

  predicate Writable(e: Entry) {
    && |e.name| < 65536 && |e.localExtra| < 65536 && |e.centralExtra| < 65536 && |e.centralComment| < 65536
    && |e.localVersion| == 2 && |e.localMeta| == 16
    && |e.centralVersions| == 4 && |e.centralMeta| == 16 && |e.centralAttributes| == 8
    && e.flags < 65536 && e.compression < 65536
  }

  predicate Acceptable(e: Entry, limits: Limits) {
    && Writable(e)
    && 1 <= |e.name| <= limits.maxEntryPathBytes
    && e.flags % 2 == 0
    && (e.compression == 0 || e.compression == 8)
  }

  function LocalHeader(e: Entry): (s: seq<byte>)
    requires Writable(e)
    ensures |s| == 30
  {
    LOCAL_SIGNATURE + e.localVersion + Le16(e.flags) + Le16(e.compression) + e.localMeta
    + Le16(|e.name|) + Le16(|e.localExtra|)
  }

  function LocalPart(e: Entry): seq<byte>
    requires Writable(e)
  {
    LocalHeader(e) + e.name + e.localExtra + e.content
  }

  function CentralHeader(e: Entry, localOffset: nat): (s: seq<byte>)
    requires Writable(e) && localOffset < 0x1_0000_0000
    ensures |s| == 46
  {
    CENTRAL_SIGNATURE + e.centralVersions + Le16(e.flags) + Le16(e.compression) + e.centralMeta
    + Le16(|e.name|) + Le16(|e.centralExtra|) + Le16(|e.centralComment|) + e.centralAttributes + Le32(localOffset)
  }

  function CentralPart(e: Entry, localOffset: nat): seq<byte>
    requires Writable(e) && localOffset < 0x1_0000_0000
  {
    CentralHeader(e, localOffset) + e.name + e.centralExtra + e.centralComment
  }

  function EndRecord(n: nat, size: nat, offset: nat, comment: seq<byte>): seq<byte>
    requires n < 65536 && size < 0x1_0000_0000 && offset < 0x1_0000_0000 && |comment| < 65536
  {
    EOCD_SIGNATURE + [0, 0, 0, 0] + Le16(n) + Le16(n) + Le32(size) + Le32(offset) + Le16(|comment|) + comment
  }

  function Concat(parts: seq<seq<byte>>): seq<byte> {
    if parts == [] then [] else Concat(parts[..|parts| - 1]) + parts[|parts| - 1]
  }

  function Locals(entries: seq<Entry>): seq<seq<byte>>
    requires forall i :: 0 <= i < |entries| ==> Writable(entries[i])
  {
    seq(|entries|, i requires 0 <= i < |entries| => LocalPart(entries[i]))
  }

  function LocalOffset(entries: seq<Entry>, i: nat): nat
    requires i <= |entries|
    requires forall i :: 0 <= i < |entries| ==> Writable(entries[i])
  {
    |Concat(Locals(entries)[..i])|
  }

  predicate Addressable(entries: seq<Entry>) {
    && (forall i :: 0 <= i < |entries| ==> Writable(entries[i]))
    && (forall i :: 0 <= i <= |entries| ==> LocalOffset(entries, i) < 0xffff_ffff)
  }

  function Centrals(entries: seq<Entry>): seq<seq<byte>>
    requires Addressable(entries)
  {
    seq(|entries|, i requires 0 <= i < |entries| => CentralPart(entries[i], LocalOffset(entries, i)))
  }

  predicate Printable(entries: seq<Entry>, comment: seq<byte>) {
    && Addressable(entries) && |entries| < 65535 && |comment| < 65536
    && |Concat(Centrals(entries))| < 0xffff_ffff
  }

  function Ending(entries: seq<Entry>, comment: seq<byte>): seq<byte>
    requires Printable(entries, comment)
  {
    EndRecord(|entries|, |Concat(Centrals(entries))|, LocalOffset(entries, |entries|), comment)
  }

  function Print(entries: seq<Entry>, comment: seq<byte>): seq<byte>
    requires Printable(entries, comment)
  {
    Concat(Locals(entries)) + Concat(Centrals(entries)) + Ending(entries, comment)
  }

  // ---------------------------------------------------------------- what is printed reads back

  predicate Part(data: seq<byte>, at: nat, part: seq<byte>) {
    at + |part| <= |data| && data[at..at + |part|] == part
  }

  lemma PartOfPart(data: seq<byte>, at: nat, part: seq<byte>, k: nat, inner: seq<byte>)
    requires Part(data, at, part) && Part(part, k, inner)
    ensures Part(data, at + k, inner)
  {
    assert forall j :: 0 <= j < |part| ==> data[at + j] == part[j];
    assert forall j :: 0 <= j < |inner| ==> data[at + (k + j)] == part[k + j] == inner[j];
  }

  lemma Middle(a: seq<byte>, b: seq<byte>, c: seq<byte>)
    ensures Part(a + b + c, |a|, b) && Part(a + b + c, 0, a) && Part(a + b + c, |a + b|, c)
  {
  }

  lemma {:induction false} ConcatPart(parts: seq<seq<byte>>, i: nat)
    requires i < |parts|
    ensures Part(Concat(parts), |Concat(parts[..i])|, parts[i])
    ensures |Concat(parts[..i + 1])| == |Concat(parts[..i])| + |parts[i]|
    decreases |parts|
  {
    var front, last := parts[..|parts| - 1], parts[|parts| - 1];
    assert parts[..i + 1][..i] == parts[..i];
    Middle(Concat(front), last, []);
    assert Concat(front) + last + [] == Concat(parts);
    if i == |front| {
      assert parts[..i] == front;
    } else {
      ConcatPart(front, i);
      assert front[..i] == parts[..i];
      PartOfPart(Concat(parts), 0, Concat(front), |Concat(front[..i])|, parts[i]);
    }
  }

  lemma ReadField(data: seq<byte>, at: nat, header: seq<byte>, k: nat)
    requires Part(data, at, header) && k + 2 <= |header|
    ensures U16(data, at + k) == U16(header, k)
    ensures k + 4 <= |header| ==> U32(data, at + k) == U32(header, k)
    ensures k + 4 <= |header| ==> data[at + k..at + k + 4] == header[k..k + 4]
  {
    assert forall j :: 0 <= j < |header| ==> data[at + j] == header[j];
  }

  lemma LocalHeaderFields(e: Entry)
    requires Writable(e)
    ensures
      var h := LocalHeader(e);
      && h[0..4] == LOCAL_SIGNATURE && U16(h, 6) == e.flags && U16(h, 8) == e.compression
      && U16(h, 26) == |e.name| && U16(h, 28) == |e.localExtra|
  {
  }

  lemma CentralHeaderFields(e: Entry, localOffset: nat)
    requires Writable(e) && localOffset < 0x1_0000_0000
    ensures
      var h := CentralHeader(e, localOffset);
      && h[0..4] == CENTRAL_SIGNATURE && U16(h, 8) == e.flags && U16(h, 10) == e.compression
      && U16(h, 28) == |e.name| && U16(h, 30) == |e.centralExtra| && U16(h, 32) == |e.centralComment|
      && U32(h, 42) == localOffset
  {
  }

  lemma LocalPartReads(data: seq<byte>, at: nat, e: Entry)
    requires Writable(e) && Part(data, at, LocalPart(e))
    ensures at + 30 + |e.name| + |e.localExtra| <= at + |LocalPart(e)| <= |data|
    ensures Signed(data, at, LOCAL_SIGNATURE) && U16(data, at + 6) == e.flags && U16(data, at + 8) == e.compression
    ensures U16(data, at + 26) == |e.name| && U16(data, at + 28) == |e.localExtra|
    ensures data[at + 30..at + 30 + |e.name|] == e.name
  {
    var h := LocalHeader(e);
    LocalHeaderFields(e);
    Middle(h, e.name, e.localExtra + e.content);
    assert LocalPart(e) == h + e.name + (e.localExtra + e.content);
    PartOfPart(data, at, LocalPart(e), 0, h);
    PartOfPart(data, at, LocalPart(e), 30, e.name);
    hide LocalHeader, LocalPart, U16, U32;
    ReadField(data, at, h, 0);
    ReadField(data, at, h, 6);
    ReadField(data, at, h, 8);
    ReadField(data, at, h, 26);
    ReadField(data, at, h, 28);
  }

  lemma CentralHeaderReads(data: seq<byte>, at: nat, e: Entry, localOffset: nat)
    requires Writable(e) && localOffset < 0x1_0000_0000 && Part(data, at, CentralHeader(e, localOffset))
    ensures Signed(data, at, CENTRAL_SIGNATURE) && U16(data, at + 8) == e.flags && U16(data, at + 10) == e.compression
    ensures U16(data, at + 28) == |e.name|
    ensures U16(data, at + 30) == |e.centralExtra| && U16(data, at + 32) == |e.centralComment|
    ensures U32(data, at + 42) == localOffset
  {
    var h := CentralHeader(e, localOffset);
    CentralHeaderFields(e, localOffset);
    hide CentralHeader, U16, U32, Writable;
    ReadField(data, at, h, 0);
    ReadField(data, at, h, 8);
    ReadField(data, at, h, 10);
    ReadField(data, at, h, 28);
    ReadField(data, at, h, 30);
    ReadField(data, at, h, 32);
    ReadField(data, at, h, 42);
  }

  lemma CentralPartReads(data: seq<byte>, at: nat, e: Entry, localOffset: nat)
    requires Writable(e) && localOffset < 0x1_0000_0000 && Part(data, at, CentralPart(e, localOffset))
    ensures CentralRecord(data, at, at + |CentralPart(e, localOffset)|)
    ensures U16(data, at + 8) == e.flags && U16(data, at + 10) == e.compression && U16(data, at + 28) == |e.name|
    ensures U32(data, at + 42) == localOffset && CentralName(data, at) == e.name
  {
    hide CentralHeader, U16, U32;
    var h := CentralHeader(e, localOffset);
    var rest := e.centralExtra + e.centralComment;
    var part := CentralPart(e, localOffset);
    Middle(h, e.name, rest);
    assert part == h + e.name + rest;
    PartOfPart(data, at, part, 0, h);
    PartOfPart(data, at, part, 46, e.name);
    CentralHeaderReads(data, at, e, localOffset);
  }

  lemma EndRecordFields(n: nat, size: nat, offset: nat, comment: seq<byte>)
    requires n < 65536 && size < 0x1_0000_0000 && offset < 0x1_0000_0000 && |comment| < 65536
    ensures
      var h := EndRecord(n, size, offset, comment);
      && Closes(h, 0) && U16(h, 4) == 0 && U16(h, 6) == 0 && U16(h, 8) == n && U16(h, 10) == n
      && U32(h, 12) == size && U32(h, 16) == offset
  {
  }

  /** Where the central records of a printed archive begin and end. */
  function PrintedBounds(entries: seq<Entry>): seq<nat>
    requires Addressable(entries)
  {
    seq(|entries| + 1, i requires 0 <= i <= |entries| =>
      |Concat(Locals(entries))| + |Concat(Centrals(entries)[..i])|)
  }

  lemma PrintedParts(entries: seq<Entry>, comment: seq<byte>, i: nat)
    requires Printable(entries, comment) && i < |entries|
    ensures Part(Print(entries, comment), LocalOffset(entries, i), LocalPart(entries[i]))
    ensures LocalOffset(entries, i) + |LocalPart(entries[i])| <= |Concat(Locals(entries))|
    ensures Part(Print(entries, comment), PrintedBounds(entries)[i], CentralPart(entries[i], LocalOffset(entries, i)))
    ensures PrintedBounds(entries)[i + 1] ==
            PrintedBounds(entries)[i] + |CentralPart(entries[i], LocalOffset(entries, i))|
  {
    hide LocalPart, CentralPart, EndRecord, Ending;
    var locals, centrals := Locals(entries), Centrals(entries);
    var data := Print(entries, comment);
    ConcatPart(locals, i);
    ConcatPart(centrals, i);
    Middle(Concat(locals), Concat(centrals), Ending(entries, comment));
    PartOfPart(data, 0, Concat(locals), LocalOffset(entries, i), locals[i]);
    PartOfPart(data, |Concat(locals)|, Concat(centrals), |Concat(centrals[..i])|, centrals[i]);
  }

  lemma RecordFromParts(data: seq<byte>, at: nat, local: nat, e: Entry, limits: Limits, directory: nat)
    requires Acceptable(e, limits) && local < 0x1_0000_0000
    requires Part(data, at, CentralPart(e, local)) && Part(data, local, LocalPart(e))
    requires local + |LocalPart(e)| <= directory <= |data|
    ensures RecordOk(data, limits, directory, at, at + |CentralPart(e, local)|) && CentralName(data, at) == e.name
  {
    hide U16, U32, LocalPart, CentralPart, CentralRecord, Part;
    LocalPartReads(data, local, e);
    CentralPartReads(data, at, e, local);
  }

  lemma PrintedRecord(entries: seq<Entry>, comment: seq<byte>, limits: Limits, i: nat)
    requires Printable(entries, comment) && i < |entries| && Acceptable(entries[i], limits)
    ensures
      var data, bounds := Print(entries, comment), PrintedBounds(entries);
      && RecordOk(data, limits, |Concat(Locals(entries))|, bounds[i], bounds[i + 1])
      && CentralName(data, bounds[i]) == entries[i].name
  {
    hide LocalPart, CentralPart, RecordOk, CentralName, Part, Centrals, Locals, Concat, Ending, EndRecord,
         Acceptable, U16, U32;
    PrintedParts(entries, comment, i);
    RecordFromParts(Print(entries, comment), PrintedBounds(entries)[i], LocalOffset(entries, i), entries[i], limits,
                    |Concat(Locals(entries))|);
  }

  lemma EndingReads(data: seq<byte>, end: nat, n: nat, size: nat, offset: nat, comment: seq<byte>)
    requires n < 65536 && size < 0x1_0000_0000 && offset < 0x1_0000_0000 && |comment| < 65536
    requires Part(data, end, EndRecord(n, size, offset, comment))
    requires end + |EndRecord(n, size, offset, comment)| == |data|
    requires forall k :: 0 < k ==> !Closes(EndRecord(n, size, offset, comment), k)
    ensures Closes(data, end) && forall p :: end < p ==> !Closes(data, p)
    ensures U16(data, end + 4) == 0 && U16(data, end + 6) == 0 && U16(data, end + 8) == n && U16(data, end + 10) == n
    ensures U32(data, end + 12) == size && U32(data, end + 16) == offset
  {
    var tail := EndRecord(n, size, offset, comment);
    EndRecordFields(n, size, offset, comment);
    hide EndRecord, U32, U16;
    ReadField(data, end, tail, 4);
    ReadField(data, end, tail, 6);
    ReadField(data, end, tail, 8);
    ReadField(data, end, tail, 10);
    ReadField(data, end, tail, 12);
    ReadField(data, end, tail, 16);
    ClosesShift(data, end, tail, 0);
    forall p: nat | end < p ensures !Closes(data, p) { ClosesShift(data, end, tail, p - end); }
  }

  lemma PrintedEnding(entries: seq<Entry>, comment: seq<byte>)
    requires Printable(entries, comment)
    ensures
      var data, bounds, n := Print(entries, comment), PrintedBounds(entries), |entries|;
      && bounds[0] == |Concat(Locals(entries))| == LocalOffset(entries, n) <= bounds[n]
      && bounds[n] - bounds[0] < 0xffff_ffff && bounds[0] < 0xffff_ffff
      && Ending(entries, comment) == EndRecord(n, bounds[n] - bounds[0], bounds[0], comment)
      && Part(data, bounds[n], Ending(entries, comment)) && bounds[n] + |Ending(entries, comment)| == |data|
  {
    hide EndRecord, LocalPart, CentralPart;
    var n := |entries|;
    assert Centrals(entries)[..n] == Centrals(entries) && Centrals(entries)[..0] == [];
    assert Locals(entries)[..n] == Locals(entries);
    Middle(Concat(Locals(entries)), Concat(Centrals(entries)), Ending(entries, comment));
  }

  lemma ClosesShift(data: seq<byte>, at: nat, tail: seq<byte>, k: nat)
    requires Part(data, at, tail) && at + |tail| == |data|
    ensures Closes(data, at + k) <==> Closes(tail, k)
  {
    if k + 22 <= |tail| {
      ReadField(data, at, tail, k);
      ReadField(data, at, tail, k + 20);
    }
  }

  lemma PrintedLaid(entries: seq<Entry>, comment: seq<byte>, limits: Limits)
    requires Printable(entries, comment) && |entries| <= limits.maxEntries
    requires forall i :: 0 <= i < |entries| ==> Acceptable(entries[i], limits)
    requires forall i, j :: 0 <= i < j < |entries| ==> entries[i].name != entries[j].name
    requires forall k :: 0 < k ==> !Closes(Ending(entries, comment), k)
    ensures Laid(Print(entries, comment), limits, |entries|, PrintedBounds(entries))
  {
    hide Print, RecordOk, CentralName, Closes, U16, U32, Ending, EndRecord, Concat, Locals, Centrals, Acceptable,
         Addressable,
         Part;
    var data, bounds := Print(entries, comment), PrintedBounds(entries);
    var n := |entries|;
    PrintedEnding(entries, comment);
    EndingReads(data, bounds[n], n, bounds[n] - bounds[0], bounds[0], comment);
    forall i | 0 <= i < n
      ensures RecordOk(data, limits, bounds[0], bounds[i], bounds[i + 1])
      ensures CentralName(data, bounds[i]) == entries[i].name
    {
      PrintedRecord(entries, comment, limits, i);
    }
    assert Records(data, limits, bounds[0], bounds);
  }

  /**
   What a writer prints is accepted with its entry count: any number of entries within the limits,
   with distinct bounded names, unencrypted, stored or deflated, whatever the other bytes are.
   An archive comment is fine as long as it does not forge a later closing record.
   */
  lemma PrintedAccepted(entries: seq<Entry>, comment: seq<byte>, limits: Limits)
    requires Printable(entries, comment) && |entries| <= limits.maxEntries
    requires forall i :: 0 <= i < |entries| ==> Acceptable(entries[i], limits)
    requires forall i, j :: 0 <= i < j < |entries| ==> entries[i].name != entries[j].name
    requires forall k :: 0 < k ==> !Closes(Ending(entries, comment), k)
    ensures Preflight(Print(entries, comment), limits) == Ok(|entries|)
  {
    hide Preflight, Print, PrintedBounds, Laid, Ending, Closes, Acceptable, Addressable, Concat, Centrals;
    PrintedLaid(entries, comment, limits);
    LaidAccepted(Print(entries, comment), limits, |entries|, PrintedBounds(entries));
  }

  /** A comment-free archive has no later closing record, so it is accepted outright. */
  lemma CommentFreeAccepted(entries: seq<Entry>, limits: Limits)
    requires Printable(entries, []) && |entries| <= limits.maxEntries
    requires forall i :: 0 <= i < |entries| ==> Acceptable(entries[i], limits)
    requires forall i, j :: 0 <= i < j < |entries| ==> entries[i].name != entries[j].name
    ensures Preflight(Print(entries, []), limits) == Ok(|entries|)
  {
    assert |Ending(entries, [])| == 22;
    hide Preflight, Print, Ending;
    PrintedAccepted(entries, [], limits);
  }

  // ---------------------------------------------------------------- the reader loops

  class Reader {
    const data: seq<byte>
    var position: nat

    constructor (data: seq<byte>)
      ensures this.data == data && position == 0
    {
      this.data, position := data, 0;
    }

    method ReadExact(n: nat) returns (r: Option<seq<byte>>)
      modifies this
      ensures r.Some? <==> old(position) + n <= |data|
      ensures r.Some? ==> r.value == data[old(position)..old(position) + n] && position == old(position) + n
    {
      if position + n > |data| { return None; }
      r := Some(data[position..position + n]);
      position := position + n;
    }

    method FindDirectory(maximum: nat) returns (r: Result<Directory, ArchiveError>)
      modifies this
      ensures r == EndOfCentralDirectory(data, maximum)
    {
      hide DirectoryAt, U16, U32;
      if |data| < EOCD_MINIMUM { return Failure("eocd_missing"); }
      var start := |data| - Min(|data|, EOCD_SEARCH);
      var tail := data[start..];
      position := |data|;
      var k := |tail|;
      while k > 0
        invariant 0 <= k <= |tail|
        invariant LastClosing(data, start, |data|) == LastClosing(data, start, start + k)
      {
        k := k - 1;
        ClosesShift(data, start, tail, k);
        if Closes(tail, k) {
          r := ReadDirectory(tail, start, k, maximum);
          return;
        }
      }
      return Failure("eocd_missing");
    }

    /** The fields of the record found at `k` in the last bytes of the file. */
    method ReadDirectory(tail: seq<byte>, start: nat, k: nat, maximum: nat) returns (r: Result<Directory, ArchiveError>)
      requires start <= |data| && tail == data[start..] && k + 22 <= |tail|
      ensures r == DirectoryAt(data, start + k, maximum)
    {
      hide U16, U32;
      EndShift(data, start, tail, k);
      var disk, directoryDisk := U16(tail, k + 4), U16(tail, k + 6);
      var diskEntries, totalEntries := U16(tail, k + 8), U16(tail, k + 10);
      if disk != 0 || directoryDisk != 0 || diskEntries != totalEntries { return Failure("multi_disk"); }
      if totalEntries == 65535 { return Refusal(ResourceLimit, "zip64_entry_count"); }
      if totalEntries > maximum { return Refusal(ResourceLimit, "entry_count"); }
      var size, offset := U32(tail, k + 12), U32(tail, k + 16);
      if size == 0xffff_ffff || offset == 0xffff_ffff { return Refusal(ResourceLimit, "zip64_directory"); }
      if offset + size != start + k { return Failure("central_directory_bounds"); }
      return Ok(Directory(totalEntries, offset, size));
    }

    method ReadCentralRecord(names: set<seq<byte>>, end: nat, limits: Limits) returns (r: Result<Central, ArchiveError>)
      modifies this
      ensures r == ReadCentral(data, old(position), names, end, limits)
    {
      hide U16, U32;
      ghost var at := position;
      var header := ReadExact(46);
      if header.None? { return Failure("central_header_read"); }
      var central := header.value;
      assert data[at..at + 4] == central[..4];
      if central[..4] != CENTRAL_SIGNATURE { return Failure("central_header_signature"); }
      CentralShift(data, at, central);
      var nameLength, extraLength, commentLength := U16(central, 28), U16(central, 30), U16(central, 32);
      if nameLength == 0 || nameLength > limits.maxEntryPathBytes { return Refusal(ResourceLimit, "entry_path_bytes"); }
      var name := ReadExact(nameLength);
      if name.None? { return Failure("central_name_read"); }
      if name.value in names { return Refusal(DuplicateEntry, "central_directory_duplicate"); }
      position := position + extraLength + commentLength;
      if position > end { return Failure("central_directory_bounds"); }
      return Ok(Central(U16(central, 8), U16(central, 10), name.value, U32(central, 42), position));
    }

    method CheckLocalHeader(c: Central, directory: nat) returns (refused: Option<ArchiveError>)
      modifies this
      ensures refused == CheckLocal(data, c, directory)
    {
      hide U16, U32;
      position := c.localOffset;
      ghost var at := position;
      var header := ReadExact(30);
      if header.None? { return Some(ArchiveError(Malformed, "local_header_read")); }
      var local := header.value;
      assert data[at..at + 4] == local[..4];
      if local[..4] != LOCAL_SIGNATURE { return Some(ArchiveError(Malformed, "local_header_signature")); }
      LocalShift(data, at, local);
      var flags, compression := U16(local, 6), U16(local, 8);
      if c.flags % 2 != 0 || flags % 2 != 0 { return Some(ArchiveError(UnsupportedEncoding, "encrypted_entry")); }
      if c.flags != flags { return Some(ArchiveError(Malformed, "header_flags_mismatch")); }
      if c.compression != compression { return Some(ArchiveError(Malformed, "header_method_mismatch")); }
      if c.compression != 0 && c.compression != 8 { return Some(ArchiveError(UnsupportedEncoding,
        "compression_method")); }
      var nameLength, extraLength := U16(local, 26), U16(local, 28);
      if nameLength != |c.name| { return Some(ArchiveError(Malformed, "header_name_length_mismatch")); }
      var name := ReadExact(nameLength);
      if name.None? { return Some(ArchiveError(Malformed, "local_name_read")); }
      if name.value != c.name { return Some(ArchiveError(Malformed, "header_name_mismatch")); }
      if position + extraLength > directory { return Some(ArchiveError(Malformed, "local_data_bounds")); }
      return None;
    }

    method PreflightHeaders(limits: Limits) returns (r: Result<nat, ArchiveError>)
      modifies this
      ensures r == Preflight(data, limits)
    {
      hide EndOfCentralDirectory, ReadCentral, CheckLocal;
      var found := FindDirectory(limits.maxEntries);
      if found.Err? { return Err(found.error); }
      var directory := found.value;
      var end := directory.offset + directory.size;
      position := directory.offset;
      var names, left := {}, directory.entries;
      while left > 0
        invariant Preflight(data, limits) == Scan(data, directory, limits, position, names, left)
      {
        var record := ReadCentralRecord(names, end, limits);
        if record.Err? { return Err(record.error); }
        var c := record.value;
        var refused := CheckLocalHeader(c, directory.offset);
        if refused.Some? { return Err(refused.value); }
        names := names + {c.name};
        position := c.next;
        left := left - 1;
      }
      if position != end { return Failure("central_directory_size"); }
      return Ok(directory.entries);
    }
  }

  lemma EndShift(data: seq<byte>, start: nat, tail: seq<byte>, k: nat)
    requires Part(data, start, tail) && k + 22 <= |tail|
    ensures U16(data, start + k + 4) == U16(tail, k + 4) && U16(data, start + k + 6) == U16(tail, k + 6)
    ensures U16(data, start + k + 8) == U16(tail, k + 8) && U16(data, start + k + 10) == U16(tail, k + 10)
    ensures U32(data, start + k + 12) == U32(tail, k + 12) && U32(data, start + k + 16) == U32(tail, k + 16)
  {
    hide U16, U32;
    ReadField(data, start, tail, k + 4);
    ReadField(data, start, tail, k + 6);
    ReadField(data, start, tail, k + 8);
    ReadField(data, start, tail, k + 10);
    ReadField(data, start, tail, k + 12);
    ReadField(data, start, tail, k + 16);
  }

  lemma CentralShift(data: seq<byte>, at: nat, central: seq<byte>)
    requires |central| == 46 && Part(data, at, central)
    ensures U16(data, at + 28) == U16(central, 28) && U16(data, at + 30) == U16(central, 30)
    ensures U16(data, at + 32) == U16(central, 32) && U16(data, at + 8) == U16(central, 8)
    ensures U16(data, at + 10) == U16(central, 10) && U32(data, at + 42) == U32(central, 42)
  {
    hide U16, U32;
    ReadField(data, at, central, 8);
    ReadField(data, at, central, 10);
    ReadField(data, at, central, 28);
    ReadField(data, at, central, 30);
    ReadField(data, at, central, 32);
    ReadField(data, at, central, 42);
  }

  lemma LocalShift(data: seq<byte>, at: nat, local: seq<byte>)
    requires |local| == 30 && Part(data, at, local)
    ensures U16(data, at + 6) == U16(local, 6) && U16(data, at + 8) == U16(local, 8)
    ensures U16(data, at + 26) == U16(local, 26) && U16(data, at + 28) == U16(local, 28)
  {
    hide U16, U32;
    ReadField(data, at, local, 6);
    ReadField(data, at, local, 8);
    ReadField(data, at, local, 26);
    ReadField(data, at, local, 28);
  }
}
