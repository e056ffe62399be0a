/**
 What a refused archive is refused for: every rule of the preflight with the defect it names, and the
 signature bytes of an accepted one (sections 4.3.7, 4.3.12 and 4.3.16 of PKWARE APPNOTE.TXT).
 */
module ZipRefusals {
  import opened Prelude
  import opened ZipArchive

  predicate Bytes4(data: seq<byte>, at: nat, a: int, b: int, c: int, d: int) {
    at + 4 <= |data| && data[at] == a && data[at + 1] == b && data[at + 2] == c && data[at + 3] == d
  }

  /** The bytes at the boundaries of an accepted archive. */
  lemma SignatureBytes(data: seq<byte>, limits: Limits, n: nat, bounds: seq<nat>)
    requires Laid(data, limits, n, bounds)
    ensures Bytes4(data, bounds[n], 0x50, 0x4b, 0x05, 0x06)
    ensures forall i :: 0 <= i < n ==>
              && Bytes4(data, bounds[i], 0x50, 0x4b, 0x01, 0x02)
              && bounds[i] + 46 <= |data| && Bytes4(data, U32(data, bounds[i] + 42), 0x50, 0x4b, 0x03, 0x04)
  {
    hide U16, U32;
    SignedBytes(data, bounds[n]);
    forall i | 0 <= i < n
      ensures
        && Bytes4(data, bounds[i], 0x50, 0x4b, 0x01, 0x02)
        && bounds[i] + 46 <= |data| && Bytes4(data, U32(data, bounds[i] + 42), 0x50, 0x4b, 0x03, 0x04)
    {
      assert RecordOk(data, limits, bounds[0], bounds[i], bounds[i + 1]);
      SignedBytes(data, bounds[i]);
      SignedBytes(data, U32(data, bounds[i] + 42));
    }
  }

  lemma SignedBytes(data: seq<byte>, at: nat)
    ensures Signed(data, at, EOCD_SIGNATURE) <==> Bytes4(data, at, 0x50, 0x4b, 0x05, 0x06)
    ensures Signed(data, at, CENTRAL_SIGNATURE) <==> Bytes4(data, at, 0x50, 0x4b, 0x01, 0x02)
    ensures Signed(data, at, LOCAL_SIGNATURE) <==> Bytes4(data, at, 0x50, 0x4b, 0x03, 0x04)
  {
    if at + 4 <= |data| {
      var s := data[at..at + 4];
      assert s == [data[at], data[at + 1], data[at + 2], data[at + 3]];
    }
  }

  // ---------------------------------------------------------------- defects

  /** The defect of a closing record that each rule names. */
  predicate EndDefect(data: seq<byte>, at: nat, maximum: nat, e: ArchiveError)
    requires at + 22 <= |data|
  {
    || (e == ArchiveError(Malformed, "multi_disk")
        && (U16(data, at + 4) != 0 || U16(data, at + 6) != 0 || U16(data, at + 8) != U16(data, at + 10)))
    || (e == ArchiveError(ResourceLimit, "zip64_entry_count") && U16(data, at + 10) == 65535)
    || (e == ArchiveError(ResourceLimit, "entry_count") && U16(data, at + 10) > maximum)
    || (e == ArchiveError(ResourceLimit, "zip64_directory")
        && (U32(data, at + 12) == 0xffff_ffff || U32(data, at + 16) == 0xffff_ffff))
    || (e == ArchiveError(Malformed, "central_directory_bounds") && U32(data, at + 16) + U32(data, at + 12) != at)
  }

  /** The defect of a central record at `at`, after the given names, that each rule names. */
  predicate CentralDefect(data: seq<byte>, at: nat, names: set<seq<byte>>, end: nat, limits: Limits, e: ArchiveError) {
    || (e == ArchiveError(Malformed, "central_header_read") && at + 46 > |data|)
    || (e == ArchiveError(Malformed, "central_header_signature") && !Bytes4(data, at, 0x50, 0x4b, 0x01, 0x02))
    || (at + 46 <= |data| &&
        var length := U16(data, at + 28);
        || (e == ArchiveError(ResourceLimit, "entry_path_bytes") && (length == 0 || length > limits.maxEntryPathBytes))
        || (e == ArchiveError(Malformed, "central_name_read") && at + 46 + length > |data|)
        || (e == ArchiveError(DuplicateEntry, "central_directory_duplicate") && CentralName(data, at) in names)
        || (e == ArchiveError(Malformed, "central_directory_bounds")
            && at + 46 + length + U16(data, at + 30) + U16(data, at + 32) > end))
  }

  /** The defect of the local header of the central record at `at` that each rule names. */
  predicate LocalDefect(data: seq<byte>, at: nat, directory: nat, e: ArchiveError)
    requires at + 46 <= |data|
  {
    var local := U32(data, at + 42);
    || (e == ArchiveError(Malformed, "local_header_read") && local + 30 > |data|)
    || (e == ArchiveError(Malformed, "local_header_signature") && !Bytes4(data, local, 0x50, 0x4b, 0x03, 0x04))
    || (local + 30 <= |data| &&
        (|| (e == ArchiveError(UnsupportedEncoding, "encrypted_entry")
             && (U16(data, at + 8) % 2 != 0 || U16(data, local + 6) % 2 != 0))
         || (e == ArchiveError(Malformed, "header_flags_mismatch") && U16(data, at + 8) != U16(data, local + 6))
         || (e == ArchiveError(Malformed, "header_method_mismatch") && U16(data, at + 10) != U16(data, local + 8))
         || (e == ArchiveError(UnsupportedEncoding, "compression_method")
             && U16(data, at + 10) != 0 && U16(data, at + 10) != 8)
         || (e == ArchiveError(Malformed, "header_name_length_mismatch") && U16(data, local + 26) != U16(data, at + 28))
         || (e == ArchiveError(Malformed, "local_name_read") && local + 30 + U16(data, local + 26) > |data|)
         || (e == ArchiveError(Malformed, "header_name_mismatch")
             && local + 30 + U16(data, local + 26) <= |data|
             && data[local + 30..local + 30 + U16(data, local + 26)] != CentralName(data, at))
         || (e == ArchiveError(Malformed, "local_data_bounds")
             && local + 30 + U16(data, local + 26) + U16(data, local + 28) > directory)))
  }

  lemma CentralRefusal(data: seq<byte>, at: nat, names: set<seq<byte>>, end: nat, limits: Limits)
    ensures
      var read := ReadCentral(data, at, names, end, limits);
      && (read.Err? ==> CentralDefect(data, at, names, end, limits, read.error))
      && (read.Ok? ==> ReadAt(data, at, read.value) && at + 46 <= read.value.next)
  {
    SignedBytes(data, at);
    hide U16, U32;
  }

  lemma LocalRefusal(data: seq<byte>, at: nat, c: Central, directory: nat)
    requires ReadAt(data, at, c)
    ensures
      var refusal := CheckLocal(data, c, directory);
      refusal.Some? ==> LocalDefect(data, at, directory, refusal.value)
  {
    SignedBytes(data, c.localOffset);
    hide U16, U32;
  }

  /** Encryption is named first: any odd flag word of a readable, signed local header is refused as encrypted. */
  lemma EncryptionIsNamed(data: seq<byte>, at: nat, c: Central, directory: nat)
    requires ReadAt(data, at, c) && at + 46 <= |data|
    ensures
      var local := U32(data, at + 42);
      CheckLocal(data, c, directory) == Some(ArchiveError(UnsupportedEncoding, "encrypted_entry")) <==>
        && local + 30 <= |data| && Bytes4(data, local, 0x50, 0x4b, 0x03, 0x04)
        && (U16(data, at + 8) % 2 == 1 || U16(data, local + 6) % 2 == 1)
  {
    SignedBytes(data, c.localOffset);
    hide U16, U32;
  }

  /** The names are those of records that end before `at`. */
  ghost predicate Earlier(data: seq<byte>, at: nat, names: set<seq<byte>>) {
    forall name :: name in names ==> exists q: nat :: q + 46 <= at && CentralName(data, q) == name
  }

  /** Some record of the scan has the defect, or the records end elsewhere than declared. */
  ghost predicate ScanDefect(data: seq<byte>, d: Directory, limits: Limits, e: ArchiveError) {
    var end := d.offset + d.size;
    || e == ArchiveError(Malformed, "central_directory_size")
    || (exists at, names :: Earlier(data, at, names) && CentralDefect(data, at, names, end, limits, e))
    || (exists at: nat :: at + 46 <= |data| && LocalDefect(data, at, d.offset, e))
  }

  lemma EarlierGrows(data: seq<byte>, at: nat, names: set<seq<byte>>, c: Central)
    requires Earlier(data, at, names) && ReadAt(data, at, c) && at + 46 <= c.next
    ensures Earlier(data, c.next, names + {c.name})
  {
    hide CentralName;
    forall name | name in names + {c.name} ensures exists q: nat :: q + 46 <= c.next && CentralName(data, q) == name {
      if name == c.name {
        assert CentralName(data, at) == name;
      } else {
        var q: nat :| q + 46 <= at && CentralName(data, q) == name;
      }
    }
  }

  lemma {:induction false} ScanRefusal(data: seq<byte>, d: Directory, limits: Limits, at: nat, names: set<seq<byte>>,
                                       left: nat)
    requires Scan(data, d, limits, at, names, left).Err? && Earlier(data, at, names)
    ensures ScanDefect(data, d, limits, Scan(data, d, limits, at, names, left).error)
    decreases left
  {
    hide ReadCentral, CheckLocal, CentralDefect, LocalDefect;
    if left == 0 {
    } else {
      CentralRefusal(data, at, names, d.offset + d.size, limits);
      var read := ReadCentral(data, at, names, d.offset + d.size, limits);
      if read.Ok? {
        LocalRefusal(data, at, read.value, d.offset);
        if CheckLocal(data, read.value, d.offset).None? {
          EarlierGrows(data, at, names, read.value);
          ScanRefusal(data, d, limits, read.value.next, names + {read.value.name}, left - 1);
        }
      }
    }
  }

  /** Every refusal names a defect the bytes have: no closing record, a defect of it, or one of a record. */
  lemma RefusalsNameDefects(data: seq<byte>, limits: Limits)
    ensures
      var r := Preflight(data, limits);
      r.Err? ==>
        || (r.error == ArchiveError(Malformed, "eocd_missing") && forall p :: !Closes(data, p))
        || (exists at: nat :: Closes(data, at) && EndDefect(data, at, limits.maxEntries, r.error))
        || (exists at: nat :: Closes(data, at) &&
              ScanDefect(data, Directory(U16(data, at + 10), U32(data, at + 16), U32(data, at + 12)), limits, r.error))
  {
    hide Scan, U16, U32;
    var found := EndOfCentralDirectory(data, limits.maxEntries);
    if |data| < EOCD_MINIMUM {
    } else {
      LastClosingIsLast(data, |data| - Min(|data|, EOCD_SEARCH), |data|);
      match LastClosing(data, |data| - Min(|data|, EOCD_SEARCH), |data|)
      case None => NoneCloses(data);
      case Some(at) =>
        assert Closes(data, at);
        if found.Err? {
          assert EndDefect(data, at, limits.maxEntries, found.error);
        } else if Preflight(data, limits).Err? {
          ScanRefusal(data, found.value, limits, found.value.offset, {}, found.value.entries);
        }
    }
  }

  lemma NoneCloses(data: seq<byte>)
    requires |data| >= EOCD_MINIMUM && LastClosing(data, |data| - Min(|data|, EOCD_SEARCH), |data|).None?
    ensures forall p :: !Closes(data, p)
  {
    LastClosingIsLast(data, |data| - Min(|data|, EOCD_SEARCH), |data|);
  }
}
