/**
 The saved-post section of a data export: classification of every element, retention of what is not
 understood, and one sorted output (crates/instagram-archive/src/data_export/parser.rs:158-286).
 */
module ExportParser {
  import opened Prelude
  import opened Sorting
  import Permalink

  /** A decoded JSON value; an object lists its fields, whose names differ, in iteration order. */
  datatype Json = Object(fields: seq<(string, Json)>) | Array(items: seq<Json>) | Scalar(text: string)

  /** The strict wire form of one saved element. */
  datatype Wire = Wire(title: string, href: string, timestamp: int)

  datatype Record = Record(shortcode: string, url: string, author: Option<string>, observedAt: int, digest: string)

  datatype Semantic = Semantic(shortcode: string, url: string, author: Option<string>, observedAt: int)

  datatype UnknownRecord = UnknownRecord(evidenceKey: string, digest: string, raw: Json)

  datatype Warning = Warning(code: string, evidenceKey: string)

  datatype InventoryEntry = InventoryEntry(path: string, compressed: nat, decompressed: nat)

  datatype UnknownEntry = UnknownEntry(path: string, compressed: nat, decompressed: nat, mediaReference: bool)

  datatype ParsedExport = ParsedExport(
    records: seq<Record>,
    unknownEntries: seq<UnknownEntry>,
    unknownRecords: seq<UnknownRecord>,
    warnings: seq<Warning>,
    knownEntryDigest: string
  )

  datatype ParserError = UnsupportedLayout | InvalidJson

  /** The libraries the parser calls: strict decoding, text and time rules, and digests. */
  datatype Library = Library(
    decode: Json -> Option<Wire>,
    author: string -> Option<string>,
    timestampOk: int -> bool,
    recordDigest: Semantic -> string,
    rawDigest: Json -> string,
    sectionDigest: (seq<Record>, seq<UnknownRecord>) -> string
  )

  const SAVED_FIELD := "saved_saved_media"
  const SAVED_POSTS_PATH := "your_instagram_activity/saved/saved_posts.json"

  // ---------------------------------------------------------------- elements

  datatype Class = Normalized(record: Record) | Unknown(code: string)

  function Classify(lib: Library, value: Json): Class {
    match lib.decode(value)
    case None => Unknown("unknown_saved_record")
    case Some(wire) =>
      match Permalink.Canonicalize(wire.href)
      case Err(_) => Unknown("invalid_saved_permalink")
      case Ok(canonical) =>
        if !lib.timestampOk(wire.timestamp) then Unknown("invalid_observation_timestamp")
        else
          var author := lib.author(wire.title);
          var digest := lib.recordDigest(Semantic(canonical.shortcode, canonical.url, author, wire.timestamp));
          Normalized(Record(canonical.shortcode, canonical.url, author, wire.timestamp, digest))
  }

  datatype Pending = Pending(code: string, digest: string, raw: Json)

  function Records(lib: Library, saved: seq<Json>): seq<Record> {
    if saved == [] then []
    else
      var verdict := Classify(lib, saved[|saved| - 1]);
      Records(lib, saved[..|saved| - 1]) + if verdict.Normalized? then [verdict.record] else []
  }

  function Unknowns(lib: Library, saved: seq<Json>): seq<Pending> {
    if saved == [] then []
    else
      var last := saved[|saved| - 1];
      var verdict := Classify(lib, last);
      Unknowns(lib, saved[..|saved| - 1]) + if verdict.Unknown?
        then [Pending(verdict.code, lib.rawDigest(last), last)] else []
  }

  function Wrapped(field: (string, Json)): Json {
    Object([field])
  }

  function FieldUnknown(lib: Library, field: (string, Json)): Pending {
    Pending("unknown_saved_section_field", lib.rawDigest(Wrapped(field)), Wrapped(field))
  }

  function FieldUnknowns(lib: Library, fields: seq<(string, Json)>): seq<Pending> {
    seq(|fields|, i requires 0 <= i < |fields| => FieldUnknown(lib, fields[i]))
  }

  // ---------------------------------------------------------------- output

  function RecordKey(r: Record): Key { (r.shortcode, r.digest) }

  function PendingKey(p: Pending): Key { (p.digest, "") }

  function WarningKey(w: Warning): Key { (w.code, w.evidenceKey) }

  function EntryKey(e: UnknownEntry): Key { (e.path, "") }

  function EvidenceKey(digest: string, ordinal: nat): string {
    "unknown_record:" + digest + ":" + Decimal(ordinal)
  }

  function NumberedRecord(p: Pending, ordinal: nat): UnknownRecord {
    UnknownRecord(EvidenceKey(p.digest, ordinal), p.digest, p.raw)
  }

  function Numbered(pending: seq<Pending>): seq<UnknownRecord> {
    seq(|pending|, i requires 0 <= i < |pending| => NumberedRecord(pending[i], i))
  }

  function RecordWarnings(pending: seq<Pending>): seq<Warning> {
    seq(|pending|, i requires 0 <= i < |pending| => Warning(pending[i].code, EvidenceKey(pending[i].digest, i)))
  }

  /** The text after the last dot, if there is one. */
  function Extension(path: string): Option<string> {
    if path == [] then None
    else if path[|path| - 1] == '.' then Some([])
    else
      match Extension(path[..|path| - 1])
      case None => None
      case Some(e) => Some(e + [Permalink.Lower(path[|path| - 1])])
  }

  predicate MediaReferencePath(path: string) {
    && "media/" <= path
    && Extension(path).Some?
    && Extension(path).value in ["jpg", "jpeg", "png", "webp", "gif", "mp4", "mov"]
  }

  function Entries(inventory: seq<InventoryEntry>): seq<UnknownEntry> {
    if inventory == [] then []
    else
      var last := inventory[|inventory| - 1];
      Entries(inventory[..|inventory| - 1])
      + if last.path == SAVED_POSTS_PATH then []
        else [UnknownEntry(last.path, last.compressed, last.decompressed, MediaReferencePath(last.path))]
  }

  function EntryWarnings(entries: seq<UnknownEntry>): seq<Warning> {
    seq(|entries|, i requires 0 <= i < |entries| => Warning("unknown_archive_section", "entry:" + entries[i].path))
  }

  function MediaWarnings(entries: seq<UnknownEntry>): seq<Warning> {
    if entries == [] then []
    else
      var last := entries[|entries| - 1];
      MediaWarnings(entries[..|entries| - 1])
      + if last.mediaReference then [Warning("media_bytes_reference_only", "entry:" + last.path)] else []
  }

  function SortedPending(lib: Library, saved: seq<Json>, rest: seq<(string, Json)>): seq<Pending> {
    SortBy(Unknowns(lib, saved) + FieldUnknowns(lib, rest), PendingKey)
  }

  function Output(lib: Library, saved: seq<Json>, rest: seq<(string, Json)>,
                  inventory: seq<InventoryEntry>): ParsedExport {
    var records := SortBy(Records(lib, saved), RecordKey);
    var pending := SortedPending(lib, saved, rest);
    var entries := SortBy(Entries(inventory), EntryKey);
    var warnings := SortBy(RecordWarnings(pending) + EntryWarnings(entries) + MediaWarnings(entries), WarningKey);
    ParsedExport(records, entries, Numbered(pending), warnings, lib.sectionDigest(records, Numbered(pending)))
  }

  function FieldIndex(fields: seq<(string, Json)>, name: string): (r: Option<nat>)
    ensures r.Some? ==> r.value < |fields| && fields[r.value].0 == name
    ensures r.None? ==> forall i :: 0 <= i < |fields| ==> fields[i].0 != name
  {
    if fields == [] then None
    else if fields[0].0 == name then Some(0)
    else
      match FieldIndex(fields[1..], name)
      case None => None
      case Some(i) => Some(i + 1)
  }

  function Parse(lib: Library, decoded: Option<Json>, inventory: seq<InventoryEntry>): Result<ParsedExport,
                 ParserError> {
    if decoded.None? || !decoded.value.Object? then Err(InvalidJson)
    else
      var fields := decoded.value.fields;
      match FieldIndex(fields, SAVED_FIELD)
      case None => Err(UnsupportedLayout)
      case Some(at) =>
        if !fields[at].1.Array? then Err(InvalidJson)
        else Ok(Output(lib, fields[at].1.items, fields[..at] + fields[at + 1..], inventory))
  }

  // ---------------------------------------------------------------- conservation

  lemma {:induction false} EveryElementOnce(lib: Library, saved: seq<Json>)
    ensures |Records(lib, saved)| + |Unknowns(lib, saved)| == |saved|
  {
    if saved == [] {
    } else {
      EveryElementOnce(lib, saved[..|saved| - 1]);
    }
  }

  /** How a saved element that is not understood is kept. */
  function Kept(lib: Library, value: Json): Pending {
    var verdict := Classify(lib, value);
    Pending(if verdict.Unknown? then verdict.code else "", lib.rawDigest(value), value)
  }

  function ClassIs(lib: Library, verdict: Class): Json -> bool {
    (value: Json) => Classify(lib, value) == verdict
  }

  function UnknownRaw(lib: Library, raw: Json): Json -> bool {
    (value: Json) => Classify(lib, value).Unknown? && value == raw
  }

  function KeptAs(lib: Library, p: Pending): Json -> bool {
    (value: Json) => Classify(lib, value).Unknown? && Kept(lib, value) == p
  }

  function WrapsTo(raw: Json): ((string, Json)) -> bool {
    (field: (string, Json)) => Wrapped(field) == raw
  }

  function PendingRaw(raw: Json): Pending -> bool {
    (p: Pending) => p.raw == raw
  }

  function RecordRaw(raw: Json): UnknownRecord -> bool {
    (u: UnknownRecord) => u.raw == raw
  }

  predicate IsMedia(e: UnknownEntry) { e.mediaReference }

  predicate NotSaved(e: InventoryEntry) { e.path != SAVED_POSTS_PATH }

  lemma {:induction false} RecordsCount(lib: Library, saved: seq<Json>, r: Record)
    ensures multiset(Records(lib, saved))[r] == CountBy(saved, ClassIs(lib, Normalized(r)))
  {
    hide Classify;
    if saved == [] {
    } else {
      RecordsCount(lib, saved[..|saved| - 1], r);
    }
  }

  lemma {:induction false} UnknownsCount(lib: Library, saved: seq<Json>, p: Pending)
    ensures multiset(Unknowns(lib, saved))[p] ==
            CountBy(saved, KeptAs(lib, p))
  {
    hide Classify;
    if saved == [] {
    } else {
      UnknownsCount(lib, saved[..|saved| - 1], p);
    }
  }

  lemma {:induction false} UnknownsByRaw(lib: Library, saved: seq<Json>, raw: Json)
    ensures CountBy(Unknowns(lib, saved), PendingRaw(raw)) ==
            CountBy(saved, UnknownRaw(lib, raw))
  {
    hide Classify;
    if saved == [] {
    } else {
      var front, last := saved[..|saved| - 1], saved[|saved| - 1];
      UnknownsByRaw(lib, front, raw);
      var tail := if Classify(lib, last).Unknown? then [Kept(lib, last)] else [];
      assert Unknowns(lib, saved) == Unknowns(lib, front) + tail;
      assert CountBy(saved, UnknownRaw(lib, raw)) ==
             CountBy(front, UnknownRaw(lib, raw)) + if UnknownRaw(lib, raw)(last) then 1 else 0;
      hide Unknowns;
      CountConcat(Unknowns(lib, front), tail, PendingRaw(raw));
      assert tail != [] ==> tail[..0] == [];
    }
  }

  lemma {:induction false} FieldsByRaw(lib: Library, rest: seq<(string, Json)>, raw: Json)
    ensures CountBy(FieldUnknowns(lib, rest), PendingRaw(raw)) == CountBy(rest, WrapsTo(raw))
  {
    if rest == [] {
    } else {
      FieldsByRaw(lib, rest[..|rest| - 1], raw);
      assert FieldUnknowns(lib, rest)[..|rest| - 1] == FieldUnknowns(lib, rest[..|rest| - 1]);
    }
  }

  lemma {:induction false} NumberedByRaw(pending: seq<Pending>, raw: Json)
    ensures CountBy(Numbered(pending), RecordRaw(raw)) == CountBy(pending, PendingRaw(raw))
  {
    hide EvidenceKey;
    if pending == [] {
    } else {
      NumberedByRaw(pending[..|pending| - 1], raw);
      assert Numbered(pending)[..|pending| - 1] == Numbered(pending[..|pending| - 1]);
    }
  }

  /**
   Conservation: every saved element and every other field of the section ends as exactly one
   normalized record or exactly one raw unknown record, with its multiplicity.
   */
  lemma Conservation(lib: Library, saved: seq<Json>, rest: seq<(string, Json)>, inventory: seq<InventoryEntry>,
                     r: Record,
                     raw: Json)
    ensures
      var out := Output(lib, saved, rest, inventory);
      && |out.records| + |out.unknownRecords| == |saved| + |rest|
      && multiset(out.records)[r] == CountBy(saved, ClassIs(lib, Normalized(r)))
      && CountBy(out.unknownRecords, RecordRaw(raw)) ==
         CountBy(saved, UnknownRaw(lib, raw))
         + CountBy(rest, WrapsTo(raw))
  {
    hide Classify, EvidenceKey, SortBy, Records, Unknowns, Entries, MediaWarnings;
    EveryElementOnce(lib, saved);
    RecordsCount(lib, saved, r);
    SortSorts(Records(lib, saved), RecordKey);
    SameLength(SortBy(Records(lib, saved), RecordKey), Records(lib, saved));
    var all := Unknowns(lib, saved) + FieldUnknowns(lib, rest);
    SortSorts(all, PendingKey);
    SameLength(SortBy(all, PendingKey), all);
    NumberedByRaw(SortBy(all, PendingKey), raw);
    CountPermuted(SortBy(all, PendingKey), all, PendingRaw(raw));
    CountConcat(Unknowns(lib, saved), FieldUnknowns(lib, rest), PendingRaw(raw));
    UnknownsByRaw(lib, saved, raw);
    FieldsByRaw(lib, rest, raw);
  }

  lemma SameLength<T>(a: seq<T>, b: seq<T>)
    requires multiset(a) == multiset(b)
    ensures |a| == |b|
  {
    assert |multiset(a)| == |a| && |multiset(b)| == |b|;
  }

  lemma {:induction false} MediaCount(entries: seq<UnknownEntry>)
    ensures |MediaWarnings(entries)| == CountBy(entries, IsMedia)
  {
    if entries == [] {
    } else {
      MediaCount(entries[..|entries| - 1]);
    }
  }

  lemma {:induction false} EntriesCount(inventory: seq<InventoryEntry>)
    ensures |Entries(inventory)| == CountBy(inventory, NotSaved)
  {
    hide MediaReferencePath;
    if inventory == [] {
    } else {
      EntriesCount(inventory[..|inventory| - 1]);
    }
  }

  /**
   One warning per unknown record, per unknown entry and per media reference, and each record's own one among
   them.
   */
  lemma WarningsAddUp(lib: Library, saved: seq<Json>, rest: seq<(string, Json)>, inventory: seq<InventoryEntry>)
    ensures
      var out := Output(lib, saved, rest, inventory);
      && |out.warnings| == |out.unknownRecords| + |out.unknownEntries| + CountBy(out.unknownEntries, IsMedia)
      && |out.unknownEntries| == CountBy(inventory, NotSaved)
      && (forall u :: u in out.unknownRecords ==> exists w :: w in out.warnings && w.evidenceKey == u.evidenceKey)
  {
    var pending := SortedPending(lib, saved, rest);
    var entries := SortBy(Entries(inventory), EntryKey);
    var all := RecordWarnings(pending) + EntryWarnings(entries) + MediaWarnings(entries);
    var out := Output(lib, saved, rest, inventory);
    hide SortedPending, SortBy, EvidenceKey, Entries, MediaWarnings, Records;
    SortSorts(Entries(inventory), EntryKey);
    SameLength(entries, Entries(inventory));
    SortSorts(all, WarningKey);
    SameLength(SortBy(all, WarningKey), all);
    MediaCount(entries);
    EntriesCount(inventory);
    forall u | u in out.unknownRecords ensures exists w :: w in out.warnings && w.evidenceKey == u.evidenceKey {
      var i :| 0 <= i < |out.unknownRecords| && out.unknownRecords[i] == u;
      var w := RecordWarnings(pending)[i];
      assert all[i] == w;
      assert w in multiset(all);
      assert w in multiset(out.warnings);
      assert w in out.warnings && w.evidenceKey == u.evidenceKey;
    }
  }

  /** Evidence keys never repeat, even for exact duplicates, as long as digests have one length. */
  lemma EvidenceKeysDiffer(pending: seq<Pending>, i: nat, j: nat)
    requires i < j < |pending| && |pending[i].digest| == |pending[j].digest|
    ensures Numbered(pending)[i].evidenceKey != Numbered(pending)[j].evidenceKey
  {
    var a, b := EvidenceKey(pending[i].digest, i), EvidenceKey(pending[j].digest, j);
    if a == b {
      var cut := |"unknown_record:"| + |pending[i].digest| + 1;
      assert a[cut..] == Decimal(i) && b[cut..] == Decimal(j);
      DecimalInjective(i, j);
    }
  }

  // ---------------------------------------------------------------- what a record carries

  /** An element the parser understands: it decodes, its link is accepted and its instant exists. */
  predicate Understood(lib: Library, value: Json) {
    && lib.decode(value).Some?
    && Permalink.Canonicalize(lib.decode(value).value.href).Ok?
    && lib.timestampOk(lib.decode(value).value.timestamp)
  }

  /** The record of an understood element: shortcode and URL of its link, its title's author, its instant. */
  function RecordOf(lib: Library, value: Json): Record
    requires Understood(lib, value)
  {
    var wire := lib.decode(value).value;
    var link := Permalink.Canonicalize(wire.href).value;
    var author := lib.author(wire.title);
    Record(link.shortcode, link.url, author, wire.timestamp,
           lib.recordDigest(Semantic(link.shortcode, link.url, author, wire.timestamp)))
  }

  /** Why an element is kept raw. */
  function CodeOf(lib: Library, value: Json): string
    requires !Understood(lib, value)
  {
    if lib.decode(value).None? then "unknown_saved_record"
    else if Permalink.Canonicalize(lib.decode(value).value.href).Err? then "invalid_saved_permalink"
    else "invalid_observation_timestamp"
  }

  /**
   Every saved element ends as its own record, or raw with a warning that says why, and every other field of
   the section raw with its own warning.
   */
  lemma ElementsEndAsTheirRecords(lib: Library, saved: seq<Json>, rest: seq<(string, Json)>,
                                  inventory: seq<InventoryEntry>, value: Json, field: (string, Json))
    ensures
      var out := Output(lib, saved, rest, inventory);
      && (value in saved && Understood(lib, value) ==> RecordOf(lib, value) in out.records)
      && (value in saved && !Understood(lib, value) ==> KeptRaw(out, value, lib.rawDigest(value), CodeOf(lib, value)))
      && (field in rest ==>
            KeptRaw(out, Object([field]), lib.rawDigest(Object([field])), "unknown_saved_section_field"))
  {
    hide Permalink.Canonicalize, SortBy, Records, Unknowns, Entries, MediaWarnings, EvidenceKey;
    var pending := Unknowns(lib, saved) + FieldUnknowns(lib, rest);
    if value in saved {
      if Understood(lib, value) {
        RecordListed(lib, saved, value);
        SortSorts(Records(lib, saved), RecordKey);
        assert RecordOf(lib, value) in multiset(Records(lib, saved));
      } else {
        UnknownListed(lib, saved, value);
        PendingIsKept(lib, saved, rest, inventory, Pending(CodeOf(lib, value), lib.rawDigest(value), value));
      }
    }
    if field in rest {
      var i :| 0 <= i < |rest| && rest[i] == field;
      assert FieldUnknowns(lib, rest)[i] == FieldUnknown(lib, field);
      PendingIsKept(lib, saved, rest, inventory, FieldUnknown(lib, field));
    }
  }

  /** The output keeps the value raw under its digest, with a warning of that code for the same evidence. */
  predicate KeptRaw(out: ParsedExport, raw: Json, digest: string, code: string) {
    exists i :: 0 <= i < |out.unknownRecords|
                && out.unknownRecords[i].raw == raw && out.unknownRecords[i].digest == digest
                && Warning(code, out.unknownRecords[i].evidenceKey) in out.warnings
  }

  lemma {:induction false} RecordListed(lib: Library, saved: seq<Json>, value: Json)
    requires value in saved && Understood(lib, value)
    ensures RecordOf(lib, value) in Records(lib, saved)
  {
    hide Permalink.Canonicalize;
    if saved[|saved| - 1] == value {
    } else {
      RecordListed(lib, saved[..|saved| - 1], value);
    }
  }

  lemma {:induction false} UnknownListed(lib: Library, saved: seq<Json>, value: Json)
    requires value in saved && !Understood(lib, value)
    ensures Pending(CodeOf(lib, value), lib.rawDigest(value), value) in Unknowns(lib, saved)
  {
    hide Permalink.Canonicalize;
    if saved[|saved| - 1] == value {
    } else {
      UnknownListed(lib, saved[..|saved| - 1], value);
    }
  }

  lemma PendingIsKept(lib: Library, saved: seq<Json>, rest: seq<(string, Json)>, inventory: seq<InventoryEntry>,
                      p: Pending)
    requires p in Unknowns(lib, saved) + FieldUnknowns(lib, rest)
    ensures KeptRaw(Output(lib, saved, rest, inventory), p.raw, p.digest, p.code)
  {
    hide SortBy, Records, Unknowns, Entries, MediaWarnings, EvidenceKey;
    var all := Unknowns(lib, saved) + FieldUnknowns(lib, rest);
    var pending := SortedPending(lib, saved, rest);
    SortSorts(all, PendingKey);
    assert p in multiset(all) && p in multiset(pending);
    var i :| 0 <= i < |pending| && pending[i] == p;
    var out := Output(lib, saved, rest, inventory);
    var warnings := RecordWarnings(pending) + EntryWarnings(out.unknownEntries) + MediaWarnings(out.unknownEntries);
    SortSorts(warnings, WarningKey);
    assert warnings[i] == Warning(p.code, out.unknownRecords[i].evidenceKey);
    assert warnings[i] in multiset(warnings) && warnings[i] in multiset(out.warnings);
  }

  /** The output is sorted: records by shortcode and digest, entries by path, warnings by code and evidence. */
  lemma OutputIsSorted(lib: Library, saved: seq<Json>, rest: seq<(string, Json)>, inventory: seq<InventoryEntry>)
    ensures
      var out := Output(lib, saved, rest, inventory);
      && (forall i, j :: 0 <= i < j < |out.records| ==>
            KeyLe((out.records[i].shortcode, out.records[i].digest), (out.records[j].shortcode, out.records[j].digest)))
      && (forall i, j :: 0 <= i < j < |out.unknownEntries| ==>
            TextLe(out.unknownEntries[i].path, out.unknownEntries[j].path))
      && (forall i, j :: 0 <= i < j < |out.unknownRecords| ==>
            TextLe(out.unknownRecords[i].digest, out.unknownRecords[j].digest))
      && (forall i, j :: 0 <= i < j < |out.warnings| ==>
            KeyLe((out.warnings[i].code, out.warnings[i].evidenceKey),
                  (out.warnings[j].code, out.warnings[j].evidenceKey)))
  {
    hide SortBy, Records, Unknowns, Entries, MediaWarnings, EvidenceKey, TextLe;
    var pending := SortedPending(lib, saved, rest);
    var out := Output(lib, saved, rest, inventory);
    SortSorts(Records(lib, saved), RecordKey);
    SortSorts(Unknowns(lib, saved) + FieldUnknowns(lib, rest), PendingKey);
    SortSorts(Entries(inventory), EntryKey);
    SortSorts(RecordWarnings(pending) + EntryWarnings(out.unknownEntries) + MediaWarnings(out.unknownEntries),
              WarningKey);
    forall i, j | 0 <= i < j < |out.unknownEntries|
      ensures TextLe(out.unknownEntries[i].path, out.unknownEntries[j].path)
    {
      assert KeyLe(EntryKey(out.unknownEntries[i]), EntryKey(out.unknownEntries[j]));
      TextTotal(out.unknownEntries[i].path, out.unknownEntries[i].path);
    }
    forall i, j | 0 <= i < j < |pending| ensures TextLe(pending[i].digest, pending[j].digest) {
      assert KeyLe(PendingKey(pending[i]), PendingKey(pending[j]));
      TextTotal(pending[i].digest, pending[i].digest);
    }
  }

  lemma {:induction false} EntryListed(inventory: seq<InventoryEntry>, e: UnknownEntry)
    ensures e in Entries(inventory) <==>
              exists i :: 0 <= i < |inventory| && EntryOf(inventory[i]) == e
                          && inventory[i].path != "your_instagram_activity/saved/saved_posts.json"
  {
    hide MediaReferencePath;
    if inventory == [] {
    } else {
      EntryListed(inventory[..|inventory| - 1], e);
      assert inventory[|inventory| - 1] in inventory;
    }
  }

  /** The listed form of an archive entry: its own path and sizes, and whether it is a media reference. */
  function EntryOf(entry: InventoryEntry): UnknownEntry {
    UnknownEntry(entry.path, entry.compressed, entry.decompressed, MediaReferencePath(entry.path))
  }

  /** The unknown entries are exactly the archive's entries other than the saved-post section, as they are. */
  lemma EntriesAreListed(lib: Library, saved: seq<Json>, rest: seq<(string, Json)>, inventory: seq<InventoryEntry>,
                         e: UnknownEntry)
    ensures e in Output(lib, saved, rest, inventory).unknownEntries <==>
              exists i :: 0 <= i < |inventory| && EntryOf(inventory[i]) == e
                          && inventory[i].path != "your_instagram_activity/saved/saved_posts.json"
  {
    hide SortBy, Entries, MediaReferencePath, Records, SortedPending, MediaWarnings;
    EntryListed(inventory, e);
    SortSorts(Entries(inventory), EntryKey);
    SameElements(Entries(inventory), SortBy(Entries(inventory), EntryKey));
    SameElements(SortBy(Entries(inventory), EntryKey), Entries(inventory));
  }

  /** The first field with the name the section is saved under. */
  predicate SavedAt(fields: seq<(string, Json)>, i: nat) {
    i < |fields| && fields[i].0 == "saved_saved_media" && forall j :: 0 <= j < i ==> fields[j].0 != "saved_saved_media"
  }

  /**
   What decides the parse: text that is no JSON object is invalid, an object without the saved field is an
   unsupported layout, and that field must be an array; all other fields are kept beside its elements.
   */
  lemma ParseDecided(lib: Library, decoded: Option<Json>, inventory: seq<InventoryEntry>)
    ensures
      var r := Parse(lib, decoded, inventory);
      if decoded.None? || !decoded.value.Object? then r == Err(InvalidJson)
      else
        var fields := decoded.value.fields;
        && ((forall i :: 0 <= i < |fields| ==> fields[i].0 != "saved_saved_media") ==> r == Err(UnsupportedLayout))
        && (forall i: nat :: SavedAt(fields, i) ==>
              r == if fields[i].1.Array?
                   then Ok(Output(lib, fields[i].1.items, fields[..i] + fields[i + 1..], inventory))
                   else Err(InvalidJson))
  {
    hide Output, FieldIndex;
    if decoded.Some? && decoded.value.Object? {
      var fields := decoded.value.fields;
      forall i: nat | SavedAt(fields, i) ensures FieldIndex(fields, SAVED_FIELD) == Some(i) {
        FieldIndexIsFirst(fields, i);
      }
    }
  }

  lemma {:induction false} FieldIndexIsFirst(fields: seq<(string, Json)>, i: nat)
    requires SavedAt(fields, i)
    ensures FieldIndex(fields, SAVED_FIELD) == Some(i)
    decreases i
  {
    if i > 0 {
      assert forall j :: 0 <= j < i - 1 ==> fields[1..][j] == fields[j + 1];
      FieldIndexIsFirst(fields[1..], i - 1);
    }
  }

  // ---------------------------------------------------------------- media references

  /** The text after the last dot, in lower case. */
  lemma {:induction false} ExtensionIs(stem: string, ext: string)
    requires Lacks(ext, '.')
    ensures Extension(stem + "." + ext) == Some(Permalink.LowerAll(ext))
    decreases |ext|
  {
    var path := stem + "." + ext;
    if ext == [] {
      assert path[|path| - 1] == '.';
    } else {
      var front := ext[..|ext| - 1];
      assert path[..|path| - 1] == stem + "." + front && path[|path| - 1] == ext[|ext| - 1];
      ExtensionIs(stem, front);
      assert Permalink.LowerAll(ext) == Permalink.LowerAll(front) + [Permalink.Lower(ext[|ext| - 1])];
    }
  }

  lemma {:induction false} NoExtension(path: string)
    ensures Extension(path).None? <==> Lacks(path, '.')
  {
    if path == [] {
    } else {
      NoExtension(path[..|path| - 1]);
    }
  }

  /** A media reference is a path under media/ whose last dot is followed by one of seven extensions in any case. */
  lemma MediaReferenceMeans(stem: string, ext: string)
    requires Lacks(ext, '.')
    ensures
      var path := stem + "." + ext;
      MediaReferencePath(path) <==>
        "media/" <= path && Permalink.LowerAll(ext) in ["jpg", "jpeg", "png", "webp", "gif", "mp4", "mov"]
    ensures Lacks(stem, '.') ==> !MediaReferencePath(stem)
  {
    ExtensionIs(stem, ext);
    NoExtension(stem);
  }

  // ---------------------------------------------------------------- order independence

  /** Two saved elements with the same record digest are understood as the same record. */
  predicate RecordsApart(lib: Library, saved: seq<Json>) {
    forall i, j :: 0 <= i < |saved| && 0 <= j < |saved| ==>
      SameIfCollide(Classify(lib, saved[i]), Classify(lib, saved[j]))
  }

  predicate SameIfCollide(a: Class, b: Class) {
    a.Normalized? && b.Normalized? && a.record.digest == b.record.digest ==> a == b
  }

  /** Among the saved elements of this export, equal digests mean equal contents. */
  predicate CollisionFree(lib: Library, saved: seq<Json>) {
    && RecordsApart(lib, saved)
    && (forall i, j :: 0 <= i < |saved| && 0 <= j < |saved| && lib.rawDigest(saved[i]) == lib.rawDigest(saved[j]) ==>
          saved[i] == saved[j])
  }

  lemma {:induction false} RecordOfElement(lib: Library, saved: seq<Json>, r: Record)
    ensures r in Records(lib, saved) <==> exists i :: 0 <= i < |saved| && Classify(lib, saved[i]) == Normalized(r)
  {
    hide Classify;
    if saved == [] {
    } else {
      RecordOfElement(lib, saved[..|saved| - 1], r);
      assert saved[|saved| - 1] in saved;
    }
  }

  lemma RecordsCollide(lib: Library, saved: seq<Json>, a: Record, b: Record)
    requires RecordsApart(lib, saved) && a in Records(lib, saved) && b in Records(lib, saved) && a.digest == b.digest
    ensures a == b
  {
    hide Classify, Records;
    RecordOfElement(lib, saved, a);
    RecordOfElement(lib, saved, b);
    var i :| 0 <= i < |saved| && Classify(lib, saved[i]) == Normalized(a);
    var j :| 0 <= j < |saved| && Classify(lib, saved[j]) == Normalized(b);
    assert SameIfCollide(Classify(lib, saved[i]), Classify(lib, saved[j]));
  }

  lemma {:induction false} UnknownsFaithful(lib: Library, saved: seq<Json>)
    ensures forall p :: p in Unknowns(lib, saved) ==> p == Kept(lib, p.raw) && p.raw in saved
  {
    hide Classify;
    if saved == [] {
    } else {
      UnknownsFaithful(lib, saved[..|saved| - 1]);
    }
  }

  lemma RecordsPermute(lib: Library, a: seq<Json>, b: seq<Json>)
    requires RecordsApart(lib, a) && multiset(a) == multiset(b)
    ensures SortBy(Records(lib, a), RecordKey) == SortBy(Records(lib, b), RecordKey)
  {
    hide Classify, Records, SortBy, Among;
    forall r ensures multiset(Records(lib, a))[r] == multiset(Records(lib, b))[r] {
      RecordsCount(lib, a, r);
      RecordsCount(lib, b, r);
      CountPermuted(a, b, ClassIs(lib, Normalized(r)));
    }
    assert multiset(Records(lib, a)) == multiset(Records(lib, b));
    forall x, y | x in Records(lib, a) && y in Records(lib, a) && RecordKey(x) == RecordKey(y) ensures x == y {
      RecordsCollide(lib, a, x, y);
    }
    forall k ensures Among(Records(lib, a), RecordKey, k) == Among(Records(lib, b), RecordKey, k) {
      PermutedClasses(Records(lib, a), Records(lib, b), RecordKey, k);
    }
    SameClassesSameSort(Records(lib, a), Records(lib, b), RecordKey);
  }

  /** A saved element and a wrapped field may share a digest; stability keeps the saved ones first. */
  lemma PendingPermute(lib: Library, a: seq<Json>, b: seq<Json>, rest: seq<(string, Json)>)
    requires CollisionFree(lib, a) && multiset(a) == multiset(b)
    ensures SortedPending(lib, a, rest) == SortedPending(lib, b, rest)
  {
    hide Classify, Unknowns, SortBy, Among;
    forall p ensures multiset(Unknowns(lib, a))[p] == multiset(Unknowns(lib, b))[p] {
      UnknownsCount(lib, a, p);
      UnknownsCount(lib, b, p);
      CountPermuted(a, b, KeptAs(lib, p));
    }
    assert multiset(Unknowns(lib, a)) == multiset(Unknowns(lib, b));
    UnknownsFaithful(lib, a);
    forall x, y | x in Unknowns(lib, a) && y in Unknowns(lib, a) && PendingKey(x) == PendingKey(y) ensures x == y {
      assert x.raw in a && y.raw in a;
    }
    var fields := FieldUnknowns(lib, rest);
    forall k ensures Among(Unknowns(lib, a) + fields, PendingKey, k) == Among(Unknowns(lib, b) + fields, PendingKey,
      k) {
      PermutedClasses(Unknowns(lib, a), Unknowns(lib, b), PendingKey, k);
      AmongConcat(Unknowns(lib, a), fields, PendingKey, k);
      AmongConcat(Unknowns(lib, b), fields, PendingKey, k);
    }
    SameClassesSameSort(Unknowns(lib, a) + fields, Unknowns(lib, b) + fields, PendingKey);
  }

  lemma {:induction false} ReplacedIndex(fields: seq<(string, Json)>, at: nat, value: Json, name: string)
    requires FieldIndex(fields, name) == Some(at)
    ensures FieldIndex(fields[at := (name, value)], name) == Some(at)
  {
    if at > 0 {
      assert fields[at := (name, value)][1..] == fields[1..][at - 1 := (name, value)];
      ReplacedIndex(fields[1..], at - 1, value, name);
    }
  }

  /** Order independence: the whole output is the same for every permutation of the saved array. */
  lemma OrderIndependent(lib: Library, fields: seq<(string, Json)>, at: nat, shuffled: seq<Json>,
                         inventory: seq<InventoryEntry>)
    requires FieldIndex(fields, SAVED_FIELD) == Some(at) && fields[at].1.Array?
             && CollisionFree(lib, fields[at].1.items)
    requires multiset(shuffled) == multiset(fields[at].1.items)
    ensures Parse(lib, Some(Object(fields)), inventory) ==
            Parse(lib, Some(Object(fields[at := (SAVED_FIELD, Array(shuffled))])), inventory)
  {
    hide SortBy, Records, SortedPending, RecordsApart;
    var other := fields[at := (SAVED_FIELD, Array(shuffled))];
    ReplacedIndex(fields, at, Array(shuffled), SAVED_FIELD);
    var rest := fields[..at] + fields[at + 1..];
    assert other[..at] + other[at + 1..] == rest;
    RecordsPermute(lib, fields[at].1.items, shuffled);
    PendingPermute(lib, fields[at].1.items, shuffled, rest);
  }

  // ---------------------------------------------------------------- the parser loop

  method ParseSavedPosts(lib: Library, decoded: Option<Json>, inventory: seq<InventoryEntry>)
    returns (r: Result<ParsedExport, ParserError>)
    ensures r == Parse(lib, decoded, inventory)
  {
    hide Classify, SortBy, EvidenceKey, MediaReferencePath;
    if decoded.None? || !decoded.value.Object? { return Err(InvalidJson); }
    var fields := decoded.value.fields;
    var found := FieldIndex(fields, SAVED_FIELD);
    if found.None? { return Err(UnsupportedLayout); }
    var at := found.value;
    if !fields[at].1.Array? { return Err(InvalidJson); }
    var rest := fields[..at] + fields[at + 1..];
    var records, pending := SplitElements(lib, fields[at].1.items);
    records := SortBy(records, RecordKey);
    var k := 0;
    ghost var unknowns := pending;
    while k < |rest|
      invariant 0 <= k <= |rest|
      invariant pending == unknowns + FieldUnknowns(lib, rest[..k])
    {
      pending := pending + [FieldUnknown(lib, rest[k])];
      k := k + 1;
    }
    assert rest[..k] == rest;
    pending := SortBy(pending, PendingKey);
    var unknownRecords, warnings := NumberRecords(pending);
    var unknownEntries := ListEntries(inventory);
    unknownEntries := SortBy(unknownEntries, EntryKey);
    warnings := warnings + EntryWarnings(unknownEntries) + MediaWarnings(unknownEntries);
    warnings := SortBy(warnings, WarningKey);
    return Ok(ParsedExport(records, unknownEntries, unknownRecords, warnings,
      lib.sectionDigest(records, unknownRecords)));
  }

  method SplitElements(lib: Library, saved: seq<Json>) returns (records: seq<Record>, pending: seq<Pending>)
    ensures records == Records(lib, saved) && pending == Unknowns(lib, saved)
  {
    hide Classify;
    records, pending := [], [];
    var k := 0;
    assert saved[..0] == [];
    while k < |saved|
      invariant 0 <= k <= |saved|
      invariant records == Records(lib, saved[..k]) && pending == Unknowns(lib, saved[..k])
    {
      assert saved[..k + 1][..k] == saved[..k];
      var value := saved[k];
      match Classify(lib, value) {
        case Unknown(code) => pending := pending + [Pending(code, lib.rawDigest(value), value)];
        case Normalized(record) => records := records + [record];
      }
      k := k + 1;
    }
    assert saved[..k] == saved;
  }

  method NumberRecords(pending: seq<Pending>) returns (records: seq<UnknownRecord>, warnings: seq<Warning>)
    ensures records == Numbered(pending) && warnings == RecordWarnings(pending)
  {
    hide EvidenceKey;
    records, warnings := [], [];
    var ordinal := 0;
    while ordinal < |pending|
      invariant 0 <= ordinal <= |pending|
      invariant records == Numbered(pending[..ordinal]) && warnings == RecordWarnings(pending[..ordinal])
    {
      var key := EvidenceKey(pending[ordinal].digest, ordinal);
      warnings := warnings + [Warning(pending[ordinal].code, key)];
      records := records + [UnknownRecord(key, pending[ordinal].digest, pending[ordinal].raw)];
      ordinal := ordinal + 1;
    }
    assert pending[..ordinal] == pending;
  }

  method ListEntries(inventory: seq<InventoryEntry>) returns (entries: seq<UnknownEntry>)
    ensures entries == Entries(inventory)
  {
    hide MediaReferencePath;
    entries := [];
    var k := 0;
    assert inventory[..0] == [];
    while k < |inventory|
      invariant 0 <= k <= |inventory| && entries == Entries(inventory[..k])
    {
      assert inventory[..k + 1][..k] == inventory[..k];
      var entry := inventory[k];
      if entry.path != SAVED_POSTS_PATH {
        entries := entries + [UnknownEntry(entry.path, entry.compressed, entry.decompressed,
          MediaReferencePath(entry.path))];
      }
      k := k + 1;
    }
    assert inventory[..k] == inventory;
  }
}
