/**
 The worker that advances import runs, and which parsed exports it can stage
 (crates/instagram-archive/src/data_export/worker.rs:75-153, 291-296; data_export.rs:387-540).
 */
module ImportWorker {
  import opened Prelude
  import opened Sorting
  import opened ImportRuns
  import EP = ExportParser
  import Permalink

  /** What the immutable archive of a run gives: an inspection refusal, and the parser's answer. */
  datatype Archive = Archive(refusal: Option<string>, parsed: Result<seq<string>, string>)

  /** How one advance ended: in a state, lost to another worker, or on an error that ends the pass. */
  datatype Outcome = Reached(state: State) | Lost | Broken

  function Lapse(e: ImportError): Outcome {
    if e.StateConflict? then Lost else Broken
  }

  function InspectStage(db: Db, id: RunId, archive: Archive): (Db, Outcome) {
    match Transact(db, id, Inspect(archive.refusal))
    case Err(e) => (db, Lapse(e))
    case Ok(out) => (out, Reached(if archive.refusal.Some? then FailedRun else Inspected))
  }

  function ParseStage(db: Db, id: RunId, archive: Archive): (Db, Outcome) {
    var step := if archive.parsed.Ok? then Parse(archive.parsed.value) else RefuseParse(archive.parsed.error);
    match Transact(db, id, step)
    case Err(e) => (db, Lapse(e))
    case Ok(out) => (out, Reached(if archive.parsed.Ok? then Parsed else FailedRun))
  }

  function ReconcileStage(db: Db, id: RunId): (Db, Outcome) {
    match Transact(db, id, ReconcileRun)
    case Err(e) => (db, Lapse(e))
    case Ok(out) => (out, Reached(Reconciled))
  }

  function AdvanceParsed(db: Db, id: RunId): (Db, Outcome) {
    ReconcileStage(db, id)
  }

  function AdvanceInspected(db: Db, id: RunId, archive: Archive): (Db, Outcome) {
    var (parsed, outcome) := ParseStage(db, id, archive);
    if outcome == Reached(Parsed) then AdvanceParsed(parsed, id) else (parsed, outcome)
  }

  /** advance: from the state the selection saw, stage by stage, as far as it goes. */
  function Advance(db: Db, id: RunId, initial: State, archive: Archive): (Db, Outcome) {
    match initial
    case Received =>
      var (inspected, outcome) := InspectStage(db, id, archive);
      if outcome == Reached(Inspected) then AdvanceInspected(inspected, id, archive) else (inspected, outcome)
    case Inspected => AdvanceInspected(db, id, archive)
    case Parsed => AdvanceParsed(db, id)
    case _ => (db, Reached(initial))
  }

  /** Where an undisturbed advance takes a run. */
  function Destination(state: State, archive: Archive): State {
    if state.Received? && archive.refusal.Some? then FailedRun
    else if state.Received? || state.Inspected? then
      (if archive.parsed.Err? then FailedRun
       else if DistinctTexts(archive.parsed.value) then Reconciled
       else Inspected)
    else if state.Parsed? then Reconciled
    else state
  }

  /**
   One undisturbed advance finishes the run, in `reconciled` or `failed`, with one exception: a parsed
   export whose evidence keys repeat breaks the pass and leaves the run inspected, every time again.
   */
  lemma AdvanceReachesDestination(db: Db, id: RunId, archive: Archive)
    requires id in db.runs && RunOk(db.runs[id])
    ensures
      var state := db.runs[id].state;
      var (out, outcome) := Advance(db, id, state, archive);
      && id in out.runs && out.runs[id].state == Destination(state, archive)
      && outcome == (if Destination(state, archive).Inspected? then Broken else Reached(Destination(state, archive)))
      && out == db.(runs := db.runs[id := out.runs[id]])
      && (!Terminal(state) && Destination(state, archive).FailedRun? ==>
            out.runs[id].failureClass == if state.Received? && archive.refusal.Some? then archive.refusal
                                         else Some(archive.parsed.error))
      && (!state.Parsed? && !Terminal(state) && Destination(state, archive).Reconciled? ==>
            out.runs[id].staged == Some(archive.parsed.value))
  {
    hide OnPath, Chained, DistinctTexts;
    if archive.parsed.Ok? { assert [] + archive.parsed.value == archive.parsed.value; }
  }

  /** A worker whose selection is stale changes nothing on a run that another worker finished. */
  lemma StaleAdvanceIsHarmless(db: Db, id: RunId, initial: State, archive: Archive)
    requires id in db.runs && RunOk(db.runs[id]) && Terminal(db.runs[id].state)
    ensures Advance(db, id, initial, archive).0 == db
  {
    hide OnPath, Chained, DistinctTexts;
    assert db.runs[id := db.runs[id]] == db.runs;
  }

  // ---------------------------------------------------------------- evidence keys

  function NormalizedKey(r: EP.Record): string { "normalized:" + r.shortcode + ":" + r.digest }

  function SectionKey(e: EP.UnknownEntry): string { "unknown_section:" + e.path }

  function UnknownKey(u: EP.UnknownRecord): string { u.evidenceKey }

  function WarningText(w: EP.Warning): string { "warning:" + w.code + ":" + w.evidenceKey }

  function Names<T>(s: seq<T>, name: T -> string): seq<string> {
    seq(|s|, i requires 0 <= i < |s| => name(s[i]))
  }

  /** The evidence keys that persist_parsed stages, in insertion order. */
  function StagedKeys(out: EP.ParsedExport): seq<string> {
    Names(out.records, NormalizedKey) + Names(out.unknownEntries, SectionKey) + Names(out.unknownRecords, UnknownKey)
    + Names(out.warnings, WarningText)
  }

  /** The digests of this export have the one length that digest_json gives. */
  predicate DigestLengths(lib: EP.Library, saved: seq<EP.Json>, rest: seq<(string, EP.Json)>) {
    && (forall i :: 0 <= i < |saved| ==>
        |lib.rawDigest(saved[i])| == 64 && RecordDigestLength(EP.Classify(lib, saved[i])))
    && (forall i :: 0 <= i < |rest| ==> |lib.rawDigest(EP.Wrapped(rest[i]))| == 64)
  }

  predicate RecordDigestLength(verdict: EP.Class) {
    verdict.Normalized? ==> |verdict.record.digest| == 64
  }

  predicate DistinctPaths(inventory: seq<EP.InventoryEntry>) {
    forall i, j :: 0 <= i < j < |inventory| ==> inventory[i].path != inventory[j].path
  }

  predicate NoDuplicates(records: seq<EP.Record>) {
    forall i, j :: 0 <= i < j < |records| ==> records[i] != records[j]
  }

  lemma SameSuffix(a: string, b: string, x: string, y: string)
    requires a + x == b + y && |x| == |y|
    ensures x == y
  {
    assert x == (a + x)[|a|..] && y == (b + y)[|b|..];
  }

  lemma NormalizedDiffer(lib: EP.Library, saved: seq<EP.Json>, rest: seq<(string, EP.Json)>, a: EP.Record, b: EP.Record)
    requires EP.RecordsApart(lib, saved) && DigestLengths(lib, saved, rest)
    requires a in EP.Records(lib, saved) && b in EP.Records(lib, saved)
    ensures NormalizedKey(a) == NormalizedKey(b) <==> a == b
  {
    hide EP.Classify, EP.Records;
    if NormalizedKey(a) == NormalizedKey(b) {
      RecordDigestIs64(lib, saved, rest, a);
      RecordDigestIs64(lib, saved, rest, b);
      SameSuffix("normalized:" + a.shortcode + ":", "normalized:" + b.shortcode + ":", a.digest, b.digest);
      EP.RecordsCollide(lib, saved, a, b);
    }
  }

  lemma RecordDigestIs64(lib: EP.Library, saved: seq<EP.Json>, rest: seq<(string, EP.Json)>, r: EP.Record)
    requires DigestLengths(lib, saved, rest) && r in EP.Records(lib, saved)
    ensures |r.digest| == 64
  {
    hide EP.Classify, EP.Records;
    EP.RecordOfElement(lib, saved, r);
    var i :| 0 <= i < |saved| && EP.Classify(lib, saved[i]) == EP.Normalized(r);
    assert RecordDigestLength(EP.Classify(lib, saved[i]));
  }

  lemma {:induction false} EntryPaths(inventory: seq<EP.InventoryEntry>)
    requires DistinctPaths(inventory)
    ensures Unrepeated(EP.Entries(inventory), EntryPath)
    ensures forall e :: e in EP.Entries(inventory) ==> exists i :: 0 <= i < |inventory| && inventory[i].path == e.path
  {
    if inventory == [] {
    } else {
      var front := inventory[..|inventory| - 1];
      EntryPaths(front);
      assert forall i :: 0 <= i < |front| ==> front[i] == inventory[i];
      var before := EP.Entries(front);
      assert forall i :: 0 <= i < |before| ==> before[i] in before;
    }
  }

  function EntryPath(e: EP.UnknownEntry): string { e.path }

  lemma UnrepeatedConcat<T>(a: seq<T>, b: seq<T>, name: T -> string)
    requires Unrepeated(a, name) && Unrepeated(b, name)
    requires forall i, j :: 0 <= i < |a| && 0 <= j < |b| ==> name(a[i]) != name(b[j])
    ensures Unrepeated(a + b, name)
  {
  }

  predicate KnownCode(code: string) {
    || code == "unknown_saved_record"
    || code == "invalid_saved_permalink"
    || code == "invalid_observation_timestamp"
    || code == "unknown_saved_section_field"
  }

  predicate PendingOk(p: EP.Pending) {
    KnownCode(p.code) && |p.digest| == 64
  }

  lemma {:induction false} UnknownsOk(lib: EP.Library, saved: seq<EP.Json>)
    requires forall i :: 0 <= i < |saved| ==> |lib.rawDigest(saved[i])| == 64
    ensures forall p :: p in EP.Unknowns(lib, saved) ==> PendingOk(p)
  {
    hide EP.Permalink.Canonicalize;
    if saved == [] {
    } else {
      UnknownsOk(lib, saved[..|saved| - 1]);
    }
  }

  lemma SortedPendingOk(lib: EP.Library, saved: seq<EP.Json>, rest: seq<(string, EP.Json)>)
    requires DigestLengths(lib, saved, rest)
    ensures forall i :: 0 <= i < |EP.SortedPending(lib, saved, rest)| ==>
            PendingOk(EP.SortedPending(lib, saved, rest)[i])
  {
    hide EP.Unknowns, EP.Classify, SortBy;
    var all := EP.Unknowns(lib, saved) + EP.FieldUnknowns(lib, rest);
    var pending := EP.SortedPending(lib, saved, rest);
    UnknownsOk(lib, saved);
    SortSorts(all, EP.PendingKey);
    SameElements(all, pending);
    forall i | 0 <= i < |pending| ensures PendingOk(pending[i]) {
      assert pending[i] in all;
    }
  }

  lemma CodesLackColon(code: string)
    requires KnownCode(code) || code == "unknown_archive_section" || code == "media_bytes_reference_only"
    ensures Lacks(code, ':')
  {
    assert Lacks("unknown_saved_record", ':');
    assert Lacks("invalid_saved_permalink", ':');
    assert Lacks("invalid_observation_timestamp", ':');
    assert Lacks("unknown_saved_section_field", ':');
    assert Lacks("unknown_archive_section", ':');
    assert Lacks("media_bytes_reference_only", ':');
    hide Lacks;
  }

  lemma WarningTextsDiffer(a: EP.Warning, b: EP.Warning)
    requires Lacks(a.code, ':') && Lacks(b.code, ':')
    ensures WarningText(a) == WarningText(b) <==> a == b
  {
    if WarningText(a) == WarningText(b) {
      var x := a.code + ([':'] + a.evidenceKey);
      var y := b.code + ([':'] + b.evidenceKey);
      assert WarningText(a) == "warning:" + x && WarningText(b) == "warning:" + y;
      assert x == WarningText(a)[8..] && y == WarningText(b)[8..];
      CutAt(a.code, b.code, ':', a.evidenceKey, b.evidenceKey);
    }
  }

  lemma RecordWarningsDiffer(pending: seq<EP.Pending>)
    requires forall i :: 0 <= i < |pending| ==> PendingOk(pending[i])
    ensures Unrepeated(EP.RecordWarnings(pending), WarningText)
    ensures Unrepeated(EP.Numbered(pending), UnknownKey)
  {
    hide EP.EvidenceKey, WarningText, KnownCode;
    var rows := EP.RecordWarnings(pending);
    forall i, j | 0 <= i < j < |rows|
      ensures WarningText(rows[i]) != WarningText(rows[j])
      ensures EP.Numbered(pending)[i].evidenceKey != EP.Numbered(pending)[j].evidenceKey
    {
      EP.EvidenceKeysDiffer(pending, i, j);
      CodesLackColon(rows[i].code);
      CodesLackColon(rows[j].code);
      WarningTextsDiffer(rows[i], rows[j]);
    }
  }

  lemma EntryWarningsDiffer(entries: seq<EP.UnknownEntry>)
    requires Unrepeated(entries, EntryPath)
    ensures Unrepeated(EP.EntryWarnings(entries), WarningText)
  {
    hide WarningText;
    var rows := EP.EntryWarnings(entries);
    CodesLackColon("unknown_archive_section");
    forall i, j | 0 <= i < j < |rows| ensures WarningText(rows[i]) != WarningText(rows[j]) {
      assert EntryPath(entries[i]) != EntryPath(entries[j]);
      WarningTextsDiffer(rows[i], rows[j]);
      if rows[i] == rows[j] { SameSuffixAfter("entry:", entries[i].path, entries[j].path); }
    }
  }

  lemma SameSuffixAfter(a: string, x: string, y: string)
    requires a + x == a + y
    ensures x == y
  {
    assert x == (a + x)[|a|..] && y == (a + y)[|a|..];
  }

  lemma {:induction false} MediaWarningsDiffer(entries: seq<EP.UnknownEntry>)
    requires Unrepeated(entries, EntryPath)
    ensures Unrepeated(EP.MediaWarnings(entries), WarningText)
    ensures forall i :: 0 <= i < |EP.MediaWarnings(entries)| ==>
              exists j :: 0 <= j < |entries| && EP.MediaWarnings(entries)[i] == MediaWarning(entries[j].path)
  {
    hide WarningText;
    if entries == [] {
    } else {
      var front, last := entries[..|entries| - 1], entries[|entries| - 1];
      MediaWarningsDiffer(front);
      var before, rows := EP.MediaWarnings(front), EP.MediaWarnings(entries);
      forall i | 0 <= i < |before|
        ensures WarningText(before[i]) != WarningText(MediaWarning(last.path))
        ensures exists j :: 0 <= j < |entries| && before[i] == MediaWarning(entries[j].path)
      {
        var j :| 0 <= j < |front| && before[i] == MediaWarning(front[j].path);
        assert entries[j] == front[j] && EntryPath(entries[j]) != EntryPath(last);
        CodesLackColon("media_bytes_reference_only");
        WarningTextsDiffer(before[i], MediaWarning(last.path));
        if before[i] == MediaWarning(last.path) { SameSuffixAfter("entry:", front[j].path, last.path); }
      }
      assert last == entries[|entries| - 1];
    }
  }

  function MediaWarning(path: string): EP.Warning {
    EP.Warning("media_bytes_reference_only", "entry:" + path)
  }

  lemma WarningsDiffer(pending: seq<EP.Pending>, entries: seq<EP.UnknownEntry>)
    requires forall i :: 0 <= i < |pending| ==> PendingOk(pending[i])
    requires Unrepeated(entries, EntryPath)
    ensures Unrepeated(EP.RecordWarnings(pending) + EP.EntryWarnings(entries) + EP.MediaWarnings(entries), WarningText)
  {
    var a, b, c := EP.RecordWarnings(pending), EP.EntryWarnings(entries), EP.MediaWarnings(entries);
    RecordWarningsDiffer(pending);
    EntryWarningsDiffer(entries);
    MediaWarningsDiffer(entries);
    CodesLackColon("unknown_archive_section");
    CodesLackColon("media_bytes_reference_only");
    forall i | 0 <= i < |a| ensures Lacks(a[i].code, ':') && |a[i].evidenceKey| > 0 && a[i].evidenceKey[0] == 'u' {
      CodesLackColon(pending[i].code);
    }
    forall j | 0 <= j < |c| ensures c[j].code == "media_bytes_reference_only" && |c[j].evidenceKey| > 0
      && c[j].evidenceKey[0] == 'e' {
      var k :| 0 <= k < |entries| && c[j] == MediaWarning(entries[k].path);
    }
    hide WarningText, EP.RecordWarnings, EP.MediaWarnings, Lacks, PendingOk;
    forall i, j | 0 <= i < |a| && 0 <= j < |b| ensures WarningText(a[i]) != WarningText(b[j]) {
      WarningTextsDiffer(a[i], b[j]);
    }
    UnrepeatedConcat(a, b, WarningText);
    forall i, j | 0 <= i < |a + b| && 0 <= j < |c| ensures WarningText((a + b)[i]) != WarningText(c[j]) {
      WarningTextsDiffer((a + b)[i], c[j]);
    }
    UnrepeatedConcat(a + b, c, WarningText);
  }

  /** A group of keys told apart from the others by two of its characters. */
  predicate Marked(keys: seq<string>, first: char, ninth: Option<char>) {
    forall i :: 0 <= i < |keys| ==> |keys[i]| > 8 && keys[i][0] == first && (ninth.Some? ==> keys[i][8] == ninth.value)
  }

  lemma KeyGroups(out: EP.ParsedExport)
    requires forall i :: 0 <= i < |out.unknownRecords| ==> "unknown_record:" <= out.unknownRecords[i].evidenceKey
    ensures Marked(Names(out.records, NormalizedKey), 'n', None)
    ensures Marked(Names(out.unknownEntries, SectionKey), 'u', Some('s'))
    ensures Marked(Names(out.unknownRecords, UnknownKey), 'u', Some('r'))
    ensures Marked(Names(out.warnings, WarningText), 'w', None)
  {
    assert ("normalized:")[0] == 'n' && ("warning:")[0] == 'w';
    assert ("unknown_section:")[0] == 'u' && ("unknown_section:")[8] == 's';
    assert ("unknown_record:")[0] == 'u' && ("unknown_record:")[8] == 'r';
    forall i | 0 <= i < |out.records| ensures "normalized:" <= Names(out.records, NormalizedKey)[i] {
      assert NormalizedKey(out.records[i]) == "normalized:" + (out.records[i].shortcode + ":" + out.records[i].digest);
    }
    forall i | 0 <= i < |out.unknownEntries| ensures "unknown_section:" <= Names(out.unknownEntries, SectionKey)[i] {
      assert Names(out.unknownEntries, SectionKey)[i] == SectionKey(out.unknownEntries[i]);
    }
    forall i | 0 <= i < |out.unknownRecords| ensures "unknown_record:" <= Names(out.unknownRecords, UnknownKey)[i] {
      assert Names(out.unknownRecords, UnknownKey)[i] == UnknownKey(out.unknownRecords[i]);
    }
    forall i | 0 <= i < |out.warnings|
      ensures "warning:" <= Names(out.warnings, WarningText)[i] && |Names(out.warnings, WarningText)[i]| > 8
    {
      assert WarningText(out.warnings[i]) == "warning:" + (out.warnings[i].code + ":" + out.warnings[i].evidenceKey);
    }
    PrefixMarks(Names(out.records, NormalizedKey), "normalized:");
    PrefixMarks(Names(out.unknownEntries, SectionKey), "unknown_section:");
    PrefixMarks(Names(out.unknownRecords, UnknownKey), "unknown_record:");
    PrefixMarks(Names(out.warnings, WarningText), "warning:");
  }

  lemma PrefixMarks(keys: seq<string>, prefix: string)
    requires |prefix| >= 8 && forall i :: 0 <= i < |keys| ==> prefix <= keys[i]
    ensures forall i :: 0 <= i < |keys| ==> |keys[i]| >= 8 && keys[i][0] == prefix[0]
    ensures |prefix| > 8 ==> forall i :: 0 <= i < |keys| ==> |keys[i]| > 8 && keys[i][8] == prefix[8]
  {
    forall i | 0 <= i < |keys| ensures keys[i][..|prefix|] == prefix {
    }
  }

  lemma GroupsDistinct(a: seq<string>, b: seq<string>, c: seq<string>, d: seq<string>)
    requires Marked(a, 'n', None) && Marked(b, 'u', Some('s')) && Marked(c, 'u', Some('r')) && Marked(d, 'w', None)
    ensures DistinctTexts(a + b + c + d) <==>
            DistinctTexts(a) && DistinctTexts(b) && DistinctTexts(c) && DistinctTexts(d)
  {
    hide Marked;
    ApartDistinct(a, b);
    ApartDistinct(a + b, c);
    ApartDistinct(a + b + c, d);
    Apart4(a, b, c, d);
  }

  lemma Apart4(a: seq<string>, b: seq<string>, c: seq<string>, d: seq<string>)
    requires Marked(a, 'n', None) && Marked(b, 'u', Some('s')) && Marked(c, 'u', Some('r')) && Marked(d, 'w', None)
    ensures Apart(a, b) && Apart(a + b, c) && Apart(a + b + c, d)
  {
  }

  predicate Apart(a: seq<string>, b: seq<string>) {
    forall i, j :: 0 <= i < |a| && 0 <= j < |b| ==> a[i] != b[j]
  }

  lemma ApartDistinct(a: seq<string>, b: seq<string>)
    ensures Apart(a, b) ==> (DistinctTexts(a + b) <==> DistinctTexts(a) && DistinctTexts(b))
  {
    var s := a + b;
    assert forall i :: 0 <= i < |a| ==> s[i] == a[i];
    assert forall j :: 0 <= j < |b| ==> s[|a| + j] == b[j];
    if DistinctTexts(s) {
      forall i, j | 0 <= i < j < |b| ensures b[i] != b[j] { assert s[|a| + i] != s[|a| + j]; }
    }
  }

  lemma NamesDistinct<T>(s: seq<T>, name: T -> string)
    ensures DistinctTexts(Names(s, name)) <==> Unrepeated(s, name)
  {
    forall i, j | 0 <= i < j < |s| ensures Names(s, name)[i] == name(s[i]) && Names(s, name)[j] == name(s[j]) {
    }
    if DistinctTexts(Names(s, name)) {
      forall i, j | 0 <= i < j < |s| ensures name(s[i]) != name(s[j]) {
        assert Names(s, name)[i] != Names(s, name)[j];
      }
    }
  }

  lemma RecordKeysDecide(lib: EP.Library, saved: seq<EP.Json>, rest: seq<(string, EP.Json)>, records: seq<EP.Record>)
    requires EP.RecordsApart(lib, saved) && DigestLengths(lib, saved, rest)
    requires records == SortBy(EP.Records(lib, saved), EP.RecordKey)
    ensures Unrepeated(records, NormalizedKey) <==> NoDuplicates(records)
  {
    hide EP.Records, SortBy, NormalizedKey, EP.RecordsApart, DigestLengths;
    SortSorts(EP.Records(lib, saved), EP.RecordKey);
    SameElements(EP.Records(lib, saved), records);
    forall i, j | 0 <= i < j < |records|
      ensures NormalizedKey(records[i]) == NormalizedKey(records[j]) <==> records[i] == records[j]
    {
      assert records[i] in records && records[j] in records;
      NormalizedDiffer(lib, saved, rest, records[i], records[j]);
    }
  }

  lemma SectionsDiffer(entries: seq<EP.UnknownEntry>)
    requires Unrepeated(entries, EntryPath)
    ensures Unrepeated(entries, SectionKey)
  {
    forall i, j | 0 <= i < j < |entries| ensures SectionKey(entries[i]) != SectionKey(entries[j]) {
      assert EntryPath(entries[i]) != EntryPath(entries[j]);
      if SectionKey(entries[i]) == SectionKey(entries[j]) {
        SameSuffixAfter("unknown_section:", entries[i].path, entries[j].path);
      }
    }
  }

  /**
   The parsed export can be staged exactly when no two saved elements normalize to the same record:
   every other evidence key is unique by construction.
   */
  lemma StagesUnlessDuplicated(lib: EP.Library, saved: seq<EP.Json>, rest: seq<(string, EP.Json)>,
                               inventory: seq<EP.InventoryEntry>)
    requires EP.RecordsApart(lib, saved) && DigestLengths(lib, saved, rest) && DistinctPaths(inventory)
    ensures
      var out := EP.Output(lib, saved, rest, inventory);
      DistinctTexts(StagedKeys(out)) <==> NoDuplicates(out.records)
  {
    var out := EP.Output(lib, saved, rest, inventory);
    var pending := EP.SortedPending(lib, saved, rest);
    RecordKeysDecide(lib, saved, rest, out.records);
    EntriesUnrepeated(inventory, out.unknownEntries);
    SectionsDiffer(out.unknownEntries);
    SortedPendingOk(lib, saved, rest);
    WarningsUnrepeated(pending, out.unknownEntries, out.warnings);
    RecordWarningsDiffer(pending);
    forall i | 0 <= i < |out.unknownRecords| ensures "unknown_record:" <= out.unknownRecords[i].evidenceKey {
      EvidencePrefix(pending[i].digest, i);
    }
    hide EP.Output, EP.SortedPending, Unrepeated, NoDuplicates, EP.EvidenceKey, Names, DistinctTexts;
    KeyGroups(out);
    NamesDistinct(out.records, NormalizedKey);
    NamesDistinct(out.unknownEntries, SectionKey);
    NamesDistinct(out.unknownRecords, UnknownKey);
    NamesDistinct(out.warnings, WarningText);
    GroupsDistinct(Names(out.records, NormalizedKey), Names(out.unknownEntries, SectionKey),
                   Names(out.unknownRecords, UnknownKey), Names(out.warnings, WarningText));
  }

  /** No two saved elements are understood as the same record. */
  predicate DistinctElements(lib: EP.Library, saved: seq<EP.Json>) {
    forall i, j :: 0 <= i < j < |saved| && EP.Classify(lib, saved[i]).Normalized? ==>
      EP.Classify(lib, saved[i]) != EP.Classify(lib, saved[j])
  }

  lemma {:induction false} ElementsDecide(lib: EP.Library, saved: seq<EP.Json>)
    ensures NoDuplicates(EP.Records(lib, saved)) <==> DistinctElements(lib, saved)
  {
    hide EP.Classify;
    if saved == [] {
    } else {
      var front, verdict := saved[..|saved| - 1], EP.Classify(lib, saved[|saved| - 1]);
      ElementsDecide(lib, front);
      assert DistinctElements(lib, saved) ==> DistinctElements(lib, front);
      if verdict.Normalized? {
        EP.RecordOfElement(lib, front, verdict.record);
        assert EP.Records(lib, saved) == EP.Records(lib, front) + [verdict.record];
        LastRecordNew(EP.Records(lib, front), verdict.record);
        LastElementNew(lib, saved, front);
      } else {
        assert EP.Records(lib, saved) == EP.Records(lib, front);
        assert forall i :: 0 <= i < |front| ==> front[i] == saved[i];
      }
    }
  }

  lemma LastRecordNew(records: seq<EP.Record>, r: EP.Record)
    ensures NoDuplicates(records + [r]) <==> NoDuplicates(records) && r !in records
  {
    var all := records + [r];
    assert all[|records|] == r;
    if NoDuplicates(all) {
      forall i | 0 <= i < |records| ensures records[i] != r { assert all[i] != all[|records|]; }
      forall i, j | 0 <= i < j < |records| ensures records[i] != records[j] { assert all[i] != all[j]; }
    }
  }

  lemma LastElementNew(lib: EP.Library, saved: seq<EP.Json>, front: seq<EP.Json>)
    requires saved != [] && front == saved[..|saved| - 1] && EP.Classify(lib, saved[|saved| - 1]).Normalized?
    ensures DistinctElements(lib, saved) <==>
              && DistinctElements(lib, front)
              && !exists i :: 0 <= i < |front| && EP.Classify(lib, front[i]) == EP.Classify(lib, saved[|saved| - 1])
  {
    hide EP.Classify;
    assert forall i :: 0 <= i < |front| ==> front[i] == saved[i];
  }

  lemma DuplicatesPermuted(a: seq<EP.Record>, b: seq<EP.Record>)
    requires multiset(a) == multiset(b) && NoDuplicates(a)
    ensures NoDuplicates(b)
  {
    forall i, j | 0 <= i < j < |b| ensures b[i] != b[j] {
      if b[i] == b[j] {
        var r := b[i];
        var same := (x: EP.Record) => x == r;
        TwoOrMore(b, same, i, j);
        CountPermuted(a, b, same);
        OneAtMost(a, same);
        assert false;
      }
    }
  }

  /**
   An inspected run whose archive holds this export is reconciled by the next undisturbed advance exactly
   when no two saved elements are understood as the same record; otherwise it stays inspected.
   */
  lemma ReconciledUnlessDuplicated(db: Db, id: RunId, lib: EP.Library, saved: seq<EP.Json>,
                                   rest: seq<(string, EP.Json)>,
                                   inventory: seq<EP.InventoryEntry>)
    requires id in db.runs && RunOk(db.runs[id]) && db.runs[id].state.Inspected?
    requires EP.RecordsApart(lib, saved) && DigestLengths(lib, saved, rest) && DistinctPaths(inventory)
    ensures
      var archive := Archive(None, Ok(StagedKeys(EP.Output(lib, saved, rest, inventory))));
      var out := Advance(db, id, Inspected, archive).0;
      id in out.runs && out.runs[id].state == if DistinctElements(lib, saved) then Reconciled else Inspected
  {
    hide EP.Output, NoDuplicates, DistinctElements, DistinctTexts, StagedKeys, RunOk, Advance, EP.RecordsApart,
         DigestLengths, DistinctPaths;
    StagesUnlessDuplicated(lib, saved, rest, inventory);
    RecordsDecide(lib, saved, rest, inventory);
    AdvanceReachesDestination(db, id, Archive(None, Ok(StagedKeys(EP.Output(lib, saved, rest, inventory)))));
  }

  lemma RecordsDecide(lib: EP.Library, saved: seq<EP.Json>, rest: seq<(string, EP.Json)>,
                      inventory: seq<EP.InventoryEntry>)
    ensures NoDuplicates(EP.Output(lib, saved, rest, inventory).records) <==> DistinctElements(lib, saved)
  {
    hide EP.Records, SortBy, NoDuplicates, DistinctElements, EP.SortedPending, EP.Entries, EP.MediaWarnings;
    var records, parsed := EP.Records(lib, saved), EP.Output(lib, saved, rest, inventory);
    ElementsDecide(lib, saved);
    SortSorts(records, EP.RecordKey);
    if NoDuplicates(records) { DuplicatesPermuted(records, parsed.records); }
    if NoDuplicates(parsed.records) { DuplicatesPermuted(parsed.records, records); }
  }

  /**
   An export that saves one understood element twice, here with concrete library answers: its digests
   are sound, yet the advance leaves the run inspected, and so does every further one.
   */
  lemma DuplicateStaysInspected(db: Db, id: RunId, value: EP.Json)
    requires id in db.runs && RunOk(db.runs[id]) && db.runs[id].state.Inspected?
    ensures
      var lib, saved := PlainLibrary(), [value, value];
      var archive := Archive(None, Ok(StagedKeys(EP.Output(lib, saved, [], []))));
      var out := Advance(db, id, Inspected, archive);
      && EP.RecordsApart(lib, saved) && DigestLengths(lib, saved, [])
      && EP.Classify(lib, value).Normalized?
      && out == (db, Broken)
  {
    var lib, saved := PlainLibrary(), [value, value];
    Permalink.CanonicalUrlReadsBack(Permalink.Post, "A");
    var verdict := EP.Classify(lib, value);
    assert verdict.Normalized? && verdict.record.digest == Zeros();
    assert saved[0] == value && saved[1] == value;
    hide EP.Classify, Permalink.Canonicalize, EP.Output, Advance, RunOk, StagedKeys, PlainLibrary;
    assert !DistinctElements(lib, saved);
    ReconciledUnlessDuplicated(db, id, lib, saved, [], []);
    AdvanceReachesDestination(db, id, Archive(None, Ok(StagedKeys(EP.Output(lib, saved, [], [])))));
    BrokenChangesNothing(db, id, Archive(None, Ok(StagedKeys(EP.Output(lib, saved, [], [])))));
  }

  lemma BrokenChangesNothing(db: Db, id: RunId, archive: Archive)
    requires id in db.runs && RunOk(db.runs[id]) && db.runs[id].state.Inspected?
    ensures Advance(db, id, Inspected, archive).1.Broken? ==> Advance(db, id, Inspected, archive).0 == db
  {
    hide OnPath, Chained, DistinctTexts;
  }

  function Zeros(): (s: string)
    ensures |s| == 64
  {
    seq(64, _ => '0')
  }

  /** A library that understands every element as the same post and gives constant digests. */
  function PlainLibrary(): EP.Library {
    EP.Library(
      _ => Some(EP.Wire("", Permalink.Url(Permalink.Post, "A"), 0)),
      _ => None,
      _ => true,
      _ => Zeros(),
      _ => Zeros(),
      (_, _) => Zeros())
  }

  lemma EvidencePrefix(digest: string, ordinal: nat)
    ensures "unknown_record:" <= EP.EvidenceKey(digest, ordinal)
  {
    assert EP.EvidenceKey(digest, ordinal) == "unknown_record:" + (digest + ":" + Decimal(ordinal));
  }

  lemma EntriesUnrepeated(inventory: seq<EP.InventoryEntry>, entries: seq<EP.UnknownEntry>)
    requires DistinctPaths(inventory) && entries == SortBy(EP.Entries(inventory), EP.EntryKey)
    ensures Unrepeated(entries, EntryPath)
  {
    EntryPaths(inventory);
    SortSorts(EP.Entries(inventory), EP.EntryKey);
    hide EP.Entries, SortBy, DistinctPaths;
    UnrepeatedPermuted(EP.Entries(inventory), entries, EntryPath);
  }

  lemma WarningsUnrepeated(pending: seq<EP.Pending>, entries: seq<EP.UnknownEntry>, warnings: seq<EP.Warning>)
    requires forall i :: 0 <= i < |pending| ==> PendingOk(pending[i])
    requires Unrepeated(entries, EntryPath)
    requires warnings ==
             SortBy(EP.RecordWarnings(pending) + EP.EntryWarnings(entries) + EP.MediaWarnings(entries), EP.WarningKey)
    ensures Unrepeated(warnings, WarningText)
  {
    var all := EP.RecordWarnings(pending) + EP.EntryWarnings(entries) + EP.MediaWarnings(entries);
    WarningsDiffer(pending, entries);
    SortSorts(all, EP.WarningKey);
    hide EP.RecordWarnings, EP.EntryWarnings, EP.MediaWarnings, SortBy, WarningText, PendingOk;
    UnrepeatedPermuted(all, warnings, WarningText);
  }

  // ---------------------------------------------------------------- the worker pass

  datatype WorkerPass = WorkerPass(selected: nat, reconciled: nat, failed: nat)

  /** The store and the counters of a pass; `going` until an error ends it. */
  datatype Tally = Tally(db: Db, going: bool, reconciled: nat, failed: nat)

  function Advanced(t: Tally, row: (RunId, State), archives: RunId -> Archive): Tally {
    if !t.going then t
    else
      var (db, outcome) := Advance(t.db, row.0, row.1, archives(row.0));
      Tally(db, !outcome.Broken?,
            t.reconciled + (if outcome == Reached(Reconciled) then 1 else 0),
            t.failed + (if outcome == Reached(FailedRun) then 1 else 0))
  }

  /** The runs advanced one after the other; an error ends the pass. */
  function AdvanceAll(db: Db, rows: seq<(RunId, State)>, archives: RunId -> Archive): Tally {
    if rows == [] then Tally(db, true, 0, 0)
    else Advanced(AdvanceAll(db, rows[..|rows| - 1], archives), rows[|rows| - 1], archives)
  }

  lemma {:induction false} PassEndsBroken(db: Db, rows: seq<(RunId, State)>, archives: RunId -> Archive, k: nat)
    requires k <= |rows| && !AdvanceAll(db, rows[..k], archives).going
    ensures AdvanceAll(db, rows, archives) == AdvanceAll(db, rows[..k], archives)
    decreases |rows|
  {
    if k == |rows| {
      assert rows[..k] == rows;
    } else {
      assert rows[..|rows| - 1][..k] == rows[..k];
      PassEndsBroken(db, rows[..|rows| - 1], archives, k);
    }
  }

  /** The selection is current: distinct stored runs that are not finished, in their stored states. */
  predicate Selected(db: Db, rows: seq<(RunId, State)>) {
    && (forall i :: 0 <= i < |rows| ==>
          && rows[i].0 in db.runs && RunOk(db.runs[rows[i].0]) && db.runs[rows[i].0].state == rows[i].1
          && !Terminal(rows[i].1))
    && (forall i, j :: 0 <= i < j < |rows| ==> rows[i].0 != rows[j].0)
  }

  /** How many of the rows are destined for the state. */
  function Destined(rows: seq<(RunId, State)>, archives: RunId -> Archive, state: State): nat {
    if rows == [] then 0
    else
      var last := rows[|rows| - 1];
      Destined(rows[..|rows| - 1], archives, state) + if Destination(last.1, archives(last.0)) == state then 1 else 0
  }

  lemma {:induction false} UnbrokenPass(db: Db, rows: seq<(RunId, State)>, archives: RunId -> Archive)
    requires Selected(db, rows)
    requires forall i :: 0 <= i < |rows| ==> !Destination(rows[i].1, archives(rows[i].0)).Inspected?
    ensures
      var t := AdvanceAll(db, rows, archives);
      && t.going && t.db.runs.Keys == db.runs.Keys
      && t.reconciled == Destined(rows, archives, Reconciled) && t.failed == Destined(rows, archives, FailedRun)
      && t.reconciled + t.failed == |rows|
      && (forall i :: 0 <= i < |rows| ==> t.db.runs[rows[i].0].state == Destination(rows[i].1, archives(rows[i].0)))
      && (forall id :: id in db.runs && (forall i :: 0 <= i < |rows| ==> rows[i].0 != id) ==>
            t.db.runs[id] == db.runs[id])
  {
    hide Advance, RunOk, Destination;
    if rows == [] {
    } else {
      var front, last := rows[..|rows| - 1], rows[|rows| - 1];
      assert forall i :: 0 <= i < |front| ==> front[i] == rows[i];
      UnbrokenPass(db, front, archives);
      var t := AdvanceAll(db, front, archives);
      assert t.db.runs[last.0] == db.runs[last.0];
      AdvanceReachesDestination(t.db, last.0, archives(last.0));
      DestinationEnds(last.1, archives(last.0));
    }
  }

  lemma DestinationEnds(state: State, archive: Archive)
    requires !Terminal(state)
    ensures var d := Destination(state, archive); d.Inspected? || d.Reconciled? || d.FailedRun?
  {
  }

  /**
   An undisturbed pass over k runs that are not stuck and possibly a stuck one after them: the k runs end where
   their archives say, the counters are how many ended in each state, and the stuck run ends the pass with
   the later ones untouched.
   */
  lemma PassReachesDestinations(db: Db, rows: seq<(RunId, State)>, archives: RunId -> Archive, k: nat)
    requires Selected(db, rows) && k <= |rows|
    requires forall i :: 0 <= i < k ==> !Destination(rows[i].1, archives(rows[i].0)).Inspected?
    requires k < |rows| ==> Destination(rows[k].1, archives(rows[k].0)).Inspected?
    ensures
      var t := AdvanceAll(db, rows, archives);
      && (t.going <==> k == |rows|)
      && t.reconciled == Destined(rows[..k], archives, Reconciled)
      && t.failed == Destined(rows[..k], archives, FailedRun)
      && t.reconciled + t.failed == k
      && t.db.runs.Keys == db.runs.Keys
      && (forall i :: 0 <= i < |rows| ==>
            if i <= k then t.db.runs[rows[i].0].state == Destination(rows[i].1, archives(rows[i].0))
            else t.db.runs[rows[i].0] == db.runs[rows[i].0])
  {
    hide Advance, RunOk, Destination, AdvanceAll, Destined;
    var front := rows[..k];
    assert forall i :: 0 <= i < k ==> front[i] == rows[i];
    UnbrokenPass(db, front, archives);
    if k == |rows| {
      assert front == rows;
    } else {
      StuckRunEndsPass(db, rows, archives, k);
    }
  }

  lemma StuckRunEndsPass(db: Db, rows: seq<(RunId, State)>, archives: RunId -> Archive, k: nat)
    requires k < |rows|
    requires
      var t := AdvanceAll(db, rows[..k], archives);
      && t.going && rows[k].0 in t.db.runs && RunOk(t.db.runs[rows[k].0]) && t.db.runs[rows[k].0].state == rows[k].1
    requires Destination(rows[k].1, archives(rows[k].0)).Inspected?
    ensures
      var t, out := AdvanceAll(db, rows[..k], archives), AdvanceAll(db, rows, archives);
      && !out.going && out.reconciled == t.reconciled && out.failed == t.failed && out.db.runs.Keys == t.db.runs.Keys
      && out.db.runs[rows[k].0].state == Inspected
      && (forall id :: id in t.db.runs && id != rows[k].0 ==> out.db.runs[id] == t.db.runs[id])
  {
    hide Advance, RunOk, Destination;
    assert rows[..k + 1][..k] == rows[..k] && rows[..k + 1][k] == rows[k];
    AdvanceReachesDestination(AdvanceAll(db, rows[..k], archives).db, rows[k].0, archives(rows[k].0));
    PassEndsBroken(db, rows, archives, k + 1);
  }

  class ImportStore {
    var byArchive: map<(Owner, Digest), RunId>
    var runs: map<RunId, Run>
    var next: RunId

    ghost function View(): Db
      reads this
    {
      Db(byArchive, runs, next)
    }

    method Receive(owner: Owner, digest: Digest, archive: string) returns (r: Result<RunId, ImportError>)
      modifies this
      ensures match PersistReceipt(old(View()), owner, digest, archive)
              case Err(e) => r == Err(e) && View() == old(View())
              case Ok(db) =>
                && View() == db && (owner, digest) in byArchive && r == Ok(byArchive[(owner, digest)])
                && r.value in runs && runs[r.value].archive == archive
    {
      if (owner, digest) in byArchive {
        var id := byArchive[(owner, digest)];
        return if id !in runs || runs[id].archive != archive then Err(CorruptEvidence) else Ok(id);
      }
      var id := next;
      byArchive := byArchive[(owner, digest) := id];
      runs := runs[id := NewRun(owner, digest, archive)];
      next := next + 1;
      return Ok(id);
    }

    method AdvanceRun(id: RunId, initial: State, archive: Archive) returns (outcome: Outcome)
      modifies this`runs
      ensures (View(), outcome) == Advance(old(View()), id, initial, archive)
    {
      hide Taken;
      if Terminal(initial) { return Reached(initial); }
      if initial.Received? {
        var inspected := Attempt(id, Inspect(archive.refusal));
        if inspected.Some? { return Lapse(inspected.value); }
        if archive.refusal.Some? { return Reached(FailedRun); }
      }
      if !initial.Parsed? {
        var step := if archive.parsed.Ok? then Parse(archive.parsed.value) else RefuseParse(archive.parsed.error);
        var parsed := Attempt(id, step);
        if parsed.Some? { return Lapse(parsed.value); }
        if archive.parsed.Err? { return Reached(FailedRun); }
      }
      var reconciled := Attempt(id, ReconcileRun);
      if reconciled.Some? { return Lapse(reconciled.value); }
      return Reached(Reconciled);
    }

    method Attempt(id: RunId, step: Step) returns (e: Option<ImportError>)
      modifies this`runs
      ensures
        match Transact(old(View()), id, step)
        case Err(error) => e == Some(error) && View() == old(View())
        case Ok(db) => e.None? && View() == db
    {
      if id !in runs { return Some(StateConflict); }
      var taken := Taken(runs[id], step);
      if taken.Err? { return Some(taken.error); }
      runs := runs[id := taken.value];
      return None;
    }

    /** `rows` is what the selection returned; the pass stops at the first error that is not a lost race. */
    method RunOnce(rows: seq<(RunId, State)>, archives: RunId -> Archive) returns (pass: WorkerPass, ok: bool)
      modifies this`runs
      ensures
        var t := AdvanceAll(old(View()), rows, archives);
        View() == t.db && ok == t.going && pass == WorkerPass(|rows|, t.reconciled, t.failed)
    {
      hide Advance;
      var reconciled, failed, k := 0, 0, 0;
      assert rows[..0] == [];
      while k < |rows|
        invariant 0 <= k <= |rows|
        invariant Tally(View(), true, reconciled, failed) == AdvanceAll(old(View()), rows[..k], archives)
      {
        var (id, state) := rows[k];
        assert rows[..k + 1][..k] == rows[..k];
        var outcome := AdvanceRun(id, state, archives(id));
        if outcome.Broken? {
          PassEndsBroken(old(View()), rows, archives, k + 1);
          return WorkerPass(|rows|, reconciled, failed), false;
        }
        if outcome == Reached(Reconciled) { reconciled := reconciled + 1; }
        if outcome == Reached(FailedRun) { failed := failed + 1; }
        k := k + 1;
      }
      assert rows[..k] == rows;
      return WorkerPass(|rows|, reconciled, failed), true;
    }
  }
}
