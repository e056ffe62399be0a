/**
 Re-planning a retained export and applying the plan in restartable chunks
 (crates/instagram-archive/src/data_export_reprocessing.rs).  Texts are byte sequences, so that a
 length is a byte length as in the source.
 */
module Reprocessing {
  import opened Prelude
  import opened Sorting

  datatype Classification = Normalized | UnknownRecord | UnknownSection | Conflict | Warning | Omitted

  datatype Item = Item(key: string, classification: Classification, digest: Option<string>)

  function WireName(c: Classification): string {
    match c
    case Normalized => "normalized"
    case UnknownRecord => "unknown_record"
    case UnknownSection => "unknown_section"
    case Conflict => "conflict"
    case Warning => "warning"
    case Omitted => "omitted"
  }

  function ItemState(c: Classification): string {
    match c
    case Conflict => "conflict"
    case Warning => "warning"
    case Omitted => "skipped"
    case _ => "applied"
  }

  // ---------------------------------------------------------------- canonical plan

  function ItemKey(item: Item): Key { (item.key, "") }

  /** The dry-run report's items: the inputs in key order. */
  function Ordered(inputs: seq<Item>): seq<Item> {
    SortBy(inputs, ItemKey)
  }

  function DigestText(digest: Option<string>): string {
    if digest.Some? then digest.value else "-"
  }

  function RetainText(c: Classification): string {
    if c.Omitted? then "retain" else "apply"
  }

  function Line(item: Item): string {
    Decimal(|item.key|) + ":" + item.key + "|" + WireName(item.classification) + "|" + DigestText(item.digest) + "|"
    + RetainText(item.classification) + "\n"
  }

  function Lines(items: seq<Item>): string {
    if items == [] then [] else Line(items[0]) + Lines(items[1..])
  }

  function Plan(inputs: seq<Item>): string {
    Lines(Ordered(inputs))
  }

  /** A digest as the planner writes it: hexadecimal text. */
  predicate Hex(s: string) {
    forall i :: 0 <= i < |s| ==> '0' <= s[i] <= '9' || 'a' <= s[i] <= 'f'
  }

  predicate HexDigests(items: seq<Item>) {
    forall i :: 0 <= i < |items| ==> items[i].digest.Some? ==> Hex(items[i].digest.value)
  }

  predicate DistinctKeys(items: seq<Item>) {
    forall i, j :: 0 <= i < j < |items| ==> items[i].key != items[j].key
  }

  // ---------------------------------------------------------------- unique decoding

  lemma Regroup(a: string, b: string, c: string)
    ensures a + b + c == a + (b + c)
  {
  }

  lemma WireNamesDiffer(a: Classification, b: Classification)
    ensures WireName(a) == WireName(b) ==> a == b
    ensures Lacks(WireName(a), '|')
  {
    assert WireName(a)[0] != WireName(b)[0] || |WireName(a)| != |WireName(b)| || a == b;
  }

  lemma DigestTextsDiffer(a: Option<string>, b: Option<string>)
    requires a.Some? ==> Hex(a.value)
    requires b.Some? ==> Hex(b.value)
    ensures DigestText(a) == DigestText(b) ==> a == b
    ensures Lacks(DigestText(a), '|')
  {
    assert !Hex("-") by { assert ("-")[0] == '-'; }
  }

  /** What stands after the key of a line. */
  function Tail(item: Item): string {
    WireName(item.classification) + "|" + DigestText(item.digest) + "|" + RetainText(item.classification) + "\n"
  }

  lemma TailDecodes(a: Item, b: Item, s: string, t: string)
    requires a.digest.Some? ==> Hex(a.digest.value)
    requires b.digest.Some? ==> Hex(b.digest.value)
    requires Tail(a) + s == Tail(b) + t
    ensures a.classification == b.classification && a.digest == b.digest && s == t
  {
    TailShape(a, s);
    TailShape(b, t);
    WireNamesDiffer(a.classification, b.classification);
    WireNamesDiffer(b.classification, a.classification);
    DigestTextsDiffer(a.digest, b.digest);
    DigestTextsDiffer(b.digest, a.digest);
    hide WireName, DigestText, RetainText, Tail;
    CutAt(WireName(a.classification), WireName(b.classification), '|', AfterName(a, s), AfterName(b, t));
    CutAt(DigestText(a.digest), DigestText(b.digest), '|', AfterDigest(a, s), AfterDigest(b, t));
    var retain := RetainText(a.classification) + "\n";
    assert s == AfterDigest(a, s)[|retain|..] && t == AfterDigest(b, t)[|retain|..];
  }

  function AfterDigest(item: Item, s: string): string {
    RetainText(item.classification) + "\n" + s
  }

  function AfterName(item: Item, s: string): string {
    DigestText(item.digest) + (['|'] + AfterDigest(item, s))
  }

  lemma TailShape(item: Item, s: string)
    ensures Tail(item) + s == WireName(item.classification) + (['|'] + AfterName(item, s))
  {
    hide WireName, DigestText, RetainText;
    var n, d, r := WireName(item.classification), DigestText(item.digest), RetainText(item.classification);
    assert Tail(item) == n + "|" + (d + "|" + r + "\n");
    Regroup(n + "|", d + "|" + r + "\n", s);
    Regroup(d + "|", r + "\n", s);
    Regroup(d, "|", AfterDigest(item, s));
    Regroup(n, "|", AfterName(item, s));
  }

  lemma LineDecodes(a: Item, b: Item, s: string, t: string)
    requires a.digest.Some? ==> Hex(a.digest.value)
    requires b.digest.Some? ==> Hex(b.digest.value)
    requires Line(a) + s == Line(b) + t
    ensures a == b && s == t
  {
    LineShape(a, s);
    LineShape(b, t);
    hide Tail, Line, Decimal;
    DecimalDigits(|a.key|);
    DecimalDigits(|b.key|);
    CutAt(Decimal(|a.key|), Decimal(|b.key|), ':', AfterLength(a, s), AfterLength(b, t));
    DecimalInjective(|a.key|, |b.key|);
    var n := |a.key|;
    assert AfterLength(a, s)[..n] == a.key && AfterLength(b, t)[..n] == b.key;
    assert AfterLength(a, s)[n + 1..] == Tail(a) + s && AfterLength(b, t)[n + 1..] == Tail(b) + t;
    TailDecodes(a, b, s, t);
  }

  function AfterLength(item: Item, s: string): string {
    item.key + (['|'] + (Tail(item) + s))
  }

  lemma LineShape(item: Item, s: string)
    ensures Line(item) + s == Decimal(|item.key|) + ([':'] + AfterLength(item, s))
  {
    hide WireName, DigestText, RetainText, Decimal;
    var n := Decimal(|item.key|);
    assert Line(item) == n + ":" + (item.key + "|" + Tail(item));
    hide Tail, Line;
    Regroup(n + ":", item.key + "|" + Tail(item), s);
    Regroup(item.key + "|", Tail(item), s);
    Regroup(item.key, "|", Tail(item) + s);
    Regroup(n, ":", AfterLength(item, s));
  }

  /** Equal texts come from equal item sequences. */
  lemma {:induction false} LinesDecode(a: seq<Item>, b: seq<Item>)
    requires HexDigests(a) && HexDigests(b) && Lines(a) == Lines(b)
    ensures a == b
    decreases |a|
  {
    hide Line;
    if a == [] && b != [] {
      LineNotEmpty(b[0]);
    } else if b == [] && a != [] {
      LineNotEmpty(a[0]);
    } else if a != [] {
      LineDecodes(a[0], b[0], Lines(a[1..]), Lines(b[1..]));
      LinesDecode(a[1..], b[1..]);
      assert a == [a[0]] + a[1..] && b == [b[0]] + b[1..];
    }
  }

  function Spelling(key: string, name: string, digest: string, retain: string): string {
    Decimal(|key|) + ":" + key + "|" + name + "|" + digest + "|" + retain + "\n"
  }

  /** The lines by class: only an omitted item retains its state. */
  lemma LineSpells(key: string, digest: Option<string>)
    ensures
      var d := if digest.None? then "-" else digest.value;
      && Line(Item(key, Normalized, digest)) == Spelling(key, "normalized", d, "apply")
      && Line(Item(key, UnknownRecord, digest)) == Spelling(key, "unknown_record", d, "apply")
      && Line(Item(key, UnknownSection, digest)) == Spelling(key, "unknown_section", d, "apply")
      && Line(Item(key, Conflict, digest)) == Spelling(key, "conflict", d, "apply")
      && Line(Item(key, Warning, digest)) == Spelling(key, "warning", d, "apply")
      && Line(Item(key, Omitted, digest)) == Spelling(key, "omitted", d, "retain")
  {
    hide Decimal;
  }

  lemma LineNotEmpty(item: Item)
    ensures Line(item) != []
  {
  }

  lemma OrderedKeeps(inputs: seq<Item>)
    ensures multiset(Ordered(inputs)) == multiset(inputs)
    ensures HexDigests(inputs) ==> HexDigests(Ordered(inputs))
  {
    SortSorts(inputs, ItemKey);
    SameElements(inputs, Ordered(inputs));
    hide SortBy, Hex;
    if HexDigests(inputs) {
      forall i | 0 <= i < |Ordered(inputs)|
        ensures Ordered(inputs)[i].digest.Some? ==> Hex(Ordered(inputs)[i].digest.value)
      {
        assert Ordered(inputs)[i] in inputs;
      }
    }
  }

  /** For distinct keys the report does not depend on the order of the inputs. */
  lemma OrderIrrelevant(a: seq<Item>, b: seq<Item>)
    requires DistinctKeys(a) && multiset(a) == multiset(b)
    ensures Ordered(a) == Ordered(b)
  {
    hide SortBy, Among;
    forall k ensures Among(a, ItemKey, k) == Among(b, ItemKey, k) { PermutedClasses(a, b, ItemKey, k); }
    SameClassesSameSort(a, b, ItemKey);
  }

  /** The canonical plan identifies the set of inputs, and nothing but it. */
  lemma PlanIdentifiesInputs(a: seq<Item>, b: seq<Item>)
    requires DistinctKeys(a) && HexDigests(a) && HexDigests(b)
    ensures Plan(a) == Plan(b) <==> multiset(a) == multiset(b)
  {
    hide SortBy, Lines;
    OrderedKeeps(a);
    OrderedKeeps(b);
    if Plan(a) == Plan(b) { LinesDecode(Ordered(a), Ordered(b)); }
    if multiset(a) == multiset(b) { OrderIrrelevant(a, b); }
  }

  /** Without the digest alphabet the encoding is ambiguous: a digest "-" reads as no digest. */
  lemma DashIsAmbiguous(key: string, c: Classification)
    ensures Plan([Item(key, c, Some("-"))]) == Plan([Item(key, c, None)])
    ensures Item(key, c, Some("-")) != Item(key, c, None)
  {
    var a, b := Item(key, c, Some("-")), Item(key, c, None);
    assert SortBy([a][1..], ItemKey) == [] && SortBy([b][1..], ItemKey) == [];
    assert Ordered([a]) == [a] && Ordered([b]) == [b];
    assert Line(a) == Line(b);
    assert Lines([a]) == Line(a) + [] && Lines([b]) == Line(b) + [];
  }
}
