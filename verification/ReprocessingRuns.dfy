/**
 Applying a reprocessing plan in restartable chunks: one transaction per call, any number of calls,
 any of which may fail (crates/instagram-archive/src/data_export_reprocessing.rs:170-375).
 */
module ReprocessingRuns {
  import opened Prelude
  import opened Sorting
  import opened Reprocessing

  datatype Status = Running | Completed | CompletedWithWarnings

  datatype Stored = Stored(key: string, classification: Classification, state: string, digest: Option<string>)

  datatype Run = Run(
    importRun: nat,
    planFingerprint: string,
    stateFingerprint: string,
    status: Status,
    items: seq<Stored>,
    checkpoint: Option<string>
  )

  datatype Request = Request(importRun: nat, inputs: seq<Item>, stateFingerprint: string, maxItems: nat)

  datatype Refusal = NoReceipt | PlanChanged | DuplicateKey

  function StoredItem(item: Item): Stored {
    Stored(item.key, item.classification, ItemState(item.classification), item.digest)
  }

  function StoredItems(items: seq<Item>): seq<Stored> {
    seq(|items|, i requires 0 <= i < |items| => StoredItem(items[i]))
  }

  function Keys(items: seq<Stored>): set<string> {
    set i | 0 <= i < |items| :: items[i].key
  }

  /** The report's items whose keys are not stored yet, in report order. */
  function Missing(items: seq<Item>, keys: set<string>): seq<Item> {
    if items == [] then [] else (if items[0].key in keys then [] else [items[0]]) + Missing(items[1..], keys)
  }

  function Take(items: seq<Item>, n: nat): seq<Item> {
    items[..Min(n, |items|)]
  }

  predicate WithWarnings(items: seq<Item>) {
    exists i :: 0 <= i < |items| && (items[i].classification.Warning? || items[i].classification.Conflict?)
  }

  function Finished(items: seq<Item>): Status {
    if WithWarnings(items) then CompletedWithWarnings else Completed
  }

  function NewRun(request: Request, hash: string -> string): Run {
    Run(request.importRun, hash(Plan(request.inputs)), request.stateFingerprint, Running, [], None)
  }

  predicate SamePlan(run: Run, request: Request, hash: string -> string) {
    && run.importRun == request.importRun
    && run.planFingerprint == hash(Plan(request.inputs))
    && run.stateFingerprint == request.stateFingerprint
  }

  function WithChunk(run: Run, items: seq<Item>, chunk: seq<Item>): Run {
    var stored := run.items + StoredItems(chunk);
    run.(items := stored,
         checkpoint := if chunk == [] then run.checkpoint else Some(chunk[|chunk| - 1].key),
         status := if |stored| == |items| then Finished(items) else Running)
  }

  /** One call's transaction on the operation's run row; an error leaves the row as it was. */
  function ApplyChunk(run: Option<Run>, receipt: bool, request: Request, hash: string -> string): Result<Run, Refusal> {
    if !receipt then Err(NoReceipt)
    else if run.Some? && !SamePlan(run.value, request, hash) then Err(PlanChanged)
    else
      var current := if run.Some? then run.value else NewRun(request, hash);
      if !current.status.Running? then Ok(current)
      else
        var items := Ordered(request.inputs);
        var chunk := Take(Missing(items, Keys(current.items)), request.maxItems);
        if !DistinctKeys(chunk) then Err(DuplicateKey) else Ok(WithChunk(current, items, chunk))
  }

  // ---------------------------------------------------------------- the stored prefix

  /** The run holds exactly the first `length` items of the report. */
  predicate HoldsPrefix(run: Run, items: seq<Item>, length: nat) {
    && length <= |items|
    && run.items == StoredItems(items[..length])
    && run.checkpoint == (if length == 0 then None else Some(items[length - 1].key))
  }

  predicate StatusFits(run: Run, items: seq<Item>, length: nat) {
    run.status == if length == |items| then Finished(items) else Running
  }

  /** The stored form of an item: its key, class and digest, and the state its class calls for. */
  predicate StoredAs(stored: Stored, item: Item) {
    && stored.key == item.key && stored.classification == item.classification && stored.digest == item.digest
    && match item.classification
       case Conflict => stored.state == "conflict"
       case Warning => stored.state == "warning"
       case Omitted => stored.state == "skipped"
       case _ => stored.state == "applied"
  }

  /** What holding a prefix and a fitting status mean, row by row. */
  lemma PrefixMeans(run: Run, items: seq<Item>, length: nat)
    requires length <= |items|
    ensures HoldsPrefix(run, items, length) <==>
              && |run.items| == length && (forall i :: 0 <= i < length ==> StoredAs(run.items[i], items[i]))
              && run.checkpoint == (if length == 0 then None else Some(items[length - 1].key))
    ensures StatusFits(run, items, length) <==>
              if length < |items| then run.status.Running?
              else if exists i :: 0 <= i < |items|
                                  && (items[i].classification == Warning || items[i].classification == Conflict)
              then run.status.CompletedWithWarnings?
              else run.status.Completed?
  {
    if |run.items| == length && forall i :: 0 <= i < length ==> StoredAs(run.items[i], items[i]) {
      forall i | 0 <= i < length ensures run.items[i] == StoredItem(items[i]) {
      }
      assert run.items == StoredItems(items[..length]);
    }
    if run.items == StoredItems(items[..length]) {
      assert forall i :: 0 <= i < length ==> run.items[i] == StoredItem(items[i]);
    }
  }

  lemma {:induction false} NothingStored(items: seq<Item>, keys: set<string>)
    requires forall i :: 0 <= i < |items| ==> items[i].key !in keys
    ensures Missing(items, keys) == items
  {
    if items == [] {
    } else {
      NothingStored(items[1..], keys);
    }
  }

  lemma {:induction false} MissingAfterPrefix(items: seq<Item>, keys: set<string>, length: nat)
    requires length <= |items| && DistinctKeys(items)
    requires forall i :: 0 <= i < |items| ==> (items[i].key in keys <==> i < length)
    ensures Missing(items, keys) == items[length..]
    decreases length
  {
    if length == 0 {
      NothingStored(items, keys);
    } else {
      assert forall i :: 0 <= i < |items[1..]| ==> items[1..][i] == items[i + 1];
      MissingAfterPrefix(items[1..], keys, length - 1);
    }
  }

  lemma OrderedDistinct(inputs: seq<Item>)
    requires DistinctKeys(inputs)
    ensures DistinctKeys(Ordered(inputs)) && |Ordered(inputs)| == |inputs|
  {
    hide SortBy;
    var items := Ordered(inputs);
    SortSorts(inputs, ItemKey);
    assert |multiset(items)| == |items| && |multiset(inputs)| == |inputs|;
    forall i, j | 0 <= i < j < |items| ensures items[i].key != items[j].key {
      if items[i].key == items[j].key { RepeatedKey(items, inputs, i, j); }
    }
  }

  /** Two places with one key in a permutation mean two places with one key. */
  lemma RepeatedKey(a: seq<Item>, b: seq<Item>, i: nat, j: nat)
    requires multiset(a) == multiset(b) && i < j < |a| && a[i].key == a[j].key
    ensures !DistinctKeys(b)
  {
    var key := (item: Item) => item.key;
    if DistinctKeys(b) {
      UnrepeatedPermuted(b, a, key);
      assert false;
    }
  }

  /** The next chunk is the next stretch of the report. */
  lemma NextChunk(run: Run, items: seq<Item>, length: nat, size: nat)
    requires DistinctKeys(items) && HoldsPrefix(run, items, length)
    ensures Take(Missing(items, Keys(run.items)), size) == items[length..Min(|items|, length + size)]
    ensures DistinctKeys(items[length..Min(|items|, length + size)])
  {
    hide Missing, Keys, StoredItems;
    MissingIsRest(run, items, length);
    SliceDistinct(items, length, Min(|items|, length + size));
  }

  lemma SliceDistinct(items: seq<Item>, from: nat, until: nat)
    requires DistinctKeys(items) && from <= until <= |items|
    ensures DistinctKeys(items[from..until])
  {
    forall i, j | 0 <= i < j < until - from ensures items[from..until][i].key != items[from..until][j].key {
      assert items[from + i].key != items[from + j].key;
    }
  }

  lemma StoreChunk(run: Run, items: seq<Item>, length: nat, next: nat)
    requires HoldsPrefix(run, items, length) && length <= next <= |items|
    ensures HoldsPrefix(WithChunk(run, items, items[length..next]), items, next)
    ensures StatusFits(WithChunk(run, items, items[length..next]), items, next)
  {
    hide StoredItem, Finished;
    assert StoredItems(items[..length]) + StoredItems(items[length..next]) == StoredItems(items[..next]);
  }

  lemma MissingIsRest(run: Run, items: seq<Item>, length: nat)
    requires DistinctKeys(items) && HoldsPrefix(run, items, length)
    ensures Missing(items, Keys(run.items)) == items[length..]
  {
    var keys := Keys(run.items);
    forall i | 0 <= i < |items| ensures items[i].key in keys <==> i < length {
      if i < length { assert run.items[i].key == items[i].key; }
    }
    MissingAfterPrefix(items, keys, length);
  }

  /** One committed call with the run's plan, from any prefix. */
  lemma CallAdvances(run: Option<Run>, length: nat, plan: Request, request: Request, hash: string -> string)
    requires DistinctKeys(plan.inputs) && multiset(request.inputs) == multiset(plan.inputs)
    requires request.importRun == plan.importRun && request.stateFingerprint == plan.stateFingerprint
    requires if run.None? then length == 0
             else SamePlan(run.value, plan, hash) && HoldsPrefix(run.value, Ordered(plan.inputs), length)
                  && StatusFits(run.value, Ordered(plan.inputs), length)
    ensures
      var items := Ordered(plan.inputs);
      var next := Min(|items|, length + request.maxItems);
      var after := ApplyChunk(run, true, request, hash);
      && after.Ok? && SamePlan(after.value, plan, hash)
      && HoldsPrefix(after.value, items, next) && StatusFits(after.value, items, next)
  {
    hide SortBy, Missing, Keys, Lines, DistinctKeys;
    var items := Ordered(plan.inputs);
    OrderedDistinct(plan.inputs);
    OrderIrrelevant(plan.inputs, request.inputs);
    var current := if run.Some? then run.value else NewRun(request, hash);
    assert items[..0] == [];
    NextChunk(current, items, length, request.maxItems);
    StoreChunk(current, items, length, Min(|items|, length + request.maxItems));
  }

  // ---------------------------------------------------------------- whole runs

  /** A call that committed, or one that failed and changed nothing. */
  datatype Call = Committed(request: Request) | Failed

  function AfterCalls(run: Option<Run>, calls: seq<Call>, hash: string -> string): Option<Run>
    decreases |calls|
  {
    if calls == [] then run
    else
      var front, last := calls[..|calls| - 1], calls[|calls| - 1];
      var before := AfterCalls(run, front, hash);
      if last.Failed? then before
      else
        match ApplyChunk(before, true, last.request, hash)
        case Err(_) => before
        case Ok(after) => Some(after)
  }

  function Attempted(calls: seq<Call>): nat {
    if calls == [] then 0
    else
      var last := calls[|calls| - 1];
      Attempted(calls[..|calls| - 1]) + if last.Committed? then last.request.maxItems else 0
  }

  predicate AnyCommitted(calls: seq<Call>) {
    exists i :: 0 <= i < |calls| && calls[i].Committed?
  }

  /** Every committed call carries the same plan, its inputs in any order. */
  predicate OnePlan(calls: seq<Call>, plan: Request) {
    forall i :: 0 <= i < |calls| && calls[i].Committed? ==>
      && calls[i].request.importRun == plan.importRun
      && calls[i].request.stateFingerprint == plan.stateFingerprint
      && multiset(calls[i].request.inputs) == multiset(plan.inputs)
  }

  /**
   The restartable apply refines the one-shot report: whatever calls fail in between and in whatever
   chunk sizes the others come, the stored items are the first min(n, total) items of the sorted
   report, the run is finished exactly when all n are stored, and it stays as it is from then on.
   */
  lemma {:induction false} RestartableApply(calls: seq<Call>, plan: Request, hash: string -> string)
    requires DistinctKeys(plan.inputs) && OnePlan(calls, plan)
    ensures
      var run, items := AfterCalls(None, calls, hash), Ordered(plan.inputs);
      var length := Min(|items|, Attempted(calls));
      && (run.Some? <==> AnyCommitted(calls))
      && (run.Some? ==>
            && HoldsPrefix(run.value, items, length)
            && StatusFits(run.value, items, length)
            && SamePlan(run.value, plan, hash))
  {
    hide ApplyChunk, SortBy, DistinctKeys, HoldsPrefix, StatusFits, SamePlan;
    if calls == [] {
    } else {
      var front, last := calls[..|calls| - 1], calls[|calls| - 1];
      RestartableApply(front, plan, hash);
      if last.Committed? {
        var before, items := AfterCalls(None, front, hash), Ordered(plan.inputs);
        if before.None? { NothingAttempted(front); }
        CallAdvances(before, Min(|items|, Attempted(front)), plan, last.request, hash);
      } else {
        assert AnyCommitted(front) == AnyCommitted(calls);
      }
    }
  }

  lemma {:induction false} NothingAttempted(calls: seq<Call>)
    requires !AnyCommitted(calls)
    ensures Attempted(calls) == 0
  {
    if calls == [] {
    } else {
      NothingAttempted(calls[..|calls| - 1]);
    }
  }

  function CommittedCount(calls: seq<Call>): nat {
    if calls == [] then 0
    else CommittedCount(calls[..|calls| - 1]) + if calls[|calls| - 1].Committed? then 1 else 0
  }

  /** With chunks of one size m, k committed calls have attempted k * m items. */
  lemma {:induction false} AttemptedUniform(calls: seq<Call>, m: nat)
    requires forall i :: 0 <= i < |calls| && calls[i].Committed? ==> calls[i].request.maxItems == m
    ensures Attempted(calls) == CommittedCount(calls) * m
  {
    if calls == [] {
    } else {
      AttemptedUniform(calls[..|calls| - 1], m);
      var before := CommittedCount(calls[..|calls| - 1]);
      assert (before + 1) * m == before * m + m;
    }
  }

  /** A call is refused for its plan exactly when it names another import, another state or other inputs. */
  lemma ChangedPlanRefused(run: Run, plan: Request, request: Request, hash: string -> string)
    requires hash(Plan(plan.inputs)) == hash(Plan(request.inputs)) ==> Plan(plan.inputs) == Plan(request.inputs)
    requires SamePlan(run, plan, hash) && DistinctKeys(plan.inputs) && HexDigests(plan.inputs)
             && HexDigests(request.inputs)
    ensures ApplyChunk(Some(run), true, request, hash) == Err(PlanChanged) <==>
            || request.importRun != plan.importRun
            || request.stateFingerprint != plan.stateFingerprint
            || multiset(request.inputs) != multiset(plan.inputs)
  {
    PlanIdentifiesInputs(plan.inputs, request.inputs);
    hide Plan, SortBy, Missing, DistinctKeys, HexDigests;
  }

  /** A missing receipt refuses every call, and nothing but it does so; a finished run answers with itself. */
  lemma ReceiptComesFirst(run: Option<Run>, receipt: bool, request: Request, hash: string -> string)
    ensures
      var r := ApplyChunk(run, receipt, request, hash);
      && (r == Err(NoReceipt) <==> !receipt)
      && (r.Ok? && run.Some? && (run.value.status.Completed? || run.value.status.CompletedWithWarnings?) ==>
            r.value == run.value)
      && (r.Ok? && run.None? ==>
            && r.value.importRun == request.importRun && r.value.stateFingerprint == request.stateFingerprint
            && r.value.planFingerprint == hash(Plan(request.inputs)))
  {
    hide Plan, SortBy, Missing, DistinctKeys;
  }

  // ---------------------------------------------------------------- repeated keys

  predicate StoredDistinct(run: Run) {
    forall i, j :: 0 <= i < j < |run.items| ==> run.items[i].key != run.items[j].key
  }

  function ItemKeys(items: seq<Item>): set<string> {
    set i | 0 <= i < |items| :: items[i].key
  }

  lemma {:induction false} MissingKeys(items: seq<Item>, keys: set<string>)
    ensures forall i :: 0 <= i < |Missing(items, keys)| ==>
              Missing(items, keys)[i].key !in keys && Missing(items, keys)[i].key in ItemKeys(items)
  {
    if items == [] {
    } else {
      MissingKeys(items[1..], keys);
      assert ItemKeys(items[1..]) <= ItemKeys(items) by {
        forall k | k in ItemKeys(items[1..]) ensures k in ItemKeys(items) {
          var i :| 0 <= i < |items[1..]| && items[1..][i].key == k;
          assert items[i + 1].key == k;
        }
      }
      assert items[0].key in ItemKeys(items);
    }
  }

  lemma {:induction false} DistinctStoredCount(items: seq<Stored>)
    requires forall i, j :: 0 <= i < j < |items| ==> items[i].key != items[j].key
    ensures |Keys(items)| == |items|
  {
    if items == [] {
    } else {
      var front, last := items[..|items| - 1], items[|items| - 1];
      DistinctStoredCount(front);
      assert Keys(items) == Keys(front) + {last.key};
      assert last.key !in Keys(front);
    }
  }

  lemma LastRepeats(items: seq<Item>)
    requires !DistinctKeys(items) && items != [] && DistinctKeys(items[..|items| - 1])
    ensures items[|items| - 1].key in ItemKeys(items[..|items| - 1])
  {
    var front := items[..|items| - 1];
    var i, j :| 0 <= i < j < |items| && items[i].key == items[j].key;
    assert j == |front|;
    assert front[i].key == items[|items| - 1].key;
  }

  lemma {:induction false} FewKeys(items: seq<Item>)
    ensures |ItemKeys(items)| <= |items|
    ensures !DistinctKeys(items) ==> |ItemKeys(items)| < |items|
  {
    if items == [] {
    } else {
      var front, last := items[..|items| - 1], items[|items| - 1];
      FewKeys(front);
      assert ItemKeys(items) == ItemKeys(front) + {last.key};
      if DistinctKeys(front) && !DistinctKeys(items) { LastRepeats(items); }
    }
  }

  /** What every run keeps, also for a plan that repeats a key. */
  predicate Sound(run: Run, items: seq<Item>) {
    StoredDistinct(run) && Keys(run.items) <= ItemKeys(items) && (!run.status.Running? ==> |run.items| == |items|)
  }

  lemma ChunkSound(run: Run, items: seq<Item>, chunk: seq<Item>)
    requires Sound(run, items) && run.status.Running? && DistinctKeys(chunk)
    requires forall i :: 0 <= i < |chunk| ==> chunk[i].key !in Keys(run.items) && chunk[i].key in ItemKeys(items)
    ensures Sound(WithChunk(run, items, chunk), items)
  {
    var after := WithChunk(run, items, chunk);
    assert forall i :: 0 <= i < |run.items| ==> run.items[i].key in Keys(run.items);
    assert forall i :: |run.items| <= i < |after.items| ==> after.items[i].key == chunk[i - |run.items|].key;
  }

  lemma {:induction false} AlwaysSound(calls: seq<Call>, plan: Request, hash: string -> string)
    requires forall i :: 0 <= i < |calls| && calls[i].Committed? ==> calls[i].request.inputs == plan.inputs
    ensures AfterCalls(None, calls, hash).Some? ==> Sound(AfterCalls(None, calls, hash).value, Ordered(plan.inputs))
  {
    hide Sound, SortBy, DistinctKeys, WithChunk, Missing, Keys, SamePlan;
    if calls == [] {
    } else {
      var front, last := calls[..|calls| - 1], calls[|calls| - 1];
      AlwaysSound(front, plan, hash);
      if last.Committed? {
        var before, items := AfterCalls(None, front, hash), Ordered(plan.inputs);
        var current := if before.Some? then before.value else NewRun(last.request, hash);
        if before.None? { NewSound(last.request, items, hash); }
        MissingKeys(items, Keys(current.items));
        var chunk := Take(Missing(items, Keys(current.items)), last.request.maxItems);
        if current.status.Running? && DistinctKeys(chunk) { ChunkSound(current, items, chunk); }
      }
    }
  }

  lemma NewSound(request: Request, items: seq<Item>, hash: string -> string)
    ensures Sound(NewRun(request, hash), items)
  {
  }

  /** A plan that repeats a key never completes; with RestartableApply, a plan completes iff its keys differ. */
  lemma RepeatedKeyNeverCompletes(calls: seq<Call>, plan: Request, hash: string -> string)
    requires forall i :: 0 <= i < |calls| && calls[i].Committed? ==> calls[i].request.inputs == plan.inputs
    requires !DistinctKeys(plan.inputs)
    ensures AfterCalls(None, calls, hash).Some? ==> AfterCalls(None, calls, hash).value.status.Running?
  {
    hide AfterCalls, SortBy;
    AlwaysSound(calls, plan, hash);
    var run, items := AfterCalls(None, calls, hash), Ordered(plan.inputs);
    if run.Some? {
      DistinctStoredCount(run.value.items);
      OrderedRepeats(plan.inputs);
      FewKeys(items);
      SubsetSize(Keys(run.value.items), ItemKeys(items));
    }
  }

  lemma SubsetSize(a: set<string>, b: set<string>)
    requires a <= b
    ensures |a| <= |b|
  {
    assert b == a + (b - a);
  }

  lemma OrderedRepeats(inputs: seq<Item>)
    requires !DistinctKeys(inputs)
    ensures !DistinctKeys(Ordered(inputs))
  {
    SortSorts(inputs, ItemKey);
    var i, j :| 0 <= i < j < |inputs| && inputs[i].key == inputs[j].key;
    RepeatedKey(inputs, Ordered(inputs), i, j);
  }

  // ---------------------------------------------------------------- the store

  class ReprocessingStore {
    var runs: map<(nat, nat), Run>
    var receipts: set<(nat, nat)>

    ghost function Row(owner: nat, operation: nat): Option<Run>
      reads this
    {
      if (owner, operation) in runs then Some(runs[(owner, operation)]) else None
    }

    /** `receipts` holds the owner's reconciled imports with the supported layout and parser. */
    method Apply(owner: nat, operation: nat, request: Request, hash: string -> string)
      returns (r: Result<bool, Refusal>)
      modifies this`runs
      ensures
        var expected := ApplyChunk(old(Row(owner, operation)), (owner, request.importRun) in receipts, request, hash);
        match expected
        case Err(e) => r == Err(e) && runs == old(runs)
        case Ok(run) => r == Ok(!run.status.Running?) && runs == old(runs)[(owner, operation) := run]
    {
      hide SortBy, Lines, WithWarnings;
      if (owner, request.importRun) !in receipts { return Err(NoReceipt); }
      var fingerprint := hash(Plan(request.inputs));
      var run := Run(request.importRun, fingerprint, request.stateFingerprint, Running, [], None);
      if (owner, operation) in runs {
        run := runs[(owner, operation)];
        if run.importRun != request.importRun || run.planFingerprint != fingerprint
           || run.stateFingerprint != request.stateFingerprint {
          return Err(PlanChanged);
        }
      }
      if !run.status.Running? {
        runs := runs[(owner, operation) := run];
        return Ok(true);
      }
      var items := Ordered(request.inputs);
      var chunk := SelectChunk(items, Keys(run.items), request.maxItems);
      if !DistinctKeys(chunk) { return Err(DuplicateKey); }
      run := WithChunk(run, items, chunk);
      runs := runs[(owner, operation) := run];
      return Ok(|run.items| == |items|);
    }

    method SelectChunk(items: seq<Item>, keys: set<string>, size: nat) returns (chunk: seq<Item>)
      ensures chunk == Take(Missing(items, keys), size)
    {
      hide Missing;
      chunk := [];
      var k := 0;
      assert items[0..] == items;
      ghost var all := Missing(items, keys);
      while k < |items| && |chunk| < size
        invariant 0 <= k <= |items| && |chunk| <= size
        invariant all == chunk + Missing(items[k..], keys)
      {
        MissingStep(items, keys, k);
        if items[k].key !in keys {
          assert chunk + ([items[k]] + Missing(items[k + 1..], keys)) == chunk + [items[k]]
                 + Missing(items[k + 1..], keys);
          chunk := chunk + [items[k]];
        }
        k := k + 1;
      }
      if k == |items| { MissingNone(items[k..], keys); }
      assert chunk == all[..|chunk|];
    }
  }

  lemma MissingStep(items: seq<Item>, keys: set<string>, k: nat)
    requires k < |items|
    ensures Missing(items[k..], keys) == (if items[k].key in keys then [] else [items[k]]) + Missing(items[k + 1..],
            keys)
  {
    assert items[k..][1..] == items[k + 1..];
  }

  lemma MissingNone(items: seq<Item>, keys: set<string>)
    requires items == []
    ensures Missing(items, keys) == []
  {
  }
}
