/** scripts/ci_test_shard.py: the work items, the greedy assignment and the pytest arguments of
    each shard, together with what pytest makes of those arguments. */
module ShardSelection {
  import opened Ordering
  import opened ShardBalance

  /** A work item: a test file, a node id, or "REST:<file>", with its seconds. */
  datatype Item = Item(name: string, seconds: real)

  datatype TestFile = TestFile(path: string, bytes: nat)

  /** The checkout: the files under tests/, the node ids pytest collects from them, and the
      recorded timings (the "tests" and "files" parts of the durations file). */
  datatype Suite = Suite(
    found: seq<TestFile>,
    tests: set<string>,
    recordedTests: seq<Item>,
    recordedFiles: map<string, real>)

  datatype Arg = Path(path: string) | Deselect(prefix: string)

  const EXCLUDED: set<string> := {"tests/test_ibrx_async.py"}
  const SECONDS_PER_BYTE_FALLBACK: real := 0.0001
  const REST: string := "REST:"
  const SEP: string := "::"

  /** `node_id.split("::", 1)[0]` */
  function FileOf(id: string): string {
    if |id| < 2 then id
    else if id[0] == ':' && id[1] == ':' then ""
    else [id[0]] + FileOf(id[1..])
  }

  function FileLe(x: TestFile, y: TestFile): bool { StringLe(x.path, y.path) }

  /** Files in sorted order, without the quarantined one. */
  function TestFiles(found: seq<TestFile>): seq<TestFile> {
    Kept(Sort(found, FileLe))
  }

  function Kept(files: seq<TestFile>): seq<TestFile> {
    if files == [] then []
    else if files[0].path in EXCLUDED then Kept(files[1..])
    else [files[0]] + Kept(files[1..])
  }

  /** The first n recorded tests that belong to a file. */
  function RecordedOf(recorded: seq<Item>, n: nat, file: string): seq<Item>
    requires n <= |recorded|
  {
    if n == 0 then []
    else RecordedOf(recorded, n - 1, file) + (if FileOf(recorded[n - 1].name) == file then [recorded[n - 1]] else [])
  }

  function ItemsOf(suite: Suite, file: TestFile): seq<Item> {
    var split := RecordedOf(suite.recordedTests, |suite.recordedTests|, file.path);
    if split != [] then split + [Item(REST + file.path, 0.0)]
    else if file.path in suite.recordedFiles then [Item(file.path, suite.recordedFiles[file.path])]
    else [Item(file.path, file.bytes as real * SECONDS_PER_BYTE_FALLBACK)]
  }

  function ItemsUpTo(suite: Suite, files: seq<TestFile>, n: nat): seq<Item>
    requires n <= |files|
  {
    if n == 0 then [] else ItemsUpTo(suite, files, n - 1) + ItemsOf(suite, files[n - 1])
  }

  /** The items of the whole suite, file by file. */
  function AllItems(suite: Suite): seq<Item> {
    var files := TestFiles(suite.found);
    ItemsUpTo(suite, files, |files|)
  }

  function Entry(splitTests: map<string, seq<Item>>, file: string): seq<Item> {
    if file in splitTests then splitTests[file] else []
  }

  /** The `split_tests` dict after the first n recorded tests. */
  ghost predicate SplitsUpTo(splitTests: map<string, seq<Item>>, recorded: seq<Item>, n: nat)
    requires n <= |recorded|
  {
    && (forall f :: Entry(splitTests, f) == RecordedOf(recorded, n, f))
    && (forall f :: f in splitTests ==> splitTests[f] != [])
  }

  method SplitTests(recorded: seq<Item>) returns (splitTests: map<string, seq<Item>>)
    ensures SplitsUpTo(splitTests, recorded, |recorded|)
  {
    splitTests := map[];
    for k := 0 to |recorded|
      invariant SplitsUpTo(splitTests, recorded, k)
    {
      var file := FileOf(recorded[k].name);
      var before := splitTests;
      splitTests := before[file := Entry(before, file) + [recorded[k]]];
      SplitsStep(before, splitTests, recorded, k, file);
    }
  }

  lemma {:induction false} SplitsStep(before: map<string, seq<Item>>, after: map<string, seq<Item>>,
                                      recorded: seq<Item>, k: nat, file: string)
    requires k < |recorded| && file == FileOf(recorded[k].name) && SplitsUpTo(before, recorded, k)
    requires after == before[file := Entry(before, file) + [recorded[k]]]
    ensures SplitsUpTo(after, recorded, k + 1)
  {
    forall f: string ensures Entry(after, f) == RecordedOf(recorded, k + 1, f) {
      assert Entry(before, f) == RecordedOf(recorded, k, f);
      assert f != file ==> Entry(after, f) == Entry(before, f) == Entry(before, f) + [];
    }
  }

  method WorkItems(suite: Suite) returns (items: seq<Item>)
    ensures items == AllItems(suite)
  {
    var splitTests := SplitTests(suite.recordedTests);
    var files := TestFiles(suite.found);
    items := [];
    for k := 0 to |files|
      invariant items == ItemsUpTo(suite, files, k)
    {
      var mine := FileItems(suite, splitTests, files[k]);
      items := items + mine;
    }
  }

  /** One turn of the loop over the files. */
  method FileItems(suite: Suite, splitTests: map<string, seq<Item>>, file: TestFile) returns (mine: seq<Item>)
    requires SplitsUpTo(splitTests, suite.recordedTests, |suite.recordedTests|)
    ensures mine == ItemsOf(suite, file)
  {
    var name := file.path;
    assert Entry(splitTests, name) == RecordedOf(suite.recordedTests, |suite.recordedTests|, name);
    if name in splitTests {
      mine := splitTests[name];
      mine := mine + [Item(REST + name, 0.0)];
    } else {
      var seconds: real;
      if name in suite.recordedFiles {
        seconds := suite.recordedFiles[name];
      } else {
        seconds := file.bytes as real * SECONDS_PER_BYTE_FALLBACK;
      }
      mine := [Item(name, seconds)];
    }
  }

  // ---------- The greedy assignment ----------

  /** `sorted(..., key=(seconds, name), reverse=True)` */
  function HeavierFirst(x: Item, y: Item): bool {
    x.seconds > y.seconds || (x.seconds == y.seconds && StringLe(y.name, x.name))
  }

  function Weights(items: seq<Item>): (w: seq<real>)
    ensures |w| == |items|
    ensures forall i :: 0 <= i < |w| ==> w[i] == items[i].seconds
  {
    seq(|items|, i requires 0 <= i < |items| => items[i].seconds)
  }

  function Names(items: seq<Item>): (names: seq<string>)
    ensures |names| == |items|
    ensures forall i :: 0 <= i < |names| ==> names[i] == items[i].name
  {
    seq(|items|, i requires 0 <= i < |items| => items[i].name)
  }

  /** The names a placement puts on shard s, in processing order. */
  function Placed(items: seq<Item>, a: seq<nat>, n: nat, s: nat): seq<string>
    requires n <= |items| && n <= |a|
  {
    if n == 0 then []
    else Placed(items, a, n - 1, s) + (if a[n - 1] == s then [items[n - 1].name] else [])
  }

  /** The shards hold the items, longest first, each on the first of the least loaded shards. */
  ghost predicate GreedyShards(items: seq<Item>, a: seq<nat>, shards: seq<seq<string>>, count: nat) {
    var order := Sort(items, HeavierFirst);
    && |a| == |order| == |items| && |shards| == count
    && Greedy(Weights(order), a, count)
    && forall s :: 0 <= s < count ==> shards[s] == Placed(order, a, |order|, s)
  }

  method IndexOfMin(loads: seq<real>) returns (at: nat)
    requires |loads| >= 1
    ensures at < |loads|
    ensures forall t :: 0 <= t < |loads| ==> loads[at] <= loads[t]
    ensures forall t :: 0 <= t < at ==> loads[at] < loads[t]
  {
    at := 0;
    for i := 1 to |loads|
      invariant at < i
      invariant forall t :: 0 <= t < i ==> loads[at] <= loads[t]
      invariant forall t :: 0 <= t < at ==> loads[at] < loads[t]
    {
      if loads[i] < loads[at] { at := i; }
    }
  }

  method Assign(items: seq<Item>, count: nat) returns (shards: seq<seq<string>>, ghost placement: seq<nat>)
    requires count >= 1
    ensures |shards| == count
    ensures GreedyShards(items, placement, shards, count)
  {
    var order := Sort(items, HeavierFirst);
    SameLength(items);
    shards := seq(count, _ => []);
    var loads := seq(count, _ => 0.0);
    placement := [];
    for n := 0 to |order|
      invariant PlacedSoFar(order, placement, shards, loads, n)
      invariant |shards| == count
    {
      var lightest := IndexOfMin(loads);
      PlaceNext(order, placement, shards, loads, n, lightest);
      shards := shards[lightest := shards[lightest] + [order[n].name]];
      loads := loads[lightest := loads[lightest] + order[n].seconds];
      placement := placement + [lightest];
    }
  }

  /** The loop variables after n items. */
  ghost predicate PlacedSoFar(order: seq<Item>, a: seq<nat>, shards: seq<seq<string>>, loads: seq<real>, n: nat) {
    && n == |a| <= |order| && |loads| == |shards| >= 1
    && (forall s :: 0 <= s < |loads| ==> loads[s] == Load(Weights(order), a, n, s))
    && (forall s :: 0 <= s < |shards| ==> shards[s] == Placed(order, a, n, s))
    && (forall i :: 0 <= i < n ==> FirstLightest(Weights(order), a, i, |shards|, a[i]))
  }

  lemma {:induction false} PlaceNext(order: seq<Item>, a: seq<nat>, shards: seq<seq<string>>, loads: seq<real>, n: nat,
                                     lightest: nat)
    requires PlacedSoFar(order, a, shards, loads, n) && n < |order| && lightest < |loads|
    requires forall t :: 0 <= t < |loads| ==> loads[lightest] <= loads[t]
    requires forall t :: 0 <= t < lightest ==> loads[lightest] < loads[t]
    ensures PlacedSoFar(order, a + [lightest], shards[lightest := shards[lightest] + [order[n].name]],
                        loads[lightest := loads[lightest] + order[n].seconds], n + 1)
  {
    var b, w := a + [lightest], Weights(order);
    forall i: nat, s: nat | i <= n
      ensures Load(w, b, i, s) == Load(w, a, i, s) && Placed(order, b, i, s) == Placed(order, a, i, s)
    {
      SamePrefix(order, a, b, i, s);
    }
    forall i | 0 <= i < n + 1 ensures FirstLightest(w, b, i, |shards|, b[i]) {
      if i < n { assert FirstLightest(w, a, i, |shards|, a[i]); }
    }
  }

  lemma {:induction false} SameLength(items: seq<Item>)
    ensures |Sort(items, HeavierFirst)| == |items|
  {
    assert |multiset(Sort(items, HeavierFirst))| == |multiset(items)|;
  }

  lemma {:induction false} SamePrefix(items: seq<Item>, a: seq<nat>, b: seq<nat>, n: nat, s: nat)
    requires n <= |items| && n <= |a| && n <= |b| && a[..n] == b[..n]
    ensures Load(Weights(items), a, n, s) == Load(Weights(items), b, n, s)
    ensures Placed(items, a, n, s) == Placed(items, b, n, s)
  {
    if n == 0 {
    } else {
      assert a[n - 1] == a[..n][n - 1] == b[..n][n - 1] == b[n - 1];
      assert a[..n - 1] == a[..n][..n - 1] == b[..n][..n - 1] == b[..n - 1];
      SamePrefix(items, a, b, n - 1, s);
    }
  }

  lemma {:induction false} HeaviestFirstOrder()
    ensures TotalOrder(HeavierFirst)
  {
    forall x: Item, y: Item ensures HeavierFirst(x, y) || HeavierFirst(y, x) {
      StringLeTotal(x.name, y.name);
    }
    forall x: Item, y: Item, z: Item | HeavierFirst(x, y) && HeavierFirst(y, z) ensures HeavierFirst(x, z) {
      if x.seconds == y.seconds == z.seconds { StringLeTransitive(z.name, y.name, x.name); }
    }
  }

  /** The processing order is by descending seconds. */
  lemma {:induction false} SortedWeights(items: seq<Item>)
    requires forall i :: 0 <= i < |items| ==> items[i].seconds >= 0.0
    ensures var w := Weights(Sort(items, HeavierFirst)); |w| == |items| && NonNegative(w) && Descending(w)
  {
    var order := Sort(items, HeavierFirst);
    SameLength(items);
    HeaviestFirstOrder();
    SortSorted(items, HeavierFirst);
    forall i | 0 <= i < |order| ensures order[i].seconds >= 0.0 {
      assert order[i] in multiset(order);
      assert order[i] in items;
    }
    assert forall i, j :: 0 <= i < j < |order| ==> HeavierFirst(order[i], order[j]);
  }

  /** `assign` is longest-first list scheduling: with non-negative seconds its heaviest shard is
      within 4/3 - 1/(3m) of the heaviest shard of every split b of the same items. */
  lemma {:induction false} AssignIsNearOptimal(items: seq<Item>, placement: seq<nat>, shards: seq<seq<string>>,
                                               b: seq<nat>, count: nat)
    requires count >= 1 && forall i :: 0 <= i < |items| ==> items[i].seconds >= 0.0
    requires GreedyShards(items, placement, shards, count)
    requires |b| == |items| && Split(b, |items|, count)
    ensures var w := Weights(Sort(items, HeavierFirst));
            WithinFourThirds(count, Heaviest(w, placement, count), Heaviest(w, b, count))
  {
    SortedWeights(items);
    LongestFirstBound(Weights(Sort(items, HeavierFirst)), placement, b, count);
  }
}
