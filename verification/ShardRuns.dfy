/** scripts/ci_test_shard.py: `pytest_args`, what pytest runs for those arguments, and the promise
    that every test runs in exactly one shard. */
module ShardRuns {
  import opened Ordering
  import opened ShardBalance
  import opened ShardSelection

  // ---------- The arguments of one shard ----------

  /** A path argument: the file of a REST item, or an item of a file whose REST is elsewhere. */
  predicate IsPath(p: string, items: seq<string>) {
    REST + p in items || (p in items && !(REST <= p) && REST + FileOf(p) !in items)
  }

  /** A deselected node: recorded, of a file whose REST item is here, and not itself an item here. */
  ghost predicate IsDeselected(d: string, items: seq<string>, recorded: seq<string>) {
    d in recorded && d !in items && exists f :: REST + f in items && f + SEP <= d
  }

  ghost predicate ArgsFor(args: seq<Arg>, items: seq<string>, recorded: seq<string>) {
    && (forall p :: Path(p) in args <==> IsPath(p, items))
    && (forall d :: Deselect(d) in args <==> IsDeselected(d, items, recorded))
  }

  /** The nodes `pytest_args` deselects for one REST item. */
  function Deselections(name: string, nodes: seq<string>, items: seq<string>): (args: seq<Arg>)
    ensures forall p :: Path(p) !in args
    ensures forall d :: Deselect(d) in args <==> d in nodes && name + SEP <= d && d !in items
  {
    if nodes == [] then []
    else (if name + SEP <= nodes[0] && nodes[0] !in items then [Deselect(nodes[0])] else [])
         + Deselections(name, nodes[1..], items)
  }

  ghost predicate PathUpTo(p: string, order: seq<string>, k: nat, items: seq<string>)
    requires k <= |order|
  {
    || REST + p in order[..k]
    || (p in order[..k] && !(REST <= p) && REST + FileOf(p) !in items)
  }

  ghost predicate DeselectedUpTo(d: string, order: seq<string>, k: nat, items: seq<string>, recorded: seq<string>)
    requires k <= |order|
  {
    d in recorded && d !in items && exists f :: REST + f in order[..k] && f + SEP <= d
  }

  lemma {:induction false} SortKeepsMembers(xs: seq<string>)
    ensures forall x :: x in Sort(xs, StringLe) <==> x in xs
  {
    forall x: string ensures x in Sort(xs, StringLe) <==> x in xs {
      assert x in Sort(xs, StringLe) <==> x in multiset(Sort(xs, StringLe));
      assert x in xs <==> x in multiset(xs);
    }
  }

  ghost predicate ArgsUpTo(args: seq<Arg>, order: seq<string>, k: nat, items: seq<string>, recorded: seq<string>)
    requires k <= |order|
  {
    && (forall p :: Path(p) in args <==> PathUpTo(p, order, k, items))
    && (forall d :: Deselect(d) in args <==> DeselectedUpTo(d, order, k, items, recorded))
  }

  method PytestArgs(items: seq<string>, recorded: seq<string>) returns (args: seq<Arg>)
    ensures ArgsFor(args, items, recorded)
  {
    var order := Sort(items, StringLe);
    var nodes := Sort(recorded, StringLe);
    SortKeepsMembers(items);
    SortKeepsMembers(recorded);
    args := [];
    for k := 0 to |order|
      invariant ArgsUpTo(args, order, k, items, recorded)
    {
      var turn := ItemArgs(order[k], nodes, items, recorded);
      ArgsStep(args, turn, order, k, items, recorded);
      args := args + turn;
    }
    AllArgsDone(args, order, items, recorded);
  }

  lemma {:induction false} AllArgsDone(args: seq<Arg>, order: seq<string>, items: seq<string>, recorded: seq<string>)
    requires ArgsUpTo(args, order, |order|, items, recorded) && forall x :: x in order <==> x in items
    ensures ArgsFor(args, items, recorded)
  {
    assert order[..|order|] == order;
    forall d ensures IsDeselected(d, items, recorded) <==> DeselectedUpTo(d, order, |order|, items, recorded) {}
  }

  /** What one turn of the loop adds. */
  ghost predicate TurnOf(turn: seq<Arg>, item: string, items: seq<string>, recorded: seq<string>) {
    && (forall p :: Path(p) in turn <==> REST + p == item || (p == item && !(REST <= p) && REST + FileOf(p) !in items))
    && (forall d :: Deselect(d) in turn
               <==> d in recorded && d !in items && REST <= item && item[|REST|..] + SEP <= d)
  }

  lemma {:induction false} ArgsStep(args: seq<Arg>, turn: seq<Arg>, order: seq<string>, k: nat, items: seq<string>,
                                    recorded: seq<string>)
    requires k < |order| && ArgsUpTo(args, order, k, items, recorded) && TurnOf(turn, order[k], items, recorded)
    ensures ArgsUpTo(args + turn, order, k + 1, items, recorded)
  {
    assert order[..k + 1] == order[..k] + [order[k]];
    forall d ensures DeselectedUpTo(d, order, k + 1, items, recorded)
                 <==> DeselectedUpTo(d, order, k, items, recorded) || Deselect(d) in turn
    {
      DeselectedStep(d, order, k, items, recorded, turn);
    }
    forall p ensures PathUpTo(p, order, k + 1, items) <==> PathUpTo(p, order, k, items) || Path(p) in turn {}
  }

  lemma {:induction false} DeselectedStep(d: string, order: seq<string>, k: nat, items: seq<string>,
                                          recorded: seq<string>,
                                          turn: seq<Arg>)
    requires k < |order| && order[..k + 1] == order[..k] + [order[k]] && TurnOf(turn, order[k], items, recorded)
    ensures DeselectedUpTo(d, order, k + 1, items, recorded)
       <==> DeselectedUpTo(d, order, k, items, recorded) || Deselect(d) in turn
  {
    if Deselect(d) in turn {
      assert order[k] == REST + order[k][|REST|..];
    }
    if DeselectedUpTo(d, order, k + 1, items, recorded) {
      var f :| REST + f in order[..k + 1] && f + SEP <= d;
      if REST + f == order[k] { assert order[k][|REST|..] == f; }
    }
  }

  /** One turn of the loop over the items. */
  method ItemArgs(item: string, nodes: seq<string>, items: seq<string>, ghost recorded: seq<string>)
    returns (turn: seq<Arg>)
    requires forall d :: d in nodes <==> d in recorded
    ensures TurnOf(turn, item, items, recorded)
  {
    if REST <= item {
      var name := item[|REST|..];
      assert item == REST + name;
      turn := [Path(name)];
      turn := turn + Deselections(name, nodes, items);
      forall p ensures REST + p == item <==> p == name { assert (REST + p)[|REST|..] == p; }
    } else if REST + FileOf(item) !in items {
      turn := [Path(item)];
    } else {
      turn := [];
    }
  }

  // ---------- What pytest runs ----------

  /** A file argument collects the tests of the file; a node id collects that node, what lies
      below it and its parametrized variants. */
  predicate Collects(arg: string, t: string) {
    t == arg || arg + SEP <= t || (FileOf(arg) != arg && arg + "[" <= t)
  }

  /** `--deselect` drops every collected id that starts with the given text. Without any argument
      pytest collects the whole suite. */
  ghost predicate Runs(args: seq<Arg>, t: string) {
    args == [] || ((exists p :: Path(p) in args && Collects(p, t)) && forall d :: Deselect(d) in args ==> !(d <= t))
  }

  // ---------- Suites ----------

  /** A path found under tests/ that a node id can carry in front of its first "::". */
  predicate ValidPath(f: string) {
    "tests/" <= f && FileOf(f) == f && f[|f| - 1] != ':'
  }

  ghost predicate Listed(suite: Suite, f: string) {
    f !in EXCLUDED && exists i :: 0 <= i < |suite.found| && suite.found[i].path == f
  }

  ghost predicate Recorded(suite: Suite, r: string) {
    exists i :: 0 <= i < |suite.recordedTests| && suite.recordedTests[i].name == r
  }

  /** A file whose recorded tests are spread one by one. */
  ghost predicate IsSplit(suite: Suite, f: string) {
    exists i :: 0 <= i < |suite.recordedTests| && FileOf(suite.recordedTests[i].name) == f
  }

  function PathOf(file: TestFile): string { file.path }

  function NameOf(item: Item): string { item.name }

  /** Distinct paths and keys; every test sits in a file found under tests/; test ids are leaves
      of pytest's collection tree. */
  ghost predicate WellFormed(suite: Suite) {
    && DistinctBy(suite.found, PathOf)
    && DistinctBy(suite.recordedTests, NameOf)
    && (forall i :: 0 <= i < |suite.found| ==> ValidPath(suite.found[i].path))
    && (forall t :: t in suite.tests ==> FileOf(t) + SEP <= t)
    && (forall t, u :: t in suite.tests && u in suite.tests && Collects(t, u) ==> t == u)
  }

  /** Every recorded id of a listed file is still the id of a test. */
  ghost predicate RecordedExist(suite: Suite) {
    forall r :: Recorded(suite, r) && Listed(suite, FileOf(r)) ==> r in suite.tests
  }

  ghost predicate IsItem(suite: Suite, x: string) {
    || (Recorded(suite, x) && Listed(suite, FileOf(x)))
    || (REST <= x && Listed(suite, x[|REST|..]) && IsSplit(suite, x[|REST|..]))
    || (Listed(suite, x) && !IsSplit(suite, x))
  }

  /** The shards hold every item, each on exactly one shard, and nothing else. */
  ghost predicate Partition(suite: Suite, shards: seq<seq<string>>) {
    && (forall s, x :: 0 <= s < |shards| && x in shards[s] ==> IsItem(suite, x))
    && (forall x :: IsItem(suite, x) ==> exists s :: 0 <= s < |shards| && x in shards[s])
    && (forall s, s', x :: 0 <= s < s' < |shards| && x in shards[s] ==> x !in shards[s'])
  }

  lemma {:induction false} FileOfPrefix(f: string, t: string)
    requires f != "" && FileOf(f) == f && f[|f| - 1] != ':' && f + SEP <= t
    ensures FileOf(t) == f
  {
    assert t[..|f| + 2] == f + SEP;
    assert t[0] == f[0] && t[|f|] == ':' && t[|f| + 1] == ':';
    if |f| == 1 {
      assert t[1..][0] == ':' && t[1..][1] == ':';
      assert FileOf(t[1..]) == "";
      assert FileOf(t) == [t[0]] + FileOf(t[1..]);
    } else {
      assert t[1] == f[1];
      assert f == [f[0]] + f[1..];
      assert FileOf(f[1..]) == f[1..];
      assert t[1..] == f[1..] + SEP + t[|f| + 2..];
      FileOfPrefix(f[1..], t[1..]);
    }
  }

  lemma {:induction false} ListedIsValid(suite: Suite, f: string)
    requires WellFormed(suite) && Listed(suite, f)
    ensures ValidPath(f) && !(REST <= f)
  {
    var i :| 0 <= i < |suite.found| && suite.found[i].path == f;
    assert f[0] == 't';
  }

  lemma {:induction false} RestIsNoPath(suite: Suite, x: string)
    requires WellFormed(suite) && REST <= x
    ensures !Listed(suite, x) && !Listed(suite, FileOf(x))
  {
    assert x[0] == 'R';
    assert FileOf(x)[0] == 'R';
    if Listed(suite, x) { ListedIsValid(suite, x); }
    if Listed(suite, FileOf(x)) { ListedIsValid(suite, FileOf(x)); }
  }

  /** What a REST item on a shard says about its file. */
  lemma {:induction false} RestItem(suite: Suite, shards: seq<seq<string>>, s: nat, f: string)
    requires WellFormed(suite) && Partition(suite, shards) && s < |shards| && REST + f in shards[s]
    ensures Listed(suite, f) && IsSplit(suite, f) && ValidPath(f)
  {
    var x := REST + f;
    RestIsNoPath(suite, x);
    assert x[|REST|..] == f;
    assert IsItem(suite, x);
    ListedIsValid(suite, f);
  }

  lemma {:induction false} FileCollects(f: string, t: string)
    requires ValidPath(f) && FileOf(t) + SEP <= t
    ensures Collects(f, t) <==> FileOf(t) == f
  {
    if f + SEP <= t { FileOfPrefix(f, t); }
    if t == f { assert |FileOf(t) + SEP| <= |t|; }
  }

  /** The shards hold a suite's items and each shard has its arguments. */
  ghost predicate Sharded(suite: Suite, shards: seq<seq<string>>, args: seq<seq<Arg>>) {
    && WellFormed(suite) && RecordedExist(suite) && Partition(suite, shards)
    && |args| == |shards|
    && (forall s :: 0 <= s < |shards| ==> ArgsFor(args[s], shards[s], Names(suite.recordedTests)))
  }

  ghost predicate ListedTest(suite: Suite, t: string) {
    t in suite.tests && Listed(suite, FileOf(t))
  }

  /** Which path arguments of shard s collect t. */
  lemma {:induction false} CollectingPath(suite: Suite, shards: seq<seq<string>>, s: nat, p: string, t: string)
    requires WellFormed(suite) && RecordedExist(suite) && Partition(suite, shards) && s < |shards|
    requires ListedTest(suite, t) && IsPath(p, shards[s]) && Collects(p, t)
    ensures || (p == FileOf(t) && REST + p in shards[s])
            || (p == FileOf(t) && p in shards[s] && !IsSplit(suite, p))
            || (p == t && t in shards[s] && REST + FileOf(t) !in shards[s])
  {
    if REST + p in shards[s] {
      RestItem(suite, shards, s, p);
      FileCollects(p, t);
    } else if Recorded(suite, p) && Listed(suite, FileOf(p)) {
      assert p in suite.tests;
    } else {
      assert IsItem(suite, p);
      ListedIsValid(suite, p);
      FileCollects(p, t);
    }
  }

  /** Which deselections of shard s drop t. */
  lemma {:induction false} DroppingNode(suite: Suite, shards: seq<seq<string>>, s: nat, d: string, t: string)
    requires WellFormed(suite) && RecordedExist(suite) && Partition(suite, shards) && s < |shards|
    requires ListedTest(suite, t) && d <= t
    ensures IsDeselected(d, shards[s], Names(suite.recordedTests))
       <==> Recorded(suite, d) && d !in shards[s] && FileOf(d) == FileOf(t) && REST + FileOf(t) in shards[s]
  {
    var names := Names(suite.recordedTests);
    assert d in names <==> Recorded(suite, d);
    if d in names && d !in shards[s] {
      forall f | REST + f in shards[s] && f + SEP <= d ensures FileOf(d) == FileOf(t) == f {
        RestItem(suite, shards, s, f);
        FileOfPrefix(f, d);
        FileOfPrefix(f, t);
      }
      if FileOf(d) == FileOf(t) { assert d in suite.tests; }
    }
  }

  /** Whether shard s runs t, read off the shards alone. */
  ghost predicate RunsOn(suite: Suite, items: seq<string>, t: string) {
    var f := FileOf(t);
    if !IsSplit(suite, f) then f in items
    else if REST + f in items then
      !exists r :: Recorded(suite, r) && FileOf(r) == f && r !in items && r <= t
    else t in items
  }

  /** Whether shard s collects t: through its file's REST item, or through a plain item. */
  ghost predicate CollectsOn(suite: Suite, items: seq<string>, t: string) {
    || REST + FileOf(t) in items
    || (if IsSplit(suite, FileOf(t)) then t in items else FileOf(t) in items)
  }

  lemma {:induction false} CollectsReadOff(suite: Suite, shards: seq<seq<string>>, s: nat, t: string)
    requires WellFormed(suite) && RecordedExist(suite) && Partition(suite, shards) && s < |shards|
    requires ListedTest(suite, t)
    ensures (exists p :: IsPath(p, shards[s]) && Collects(p, t)) <==> CollectsOn(suite, shards[s], t)
  {
    var f, items := FileOf(t), shards[s];
    ListedIsValid(suite, f);
    FileCollects(f, t);
    assert t[0] == 't' && f[0] == 't';
    if CollectsOn(suite, items, t) {
      var p := if REST + f in items || !IsSplit(suite, f) then f else t;
      assert IsPath(p, items) && Collects(p, t);
    }
    if p :| IsPath(p, items) && Collects(p, t) {
      CollectingPath(suite, shards, s, p, t);
      if t in items { assert IsItem(suite, t); NotAFile(suite, t); }
    }
  }

  /** A test's id is not a path, so as an item it can only be a recorded test of a split file. */
  lemma {:induction false} NotAFile(suite: Suite, t: string)
    requires WellFormed(suite) && ListedTest(suite, t)
    ensures !Listed(suite, t) && !(REST <= t)
    ensures IsItem(suite, t) <==> Recorded(suite, t)
    ensures Recorded(suite, t) ==> IsSplit(suite, FileOf(t))
  {
    ListedIsValid(suite, FileOf(t));
    assert t[0] == 't';
    if Listed(suite, t) { ListedIsValid(suite, t); }
  }

  lemma {:induction false} RunsReadOff(suite: Suite, shards: seq<seq<string>>, args: seq<seq<Arg>>, s: nat, t: string)
    requires Sharded(suite, shards, args) && s < |shards| && ListedTest(suite, t) && args[s] != []
    ensures Runs(args[s], t) <==> RunsOn(suite, shards[s], t)
  {
    var f, items, names := FileOf(t), shards[s], Names(suite.recordedTests);
    assert ArgsFor(args[s], items, names);
    CollectsReadOff(suite, shards, s, t);
    assert (exists p :: Path(p) in args[s] && Collects(p, t)) <==> (exists p :: IsPath(p, items) && Collects(p, t));
    forall d | d <= t
      ensures Deselect(d) in args[s]
         <==> Recorded(suite, d) && d !in items && FileOf(d) == f && REST + f in items
    {
      DroppingNode(suite, shards, s, d, t);
    }
    if REST + f in items { RestItem(suite, shards, s, f); }
  }

  // ---------- Every test in exactly one shard ----------

  ghost predicate ExactlyOnce(args: seq<seq<Arg>>, t: string) {
    exists s :: 0 <= s < |args| && Runs(args[s], t) && forall s' :: 0 <= s' < |args| && s' != s ==> !Runs(args[s'], t)
  }

  /** A recorded id on another shard than its file's REST item is a proper prefix of t, and t is
      left to that REST item. */
  ghost predicate Swallowed(suite: Suite, shards: seq<seq<string>>, t: string) {
    exists s, r :: 0 <= s < |shards| && REST + FileOf(t) in shards[s] && (Recorded(suite, t) ==> t in shards[s])
                && Recorded(suite, r) && FileOf(r) == FileOf(t) && r !in shards[s] && r <= t && r != t
  }

  /** The one shard that can run t, and whether it does. */
  ghost predicate OnlyHome(suite: Suite, shards: seq<seq<string>>, t: string, home: nat) {
    && home < |shards|
    && (RunsOn(suite, shards[home], t) <==> !Swallowed(suite, shards, t))
    && (forall s :: 0 <= s < |shards| && s != home ==> !RunsOn(suite, shards[s], t))
  }

  lemma {:induction false} HomeOf(suite: Suite, shards: seq<seq<string>>, t: string) returns (home: nat)
    requires WellFormed(suite) && Partition(suite, shards) && ListedTest(suite, t)
    ensures OnlyHome(suite, shards, t, home)
  {
    var f := FileOf(t);
    if !IsSplit(suite, f) {
      assert IsItem(suite, f);
      home :| 0 <= home < |shards| && f in shards[home];
      forall s | 0 <= s < |shards| && REST + f in shards[s] ensures false { RestItem(suite, shards, s, f); }
    } else {
      home := SplitHome(suite, shards, t);
    }
  }

  lemma {:induction false} SplitHome(suite: Suite, shards: seq<seq<string>>, t: string) returns (home: nat)
    requires WellFormed(suite) && Partition(suite, shards) && ListedTest(suite, t) && IsSplit(suite, FileOf(t))
    ensures OnlyHome(suite, shards, t, home)
  {
    var x := REST + FileOf(t);
    assert x[|REST|..] == FileOf(t);
    assert IsItem(suite, x);
    var rest :| 0 <= rest < |shards| && x in shards[rest];
    NotAFile(suite, t);
    SwallowedAtRest(suite, shards, rest, t);
    home := rest;
    if Recorded(suite, t) {
      assert IsItem(suite, t);
      home :| 0 <= home < |shards| && t in shards[home];
    }
    forall s | 0 <= s < |shards| && s != home ensures !RunsOn(suite, shards[s], t) {
      NotElsewhere(suite, shards, rest, home, s, t);
    }
  }

  lemma {:induction false} SameShard(suite: Suite, shards: seq<seq<string>>, s: nat, s': nat, x: string)
    requires Partition(suite, shards) && s < |shards| && s' < |shards| && x in shards[s] && x in shards[s']
    ensures s == s'
  {
    assert !(s < s') && !(s' < s);
  }

  lemma {:induction false} SwallowedAtRest(suite: Suite, shards: seq<seq<string>>, rest: nat, t: string)
    requires WellFormed(suite) && Partition(suite, shards) && ListedTest(suite, t)
    requires rest < |shards| && REST + FileOf(t) in shards[rest]
    ensures Swallowed(suite, shards, t)
       <==> (Recorded(suite, t) ==> t in shards[rest]) && !RunsOn(suite, shards[rest], t)
  {
    RestItem(suite, shards, rest, FileOf(t));
    var f := FileOf(t);
    forall s | 0 <= s < |shards| && REST + f in shards[s] ensures s == rest {
      SameShard(suite, shards, s, rest, REST + f);
    }
  }

  lemma {:induction false} NotElsewhere(suite: Suite, shards: seq<seq<string>>, rest: nat, home: nat, s: nat, t: string)
    requires WellFormed(suite) && Partition(suite, shards) && ListedTest(suite, t) && IsSplit(suite, FileOf(t))
    requires rest < |shards| && REST + FileOf(t) in shards[rest] && home < |shards|
    requires if Recorded(suite, t) then t in shards[home] else home == rest
    requires s < |shards| && s != home
    ensures !RunsOn(suite, shards[s], t)
  {
    NotAFile(suite, t);
    if Recorded(suite, t) && t in shards[s] { SameShard(suite, shards, s, home, t); }
    if s == rest {
      assert Recorded(suite, t) && t <= t;
    } else if s < rest {
      assert REST + FileOf(t) !in shards[s];
    }
  }

  /** For any arrangement of the items over shards with arguments: a test of a listed file runs in
      exactly one shard, unless a recorded id swallows it, and then it runs in none. */
  lemma {:induction false} OnceUnlessSwallowed(suite: Suite, shards: seq<seq<string>>, args: seq<seq<Arg>>, t: string)
    requires Sharded(suite, shards, args) && ListedTest(suite, t)
    requires forall s :: 0 <= s < |args| ==> args[s] != []
    ensures ExactlyOnce(args, t) <==> !Swallowed(suite, shards, t)
    ensures Swallowed(suite, shards, t) ==> forall s :: 0 <= s < |args| ==> !Runs(args[s], t)
  {
    forall s | 0 <= s < |args| ensures Runs(args[s], t) <==> RunsOn(suite, shards[s], t) {
      RunsReadOff(suite, shards, args, s, t);
    }
    var home := HomeOf(suite, shards, t);
  }

  /** No recorded id of a listed file is a proper prefix of another test's id. */
  ghost predicate PrefixFree(suite: Suite) {
    forall r, t :: Recorded(suite, r) && ListedTest(suite, t) && FileOf(r) == FileOf(t) && r <= t ==> r == t
  }

  /** The promise of the script, for every arrangement of the items that leaves no shard empty. */
  lemma {:induction false} EveryTestExactlyOnce(suite: Suite, shards: seq<seq<string>>, args: seq<seq<Arg>>, t: string)
    requires Sharded(suite, shards, args) && ListedTest(suite, t) && PrefixFree(suite)
    requires forall s :: 0 <= s < |args| ==> args[s] != []
    ensures ExactlyOnce(args, t)
  {
    OnceUnlessSwallowed(suite, shards, args, t);
  }

  // ---------- The items of a suite, and the shards `assign` makes of them ----------

  ghost predicate HasName(items: seq<Item>, x: string) {
    exists i :: 0 <= i < |items| && items[i].name == x
  }

  ghost predicate AmongFirst(recorded: seq<Item>, n: nat, x: string)
    requires n <= |recorded|
  {
    exists i :: 0 <= i < n && recorded[i].name == x
  }

  lemma {:induction false} RecordedOfNames(recorded: seq<Item>, n: nat, f: string)
    requires n <= |recorded|
    ensures forall x :: HasName(RecordedOf(recorded, n, f), x) <==> FileOf(x) == f && AmongFirst(recorded, n, x)
    ensures DistinctBy(recorded, NameOf) ==> DistinctBy(RecordedOf(recorded, n, f), NameOf)
  {
    if n == 0 {
    } else {
      RecordedOfNames(recorded, n - 1, f);
      var before, last := RecordedOf(recorded, n - 1, f), recorded[n - 1];
      forall x ensures AmongFirst(recorded, n, x) <==> AmongFirst(recorded, n - 1, x) || x == last.name {
        if x == last.name { assert recorded[n - 1].name == x; }
      }
      if FileOf(last.name) != f {
        assert RecordedOf(recorded, n, f) == before;
      } else {
        AppendNames(before, [last]);
        forall x ensures HasName([last], x) <==> x == last.name { assert [last][0].name == last.name; }
        if DistinctBy(recorded, NameOf) {
          assert forall i :: 0 <= i < n - 1 ==> NameOf(recorded[i]) != NameOf(recorded[n - 1]);
        }
      }
    }
  }

  lemma {:induction false} AppendNames(a: seq<Item>, b: seq<Item>)
    ensures forall x :: HasName(a + b, x) <==> HasName(a, x) || HasName(b, x)
    ensures DistinctBy(a, NameOf) && DistinctBy(b, NameOf) && (forall x :: HasName(a, x) ==> !HasName(b, x))
        ==> DistinctBy(a + b, NameOf)
  {
    var c := a + b;
    forall x: string ensures HasName(c, x) <==> HasName(a, x) || HasName(b, x) {
      if i :| 0 <= i < |a| && a[i].name == x { assert c[i].name == x; }
      if i :| 0 <= i < |b| && b[i].name == x { assert c[|a| + i].name == x; }
    }
    if DistinctBy(a, NameOf) && DistinctBy(b, NameOf) && (forall x :: HasName(a, x) ==> !HasName(b, x)) {
      forall i, j | 0 <= i < j < |c| ensures NameOf(c[i]) != NameOf(c[j]) {
        if i < |a| <= j {
          assert HasName(a, a[i].name);
          assert b[j - |a|] == c[j];
        } else if j < |a| {
          assert NameOf(a[i]) != NameOf(a[j]);
        } else {
          assert NameOf(b[i - |a|]) != NameOf(b[j - |a|]);
        }
      }
    }
  }

  /** The file an item belongs to. */
  ghost function Owner(x: string): string {
    if REST <= x then x[|REST|..] else FileOf(x)
  }

  lemma {:induction false} IsItemOfFile(suite: Suite, x: string, f: string)
    requires WellFormed(suite) && Listed(suite, f)
    ensures IsItem(suite, x) && Owner(x) == f
       <==> if IsSplit(suite, f) then x == REST + f || (FileOf(x) == f && Recorded(suite, x)) else x == f
  {
    ListedIsValid(suite, f);
    assert (REST + f)[|REST|..] == f;
    if REST <= x {
      RestIsNoPath(suite, x);
      assert x == REST + x[|REST|..];
    } else if Listed(suite, x) {
      ListedIsValid(suite, x);
    }
  }

  /** The items of a split file, by name. */
  lemma {:induction false} SplitItemNames(suite: Suite, f: string, own: seq<Item>)
    requires WellFormed(suite) && ValidPath(f)
    requires own == RecordedOf(suite.recordedTests, |suite.recordedTests|, f)
    ensures var items := own + [Item(REST + f, 0.0)];
            && (forall x :: HasName(items, x) <==> x == REST + f || (FileOf(x) == f && Recorded(suite, x)))
            && DistinctBy(items, NameOf)
  {
    var recorded, rest := suite.recordedTests, [Item(REST + f, 0.0)];
    RecordedOfNames(recorded, |recorded|, f);
    RestOwner(f);
    forall x ensures HasName(rest, x) <==> x == REST + f { assert rest[0].name == REST + f; }
    AppendNames(own, rest);
  }

  lemma {:induction false} RestOwner(f: string)
    requires ValidPath(f)
    ensures FileOf(REST + f) != f
  {
    assert (REST + f)[0] == 'R' && (REST + f)[1] == 'E';
    assert FileOf(REST + f) == ['R'] + FileOf((REST + f)[1..]);
  }

  lemma {:induction false} FileItemNames(suite: Suite, file: TestFile)
    requires WellFormed(suite) && Listed(suite, file.path)
    ensures forall x :: HasName(ItemsOf(suite, file), x) <==> IsItem(suite, x) && Owner(x) == file.path
    ensures DistinctBy(ItemsOf(suite, file), NameOf)
  {
    var f, items := file.path, ItemsOf(suite, file);
    forall x ensures IsItem(suite, x) && Owner(x) == f
                <==> if IsSplit(suite, f) then x == REST + f || (FileOf(x) == f && Recorded(suite, x)) else x == f
    {
      IsItemOfFile(suite, x, f);
    }
    SplitHasItems(suite, f);
    if IsSplit(suite, f) {
      ListedIsValid(suite, f);
      SplitItemNames(suite, f, RecordedOf(suite.recordedTests, |suite.recordedTests|, f));
    } else {
      assert items[0].name == f;
    }
  }

  lemma {:induction false} SplitHasItems(suite: Suite, f: string)
    ensures IsSplit(suite, f) <==> RecordedOf(suite.recordedTests, |suite.recordedTests|, f) != []
  {
    var recorded := suite.recordedTests;
    var own := RecordedOf(recorded, |recorded|, f);
    RecordedOfNames(recorded, |recorded|, f);
    if IsSplit(suite, f) {
      var i :| 0 <= i < |recorded| && FileOf(recorded[i].name) == f;
      assert AmongFirst(recorded, |recorded|, recorded[i].name);
      assert HasName(own, recorded[i].name);
    } else if own != [] {
      assert HasName(own, own[0].name);
    }
  }

  ghost predicate OwnedByFirst(files: seq<TestFile>, n: nat, x: string)
    requires n <= |files|
  {
    exists k :: 0 <= k < n && Owner(x) == files[k].path
  }

  lemma {:induction false} OwnedStep(files: seq<TestFile>, n: nat)
    requires 1 <= n <= |files| && DistinctBy(files, PathOf)
    ensures forall x :: OwnedByFirst(files, n, x) <==> OwnedByFirst(files, n - 1, x) || Owner(x) == files[n - 1].path
    ensures forall x :: OwnedByFirst(files, n - 1, x) ==> Owner(x) != files[n - 1].path
  {
    assert forall k :: 0 <= k < n - 1 ==> PathOf(files[k]) != PathOf(files[n - 1]);
  }

  /** The items so far and those of one more file. */
  lemma {:induction false} OneMoreFile(suite: Suite, files: seq<TestFile>, n: nat, items: seq<Item>, own: seq<Item>)
    requires 1 <= n <= |files| && DistinctBy(files, PathOf) && DistinctBy(items, NameOf) && DistinctBy(own, NameOf)
    requires forall x :: HasName(items, x) <==> IsItem(suite, x) && OwnedByFirst(files, n - 1, x)
    requires forall x :: HasName(own, x) <==> IsItem(suite, x) && Owner(x) == files[n - 1].path
    ensures forall x :: HasName(items + own, x) <==> IsItem(suite, x) && OwnedByFirst(files, n, x)
    ensures DistinctBy(items + own, NameOf)
  {
    OwnedStep(files, n);
    AppendNames(items, own);
  }

  lemma {:induction false} ItemsUpToNames(suite: Suite, files: seq<TestFile>, n: nat)
    requires WellFormed(suite) && n <= |files| && DistinctBy(files, PathOf)
    requires forall k :: 0 <= k < |files| ==> Listed(suite, files[k].path)
    ensures forall x :: HasName(ItemsUpTo(suite, files, n), x) <==> IsItem(suite, x) && OwnedByFirst(files, n, x)
    ensures DistinctBy(ItemsUpTo(suite, files, n), NameOf)
  {
    if n == 0 {
    } else {
      ItemsUpToNames(suite, files, n - 1);
      FileItemNames(suite, files[n - 1]);
      OneMoreFile(suite, files, n, ItemsUpTo(suite, files, n - 1), ItemsOf(suite, files[n - 1]));
    }
  }

  lemma {:induction false} KeptFiles(files: seq<TestFile>)
    ensures forall x :: x in Kept(files) <==> x in files && x.path !in EXCLUDED
    ensures DistinctBy(files, PathOf) ==> DistinctBy(Kept(files), PathOf)
  {
    if files == [] {
    } else {
      KeptFiles(files[1..]);
    }
  }

  lemma {:induction false} FilesKept(found: seq<TestFile>)
    requires DistinctBy(found, PathOf)
    ensures forall x :: x in TestFiles(found) <==> x in found && x.path !in EXCLUDED
    ensures DistinctBy(TestFiles(found), PathOf)
  {
    KeptFiles(Sort(found, FileLe));
    SortKeepsDistinct(found, FileLe, PathOf);
    forall x: TestFile ensures x in Sort(found, FileLe) <==> x in found {
      assert x in Sort(found, FileLe) <==> x in multiset(Sort(found, FileLe));
    }
  }

  lemma {:induction false} TestFilesAreListed(suite: Suite)
    requires WellFormed(suite)
    ensures forall f :: Listed(suite, f)
                   <==> exists k :: 0 <= k < |TestFiles(suite.found)| && TestFiles(suite.found)[k].path == f
    ensures DistinctBy(TestFiles(suite.found), PathOf)
  {
    var files := TestFiles(suite.found);
    FilesKept(suite.found);
    forall f ensures Listed(suite, f) <==> exists k :: 0 <= k < |files| && files[k].path == f {
      ListedAmong(suite, files, f);
    }
  }

  lemma {:induction false} ListedAmong(suite: Suite, files: seq<TestFile>, f: string)
    requires forall x :: x in files <==> x in suite.found && x.path !in EXCLUDED
    ensures Listed(suite, f) <==> exists k :: 0 <= k < |files| && files[k].path == f
  {
    if i :| 0 <= i < |suite.found| && suite.found[i].path == f && f !in EXCLUDED { assert suite.found[i] in files; }
    if k :| 0 <= k < |files| && files[k].path == f { assert files[k] in files; }
  }

  /** The work items are exactly the items of the suite, each once. */
  lemma {:induction false} WorkItemsAreItems(suite: Suite)
    requires WellFormed(suite)
    ensures forall x :: HasName(AllItems(suite), x) <==> IsItem(suite, x)
    ensures DistinctBy(AllItems(suite), NameOf)
  {
    var files := TestFiles(suite.found);
    TestFilesAreListed(suite);
    forall k | 0 <= k < |files| ensures Listed(suite, files[k].path) {}
    ItemsUpToNames(suite, files, |files|);
    forall x | IsItem(suite, x) ensures OwnedByFirst(files, |files|, x) {
      if REST <= x { RestIsNoPath(suite, x); } else if Listed(suite, x) { ListedIsValid(suite, x); }
    }
  }

  lemma {:induction false} PlacedNames(order: seq<Item>, a: seq<nat>, n: nat, s: nat)
    requires n <= |order| && n <= |a|
    ensures forall x :: x in Placed(order, a, n, s) <==> exists i :: 0 <= i < n && a[i] == s && order[i].name == x
  {
    if n == 0 {
    } else {
      PlacedNames(order, a, n - 1, s);
    }
  }

  /** However the greedy loop places them, the shards partition the suite's items. */
  lemma {:induction false} PlacementPartitions(suite: Suite, a: seq<nat>, shards: seq<seq<string>>)
    requires WellFormed(suite) && GreedyShards(AllItems(suite), a, shards, |shards|)
    ensures Partition(suite, shards)
  {
    var items := AllItems(suite);
    var order := Sort(items, HeavierFirst);
    WorkItemsAreItems(suite);
    SortKeepsDistinct(items, HeavierFirst, NameOf);
    forall x ensures HasName(order, x) <==> IsItem(suite, x) { SortedNames(items, x); }
    forall s: nat | s < |shards|
      ensures forall x :: x in shards[s] <==> exists i :: 0 <= i < |a| && a[i] == s && order[i].name == x
    {
      PlacedNames(order, a, |a|, s);
    }
    forall s, s', x | 0 <= s < s' < |shards| && x in shards[s] ensures x !in shards[s'] {
      var i :| 0 <= i < |a| && a[i] == s && order[i].name == x;
      forall j | 0 <= j < |a| && order[j].name == x ensures j == i {
        assert NameOf(order[i]) == NameOf(order[j]);
      }
    }
    forall x | IsItem(suite, x) ensures exists s :: 0 <= s < |shards| && x in shards[s] {
      var i :| 0 <= i < |order| && order[i].name == x;
      assert x in shards[a[i]];
    }
  }

  lemma {:induction false} SortedNames(items: seq<Item>, x: string)
    ensures HasName(Sort(items, HeavierFirst), x) <==> HasName(items, x)
  {
    var order := Sort(items, HeavierFirst);
    if i :| 0 <= i < |order| && order[i].name == x { assert order[i] in multiset(order); assert order[i] in items; }
    if i :| 0 <= i < |items| && items[i].name == x { assert items[i] in multiset(items); assert items[i] in order; }
  }

  // ---------- The whole script ----------

  /** The arguments of every shard. */
  ghost predicate AllArgs(args: seq<seq<Arg>>, shards: seq<seq<string>>, recorded: seq<string>) {
    |args| == |shards| && forall s :: 0 <= s < |shards| ==> ArgsFor(args[s], shards[s], recorded)
  }

  /** Every shard of a run; `main` prints the arguments of one of them. */
  method ShardArgs(suite: Suite, count: nat)
    returns (shards: seq<seq<string>>, args: seq<seq<Arg>>, ghost placement: seq<nat>)
    requires count >= 1
    ensures GreedyShards(AllItems(suite), placement, shards, count)
    ensures AllArgs(args, shards, Names(suite.recordedTests))
  {
    var items := WorkItems(suite);
    shards, placement := Assign(items, count);
    args := EachShardsArgs(shards, Names(suite.recordedTests));
  }

  method EachShardsArgs(shards: seq<seq<string>>, recorded: seq<string>) returns (args: seq<seq<Arg>>)
    ensures AllArgs(args, shards, recorded)
  {
    args := [];
    for s := 0 to |shards|
      invariant |args| == s
      invariant forall k :: 0 <= k < s ==> ArgsFor(args[k], shards[k], recorded)
    {
      var mine := PytestArgs(shards[s], recorded);
      args := args + [mine];
    }
  }

  /** Enough items that the greedy loop reaches every shard: at least count with positive seconds,
      or one fewer and an item of zero seconds. */
  ghost predicate EnoughItems(items: seq<Item>, count: nat) {
    exists p: nat :: PositiveThenZero(Weights(Sort(items, HeavierFirst)), p)
                  && (p >= count || (p == count - 1 && |items| > p))
  }

  /** The promise of the script, for whatever `ShardArgs` returns: when the recorded ids still exist
      and none is a proper prefix of another test, a test of a listed file runs in exactly one shard
      if and only if there are enough items for every shard. (pytest without arguments collects
      everything, so an empty shard would run the test a second time.) */
  lemma {:induction false} ShardsRunEveryTestOnce(suite: Suite, count: nat, shards: seq<seq<string>>,
                                                  args: seq<seq<Arg>>,
                               placement: seq<nat>, t: string)
    requires WellFormed(suite) && RecordedExist(suite) && PrefixFree(suite) && ListedTest(suite, t) && count >= 1
    requires forall i :: 0 <= i < |AllItems(suite)| ==> AllItems(suite)[i].seconds >= 0.0
    requires GreedyShards(AllItems(suite), placement, shards, count)
    requires AllArgs(args, shards, Names(suite.recordedTests))
    ensures ExactlyOnce(args, t) <==> EnoughItems(AllItems(suite), count)
  {
    PlacementPartitions(suite, placement, shards);
    NoEmptyShard(AllItems(suite), placement, shards);
    forall s | 0 <= s < count ensures args[s] == [] <==> shards[s] == [] {
      NonEmptyArgs(suite, shards[s], args[s]);
    }
    var home := HomeOf(suite, shards, t);
    RunsReadOff(suite, shards, args, home, t);
    if !EnoughItems(AllItems(suite), count) {
      var s :| 0 <= s < count && shards[s] == [];
      assert Runs(args[s], t) && s != home && Runs(args[home], t);
    } else {
      EveryTestExactlyOnce(suite, shards, args, t);
    }
  }

  lemma {:induction false} NoEmptyShard(items: seq<Item>, a: seq<nat>, shards: seq<seq<string>>)
    requires GreedyShards(items, a, shards, |shards|) && |shards| >= 1
    requires forall i :: 0 <= i < |items| ==> items[i].seconds >= 0.0
    ensures EnoughItems(items, |shards|) <==> forall s :: 0 <= s < |shards| ==> shards[s] != []
  {
    var order := Sort(items, HeavierFirst);
    SortedWeights(items);
    var p := PositivePrefix(Weights(order), |order|);
    EmptyShards(Weights(order), a, |shards|, p);
    EnoughFor(items, |shards|, p);
    forall s: nat | s < |shards| ensures shards[s] != [] <==> HasItem(a, s) { ShardInUse(order, a, s); }
  }

  /** The number of positive items is unique. */
  lemma {:induction false} EnoughFor(items: seq<Item>, count: nat, p: nat)
    requires PositiveThenZero(Weights(Sort(items, HeavierFirst)), p)
    ensures EnoughItems(items, count) <==> p >= count || (p == count - 1 && |items| > p)
  {
    var w := Weights(Sort(items, HeavierFirst));
    forall q: nat | PositiveThenZero(w, q) ensures q == p {
      assert (q < |w| ==> w[q] == 0.0) && (p < |w| ==> w[p] == 0.0);
    }
  }

  lemma {:induction false} ShardInUse(order: seq<Item>, a: seq<nat>, s: nat)
    requires |a| == |order|
    ensures Placed(order, a, |order|, s) != [] <==> HasItem(a, s)
  {
    var shard := Placed(order, a, |order|, s);
    PlacedNames(order, a, |order|, s);
    assert shard != [] ==> shard[0] in shard;
    if HasItem(a, s) {
      var i :| 0 <= i < |a| && a[i] == s;
      assert order[i].name in shard;
    }
  }

  lemma {:induction false} PositivePrefix(w: seq<real>, n: nat) returns (p: nat)
    requires n <= |w| && NonNegative(w) && Descending(w) && forall i :: n <= i < |w| ==> w[i] == 0.0
    ensures PositiveThenZero(w, p)
  {
    if n == 0 || w[n - 1] > 0.0 { p := n; } else { p := PositivePrefix(w, n - 1); }
  }

  /** A shard has arguments exactly when it has items. */
  lemma {:induction false} NonEmptyArgs(suite: Suite, items: seq<string>, args: seq<Arg>)
    requires ArgsFor(args, items, Names(suite.recordedTests))
    ensures args == [] <==> items == []
  {
    if items != [] {
      var x := items[0];
      if REST <= x {
        assert x == REST + x[|REST|..];
        assert IsPath(x[|REST|..], items);
      } else if REST + FileOf(x) in items {
        assert IsPath(FileOf(x), items);
      } else {
        assert IsPath(x, items);
      }
    }
    assert args != [] ==> args[0] in args;
    assert forall arg :: arg in args ==>
      match arg case Path(p) => IsPath(p, items) case Deselect(d) => IsDeselected(d, items, Names(suite.recordedTests));
  }

  /** A checkout with one file f, its recorded test a, and the unrecorded test b. */
  ghost predicate IsOneFile(suite: Suite, f: string, a: string, b: string) {
    && |suite.found| == 1 && suite.found[0].path == f && suite.tests == {a, b}
    && |suite.recordedTests| == 1 && suite.recordedTests[0].name == a && suite.recordedTests[0].seconds > 0.0
  }

  /** Two tests of file f, neither below the other. */
  ghost predicate TwoTests(f: string, a: string, b: string) {
    && ValidPath(f) && f !in EXCLUDED && f + SEP <= a && f + SEP <= b && FileOf(a) == f == FileOf(b)
    && !Collects(a, b) && !Collects(b, a)
  }

  lemma {:induction false} NoSeparator(f: string)
    requires forall i :: 0 <= i < |f| ==> f[i] != ':'
    ensures FileOf(f) == f
  {
    if |f| >= 2 {
      assert forall i :: 0 <= i < |f[1..]| ==> f[1..][i] == f[i + 1];
      NoSeparator(f[1..]);
      assert f == [f[0]] + f[1..];
    }
  }

  /** A name without a colon makes a valid path. */
  lemma {:induction false} PlainPath(name: string)
    requires name != "" && forall i :: 0 <= i < |name| ==> name[i] != ':'
    ensures ValidPath("tests/" + name)
  {
    var f := "tests/" + name;
    assert forall i :: 6 <= i < |f| ==> f[i] == name[i - 6];
    NoSeparator(f);
  }

  /** Two such tests, of which the first is a proper prefix of the second: the file's test x, and x with
      one more character. */
  lemma {:induction false} OneMoreCharacter(f: string, x: string, c: char) returns (a: string, b: string)
    requires ValidPath(f) && f !in EXCLUDED && c != '['
    ensures a == f + SEP + x && b == a + [c]
    ensures TwoTests(f, a, b) && a <= b && a != b
  {
    a := f + SEP + x;
    b := a + [c];
    assert f + SEP <= a;
    assert a <= b;
    assert b[..|f| + 2] == f + SEP;
    FileOfPrefix(f, a);
    FileOfPrefix(f, b);
    assert (a + "[")[|a|] == '[' && b[|a|] == c;
  }

  /** For one: test_a and test_ab of tests/test_x.py. */
  lemma {:induction false} TestAAndTestAB() returns (f: string, a: string, b: string)
    ensures f == "tests/" + "test_x.py" && a == f + SEP + "test_a" && b == a + ['b']
    ensures TwoTests(f, a, b) && a <= b && a != b
  {
    var name := "test_x.py";
    f := "tests/" + name;
    PlainPath(name);
    assert |f| == 15 && forall x :: x in EXCLUDED ==> |x| == 24;
    a, b := OneMoreCharacter(f, "test_a", 'b');
  }

  lemma {:induction false} OneFileFacts(suite: Suite, f: string, a: string, b: string)
    requires TwoTests(f, a, b) && IsOneFile(suite, f, a, b)
    ensures forall r :: Recorded(suite, r) <==> r == a
    ensures Listed(suite, f) && Names(suite.recordedTests) == [a]
    ensures WellFormed(suite) && RecordedExist(suite)
  {
    assert suite.recordedTests[0].name == a && suite.found[0].path == f;
    LeavesOf(suite, a, b);
    assert forall i :: 0 <= i < |suite.found| ==> suite.found[i].path == f;
    assert forall t :: t in suite.tests ==> FileOf(t) + SEP <= t;
  }

  lemma {:induction false} LeavesOf(suite: Suite, a: string, b: string)
    requires suite.tests == {a, b} && !Collects(a, b) && !Collects(b, a)
    ensures forall t, u :: t in suite.tests && u in suite.tests && Collects(t, u) ==> t == u
  {
    forall t, u | t in suite.tests && u in suite.tests && Collects(t, u) ensures t == u {
      assert (t == a || t == b) && (u == a || u == b);
    }
  }

  lemma {:induction false} OneFileSharded(suite: Suite, f: string, a: string, b: string, placement: seq<nat>,
                                          shards: seq<seq<string>>, args: seq<seq<Arg>>)
    requires TwoTests(f, a, b) && IsOneFile(suite, f, a, b)
    requires GreedyShards(AllItems(suite), placement, shards, 2) && AllArgs(args, shards, [a])
    ensures Sharded(suite, shards, args)
    ensures shards == [[a], [REST + f]] && |args| == 2 && args[0] != [] && args[1] != []
  {
    OneFileFacts(suite, f, a, b);
    PlacementPartitions(suite, placement, shards);
    NodeIsNoRest(a, f);
    TwoItems(suite, f, a);
    TwoShards(AllItems(suite), placement, shards);
    NonEmptyArgs(suite, shards[0], args[0]);
    NonEmptyArgs(suite, shards[1], args[1]);
  }

  lemma {:induction false} NodeIsNoRest(a: string, f: string)
    requires ValidPath(f) && f + SEP <= a
    ensures !(REST <= a) && a != REST + f
  {
    assert a[0] == f[0] == 't' && (REST + f)[0] == 'R';
  }

  /** Why the prefix condition is there: one file, split over two shards, with a recorded test a and a
      new test b. The recorded test runs exactly once; so does the new one, unless its id merely starts
      with a, and then no shard runs it. */
  lemma {:induction false} PrefixSwallowsANewTest(suite: Suite, f: string, a: string, b: string, placement: seq<nat>,
                                                  shards: seq<seq<string>>, args: seq<seq<Arg>>)
    requires TwoTests(f, a, b) && IsOneFile(suite, f, a, b)
    requires GreedyShards(AllItems(suite), placement, shards, 2) && AllArgs(args, shards, [a])
    ensures ExactlyOnce(args, a)
    ensures ExactlyOnce(args, b) <==> !(a <= b)
    ensures a <= b ==> !Runs(args[0], b) && !Runs(args[1], b)
  {
    OnceHere(suite, f, a, b, placement, shards, args, a);
    OnceHere(suite, f, a, b, placement, shards, args, b);
    SwallowedHere(suite, f, a, b, placement, shards, args);
  }

  lemma {:induction false} OnceHere(suite: Suite, f: string, a: string, b: string, placement: seq<nat>,
                                    shards: seq<seq<string>>, args: seq<seq<Arg>>, t: string)
    requires TwoTests(f, a, b) && IsOneFile(suite, f, a, b) && (t == a || t == b)
    requires GreedyShards(AllItems(suite), placement, shards, 2) && AllArgs(args, shards, [a])
    ensures |args| == 2 && (ExactlyOnce(args, t) <==> !Swallowed(suite, shards, t))
    ensures Swallowed(suite, shards, t) ==> !Runs(args[0], t) && !Runs(args[1], t)
  {
    OneFileFacts(suite, f, a, b);
    OneFileSharded(suite, f, a, b, placement, shards, args);
    OnceUnlessSwallowed(suite, shards, args, t);
  }

  lemma {:induction false} SwallowedHere(suite: Suite, f: string, a: string, b: string, placement: seq<nat>,
                                         shards: seq<seq<string>>, args: seq<seq<Arg>>)
    requires TwoTests(f, a, b) && IsOneFile(suite, f, a, b)
    requires GreedyShards(AllItems(suite), placement, shards, 2) && AllArgs(args, shards, [a])
    ensures !Swallowed(suite, shards, a) && (Swallowed(suite, shards, b) <==> a <= b)
  {
    OneFileFacts(suite, f, a, b);
    OneFileSharded(suite, f, a, b, placement, shards, args);
    NodeIsNoRest(a, f);
    WhichAreSwallowed(suite, shards, f, a, b);
  }

  lemma {:induction false} WhichAreSwallowed(suite: Suite, shards: seq<seq<string>>, f: string, a: string, b: string)
    requires FileOf(a) == f == FileOf(b) && a != b && a != REST + f && forall r :: Recorded(suite, r) <==> r == a
    requires shards == [[a], [REST + f]]
    ensures !Swallowed(suite, shards, a)
    ensures Swallowed(suite, shards, b) <==> a <= b
  {
    if a <= b { assert REST + FileOf(b) in shards[1] && a !in shards[1]; }
  }

  /** What the promise asks of a suite. */
  lemma {:induction false} OneFilePromises(suite: Suite, f: string, a: string, b: string)
    requires TwoTests(f, a, b) && IsOneFile(suite, f, a, b) && !(a <= b)
    ensures WellFormed(suite) && RecordedExist(suite) && PrefixFree(suite)
    ensures ListedTest(suite, a) && ListedTest(suite, b) && Names(suite.recordedTests) == [a]
  {
    OneFileFacts(suite, f, a, b);
  }

  lemma {:induction false} OneFileItems(suite: Suite, f: string, a: string, b: string)
    requires TwoTests(f, a, b) && IsOneFile(suite, f, a, b)
    ensures var items := AllItems(suite);
            && items == Sort(items, HeavierFirst) && |items| == 2 && items[0].seconds > 0.0 && items[1].seconds == 0.0
  {
    TwoItems(suite, f, a);
  }

  /** Why the number of items matters: over three shards, the two items of such a file leave a shard empty,
      and pytest without arguments runs its tests once more. */
  lemma {:induction false} AnEmptyShardRepeats(suite: Suite, f: string, a: string, b: string, placement: seq<nat>,
                                               shards: seq<seq<string>>, args: seq<seq<Arg>>)
    requires TwoTests(f, a, b) && IsOneFile(suite, f, a, b) && !(a <= b)
    requires GreedyShards(AllItems(suite), placement, shards, 3) && AllArgs(args, shards, [a])
    ensures !ExactlyOnce(args, a) && !ExactlyOnce(args, b)
  {
    OneFilePromises(suite, f, a, b);
    OneFileItems(suite, f, a, b);
    NotEnoughForThree(AllItems(suite));
    ShardsRunEveryTestOnce(suite, 3, shards, args, placement, a);
    ShardsRunEveryTestOnce(suite, 3, shards, args, placement, b);
  }

  lemma {:induction false} NotEnoughForThree(items: seq<Item>)
    requires items == Sort(items, HeavierFirst) && |items| == 2 && items[0].seconds > 0.0 && items[1].seconds == 0.0
    ensures !EnoughItems(items, 3)
  {
    var w := Weights(Sort(items, HeavierFirst));
    assert w[0] > 0.0 && w[1] == 0.0 && |w| == 2;
    forall p: nat | PositiveThenZero(w, p) ensures p == 1 {}
  }

  lemma {:induction false} TwoShards(items: seq<Item>, placement: seq<nat>, shards: seq<seq<string>>)
    requires |items| == 2 && items == Sort(items, HeavierFirst) && items[0].seconds > 0.0 && items[1].seconds == 0.0
    requires GreedyShards(items, placement, shards, 2)
    ensures shards == [[items[0].name], [items[1].name]]
  {
    TwoPlaced(items, placement);
  }

  lemma {:induction false} TwoPlaced(order: seq<Item>, placement: seq<nat>)
    requires |order| == 2 == |placement| && order[0].seconds > 0.0 && order[1].seconds == 0.0
    requires Greedy(Weights(order), placement, 2)
    ensures Placed(order, placement, 2, 0) == [order[0].name] && Placed(order, placement, 2, 1) == [order[1].name]
  {
    FillOrder(Weights(order), placement, 2, 2, 1);
    assert placement[0] == 0 && placement[1] == 1;
    assert Placed(order, placement, 1, 0) == [order[0].name] && Placed(order, placement, 1, 1) == [];
  }

  lemma {:induction false} OneKept(found: seq<TestFile>)
    requires |found| == 1 && found[0].path !in EXCLUDED
    ensures TestFiles(found) == found
  {
    assert found == [found[0]];
    assert Sort(found[1..], FileLe) == [] && Kept(found[1..]) == [];
  }

  lemma {:induction false} OneRecorded(recorded: seq<Item>, f: string)
    requires |recorded| == 1 && FileOf(recorded[0].name) == f
    ensures RecordedOf(recorded, 1, f) == recorded
  {
    assert RecordedOf(recorded, 0, f) == [];
  }

  lemma {:induction false} TwoItems(suite: Suite, f: string, a: string)
    requires |suite.found| == 1 && suite.found[0].path == f && f !in EXCLUDED && FileOf(a) == f
    requires |suite.recordedTests| == 1 && suite.recordedTests[0].name == a && suite.recordedTests[0].seconds > 0.0
    ensures var items := AllItems(suite);
            && items == Sort(items, HeavierFirst) && |items| == 2 && items[0].seconds > 0.0 && items[1].seconds == 0.0
            && items[0].name == a && items[1].name == REST + f
  {
    var file, recorded := suite.found[0], suite.recordedTests;
    OneKept(suite.found);
    OneRecorded(recorded, f);
    SortedPair(recorded[0], Item(REST + f, 0.0));
    assert ItemsOf(suite, file) == [recorded[0], Item(REST + f, 0.0)];
    assert ItemsUpTo(suite, suite.found, 0) == [];
    assert ItemsUpTo(suite, suite.found, 1) == [] + ItemsOf(suite, file) == ItemsOf(suite, file);
  }

  lemma {:induction false} SortedPair(x: Item, y: Item)
    requires x.seconds > y.seconds
    ensures Sort([x, y], HeavierFirst) == [x, y]
  {
    assert [x, y][1..] == [y];
    assert Sort([y], HeavierFirst) == Insert(y, Sort([], HeavierFirst), HeavierFirst) == [y];
    assert Insert(x, [y], HeavierFirst) == [x, y];
  }
}
