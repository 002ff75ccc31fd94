/** Grouping of capture files by the `framework_benchmark_iteration` naming
    convention (groupFiles in src/utilities/file-helpers.ts). The nested
    record the source builds is a map of maps together with the insertion
    order of its keys. `Object.entries` lists integer-like keys first, in
    numeric order; the recorded orders do not capture that. */
module FileHelpers {
  import opened Wrappers
  import opened Strings

  datatype InputFile = InputFile(name: string, path: string)

  /** The bucket a file belongs to. */
  datatype GroupKey = GroupKey(benchmark: string, framework: string)

  const InvalidFilename := "Invalid filename - Does not follow convention 'framework_benchmark_iteration'"

  /** The bucket named by `name`, or None when the name breaks the
      convention (the destructuring `[framework, benchmark, iteration]` of
      `name.split("_")` followed by the falsiness check). */
  function KeyOf(name: string): Option<GroupKey>
  {
    var parts := Split(name, '_');
    var framework := parts[0];
    var benchmark := if |parts| > 1 then parts[1] else "";
    var iteration := if |parts| > 2 then parts[2] else "";
    if iteration == "" || benchmark == "" || framework == "" then None
    else Some(GroupKey(benchmark, framework))
  }

  /** A name follows the convention exactly when its first three
      `_`-separated components exist and are non-empty; the first is the
      framework and the second the benchmark. */
  lemma KeyOfComponents(name: string)
    ensures KeyOf(name).Some? <==>
      |Split(name, '_')| >= 3 && Split(name, '_')[0] != "" && Split(name, '_')[1] != "" && Split(name, '_')[2] != ""
    ensures KeyOf(name).Some? ==> KeyOf(name).value == GroupKey(Split(name, '_')[1], Split(name, '_')[0])
  {
  }

  /** Components after the third are ignored: appending more to a
      well-formed name keeps its key. */
  lemma KeyOfIgnoresExtra(name: string, rest: string)
    requires KeyOf(name).Some?
    ensures KeyOf(name + "_" + rest) == KeyOf(name)
  {
    var parts := Split(name, '_');
    var more := Split(rest, '_');
    var all := parts + more;
    JoinSplit(name, '_');
    JoinSplit(rest, '_');
    SplitPartsFree(name, '_');
    SplitPartsFree(rest, '_');
    forall i | 0 <= i < |all| ensures '_' !in all[i] {
      if i >= |parts| { assert all[i] == more[i - |parts|]; }
    }
    JoinAppend(parts, more, '_');
    SplitJoin(all, '_');
    assert name + "_" + rest == Join(all, '_');
    assert Split(name + "_" + rest, '_')[..3] == parts[..3];
  }

  /** The property names every plain object inherits from
      `Object.prototype`, leaving out those that contain "_" (no part of a
      split name does). */
  const InheritedKeys: set<string> :=
    {"constructor", "toString", "valueOf", "hasOwnProperty", "isPrototypeOf", "propertyIsEnumerable", "toLocaleString"}

  /** The TypeError the push raises when the bucket slot already holds an
      inherited method instead of a list. */
  const PushNotAFunction := "benchmarks[benchmark][framework].push is not a function"

  /** What the grouping loop does with one file. The buckets are plain
      objects filled with `??=`, so a key that names an inherited property
      finds that property (a function) instead of creating a bucket. */
  datatype Placement =
    | Grouped(key: GroupKey)     // pushed onto the bucket of `key`
    | Dropped                    // pushed onto a property of a built-in function, which `Object.entries` never lists
    | Rejected(error: string)    // the loop throws `error`

  /** The placement of a file named `name`: a broken name throws the naming
      error; a framework that names an inherited property makes the push
      throw, whatever the benchmark; a benchmark that names one turns the
      benchmark slot into a built-in function, so the file is lost; any
      other name is grouped under its key. */
  function PlacementOf(name: string): Placement
  {
    match KeyOf(name)
    case None => Rejected(InvalidFilename)
    case Some(k) =>
      if k.framework in InheritedKeys then Rejected(PushNotAFunction)
      else if k.benchmark in InheritedKeys then Dropped
      else Grouped(k)
  }

  /** The three placements in terms of the name's key: exactly one applies,
      and a grouped file goes to the bucket its name gives. */
  lemma PlacementCases(name: string)
    ensures PlacementOf(name).Rejected? <==> KeyOf(name).None? || KeyOf(name).value.framework in InheritedKeys
    ensures PlacementOf(name).Rejected? ==>
      PlacementOf(name).error == if KeyOf(name).None? then InvalidFilename else PushNotAFunction
    ensures PlacementOf(name).Dropped? <==>
      KeyOf(name).Some? && KeyOf(name).value.framework !in InheritedKeys && KeyOf(name).value.benchmark in InheritedKeys
    ensures forall k :: PlacementOf(name) == Grouped(k) <==>
      KeyOf(name) == Some(k) && k.framework !in InheritedKeys && k.benchmark !in InheritedKeys
  {
  }

  /** A well-named file is rejected when its framework names an inherited
      method, dropped when only its benchmark does, and grouped otherwise. */
  lemma RejectedExample()
    ensures PlacementOf("toString_bench_1.json") == Rejected(PushNotAFunction)
  {
    assert "toString_bench_1.json" == "toString" + "_" + "bench" + "_" + "1.json";
    PlacementOfName("toString", "bench", "1.json");
  }

  lemma DroppedExample()
    ensures PlacementOf("react_constructor_1.json") == Dropped
  {
    assert "react_constructor_1.json" == "react" + "_" + "constructor" + "_" + "1.json";
    PlacementOfName("react", "constructor", "1.json");
    ShortNameNotInherited("react");
  }

  lemma GroupedExample()
    ensures PlacementOf("react_bench_1.json") == Grouped(GroupKey("bench", "react"))
  {
    assert "react_bench_1.json" == "react" + "_" + "bench" + "_" + "1.json";
    PlacementOfName("react", "bench", "1.json");
    ShortNameNotInherited("react");
    ShortNameNotInherited("bench");
  }

  /** Every inherited key is at least seven characters long. */
  lemma ShortNameNotInherited(s: string)
    requires |s| < 7
    ensures s !in InheritedKeys
  {
  }

  /** Where a name assembled from three non-empty parts without "_" is placed. */
  lemma PlacementOfName(framework: string, benchmark: string, rest: string)
    requires framework != "" && benchmark != "" && rest != ""
    requires '_' !in framework && '_' !in benchmark && '_' !in rest
    ensures PlacementOf(framework + "_" + benchmark + "_" + rest) ==
      if framework in InheritedKeys then Rejected(PushNotAFunction)
      else if benchmark in InheritedKeys then Dropped
      else Grouped(GroupKey(benchmark, framework))
  {
    SplitNameExample(framework, benchmark, rest);
  }

  /** The key of a name assembled from three non-empty parts without "_". */
  lemma SplitNameExample(framework: string, benchmark: string, rest: string)
    requires framework != "" && benchmark != "" && rest != ""
    requires '_' !in framework && '_' !in benchmark && '_' !in rest
    ensures KeyOf(framework + "_" + benchmark + "_" + rest) == Some(GroupKey(benchmark, framework))
  {
    var parts := [framework, benchmark, rest];
    assert Join(parts, '_') == framework + "_" + benchmark + "_" + rest by {
      assert Join(parts[2..], '_') == rest;
      assert Join(parts[1..], '_') == benchmark + "_" + rest;
    }
    SplitJoin(parts, '_');
  }

  /** The bucket a file ends up in, if any. */
  function GroupedKey(name: string): (k: Option<GroupKey>)
    ensures k.Some? <==> PlacementOf(name).Grouped?
    ensures k.Some? ==> KeyOf(name) == k
  {
    if PlacementOf(name).Grouped? then Some(PlacementOf(name).key) else None
  }

  /** The files of `files` with key `k`, in input order. */
  function Bucket(files: seq<InputFile>, k: GroupKey): seq<InputFile>
  {
    if |files| == 0 then []
    else Bucket(files[..|files| - 1], k) + (if GroupedKey(files[|files| - 1].name) == Some(k) then [files[|files| - 1]] else [])
  }

  /** `s` with later repetitions dropped: distinct values in order of first
      occurrence. */
  function Dedup(s: seq<string>): seq<string>
  {
    if |s| == 0 then []
    else
      var init := Dedup(s[..|s| - 1]);
      if s[|s| - 1] in init then init else init + [s[|s| - 1]]
  }

  /** The benchmark of every well-named file, in input order. */
  function Benchmarks(files: seq<InputFile>): seq<string>
  {
    if |files| == 0 then []
    else
      var k := GroupedKey(files[|files| - 1].name);
      Benchmarks(files[..|files| - 1]) + (if k.Some? then [k.value.benchmark] else [])
  }

  /** The framework of every well-named file of benchmark `b`, in input order. */
  function Frameworks(files: seq<InputFile>, b: string): seq<string>
  {
    if |files| == 0 then []
    else
      var k := GroupedKey(files[|files| - 1].name);
      Frameworks(files[..|files| - 1], b) + (if k.Some? && k.value.benchmark == b then [k.value.framework] else [])
  }

  /** The record `groupFiles` returns: `buckets[benchmark][framework]` is a
      file list, `benchmarkOrder` and `frameworkOrder[benchmark]` the key
      insertion orders. */
  datatype Groups = Groups(
    buckets: map<string, map<string, seq<InputFile>>>,
    benchmarkOrder: seq<string>,
    frameworkOrder: map<string, seq<string>>)
  {
    /** The orders list exactly the keys of the maps. */
    ghost predicate WellFormed()
    {
      && (forall b :: b in buckets <==> b in benchmarkOrder)
      && (forall b :: b in buckets ==> b in frameworkOrder)
      && (forall b :: b in buckets ==> forall f :: f in buckets[b] <==> f in frameworkOrder[b])
    }
  }

  /** `g` is the grouping of `files`: it holds the buckets of exactly the
      keys that occur, each bucket lists its files in input order, and keys
      are ordered by first occurrence. */
  ghost predicate GroupsOf(files: seq<InputFile>, g: Groups)
  {
    && g.WellFormed()
    && g.benchmarkOrder == Dedup(Benchmarks(files))
    && (forall b :: b in g.buckets ==> g.frameworkOrder[b] == Dedup(Frameworks(files, b)))
    && (forall b :: b in g.buckets ==> forall f :: f in g.buckets[b] ==> g.buckets[b][f] == Bucket(files, GroupKey(b, f)))
  }

  lemma {:induction false} DedupMembers(s: seq<string>)
    ensures forall x :: x in Dedup(s) <==> x in s
    decreases |s|
  {
    if |s| > 0 {
      DedupMembers(s[..|s| - 1]);
      assert forall x :: x in s <==> x in s[..|s| - 1] || x == s[|s| - 1] by {
        assert s == s[..|s| - 1] + [s[|s| - 1]];
      }
    }
  }

  /** First-occurrence order lists every value once. */
  lemma {:induction false} DedupDistinct(s: seq<string>)
    ensures forall i, j :: 0 <= i < j < |Dedup(s)| ==> Dedup(s)[i] != Dedup(s)[j]
    decreases |s|
  {
    if |s| > 0 {
      DedupDistinct(s[..|s| - 1]);
    }
  }

  /** File `x` is grouped, under benchmark `b`. */
  predicate GroupedUnder(x: InputFile, b: string)
  {
    GroupedKey(x.name).Some? && GroupedKey(x.name).value.benchmark == b
  }

  /** The benchmark `b` occurs in `files` exactly when some grouped file
      has it. */
  lemma {:induction false} BenchmarksMembers(files: seq<InputFile>, b: string)
    ensures b in Benchmarks(files) <==> exists i :: 0 <= i < |files| && GroupedUnder(files[i], b)
    decreases |files|
  {
    if |files| > 0 {
      var init := files[..|files| - 1];
      var x := files[|files| - 1];
      BenchmarksMembers(init, b);
      assert b in Benchmarks(files) <==> b in Benchmarks(init) || GroupedUnder(x, b);
      if exists i :: 0 <= i < |init| && GroupedUnder(init[i], b) {
        var i :| 0 <= i < |init| && GroupedUnder(init[i], b);
        assert files[i] == init[i];
      }
      if exists i :: 0 <= i < |files| && GroupedUnder(files[i], b) {
        var i :| 0 <= i < |files| && GroupedUnder(files[i], b);
        if i < |init| { assert init[i] == files[i]; }
      }
    }
  }

  /** The framework `f` occurs for benchmark `b` exactly when the bucket of
      `(b, f)` is non-empty. */
  lemma {:induction false} FrameworksMembers(files: seq<InputFile>, b: string, f: string)
    ensures f in Frameworks(files, b) <==> Bucket(files, GroupKey(b, f)) != []
    decreases |files|
  {
    if |files| > 0 {
      FrameworksMembers(files[..|files| - 1], b, f);
    }
  }

  /** A file of benchmark `b` lists `b` among the benchmarks. */
  lemma {:induction false} FrameworksNeedBenchmark(files: seq<InputFile>, b: string)
    requires Frameworks(files, b) != []
    ensures b in Benchmarks(files)
    decreases |files|
  {
    var init := files[..|files| - 1];
    if Frameworks(init, b) != [] {
      FrameworksNeedBenchmark(init, b);
    }
  }

  /** The record after `(groups[k.benchmark] ??= {})[k.framework] ??= []`
      and a push of `x` onto that bucket. */
  function WithFile(g: Groups, k: GroupKey, x: InputFile): Groups
    requires k.benchmark in g.buckets ==> k.benchmark in g.frameworkOrder
  {
    var b, f := k.benchmark, k.framework;
    var inner := if b in g.buckets then g.buckets[b] else map[];
    var order := if b in g.buckets then g.frameworkOrder[b] else [];
    Groups(
      g.buckets[b := inner[f := (if f in inner then inner[f] else []) + [x]]],
      if b in g.buckets then g.benchmarkOrder else g.benchmarkOrder + [b],
      g.frameworkOrder[b := if f in inner then order else order + [f]])
  }

  /** One more file adds its framework to the frameworks of its benchmark
      and to no other. */
  lemma FrameworksSnoc(files: seq<InputFile>, x: InputFile, b: string)
    ensures var k := GroupedKey(x.name);
      k.Some? && k.value.benchmark == b ==> Frameworks(files + [x], b) == Frameworks(files, b) + [k.value.framework]
    ensures var k := GroupedKey(x.name);
      !(k.Some? && k.value.benchmark == b) ==> Frameworks(files + [x], b) == Frameworks(files, b)
  {
    assert (files + [x])[..|files|] == files;
  }

  /** One more file joins the bucket of its key and no other. */
  lemma BucketSnoc(files: seq<InputFile>, x: InputFile, k: GroupKey)
    ensures GroupedKey(x.name) == Some(k) ==> Bucket(files + [x], k) == Bucket(files, k) + [x]
    ensures GroupedKey(x.name) != Some(k) ==> Bucket(files + [x], k) == Bucket(files, k)
  {
    assert (files + [x])[..|files|] == files;
  }

  /** The facts about a prefix that the step lemmas below share. */
  lemma SnocFacts(files: seq<InputFile>, x: InputFile, g: Groups)
    requires GroupsOf(files, g) && GroupedKey(x.name).Some?
    ensures (files + [x])[..|files|] == files
    ensures Benchmarks(files + [x]) == Benchmarks(files) + [GroupedKey(x.name).value.benchmark]
    ensures var k := GroupedKey(x.name).value;
      k.benchmark in Benchmarks(files) <==> k.benchmark in g.buckets
    ensures var k := GroupedKey(x.name).value;
      k.framework in Frameworks(files, k.benchmark) <==> k.benchmark in g.buckets && k.framework in g.buckets[k.benchmark]
    ensures var k := GroupedKey(x.name).value;
      Bucket(files, k) != [] <==> k.benchmark in g.buckets && k.framework in g.buckets[k.benchmark]
  {
    BenchmarksSnoc(files, x);
    SnocMembership(files, g, GroupedKey(x.name).value);
  }

  /** A grouped file appends its benchmark to the benchmark list. */
  lemma BenchmarksSnoc(files: seq<InputFile>, x: InputFile)
    requires GroupedKey(x.name).Some?
    ensures (files + [x])[..|files|] == files
    ensures Benchmarks(files + [x]) == Benchmarks(files) + [GroupedKey(x.name).value.benchmark]
  {
    var next := files + [x];
    assert next[..|next| - 1] == files && next[|next| - 1] == x;
  }

  /** A key's benchmark and framework are recorded exactly when the prefix
      has them. */
  lemma SnocMembership(files: seq<InputFile>, g: Groups, k: GroupKey)
    requires GroupsOf(files, g)
    ensures k.benchmark in Benchmarks(files) <==> k.benchmark in g.buckets
    ensures k.framework in Frameworks(files, k.benchmark) <==> k.benchmark in g.buckets && k.framework in g.buckets[k.benchmark]
    ensures Bucket(files, k) != [] <==> k.benchmark in g.buckets && k.framework in g.buckets[k.benchmark]
  {
    var b, f := k.benchmark, k.framework;
    DedupMembers(Benchmarks(files));
    DedupMembers(Frameworks(files, b));
    if b !in g.buckets && Frameworks(files, b) != [] {
      FrameworksNeedBenchmark(files, b);
    }
    FrameworksMembers(files, b, f);
  }

  /** Adding a file keeps the key orders in step with the maps. */
  lemma SnocWellFormed(g: Groups, k: GroupKey, x: InputFile)
    requires g.WellFormed()
    ensures WithFile(g, k, x).WellFormed()
  {
  }

  /** After adding the next file, the benchmark order is that of the longer
      prefix. */
  lemma SnocBenchmarkOrder(files: seq<InputFile>, x: InputFile, g: Groups)
    requires GroupsOf(files, g) && GroupedKey(x.name).Some?
    ensures WithFile(g, GroupedKey(x.name).value, x).benchmarkOrder == Dedup(Benchmarks(files + [x]))
  {
    var bs := Benchmarks(files);
    SnocFacts(files, x, g);
    DedupMembers(bs);
    assert (bs + [GroupedKey(x.name).value.benchmark])[..|bs|] == bs;
  }

  /** The framework order of any other benchmark is left as it was, and so
      is that benchmark's list of frameworks. */
  lemma SnocOtherFrameworkOrder(files: seq<InputFile>, x: InputFile, g: Groups, b: string)
    requires GroupsOf(files, g) && GroupedKey(x.name).Some?
    requires b in g.buckets && b != GroupedKey(x.name).value.benchmark
    ensures WithFile(g, GroupedKey(x.name).value, x).frameworkOrder[b] == Dedup(Frameworks(files + [x], b))
  {
    FrameworksSnoc(files, x, b);
  }

  /** After adding the next file, the key orders and the framework orders
      are those of the longer prefix. */
  lemma SnocOrders(files: seq<InputFile>, x: InputFile, g: Groups)
    requires GroupsOf(files, g) && GroupedKey(x.name).Some?
    ensures var g2 := WithFile(g, GroupedKey(x.name).value, x);
      && g2.benchmarkOrder == Dedup(Benchmarks(files + [x]))
      && forall b :: b in g2.buckets ==> g2.frameworkOrder[b] == Dedup(Frameworks(files + [x], b))
  {
    var k := GroupedKey(x.name).value;
    var g2 := WithFile(g, k, x);
    SnocBenchmarkOrder(files, x, g);
    forall b | b in g2.buckets
      ensures g2.frameworkOrder[b] == Dedup(Frameworks(files + [x], b))
    {
      if b == k.benchmark {
        SnocFrameworkOrder(files, x, g);
      } else {
        SnocOtherFrameworkOrder(files, x, g, b);
      }
    }
  }

  /** The framework order of the new file's benchmark gains its framework
      exactly when that framework is new there. */
  lemma SnocFrameworkOrder(files: seq<InputFile>, x: InputFile, g: Groups)
    requires GroupsOf(files, g) && GroupedKey(x.name).Some?
    ensures var k := GroupedKey(x.name).value;
      WithFile(g, k, x).frameworkOrder[k.benchmark] == Dedup(Frameworks(files, k.benchmark) + [k.framework])
  {
    var k := GroupedKey(x.name).value;
    var b, f := k.benchmark, k.framework;
    var fs := Frameworks(files, b);
    SnocFacts(files, x, g);
    assert (fs + [f])[..|fs|] == fs;
    DedupMembers(fs);
    if b !in g.buckets && fs != [] {
      FrameworksNeedBenchmark(files, b);
    }
    if b !in g.buckets {
      assert fs == [];
    }
  }

  /** After adding the next file, every bucket holds the files of its key in
      the longer prefix. */
  lemma SnocBuckets(files: seq<InputFile>, x: InputFile, g: Groups)
    requires GroupsOf(files, g) && GroupedKey(x.name).Some?
    ensures var g2 := WithFile(g, GroupedKey(x.name).value, x);
      forall b, f :: b in g2.buckets && f in g2.buckets[b] ==> g2.buckets[b][f] == Bucket(files + [x], GroupKey(b, f))
  {
    var g2 := WithFile(g, GroupedKey(x.name).value, x);
    forall b, f | b in g2.buckets && f in g2.buckets[b]
      ensures g2.buckets[b][f] == Bucket(files + [x], GroupKey(b, f))
    {
      SnocOneBucket(files, x, g, b, f);
    }
  }

  /** One bucket after adding the next file: the new file's bucket gains it,
      created empty if need be; every other bucket is as it was. */
  lemma SnocOneBucket(files: seq<InputFile>, x: InputFile, g: Groups, b: string, f: string)
    requires GroupsOf(files, g) && GroupedKey(x.name).Some?
    requires var g2 := WithFile(g, GroupedKey(x.name).value, x);
      b in g2.buckets && f in g2.buckets[b]
    ensures WithFile(g, GroupedKey(x.name).value, x).buckets[b][f] == Bucket(files + [x], GroupKey(b, f))
  {
    var k := GroupedKey(x.name).value;
    BucketSnoc(files, x, GroupKey(b, f));
    if GroupKey(b, f) == k {
      SnocFacts(files, x, g);
      if !(b in g.buckets && f in g.buckets[b]) {
        assert Bucket(files, k) == [];
        assert Bucket(files, k) + [x] == [x];
      }
    } else {
      assert b in g.buckets && f in g.buckets[b];
    }
  }

  /** Adding the next well-named file to the grouping of a prefix gives the
      grouping of the longer prefix. */
  lemma GroupsOfSnoc(files: seq<InputFile>, x: InputFile, g: Groups)
    requires GroupsOf(files, g) && GroupedKey(x.name).Some?
    ensures GroupsOf(files + [x], WithFile(g, GroupedKey(x.name).value, x))
  {
    SnocWellFormed(g, GroupedKey(x.name).value, x);
    SnocOrders(files, x, g);
    SnocBuckets(files, x, g);
  }

  /** The record built from `files` one file at a time, as the grouping
      loop does; files that are not grouped are passed over. */
  ghost function Grouping(files: seq<InputFile>): (g: Groups)
    ensures forall b :: b in g.buckets ==> b in g.frameworkOrder
  {
    if |files| == 0 then Groups(map[], [], map[])
    else
      var g := Grouping(files[..|files| - 1]);
      var k := GroupedKey(files[|files| - 1].name);
      if k.Some? then WithFile(g, k.value, files[|files| - 1]) else g
  }

  /** The grouping of one more well-named file adds that file to the
      grouping of the prefix. */
  lemma GroupingStep(files: seq<InputFile>, i: nat)
    requires i < |files| && GroupedKey(files[i].name).Some?
    ensures Grouping(files[..i + 1]) == WithFile(Grouping(files[..i]), GroupedKey(files[i].name).value, files[i])
  {
    assert files[..i + 1][..i] == files[..i];
  }

  /** A file that is not grouped leaves the grouping as it was. */
  lemma GroupingSkip(files: seq<InputFile>, i: nat)
    requires i < |files| && GroupedKey(files[i].name).None?
    ensures Grouping(files[..i + 1]) == Grouping(files[..i])
  {
    assert files[..i + 1][..i] == files[..i];
  }

  /** A file that is not grouped changes no key order and no bucket. */
  lemma GroupsOfSkip(files: seq<InputFile>, x: InputFile, g: Groups)
    requires GroupsOf(files, g) && GroupedKey(x.name).None?
    ensures GroupsOf(files + [x], g)
  {
    var next := files + [x];
    assert next[..|next| - 1] == files && next[|next| - 1] == x;
    assert Benchmarks(next) == Benchmarks(files);
    forall b | b in g.buckets
      ensures g.frameworkOrder[b] == Dedup(Frameworks(next, b))
    {
      FrameworksSnoc(files, x, b);
    }
    forall b, f | b in g.buckets && f in g.buckets[b]
      ensures g.buckets[b][f] == Bucket(next, GroupKey(b, f))
    {
      BucketSnoc(files, x, GroupKey(b, f));
    }
  }

  /** The record the loop builds is the grouping of the files. */
  lemma {:induction false} GroupingIsGroupsOf(files: seq<InputFile>)
    ensures GroupsOf(files, Grouping(files))
    decreases |files|
  {
    if |files| == 0 {
      assert Groups(map[], [], map[]).WellFormed();
    } else {
      var init := files[..|files| - 1];
      var x := files[|files| - 1];
      GroupingIsGroupsOf(init);
      GroupsOfNext(init, x, Grouping(init));
      assert init + [x] == files;
    }
  }

  /** One more file, grouped or not, extends a grouping of a prefix to the
      longer prefix. */
  lemma GroupsOfNext(files: seq<InputFile>, x: InputFile, g: Groups)
    requires GroupsOf(files, g)
    ensures GroupsOf(files + [x], if GroupedKey(x.name).Some? then WithFile(g, GroupedKey(x.name).value, x) else g)
  {
    if GroupedKey(x.name).Some? {
      GroupsOfSnoc(files, x, g);
    } else {
      GroupsOfSkip(files, x, g);
    }
  }

  /** A file is in the bucket of a key exactly when it occurs in `files`
      and its name gives that key. */
  lemma {:induction false} BucketMembers(files: seq<InputFile>, k: GroupKey, x: InputFile)
    ensures x in Bucket(files, k) <==> x in files && GroupedKey(x.name) == Some(k)
    decreases |files|
  {
    if |files| > 0 {
      var init := files[..|files| - 1];
      BucketMembers(init, k, x);
      assert files == init + [files[|files| - 1]];
    }
  }

  /** Every bucket of the grouping is non-empty: buckets are created only
      for a file that goes into them. */
  lemma BucketsNonEmpty(files: seq<InputFile>, g: Groups)
    requires GroupsOf(files, g)
    ensures forall b, f :: b in g.buckets && f in g.buckets[b] ==> g.buckets[b][f] != []
  {
    forall b, f | b in g.buckets && f in g.buckets[b]
      ensures g.buckets[b][f] != []
    {
      DedupMembers(Frameworks(files, b));
      FrameworksMembers(files, b, f);
    }
  }

  /** Every file of `files` lies in exactly one bucket, the one its name
      gives. */
  lemma FileInOneBucket(files: seq<InputFile>, g: Groups, x: InputFile)
    requires GroupsOf(files, g) && x in files && GroupedKey(x.name).Some?
    ensures var k := GroupedKey(x.name).value;
      k.benchmark in g.buckets && k.framework in g.buckets[k.benchmark]
    ensures forall b, f :: b in g.buckets && f in g.buckets[b] ==>
      (x in g.buckets[b][f] <==> GroupedKey(x.name) == Some(GroupKey(b, f)))
  {
    var k := GroupedKey(x.name).value;
    var i :| 0 <= i < |files| && files[i] == x;
    BenchmarksMembers(files, k.benchmark);
    DedupMembers(Benchmarks(files));
    BucketMembers(files, k, x);
    FrameworksMembers(files, k.benchmark, k.framework);
    DedupMembers(Frameworks(files, k.benchmark));
    forall b, f | b in g.buckets && f in g.buckets[b]
      ensures x in g.buckets[b][f] <==> GroupedKey(x.name) == Some(GroupKey(b, f))
    {
      BucketMembers(files, GroupKey(b, f), x);
    }
  }

  /** A file that is not grouped lies in no bucket. */
  lemma DroppedFileInNoBucket(files: seq<InputFile>, g: Groups, x: InputFile)
    requires GroupsOf(files, g) && GroupedKey(x.name).None?
    ensures forall b, f :: b in g.buckets && f in g.buckets[b] ==> x !in g.buckets[b][f]
  {
    forall b, f | b in g.buckets && f in g.buckets[b]
      ensures x !in g.buckets[b][f]
    {
      BucketMembers(files, GroupKey(b, f), x);
    }
  }

  /** No files, no groups. */
  lemma NoFilesNoGroups(g: Groups)
    requires GroupsOf([], g)
    ensures g.buckets == map[]
  {
    assert g.benchmarkOrder == [];
    assert forall b :: b !in g.buckets;
  }

  /** How often `k` occurs in `ks`. */
  function Occurrences(ks: seq<GroupKey>, k: GroupKey): nat
  {
    if |ks| == 0 then 0
    else Occurrences(ks[..|ks| - 1], k) + (if ks[|ks| - 1] == k then 1 else 0)
  }

  /** A key occurs once in a list of distinct keys that holds it. */
  lemma {:induction false} OccursOnce(ks: seq<GroupKey>, k: GroupKey)
    requires forall i, j :: 0 <= i < j < |ks| ==> ks[i] != ks[j]
    requires k in ks
    ensures Occurrences(ks, k) == 1
    decreases |ks|
  {
    var init := ks[..|ks| - 1];
    if ks[|ks| - 1] == k {
      OccursNever(init, k);
    } else {
      assert k in init by {
        var i :| 0 <= i < |ks| && ks[i] == k;
        assert init[i] == k;
      }
      OccursOnce(init, k);
    }
  }

  /** A key that is not in `ks` does not occur in it. */
  lemma {:induction false} OccursNever(ks: seq<GroupKey>, k: GroupKey)
    requires k !in ks
    ensures Occurrences(ks, k) == 0
    decreases |ks|
  {
    if |ks| > 0 {
      assert forall x :: x in ks[..|ks| - 1] ==> x in ks;
      OccursNever(ks[..|ks| - 1], k);
    }
  }

  /** The summed sizes of the buckets of the keys `ks`. */
  function BucketSizes(files: seq<InputFile>, ks: seq<GroupKey>): nat
  {
    if |ks| == 0 then 0
    else BucketSizes(files, ks[..|ks| - 1]) + |Bucket(files, ks[|ks| - 1])|
  }

  /** The number of files of `files` that are grouped. */
  function GroupedCount(files: seq<InputFile>): (n: nat)
    ensures n <= |files|
  {
    if |files| == 0 then 0
    else GroupedCount(files[..|files| - 1]) + (if GroupedKey(files[|files| - 1].name).Some? then 1 else 0)
  }

  /** One more grouped file grows the summed sizes by the number of times
      its key is listed; a file that is not grouped leaves them as they are. */
  lemma {:induction false} BucketSizesSnoc(files: seq<InputFile>, x: InputFile, ks: seq<GroupKey>)
    ensures GroupedKey(x.name).Some? ==>
      BucketSizes(files + [x], ks) == BucketSizes(files, ks) + Occurrences(ks, GroupedKey(x.name).value)
    ensures GroupedKey(x.name).None? ==> BucketSizes(files + [x], ks) == BucketSizes(files, ks)
    decreases |ks|
  {
    if |ks| > 0 {
      BucketSizesSnoc(files, x, ks[..|ks| - 1]);
      var next := files + [x];
      assert next[..|next| - 1] == files;
    }
  }

  /** The buckets of a list of distinct keys that names the key of every
      grouped file together hold exactly the grouped files. */
  lemma {:induction false} BucketSizesTotal(files: seq<InputFile>, ks: seq<GroupKey>)
    requires forall i, j :: 0 <= i < j < |ks| ==> ks[i] != ks[j]
    requires forall i :: 0 <= i < |files| && GroupedKey(files[i].name).Some? ==> GroupedKey(files[i].name).value in ks
    ensures BucketSizes(files, ks) == GroupedCount(files)
    decreases |files|
  {
    if |files| == 0 {
      BucketSizesEmpty(ks);
    } else {
      var init := files[..|files| - 1];
      var x := files[|files| - 1];
      assert forall i :: 0 <= i < |init| ==> init[i] == files[i];
      BucketSizesTotal(init, ks);
      BucketSizesSnoc(init, x, ks);
      if GroupedKey(x.name).Some? {
        OccursOnce(ks, GroupedKey(x.name).value);
      }
      assert init + [x] == files;
    }
  }

  /** No files, empty buckets. */
  lemma {:induction false} BucketSizesEmpty(ks: seq<GroupKey>)
    ensures BucketSizes([], ks) == 0
    decreases |ks|
  {
    if |ks| > 0 {
      BucketSizesEmpty(ks[..|ks| - 1]);
    }
  }

  /** One iteration of the grouping loop:
      `(benchmarks[benchmark] ??= {})[framework] ??= []` creates the two
      levels on first use, then the file is pushed onto its bucket. */
  method AddToGroups(g: Groups, k: GroupKey, x: InputFile) returns (g': Groups)
    requires k.benchmark in g.buckets ==> k.benchmark in g.frameworkOrder
    ensures g' == WithFile(g, k, x)
  {
    var b, f := k.benchmark, k.framework;
    g' := g;
    if b !in g'.buckets {
      g' := g'.(buckets := g'.buckets[b := map[]],
                benchmarkOrder := g'.benchmarkOrder + [b],
                frameworkOrder := g'.frameworkOrder[b := []]);
    }
    if f !in g'.buckets[b] {
      g' := g'.(buckets := g'.buckets[b := g'.buckets[b][f := []]],
                frameworkOrder := g'.frameworkOrder[b := g'.frameworkOrder[b] + [f]]);
    }
    ghost var inner := if b in g.buckets then g.buckets[b] else map[];
    ghost var pushed := (if f in inner then inner[f] else []) + [x];
    assert g'.buckets[b] == if f in inner then inner else inner[f := []];
    assert g'.buckets[b][f := pushed] == inner[f := pushed];
    g' := g'.(buckets := g'.buckets[b := g'.buckets[b][f := g'.buckets[b][f] + [x]]]);
  }

  /** One iteration of the grouping loop: adding file `i` to the grouping of
      the files before it gives the grouping of the files up to it. */
  method AddNextFile(g: Groups, files: seq<InputFile>, i: nat) returns (g': Groups)
    requires i < |files| && GroupedKey(files[i].name).Some? && g == Grouping(files[..i])
    ensures g' == Grouping(files[..i + 1])
  {
    GroupingStep(files, i);
    g' := AddToGroups(g, GroupedKey(files[i].name).value, files[i]);
  }

  /** The checks of one loop iteration: the key is parsed, the framework
      level is pushed onto, and the benchmark level decides whether the
      bucket is one `Object.entries` lists. */
  method PlaceFile(name: string) returns (p: Placement)
    ensures p == PlacementOf(name)
  {
    var key := KeyOf(name);
    if key.None? {
      return Rejected(InvalidFilename);
    }
    if key.value.framework in InheritedKeys {
      return Rejected(PushNotAFunction);
    }
    if key.value.benchmark in InheritedKeys {
      return Dropped;
    }
    return Grouped(key.value);
  }

  /** `groupFiles`: the grouping of `files`, or the error of the first file
      the loop throws on. Files whose benchmark names an inherited property
      are not grouped and raise no error. */
  method GroupFiles(files: seq<InputFile>) returns (r: Result<Groups, string>)
    ensures r.Failure? <==> exists i :: 0 <= i < |files| && PlacementOf(files[i].name).Rejected?
    ensures r.Failure? ==>
      exists i :: 0 <= i < |files| && PlacementOf(files[i].name) == Rejected(r.error)
        && forall j :: 0 <= j < i ==> !PlacementOf(files[j].name).Rejected?
    ensures r.Success? ==> GroupsOf(files, r.value)
  {
    var g := Groups(map[], [], map[]);
    for i := 0 to |files|
      invariant forall j :: 0 <= j < i ==> !PlacementOf(files[j].name).Rejected?
      invariant g == Grouping(files[..i])
    {
      var p := PlaceFile(files[i].name);
      match p
      case Rejected(error) =>
        return Failure(error);
      case Dropped =>
        GroupingSkip(files, i);
      case Grouped(_) =>
        g := AddNextFile(g, files, i);
    }
    assert files[..|files|] == files;
    GroupingIsGroupsOf(files);
    return Success(g);
  }
}
