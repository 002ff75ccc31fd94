/** The entry point's scheduling (src/index.ts): the grouped captures become
    one worker task per (benchmark, framework) bucket, and up to `threads`
    tasks are taken from the end of the task list to start the workers. */
module Index {
  import opened Wrappers
  import opened FileHelpers
  import opened Worker

  /** The tasks of benchmark `b`, one per framework of `fs`, each carrying
      its bucket's files. */
  function BenchmarkTasks(g: Groups, b: string, fs: seq<string>): (ts: seq<WorkerInputData>)
    requires b in g.buckets && forall f :: f in fs ==> f in g.buckets[b]
    ensures |ts| == |fs|
  {
    seq(|fs|, j requires 0 <= j < |fs| => WorkerInputData(b, fs[j], g.buckets[b][fs[j]]))
  }

  /** The tasks of the benchmarks `bs`, benchmark by benchmark, each in its
      frameworks' insertion order. */
  function Tasks(g: Groups, bs: seq<string>): seq<WorkerInputData>
    requires g.WellFormed() && forall b :: b in bs ==> b in g.buckets
  {
    if |bs| == 0 then []
    else
      var b := bs[|bs| - 1];
      Tasks(g, bs[..|bs| - 1]) + BenchmarkTasks(g, b, g.frameworkOrder[b])
  }

  /** The task list the creation loops build for `g`. */
  function TasksOf(g: Groups): seq<WorkerInputData>
    requires g.WellFormed()
  {
    Tasks(g, g.benchmarkOrder)
  }

  /** The task creation loops: for every benchmark in insertion order, for
      every framework of it in insertion order, one task with that bucket's
      file list. (`Object.entries` would list integer-like keys first.) */
  method CreateTasks(g: Groups) returns (tasks: seq<WorkerInputData>)
    requires g.WellFormed()
    ensures tasks == TasksOf(g)
  {
    tasks := [];
    for i := 0 to |g.benchmarkOrder|
      invariant tasks == Tasks(g, g.benchmarkOrder[..i])
    {
      var benchmark := g.benchmarkOrder[i];
      var frameworks := g.frameworkOrder[benchmark];
      ghost var before := tasks;
      for j := 0 to |frameworks|
        invariant tasks == before + BenchmarkTasks(g, benchmark, frameworks[..j])
      {
        var framework := frameworks[j];
        tasks := tasks + [WorkerInputData(benchmark, framework, g.buckets[benchmark][framework])];
      }
      assert frameworks[..|frameworks|] == frameworks;
      assert g.benchmarkOrder[..i + 1][..i] == g.benchmarkOrder[..i];
    }
    assert g.benchmarkOrder[..|g.benchmarkOrder|] == g.benchmarkOrder;
  }

  /** A task is in the list exactly when it names a bucket of `bs` and
      carries that bucket's files unchanged. */
  lemma {:induction false} TasksMembers(g: Groups, bs: seq<string>, t: WorkerInputData)
    requires g.WellFormed() && forall b :: b in bs ==> b in g.buckets
    ensures t in Tasks(g, bs) <==>
      t.benchmark in bs && t.framework in g.buckets[t.benchmark] && t.files == g.buckets[t.benchmark][t.framework]
    decreases |bs|
  {
    if |bs| > 0 {
      var init := bs[..|bs| - 1];
      var b := bs[|bs| - 1];
      TasksMembers(g, init, t);
      assert bs == init + [b];
      var block := BenchmarkTasks(g, b, g.frameworkOrder[b]);
      if t.benchmark == b && t.framework in g.buckets[b] && t.files == g.buckets[b][t.framework] {
        var j :| 0 <= j < |g.frameworkOrder[b]| && g.frameworkOrder[b][j] == t.framework;
        assert block[j] == t;
      }
    }
  }

  /** There is one task per bucket of the grouping, carrying that bucket's
      file list unchanged, and no other task. */
  lemma OneTaskPerBucket(g: Groups, t: WorkerInputData)
    requires g.WellFormed()
    ensures t in TasksOf(g) <==>
      t.benchmark in g.buckets && t.framework in g.buckets[t.benchmark] && t.files == g.buckets[t.benchmark][t.framework]
  {
    TasksMembers(g, g.benchmarkOrder, t);
  }

  /** The bucket a task is for. */
  function TaskKey(t: WorkerInputData): GroupKey
  {
    GroupKey(t.benchmark, t.framework)
  }

  /** The buckets of the tasks, in task order. */
  function TaskKeys(tasks: seq<WorkerInputData>): (ks: seq<GroupKey>)
    ensures |ks| == |tasks|
  {
    seq(|tasks|, i requires 0 <= i < |tasks| => TaskKey(tasks[i]))
  }

  /** The key orders of a grouping hold no repetitions. */
  predicate DistinctOrders(g: Groups)
  {
    && (forall i, j :: 0 <= i < j < |g.benchmarkOrder| ==> g.benchmarkOrder[i] != g.benchmarkOrder[j])
    && (forall b | b in g.buckets && b in g.frameworkOrder ::
          forall i, j :: 0 <= i < j < |g.frameworkOrder[b]| ==> g.frameworkOrder[b][i] != g.frameworkOrder[b][j])
  }

  /** Every task of benchmarks `bs` is for one of them. */
  lemma {:induction false} TasksBenchmarks(g: Groups, bs: seq<string>)
    requires g.WellFormed() && forall b :: b in bs ==> b in g.buckets
    ensures forall i :: 0 <= i < |Tasks(g, bs)| ==> Tasks(g, bs)[i].benchmark in bs
    decreases |bs|
  {
    if |bs| > 0 {
      var init := bs[..|bs| - 1];
      TasksBenchmarks(g, init);
      assert forall b :: b in init ==> b in bs;
    }
  }

  /** Distinct benchmarks with distinct frameworks give tasks for distinct
      buckets. */
  lemma {:induction false} TasksDistinct(g: Groups, bs: seq<string>)
    requires g.WellFormed() && DistinctOrders(g) && forall b :: b in bs ==> b in g.buckets
    requires forall i, j :: 0 <= i < j < |bs| ==> bs[i] != bs[j]
    ensures forall i, j :: 0 <= i < j < |Tasks(g, bs)| ==> TaskKey(Tasks(g, bs)[i]) != TaskKey(Tasks(g, bs)[j])
    decreases |bs|
  {
    if |bs| > 0 {
      var init := bs[..|bs| - 1];
      var b := bs[|bs| - 1];
      TasksDistinct(g, init);
      TasksBenchmarks(g, init);
      var before := Tasks(g, init);
      var block := BenchmarkTasks(g, b, g.frameworkOrder[b]);
      assert b !in init;
      forall i, j | 0 <= i < j < |before + block|
        ensures TaskKey((before + block)[i]) != TaskKey((before + block)[j])
      {
        if i < |before| && j >= |before| {
          assert (before + block)[j].benchmark == b;
          assert (before + block)[i].benchmark in init;
        }
      }
    }
  }

  /** A grouping of files has distinct key orders. */
  lemma GroupsOfDistinct(files: seq<InputFile>, g: Groups)
    requires GroupsOf(files, g)
    ensures DistinctOrders(g)
  {
    DedupDistinct(Benchmarks(files));
    forall b | b in g.buckets && b in g.frameworkOrder
      ensures forall i, j :: 0 <= i < j < |g.frameworkOrder[b]| ==> g.frameworkOrder[b][i] != g.frameworkOrder[b][j]
    {
      DedupDistinct(Frameworks(files, b));
    }
  }

  /** The number of files the tasks carry together. */
  function FileCount(tasks: seq<WorkerInputData>): nat
  {
    if |tasks| == 0 then 0 else FileCount(tasks[..|tasks| - 1]) + |tasks[|tasks| - 1].files|
  }

  /** When every task carries the bucket of its key, the files they carry
      number the summed bucket sizes of their keys. */
  lemma {:induction false} FileCountIsBucketSizes(files: seq<InputFile>, tasks: seq<WorkerInputData>)
    requires forall i :: 0 <= i < |tasks| ==> tasks[i].files == Bucket(files, TaskKey(tasks[i]))
    ensures FileCount(tasks) == BucketSizes(files, TaskKeys(tasks))
    decreases |tasks|
  {
    if |tasks| > 0 {
      var init := tasks[..|tasks| - 1];
      FileCountIsBucketSizes(files, init);
      assert TaskKeys(tasks)[..|tasks| - 1] == TaskKeys(init);
    }
  }

  /** Every grouped file travels in exactly one task: the tasks of a
      grouping carry as many files as were grouped. */
  lemma TasksCarryEveryFile(files: seq<InputFile>, g: Groups)
    requires GroupsOf(files, g)
    ensures FileCount(TasksOf(g)) == GroupedCount(files)
  {
    var tasks := TasksOf(g);
    var ks := TaskKeys(tasks);
    forall i | 0 <= i < |tasks|
      ensures tasks[i].files == Bucket(files, TaskKey(tasks[i]))
    {
      OneTaskPerBucket(g, tasks[i]);
    }
    FileCountIsBucketSizes(files, tasks);
    GroupsOfDistinct(files, g);
    DedupDistinct(Benchmarks(files));
    TasksDistinct(g, g.benchmarkOrder);
    TaskKeysCoverFiles(files, g);
    BucketSizesTotal(files, ks);
  }

  /** The key of every grouped file is the key of some task. */
  lemma TaskKeysCoverFiles(files: seq<InputFile>, g: Groups)
    requires GroupsOf(files, g)
    ensures forall i :: 0 <= i < |files| && GroupedKey(files[i].name).Some? ==>
      GroupedKey(files[i].name).value in TaskKeys(TasksOf(g))
  {
    var tasks := TasksOf(g);
    var ks := TaskKeys(tasks);
    forall i | 0 <= i < |files| && GroupedKey(files[i].name).Some?
      ensures GroupedKey(files[i].name).value in ks
    {
      var k := GroupedKey(files[i].name).value;
      FileInOneBucket(files, g, files[i]);
      var t := WorkerInputData(k.benchmark, k.framework, g.buckets[k.benchmark][k.framework]);
      OneTaskPerBucket(g, t);
      var j :| 0 <= j < |tasks| && tasks[j] == t;
      assert ks[j] == k;
    }
  }

  /** A file that is not grouped (its benchmark names an inherited
      property) is carried by no task. */
  lemma DroppedFileHasNoTask(files: seq<InputFile>, g: Groups, x: InputFile)
    requires GroupsOf(files, g) && GroupedKey(x.name).None?
    ensures forall i :: 0 <= i < |TasksOf(g)| ==> x !in TasksOf(g)[i].files
  {
    var tasks := TasksOf(g);
    DroppedFileInNoBucket(files, g, x);
    forall i | 0 <= i < |tasks|
      ensures x !in tasks[i].files
    {
      OneTaskPerBucket(g, tasks[i]);
    }
  }

  /** The buckets of a grouping. */
  function BucketKeys(g: Groups): set<GroupKey>
  {
    set b, f | b in g.buckets && f in g.buckets[b] :: GroupKey(b, f)
  }

  /** A list without repetitions has as many elements as its set. */
  lemma {:induction false} DistinctCard(ks: seq<GroupKey>)
    requires forall i, j :: 0 <= i < j < |ks| ==> ks[i] != ks[j]
    ensures |set i | 0 <= i < |ks| :: ks[i]| == |ks|
    decreases |ks|
  {
    if |ks| > 0 {
      var init := ks[..|ks| - 1];
      DistinctCard(init);
      var before := set i | 0 <= i < |init| :: init[i];
      var all := set i | 0 <= i < |ks| :: ks[i];
      assert all == before + {ks[|ks| - 1]};
      assert ks[|ks| - 1] !in before;
    }
  }

  /** The keys of the tasks are exactly the buckets. */
  lemma TaskKeySet(g: Groups)
    requires g.WellFormed()
    ensures (set i | 0 <= i < |TaskKeys(TasksOf(g))| :: TaskKeys(TasksOf(g))[i]) == BucketKeys(g)
  {
    var tasks := TasksOf(g);
    var ks := TaskKeys(tasks);
    var keys := set i | 0 <= i < |ks| :: ks[i];
    forall k | k in keys ensures k in BucketKeys(g) {
      var i :| 0 <= i < |ks| && ks[i] == k;
      OneTaskPerBucket(g, tasks[i]);
    }
    forall k | k in BucketKeys(g) ensures k in keys {
      var t := WorkerInputData(k.benchmark, k.framework, g.buckets[k.benchmark][k.framework]);
      OneTaskPerBucket(g, t);
      var j :| 0 <= j < |tasks| && tasks[j] == t;
      assert ks[j] == k;
    }
  }

  /** There are exactly as many tasks as buckets. */
  lemma TaskCountIsBucketCount(files: seq<InputFile>, g: Groups)
    requires GroupsOf(files, g)
    ensures |TasksOf(g)| == |BucketKeys(g)|
  {
    GroupsOfDistinct(files, g);
    DedupDistinct(Benchmarks(files));
    TasksDistinct(g, g.benchmarkOrder);
    DistinctCard(TaskKeys(TasksOf(g)));
    TaskKeySet(g);
  }

  /** `Number.parseInt` of the thread option: an integer, or NaN when the
      text does not start with one. */
  datatype ParsedInt = Int(n: int) | NaN

  /** How many times the hand-out loop may run: `i < threads` never holds
      for NaN or a non-positive count. */
  function LoopBound(threads: ParsedInt): (k: nat)
    ensures threads.NaN? ==> k == 0
    ensures threads.Int? ==> k as int == if threads.n < 0 then 0 else threads.n
  {
    if threads.NaN? || threads.n < 0 then 0 else threads.n
  }

  /** The loop bound is exactly JavaScript's `i < threads` for a loop
      counter `i`: a comparison with NaN is false. */
  lemma LoopBoundIsComparison(threads: ParsedInt, i: nat)
    ensures i < LoopBound(threads) <==> threads.Int? && i < threads.n
  {
  }

  /** The initial hand-out: up to `threads` times, pop the last task and
      start a worker with it, stopping once the list is empty. `started`
      lists the tasks in the order the workers were started; `queue` is
      what is left for the workers to take from. */
  method StartWorkers(tasks: seq<WorkerInputData>, threads: ParsedInt)
    returns (started: seq<WorkerInputData>, queue: seq<WorkerInputData>)
    ensures |started| == if LoopBound(threads) < |tasks| then LoopBound(threads) else |tasks|
    ensures queue == tasks[..|tasks| - |started|]
    ensures forall k :: 0 <= k < |started| ==> started[k] == tasks[|tasks| - 1 - k]
    ensures multiset(started) + multiset(queue) == multiset(tasks)
  {
    queue := tasks;
    started := [];
    var i := 0;
    while i < LoopBound(threads)
      invariant 0 <= i <= LoopBound(threads)
      invariant |started| == i <= |tasks|
      invariant queue == tasks[..|tasks| - i]
      invariant forall k :: 0 <= k < i ==> started[k] == tasks[|tasks| - 1 - k]
      invariant multiset(started) + multiset(queue) == multiset(tasks)
    {
      if |queue| == 0 {
        break;
      }
      var task := queue[|queue| - 1];
      assert queue == queue[..|queue| - 1] + [task];
      queue := queue[..|queue| - 1];
      started := started + [task];
      i := i + 1;
    }
  }
}
