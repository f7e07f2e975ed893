/**
 * The fan-out executor behind every Pipe: the input list is cut into
 * contiguous chunks, one runner maps its chunk item by item (an item whose
 * invocation throws produces nothing), and the runners' results are joined
 * in the order the runners were created. Threads are run one after another
 * here; each runner only touches its own chunk and result list.
 */
module ProcessRunners {
  import opened Wrappers

  /** Division of naturals by repeated subtraction: the largest q with Start(q, b) <= a (see QuotientBounds). */
  function Quotient(a: nat, b: nat): nat
    requires b >= 1
    decreases a
  {
    if a < b then 0 else 1 + Quotient(a - b, b)
  }

  /** Java `/` on int: truncation toward zero. */
  function JavaDiv(a: int, b: int): (q: int)
    requires b != 0
  {
    var m := Quotient(if a < 0 then -a else a, if b < 0 then -b else b);
    if (a < 0) != (b < 0) then -(m as int) else m
  }

  /**
   * The chunk length: `data.size() / threadNumber`, raised to 1 when that is
   * not positive. For a positive worker count it is the floor quotient: the
   * largest size with size * threadNumber <= n (Start(k, b) is k * b, StartMul).
   */
  function ChunkSize(n: nat, threadNumber: int): (size: nat)
    requires threadNumber != 0
    ensures size >= 1
    ensures threadNumber > 0 && n >= threadNumber ==>
      Start(size, threadNumber) <= n < Start(size, threadNumber) + threadNumber
    ensures threadNumber < 0 || n < threadNumber ==> size == 1
  {
    var threadCount := JavaDiv(n, threadNumber);
    QuotientBounds(n, if threadNumber < 0 then -threadNumber else threadNumber);
    if threadCount > 0 then threadCount else 1
  }

  /** What one invocation contributes: its result, or nothing when it threw. */
  function Outcome<T>(f: T -> Option<T>, x: T): seq<T>
  {
    match f(x)
    case Some(y) => [y]
    case None => []
  }

  /** The results of mapping f over xs in order, dropping items whose call throws. */
  function Survivors<T>(f: T -> Option<T>, xs: seq<T>): seq<T>
  {
    if xs == [] then [] else Survivors(f, xs[..|xs| - 1]) + Outcome(f, xs[|xs| - 1])
  }

  /** Number of items of xs whose invocation throws. */
  function Failures<T>(f: T -> Option<T>, xs: seq<T>): nat
  {
    if xs == [] then 0 else Failures(f, xs[..|xs| - 1]) + (if f(xs[|xs| - 1]).None? then 1 else 0)
  }

  lemma {:induction false} SurvivorsAppend<T>(f: T -> Option<T>, xs: seq<T>, ys: seq<T>)
    ensures Survivors(f, xs + ys) == Survivors(f, xs) + Survivors(f, ys)
    decreases |ys|
  {
    if ys == [] {
      assert xs + ys == xs;
    } else {
      var zs := ys[..|ys| - 1];
      assert (xs + ys)[..|xs + ys| - 1] == xs + zs;
      assert (xs + ys)[|xs + ys| - 1] == ys[|ys| - 1];
      SurvivorsAppend(f, xs, zs);
      assert Survivors(f, ys) == Survivors(f, zs) + Outcome(f, ys[|ys| - 1]);
      calc {
        Survivors(f, xs + ys);
        Survivors(f, xs + zs) + Outcome(f, ys[|ys| - 1]);
        Survivors(f, xs) + Survivors(f, zs) + Outcome(f, ys[|ys| - 1]);
        Survivors(f, xs) + Survivors(f, ys);
      }
    }
  }

  /** The output is as long as the input minus the items that threw. */
  lemma {:induction false} SurvivorsLength<T>(f: T -> Option<T>, xs: seq<T>)
    ensures |Survivors(f, xs)| + Failures(f, xs) == |xs|
  {
    if xs != [] {
      SurvivorsLength(f, xs[..|xs| - 1]);
    }
  }

  /** When no invocation throws, the output is f applied to every item, in order. */
  lemma {:induction false} SurvivorsTotal<T>(f: T -> Option<T>, xs: seq<T>)
    requires forall i :: 0 <= i < |xs| ==> f(xs[i]).Some?
    ensures |Survivors(f, xs)| == |xs|
    ensures forall i :: 0 <= i < |xs| ==> Survivors(f, xs)[i] == f(xs[i]).value
  {
    if xs != [] {
      SurvivorsTotal(f, xs[..|xs| - 1]);
    }
  }

  /** The list cut into consecutive pieces of `size` items; only the last may be shorter. */
  function Partition<T>(data: seq<T>, size: nat): (chunks: seq<seq<T>>)
    requires size >= 1
    decreases |data|
  {
    if data == [] then []
    else if |data| <= size then [data]
    else [data[..size]] + Partition(data[size..], size)
  }

  function Flatten<T>(xss: seq<seq<T>>): seq<T>
  {
    if xss == [] then [] else xss[0] + Flatten(xss[1..])
  }

  function Min(a: int, b: int): int
  {
    if a <= b then a else b
  }

  /** The chunks partition the input: concatenated they give it back. */
  lemma {:induction false} PartitionFlatten<T>(data: seq<T>, size: nat)
    requires size >= 1
    ensures Flatten(Partition(data, size)) == data
    decreases |data|
  {
    if |data| > size {
      PartitionFlatten(data[size..], size);
      assert data == data[..size] + data[size..];
    }
  }

  /** There is a chunk with index k exactly when Start(k, size) is a position of the input. */
  lemma {:induction false} PartitionCount<T>(data: seq<T>, size: nat, k: nat)
    requires size >= 1
    ensures k < |Partition(data, size)| <==> Start(k, size) < |data|
    decreases |data|
  {
    if |data| > size && k > 0 {
      PartitionCount(data[size..], size, k - 1);
    }
  }

  /** Chunk k holds the items with index k*size up to (k+1)*size. */
  lemma {:induction false} PartitionIndex<T>(data: seq<T>, size: nat, k: nat)
    requires size >= 1 && k < |Partition(data, size)|
    ensures Start(k, size) < |data|
    ensures Partition(data, size)[k] == data[Start(k, size)..Min(|data|, Start(k, size) + size)]
    decreases |data|
  {
    PartitionCount(data, size, k);
    if k > 0 {
      PartitionIndex(data[size..], size, k - 1);
    }
  }

  /** Every chunk but the last has exactly `size` items; the last has between 1 and size. */
  lemma {:induction false} PartitionSizes<T>(data: seq<T>, size: nat, k: nat)
    requires size >= 1 && k < |Partition(data, size)|
    ensures k + 1 < |Partition(data, size)| ==> |Partition(data, size)[k]| == size
    ensures 1 <= |Partition(data, size)[k]| <= size
  {
    PartitionIndex(data, size, k);
    PartitionCount(data, size, k + 1);
  }

  /** The item at index i lands in chunk i / size (Quotient), at position i - Start of that chunk. */
  lemma {:induction false} ItemPlacement<T>(data: seq<T>, size: nat, i: nat)
    requires size >= 1 && i < |data|
    ensures Quotient(i, size) < |Partition(data, size)|
    ensures 0 <= i - Start(Quotient(i, size), size) < |Partition(data, size)[Quotient(i, size)]|
    ensures Partition(data, size)[Quotient(i, size)][i - Start(Quotient(i, size), size)] == data[i]
  {
    var k := Quotient(i, size);
    QuotientBounds(i, size);
    PartitionCount(data, size, k);
    PartitionIndex(data, size, k);
  }

  /** Ten items over three workers run in chunks of 3, 3, 3 and 1. */
  lemma {:induction false} TenOverThree(data: seq<int>)
    requires |data| == 10
    ensures ChunkSize(|data|, 3) == 3
    ensures |Partition(data, 3)| == 4
    ensures |Partition(data, 3)[0]| == 3 && |Partition(data, 3)[1]| == 3
    ensures |Partition(data, 3)[2]| == 3 && |Partition(data, 3)[3]| == 1
  {
    assert Partition(data[9..], 3) == [data[9..]];
    assert Partition(data[6..][3..], 3) == [data[9..]] by {
      assert data[6..][3..] == data[9..];
    }
    assert Partition(data[3..][3..], 3) == [data[6..][..3]] + [data[9..]] by {
      assert data[3..][3..] == data[6..];
    }
  }

  /** Index of the first item of chunk k: k * size, unfolded one step at a time. */
  function Start(k: nat, size: nat): nat
  {
    if k == 0 then 0 else Start(k - 1, size) + size
  }

  lemma {:induction false} StartMul(k: nat, size: nat)
    ensures Start(k, size) == k * size
  {
    if k > 0 {
      StartMul(k - 1, size);
    }
  }

  /** Quotient(a, b) names the chunk holding position a. */
  lemma {:induction false} QuotientBounds(a: nat, b: nat)
    requires b >= 1
    ensures Start(Quotient(a, b), b) <= a < Start(Quotient(a, b), b) + b
    decreases a
  {
    if a >= b {
      QuotientBounds(a - b, b);
      assert Start(Quotient(a, b), b) == Start(Quotient(a - b, b), b) + b;
    }
  }

  /** Later chunks start at least one chunk length further on. */
  lemma {:induction false} StartMono(j: nat, k: nat, b: nat)
    requires j < k
    ensures Start(j, b) + b <= Start(k, b)
    decreases k
  {
    if j < k - 1 {
      StartMono(j, k - 1, b);
    }
  }

  /** Position a belongs to exactly one chunk. */
  lemma {:induction false} QuotientUnique(a: nat, b: nat, k: nat)
    requires b >= 1 && Start(k, b) <= a < Start(k, b) + b
    ensures Quotient(a, b) == k
  {
    var q := Quotient(a, b);
    QuotientBounds(a, b);
    if q < k {
      StartMono(q, k, b);
    } else if q > k {
      StartMono(k, q, b);
    }
  }

  /** One runner: maps its own chunk and keeps the results in order. */
  class ProcessRunner<T> {
    const dataSegment: seq<T>
    const transform: T -> Option<T>
    var updatedSegment: seq<T>

    constructor(dataSegment: seq<T>, transform: T -> Option<T>)
      ensures this.dataSegment == dataSegment && this.transform == transform
      ensures updatedSegment == []
    {
      this.dataSegment := dataSegment;
      this.transform := transform;
      updatedSegment := [];
    }

    function GetResults(): seq<T>
      reads this
    {
      updatedSegment
    }

    /** The thread body: appends every successful invocation's result. */
    method Run()
      modifies this
      ensures updatedSegment == old(updatedSegment) + Survivors(transform, dataSegment)
    {
      var i := 0;
      while i < |dataSegment|
        invariant 0 <= i <= |dataSegment|
        invariant updatedSegment == old(updatedSegment) + Survivors(transform, dataSegment[..i])
      {
        var item := dataSegment[i];
        assert dataSegment[..i + 1][..i] == dataSegment[..i];
        match transform(item) {
          case Some(result) =>
            updatedSegment := updatedSegment + [result];
          case None =>
        }
        i := i + 1;
      }
      assert dataSegment[..i] == dataSegment;
    }

    /**
     * `executeProcess`: group the items by `index / chunkSize`, start one
     * runner per group in ascending group order, then join them in creation
     * order and concatenate their results.
     */
    static method ExecuteProcess(data: seq<T>, transform: T -> Option<T>, threadNumber: int)
      returns (updated: seq<T>, ghost segments: seq<seq<T>>)
      requires threadNumber != 0
      ensures segments == Partition(data, ChunkSize(|data|, threadNumber))
      ensures updated == Flatten(SurvivorsEach(transform, segments))
      ensures updated == Survivors(transform, data)
    {
      var threadCount := JavaDiv(|data|, threadNumber);
      var threadAmount: nat := if threadCount > 0 then threadCount else 1;
      ghost var chunks := Partition(data, threadAmount);
      var split := GroupByIndex(data, threadAmount);
      GroupedChunks(split, data, threadAmount);

      var threads := StartRunners(split, chunks, transform);
      updated := JoinRunners(threads, chunks, transform);
      segments := chunks;
      FlattenSurvivors(transform, chunks);
      PartitionFlatten(data, threadAmount);
    }

    /** One runner per group, created and run in ascending group order. */
    static method StartRunners(split: map<nat, seq<T>>, ghost chunks: seq<seq<T>>, transform: T -> Option<T>)
      returns (threads: seq<ProcessRunner<T>>)
      requires forall k: nat :: k in split <==> k < |chunks|
      requires forall k: nat :: k in split ==> split[k] == chunks[k]
      ensures |threads| == |chunks|
      ensures forall j :: 0 <= j < |threads| ==> threads[j].updatedSegment == Survivors(transform, chunks[j])
    {
      threads := [];
      var key: nat := 0;
      while key in split
        invariant key <= |chunks|
        invariant |threads| == key
        invariant forall j :: 0 <= j < key ==> threads[j].updatedSegment == Survivors(transform, chunks[j])
        decreases |chunks| - key
      {
        var processRunner := new ProcessRunner(split[key], transform);
        processRunner.Run();
        threads := threads + [processRunner];
        key := key + 1;
      }
    }

    /** Join the runners in creation order and concatenate their results. */
    static method JoinRunners(threads: seq<ProcessRunner<T>>, ghost chunks: seq<seq<T>>, transform: T -> Option<T>)
      returns (updated: seq<T>)
      requires |threads| == |chunks|
      requires forall j :: 0 <= j < |threads| ==> threads[j].updatedSegment == Survivors(transform, chunks[j])
      ensures updated == Flatten(SurvivorsEach(transform, chunks))
    {
      updated := [];
      var i := 0;
      while i < |threads|
        invariant 0 <= i <= |threads|
        invariant updated == Flatten(SurvivorsEach(transform, chunks[..i]))
      {
        assert chunks[..i + 1][..i] == chunks[..i];
        FlattenSnoc(SurvivorsEach(transform, chunks[..i + 1]));
        updated := updated + threads[i].GetResults();
        i := i + 1;
      }
      assert chunks[..i] == chunks;
    }

    /** `groupingBy(counter++ / size)`: group k holds the items with index k*size up to (k+1)*size. */
    static method GroupByIndex(data: seq<T>, size: nat) returns (split: map<nat, seq<T>>)
      requires size >= 1
      ensures Grouped(split, data, size, |data|)
    {
      split := map[];
      var counter := 0;
      while counter < |data|
        invariant 0 <= counter <= |data|
        invariant Grouped(split, data, size, counter)
      {
        var key: nat := Quotient(counter, size);
        GroupStep(split, data, size, counter, key);
        split := split[key := (if key in split then split[key] else []) + [data[counter]]];
        counter := counter + 1;
      }
    }
  }

  /** The first `upTo` items grouped by `index / size`: group k is the slice starting at k * size. */
  ghost predicate Grouped<T>(split: map<nat, seq<T>>, data: seq<T>, size: nat, upTo: nat)
    requires size >= 1 && upTo <= |data|
  {
    (forall k: nat {:trigger k in split} :: k in split <==> Start(k, size) < upTo) &&
    (forall k: nat :: GroupOk(split, data, size, upTo, k))
  }

  /** Group k, when present, starts before `upTo` and is the slice from its start up to `upTo` or its full length. */
  ghost predicate GroupOk<T>(split: map<nat, seq<T>>, data: seq<T>, size: nat, upTo: nat, k: nat)
    requires size >= 1 && upTo <= |data|
  {
    k in split ==> Start(k, size) < upTo && split[k] == data[Start(k, size)..Min(upTo, Start(k, size) + size)]
  }

  /** Once every item is placed, the groups are exactly the chunks of the partition. */
  lemma {:induction false} GroupedChunks<T>(split: map<nat, seq<T>>, data: seq<T>, size: nat)
    requires size >= 1 && Grouped(split, data, size, |data|)
    ensures forall k: nat :: k in split <==> k < |Partition(data, size)|
    ensures forall k: nat :: k in split ==> split[k] == Partition(data, size)[k]
  {
    forall k: nat
      ensures k in split <==> k < |Partition(data, size)|
      ensures k in split ==> split[k] == Partition(data, size)[k]
    {
      PartitionCount(data, size, k);
      if k < |Partition(data, size)| {
        PartitionIndex(data, size, k);
        assert GroupOk(split, data, size, |data|, k);
      }
    }
  }

  /** Each chunk's results, chunk by chunk. */
  function SurvivorsEach<T>(f: T -> Option<T>, xss: seq<seq<T>>): (r: seq<seq<T>>)
    ensures |r| == |xss|
  {
    if xss == [] then [] else SurvivorsEach(f, xss[..|xss| - 1]) + [Survivors(f, xss[|xss| - 1])]
  }

  /** Adding item `counter` to group counter / size keeps every group a contiguous slice. */
  lemma {:induction false} GroupStep<T>(split: map<nat, seq<T>>, data: seq<T>, size: nat, counter: nat, key: nat)
    requires size >= 1 && counter < |data| && key == Quotient(counter, size)
    requires Grouped(split, data, size, counter)
    ensures Grouped(split[key := (if key in split then split[key] else []) + [data[counter]]], data, size, counter + 1)
  {
    var split' := split[key := (if key in split then split[key] else []) + [data[counter]]];
    GroupStepKeys(split, data, size, counter, key, split');
    GroupStepSlices(split, data, size, counter, key, split', counter + 1);
  }

  /** After the step, the groups are those starting before `counter + 1`. */
  lemma {:induction false} GroupStepKeys<T>(split: map<nat, seq<T>>, data: seq<T>, size: nat, counter: nat, key: nat, split': map<nat, seq<T>>)
    requires size >= 1 && counter < |data| && key == Quotient(counter, size)
    requires forall k: nat {:trigger k in split} :: k in split <==> Start(k, size) < counter
    requires split'.Keys == split.Keys + {key}
    ensures forall k: nat {:trigger k in split'} :: k in split' <==> Start(k, size) < counter + 1
  {
    forall k: nat
      ensures k in split' <==> Start(k, size) < counter + 1
    {
      GroupKey(size, counter, key, k);
    }
  }

  /** After the step, every group is the slice from its start up to `counter + 1`. */
  lemma {:induction false} GroupStepSlices<T>(split: map<nat, seq<T>>, data: seq<T>, size: nat, counter: nat, key: nat,
                                              split': map<nat, seq<T>>, upTo: nat)
    requires size >= 1 && counter < |data| && key == Quotient(counter, size) && upTo == counter + 1
    requires Grouped(split, data, size, counter)
    requires split' == split[key := (if key in split then split[key] else []) + [data[counter]]]
    ensures forall k: nat :: GroupOk(split', data, size, upTo, k)
  {
    forall k: nat
      ensures GroupOk(split', data, size, upTo, k)
    {
      assert GroupOk(split, data, size, counter, k);
      var before := if k in split then split[k] else [];
      if k in split' {
        GroupStepSliceAt(data, size, counter, key, k, k in split, before, split'[k]);
      }
    }
  }

  /**
   * One group after the step: the group item `counter` joins grows by that
   * item; every other group is already complete and stays as it is.
   */
  lemma {:induction false} GroupStepSliceAt<T>(data: seq<T>, size: nat, counter: nat, key: nat, k: nat,
                                               present: bool, before: seq<T>, after: seq<T>)
    requires size >= 1 && counter < |data| && key == Quotient(counter, size)
    requires present ==> Start(k, size) < counter && before == data[Start(k, size)..Min(counter, Start(k, size) + size)]
    requires !present ==> counter <= Start(k, size) && before == []
    requires k != key ==> present && after == before
    requires k == key ==> after == before + [data[counter]]
    ensures Start(k, size) < counter + 1 && after == data[Start(k, size)..Min(counter + 1, Start(k, size) + size)]
  {
    GroupKey(size, counter, key, k);
    if k == key {
      GroupHead(data, size, counter, Start(key, size), before);
      assert Min(counter + 1, Start(key, size) + size) == counter + 1;
    } else {
      ClosedGroupSlice(data, size, counter, key, k);
    }
  }

  /** A group other than the one item `counter` joins is already complete, so its slice does not grow. */
  lemma {:induction false} ClosedGroupSlice<T>(data: seq<T>, size: nat, counter: nat, key: nat, k: nat)
    requires size >= 1 && counter < |data| && key == Quotient(counter, size) && k != key && Start(k, size) < counter
    ensures Min(counter + 1, Start(k, size) + size) == Min(counter, Start(k, size) + size)
  {
    OtherGroupClosed(size, counter, key, k);
  }

  /** The group item `counter` joins is the slice from its start up to `counter`. */
  lemma GroupHead<T>(data: seq<T>, size: nat, counter: nat, start: nat, group: seq<T>)
    requires counter < |data| && start <= counter < start + size
    requires group == [] ==> start == counter
    requires group != [] ==> group == data[start..Min(counter, start + size)]
    ensures group + [data[counter]] == data[start..counter + 1]
  {
    if group != [] {
      assert Min(counter, start + size) == counter;
    }
    assert data[start..counter + 1] == data[start..counter] + [data[counter]];
  }

  lemma {:induction false} GroupKey(size: nat, counter: nat, key: nat, k: nat)
    requires size >= 1 && key == Quotient(counter, size)
    ensures Start(k, size) < counter + 1 <==> Start(k, size) < counter || k == key
    ensures Start(key, size) <= counter < Start(key, size) + size
  {
    QuotientBounds(counter, size);
    if Start(k, size) == counter {
      QuotientUnique(counter, size, k);
    }
  }

  lemma {:induction false} OtherGroupClosed(size: nat, counter: nat, key: nat, k: nat)
    requires size >= 1 && key == Quotient(counter, size) && k != key && Start(k, size) < counter
    ensures Start(k, size) + size <= counter
  {
    QuotientBounds(counter, size);
    if k < key {
      StartMono(k, key, size);
    } else {
      StartMono(key, k, size);
    }
  }

  lemma {:induction false} FlattenSnoc<T>(xss: seq<seq<T>>)
    requires xss != []
    ensures Flatten(xss) == Flatten(xss[..|xss| - 1]) + xss[|xss| - 1]
  {
    if |xss| > 1 {
      FlattenSnoc(xss[1..]);
      assert xss[1..][..|xss[1..]| - 1] == xss[..|xss| - 1][1..];
    }
  }

  lemma {:induction false} FlattenSurvivors<T>(f: T -> Option<T>, xss: seq<seq<T>>)
    ensures Flatten(SurvivorsEach(f, xss)) == Survivors(f, Flatten(xss))
  {
    if xss != [] {
      var init := xss[..|xss| - 1];
      FlattenSurvivors(f, init);
      FlattenSnoc(xss);
      FlattenSnoc(SurvivorsEach(f, xss));
      assert SurvivorsEach(f, xss)[..|xss| - 1] == SurvivorsEach(f, init);
      SurvivorsAppend(f, Flatten(init), xss[|xss| - 1]);
    }
  }
}
