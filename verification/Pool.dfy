/** Dispatcher.Send: deduplication, chunks and the bounded worker pool. The goroutines and
    the two buffered channels are a step system; every interleaving is a sequence of steps. */
module Pool {
  import opened Push
  import opened Dispatcher

  // ---- Deduplication and chunks -----------------------------------------------------

  predicate HasKey(targets: seq<Target>, key: string) {
    exists i :: 0 <= i < |targets| && Key(targets[i]) == key
  }

  // The first target of every address, in input order.
  function Unique(targets: seq<Target>): (r: seq<Target>)
    ensures forall t :: t in r ==> t in targets
  {
    if targets == [] then []
    else
      var n := |targets| - 1;
      Unique(targets[..n]) + (if HasKey(targets[..n], Key(targets[n])) then [] else [targets[n]])
  }

  method Deduplicate(targets: seq<Target>) returns (unique: Option<seq<Target>>)
    ensures unique == if AllValid(targets) then Some(Unique(targets)) else None
    ensures unique.None? <==>
            exists t :: t in targets && (t.address == "" || (t.targetType != Fid && t.targetType != Token))
  {
    hide Key;
    var seen: set<string> := {};
    var kept: seq<Target> := [];
    for i := 0 to |targets|
      invariant AllValid(targets[..i])
      invariant seen == Keys(targets[..i]) && kept == Unique(targets[..i])
    {
      assert targets[..i + 1] == targets[..i] + [targets[i]];
      if !targets[i].Valid() {
        assert targets[i] in targets;
        return None;
      }
      var key := Key(targets[i]);
      assert key in seen <==> HasKey(targets[..i], key) by { KeysMeanHasKey(targets[..i], key); }
      if key !in seen {
        kept := kept + [targets[i]];
      }
      seen := seen + {key};
    }
    assert targets[..|targets|] == targets;
    return Some(kept);
  }

  lemma KeysMeanHasKey(targets: seq<Target>, key: string)
    ensures key in Keys(targets) <==> HasKey(targets, key)
  {
  }

  lemma KeysSnoc(targets: seq<Target>, t: Target)
    ensures Keys(targets + [t]) == Keys(targets) + {Key(t)}
  {
  }

  // One target per address: none lost, none doubled, none moved past another.
  lemma {:induction false} UniqueIsDistinct(targets: seq<Target>)
    ensures DistinctKeys(Unique(targets))
    ensures Keys(Unique(targets)) == Keys(targets)
    ensures DistinctKeys(targets) ==> Unique(targets) == targets
  {
    hide Key, Unique, DistinctKeys, HasKey, Keys;
    UniqueStep(targets);
    if targets != [] {
      var n := |targets| - 1;
      UniqueIsDistinct(targets[..n]);
      KeysSnoc(targets[..n], targets[n]);
      KeysSnoc(Unique(targets[..n]), targets[n]);
      KeysMeanHasKey(targets[..n], Key(targets[n]));
      assert targets == targets[..n] + [targets[n]];
      DistinctSnoc(Unique(targets[..n]), targets[n]);
      DistinctSnoc(targets[..n], targets[n]);
    } else {
      assert Unique(targets) == targets;
    }
  }

  // Kept are the first targets of their addresses, in input order.
  lemma {:induction false} UniqueKeepsFirst(targets: seq<Target>, i: nat, j: nat) returns (at: nat, bt: nat)
    requires i < j < |Unique(targets)|
    ensures at < bt < |targets| && Unique(targets)[i] == targets[at] && Unique(targets)[j] == targets[bt]
    ensures (forall k :: 0 <= k < at ==> Key(targets[k]) != Key(targets[at]))
            && forall k :: 0 <= k < bt ==> Key(targets[k]) != Key(targets[bt])
  {
    hide Key;
    var n := |targets| - 1;
    var before := Unique(targets[..n]);
    if j < |before| {
      at, bt := UniqueKeepsFirst(targets[..n], i, j);
    } else {
      bt := n;
      at := FirstPlace(targets[..n], i);
    }
  }

  lemma {:induction false} FirstPlace(targets: seq<Target>, i: nat) returns (at: nat)
    requires i < |Unique(targets)|
    ensures at < |targets| && Unique(targets)[i] == targets[at]
    ensures forall k :: 0 <= k < at ==> Key(targets[k]) != Key(targets[at])
  {
    hide Key;
    var n := |targets| - 1;
    if i < |Unique(targets[..n])| {
      at := FirstPlace(targets[..n], i);
    } else {
      at := n;
    }
  }

  lemma UniqueStep(targets: seq<Target>)
    ensures targets == [] ==> Unique(targets) == [] && DistinctKeys([])
    ensures targets != [] ==>
              var n := |targets| - 1;
              Unique(targets) ==
              if HasKey(targets[..n], Key(targets[n])) then Unique(targets[..n])
              else Unique(targets[..n]) + [targets[n]]
  {
  }

  lemma DistinctSnoc(targets: seq<Target>, t: Target)
    ensures DistinctKeys(targets + [t]) <==> DistinctKeys(targets) && Key(t) !in Keys(targets)
  {
    hide Key;
    var all := targets + [t];
    if DistinctKeys(all) {
      forall i, j | 0 <= i < j < |targets| ensures Key(targets[i]) != Key(targets[j]) {
        assert all[i] == targets[i] && all[j] == targets[j];
      }
      forall s | s in targets ensures Key(s) != Key(t) {
        var i :| 0 <= i < |targets| && targets[i] == s;
        assert all[i] == s && all[|targets|] == t;
      }
    }
    if DistinctKeys(targets) && Key(t) !in Keys(targets) {
      forall i, j | 0 <= i < j < |all| ensures Key(all[i]) != Key(all[j]) {
        if j == |targets| { assert targets[i] in targets; }
      }
    }
  }

  ghost function Concat<T>(parts: seq<seq<T>>): seq<T> {
    if parts == [] then [] else Concat(parts[..|parts| - 1]) + parts[|parts| - 1]
  }

  // Pieces of the given size, and a last one with what remains.
  function Chunks(targets: seq<Target>, size: nat): seq<seq<Target>>
    requires size > 0
  {
    if targets == [] then []
    else if |targets| <= size then [targets]
    else [targets[..size]] + Chunks(targets[size..], size)
  }

  method Chunk(targets: seq<Target>, size: nat) returns (chunks: seq<seq<Target>>)
    requires size > 0
    ensures chunks == Chunks(targets, size)
    ensures Concat(chunks) == targets
    ensures forall i :: 0 <= i < |chunks| ==> 0 < |chunks[i]| <= size
    ensures forall i :: 0 <= i < |chunks| - 1 ==> |chunks[i]| == size
  {
    hide Chunks, Concat;
    chunks := [];
    var start := 0;
    assert targets[0..] == targets;
    while start < |targets|
      invariant 0 <= start <= |targets| && chunks + Chunks(targets[start..], size) == Chunks(targets, size)
    {
      var end := if start + size > |targets| then |targets| else start + size;
      NextChunk(targets, size, start, end);
      chunks := chunks + [targets[start..end]];
      start := end;
    }
    NoChunks(targets, size, start);
    ChunksPartition(targets, size);
  }

  lemma NextChunk(targets: seq<Target>, size: nat, start: nat, end: nat)
    requires size > 0 && start < |targets| && end == if start + size > |targets| then |targets| else start + size
    ensures Chunks(targets[start..], size) == [targets[start..end]] + Chunks(targets[end..], size)
  {
    var rest := targets[start..];
    assert rest[..end - start] == targets[start..end] && rest[end - start..] == targets[end..];
    if |rest| <= size {
      assert rest == targets[start..end];
    }
  }

  lemma NoChunks(targets: seq<Target>, size: nat, start: nat)
    requires size > 0 && start == |targets|
    ensures Chunks(targets[start..], size) == []
  {
  }

  lemma {:induction false} ChunksPartition(targets: seq<Target>, size: nat)
    requires size > 0
    ensures var chunks := Chunks(targets, size);
            && Concat(chunks) == targets
            && (forall i :: 0 <= i < |chunks| ==> 0 < |chunks[i]| <= size)
            && (forall i :: 0 <= i < |chunks| - 1 ==> |chunks[i]| == size)
  {
    if |targets| > size {
      ChunksPartition(targets[size..], size);
      ConcatCons(targets[..size], Chunks(targets[size..], size));
      assert targets == targets[..size] + targets[size..];
    } else if targets != [] {
      ConcatCons(targets, []);
    }
  }

  lemma {:induction false} ConcatCons<T>(head: seq<T>, tail: seq<seq<T>>)
    ensures Concat([head] + tail) == head + Concat(tail)
  {
    var all := [head] + tail;
    if tail == [] {
      assert all[..0] == [] && Concat(all) == Concat(all[..0]) + head;
    } else {
      var n := |tail| - 1;
      assert all[..n + 1] == [head] + tail[..n];
      ConcatCons(head, tail[..n]);
    }
  }

  lemma {:induction false} ChunkHolds(targets: seq<Target>, i: nat)
    requires i < |targets|
    ensures var chunks := Chunks(targets, MAX_BATCH_TARGETS); i / 500 < |chunks| && targets[i] in chunks[i / 500]
    decreases |targets|
  {
    if |targets| > MAX_BATCH_TARGETS {
      if i < 500 {
        assert targets[..500][i] == targets[i];
      } else {
        ChunkHolds(targets[500..], i - 500);
        assert targets[500..][i - 500] == targets[i] && (i - 500) / 500 == i / 500 - 1;
      }
    }
  }

  // The chunks before a full one take up size places each.
  lemma {:induction false} FullBefore(chunks: seq<seq<Target>>, c: nat)
    requires c < |chunks| && forall k :: 0 <= k < |chunks| - 1 ==> |chunks[k]| == MAX_BATCH_TARGETS
    ensures |Concat(chunks[..c])| == 500 * c
  {
    if c > 0 {
      FullBefore(chunks, c - 1);
      assert chunks[..c][..c - 1] == chunks[..c - 1];
    }
  }

  lemma {:induction false} ChunkDistinct(chunks: seq<seq<Target>>, i: nat)
    requires i < |chunks| && DistinctKeys(Concat(chunks)) && AllValid(Concat(chunks))
    ensures DistinctKeys(chunks[i]) && AllValid(chunks[i])
    decreases |chunks|
  {
    hide Key;
    var n := |chunks| - 1;
    var head := Concat(chunks[..n]);
    assert Concat(chunks) == head + chunks[n];
    if i < n {
      forall a, b | 0 <= a < b < |head| ensures Key(head[a]) != Key(head[b]) {
        assert Concat(chunks)[a] == head[a] && Concat(chunks)[b] == head[b];
      }
      assert forall t :: t in head ==> t in Concat(chunks);
      ChunkDistinct(chunks[..n], i);
    } else {
      forall a, b | 0 <= a < b < |chunks[n]| ensures Key(chunks[n][a]) != Key(chunks[n][b]) {
        assert Concat(chunks)[|head| + a] == chunks[n][a] && Concat(chunks)[|head| + b] == chunks[n][b];
      }
      assert forall t :: t in chunks[n] ==> t in Concat(chunks);
    }
  }

  // ---- The worker pool ------------------------------------------------------------------

  function WorkerCount(concurrency: int, batches: nat): nat {
    var c := if concurrency <= 0 then 1
             else if concurrency > MAX_BATCH_CONCURRENCY then MAX_BATCH_CONCURRENCY else concurrency;
    if c > batches then batches else c
  }

  // The least of what was asked for, four, and the number of batches; one by default.
  lemma WorkersAre(concurrency: int, batches: nat)
    ensures var w := WorkerCount(concurrency, batches);
            var asked := if concurrency <= 0 then 1 else concurrency;
            && w <= asked && w <= 4 && w <= batches && (w == asked || w == 4 || w == batches)
  {
  }

  datatype Goroutine = Idle | Busy(index: nat) | Exited

  // sent batches have entered the jobs channel; outcomes is the other channel; ordered is
  // what the collecting loop has stored. run(i) is what sending batch i yields.
  datatype State<!O> = State(sent: nat, closed: bool, jobs: seq<nat>, workers: seq<Goroutine>, outcomes: seq<(nat, O)>,
                             ordered: map<nat, O>)

  datatype Step = Enqueue | Close | Take(w: nat) | Exit(w: nat) | Deliver(w: nat) | Collect

  function Init<O>(workers: nat): State<O> {
    State(0, false, [], seq(workers, i => Idle), [], map[])
  }

  ghost predicate Enabled<O>(n: nat, s: State<O>, step: Step) {
    match step
    case Enqueue => s.sent < n && |s.jobs| < n
    case Close => s.sent == n && !s.closed
    case Take(w) => w < |s.workers| && s.workers[w].Idle? && s.jobs != []
    case Exit(w) => w < |s.workers| && s.workers[w].Idle? && s.jobs == [] && s.closed
    case Deliver(w) => w < |s.workers| && s.workers[w].Busy? && |s.outcomes| < n
    case Collect => s.closed && s.outcomes != []
  }

  ghost function Apply<O>(n: nat, run: nat -> O, s: State<O>, step: Step): State<O>
    requires Enabled(n, s, step)
  {
    match step
    case Enqueue => s.(jobs := s.jobs + [s.sent], sent := s.sent + 1)
    case Close => s.(closed := true)
    case Take(w) => s.(jobs := s.jobs[1..], workers := s.workers[w := Busy(s.jobs[0])])
    case Exit(w) => s.(workers := s.workers[w := Exited])
    case Deliver(w) =>
      var i := s.workers[w].index;
      s.(outcomes := s.outcomes + [(i, run(i))], workers := s.workers[w := Idle])
    case Collect => s.(ordered := s.ordered[s.outcomes[0].0 := s.outcomes[0].1], outcomes := s.outcomes[1..])
  }

  ghost predicate ValidRun<O>(n: nat, run: nat -> O, s: State<O>, steps: seq<Step>)
    decreases steps
  {
    steps == [] || (Enabled(n, s, steps[0]) && ValidRun(n, run, Apply(n, run, s, steps[0]), steps[1..]))
  }

  ghost function Exec<O>(n: nat, run: nat -> O, s: State<O>, steps: seq<Step>): State<O>
    requires ValidRun(n, run, s, steps)
    decreases steps
  {
    if steps == [] then s else Exec(n, run, Apply(n, run, s, steps[0]), steps[1..])
  }

  // ---- Where each batch is -------------------------------------------------------------------

  ghost function InFlight(g: Goroutine): multiset<nat> {
    if g.Busy? then multiset{g.index} else multiset{}
  }

  ghost function BusyIndices(workers: seq<Goroutine>): multiset<nat> {
    if workers == [] then multiset{}
    else BusyIndices(workers[..|workers| - 1]) + InFlight(workers[|workers| - 1])
  }

  ghost function Indices<O>(outcomes: seq<(nat, O)>): seq<nat> {
    seq(|outcomes|, i requires 0 <= i < |outcomes| => outcomes[i].0)
  }

  ghost function FirstN(n: nat): (r: set<nat>)
    ensures forall i: nat :: i in r <==> i < n
    ensures |r| == n
  {
    if n == 0 then {} else FirstN(n - 1) + {n - 1}
  }

  // Every sent batch is in exactly one place: waiting, being sent, delivered or stored.
  ghost predicate Inv<O>(n: nat, run: nat -> O, s: State<O>) {
    && s.sent <= n && (s.closed ==> s.sent == n)
    && multiset(s.jobs) + BusyIndices(s.workers) + multiset(Indices(s.outcomes)) + multiset(s.ordered.Keys)
         == multiset(FirstN(s.sent))
    && (forall i :: 0 <= i < |s.outcomes| ==> s.outcomes[i].1 == run(s.outcomes[i].0))
    && (forall i :: i in s.ordered ==> s.ordered[i] == run(i))
    && (!s.closed ==> forall w :: 0 <= w < |s.workers| ==> !s.workers[w].Exited?)
    && (forall w :: 0 <= w < |s.workers| && s.workers[w].Exited? ==> s.jobs == [])
  }

  lemma SwapSum(a: multiset<nat>, x: multiset<nat>, b: multiset<nat>, y: multiset<nat>, z: multiset<nat>)
    requires a + x == b + y
    ensures (a + z) + x == (b + z) + y
  {
    assert (a + z) + x == (a + x) + z;
    assert (b + z) + y == (b + y) + z;
  }

  lemma SumSizes(a: multiset<nat>, x: multiset<nat>, b: multiset<nat>, y: multiset<nat>)
    requires a + x == b + y
    ensures |a| + |x| == |b| + |y|
  {
    assert |a + x| == |b + y|;
  }

  lemma {:induction false} BusyUpdate(workers: seq<Goroutine>, w: nat, g: Goroutine)
    requires w < |workers|
    ensures BusyIndices(workers[w := g]) + InFlight(workers[w]) == BusyIndices(workers) + InFlight(g)
    ensures |BusyIndices(workers[w := g])| + |InFlight(workers[w])| == |BusyIndices(workers)| + |InFlight(g)|
  {
    hide InFlight;
    var n := |workers| - 1;
    var next := workers[w := g];
    if w < n {
      BusyUpdate(workers[..n], w, g);
      assert next[..n] == workers[..n][w := g];
      SwapSum(BusyIndices(workers[..n][w := g]), InFlight(workers[w]), BusyIndices(workers[..n]), InFlight(g),
              InFlight(workers[n]));
    } else {
      assert next[..n] == workers[..n];
      assert BusyIndices(workers[..n]) + InFlight(g) + InFlight(workers[n])
               == BusyIndices(workers[..n]) + InFlight(workers[n]) + InFlight(g);
    }
    SumSizes(BusyIndices(next), InFlight(workers[w]), BusyIndices(workers), InFlight(g));
  }

  lemma {:induction false} NoneBusy(workers: seq<Goroutine>)
    requires forall w :: 0 <= w < |workers| ==> !workers[w].Busy?
    ensures BusyIndices(workers) == multiset{}
  {
    if workers != [] {
      NoneBusy(workers[..|workers| - 1]);
    }
  }

  lemma {:induction false} BusyBound(workers: seq<Goroutine>)
    ensures |BusyIndices(workers)| <= |workers|
    ensures (exists w :: 0 <= w < |workers| && workers[w].Busy?) ==> |BusyIndices(workers)| > 0
  {
    if workers != [] {
      var n := |workers| - 1;
      BusyBound(workers[..n]);
      if exists w :: 0 <= w < |workers| && workers[w].Busy? {
        var w :| 0 <= w < |workers| && workers[w].Busy?;
        assert w < n ==> workers[..n][w].Busy?;
      }
    }
  }

  lemma IndicesSnoc<O>(outcomes: seq<(nat, O)>, o: (nat, O))
    ensures multiset(Indices(outcomes + [o])) == multiset(Indices(outcomes)) + multiset{o.0}
  {
    assert Indices(outcomes + [o]) == Indices(outcomes) + [o.0];
  }

  lemma IndicesHead<O>(outcomes: seq<(nat, O)>)
    requires outcomes != []
    ensures multiset(Indices(outcomes)) == multiset(Indices(outcomes[1..])) + multiset{outcomes[0].0}
  {
    assert Indices(outcomes) == [outcomes[0].0] + Indices(outcomes[1..]);
  }

  lemma InvEnqueue<O>(n: nat, run: nat -> O, s: State<O>)
    requires Inv(n, run, s) && Enabled(n, s, Enqueue)
    ensures Inv(n, run, Apply(n, run, s, Enqueue))
  {
    hide BusyIndices, Indices, FirstN;
    FirstNStep(s.sent);
    MoveIn(multiset(s.jobs), multiset(s.jobs + [s.sent]), BusyIndices(s.workers), multiset(Indices(s.outcomes)),
           multiset(s.ordered.Keys), s.sent);
  }

  lemma FirstNStep(n: nat)
    ensures multiset(FirstN(n + 1)) == multiset(FirstN(n)) + multiset{n}
  {
  }

  lemma MoveIn(a: multiset<nat>, a': multiset<nat>, b: multiset<nat>, c: multiset<nat>, d: multiset<nat>, i: nat)
    requires a' == a + multiset{i}
    ensures a' + b + c + d == a + b + c + d + multiset{i}
  {
  }

  lemma InvTake<O>(n: nat, run: nat -> O, s: State<O>, w: nat)
    requires Inv(n, run, s) && Enabled(n, s, Take(w))
    ensures Inv(n, run, Apply(n, run, s, Take(w)))
  {
    hide BusyIndices, Indices, FirstN;
    var j := s.jobs[0];
    BusyUpdate(s.workers, w, Busy(j));
    assert s.jobs == [j] + s.jobs[1..];
    assert BusyIndices(s.workers[w := Busy(j)]) == BusyIndices(s.workers) + multiset{j};
    assert multiset(s.jobs) == multiset(s.jobs[1..]) + multiset{j};
    MoveOne(multiset(s.jobs), BusyIndices(s.workers), multiset(s.jobs[1..]), BusyIndices(s.workers[w := Busy(j)]), j);
  }

  lemma MoveOne(a: multiset<nat>, b: multiset<nat>, a': multiset<nat>, b': multiset<nat>, i: nat)
    requires a == a' + multiset{i} && b' == b + multiset{i}
    ensures a + b == a' + b'
  {
  }

  lemma InvDeliver<O>(n: nat, run: nat -> O, s: State<O>, w: nat)
    requires Inv(n, run, s) && Enabled(n, s, Deliver(w))
    ensures Inv(n, run, Apply(n, run, s, Deliver(w)))
  {
    hide BusyIndices, Indices, FirstN;
    var i := s.workers[w].index;
    BusyUpdate(s.workers, w, Idle);
    IndicesSnoc(s.outcomes, (i, run(i)));
    assert BusyIndices(s.workers) == BusyIndices(s.workers[w := Idle]) + multiset{i};
    MoveOne(BusyIndices(s.workers), multiset(Indices(s.outcomes)),
            BusyIndices(s.workers[w := Idle]), multiset(Indices(s.outcomes + [(i, run(i))])), i);
    RegroupThree(multiset(s.jobs), BusyIndices(s.workers), multiset(Indices(s.outcomes)),
                 BusyIndices(s.workers[w := Idle]), multiset(Indices(s.outcomes + [(i, run(i))])));
  }

  lemma RegroupThree(a: multiset<nat>, b: multiset<nat>, c: multiset<nat>, b': multiset<nat>, c': multiset<nat>)
    requires b + c == b' + c'
    ensures a + b + c == a + b' + c'
  {
    assert a + b + c == a + (b + c);
    assert a + b' + c' == a + (b' + c');
  }

  // Moving the first outcome into the results leaves every batch in exactly one place.
  lemma CollectSum<O>(others: multiset<nat>, outcomes: seq<(nat, O)>, keys: set<nat>, all: multiset<nat>)
    requires outcomes != [] && others + multiset(Indices(outcomes)) + multiset(keys) == all && all[outcomes[0].0] <= 1
    ensures var i := outcomes[0].0;
            i !in keys && others + multiset(Indices(outcomes[1..])) + multiset(keys + {i}) == all
  {
    hide Indices;
    var i := outcomes[0].0;
    IndicesHead(outcomes);
    var before, after := multiset(Indices(outcomes)), multiset(Indices(outcomes[1..]));
    assert multiset(keys)[i] == 0 by { assert all[i] == others[i] + before[i] + multiset(keys)[i]; }
    assert multiset(keys + {i}) == multiset(keys) + multiset{i};
    MoveOne(before, multiset(keys), after, multiset(keys + {i}), i);
    RegroupThree(others, before, multiset(keys), after, multiset(keys + {i}));
  }

  lemma InvCollect<O>(n: nat, run: nat -> O, s: State<O>)
    requires Inv(n, run, s) && Enabled(n, s, Collect)
    ensures Inv(n, run, Apply(n, run, s, Collect))
    ensures s.outcomes[0].0 !in s.ordered
  {
    hide BusyIndices, Indices, FirstN;
    var i := s.outcomes[0].0;
    assert multiset(FirstN(s.sent))[i] <= 1;
    CollectSum(multiset(s.jobs) + BusyIndices(s.workers), s.outcomes, s.ordered.Keys, multiset(FirstN(s.sent)));
    assert s.ordered[i := s.outcomes[0].1].Keys == s.ordered.Keys + {i};
  }

  lemma InvStep<O>(n: nat, run: nat -> O, s: State<O>, step: Step)
    requires Inv(n, run, s) && Enabled(n, s, step)
    ensures Inv(n, run, Apply(n, run, s, step))
  {
    hide BusyIndices, Indices, FirstN;
    match step
    case Enqueue => InvEnqueue(n, run, s);
    case Close =>
    case Take(w) => InvTake(n, run, s, w);
    case Exit(w) =>
      BusyUpdate(s.workers, w, Exited);
      var now, before := BusyIndices(s.workers[w := Exited]), BusyIndices(s.workers);
      assert InFlight(Exited) == InFlight(s.workers[w]) == multiset{};
      assert now == now + multiset{} && before == before + multiset{};
    case Deliver(w) => InvDeliver(n, run, s, w);
    case Collect => InvCollect(n, run, s);
  }

  lemma InvSizes<O>(n: nat, run: nat -> O, s: State<O>)
    requires Inv(n, run, s)
    ensures |s.jobs| + |BusyIndices(s.workers)| + |s.outcomes| + |s.ordered| == s.sent <= n
  {
    assert |multiset(s.jobs) + BusyIndices(s.workers) + multiset(Indices(s.outcomes)) + multiset(s.ordered.Keys)|
             == s.sent;
  }

  // ---- Progress ---------------------------------------------------------------------------------

  ghost function Alive(workers: seq<Goroutine>): nat {
    if workers == [] then 0
    else Alive(workers[..|workers| - 1]) + (if workers[|workers| - 1].Exited? then 0 else 1)
  }

  lemma {:induction false} AliveUpdate(workers: seq<Goroutine>, w: nat, g: Goroutine)
    requires w < |workers|
    ensures Alive(workers[w := g]) + (if workers[w].Exited? then 0 else 1)
              == Alive(workers) + (if g.Exited? then 0 else 1)
  {
    var n := |workers| - 1;
    if w < n {
      AliveUpdate(workers[..n], w, g);
      assert workers[w := g][..n] == workers[..n][w := g];
    } else {
      assert workers[w := g][..n] == workers[..n];
    }
  }

  // Each batch passes four stages; closing and every exit happen once.
  ghost function Remaining<O>(n: nat, s: State<O>): int {
    4 * (n - s.sent) + 3 * |s.jobs| + 2 * |BusyIndices(s.workers)| + |s.outcomes| + (if s.closed then 0 else 1)
      + Alive(s.workers)
  }

  lemma StepConsumes<O>(n: nat, run: nat -> O, s: State<O>, step: Step)
    requires Inv(n, run, s) && Enabled(n, s, step)
    ensures Remaining(n, Apply(n, run, s, step)) == Remaining(n, s) - 1
  {
    hide BusyIndices, Alive, Inv, Indices;
    match step
    case Enqueue =>
    case Close =>
    case Take(w) =>
      BusyUpdate(s.workers, w, Busy(s.jobs[0]));
      AliveUpdate(s.workers, w, Busy(s.jobs[0]));
    case Exit(w) =>
      BusyUpdate(s.workers, w, Exited);
      AliveUpdate(s.workers, w, Exited);
    case Deliver(w) =>
      BusyUpdate(s.workers, w, Idle);
      AliveUpdate(s.workers, w, Idle);
    case Collect =>
  }

  ghost predicate Finished<O>(n: nat, s: State<O>) {
    |s.ordered| == n && s.closed && forall w :: 0 <= w < |s.workers| ==> s.workers[w].Exited?
  }

  // As long as a batch is missing or a goroutine is alive, some step can be taken.
  lemma NoDeadlock<O>(n: nat, run: nat -> O, s: State<O>)
    requires Inv(n, run, s) && !Finished(n, s) && (n > 0 ==> |s.workers| > 0)
    ensures exists step :: Enabled(n, s, step)
  {
    InvSizes(n, run, s);
    BusyBound(s.workers);
    if s.sent < n {
      assert Enabled(n, s, Enqueue);
    } else if !s.closed {
      assert Enabled(n, s, Close);
    } else if s.outcomes != [] {
      assert Enabled(n, s, Collect);
    } else if w :| 0 <= w < |s.workers| && s.workers[w].Busy? {
      assert Enabled(n, s, Deliver(w));
    } else if w :| 0 <= w < |s.workers| && s.workers[w].Idle? {
      assert Enabled(n, s, Take(w)) || Enabled(n, s, Exit(w));
    } else {
      AllExitedFinished(n, run, s);
    }
  }

  lemma AllExitedFinished<O>(n: nat, run: nat -> O, s: State<O>)
    requires Inv(n, run, s) && s.sent == n && s.closed && s.outcomes == [] && (n > 0 ==> |s.workers| > 0)
    requires forall w :: 0 <= w < |s.workers| ==> s.workers[w].Exited?
    ensures Finished(n, s)
  {
    InvSizes(n, run, s);
    NoneBusy(s.workers);
    assert n > 0 ==> s.workers[0].Exited?;
  }

  lemma InitInv<O>(n: nat, run: nat -> O, workers: nat)
    ensures Inv(n, run, Init<O>(workers)) && Remaining(n, Init<O>(workers)) == 4 * n + 1 + workers
    ensures |Init<O>(workers).workers| == workers
  {
    NoneBusy(Init<O>(workers).workers);
    AllAlive(Init<O>(workers).workers);
    assert FirstN(0) == {};
  }

  lemma {:induction false} AllAlive(workers: seq<Goroutine>)
    requires forall w :: 0 <= w < |workers| ==> workers[w].Idle?
    ensures Alive(workers) == |workers|
  {
    if workers != [] {
      AllAlive(workers[..|workers| - 1]);
    }
  }

  lemma {:induction false} RunKeepsInv<O>(n: nat, run: nat -> O, s: State<O>, steps: seq<Step>)
    requires Inv(n, run, s) && ValidRun(n, run, s, steps)
    ensures Inv(n, run, Exec(n, run, s, steps))
    ensures |Exec(n, run, s, steps).workers| == |s.workers|
    ensures Remaining(n, Exec(n, run, s, steps)) == Remaining(n, s) - |steps|
    decreases steps
  {
    hide Inv, Remaining;
    if steps != [] {
      InvStep(n, run, s, steps[0]);
      StepConsumes(n, run, s, steps[0]);
      RunKeepsInv(n, run, Apply(n, run, s, steps[0]), steps[1..]);
    }
  }

  // Any interleaving: at most four batches in flight, at most 4n + 1 + workers steps, and
  // when nothing can move any more the stored outcomes are those of the n batches.
  lemma EveryInterleaving<O>(n: nat, run: nat -> O, concurrency: int, steps: seq<Step>)
    requires ValidRun(n, run, Init<O>(WorkerCount(concurrency, n)), steps)
    ensures var s := Exec(n, run, Init<O>(WorkerCount(concurrency, n)), steps);
            && |BusyIndices(s.workers)| <= WorkerCount(concurrency, n) <= MAX_BATCH_CONCURRENCY
            && |steps| <= 4 * n + 1 + WorkerCount(concurrency, n)
            && ((forall step :: !Enabled(n, s, step)) ==> Finished(n, s))
            && (Finished(n, s) ==> s.ordered == map i | 0 <= i < n :: run(i))
  {
    hide Inv, Exec, Init, Finished, BusyIndices, Remaining, ValidRun, Enabled, Alive;
    var workers := WorkerCount(concurrency, n);
    var s := Exec(n, run, Init<O>(workers), steps);
    InitInv(n, run, workers);
    RunKeepsInv(n, run, Init<O>(workers), steps);
    BusyBound(s.workers);
    RemainingNatural(n, run, s);
    if forall step :: !Enabled(n, s, step) {
      if !Finished(n, s) {
        NoDeadlock(n, run, s);
      }
    }
    if Finished(n, s) {
      FinishedOrdered(n, run, s);
    }
  }

  lemma RemainingNatural<O>(n: nat, run: nat -> O, s: State<O>)
    requires Inv(n, run, s)
    ensures Remaining(n, s) >= 0
  {
  }

  lemma FinishedOrdered<O>(n: nat, run: nat -> O, s: State<O>)
    requires Inv(n, run, s) && Finished(n, s)
    ensures s.ordered == map i | 0 <= i < n :: run(i)
  {
    hide BusyIndices, Indices;
    InvSizes(n, run, s);
    forall i | i in s.ordered.Keys ensures i in FirstN(n) {
      assert multiset(s.ordered.Keys)[i] == 1;
      assert multiset(FirstN(n))[i] >= 1;
    }
    SubsetOfEqualSize(s.ordered.Keys, FirstN(n));
  }

  lemma SubsetOfEqualSize<T>(a: set<T>, b: set<T>)
    requires a <= b && |a| == |b|
    ensures a == b
  {
    assert |b - a| == |b| - |a|;
  }

  // ---- Send -------------------------------------------------------------------------------------

  datatype Outcome = Outcome(result: BatchResult, err: Option<BatchError>)

  datatype SendResult = Rejected | Sent(result: BatchResult, errors: seq<BatchError>)

  // What a batch owes its caller: one result per target, in order, counted, and an error
  // exactly when some result is unresolved.
  ghost predicate AnswersBatch(targets: seq<Target>, o: Outcome) {
    && |o.result.results| == |targets|
    && (forall i :: 0 <= i < |targets| ==> o.result.results[i].target == targets[i])
    && (forall r :: r in o.result.results ==> r.code == NoError ==> r.err.None?)
    && o.result.successCount == SuccessCount(o.result.results)
    && o.result.successCount + o.result.failureCount == |targets|
    && (o.err.Some? <==> exists r :: r in o.result.results && UnresolvedCode(r.code))
    && (o.err.Some? <==> exists r :: r in o.result.results
                           && (r.code == Transient || r.code == RateLimited || r.code == Unknown))
  }

  lemma {:induction false} UnresolvedCountExists(results: seq<TargetResult>)
    ensures UnresolvedCount(results) > 0 <==> exists r :: r in results && UnresolvedCode(r.code)
  {
    if results != [] {
      var n := |results| - 1;
      UnresolvedCountExists(results[..n]);
      assert results == results[..n] + [results[n]];
    }
  }

  // The order in which the collecting loop adds the batches up.
  function Combine(outcomes: seq<Outcome>): SendResult {
    if outcomes == [] then Sent(BatchResult([], 0, 0), [])
    else
      var n := |outcomes| - 1;
      var before := Combine(outcomes[..n]);
      var o := outcomes[n];
      if before.Rejected? then before
      else Sent(BatchResult(before.result.results + o.result.results,
                            before.result.successCount + o.result.successCount,
                            before.result.failureCount + o.result.failureCount),
                before.errors + (if o.err.Some? then [o.err.value] else []))
  }

  ghost predicate AnswersAll(targets: seq<Target>, r: SendResult) {
    && r.Sent?
    && |r.result.results| == |targets|
    && (forall i :: 0 <= i < |targets| ==> r.result.results[i].target == targets[i])
    && (forall x :: x in r.result.results ==> x.code == NoError ==> x.err.None?)
    && r.result.successCount == SuccessCount(r.result.results)
    && r.result.successCount + r.result.failureCount == |targets|
    && (r.errors != [] <==> exists x :: x in r.result.results && UnresolvedCode(x.code))
    && (r.errors != [] <==> exists x :: x in r.result.results
                              && (x.code == Transient || x.code == RateLimited || x.code == Unknown))
  }

  lemma {:induction false} SuccessCountConcat(a: seq<TargetResult>, b: seq<TargetResult>)
    ensures SuccessCount(a + b) == SuccessCount(a) + SuccessCount(b)
  {
    if b == [] {
      assert a + b == a;
    } else {
      var n := |b| - 1;
      assert (a + b)[..|a| + n] == a + b[..n];
      SuccessCountConcat(a, b[..n]);
    }
  }

  lemma {:induction false} CombineAnswers(chunks: seq<seq<Target>>, outcomes: seq<Outcome>)
    requires |chunks| == |outcomes| && forall i :: 0 <= i < |chunks| ==> AnswersBatch(chunks[i], outcomes[i])
    ensures AnswersAll(Concat(chunks), Combine(outcomes))
  {
    if chunks != [] {
      var n := |chunks| - 1;
      CombineAnswers(chunks[..n], outcomes[..n]);
      var before := Combine(outcomes[..n]).result.results;
      SuccessCountConcat(before, outcomes[n].result.results);
      assert AnswersBatch(chunks[n], outcomes[n]);
      JoinAnswers(Concat(chunks[..n]), chunks[n], Combine(outcomes[..n]), outcomes[n], Combine(outcomes));
    }
  }

  lemma JoinAnswers(a: seq<Target>, b: seq<Target>, before: SendResult, o: Outcome, r: SendResult)
    requires AnswersAll(a, before) && AnswersBatch(b, o) && r.Sent?
    requires r.result.results == before.result.results + o.result.results
    requires r.result.successCount == before.result.successCount + o.result.successCount
    requires r.result.successCount == SuccessCount(r.result.results)
    requires r.result.failureCount == before.result.failureCount + o.result.failureCount
    requires r.errors == before.errors + (if o.err.Some? then [o.err.value] else [])
    ensures AnswersAll(a + b, r)
  {
  }

  // Each target is answered by the retry loop of the batch at its own place.
  ghost predicate AnswersInPlace(providers: nat -> Provider, max: nat, targets: seq<Target>, results: seq<TargetResult>)
    requires max >= 1
  {
    var chunks := Chunks(targets, MAX_BATCH_TARGETS);
    |results| == |targets|
    && forall i :: 0 <= i < |targets| ==>
         i / 500 < |chunks|
         && Some(results[i]) == FinalOf(Rounds(providers(i / 500), max, 1, chunks[i / 500]), targets[i])
  }

  // The outcomes of the batches of a call, in order; the provider of each batch is its own.
  ghost predicate OutcomesOf(providers: nat -> Provider, max: nat, chunks: seq<seq<Target>>, outcomes: seq<Outcome>)
    requires max >= 1
  {
    |outcomes| == |chunks|
    && forall c :: 0 <= c < |chunks| ==>
         AnswersBatch(chunks[c], outcomes[c]) && AnsweredByRetryLoop(providers(c), max, chunks[c], outcomes[c])
  }

  // The chunks sent one by one, in order: what every complete interleaving yields.
  method Send(providers: nat -> Provider, max: nat, targets: seq<Target>) returns (r: SendResult)
    requires max >= 1
    ensures !AllValid(targets) ==> r == Rejected
    ensures AllValid(targets) ==>
              AnswersAll(Unique(targets), r) && AnswersInPlace(providers, max, Unique(targets), r.result.results)
  {
    hide Key, Keys, Rounds, FinalOf, SuccessCount, UnresolvedCount, Unique, Concat, DistinctKeys, HasKey, Chunks,
         Combine;
    var unique := Deduplicate(targets);
    if unique.None? {
      return Rejected;
    }
    UniqueIsDistinct(targets);
    var chunks := Chunk(unique.value, MAX_BATCH_TARGETS);
    var outcomes := SendChunks(providers, max, chunks);
    CombinedInPlace(providers, max, unique.value, outcomes);
    r := Combine(outcomes);
  }

  lemma CombinedInPlace(providers: nat -> Provider, max: nat, targets: seq<Target>, outcomes: seq<Outcome>)
    requires max >= 1 && OutcomesOf(providers, max, Chunks(targets, MAX_BATCH_TARGETS), outcomes)
    ensures AnswersAll(targets, Combine(outcomes))
            && AnswersInPlace(providers, max, targets, Combine(outcomes).result.results)
  {
    hide Rounds, FinalOf, Chunks, Concat, Combine, AnswersBatch, AnswersAll, SuccessCount;
    var chunks := Chunks(targets, MAX_BATCH_TARGETS);
    ChunksPartition(targets, MAX_BATCH_TARGETS);
    CombineAnswers(chunks, outcomes);
    CombineSizes(chunks, outcomes);
    forall i | 0 <= i < |targets|
      ensures i / 500 < |chunks|
              && Some(Combine(outcomes).result.results[i])
                   == FinalOf(Rounds(providers(i / 500), max, 1, chunks[i / 500]), targets[i])
    {
      var c, j := Locate(chunks, outcomes, i);
      FullBefore(chunks, c);
      assert c == i / 500;
      assert AnsweredByRetryLoop(providers(c), max, chunks[c], outcomes[c]);
    }
  }

  // In every complete interleaving of the goroutines, where batch c has the outcome of its
  // retry loop, what the collecting loop adds up answers every distinct target once, in
  // order and in its place.
  lemma EveryInterleavingAnswers(providers: nat -> Provider, max: nat, targets: seq<Target>, outcomes: seq<Outcome>,
                                 run: nat -> Outcome, concurrency: int, steps: seq<Step>)
    requires max >= 1 && OutcomesOf(providers, max, Chunks(Unique(targets), MAX_BATCH_TARGETS), outcomes)
    requires forall i :: 0 <= i < |outcomes| ==> run(i) == outcomes[i]
    requires ValidRun(|outcomes|, run, Init<Outcome>(WorkerCount(concurrency, |outcomes|)), steps)
    requires var s := Exec(|outcomes|, run, Init<Outcome>(WorkerCount(concurrency, |outcomes|)), steps);
             forall step :: !Enabled(|outcomes|, s, step)
    ensures var s := Exec(|outcomes|, run, Init<Outcome>(WorkerCount(concurrency, |outcomes|)), steps);
            s.ordered.Keys == FirstN(|outcomes|)
            && var r := Combine(Collected(|outcomes|, s.ordered));
               AnswersAll(Unique(targets), r) && AnswersInPlace(providers, max, Unique(targets), r.result.results)
  {
    hide Init, Exec, ValidRun, Enabled, Combine, FirstN, AnswersAll, AnswersInPlace, OutcomesOf, Chunks, Unique;
    InterleavingMatchesInOrder(outcomes, run, concurrency, steps);
    CombinedInPlace(providers, max, Unique(targets), outcomes);
  }

  method SendChunks(providers: nat -> Provider, max: nat, chunks: seq<seq<Target>>) returns (outcomes: seq<Outcome>)
    requires max >= 1 && DistinctKeys(Concat(chunks)) && AllValid(Concat(chunks))
    ensures OutcomesOf(providers, max, chunks, outcomes)
  {
    hide Key, Rounds, FinalOf, SuccessCount, UnresolvedCount, Concat, AnswersBatch, DistinctKeys, AllValid;
    outcomes := [];
    for i := 0 to |chunks|
      invariant |outcomes| == i
      invariant forall j :: 0 <= j < i ==> AnswersBatch(chunks[j], outcomes[j])
      invariant forall j :: 0 <= j < i ==> AnsweredByRetryLoop(providers(j), max, chunks[j], outcomes[j])
    {
      ChunkDistinct(chunks, i);
      var result, err := SendBatch(providers(i), max, chunks[i]);
      BatchIsAnswered(providers(i), max, chunks[i], result, err);
      outcomes := outcomes + [Outcome(result, err)];
    }
  }

  ghost predicate AnsweredByRetryLoop(p: Provider, max: nat, batch: seq<Target>, o: Outcome)
    requires max >= 1
  {
    |o.result.results| == |batch|
    && forall i :: 0 <= i < |batch| ==> Some(o.result.results[i]) == FinalOf(Rounds(p, max, 1, batch), batch[i])
  }

  lemma BatchIsAnswered(p: Provider, max: nat, batch: seq<Target>, result: BatchResult, err: Option<BatchError>)
    requires max >= 1 && AnsweredByRetryLoop(p, max, batch, Outcome(result, err))
    requires result.successCount == SuccessCount(result.results) && result.successCount + result.failureCount == |batch|
    requires err.Some? <==> UnresolvedCount(result.results) > 0
    ensures AnswersBatch(batch, Outcome(result, err))
  {
    hide Rounds, FinalOf, SuccessCount, UnresolvedCount;
    UnresolvedCountExists(result.results);
    forall i | 0 <= i < |batch|
      ensures result.results[i].target == batch[i]
              && (result.results[i].code == NoError ==> result.results[i].err.None?)
    {
      FinalOfShape(Rounds(p, max, 1, batch), batch[i]);
    }
  }

  // The batch and the place in it from which the i-th combined result comes.
  lemma {:induction false} Locate(chunks: seq<seq<Target>>, outcomes: seq<Outcome>, i: nat) returns (c: nat, j: nat)
    requires |chunks| == |outcomes| && forall k :: 0 <= k < |chunks| ==> AnswersBatch(chunks[k], outcomes[k])
    requires i < |Concat(chunks)|
    ensures c < |chunks| && j < |chunks[c]| == |outcomes[c].result.results| && Concat(chunks)[i] == chunks[c][j]
    ensures i == |Concat(chunks[..c])| + j
    ensures Combine(outcomes).Sent? && i < |Combine(outcomes).result.results|
    ensures Combine(outcomes).result.results[i] == outcomes[c].result.results[j]
    decreases |chunks|
  {
    hide AnswersAll, SuccessCount, Concat, Combine;
    SomeChunk(chunks);
    var n := |chunks| - 1;
    CombineSizes(chunks[..n], outcomes[..n]);
    CombineSizes(chunks, outcomes);
    var head := Concat(chunks[..n]);
    LastBatch(chunks, outcomes);
    assert AnswersBatch(chunks[n], outcomes[n]);
    if i < |head| {
      c, j := Locate(chunks[..n], outcomes[..n], i);
      assert chunks[..n][..c] == chunks[..c];
    } else {
      c, j := n, i - |head|;
    }
  }

  lemma SomeChunk<T>(chunks: seq<seq<T>>)
    ensures |Concat(chunks)| > 0 ==> chunks != []
  {
  }

  lemma LastBatch(chunks: seq<seq<Target>>, outcomes: seq<Outcome>)
    requires |chunks| == |outcomes| > 0 && Combine(outcomes).Sent?
    ensures var n := |chunks| - 1;
            && Concat(chunks) == Concat(chunks[..n]) + chunks[n]
            && Combine(outcomes[..n]).Sent?
            && Combine(outcomes).result.results == Combine(outcomes[..n]).result.results + outcomes[n].result.results
  {
  }

  lemma CombineSizes(chunks: seq<seq<Target>>, outcomes: seq<Outcome>)
    requires |chunks| == |outcomes| && forall k :: 0 <= k < |chunks| ==> AnswersBatch(chunks[k], outcomes[k])
    ensures Combine(outcomes).Sent? && |Combine(outcomes).result.results| == |Concat(chunks)|
  {
    CombineAnswers(chunks, outcomes);
  }

  // Whatever the goroutines did, the collecting loop adds up what sending the chunks one
  // by one yields.
  lemma InterleavingMatchesInOrder(outcomes: seq<Outcome>, run: nat -> Outcome, concurrency: int, steps: seq<Step>)
    requires forall i :: 0 <= i < |outcomes| ==> run(i) == outcomes[i]
    requires ValidRun(|outcomes|, run, Init<Outcome>(WorkerCount(concurrency, |outcomes|)), steps)
    requires var s := Exec(|outcomes|, run, Init<Outcome>(WorkerCount(concurrency, |outcomes|)), steps);
             forall step :: !Enabled(|outcomes|, s, step)
    ensures var s := Exec(|outcomes|, run, Init<Outcome>(WorkerCount(concurrency, |outcomes|)), steps);
            s.ordered.Keys == FirstN(|outcomes|) && Combine(Collected(|outcomes|, s.ordered)) == Combine(outcomes)
  {
    hide Init, Exec, ValidRun, Enabled, BusyIndices, Combine, FirstN;
    EveryInterleaving(|outcomes|, run, concurrency, steps);
    var s := Exec(|outcomes|, run, Init<Outcome>(WorkerCount(concurrency, |outcomes|)), steps);
    assert s.ordered == map i | 0 <= i < |outcomes| :: run(i);
    assert s.ordered.Keys == FirstN(|outcomes|);
    assert Collected(|outcomes|, s.ordered) == outcomes;
  }

  // The slice the collecting loop has filled.
  ghost function Collected(n: nat, ordered: map<nat, Outcome>): seq<Outcome>
    requires ordered.Keys == FirstN(n)
  {
    seq(n, i requires 0 <= i < n && ordered.Keys == FirstN(n) => ordered[i])
  }
}
