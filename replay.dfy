/**
 * The prefix-length replay of the transformer timeline worker. For each
 * channel (script output, declaration output) and each position `index` of
 * that channel's transformer list, the compiler's emitter runs with the
 * first `index + 1` transformers of the channel and the other channel's full
 * list; a `writeFile` sink keeps the files with the channel's suffix, tagged
 * with `index`, in the order they are written.
 *
 * The compiler is opaque: its transformers are values of a type parameter
 * and `emitFiles` (with the resolver, host and flags the worker passes) is an
 * arbitrary function from a transformer set to the files it writes.
 */
module Replay {
  import opened Catalog

  /** The compiler's two transformer lists, as `getTransformers` yields them and `emitFiles` takes them. */
  datatype Transformers<T> = Transformers(scriptTransformers: seq<T>, declarationTransformers: seq<T>)

  /** One call of the host's `writeFile`: a file name and its text. */
  datatype Write = Write(name: string, text: string)

  /** One captured output: the file, the position of the last transformer that ran, the text. */
  datatype Capture = Capture(filename: string, index: nat, text: string)

  /** The two output channels: generated JavaScript and generated declarations. */
  datatype Channel = Script | Declaration

  /** The emitter: the files written, in order, for a given transformer set. */
  type Emitter<!T> = Transformers<T> -> seq<Write>

  /** The file-name suffix a channel's sink keeps. */
  function Suffix(ch: Channel): string {
    match ch
    case Script => ".js"
    case Declaration => ".d.ts"
  }

  /** JavaScript's `String.prototype.endsWith`. */
  predicate EndsWith(s: string, suffix: string) {
    |suffix| <= |s| && s[|s| - |suffix|..] == suffix
  }

  /** The transformer list a channel replays. */
  function Replayed<T>(ch: Channel, t: Transformers<T>): seq<T> {
    match ch
    case Script => t.scriptTransformers
    case Declaration => t.declarationTransformers
  }

  /** The transformer list a channel leaves untouched. */
  function Untouched<T>(ch: Channel, t: Transformers<T>): seq<T> {
    match ch
    case Script => t.declarationTransformers
    case Declaration => t.scriptTransformers
  }

  /**
   * The transformer set of iteration `index`: the replayed list cut to its
   * first `index + 1` elements, the other list in full.
   */
  function StageTransformers<T>(ch: Channel, all: Transformers<T>, index: nat): (t: Transformers<T>)
    requires index < |Replayed(ch, all)|
    ensures |Replayed(ch, t)| == index + 1
    ensures Replayed(ch, t) == Replayed(ch, all)[..index + 1]
    ensures Untouched(ch, t) == Untouched(ch, all)
  {
    var prefix := Replayed(ch, all)[..index + 1];
    match ch
    case Script => Transformers(prefix, all.declarationTransformers)
    case Declaration => Transformers(all.scriptTransformers, prefix)
  }

  /** What the `writeFile` sink of iteration `index` captures from a sequence of writes. */
  function Sink(suffix: string, writes: seq<Write>, index: nat): seq<Capture>
  {
    if writes == [] then []
    else
      var w := writes[|writes| - 1];
      Sink(suffix, writes[..|writes| - 1], index)
      + (if EndsWith(w.name, suffix) then [Capture(w.name, index, w.text)] else [])
  }

  /**
   * The sink keeps a write iff its name has the suffix, and tags what it
   * keeps with the iteration's index; it keeps nothing it was not given.
   */
  lemma {:induction false} SinkFilters(suffix: string, writes: seq<Write>, index: nat)
    ensures |Sink(suffix, writes, index)| <= |writes|
    ensures forall c :: c in Sink(suffix, writes, index) ==>
              EndsWith(c.filename, suffix) && c.index == index && Write(c.filename, c.text) in writes
    ensures forall w :: w in writes && EndsWith(w.name, suffix) ==>
              Capture(w.name, index, w.text) in Sink(suffix, writes, index)
  {
    if writes != [] {
      var init := writes[..|writes| - 1];
      SinkFilters(suffix, init, index);
      assert writes == init + [writes[|writes| - 1]];
    }
  }

  /** What the sink of iteration `index` keeps of the files the emitter writes. */
  function Captured<T>(ch: Channel, all: Transformers<T>, emit: Emitter<T>, index: nat): seq<Capture>
    requires index < |Replayed(ch, all)|
  {
    Sink(Suffix(ch), emit(StageTransformers(ch, all, index)), index)
  }

  /** What the first `k` iterations of a channel's replay capture, one batch per iteration. */
  function Batches<T>(ch: Channel, all: Transformers<T>, emit: Emitter<T>, k: nat): (bs: seq<seq<Capture>>)
    requires k <= |Replayed(ch, all)|
    ensures |bs| == k
    decreases k
  {
    if k == 0 then [] else Batches(ch, all, emit, k - 1) + [Captured(ch, all, emit, k - 1)]
  }

  /** Batches of captures laid end to end, in order. */
  function Flatten(bs: seq<seq<Capture>>): seq<Capture>
    decreases |bs|
  {
    if bs == [] then [] else Flatten(bs[..|bs| - 1]) + bs[|bs| - 1]
  }

  /** The captures of the first `k` iterations of a channel's replay, in order. */
  function Trace<T>(ch: Channel, all: Transformers<T>, emit: Emitter<T>, k: nat): seq<Capture>
    requires k <= |Replayed(ch, all)|
  {
    Flatten(Batches(ch, all, emit, k))
  }

  /** The whole replay of a channel. */
  function FullTrace<T>(ch: Channel, all: Transformers<T>, emit: Emitter<T>): seq<Capture> {
    Trace(ch, all, emit, |Replayed(ch, all)|)
  }

  /**
   * One of the worker's replay loops: for every index of the channel's list,
   * emit with the cut-down transformer set and let the sink append the files
   * with the channel's suffix to the output list.
   */
  method ReplayChannel<T>(ch: Channel, all: Transformers<T>, emit: Emitter<T>) returns (outputs: seq<Capture>)
    ensures outputs == FullTrace(ch, all, emit)
  {
    var suffix := Suffix(ch);
    var n := |Replayed(ch, all)|;
    outputs := [];
    var index := 0;
    while index < n
      invariant 0 <= index <= n
      invariant outputs == Trace(ch, all, emit, index)
    {
      var transformersToThis := StageTransformers(ch, all, index);
      var writes := emit(transformersToThis);
      outputs := WriteFileCalls(suffix, writes, index, outputs);
      TraceStep(ch, all, emit, index);
      index := index + 1;
    }
  }

  /**
   * The `writeFile` callback, called once per file the emitter writes:
   * a file with the suffix is appended to the output list, tagged `index`.
   */
  method WriteFileCalls(suffix: string, writes: seq<Write>, index: nat, outputs: seq<Capture>)
    returns (outputs': seq<Capture>)
    ensures outputs' == outputs + Sink(suffix, writes, index)
  {
    outputs' := outputs;
    var w := 0;
    while w < |writes|
      invariant 0 <= w <= |writes|
      invariant outputs' == outputs + Sink(suffix, writes[..w], index)
    {
      var file := writes[w];
      if EndsWith(file.name, suffix) {
        outputs' := outputs' + [Capture(file.name, index, file.text)];
      }
      assert writes[..w + 1][..w] == writes[..w];
      w := w + 1;
    }
    assert writes[..|writes|] == writes;
  }

  /** The worker's reply: both catalogs and both channels' captures. */
  datatype Results = Results(jsNames: seq<string>, dtsNames: seq<string>,
                             jsOutputs: seq<Capture>, dtsOutputs: seq<Capture>)

  /**
   * The worker's "transform" job once the program, checker and emit
   * resolver exist: the two catalogs, then the script replay, then the
   * declaration replay. Each loop appends to its own output list only.
   */
  method Transform<T>(settings: EmitSettings, allTransformers: Transformers<T>, emit: Emitter<T>)
    returns (r: Results)
    ensures r.jsNames == ScriptCatalog(settings)
    ensures r.dtsNames == DtsNames
    ensures r.jsOutputs == FullTrace(Script, allTransformers, emit)
    ensures r.dtsOutputs == FullTrace(Declaration, allTransformers, emit)
  {
    var jsNames := ScriptTransformerNames(settings);
    var dtsNames := DtsNames;
    var jsOutputs := ReplayChannel(Script, allTransformers, emit);
    var dtsOutputs := ReplayChannel(Declaration, allTransformers, emit);
    r := Results(jsNames, dtsNames, jsOutputs, dtsOutputs);
  }

  // ---------------------------------------------------------------------
  // Properties of the replay
  // ---------------------------------------------------------------------

  /**
   * Each iteration's transformer set extends the previous one by exactly the
   * next transformer of the replayed list, the other list stays whole, and
   * the last iteration runs the full lists.
   */
  lemma StageTransformersGrow<T>(ch: Channel, all: Transformers<T>, index: nat)
    requires index + 1 < |Replayed(ch, all)|
    ensures Replayed(ch, StageTransformers(ch, all, index + 1))
            == Replayed(ch, StageTransformers(ch, all, index)) + [Replayed(ch, all)[index + 1]]
    ensures Untouched(ch, StageTransformers(ch, all, index + 1)) == Untouched(ch, StageTransformers(ch, all, index))
  {
    var list := Replayed(ch, all);
    assert list[..index + 2] == list[..index + 1] + [list[index + 1]];
  }

  lemma LastStageRunsEverything<T>(ch: Channel, all: Transformers<T>)
    requires |Replayed(ch, all)| > 0
    ensures StageTransformers(ch, all, |Replayed(ch, all)| - 1) == all
  {
    var list := Replayed(ch, all);
    assert list[..|list|] == list;
  }

  // ---------------------------------------------------------------------
  // Batches laid end to end
  // ---------------------------------------------------------------------

  /** Every capture of batch `i` is tagged `i`. */
  ghost predicate TaggedBatches(bs: seq<seq<Capture>>) {
    forall i, c :: 0 <= i < |bs| && c in bs[i] ==> c.index == i
  }

  /** Capture indices never decrease from left to right. */
  ghost predicate IndicesSorted(captures: seq<Capture>) {
    forall i, j :: 0 <= i <= j < |captures| ==> captures[i].index <= captures[j].index
  }

  lemma FlattenAppend(bs: seq<seq<Capture>>, b: seq<Capture>)
    ensures Flatten(bs + [b]) == Flatten(bs) + b
  {
    var all := bs + [b];
    assert all[..|all| - 1] == bs;
  }

  /** Every capture of the flattened list comes from one of the batches. */
  lemma {:induction false} FlattenMember(bs: seq<seq<Capture>>, c: Capture)
    requires c in Flatten(bs)
    ensures exists i :: 0 <= i < |bs| && c in bs[i]
    decreases |bs|
  {
    var init := bs[..|bs| - 1];
    if c !in bs[|bs| - 1] {
      FlattenMember(init, c);
      var i :| 0 <= i < |init| && c in init[i];
      assert bs[i] == init[i];
    }
  }

  /** Flattening the first `j` batches gives a prefix of flattening them all. */
  lemma {:induction false} FlattenPrefix(bs: seq<seq<Capture>>, j: nat)
    requires j <= |bs|
    ensures Flatten(bs[..j]) <= Flatten(bs)
    decreases |bs|
  {
    if j < |bs| {
      var init := bs[..|bs| - 1];
      assert init[..j] == bs[..j];
      FlattenPrefix(init, j);
    } else {
      assert bs[..j] == bs;
    }
  }

  /** In tagged batches, every capture is tagged below the number of batches. */
  lemma FlattenIndicesBelow(bs: seq<seq<Capture>>)
    requires TaggedBatches(bs)
    ensures forall c :: c in Flatten(bs) ==> c.index < |bs|
  {
    forall c | c in Flatten(bs) ensures c.index < |bs| {
      FlattenMember(bs, c);
    }
  }

  /** Appending captures tagged `index` after captures tagged below it keeps the indices sorted. */
  lemma AppendKeepsIndicesSorted(prev: seq<Capture>, last: seq<Capture>, index: nat)
    requires IndicesSorted(prev)
    requires forall c :: c in prev ==> c.index < index
    requires forall c :: c in last ==> c.index == index
    ensures IndicesSorted(prev + last)
  {
    var t := prev + last;
    forall i, j | 0 <= i <= j < |t| ensures t[i].index <= t[j].index {
      if j >= |prev| {
        assert t[j] == last[j - |prev|] && t[j] in last;
        if i < |prev| {
          assert t[i] == prev[i] && prev[i] in prev;
        } else {
          assert t[i] == last[i - |prev|] && t[i] in last;
        }
      } else {
        assert t[i] == prev[i] && t[j] == prev[j];
      }
    }
  }

  /** Tagged batches, laid end to end, have non-decreasing indices. */
  lemma {:induction false} FlattenSorted(bs: seq<seq<Capture>>)
    requires TaggedBatches(bs)
    ensures IndicesSorted(Flatten(bs))
    decreases |bs|
  {
    if bs != [] {
      var init := bs[..|bs| - 1];
      assert TaggedBatches(init) by {
        forall i: nat, c: Capture | i < |init| && c in init[i] ensures c.index == i {
          assert init[i] == bs[i];
        }
      }
      FlattenSorted(init);
      FlattenIndicesBelow(init);
      AppendKeepsIndicesSorted(Flatten(init), bs[|bs| - 1], |bs| - 1);
    }
  }

  /** The captures of a list that carry a given index, in list order. */
  function CapturesAt(captures: seq<Capture>, index: nat): seq<Capture>
    decreases |captures|
  {
    if captures == [] then []
    else
      var c := captures[|captures| - 1];
      CapturesAt(captures[..|captures| - 1], index) + (if c.index == index then [c] else [])
  }

  lemma {:induction false} CapturesAtAppend(a: seq<Capture>, b: seq<Capture>, index: nat)
    ensures CapturesAt(a + b, index) == CapturesAt(a, index) + CapturesAt(b, index)
    decreases |b|
  {
    if b != [] {
      var init := b[..|b| - 1];
      assert (a + b)[..|a + b| - 1] == a + init;
      CapturesAtAppend(a, init, index);
    } else {
      assert a + b == a;
    }
  }

  /** A list none of whose captures carries `index` has none at `index`. */
  lemma {:induction false} CapturesAtNone(captures: seq<Capture>, index: nat)
    requires forall c :: c in captures ==> c.index != index
    ensures CapturesAt(captures, index) == []
    decreases |captures|
  {
    if captures != [] {
      var n := |captures| - 1;
      var init := captures[..n];
      forall c | c in init ensures c.index != index {
        var i :| 0 <= i < n && init[i] == c;
        assert captures[i] == c;
      }
      CapturesAtNone(init, index);
      assert captures[n] in captures;
    }
  }

  /** A list all of whose captures carry `index` is kept whole. */
  lemma {:induction false} CapturesAtAll(captures: seq<Capture>, index: nat)
    requires forall c :: c in captures ==> c.index == index
    ensures CapturesAt(captures, index) == captures
    decreases |captures|
  {
    if captures != [] {
      var n := |captures| - 1;
      var init := captures[..n];
      forall c | c in init ensures c.index == index {
        var i :| 0 <= i < n && init[i] == c;
        assert captures[i] == c;
      }
      CapturesAtAll(init, index);
      assert captures[n] in captures;
      assert captures == init + [captures[n]];
    }
  }

  /** In tagged batches, the captures carrying `index` are exactly batch `index`. */
  lemma {:induction false} FlattenAt(bs: seq<seq<Capture>>, index: nat)
    requires TaggedBatches(bs) && index < |bs|
    ensures CapturesAt(Flatten(bs), index) == bs[index]
    decreases |bs|
  {
    var n := |bs| - 1;
    var init := bs[..n];
    assert TaggedBatches(init) by {
      forall i: nat, c: Capture | i < |init| && c in init[i] ensures c.index == i {
        assert init[i] == bs[i];
      }
    }
    CapturesAtAppend(Flatten(init), bs[n], index);
    if index < n {
      FlattenAt(init, index);
      CapturesAtNone(bs[n], index);
      assert init[index] == bs[index];
    } else {
      FlattenIndicesBelow(init);
      CapturesAtNone(Flatten(init), index);
      CapturesAtAll(bs[n], index);
    }
  }

  /** Batches of one capture each, laid end to end, give one capture per batch. */
  lemma {:induction false} FlattenSingles(bs: seq<seq<Capture>>)
    requires forall i :: 0 <= i < |bs| ==> |bs[i]| == 1
    ensures |Flatten(bs)| == |bs|
    ensures forall i :: 0 <= i < |bs| ==> Flatten(bs)[i] == bs[i][0]
    decreases |bs|
  {
    if bs != [] {
      var n := |bs| - 1;
      var init := bs[..n];
      FlattenSingles(init);
      var t := Flatten(bs);
      forall i | 0 <= i < |bs| ensures t[i] == bs[i][0] {
        if i < n {
          assert t[i] == Flatten(init)[i] && init[i] == bs[i];
        }
      }
    }
  }

  // ---------------------------------------------------------------------
  // Properties of the replay
  // ---------------------------------------------------------------------

  /** One more iteration appends what its sink kept. */
  lemma TraceStep<T>(ch: Channel, all: Transformers<T>, emit: Emitter<T>, k: nat)
    requires k < |Replayed(ch, all)|
    ensures Trace(ch, all, emit, k + 1) == Trace(ch, all, emit, k) + Captured(ch, all, emit, k)
  {
    FlattenAppend(Batches(ch, all, emit, k), Captured(ch, all, emit, k));
  }

  /** Batch `i` of a replay is what iteration `i`'s sink kept. */
  lemma {:induction false} BatchAt<T>(ch: Channel, all: Transformers<T>, emit: Emitter<T>, k: nat, i: nat)
    requires i < k <= |Replayed(ch, all)|
    ensures Batches(ch, all, emit, k)[i] == Captured(ch, all, emit, i)
    decreases k
  {
    if i < k - 1 {
      BatchAt(ch, all, emit, k - 1, i);
    }
  }

  /** The batches of `j` iterations begin the batches of `k >= j`. */
  lemma {:induction false} BatchesPrefix<T>(ch: Channel, all: Transformers<T>, emit: Emitter<T>, j: nat, k: nat)
    requires j <= k <= |Replayed(ch, all)|
    ensures Batches(ch, all, emit, k)[..j] == Batches(ch, all, emit, j)
    decreases k
  {
    if j < k {
      BatchesPrefix(ch, all, emit, j, k - 1);
      var bs := Batches(ch, all, emit, k);
      assert bs[..k - 1] == Batches(ch, all, emit, k - 1);
      assert bs[..j] == bs[..k - 1][..j];
    } else {
      assert Batches(ch, all, emit, k)[..j] == Batches(ch, all, emit, k);
    }
  }

  /** Batch `i` of a replay holds only files with the channel's suffix, each tagged `i`. */
  lemma BatchesWellFormed<T>(ch: Channel, all: Transformers<T>, emit: Emitter<T>, k: nat)
    requires k <= |Replayed(ch, all)|
    ensures TaggedBatches(Batches(ch, all, emit, k))
    ensures forall i, c :: 0 <= i < k && c in Batches(ch, all, emit, k)[i] ==> EndsWith(c.filename, Suffix(ch))
  {
    var bs := Batches(ch, all, emit, k);
    forall i | 0 <= i < k
      ensures forall c: Capture :: c in bs[i] ==> c.index == i && EndsWith(c.filename, Suffix(ch))
    {
      BatchAt(ch, all, emit, k, i);
      SinkFilters(Suffix(ch), emit(StageTransformers(ch, all, i)), i);
    }
  }

  /** Every capture of a replay has the channel's suffix and the index of an iteration that ran. */
  lemma TraceCapturesWellFormed<T>(ch: Channel, all: Transformers<T>, emit: Emitter<T>, k: nat)
    requires k <= |Replayed(ch, all)|
    ensures forall c :: c in Trace(ch, all, emit, k) ==> EndsWith(c.filename, Suffix(ch)) && c.index < k
  {
    var bs := Batches(ch, all, emit, k);
    BatchesWellFormed(ch, all, emit, k);
    forall c | c in Flatten(bs) ensures EndsWith(c.filename, Suffix(ch)) && c.index < k {
      FlattenMember(bs, c);
    }
  }

  /** Later iterations only append: the captures of `j` iterations begin those of `k >= j`. */
  lemma TraceExtends<T>(ch: Channel, all: Transformers<T>, emit: Emitter<T>, j: nat, k: nat)
    requires j <= k <= |Replayed(ch, all)|
    ensures Trace(ch, all, emit, j) <= Trace(ch, all, emit, k)
  {
    BatchesPrefix(ch, all, emit, j, k);
    FlattenPrefix(Batches(ch, all, emit, k), j);
  }

  /** Captures are appended in non-decreasing index order. */
  lemma TraceIndicesNonDecreasing<T>(ch: Channel, all: Transformers<T>, emit: Emitter<T>, k: nat)
    requires k <= |Replayed(ch, all)|
    ensures forall i, j :: 0 <= i <= j < |Trace(ch, all, emit, k)| ==>
              Trace(ch, all, emit, k)[i].index <= Trace(ch, all, emit, k)[j].index
  {
    BatchesWellFormed(ch, all, emit, k);
    FlattenSorted(Batches(ch, all, emit, k));
  }

  /**
   * The captures a replay tags with `index` are exactly what the sink keeps
   * of the files the emitter writes for that iteration's transformer set.
   */
  lemma TraceAtStage<T>(ch: Channel, all: Transformers<T>, emit: Emitter<T>, k: nat, index: nat)
    requires index < k <= |Replayed(ch, all)|
    ensures CapturesAt(Trace(ch, all, emit, k), index) == Captured(ch, all, emit, index)
  {
    BatchesWellFormed(ch, all, emit, k);
    FlattenAt(Batches(ch, all, emit, k), index);
    BatchAt(ch, all, emit, k, index);
  }

  /**
   * When every iteration writes exactly one file with the channel's suffix,
   * the replay holds one capture per transformer, the `k`-th tagged `k`.
   */
  lemma OneCapturePerStage<T>(ch: Channel, all: Transformers<T>, emit: Emitter<T>, k: nat)
    requires k <= |Replayed(ch, all)|
    requires forall i :: 0 <= i < k ==> |Captured(ch, all, emit, i)| == 1
    ensures |Trace(ch, all, emit, k)| == k
    ensures forall i :: 0 <= i < k ==> Trace(ch, all, emit, k)[i] == Captured(ch, all, emit, i)[0]
  {
    var bs := Batches(ch, all, emit, k);
    forall i | 0 <= i < k ensures bs[i] == Captured(ch, all, emit, i) {
      BatchAt(ch, all, emit, k, i);
    }
    FlattenSingles(bs);
  }
}
