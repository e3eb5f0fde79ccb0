/**
 * Consolidating an FSDP checkpoint into one state dict
 * (load_sharded_model in src/convert_fsdp_to_hf.py).
 *
 * The directory is a map from entry names to what torch.load returns for
 * them; a tensor is kept abstract: either 0-dimensional, or a sequence of
 * rows along axis 0 that share one trailing shape.
 */
module Consolidation {
  import opened Wrappers
  import opened ShardNames

  /** A saved tensor: 0-dimensional, or `rows` along axis 0, each of shape `trailing`. */
  datatype Tensor<E> = Scalar(item: E) | Array(trailing: seq<nat>, rows: seq<E>)

  /** A saved value: a plain tensor, or a distributed tensor whose to_local() is `local`. */
  datatype Value<E> = Plain(tensor: Tensor<E>) | Distributed(local: Tensor<E>)

  /** `value.to_local()` when the value has it, the value itself otherwise. */
  function ToLocal<E>(v: Value<E>): Tensor<E>
  {
    match v
    case Plain(t) => t
    case Distributed(t) => t
  }

  /** One rank's saved state dict. */
  type Shard<E> = map<string, Value<E>>

  /** The checkpoint directory: each entry, and the shard torch.load returns for it (None: loading raises). */
  type Directory<E> = map<string, Option<Shard<E>>>

  /** The defaultdict(list) that gathers each parameter's values. */
  type Buffer<E> = map<string, seq<Tensor<E>>>

  type StateDict<E> = map<string, Tensor<E>>

  /** The ValueErrors the loader raises, and a shard that cannot be loaded. */
  datatype LoadError =
    | NoShardsFound
    | InconsistentWorldSize(sizes: set<nat>)
    | MissingShard(rank: nat)
    | ShardLoadError(name: string)

  // ---------------------------------------------------------------------------
  // torch.cat(parts, dim=0) and the fallback to the first value
  // ---------------------------------------------------------------------------

  /** torch.cat accepts the list: non-empty, every part at least one-dimensional, one trailing shape. */
  predicate Concatenable<E>(parts: seq<Tensor<E>>)
  {
    && |parts| > 0
    && parts[0].Array?
    && forall i :: 0 <= i < |parts| ==> parts[i].Array? && parts[i].trailing == parts[0].trailing
  }

  predicate AllArrays<E>(parts: seq<Tensor<E>>)
  {
    forall i :: 0 <= i < |parts| ==> parts[i].Array?
  }

  function Sum(xs: seq<nat>): nat
  {
    if xs == [] then 0 else xs[0] + Sum(xs[1..])
  }

  /** The length of each part along axis 0. */
  function Lengths<E>(parts: seq<Tensor<E>>): (ls: seq<nat>)
    requires AllArrays(parts)
    ensures |ls| == |parts|
    ensures forall i :: 0 <= i < |parts| ==> ls[i] == |parts[i].rows|
  {
    if parts == [] then [] else [|parts[0].rows|] + Lengths(parts[1..])
  }

  /** The rows of all parts, one part after another. */
  function Rows<E>(parts: seq<Tensor<E>>): (rows: seq<E>)
    requires AllArrays(parts)
    ensures |rows| == Sum(Lengths(parts))
  {
    if parts == [] then [] else parts[0].rows + Rows(parts[1..])
  }

  /** Cuts `rows` into consecutive pieces of the given lengths (torch.split along axis 0). */
  function Split<E>(rows: seq<E>, lengths: seq<nat>): (pieces: seq<seq<E>>)
    requires |rows| == Sum(lengths)
    ensures |pieces| == |lengths|
  {
    if lengths == [] then [] else [rows[..lengths[0]]] + Split(rows[lengths[0]..], lengths[1..])
  }

  /** Splitting the concatenation at the parts' lengths gives back every part, in order. */
  lemma {:induction false} SplitRows<E>(parts: seq<Tensor<E>>)
    requires AllArrays(parts)
    ensures forall i :: 0 <= i < |parts| ==> Split(Rows(parts), Lengths(parts))[i] == parts[i].rows
  {
    if parts != [] {
      var tail := parts[1..];
      assert AllArrays(tail) by {
        forall i | 0 <= i < |tail| ensures tail[i].Array? {
          assert tail[i] == parts[i + 1];
        }
      }
      SplitRows(tail);
      var rows := Rows(parts);
      var n := |parts[0].rows|;
      assert Lengths(parts)[1..] == Lengths(tail);
      assert rows[..n] == parts[0].rows;
      assert rows[n..] == Rows(tail);
      forall i | 0 <= i < |parts|
        ensures Split(rows, Lengths(parts))[i] == parts[i].rows
      {
        if i > 0 {
          assert parts[i] == tail[i - 1];
        }
      }
    }
  }

  /** torch.cat(parts, dim=0), or None where it raises RuntimeError or TypeError. */
  function TryCat<E>(parts: seq<Tensor<E>>): (r: Option<Tensor<E>>)
    ensures r.Some? <==> Concatenable(parts)
  {
    if Concatenable(parts) then Some(Array(parts[0].trailing, Rows(parts))) else None
  }

  /**
   * One consolidated parameter: the concatenation of its values when torch.cat
   * accepts them, the first value otherwise.
   */
  function Merge<E>(parts: seq<Tensor<E>>): (t: Tensor<E>)
    requires |parts| > 0
    ensures Concatenable(parts) ==>
      && t.Array? && t.trailing == parts[0].trailing
      && |t.rows| == Sum(Lengths(parts))
      && forall i :: 0 <= i < |parts| ==> Split(t.rows, Lengths(parts))[i] == parts[i].rows
    ensures !Concatenable(parts) ==> t == parts[0]
  {
    match TryCat(parts)
    case Some(c) => SplitRows(parts); c
    case None => parts[0]
  }

  // ---------------------------------------------------------------------------
  // Gathering the shards' values per key
  // ---------------------------------------------------------------------------

  /** Reading a defaultdict(list): a missing key reads as the empty list. */
  function Lookup<E>(buffer: Buffer<E>, key: string): seq<Tensor<E>>
  {
    if key in buffer then buffer[key] else []
  }

  /** Appending one shard: each of its values, made local, goes to the end of its key's list. */
  function AppendShard<E>(buffer: Buffer<E>, shard: Shard<E>): (b: Buffer<E>)
    ensures b.Keys == buffer.Keys + shard.Keys
  {
    map k | k in buffer.Keys + shard.Keys :: Lookup(buffer, k) + (if k in shard then [ToLocal(shard[k])] else [])
  }

  /** The buffer after the shards of ranks 0, 1, ... have been appended in that order. */
  function Buffered<E>(shards: seq<Shard<E>>): Buffer<E>
  {
    if shards == [] then map[] else AppendShard(Buffered(shards[..|shards| - 1]), shards[|shards| - 1])
  }

  /** Every key some shard holds. */
  function UnionKeys<E>(shards: seq<Shard<E>>): (keys: set<string>)
    ensures forall k :: k in keys <==> exists i :: 0 <= i < |shards| && k in shards[i]
  {
    if shards == [] then {}
    else
      var front := shards[..|shards| - 1];
      var ks := UnionKeys(front) + shards[|shards| - 1].Keys;
      assert forall i :: 0 <= i < |front| ==> front[i] == shards[i];
      ks
  }

  /** Reference definition of one key's list: its local values, rank by rank, from the shards that hold it. */
  function Column<E>(shards: seq<Shard<E>>, key: string): seq<Tensor<E>>
  {
    if shards == [] then []
    else
      var last := shards[|shards| - 1];
      Column(shards[..|shards| - 1], key) + (if key in last then [ToLocal(last[key])] else [])
  }

  /** The ranks whose shard holds `key`, in increasing order. */
  function Holders<E>(shards: seq<Shard<E>>, key: string): (ranks: seq<nat>)
    ensures forall j :: 0 <= j < |ranks| ==> ranks[j] < |shards| && key in shards[ranks[j]]
    ensures forall j, j' :: 0 <= j < j' < |ranks| ==> ranks[j] < ranks[j']
    ensures forall i :: 0 <= i < |shards| && key in shards[i] ==> i in ranks
  {
    if shards == [] then []
    else
      var n := |shards| - 1;
      var front := shards[..n];
      assert forall i :: 0 <= i < n ==> front[i] == shards[i];
      Holders(front, key) + (if key in shards[n] then [n] else [])
  }

  /** The j-th value of a key's list comes from the j-th rank that holds the key. */
  lemma {:induction false} ColumnByRank<E>(shards: seq<Shard<E>>, key: string)
    ensures |Column(shards, key)| == |Holders(shards, key)|
    ensures forall j :: 0 <= j < |Holders(shards, key)| ==>
      Column(shards, key)[j] == ToLocal(shards[Holders(shards, key)[j]][key])
  {
    if shards != [] {
      var n := |shards| - 1;
      var front := shards[..n];
      ColumnByRank(front, key);
      var hs := Holders(front, key);
      forall j | 0 <= j < |hs| ensures front[hs[j]] == shards[hs[j]] {
      }
    }
  }

  /** The gathering loop's result, described key by key. */
  lemma {:induction false} BufferedByKey<E>(shards: seq<Shard<E>>)
    ensures Buffered(shards).Keys == UnionKeys(shards)
    ensures forall k :: Lookup(Buffered(shards), k) == Column(shards, k)
  {
    if shards != [] {
      BufferedByKey(shards[..|shards| - 1]);
    }
  }

  /** A key some shard holds has at least one value gathered. */
  lemma {:induction false} ColumnNonEmpty<E>(shards: seq<Shard<E>>, key: string)
    requires key in UnionKeys(shards)
    ensures |Column(shards, key)| > 0
  {
    var i :| 0 <= i < |shards| && key in shards[i];
    ColumnByRank(shards, key);
    assert i in Holders(shards, key);
  }

  lemma BufferedNonEmpty<E>(shards: seq<Shard<E>>)
    ensures forall k :: k in Buffered(shards) ==> |Buffered(shards)[k]| > 0
  {
    BufferedByKey(shards);
    forall k | k in Buffered(shards) ensures |Buffered(shards)[k]| > 0 {
      assert Lookup(Buffered(shards), k) == Buffered(shards)[k];
      ColumnNonEmpty(shards, k);
    }
  }

  /** The consolidated state dict built from a buffer whose lists are all non-empty. */
  function MergeAll<E>(buffer: Buffer<E>): (sd: StateDict<E>)
    requires forall k :: k in buffer ==> |buffer[k]| > 0
    ensures sd.Keys == buffer.Keys
  {
    map k | k in buffer :: Merge(buffer[k])
  }

  // ---------------------------------------------------------------------------
  // Locating and loading the shards
  // ---------------------------------------------------------------------------

  /** The entries Path.glob("model_world_size_*_rank_*.pt") lists. */
  function ShardFiles<E>(dir: Directory<E>): set<string>
  {
    set n | n in dir && GlobMatch(n)
  }

  /** The world sizes read from those names that the pattern matches. */
  function WorldSizes(files: set<string>): set<nat>
  {
    set n | n in files && ParseShardName(n).Some? :: ParseShardName(n).value.worldSize
  }

  /** What one more listed file adds to the world sizes. */
  function SizeOf(name: string): set<nat>
  {
    match ParseShardName(name)
    case Some(id) => {id.worldSize}
    case None => {}
  }

  lemma WorldSizesAdd(files: set<string>, name: string)
    ensures WorldSizes(files + {name}) == WorldSizes(files) + SizeOf(name)
  {
  }

  /** world_sizes.pop() on a one-element set. */
  ghost function OnlyElement(s: set<nat>): (x: nat)
    requires |s| == 1
    ensures s == {x}
  {
    var x :| x in s;
    assert |s - {x}| == 0;
    x
  }

  /** The file for `rank` exists and torch.load reads it. */
  predicate Loadable<E>(dir: Directory<E>, worldSize: nat, rank: nat)
  {
    ShardFileName(worldSize, rank) in dir && dir[ShardFileName(worldSize, rank)].Some?
  }

  /** The error for a rank that cannot be loaded: its file is missing, or loading it raises. */
  function RankError<E>(dir: Directory<E>, worldSize: nat, rank: nat): LoadError
  {
    if ShardFileName(worldSize, rank) !in dir then MissingShard(rank)
    else ShardLoadError(ShardFileName(worldSize, rank))
  }

  /** Loading ranks 0 .. n-1 in order, stopping at the first that fails. */
  function LoadRanks<E>(dir: Directory<E>, worldSize: nat, n: nat): Result<seq<Shard<E>>, LoadError>
  {
    if n == 0 then Success([])
    else match LoadRanks(dir, worldSize, n - 1)
      case Failure(e) => Failure(e)
      case Success(shards) =>
        if Loadable(dir, worldSize, n - 1) then Success(shards + [dir[ShardFileName(worldSize, n - 1)].value])
        else Failure(RankError(dir, worldSize, n - 1))
  }

  /** Once a rank fails, loading more ranks reports the same failure. */
  lemma {:induction false} LoadRanksFailureSticks<E>(dir: Directory<E>, worldSize: nat, a: nat, b: nat)
    requires a <= b && LoadRanks(dir, worldSize, a).Failure?
    ensures LoadRanks(dir, worldSize, b) == LoadRanks(dir, worldSize, a)
    decreases b - a
  {
    if a < b {
      LoadRanksFailureSticks(dir, worldSize, a, b - 1);
    }
  }

  /** When every rank below n loads, the result is the ranks' shards in rank order. */
  lemma {:induction false} LoadRanksAll<E>(dir: Directory<E>, worldSize: nat, n: nat)
    requires forall r: nat :: r < n ==> Loadable(dir, worldSize, r)
    ensures LoadRanks(dir, worldSize, n).Success?
    ensures |LoadRanks(dir, worldSize, n).value| == n
    ensures forall r: nat :: r < n ==>
      Loadable(dir, worldSize, r) && LoadRanks(dir, worldSize, n).value[r] == dir[ShardFileName(worldSize, r)].value
  {
    if n > 0 {
      LoadRanksAll(dir, worldSize, n - 1);
    }
  }

  /** A successful load means every rank below n was loadable. */
  lemma {:induction false} LoadRanksSuccess<E>(dir: Directory<E>, worldSize: nat, n: nat)
    requires LoadRanks(dir, worldSize, n).Success?
    ensures forall r: nat :: r < n ==> Loadable(dir, worldSize, r)
  {
    if n > 0 {
      LoadRanksSuccess(dir, worldSize, n - 1);
    }
  }

  /** The failure reported is the one of the lowest rank that cannot be loaded. */
  lemma LoadRanksFirstGap<E>(dir: Directory<E>, worldSize: nat, n: nat, rank: nat)
    requires rank < n
    requires forall r: nat :: r < rank ==> Loadable(dir, worldSize, r)
    requires !Loadable(dir, worldSize, rank)
    ensures LoadRanks(dir, worldSize, n) == Failure(RankError(dir, worldSize, rank))
  {
    LoadRanksAll(dir, worldSize, rank);
    LoadRanksFailureSticks(dir, worldSize, rank + 1, n);
  }

  /** Loading depends only on the entries named for ranks below n. */
  lemma {:induction false} LoadRanksFrame<E>(dir: Directory<E>, dir': Directory<E>, worldSize: nat, n: nat)
    requires forall r: nat :: r < n ==>
      (ShardFileName(worldSize, r) in dir <==> ShardFileName(worldSize, r) in dir')
      && (ShardFileName(worldSize, r) in dir ==> dir[ShardFileName(worldSize, r)] == dir'[ShardFileName(worldSize, r)])
    ensures LoadRanks(dir, worldSize, n) == LoadRanks(dir', worldSize, n)
  {
    if n > 0 {
      LoadRanksFrame(dir, dir', worldSize, n - 1);
    }
  }

  // ---------------------------------------------------------------------------
  // load_sharded_model
  // ---------------------------------------------------------------------------

  /** Reference definition of what load_sharded_model returns or raises for a directory. */
  ghost function Consolidated<E>(dir: Directory<E>): Result<StateDict<E>, LoadError>
  {
    var files := ShardFiles(dir);
    if files == {} then Failure(NoShardsFound)
    else
      var sizes := WorldSizes(files);
      if |sizes| != 1 then Failure(InconsistentWorldSize(sizes))
      else
        var worldSize := OnlyElement(sizes);
        match LoadRanks(dir, worldSize, worldSize)
        case Failure(e) => Failure(e)
        case Success(shards) =>
          BufferedNonEmpty(shards);
          Success(MergeAll(Buffered(shards)))
  }

  /** Adding a shard's entries one key at a time, in any order, ends at AppendShard. */
  lemma AppendShardOneMore<E>(buffer: Buffer<E>, part: Shard<E>, key: string, v: Value<E>)
    requires key !in part
    ensures AppendShard(buffer, part[key := v])
      == AppendShard(buffer, part)[key := Lookup(AppendShard(buffer, part), key) + [ToLocal(v)]]
  {
    var lhs := AppendShard(buffer, part[key := v]);
    var rhs := AppendShard(buffer, part)[key := Lookup(AppendShard(buffer, part), key) + [ToLocal(v)]];
    forall k | k in lhs ensures k in rhs && lhs[k] == rhs[k] {
    }
    assert lhs.Keys == rhs.Keys;
  }

  lemma MergeAllInsert<E>(buffer: Buffer<E>, key: string, parts: seq<Tensor<E>>)
    requires forall k :: k in buffer ==> |buffer[k]| > 0
    requires |parts| > 0
    ensures MergeAll(buffer[key := parts]) == MergeAll(buffer)[key := Merge(parts)]
  {
  }

  /** Once the world size is known, a rank that fails decides the outcome. */
  lemma ConsolidatedRankFailure<E>(dir: Directory<E>, worldSize: nat)
    requires WorldSizes(ShardFiles(dir)) == {worldSize}
    requires LoadRanks(dir, worldSize, worldSize).Failure?
    ensures Consolidated(dir) == Failure(LoadRanks(dir, worldSize, worldSize).error)
  {
    assert ShardFiles(dir) != {};
  }

  /** Once the world size is known and every rank loads, the result merges the gathered shards. */
  lemma ConsolidatedFromShards<E>(dir: Directory<E>, worldSize: nat, shards: seq<Shard<E>>)
    requires WorldSizes(ShardFiles(dir)) == {worldSize}
    requires LoadRanks(dir, worldSize, worldSize) == Success(shards)
    ensures forall k :: k in Buffered(shards) ==> |Buffered(shards)[k]| > 0
    ensures Consolidated(dir) == Success(MergeAll(Buffered(shards)))
  {
    assert ShardFiles(dir) != {};
    BufferedNonEmpty(shards);
  }

  /** Appending an empty shard leaves the buffer as it was. */
  lemma AppendNothing<E>(buffer: Buffer<E>)
    ensures AppendShard(buffer, map[]) == buffer
  {
    var b := AppendShard(buffer, map[]);
    forall k | k in buffer ensures b[k] == buffer[k] {
      assert b[k] == Lookup(buffer, k) + [];
    }
  }

  /** The world-size loop: the sizes read from every listed name the pattern matches. */
  method CollectWorldSizes(files: set<string>) returns (sizes: set<nat>)
    ensures sizes == WorldSizes(files)
  {
    sizes := {};
    var todo := files;
    while todo != {}
      invariant todo <= files
      invariant sizes == WorldSizes(files - todo)
      decreases todo
    {
      var f :| f in todo;
      WorldSizesAdd(files - todo, f);
      assert files - (todo - {f}) == (files - todo) + {f};
      match ParseShardName(f) {
        case Some(id) => sizes := sizes + {id.worldSize};
        case None =>
      }
      todo := todo - {f};
    }
    assert files - todo == files;
  }

  /** The loop over one shard's items: every value, made local, appended to its key's list. */
  method AppendShardValues<E>(buffer: Buffer<E>, shard: Shard<E>) returns (b: Buffer<E>)
    ensures b == AppendShard(buffer, shard)
  {
    b := buffer;
    var keys := shard.Keys;
    assert shard - keys == map[];
    AppendNothing(buffer);
    while keys != {}
      invariant keys <= shard.Keys
      invariant b == AppendShard(buffer, shard - keys)
      decreases keys
    {
      var key :| key in keys;
      AppendShardOneMore(buffer, shard - keys, key, shard[key]);
      assert shard - (keys - {key}) == (shard - keys)[key := shard[key]];
      b := b[key := Lookup(b, key) + [ToLocal(shard[key])]];
      keys := keys - {key};
    }
    assert shard - keys == shard;
  }

  /** The final loop: each key's list concatenated, or its first value where torch.cat raises. */
  method MergeBuffer<E>(buffer: Buffer<E>) returns (result: StateDict<E>)
    requires forall k :: k in buffer ==> |buffer[k]| > 0
    ensures result == MergeAll(buffer)
  {
    result := map[];
    var pending := buffer.Keys;
    while pending != {}
      invariant pending <= buffer.Keys
      invariant result == MergeAll(buffer - pending)
      decreases pending
    {
      var key :| key in pending;
      var parts := buffer[key];
      match TryCat(parts) {
        case Some(t) => result := result[key := t];
        case None => result := result[key := parts[0]];
      }
      MergeAllInsert(buffer - pending, key, parts);
      assert buffer - (pending - {key}) == (buffer - pending)[key := parts];
      pending := pending - {key};
    }
    assert buffer - pending == buffer;
  }

  /** The ranks' shards gathered into the buffer, or the first rank that fails. */
  function Gathered<E>(dir: Directory<E>, worldSize: nat): Result<Buffer<E>, LoadError>
  {
    match LoadRanks(dir, worldSize, worldSize)
    case Failure(e) => Failure(e)
    case Success(shards) => Success(Buffered(shards))
  }

  /** The loop over ranks: load each rank's file in order and append its items. */
  method GatherRanks<E>(dir: Directory<E>, worldSize: nat) returns (res: Result<Buffer<E>, LoadError>)
    ensures res == Gathered(dir, worldSize)
  {
    var buffer: Buffer<E> := map[];
    ghost var loaded: seq<Shard<E>> := [];
    for rank := 0 to worldSize
      invariant LoadRanks(dir, worldSize, rank) == Success(loaded)
      invariant buffer == Buffered(loaded)
    {
      var name := ShardFileName(worldSize, rank);
      if name !in dir {
        LoadRanksFailureSticks(dir, worldSize, rank + 1, worldSize);
        return Failure(MissingShard(rank));
      }
      if dir[name].None? {
        LoadRanksFailureSticks(dir, worldSize, rank + 1, worldSize);
        return Failure(ShardLoadError(name));
      }
      var shard := dir[name].value;
      buffer := AppendShardValues(buffer, shard);
      assert (loaded + [shard])[..|loaded|] == loaded;
      loaded := loaded + [shard];
    }
    return Success(buffer);
  }

  /** With one world size, the outcome is the gathered buffer, merged. */
  lemma ConsolidatedFromGathered<E>(dir: Directory<E>, worldSize: nat)
    requires WorldSizes(ShardFiles(dir)) == {worldSize}
    ensures Gathered(dir, worldSize).Success? ==>
      forall k :: k in Gathered(dir, worldSize).value ==> |Gathered(dir, worldSize).value[k]| > 0
    ensures Gathered(dir, worldSize).Failure? ==> Consolidated(dir) == Failure(Gathered(dir, worldSize).error)
    ensures Gathered(dir, worldSize).Success? ==> Consolidated(dir) == Success(MergeAll(Gathered(dir, worldSize).value))
  {
    if LoadRanks(dir, worldSize, worldSize).Failure? {
      ConsolidatedRankFailure(dir, worldSize);
    } else {
      ConsolidatedFromShards(dir, worldSize, LoadRanks(dir, worldSize, worldSize).value);
    }
  }

  /** The loader: it returns or raises exactly what Consolidated describes. */
  method LoadShardedModel<E>(dir: Directory<E>) returns (r: Result<StateDict<E>, LoadError>)
    ensures r == Consolidated(dir)
  {
    var files := ShardFiles(dir);
    if files == {} {
      return Failure(NoShardsFound);
    }
    var sizes := CollectWorldSizes(files);
    if |sizes| != 1 {
      return Failure(InconsistentWorldSize(sizes));
    }
    var worldSize :| worldSize in sizes;
    assert sizes == {worldSize} by {
      assert worldSize == OnlyElement(sizes);
    }
    ConsolidatedFromGathered(dir, worldSize);
    var gathered := GatherRanks(dir, worldSize);
    match gathered {
      case Failure(e) =>
        r := Failure(e);
      case Success(buffer) =>
        var result := MergeBuffer(buffer);
        r := Success(result);
    }
  }

  // ---------------------------------------------------------------------------
  // What the loader promises
  // ---------------------------------------------------------------------------

  /** The two checks on the listed names, before any shard is opened. */
  lemma ConsolidatedChecksNames<E>(dir: Directory<E>)
    ensures ShardFiles(dir) == {} ==> Consolidated(dir) == Failure(NoShardsFound)
    ensures ShardFiles(dir) != {} && |WorldSizes(ShardFiles(dir))| != 1 ==>
      Consolidated(dir) == Failure(InconsistentWorldSize(WorldSizes(ShardFiles(dir))))
    ensures Consolidated(dir).Success? ==> |WorldSizes(ShardFiles(dir))| == 1
  {
  }

  /** With one world size, the lowest rank that cannot be loaded is the one reported. */
  lemma FirstGapReported<E>(dir: Directory<E>, worldSize: nat, rank: nat)
    requires WorldSizes(ShardFiles(dir)) == {worldSize}
    requires rank < worldSize
    requires forall r: nat :: r < rank ==> Loadable(dir, worldSize, r)
    requires !Loadable(dir, worldSize, rank)
    ensures Consolidated(dir) == Failure(RankError(dir, worldSize, rank))
  {
    LoadRanksFirstGap(dir, worldSize, worldSize, rank);
    ConsolidatedRankFailure(dir, worldSize);
  }

  /** A successful load read one file for every rank below the single world size. */
  lemma SuccessLoadsEveryRank<E>(dir: Directory<E>)
    requires Consolidated(dir).Success?
    ensures exists worldSize: nat ::
      && WorldSizes(ShardFiles(dir)) == {worldSize}
      && forall r: nat :: r < worldSize ==> Loadable(dir, worldSize, r)
  {
    var sizes := WorldSizes(ShardFiles(dir));
    var worldSize := OnlyElement(sizes);
    LoadRanksSuccess(dir, worldSize, worldSize);
  }

  /**
   * When every rank loads, the result holds exactly the keys of the shards,
   * and each key's value merges that key's values in rank order.
   */
  lemma ConsolidatedSucceeds<E>(dir: Directory<E>, worldSize: nat, shards: seq<Shard<E>>)
    requires WorldSizes(ShardFiles(dir)) == {worldSize}
    requires |shards| == worldSize
    requires forall r: nat :: r < worldSize ==>
      Loadable(dir, worldSize, r) && dir[ShardFileName(worldSize, r)].value == shards[r]
    ensures Consolidated(dir).Success?
    ensures Consolidated(dir).value.Keys == UnionKeys(shards)
    ensures forall k :: k in UnionKeys(shards) ==>
      |Column(shards, k)| > 0 && Consolidated(dir).value[k] == Merge(Column(shards, k))
  {
    LoadRanksAll(dir, worldSize, worldSize);
    assert LoadRanks(dir, worldSize, worldSize).value == shards;
    ConsolidatedFromShards(dir, worldSize, shards);
    BufferedByKey(shards);
    forall k | k in UnionKeys(shards)
      ensures |Column(shards, k)| > 0 && Consolidated(dir).value[k] == Merge(Column(shards, k))
    {
      assert Lookup(Buffered(shards), k) == Buffered(shards)[k];
    }
  }

  /** The listed files of a directory with one more entry. */
  lemma ShardFilesInsert<E>(dir: Directory<E>, name: string, entry: Option<Shard<E>>)
    ensures GlobMatch(name) ==> ShardFiles(dir[name := entry]) == ShardFiles(dir) + {name}
    ensures !GlobMatch(name) ==> ShardFiles(dir[name := entry]) == ShardFiles(dir)
  {
  }

  /** Entries the glob does not list never change the outcome. */
  lemma UnlistedEntryIgnored<E>(dir: Directory<E>, name: string, entry: Option<Shard<E>>)
    requires !GlobMatch(name)
    ensures Consolidated(dir[name := entry]) == Consolidated(dir)
  {
    var dir' := dir[name := entry];
    ShardFilesInsert(dir, name, entry);
    var sizes := WorldSizes(ShardFiles(dir));
    if ShardFiles(dir) != {} && |sizes| == 1 {
      var worldSize := OnlyElement(sizes);
      forall r: nat | r < worldSize ensures ShardFileName(worldSize, r) != name {
        ShardFileNameRoundTrip(worldSize, r);
      }
      LoadRanksFrame(dir, dir', worldSize, worldSize);
    }
  }

  /** Two directories with the same single world size and the same loads have the same outcome. */
  lemma SameLoadsSameOutcome<E>(dir: Directory<E>, dir': Directory<E>, worldSize: nat)
    requires WorldSizes(ShardFiles(dir)) == {worldSize} == WorldSizes(ShardFiles(dir'))
    requires LoadRanks(dir, worldSize, worldSize) == LoadRanks(dir', worldSize, worldSize)
    ensures Consolidated(dir) == Consolidated(dir')
  {
    if LoadRanks(dir, worldSize, worldSize).Failure? {
      ConsolidatedRankFailure(dir, worldSize);
      ConsolidatedRankFailure(dir', worldSize);
    } else {
      ConsolidatedFromShards(dir, worldSize, LoadRanks(dir, worldSize, worldSize).value);
      ConsolidatedFromShards(dir', worldSize, LoadRanks(dir, worldSize, worldSize).value);
    }
  }

  /** Adding a file named for the known world size keeps it the only one. */
  lemma InsertKeepsWorldSize<E>(dir: Directory<E>, worldSize: nat, rank: nat, entry: Option<Shard<E>>)
    requires WorldSizes(ShardFiles(dir)) == {worldSize}
    ensures WorldSizes(ShardFiles(dir[ShardFileName(worldSize, rank) := entry])) == {worldSize}
  {
    var name := ShardFileName(worldSize, rank);
    ShardFileNameRoundTrip(worldSize, rank);
    ShardFilesInsert(dir, name, entry);
    WorldSizesAdd(ShardFiles(dir), name);
  }

  /** Files for ranks at or above the world size are listed but never opened. */
  lemma HighRankIgnored<E>(dir: Directory<E>, worldSize: nat, rank: nat, entry: Option<Shard<E>>)
    requires WorldSizes(ShardFiles(dir)) == {worldSize}
    requires worldSize <= rank
    ensures Consolidated(dir[ShardFileName(worldSize, rank) := entry]) == Consolidated(dir)
  {
    var name := ShardFileName(worldSize, rank);
    var dir' := dir[name := entry];
    InsertKeepsWorldSize(dir, worldSize, rank, entry);
    forall r: nat | r < worldSize ensures ShardFileName(worldSize, r) != name {
      if ShardFileName(worldSize, r) == name {
        ShardFileNameInjective(worldSize, r, worldSize, rank);
      }
    }
    LoadRanksFrame(dir, dir', worldSize, worldSize);
    SameLoadsSameOutcome(dir, dir', worldSize);
  }

  // ---------------------------------------------------------------------------
  // Small directories
  // ---------------------------------------------------------------------------

  /** The world sizes of one or two listed names. */
  lemma WorldSizesOfTwo(a: string, b: string)
    ensures WorldSizes({a}) == SizeOf(a)
    ensures WorldSizes({a, b}) == SizeOf(a) + SizeOf(b)
  {
    WorldSizesAdd({}, a);
    assert {} + {a} == {a};
    WorldSizesAdd({a}, b);
    assert {a} + {b} == {a, b};
  }

  /** A world size of 0 opens no file and consolidates to the empty mapping, whatever the directory holds. */
  lemma ZeroWorldSizeIsEmpty<E>(dir: Directory<E>)
    requires WorldSizes(ShardFiles(dir)) == {0}
    ensures Consolidated(dir) == Success(map[])
  {
    ConsolidatedSucceeds(dir, 0, []);
  }

  /** The rank-0 file of world size 0 is listed but never opened, so even an unreadable one does no harm. */
  lemma ZeroWorldSizeSkipsUnreadable()
    ensures var dir: Directory<int> := map[ShardFileName(0, 0) := None];
      Consolidated(dir) == Success(map[])
  {
    var name := ShardFileName(0, 0);
    var dir: Directory<int> := map[name := None];
    ShardFileNameRoundTrip(0, 0);
    assert ShardFiles(dir) == {name};
    WorldSizesOfTwo(name, name);
    ZeroWorldSizeIsEmpty(dir);
  }

  /** A name the glob lists but the pattern rejects yields no world size at all. */
  lemma GlobOnlyNameRejected()
    ensures var dir: Directory<int> := map["model_world_size_a_rank_0.pt" := Some(map[])];
      Consolidated(dir) == Failure(InconsistentWorldSize({}))
  {
    var name := "model_world_size_a_rank_0.pt";
    var dir: Directory<int> := map[name := Some(map[])];
    GlobWithoutDigits();
    assert ShardFiles(dir) == {name};
    WorldSizesOfTwo(name, name);
    ConsolidatedChecksNames(dir);
  }

  /** A zero-padded name is listed, but the file opened for rank 0 is the unpadded one. */
  lemma PaddedNameMissesRankZero()
    ensures var dir: Directory<int> := map[GlobName("02", "00") := Some(map[])];
      Consolidated(dir) == Failure(MissingShard(0))
  {
    var name := GlobName("02", "00");
    var dir: Directory<int> := map[name := Some(map[])];
    GlobMatchCorrect(name);
    LeadingZerosRenamed();
    assert ShardFiles(dir) == {name};
    WorldSizesOfTwo(name, name);
    FirstGapReported(dir, 2, 0);
  }

  /** A directory of two listed names lists both. */
  lemma ShardFilesOfTwo<E>(dir: Directory<E>, a: string, b: string)
    requires dir.Keys == {a, b} && GlobMatch(a) && GlobMatch(b)
    ensures ShardFiles(dir) == {a, b}
  {
  }

  /** A rank file of one world size is one of two exactly when its rank is one of theirs. */
  lemma RankFileAmongTwo(worldSize: nat, r0: nat, r1: nat, r: nat)
    ensures ShardFileName(worldSize, r) in {ShardFileName(worldSize, r0), ShardFileName(worldSize, r1)}
      <==> r == r0 || r == r1
  {
    if ShardFileName(worldSize, r) == ShardFileName(worldSize, r0) {
      ShardFileNameInjective(worldSize, r, worldSize, r0);
    }
    if ShardFileName(worldSize, r) == ShardFileName(worldSize, r1) {
      ShardFileNameInjective(worldSize, r, worldSize, r1);
    }
  }

  /** The files of a directory holding exactly two rank files of one world size. */
  lemma TwoRankFiles<E>(dir: Directory<E>, worldSize: nat, r0: nat, r1: nat)
    requires dir.Keys == {ShardFileName(worldSize, r0), ShardFileName(worldSize, r1)}
    ensures WorldSizes(ShardFiles(dir)) == {worldSize}
  {
    var a, b := ShardFileName(worldSize, r0), ShardFileName(worldSize, r1);
    ShardFileNameRoundTrip(worldSize, r0);
    ShardFileNameRoundTrip(worldSize, r1);
    ShardFilesOfTwo(dir, a, b);
    WorldSizesOfTwo(a, b);
  }

  /** A directory holding exactly the files of ranks 0 and 2, rank 0 readable, reports rank 1 missing. */
  lemma GapAtRankOne<E>(dir: Directory<E>, worldSize: nat)
    requires 2 < worldSize
    requires dir.Keys == {ShardFileName(worldSize, 0), ShardFileName(worldSize, 2)}
    requires dir[ShardFileName(worldSize, 0)].Some?
    ensures Consolidated(dir) == Failure(MissingShard(1))
  {
    TwoRankFiles(dir, worldSize, 0, 2);
    RankFileAmongTwo(worldSize, 0, 2, 1);
    FirstGapReported(dir, worldSize, 1);
  }

  /** Ranks 0 and 2 of a world size above 2: rank 1 is reported missing. */
  lemma MiddleRankMissing<E>(worldSize: nat, s0: Shard<E>, s2: Shard<E>)
    requires 2 < worldSize
    ensures var dir := map[ShardFileName(worldSize, 0) := Some(s0), ShardFileName(worldSize, 2) := Some(s2)];
      Consolidated(dir) == Failure(MissingShard(1))
  {
    var dir := map[ShardFileName(worldSize, 0) := Some(s0), ShardFileName(worldSize, 2) := Some(s2)];
    GapAtRankOne(dir, worldSize);
  }

  /** Loading two ranks that are both present gives their shards in rank order. */
  lemma LoadRanksTwo<E>(dir: Directory<E>, worldSize: nat, s0: Shard<E>, s1: Shard<E>)
    requires ShardFileName(worldSize, 0) in dir && dir[ShardFileName(worldSize, 0)] == Some(s0)
    requires ShardFileName(worldSize, 1) in dir && dir[ShardFileName(worldSize, 1)] == Some(s1)
    ensures LoadRanks(dir, worldSize, 2) == Success([s0, s1])
  {
    assert LoadRanks(dir, worldSize, 0) == Success([]);
    assert Loadable(dir, worldSize, 0) && Loadable(dir, worldSize, 1);
    assert [] + [s0] == [s0] && [s0] + [s1] == [s0, s1];
  }

  /** Two complete ranks: the result merges rank 0's and rank 1's shards. */
  lemma TwoRanksLoaded<E>(s0: Shard<E>, s1: Shard<E>)
    ensures forall k :: k in Buffered([s0, s1]) ==> |Buffered([s0, s1])[k]| > 0
    ensures var dir := map[ShardFileName(2, 0) := Some(s0), ShardFileName(2, 1) := Some(s1)];
      Consolidated(dir) == Success(MergeAll(Buffered([s0, s1])))
  {
    var a, b := ShardFileName(2, 0), ShardFileName(2, 1);
    var dir := map[a := Some(s0), b := Some(s1)];
    RankFileAmongTwo(2, 0, 0, 1);
    TwoRankFiles(dir, 2, 0, 1);
    LoadRanksTwo(dir, 2, s0, s1);
    ConsolidatedFromShards(dir, 2, [s0, s1]);
  }

  /** A key every shard holds gathers one value per rank, in rank order. */
  lemma {:induction false} ColumnOfEveryRank<E>(shards: seq<Shard<E>>, key: string)
    requires forall r :: 0 <= r < |shards| ==> key in shards[r]
    ensures |Column(shards, key)| == |shards|
    ensures forall r :: 0 <= r < |shards| ==> Column(shards, key)[r] == ToLocal(shards[r][key])
  {
    if shards != [] {
      var front := shards[..|shards| - 1];
      ColumnOfEveryRank(front, key);
    }
  }

  /**
   * A parameter sharded across all ranks (every rank holds an at least
   * one-dimensional piece of one trailing shape) is merged into their
   * concatenation: split at the pieces' lengths, it gives back each rank's piece.
   */
  lemma ShardedParameterConcatenated<E>(shards: seq<Shard<E>>, key: string, trailing: seq<nat>)
    requires 0 < |shards|
    requires forall r :: 0 <= r < |shards| ==>
      key in shards[r] && ToLocal(shards[r][key]).Array? && ToLocal(shards[r][key]).trailing == trailing
    ensures |Column(shards, key)| == |shards|
    ensures Concatenable(Column(shards, key)) && AllArrays(Column(shards, key))
    ensures Merge(Column(shards, key)).Array? && Merge(Column(shards, key)).trailing == trailing
    ensures forall r :: 0 <= r < |shards| ==>
      Split(Merge(Column(shards, key)).rows, Lengths(Column(shards, key)))[r] == ToLocal(shards[r][key]).rows
  {
    ColumnOfEveryRank(shards, key);
    assert Concatenable(Column(shards, key));
  }

  /**
   * A parameter that rank 0 holds as a 0-dimensional value (torch.cat refuses
   * it) is merged to rank 0's value.
   */
  lemma ScalarKeepsRankZero<E>(shards: seq<Shard<E>>, key: string)
    requires 0 < |shards| && key in shards[0] && ToLocal(shards[0][key]).Scalar?
    ensures |Column(shards, key)| > 0
    ensures Merge(Column(shards, key)) == ToLocal(shards[0][key])
  {
    ColumnByRank(shards, key);
    var hs := Holders(shards, key);
    assert 0 in hs;
    assert hs[0] == 0;
  }

  /** `rows` written n times, one copy after another. */
  function Repeat<E>(rows: seq<E>, n: nat): (r: seq<E>)
    ensures |r| == n * |rows|
  {
    if n == 0 then [] else rows + Repeat(rows, n - 1)
  }

  lemma {:induction false} RowsOfCopies<E>(parts: seq<Tensor<E>>, t: Tensor<E>)
    requires t.Array? && forall i :: 0 <= i < |parts| ==> parts[i] == t
    ensures AllArrays(parts) && Rows(parts) == Repeat(t.rows, |parts|)
  {
    if parts != [] {
      RowsOfCopies(parts[1..], t);
    }
  }

  /**
   * A vector every rank holds identically is not recognised as replicated: its
   * copies are compatible, so they are concatenated, world-size times over.
   */
  lemma ReplicatedVectorRepeated<E>(shards: seq<Shard<E>>, key: string, t: Tensor<E>)
    requires 0 < |shards| && t.Array?
    requires forall r :: 0 <= r < |shards| ==> key in shards[r] && ToLocal(shards[r][key]) == t
    ensures Merge(Column(shards, key)) == Array(t.trailing, Repeat(t.rows, |shards|))
  {
    var parts := Column(shards, key);
    ColumnOfEveryRank(shards, key);
    RowsOfCopies(parts, t);
    assert Concatenable(parts);
  }
}
