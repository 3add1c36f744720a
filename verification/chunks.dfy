/** The flat stride-4 layout of `packed` and the rule that decides when the worker posts a
    chunk and which slice of the buffer it sends. */
module Chunks {
  import opened Geometry
  import opened Packing

  /** Placements per posted chunk. */
  const N_PER_CHUNK: nat := 20

  /** Number of reals stored per placement: `x, y, z, r`. */
  const STRIDE: nat := 4

  function Quad(p: Placement): seq<real> {
    [p.center.x, p.center.y, p.center.z, p.r]
  }

  /** The placements laid out as `[x0, y0, z0, r0, x1, ...]`. */
  function Flatten(ps: seq<Placement>): (data: seq<real>)
    ensures |data| == STRIDE * |ps|
  {
    if |ps| == 0 then [] else Quad(ps[0]) + Flatten(ps[1..])
  }

  /** Reading flat data back in stride-4 groups, as the consumer does. */
  function Unflatten(data: seq<real>): (ps: seq<Placement>)
    requires |data| % STRIDE == 0
    ensures STRIDE * |ps| == |data|
  {
    if |data| == 0 then []
    else [Placement(Point(data[0], data[1], data[2]), data[3])] + Unflatten(data[STRIDE..])
  }

  lemma {:induction false} UnflattenFlatten(ps: seq<Placement>)
    ensures Unflatten(Flatten(ps)) == ps
  {
    if |ps| > 0 {
      assert Flatten(ps)[STRIDE..] == Flatten(ps[1..]);
      UnflattenFlatten(ps[1..]);
    }
  }

  lemma {:induction false} FlattenUnflatten(data: seq<real>)
    requires |data| % STRIDE == 0
    ensures Flatten(Unflatten(data)) == data
  {
    if |data| > 0 {
      var ps := Unflatten(data);
      assert ps[1..] == Unflatten(data[STRIDE..]);
      FlattenUnflatten(data[STRIDE..]);
      assert data == data[..STRIDE] + data[STRIDE..];
    }
  }

  lemma {:induction false} FlattenAppend(a: seq<Placement>, b: seq<Placement>)
    ensures Flatten(a + b) == Flatten(a) + Flatten(b)
  {
    if |a| > 0 {
      assert (a + b)[1..] == a[1..] + b;
      FlattenAppend(a[1..], b);
    } else {
      assert a + b == b;
    }
  }

  /** The chunk is posted right after the `n`-th placement is stored. */
  predicate ShouldPost(n: nat) {
    n % N_PER_CHUNK == 0 || n == N
  }

  /** Because `N` is a multiple of the chunk size, a chunk is posted after placement `n`
      exactly when `n` is a positive multiple of 20. */
  lemma PostsAtMultiples(n: nat)
    requires 1 <= n <= N
    ensures ShouldPost(n) <==> n % N_PER_CHUNK == 0 && n >= N_PER_CHUNK
  {
  }

  /** The `Float32Array` of `N * 4` reals: the stored placements, then zeros. */
  function Buffer(packed: seq<Placement>): (buf: seq<real>)
    requires |packed| <= N
    ensures |buf| == STRIDE * N
    ensures buf[..STRIDE * |packed|] == Flatten(packed)
  {
    Flatten(packed) + seq(STRIDE * (N - |packed|), _ => 0.0)
  }

  /** A `subarray` index: a negative one counts back from the end; both are clamped. */
  function ResolveIndex(idx: int, len: nat): (k: nat)
    ensures k <= len
    ensures 0 <= idx <= len ==> k == idx
  {
    if idx < 0 then (if len + idx < 0 then 0 else len + idx)
    else if idx > len then len
    else idx
  }

  /** `buf.subarray(begin, end)`. */
  function Subarray(buf: seq<real>, begin: int, end: int): (s: seq<real>)
    ensures |s| <= |buf|
  {
    var b := ResolveIndex(begin, |buf|);
    var e := ResolveIndex(end, |buf|);
    if e <= b then [] else buf[b..e]
  }

  /** The chunk sent after the `n`-th placement, `n == |packed|`: with `i = (n - 1) * 4`,
      the slice `packed.subarray(i - (N_PER_CHUNK - 1) * 4, i + 4)`. */
  function PostedChunk(packed: seq<Placement>): seq<real>
    requires 1 <= |packed| <= N
  {
    var i := (|packed| - 1) * STRIDE;
    Subarray(Buffer(packed), i - (N_PER_CHUNK - 1) * STRIDE, i + STRIDE)
  }

  /** Whenever a chunk is posted, its start index is non-negative and it holds exactly the
      last 20 placements, `n - 20 .. n - 1`. */
  lemma PostedChunkIsLastWindow(packed: seq<Placement>)
    requires 1 <= |packed| <= N
    requires ShouldPost(|packed|)
    ensures |packed| >= N_PER_CHUNK
    ensures (|packed| - 1) * STRIDE - (N_PER_CHUNK - 1) * STRIDE == STRIDE * (|packed| - N_PER_CHUNK) >= 0
    ensures PostedChunk(packed) == Flatten(packed[|packed| - N_PER_CHUNK..])
    ensures |PostedChunk(packed)| == STRIDE * N_PER_CHUNK
  {
    var n := |packed|;
    PostsAtMultiples(n);
    var buf := Buffer(packed);
    var lo := STRIDE * (n - N_PER_CHUNK);
    assert PostedChunk(packed) == buf[lo..STRIDE * n];
    assert packed == packed[..n - N_PER_CHUNK] + packed[n - N_PER_CHUNK..];
    FlattenAppend(packed[..n - N_PER_CHUNK], packed[n - N_PER_CHUNK..]);
    assert buf[..STRIDE * n] == Flatten(packed);
    assert buf[lo..STRIDE * n] == Flatten(packed)[lo..];
  }
}
