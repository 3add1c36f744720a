/** The consumer side of the message stream (`set_instances`): every received placement goes
    to one of three instanced meshes by its radius, and that mesh's instance count grows by
    one. The matrix and colour writes are left out; only the counts are modelled. */
module Presenter {
  import opened Packing
  import opened Chunks
  import opened Worker

  /** Instance counts of the three meshes, `cubes[0].num`, `cubes[1].num`, `cubes[2].num`. */
  datatype Tally = Tally(small: nat, medium: nat, large: nat) {
    function Total(): nat {
      small + medium + large
    }

    function Count(k: nat): nat
      requires k <= 2
    {
      if k == 0 then small else if k == 1 then medium else large
    }
  }

  const Empty: Tally := Tally(0, 0, 0)

  /** `side_id`: the size class of a radius. */
  function SizeClass(r: real): (k: nat)
    ensures k <= 2
    ensures k == 2 <==> r > 0.1
    ensures k == 1 <==> 0.01 < r <= 0.1
    ensures k == 0 <==> r <= 0.01
  {
    if r > 0.01 then (if r > 0.1 then 2 else 1) else 0
  }

  /** A larger radius never lands in a smaller class. */
  lemma SizeClassMonotone(r1: real, r2: real)
    requires r1 <= r2
    ensures SizeClass(r1) <= SizeClass(r2)
  {
  }

  /** `mesh.count = ++inst.num` on the mesh of class `k`. */
  function Bump(t: Tally, k: nat): (u: Tally)
    requires k <= 2
    ensures u.Total() == t.Total() + 1
    ensures u.Count(k) == t.Count(k) + 1
    ensures forall j :: 0 <= j <= 2 && j != k ==> u.Count(j) == t.Count(j)
  {
    if k == 0 then t.(small := t.small + 1)
    else if k == 1 then t.(medium := t.medium + 1)
    else t.(large := t.large + 1)
  }

  /** The loop `for (i = 0; i < data.length; i += 4)` over one message's data: it adds one
      instance per started group of four, `ceil(data.length / 4)` in all. A trailing
      group shorter than four reads `r` past the end; `undefined > 0.01` is false, so that
      group counts in the smallest class. */
  function Ingest(t: Tally, data: seq<real>): (u: Tally)
    ensures |data| <= STRIDE * (u.Total() - t.Total()) < |data| + STRIDE
    ensures u.small >= t.small && u.medium >= t.medium && u.large >= t.large
    decreases |data|
  {
    if |data| == 0 then t
    else if |data| < STRIDE then Bump(t, 0)
    else Ingest(Bump(t, SizeClass(data[3])), data[STRIDE..])
  }

  /** How many of the placements fall in size class `k`. */
  function CountClass(ps: seq<Placement>, k: nat): (c: nat)
    ensures c <= |ps|
  {
    if |ps| == 0 then 0
    else (if SizeClass(ps[0].r) == k then 1 else 0) + CountClass(ps[1..], k)
  }

  lemma {:induction false} CountClassesSum(ps: seq<Placement>)
    ensures CountClass(ps, 0) + CountClass(ps, 1) + CountClass(ps, 2) == |ps|
  {
    if |ps| > 0 {
      CountClassesSum(ps[1..]);
    }
  }

  /** Ingesting flattened placements adds, to each mesh, the number of placements of its
      class. */
  lemma {:induction false} IngestFlatten(t: Tally, ps: seq<Placement>)
    ensures Ingest(t, Flatten(ps)) ==
              Tally(t.small + CountClass(ps, 0), t.medium + CountClass(ps, 1),
                    t.large + CountClass(ps, 2))
    decreases |ps|
  {
    if |ps| > 0 {
      var data := Flatten(ps);
      assert data[3] == ps[0].r;
      assert data[STRIDE..] == Flatten(ps[1..]);
      IngestFlatten(Bump(t, SizeClass(ps[0].r)), ps[1..]);
    }
  }

  lemma {:induction false} IngestAppend(t: Tally, a: seq<real>, b: seq<real>)
    requires |a| % STRIDE == 0
    ensures Ingest(t, a + b) == Ingest(Ingest(t, a), b)
    decreases |a|
  {
    if |a| == 0 {
      assert a + b == b;
    } else {
      assert (a + b)[3] == a[3];
      assert (a + b)[STRIDE..] == a[STRIDE..] + b;
      IngestAppend(Bump(t, SizeClass(a[3])), a[STRIDE..], b);
    }
  }

  lemma StrideSum(a: nat, b: nat)
    requires a % STRIDE == 0 && b % STRIDE == 0
    ensures (a + b) % STRIDE == 0
  {
    assert a == STRIDE * (a / STRIDE) && b == STRIDE * (b / STRIDE);
    assert a + b == STRIDE * (a / STRIDE + b / STRIDE);
  }

  /** `set_instances` applied to every message of the stream, in order. */
  function IngestAll(t: Tally, posts: seq<Message>): Tally {
    if |posts| == 0 then t
    else Ingest(IngestAll(t, posts[..|posts| - 1]), posts[|posts| - 1].data)
  }

  /** Ingesting the messages one by one is ingesting their concatenated payload. */
  lemma {:induction false} IngestAllIsPayload(t: Tally, posts: seq<Message>)
    requires forall k :: 0 <= k < |posts| ==> |posts[k].data| % STRIDE == 0
    ensures IngestAll(t, posts) == Ingest(t, Payload(posts))
    ensures |Payload(posts)| % STRIDE == 0
  {
    if |posts| > 0 {
      var init, last := posts[..|posts| - 1], posts[|posts| - 1];
      assert forall k :: 0 <= k < |init| ==> init[k] == posts[k];
      IngestAllIsPayload(t, init);
      assert Payload(posts) == Payload(init) + last.data;
      assert IngestAll(t, posts) == Ingest(IngestAll(t, init), last.data);
      IngestAppend(t, Payload(init), last.data);
      StrideSum(|Payload(init)|, |last.data|);
    }
  }

  /** After each message, the counts shown by the meshes add up to the `n` the message
      reports. */
  lemma {:induction false} CountsMatchReportedN(posts: seq<Message>)
    requires forall k :: 0 <= k < |posts| ==>
               |posts[k].data| == STRIDE * N_PER_CHUNK && posts[k].n == N_PER_CHUNK * (k + 1)
    ensures |posts| > 0 ==> IngestAll(Empty, posts).Total() == posts[|posts| - 1].n
    ensures IngestAll(Empty, posts).Total() == N_PER_CHUNK * |posts|
  {
    if |posts| > 0 {
      CountsMatchReportedN(posts[..|posts| - 1]);
    }
  }

  /** Every message of a well-formed stream carries 20 whole placements. */
  lemma PostsCarryFullChunks(packed: seq<Placement>, posts: seq<Message>)
    requires WellFormedPosts(packed, posts)
    ensures forall k :: 0 <= k < |posts| ==> |posts[k].data| == STRIDE * N_PER_CHUNK
  {
    forall k | 0 <= k < |posts|
      ensures |posts[k].data| == STRIDE * N_PER_CHUNK
    {
      assert N_PER_CHUNK * (k + 1) <= N_PER_CHUNK * |posts|;
      assert |packed[N_PER_CHUNK * k..N_PER_CHUNK * (k + 1)]| == N_PER_CHUNK;
    }
  }

  /** Ingesting a well-formed stream whose payload is all of `packed` is ingesting the flat
      buffer of `packed`. */
  lemma StreamIngestIsFlatten(packed: seq<Placement>, posts: seq<Message>)
    requires WellFormedPosts(packed, posts)
    requires Payload(posts) == Flatten(packed)
    ensures IngestAll(Empty, posts) == Ingest(Empty, Flatten(packed))
  {
    PostsCarryFullChunks(packed, posts);
    IngestAllIsPayload(Empty, posts);
  }

  /** The counts after ingesting the flat buffer of `packed` from empty meshes. */
  lemma FlattenCounts(packed: seq<Placement>)
    ensures Ingest(Empty, Flatten(packed)) ==
              Tally(CountClass(packed, 0), CountClass(packed, 1), CountClass(packed, 2))
  {
    IngestFlatten(Empty, packed);
  }

  /** Once a run's messages cover all of `packed` and are all received, each mesh holds
      exactly the placements of its size class and the meshes together hold all of them. */
  lemma CompleteRunCounts(packed: seq<Placement>, posts: seq<Message>)
    requires WellFormedPosts(packed, posts)
    requires Payload(posts) == Flatten(packed)
    ensures IngestAll(Empty, posts) ==
              Tally(CountClass(packed, 0), CountClass(packed, 1), CountClass(packed, 2))
    ensures IngestAll(Empty, posts).Total() == |packed|
  {
    StreamIngestIsFlatten(packed, posts);
    FlattenCounts(packed);
    CountClassesSum(packed);
  }
}
