/** The worker's main loop: draw candidates, append the accepted ones to `packed`, and post a
    message after every 20th placement. `Math.random` is replaced by a caller-supplied list of
    candidate centres, consumed in order; the run stops when `N` placements are stored or the
    list is exhausted. */
module Worker {
  import opened Geometry
  import opened Packing
  import opened Chunks

  /** A posted message `{ n, tests_n, data }`: the count so far, the test counter and one
      chunk of the flat buffer. */
  datatype Message = Message(n: nat, testsN: nat, data: seq<real>)

  /** All chunk data of a message stream, in posting order. */
  function Payload(posts: seq<Message>): seq<real> {
    if |posts| == 0 then [] else Payload(posts[..|posts| - 1]) + posts[|posts| - 1].data
  }

  /** The message stream of a finished run is well formed: message `k` reports
      `n == 20 * (k + 1)` and `tests_n == 0`, and carries placements `20k .. 20k + 19`. */
  predicate WellFormedPosts(packed: seq<Placement>, posts: seq<Message>) {
    N_PER_CHUNK * |posts| <= |packed| &&
    forall k :: 0 <= k < |posts| ==>
      posts[k].n == N_PER_CHUNK * (k + 1) && posts[k].testsN == 0 &&
      posts[k].data == Flatten(packed[N_PER_CHUNK * k..N_PER_CHUNK * (k + 1)])
  }

  /** The posting rule applied after the `n`-th placement is stored. */
  function PostAfterAppend(packed: seq<Placement>, posts: seq<Message>, testsN: nat): seq<Message>
    requires 1 <= |packed| <= N
  {
    if ShouldPost(|packed|) then posts + [Message(|packed|, testsN, PostedChunk(packed))]
    else posts
  }

  /** The stream invariant: one message per 20 placements, each well formed, and together
      carrying the placements they cover, in order. */
  predicate StreamInvariant(packed: seq<Placement>, posts: seq<Message>) {
    |posts| == |packed| / N_PER_CHUNK &&
    WellFormedPosts(packed, posts) &&
    Payload(posts) == Flatten(packed[..N_PER_CHUNK * |posts|])
  }

  /** Messages already posted keep describing the same slices when `packed` grows. */
  lemma GrowKeepsPosts(before: seq<Placement>, p: Placement, posts: seq<Message>)
    requires WellFormedPosts(before, posts)
    ensures WellFormedPosts(before + [p], posts)
  {
    var packed := before + [p];
    forall k | 0 <= k < |posts|
      ensures posts[k].data == Flatten(packed[N_PER_CHUNK * k..N_PER_CHUNK * (k + 1)])
    {
      var lo, hi := N_PER_CHUNK * k, N_PER_CHUNK * (k + 1);
      assert hi <= |before|;
      assert packed[lo..hi] == before[lo..hi];
    }
  }

  /** The payload posted so far still flattens the same prefix when `packed` grows. */
  lemma GrowKeepsPayload(before: seq<Placement>, p: Placement, posts: seq<Message>)
    requires N_PER_CHUNK * |posts| <= |before|
    requires Payload(posts) == Flatten(before[..N_PER_CHUNK * |posts|])
    ensures Payload(posts) == Flatten((before + [p])[..N_PER_CHUNK * |posts|])
  {
    var m := N_PER_CHUNK * |posts|;
    assert (before + [p])[..m] == before[..m];
  }

  /** A message posted after placement `n` carries the 20 placements that follow those of
      the earlier messages. */
  lemma PostExtendsStream(packed: seq<Placement>, posts: seq<Message>)
    requires 1 <= |packed| <= N && ShouldPost(|packed|)
    requires N_PER_CHUNK * |posts| == |packed| - N_PER_CHUNK
    requires WellFormedPosts(packed, posts)
    ensures WellFormedPosts(packed, PostAfterAppend(packed, posts, 0))
  {
    var lo := N_PER_CHUNK * |posts|;
    PostedChunkIsLastWindow(packed);
    var m := Message(|packed|, 0, PostedChunk(packed));
    var next := posts + [m];
    assert next[|posts|] == m;
    assert packed[N_PER_CHUNK * |posts|..N_PER_CHUNK * (|posts| + 1)] == packed[lo..];
    forall k | 0 <= k < |posts|
      ensures next[k] == posts[k]
    {
    }
  }

  /** With the message posted after placement `n`, the payload is all of `packed`. */
  lemma PostCompletesPayload(packed: seq<Placement>, posts: seq<Message>)
    requires 1 <= |packed| <= N && ShouldPost(|packed|)
    requires N_PER_CHUNK * |posts| == |packed| - N_PER_CHUNK
    requires Payload(posts) == Flatten(packed[..N_PER_CHUNK * |posts|])
    ensures Payload(PostAfterAppend(packed, posts, 0)) == Flatten(packed)
  {
    var lo := N_PER_CHUNK * |posts|;
    PostedChunkIsLastWindow(packed);
    assert packed == packed[..lo] + packed[lo..];
    FlattenAppend(packed[..lo], packed[lo..]);
    var m := Message(|packed|, 0, PostedChunk(packed));
    assert (posts + [m])[..|posts|] == posts;
  }

  /** Appending one placement and applying the posting rule keeps the stream invariant. */
  lemma AppendKeepsStream(before: seq<Placement>, p: Placement, posts: seq<Message>)
    requires |before| < N
    requires StreamInvariant(before, posts)
    ensures StreamInvariant(before + [p], PostAfterAppend(before + [p], posts, 0))
  {
    var packed := before + [p];
    var n := |packed|;
    GrowKeepsPosts(before, p, posts);
    GrowKeepsPayload(before, p, posts);
    PostsAtMultiples(n);
    if ShouldPost(n) {
      PostExtendsStream(packed, posts);
      PostCompletesPayload(packed, posts);
      assert packed[..N_PER_CHUNK * (|posts| + 1)] == packed;
    }
  }

  /** After `N` placements the messages carry all of `packed`. */
  lemma FullRunPayload(packed: seq<Placement>, posts: seq<Message>)
    requires |packed| == N
    requires StreamInvariant(packed, posts)
    ensures Payload(posts) == Flatten(packed)
  {
    assert packed[..N_PER_CHUNK * |posts|] == packed;
  }

  /** One iteration of the loop: test one candidate with `get_radius`, store it at index `n`
      when accepted, and post a chunk when the posting rule says so. */
  method Advance(sqrt: real -> real, c: Point, packed: seq<Placement>, posts: seq<Message>,
                 testsN: nat)
    returns (packed': seq<Placement>, posts': seq<Message>)
    requires IsSqrt(sqrt)
    requires |packed| < N
    requires testsN == 0
    requires StreamInvariant(packed, posts)
    ensures packed' == Step(sqrt, packed, c)
    ensures StreamInvariant(packed', posts')
  {
    var r := ComputeRadius(sqrt, c, packed);
    packed', posts' := packed, posts;
    if r != 0.0 {
      AppendKeepsStream(packed, Placement(c, r), posts);
      packed' := packed + [Placement(c, r)];
      posts' := PostAfterAppend(packed', posts, testsN);
    }
  }

  /** The `while (n < N)` loop of the worker, with its inner rejection loop flattened into
      one draw per iteration. */
  method Run(sqrt: real -> real, cands: seq<Point>)
    returns (packed: seq<Placement>, posts: seq<Message>, used: nat)
    requires IsSqrt(sqrt)
    ensures used <= |cands|
    ensures packed == Replay(sqrt, cands[..used])
    ensures Valid(packed)
    ensures |packed| <= N
    ensures |packed| < N ==> used == |cands|
    ensures StreamInvariant(packed, posts)
    ensures |packed| == N ==> Payload(posts) == Flatten(packed)
  {
    packed, posts, used := [], [], 0;
    var testsN: nat := 0;
    while |packed| < N && used < |cands|
      invariant used <= |cands|
      invariant packed == Replay(sqrt, cands[..used])
      invariant |packed| <= N
      invariant StreamInvariant(packed, posts)
    {
      ReplayNext(sqrt, cands, used);
      packed, posts := Advance(sqrt, cands[used], packed, posts, testsN);
      used := used + 1;
    }
    if |packed| == N {
      FullRunPayload(packed, posts);
    }
  }
}
