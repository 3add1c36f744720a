# Cube packing in a unit sphere: a Dafny model of the packing worker

The program shows an animated field of rounded cubes packed inside a unit sphere. A
background worker finds the positions and radii by rejection sampling. It draws a centre in
the cube `[-1, 1)^3` and gives it the largest radius that its slack to the unit sphere allows,
shrunk by `1/sqrt(3)` and clamped to `MAX_R = 0.3`. A candidate whose radius would fall below
`MIN_R = 0.003` is rejected, not enlarged. The candidate is kept only if it stays at least
`MIN_R` away from every earlier sphere. Accepted spheres are appended to a flat `packed`
buffer of `(x, y, z, r)` quadruples. After every 20th placement the last 20 are posted to the
page. The page sorts each received sphere into one of three instanced meshes by size. It also
turns the whole field by a random composition of an x-axis turn and a y-axis turn, each by
-90, 0 or +90 degrees. The pair of turns is never the pair of zero turns and never the same
pair as the previous time.

This project models that core over Dafny's `real` numbers:

- `geometry.dfy` (`Geometry`): points, squared distances and `dist3`. `Math.sqrt` is a
  parameter `sqrt` that obeys the square-root law (`IsSqrt`). Lemmas turn the worker's
  square-root comparisons into comparisons of squares.
- `packing.dfy` (`Packing`): `get_radius` as a function (`GetRadius`) and, with its early
  `break`, as a method (`ComputeRadius`). It also holds the set invariant (`Valid`: radii in
  range, spheres inside the ball, pairwise gaps), one iteration of the append loop (`Step`)
  and a whole run of candidates (`Replay`).
- `chunks.dfy` (`Chunks`): the stride-4 layout of `packed`, the posting rule and the
  `subarray` window. `subarray` counts a negative index back from the end, as typed arrays do.
- `worker.dfy` (`Worker`): the worker's main loop (`Run`) and the messages
  `{ n, tests_n, data }` it posts.
- `presenter.dfy` (`Presenter`): the counting part of `set_instances`, meaning the size class
  and the per-mesh instance counts.
- `rotation.dfy` (`Rotation`): `get_rnd_qt`, the choice of the next pair of turns, with the
  id and its bit operations on 32-bit vectors.

`Math.random` is replaced by inputs. The worker gets a finite list of candidate centres and
uses them in order. `get_rnd_qt` gets, for each call, a finite list of draw pairs in `[0, 3)`.
The worker has two nested loops: the outer one runs until `N` placements are stored and the
inner one retries until a candidate is accepted. `Run` merges them into one loop that uses one
candidate per iteration. It stops when `N` placements are stored or the candidates run out.
The sequence of states and messages is the same as with the two loops.

Two facts about the code shape the model:

- The worker never sends a shorter final batch. Every message is the 20-placement window
  ending at the newest placement (main.js:173-176). With `N = 6000` posting happens exactly
  at the positive multiples of 20 (`Chunks.PostsAtMultiples`), so the windows tile `packed`.
  For an `N` that is not a multiple of 20 the last window would overlap the previous one, and
  for `N < 20` its start index would be negative and `subarray` would count it back from the
  end of the buffer.
- `tests_n` is set to 0 (main.js:134) and never incremented, so every message reports
  `tests_n == 0` (`Worker.Run`).

## Model

| member | source | states |
|---|---|---|
| Geometry.Dist | main.js:137-139 | `dist3` is non-negative and its square is the sum of the squared coordinate differences |
| Geometry.Norm | main.js:141 | the distance of the candidate from the origin is non-negative and squares to its squared norm |
| Geometry.DistBelow | main.js:151 | the worker's test `dist < bound` holds exactly when `dist^2 < bound^2` (non-negative bound) |
| Geometry.InBallSquared | main.js:141-143 | `|c| + r <= 1` holds exactly when `r <= 1` and `|c|^2 <= (1 - r)^2` |
| Packing.ShrinkIsThird | main.js:143 | `sqrt(s*s*4/3)/2` is non-negative, its square is `s^2/3`, and it never exceeds a non-negative slack |
| Packing.BoundaryRadius | main.js:141-144 | the boundary radius is 0 or in `[MIN_R, MAX_R]`; it is 0 whenever the slack is below `MIN_R`; it is nonzero exactly when slack `>= MIN_R` and slack^2 `>= 3*MIN_R^2`; a nonzero one is `MAX_R` or exactly `slack/sqrt(3)`, never more, so the sphere stays in the unit ball |
| Packing.GetRadius | main.js:140-157 | the radius is 0 or in `[MIN_R, MAX_R]`; slack below `MIN_R` gives 0; a nonzero radius is exactly the boundary radius, so at most `slack/sqrt(3)`, keeps the sphere in the ball and keeps `dist >= r + r_i + MIN_R` to every earlier placement; one conflict forces 0; with no conflict the boundary radius is returned, also when there is no earlier placement |
| Packing.ComputeRadius | main.js:140-157 | the scan with early `break` returns the same radius as the reference `GetRadius` |
| Packing.AcceptanceCharacterized | main.js:145-156 | a candidate is accepted exactly when its boundary radius is nonzero and the resulting sphere keeps the squared `MIN_R` gap to every earlier placement; an accepted sphere is in range and inside the ball |
| Packing.Step | main.js:159-171 | one iteration stores a placement exactly when `get_radius` is nonzero, then exactly one, at index `n`, with the candidate's centre and that radius; entries before `n` stay unchanged |
| Packing.StepPreservesValid | main.js:159-171 | appending an accepted placement keeps radii in `[MIN_R, MAX_R]`, containment in the unit ball and the pairwise `MIN_R` gap on the longer prefix |
| Packing.Replay | main.js:159-172 | every run of candidates from an empty set yields a valid set with at most one placement per candidate |
| Packing.ReplayAppendOnly | main.js:159-172 | the set is append-only: a shorter run's placements are a prefix of a longer run's |
| Chunks.Flatten | main.js:167-171 | the flat buffer has four reals per placement |
| Chunks.UnflattenFlatten | main.js:61-65 | reading the flat data in stride-4 groups gives back exactly the placements that were written |
| Chunks.FlattenUnflatten | main.js:61-65 | writing back the stride-4 groups read from flat data of length divisible by 4 gives the same data |
| Chunks.PostsAtMultiples | main.js:173 | for `1 <= n <= N` a chunk is posted exactly when `n` is a positive multiple of 20, because `N = 6000` is one |
| Chunks.Buffer | main.js:132 | the buffer has `4N` reals and starts with the flattened placements |
| Chunks.ResolveIndex | main.js:175 | a `subarray` index always lands within the buffer and an in-range index is kept as given |
| Chunks.PostedChunkIsLastWindow | main.js:173-176 | when a chunk is posted, its start `i - 19*4` is `4(n - 20) >= 0` and the chunk is exactly placements `n-20 .. n-1`, 80 reals |
| Worker.PostExtendsStream | main.js:173-176 | a message posted after placement `n` reports `n`, carries the 20 placements right after those already posted, and leaves the earlier messages as they were |
| Worker.PostCompletesPayload | main.js:173-176 | with that message added, the concatenated payload is the flattened `packed` |
| Worker.AppendKeepsStream | main.js:167-177 | one append followed by the posting rule keeps the message stream consistent: message `k` reports `n = 20(k+1)` and `tests_n = 0`, carries placements `20k .. 20k+19`, and the payload is the flattened prefix |
| Worker.Advance | main.js:160-177 | one iteration tests one candidate, leaves the set as one `Step` would, and keeps the message stream consistent |
| Worker.Run | main.js:159-178 | the run uses the candidates in order and its set is what replaying them gives; the set is valid with at most `N` placements; it stops early only when candidates run out; it posts `n / 20` messages with `tests_n == 0` whose payloads are disjoint, contiguous and, after `N` placements, concatenate to all of `packed` |
| Presenter.SizeClass | main.js:69 | class 2 exactly when `r > 0.1`, class 1 exactly when `0.01 < r <= 0.1`, class 0 exactly when `r <= 0.01` |
| Presenter.SizeClassMonotone | main.js:69 | a larger radius never lands in a smaller class |
| Presenter.Bump | main.js:70-76 | a placement adds one to its own class's count and leaves the other two counts as they were |
| Presenter.Ingest | main.js:61-76 | one message adds `ceil(len/4)` to the total of the three counts and never lowers a count |
| Presenter.CountClassesSum | main.js:69 | every placement is in exactly one of the three classes |
| Presenter.IngestFlatten | main.js:61-76 | ingesting flattened placements adds to each mesh the number of placements of its class |
| Presenter.IngestAllIsPayload | main.js:59-77 | handling the messages one at a time counts the same as handling their concatenated payload |
| Presenter.CountsMatchReportedN | main.js:60-78 | after each message of 20 placements, the three counts add up to the `n` the message reports |
| Presenter.CompleteRunCounts | main.js:59-77 | once the messages cover all of `packed`, each mesh holds exactly the placements of its class and the meshes together hold all of them |
| Rotation.ToInt32 | main.js:93 | a draw in `[0, 3)` converts to its integer part: 0 exactly below 1, 2 exactly from 2 on, otherwise 1 |
| Rotation.DrawId | main.js:93 | the 32-bit id `(u << 2) + (v & 3)` is `4a + b` for the integer parts `a`, `b` of the draws, and `id >> 2`, `id & 3` give back `a` and `b` |
| Rotation.GetRndQt | main.js:92-96 | a chosen id is `4a + b` with both table indices `id >> 2` and `id & 3` in `0..2`; it is never 5 (the double identity) and never the previous id; it comes from the first draw not rejected, and every earlier draw was rejected; no rotation is chosen exactly when every draw is rejected |
| Rotation.EveryOtherTurnReachable | main.js:93-95 | every id `4a + b` other than the identity and the previous id is accepted when drawn |
| Rotation.Turns | main.js:91-96 | over successive calls with `prev_qt_id` updated to the returned id: no turn is the identity, the first is what `get_rnd_qt` chooses from the initial previous id and differs from it, no two consecutive turns are equal, and the sequence stops early only at a call whose draws are all rejected |
| Rotation.TurnsAt | main.js:91-96 | turn `i` is exactly the id `get_rnd_qt` chooses on call `i` with `prev_qt_id` equal to turn `i - 1` (the initial value for the first call) |

## Left out

- Float32 storage: the worker stores coordinates and radii in a `Float32Array`, which rounds them. The model keeps exact reals, so its invariants hold exactly rather than up to rounding.
- `Math.sqrt` rounding: the square root is any function that obeys the exact square-root law.
- `Math.random`, `rnd_pos` and the random colours: the random draws are inputs. The unbounded retry loops (`while (r === 0)` and the recursion in `get_rnd_qt`) use finite lists of inputs. The model does not claim that either loop terminates.
- Rendering, lighting, camera, `InstancedMesh` matrix and colour writes, and the render loop are calls into a 3D library with no logic of their own to state. Only the instance counts of `set_instances` are modelled.
- Worker creation, `postMessage`/`onmessage` transport and the `log.textContent` output are I/O. Messages are modelled as a returned sequence in posting order.
- The easing polynomial, the quaternion premultiply and slerp, and the timers of the rotation animation are floating-point animation code. Only the choice of the table indices is modelled.
- Window resize handling is UI.
