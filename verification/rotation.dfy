/** The choice of the next pair of turns (`get_rnd_qt`), an x-axis turn composed with a y-axis
    turn. A choice is a pair of indices into `qtxs` and `qtys`, the turns by -90, 0 and +90
    degrees about the x and the y axis, packed
    into one 32-bit id as `(a << 2) + (b & 3)`. Index 1 of both tables is the zero turn, so id 5
    is the identity and is never chosen; neither is the previous id. `prev_qt_id` starts at 5.
    Each `random(0, 3)` call becomes a caller-supplied draw, and the retry by recursion consumes
    a finite list of draw pairs. */
module Rotation {

  /** The two draws `random(0, 3)` of one attempt, each in [0, 3). */
  datatype Draw = Draw(u: real, v: real)

  predicate ValidDraw(d: Draw) {
    0.0 <= d.u < 3.0 && 0.0 <= d.v < 3.0
  }

  /** The id of the identity rotation, `qtxs[1]` with `qtys[1]`. */
  const IDENTITY_ID: bv32 := 5

  /** A number in [0, 3) converted to a 32-bit integer, as the bitwise operators do: its
      integer part. */
  function ToInt32(v: real): (k: bv32)
    requires 0.0 <= v < 3.0
    ensures k <= 2
    ensures k == 0 <==> v < 1.0
    ensures k == 2 <==> 2.0 <= v
  {
    if v < 1.0 then 0 else if v < 2.0 then 1 else 2
  }

  /** `(a << 2) + (b & 3)`. */
  function PackId(a: bv32, b: bv32): bv32 {
    (a << 2) + (b & 3)
  }

  /** For table indices `a, b` in `0..2` the bitwise id is `4a + b`, and `id >> 2` and
      `id & 3` give the two indices back. */
  lemma PackIdIndices(a: bv32, b: bv32)
    requires a <= 2 && b <= 2
    ensures PackId(a, b) == 4 * a + b
    ensures PackId(a, b) >> 2 == a
    ensures PackId(a, b) & 3 == b
  {
  }

  /** `(random(0, 3) << 2) + (random(0, 3) & 3)`. */
  function DrawId(d: Draw): (id: bv32)
    requires ValidDraw(d)
    ensures id == 4 * ToInt32(d.u) + ToInt32(d.v)
    ensures id >> 2 == ToInt32(d.u) && id & 3 == ToInt32(d.v)
  {
    PackIdIndices(ToInt32(d.u), ToInt32(d.v));
    PackId(ToInt32(d.u), ToInt32(d.v))
  }

  /** The rotation chosen: its id, the index into `qtxs` (`id >> 2`), the index into `qtys`
      (`id & 3`), and how many draw pairs were consumed. The new `prev_qt_id` is `id`. */
  datatype Choice = Choice(id: bv32, xIndex: bv32, yIndex: bv32, drawsUsed: nat)

  /** The outcome of `get_rnd_qt`; `Exhausted` when every supplied draw was rejected. */
  datatype Outcome = Chosen(choice: Choice) | Exhausted

  predicate Rejected(prev: bv32, d: Draw)
    requires ValidDraw(d)
  {
    DrawId(d) == prev || DrawId(d) == IDENTITY_ID
  }

  /** `get_rnd_qt`: the first draw whose id is neither the previous id nor the identity. */
  function GetRndQt(prev: bv32, draws: seq<Draw>): (res: Outcome)
    requires forall i :: 0 <= i < |draws| ==> ValidDraw(draws[i])
    ensures res.Chosen? ==>
              var c := res.choice;
              c.xIndex <= 2 && c.yIndex <= 2 &&
              c.id == 4 * c.xIndex + c.yIndex &&
              c.id != IDENTITY_ID && c.id != prev &&
              1 <= c.drawsUsed <= |draws| &&
              c.id == DrawId(draws[c.drawsUsed - 1]) &&
              forall j :: 0 <= j < c.drawsUsed - 1 ==> Rejected(prev, draws[j])
    ensures res.Exhausted? <==> forall j :: 0 <= j < |draws| ==> Rejected(prev, draws[j])
  {
    if |draws| == 0 then Exhausted
    else
      var id := DrawId(draws[0]);
      if id == prev || id == IDENTITY_ID then
        match GetRndQt(prev, draws[1..])
        case Exhausted => Exhausted
        case Chosen(c) => Chosen(c.(drawsUsed := c.drawsUsed + 1))
      else
        Chosen(Choice(id, id >> 2, id & 3, 1))
  }

  /** Conversely, every id `4a + b` with `a, b` in `0..2` that is neither the identity nor
      the previous id is accepted when drawn. */
  lemma EveryOtherTurnReachable(prev: bv32, a: bv32, b: bv32)
    requires a <= 2 && b <= 2
    requires 4 * a + b != prev && 4 * a + b != IDENTITY_ID
    ensures GetRndQt(prev, [Draw(a as real, b as real)]) == Chosen(Choice(4 * a + b, a, b, 1))
  {
    var d := Draw(a as real, b as real);
    assert DrawId(d) == 4 * a + b;
  }

  predicate ValidRounds(rounds: seq<seq<Draw>>) {
    forall k, i :: 0 <= k < |rounds| && 0 <= i < |rounds[k]| ==> ValidDraw(rounds[k][i])
  }

  /** `prev_qt_id` when call `i` of a sequence of calls starts: the initial value for the
      first call, otherwise the id the call before returned. */
  function PrevAt(prev: bv32, ids: seq<bv32>, i: nat): bv32
    requires i <= |ids|
  {
    if i == 0 then prev else ids[i - 1]
  }

  /** Successive calls of `get_rnd_qt`, each with the draws of one call, `prev_qt_id`
      updated to the id returned; the sequence stops at the first call whose draws are all
      rejected. */
  function Turns(prev: bv32, rounds: seq<seq<Draw>>): (ids: seq<bv32>)
    requires ValidRounds(rounds)
    ensures |ids| <= |rounds|
    ensures forall i :: 0 <= i < |ids| ==>
              ids[i] != IDENTITY_ID && ids[i] >> 2 <= 2 && ids[i] & 3 <= 2
    ensures |ids| > 0 ==> ids[0] != prev
    ensures forall i :: 0 <= i < |ids| - 1 ==> ids[i] != ids[i + 1]
    ensures |ids| > 0 ==>
              GetRndQt(prev, rounds[0]).Chosen? && GetRndQt(prev, rounds[0]).choice.id == ids[0]
    ensures |ids| < |rounds| ==> GetRndQt(PrevAt(prev, ids, |ids|), rounds[|ids|]).Exhausted?
    decreases |rounds|
  {
    if |rounds| == 0 then []
    else
      match GetRndQt(prev, rounds[0])
      case Exhausted => []
      case Chosen(c) =>
        ValidRoundsTail(rounds);
        [c.id] + Turns(c.id, rounds[1..])
  }

  /** The rounds after the first are valid rounds too. */
  lemma ValidRoundsTail(rounds: seq<seq<Draw>>)
    requires ValidRounds(rounds) && |rounds| > 0
    ensures ValidRounds(rounds[1..])
  {
    var tail := rounds[1..];
    forall k, j | 0 <= k < |tail| && 0 <= j < |tail[k]|
      ensures ValidDraw(tail[k][j])
    {
      assert tail[k] == rounds[k + 1];
    }
  }

  /** A non-empty sequence of turns is the first choice followed by the turns of the remaining
      rounds, started from that choice. */
  lemma TurnsHead(prev: bv32, rounds: seq<seq<Draw>>)
    requires ValidRounds(rounds)
    requires |Turns(prev, rounds)| > 0
    ensures |rounds| > 0 && GetRndQt(prev, rounds[0]).Chosen?
    ensures ValidRounds(rounds[1..])
    ensures var id := GetRndQt(prev, rounds[0]).choice.id;
            Turns(prev, rounds) == [id] + Turns(id, rounds[1..])
  {
    ValidRoundsTail(rounds);
  }

  /** Call `i` of the sequence returns turn `i`: `get_rnd_qt` with `prev_qt_id` set to the
      turn before chooses exactly `ids[i]`. */
  lemma {:induction false} TurnsAt(prev: bv32, rounds: seq<seq<Draw>>, i: nat)
    requires ValidRounds(rounds)
    requires i < |Turns(prev, rounds)|
    ensures var ids := Turns(prev, rounds);
            GetRndQt(PrevAt(prev, ids, i), rounds[i]).Chosen? &&
            GetRndQt(PrevAt(prev, ids, i), rounds[i]).choice.id == ids[i]
    decreases i
  {
    if i > 0 {
      TurnsHead(prev, rounds);
      var ids := Turns(prev, rounds);
      var id := GetRndQt(prev, rounds[0]).choice.id;
      var rest := Turns(id, rounds[1..]);
      TurnsAt(id, rounds[1..], i - 1);
      assert rounds[1..][i - 1] == rounds[i];
      assert ids[i] == rest[i - 1];
      assert PrevAt(id, rest, i - 1) == PrevAt(prev, ids, i);
    }
  }
}
