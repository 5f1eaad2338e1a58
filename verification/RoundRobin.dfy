/** The round-robin balancer with its counter's real width (core/singboxcore/balancer.go:25-34): an unsigned
    64-bit draw is converted to a signed one before the remainder, which truncates towards zero. */
module RoundRobin {
  import opened Ids
  import opened Balancing
  import opened GroupEvents

  const HALF: nat := 0x8000_0000_0000_0000
  const WIDTH: nat := 0x1_0000_0000_0000_0000

  function Signed(draw: nat): int
    requires draw < WIDTH
  {
    if draw < HALF then draw else draw - WIDTH
  }

  /** Remainder with the sign of the dividend. */
  function Remainder(a: int, n: nat): int
    requires n > 0
  {
    if a >= 0 then a % n else -((-a) % n)
  }

  datatype Outcome = Listed(ids: seq<Id>) | OutOfRange

  /** Slicing from a negative start stops the caller. */
  function Order(draw: nat, ids: seq<Id>): Outcome
    requires draw < WIDTH
  {
    if |ids| <= 1 then Listed(ids)
    else
      var start := Remainder(Signed(draw), |ids|);
      if start < 0 then OutOfRange else Listed(ids[start..] + ids[..start])
  }

  class RoundRobinBalancer {
    var next: nat

    constructor ()
      ensures next == 0
    {
      next := 0;
    }

    method Arrange(ids: seq<Id>) returns (out: Outcome)
      requires next < WIDTH
      modifies this
      ensures out == Order(old(next), ids)
      ensures next == if |ids| <= 1 then old(next) else if old(next) + 1 == WIDTH then 0 else old(next) + 1
    {
      if |ids| <= 1 {
        return Listed(ids);
      }
      var draw := next;
      next := if draw + 1 == WIDTH then 0 else draw + 1;
      var start := Remainder(Signed(draw), |ids|);
      if start < 0 {
        return OutOfRange;
      }
      return Listed(ids[start..] + ids[..start]);
    }
  }

  /** An answer is always a rotation of the members; there is one exactly for a draw below 2^63, or above it
      when the number of members divides what is left to 2^64. */
  lemma OrderIsRotationIff(draw: nat, ids: seq<Id>)
    requires draw < WIDTH && |ids| > 1
    ensures Order(draw, ids).Listed? <==> draw < HALF || (WIDTH - draw) % |ids| == 0
    ensures draw < HALF ==> Order(draw, ids) == Listed(Rotate(ids, draw))
    ensures draw >= HALF && Order(draw, ids).Listed? ==> Order(draw, ids) == Listed(ids)
  {
    if draw >= HALF {
      assert ids[0..] + ids[..0] == ids;
    }
  }

  /** Whatever the number of members, the first draw without an answer is 2^63 or the one after it. */
  lemma FirstFailure(ids: seq<Id>)
    requires |ids| > 1
    ensures forall draw: nat :: draw < HALF ==> Order(draw, ids).Listed?
    ensures Order(HALF, ids).OutOfRange? || Order(HALF + 1, ids).OutOfRange?
  {
    TwoDivisors(HALF - 1, |ids|);
  }

  /** A number above one does not divide two neighbours. */
  lemma TwoDivisors(t: nat, n: nat)
    requires n > 1
    ensures t % n != 0 || (t + 1) % n != 0
  {
    if t % n == 0 {
      assert t == (t / n) * n;
      RemainderIsUnique(t + 1, n, t / n, 1);
    }
  }

  // ---------------------------------------------------------------- fairness

  /** How often position j comes first in m draws from draw s on. */
  function FirstCount(s: nat, m: nat, n: nat, j: nat): nat
    requires n > 0
  {
    if m == 0 then 0 else FirstCount(s, m - 1, n, j) + if (s + m - 1) % n == j then 1 else 0
  }

  lemma MultipleIsFar(k: int, n: nat)
    requires k != 0
    ensures k * n >= n || k * n + n <= 0
  {
    if k > 0 {
      assert (k - 1) * n >= 0;
    } else {
      assert (-k - 1) * n >= 0;
    }
  }

  lemma RemainderIsUnique(t: nat, n: nat, q: nat, r: nat)
    requires r < n && t == q * n + r
    ensures t % n == r
  {
    var d := t / n;
    assert t == d * n + t % n;
    assert (d - q) * n == d * n - q * n;
    if d != q {
      MultipleIsFar(d - q, n);
    }
  }

  lemma ShiftedRemainder(s: nat, i: nat, n: nat)
    requires i < n
    ensures (s + i) % n == if s % n + i < n then s % n + i else s % n + i - n
  {
    var q, r := s / n, s % n;
    assert s == q * n + r;
    if r + i < n {
      RemainderIsUnique(s + i, n, q, r + i);
    } else {
      assert (q + 1) * n == q * n + n;
      RemainderIsUnique(s + i, n, q + 1, r + i - n);
    }
  }

  /** Within one round a position is first once, when its turn comes. */
  lemma {:induction false} OneRound(s: nat, m: nat, n: nat, j: nat)
    requires j < n && m <= n
    ensures FirstCount(s, m, n, j) == if (if j >= s % n then j - s % n else j - s % n + n) < m then 1 else 0
  {
    if m > 0 {
      OneRound(s, m - 1, n, j);
      ShiftedRemainder(s, m - 1, n);
    }
  }

  lemma {:induction false} CountSplits(s: nat, a: nat, b: nat, n: nat, j: nat)
    requires n > 0
    ensures FirstCount(s, a + b, n, j) == FirstCount(s, a, n, j) + FirstCount(s + a, b, n, j)
  {
    if b > 0 {
      CountSplits(s, a, b - 1, n, j);
    }
  }

  /** Over k*n consecutive draws every position is first exactly k times. */
  lemma {:induction false} FairOverRounds(s: nat, k: nat, n: nat, j: nat)
    requires j < n
    ensures FirstCount(s, k * n, n, j) == k
  {
    if k > 0 {
      FairOverRounds(s, k - 1, n, j);
      assert k * n == (k - 1) * n + n;
      CountSplits(s, (k - 1) * n, n, n, j);
      OneRound(s + (k - 1) * n, n, n, j);
    } else {
      assert k * n == 0;
    }
  }

  /** Over any number of draws two positions differ by at most one. */
  lemma FairAlways(s: nat, m: nat, n: nat, i: nat, j: nat)
    requires i < n && j < n
    ensures -1 <= FirstCount(s, m, n, i) - FirstCount(s, m, n, j) <= 1
  {
    var k, r := m / n, m % n;
    assert m == k * n + r;
    CountSplits(s, k * n, r, n, i);
    CountSplits(s, k * n, r, n, j);
    FairOverRounds(s, k, n, i);
    FairOverRounds(s, k, n, j);
    OneRound(s + k * n, r, n, i);
    OneRound(s + k * n, r, n, j);
  }

  // ---------------------------------------------------------------- the group's draws

  /** A caller asks for candidates, or the policy is refreshed. */
  datatype Call = Ask(now: int) | SetPolicy(p: Policy)

  /** Who comes first at each Ask. */
  ghost function Firsts(g: Group, calls: seq<Call>, shuffle: seq<Id> -> seq<Id>): seq<Id>
    decreases |calls|
  {
    if calls == [] then []
    else
      match calls[0]
      case Ask(now) =>
        var (h, ids) := Candidates(g, now, shuffle);
        (if ids == [] then [] else [ids[0]]) + Firsts(h, calls[1..], shuffle)
      case SetPolicy(p) => Firsts(Refresh(g, Normalized(p)), calls[1..], shuffle)
  }

  /** The same members may serve at every Ask, and every refresh keeps the strategy. */
  ghost predicate Steady(g: Group, calls: seq<Call>, ids: seq<Id>) {
    && g.policy.strategy == Strategy.RoundRobin && !g.policy.forceSelected && |ids| > 1
    && forall i :: 0 <= i < |calls| ==>
         match calls[i]
         case Ask(now) => EligibleIds(g.nodes, g.order, now) == ids
         case SetPolicy(p) => p.strategy == Strategy.RoundRobin && !p.forceSelected
  }

  function Asks(calls: seq<Call>): nat {
    if calls == [] then 0 else (if calls[0].Ask? then 1 else 0) + Asks(calls[1..])
  }

  lemma {:induction false} FirstsTakeTurns(g: Group, calls: seq<Call>, ids: seq<Id>, shuffle: seq<Id> -> seq<Id>)
    requires Steady(g, calls, ids)
    ensures |Firsts(g, calls, shuffle)| == Asks(calls)
    ensures forall i :: 0 <= i < Asks(calls) ==> Firsts(g, calls, shuffle)[i] == ids[(g.turn + i) % |ids|]
    decreases |calls|
  {
    if calls != [] {
      var h := if calls[0].Ask? then g.(turn := g.turn + 1) else Refresh(g, Normalized(calls[0].p));
      FirstsTakeTurns(h, calls[1..], ids, shuffle);
      if calls[0].Ask? {
        var rest := Firsts(h, calls[1..], shuffle);
        assert Candidates(g, calls[0].now, shuffle) == (h, Rotate(ids, g.turn));
        assert Firsts(g, calls, shuffle) == [ids[g.turn % |ids|]] + rest;
        forall i | 0 <= i < Asks(calls)
          ensures Firsts(g, calls, shuffle)[i] == ids[(g.turn + i) % |ids|]
        {
          if i > 0 {
            assert rest[i - 1] == ids[(h.turn + (i - 1)) % |ids|];
          }
        }
      }
    }
  }

  function Occurrences(xs: seq<Id>, x: Id): nat {
    if |xs| == 0 then 0 else Occurrences(xs[..|xs| - 1], x) + if xs[|xs| - 1] == x then 1 else 0
  }

  lemma {:induction false} OccurrencesCount(xs: seq<Id>, ids: seq<Id>, s: nat, j: nat)
    requires |ids| > 0 && Distinct(ids) && j < |ids|
    requires forall i :: 0 <= i < |xs| ==> xs[i] == ids[(s + i) % |ids|]
    ensures Occurrences(xs, ids[j]) == FirstCount(s, |xs|, |ids|, j)
  {
    if |xs| > 0 {
      OccurrencesCount(xs[..|xs| - 1], ids, s, j);
      var k := (s + (|xs| - 1)) % |ids|;
      assert xs[|xs| - 1] == ids[k];
      assert ids[k] == ids[j] <==> k == j;
    }
  }

  /** Each of these comes first in what the 64-bit counter lists for its draw. */
  ghost predicate ByCounter(firsts: seq<Id>, draw: nat, ids: seq<Id>) {
    && draw + |firsts| <= HALF
    && forall i :: 0 <= i < |firsts| ==> FirstByCounter(firsts[i], draw + i, ids)
  }

  predicate FirstByCounter(x: Id, draw: nat, ids: seq<Id>)
    requires draw < WIDTH
  {
    Order(draw, ids).Listed? && Order(draw, ids).ids != [] && Order(draw, ids).ids[0] == x
  }

  lemma FirstsFollowTheCounter(g: Group, calls: seq<Call>, ids: seq<Id>, shuffle: seq<Id> -> seq<Id>)
    requires Steady(g, calls, ids) && g.turn + Asks(calls) <= HALF
    ensures |Firsts(g, calls, shuffle)| == Asks(calls) && ByCounter(Firsts(g, calls, shuffle), g.turn, ids)
  {
    FirstsTakeTurns(g, calls, ids, shuffle);
    var firsts := Firsts(g, calls, shuffle);
    forall i | 0 <= i < |firsts|
      ensures FirstByCounter(firsts[i], g.turn + i, ids)
    {
      OrderIsRotationIff(g.turn + i, ids);
    }
  }

  lemma TurnsAreFair(firsts: seq<Id>, ids: seq<Id>, turn: nat, k: nat, j: nat)
    requires Distinct(ids) && j < |ids| && |firsts| == k * |ids|
    requires forall i :: 0 <= i < |firsts| ==> firsts[i] == ids[(turn + i) % |ids|]
    ensures Occurrences(firsts, ids[j]) == k
  {
    OccurrencesCount(firsts, ids, turn, j);
    FairOverRounds(turn, k, |ids|, j);
  }

  /** Fairness of a whole group: as long as the counter stays below 2^63, k*n calls with any policy refreshes in
      between that keep the strategy all get an answer, the first members are those the 64-bit counter lists, and
      each of the n members comes first exactly k times. */
  lemma GroupIsFair(g: Group, calls: seq<Call>, ids: seq<Id>, k: nat, j: nat, shuffle: seq<Id> -> seq<Id>)
    requires Steady(g, calls, ids) && Distinct(ids) && j < |ids| && Asks(calls) == k * |ids|
    requires g.turn + Asks(calls) <= HALF
    ensures var firsts := Firsts(g, calls, shuffle);
            |firsts| == Asks(calls) && ByCounter(firsts, g.turn, ids) && Occurrences(firsts, ids[j]) == k
  {
    FirstsFollowTheCounter(g, calls, ids, shuffle);
    FirstsTakeTurns(g, calls, ids, shuffle);
    TurnsAreFair(Firsts(g, calls, shuffle), ids, g.turn, k, j);
  }
}
