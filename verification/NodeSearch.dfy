/** The node-count search of PredictionEmulator, as a function of the verdicts it is given.
    A cursor holds the four bounds of the loop; Step is one round after its trial has answered.
    The trial itself (build a cluster of Middle(c) nodes, place every app) is the caller's. */
module NodeSearch {
  import opened Float64

  datatype Cursor = Cursor(minNode: int, maxNode: int, fMinNode: int, fMaxNode: int)

  /** What a round decides: go on, save maxNode, or try the empty cluster as a last trial. */
  datatype Move = Searching(c: Cursor) | TakeMax(c: Cursor) | TryZero(c: Cursor)

  datatype Trial = Trial(count: int, go: bool)

  /** Go's x / 2, which truncates toward zero. */
  function Half(x: int): int {
    if x >= 0 then x / 2 else -((-x) / 2)
  }

  /** generateMaxNode: no case covers 3001..4000, where the zero value 0 is returned. */
  function GenerateMaxNode(minNode: int): int {
    if minNode <= 1 then 10
    else if minNode <= 100 then 2 * minNode
    else if minNode <= 1000 then ScaleTrunc(LITERAL_1_2, minNode)
    else if minNode <= 3000 then ScaleTrunc(LITERAL_1_3, minNode)
    else if minNode > 4000 then ScaleTrunc(LITERAL_1_4, minNode)
    else 0
  }

  /** The first upper bound in whole numbers: factors 2, 6/5, 13/10 and 7/5, the last with its rounding. */
  function MaxNodeFor(n: int): int {
    if n <= 1 then 10
    else if n <= 100 then 2 * n
    else if n <= 1000 then 6 * n / 5
    else if n <= 3000 then 13 * n / 10
    else if n <= 4000 then 0
    else if n % 5 == 0 && 4 * (7 * n / 5) > 7 * FloorPow2(7 * n / 5) then 7 * n / 5 - 1
    else 7 * n / 5
  }

  /** What generateMaxNode returns, without floating point. */
  lemma MaxNodeIs(n: int)
    requires n < 0x1_0000_0000_0000
    ensures GenerateMaxNode(n) == MaxNodeFor(n)
  {
    hide ScaleTrunc, FloorPow2;
    if n > 100 {
      ScaleExact(n);
      ScaleShort(n);
    }
  }

  lemma MaxNodeAt5500()
    ensures GenerateMaxNode(5500) == 7699
  {
    hide ScaleTrunc;
    ShortAt5500();
  }

  predicate InGap(n: int) {
    3000 < n <= 4000
  }

  function Start(n: int): Cursor {
    Cursor(n, GenerateMaxNode(n), n, GenerateMaxNode(n))
  }

  function Middle(c: Cursor): int {
    Half(c.minNode + c.maxNode)
  }

  /** The bounds after the trial of Middle(c), before the loop looks at their distance. */
  function Narrow(c: Cursor, go: bool): Cursor {
    if go then c.(maxNode := Middle(c)) else c.(minNode := Middle(c))
  }

  /** One round of the loop: narrow, then widen or stop when the bounds have met. */
  function Step(c: Cursor, go: bool): Move {
    var d := Narrow(c, go);
    if d.maxNode - d.minNode == 1 && d.fMaxNode != d.maxNode && d.fMinNode != d.minNode then
      TakeMax(d)
    else if d.maxNode - d.minNode == 1 && d.fMaxNode == d.maxNode then
      Searching(d.(fMaxNode := d.fMaxNode + 100, maxNode := d.fMaxNode + 100))
    else if d.maxNode - d.minNode == 1 && d.fMinNode == d.minNode && Middle(d) != 0 then
      Searching(d.(fMinNode := Half(d.fMinNode), minNode := Half(d.fMinNode)))
    else if d.maxNode - d.minNode == 1 && d.fMinNode == d.minNode && Middle(d) == 0 then
      TryZero(d)
    else
      Searching(d)
  }

  /** The search after the given verdicts; verdicts that arrive after it stopped change nothing. */
  function Walk(start: Cursor, verdicts: seq<bool>): Move {
    if verdicts == [] then Searching(start)
    else
      var front := Walk(start, verdicts[..|verdicts| - 1]);
      if front.Searching? then Step(front.c, verdicts[|verdicts| - 1]) else front
  }

  /** The trials the search has made, in order. */
  function Trials(start: Cursor, verdicts: seq<bool>): (h: seq<Trial>)
    ensures |h| <= |verdicts|
  {
    if verdicts == [] then []
    else
      var rest := verdicts[..|verdicts| - 1];
      var front := Walk(start, rest);
      Trials(start, rest) +
      if front.Searching? then [Trial(Middle(front.c), verdicts[|verdicts| - 1])] else []
  }

  // ---------------------------------------------------------------- what every round keeps

  /** The shape of the bounds in a healthy search. */
  predicate Shape(c: Cursor) {
    0 <= c.fMinNode <= c.minNode && c.minNode + 2 <= c.maxNode <= c.fMaxNode
  }

  /** What the bounds say about the trials made: a moved bound is itself a trial, an unmoved bound
      means there was no such verdict at all, and every trial lies outside the open interval. */
  predicate Explained(c: Cursor, h: seq<Trial>) {
    && (forall t | t in h :: c.fMinNode < t.count < c.fMaxNode)
    && (forall t | t in h :: if t.go then c.maxNode <= t.count else t.count <= c.minNode)
    && (c.minNode > c.fMinNode <==> Trial(c.minNode, false) in h)
    && (c.maxNode < c.fMaxNode <==> Trial(c.maxNode, true) in h)
  }

  /** What is known when the search has stopped. */
  predicate Settled(m: Move, h: seq<Trial>) {
    match m
    case Searching(c) => Shape(c) && Explained(c, h)
    case TakeMax(c) =>
      && 1 <= c.minNode && c.maxNode == c.minNode + 1
      && Trial(c.maxNode, true) in h && Trial(c.minNode, false) in h
      && (forall t | t in h :: if t.go then c.maxNode <= t.count else t.count <= c.minNode)
    case TryZero(c) =>
      && c.minNode == 0 && c.maxNode == 1 && Trial(1, true) in h
      && (forall t | t in h :: t.go && 1 <= t.count)
  }

  lemma StartShape(n: int)
    requires 0 <= n && !InGap(n)
    ensures Shape(Start(n))
    ensures GenerateMaxNode(n) <= 2 * n + 10
    ensures n < 0x1_0000_0000_0000 ==> Start(n) == Cursor(n, MaxNodeFor(n), n, MaxNodeFor(n))
  {
    if 100 < n <= 1000 { ScaleBounds(LITERAL_1_2, n); }
    if 1000 < n <= 3000 { ScaleBounds(LITERAL_1_3, n); }
    if 4000 < n { ScaleBounds(LITERAL_1_4, n); }
    hide ScaleTrunc, FloorPow2;
    if n < 0x1_0000_0000_0000 { MaxNodeIs(n); }
  }

  /** One round keeps the invariant, and tries a count nobody tried before. */
  lemma StepSettled(c: Cursor, h: seq<Trial>, go: bool)
    requires Shape(c) && Explained(c, h)
    ensures c.minNode < Middle(c) < c.maxNode
    ensures forall t | t in h :: t.count != Middle(c)
    ensures Settled(Step(c, go), h + [Trial(Middle(c), go)])
  {
    var h' := h + [Trial(Middle(c), go)];
    assert h'[|h|] == Trial(Middle(c), go);
    assert forall t :: t in h' <==> t in h || t == Trial(Middle(c), go);
  }

  /** The search invariant over every run, whatever the verdicts are. */
  lemma {:induction false} WalkSettled(n: int, verdicts: seq<bool>)
    requires 0 <= n && !InGap(n)
    ensures Settled(Walk(Start(n), verdicts), Trials(Start(n), verdicts))
  {
    StartShape(n);
    if verdicts != [] {
      var rest := verdicts[..|verdicts| - 1];
      WalkSettled(n, rest);
      var front := Walk(Start(n), rest);
      if front.Searching? {
        StepSettled(front.c, Trials(Start(n), rest), verdicts[|verdicts| - 1]);
      }
    }
  }

  predicate Fresh(h: seq<Trial>) {
    && (forall i | 0 <= i < |h| :: h[i].count >= 1)
    && (forall i, j | 0 <= i < j < |h| :: h[i].count != h[j].count)
  }

  lemma FreshStep(h: seq<Trial>, t: Trial)
    requires Fresh(h) && t.count >= 1 && forall u | u in h :: u.count != t.count
    ensures Fresh(h + [t])
  {
    assert forall i | 0 <= i < |h| :: h[i] in h;
  }

  /** No count is tried twice, and only positive counts are tried. */
  lemma {:induction false} TrialsFresh(n: int, verdicts: seq<bool>)
    requires 0 <= n && !InGap(n)
    ensures Fresh(Trials(Start(n), verdicts))
  {
    hide Fresh, Step, Start;
    if verdicts == [] {
      NoTrials(Trials(Start(n), verdicts));
    } else {
      var rest := verdicts[..|verdicts| - 1];
      TrialsFresh(n, rest);
      WalkSettled(n, rest);
      var front, h := Walk(Start(n), rest), Trials(Start(n), rest);
      if front.Searching? {
        StepSettled(front.c, h, verdicts[|verdicts| - 1]);
        FreshStep(h, Trial(Middle(front.c), verdicts[|verdicts| - 1]));
      } else {
        assert Trials(Start(n), verdicts) == h;
      }
    }
  }

  lemma NoTrials(h: seq<Trial>)
    requires h == []
    ensures Fresh(h)
  {
  }

  /** Growing the upper bound and halving the lower bound never happen in the same run: once one
      of the outer bounds has moved, the other keeps its first value for good. */
  lemma {:induction false} WidensOneSide(n: int, verdicts: seq<bool>)
    requires 0 <= n && !InGap(n)
    ensures var s := Start(n); var c := Walk(s, verdicts).c;
            && (c.fMaxNode != s.fMaxNode ==> c.minNode > c.fMinNode)
            && (c.fMinNode != s.fMinNode ==> c.maxNode < c.fMaxNode)
            && (c.fMaxNode == s.fMaxNode || c.fMinNode == s.fMinNode)
  {
    StartShape(n);
    if verdicts != [] {
      var rest := verdicts[..|verdicts| - 1];
      WidensOneSide(n, rest);
      WalkSettled(n, rest);
    }
  }

  // ---------------------------------------------------------------- minimality

  ghost predicate Monotone(feasible: nat -> bool) {
    forall m: nat, k: nat | m <= k && feasible(m) :: feasible(k)
  }

  /** The verdicts are those of the oracle. */
  ghost predicate Agrees(h: seq<Trial>, feasible: nat -> bool) {
    forall t | t in h && t.count >= 0 :: t.go == feasible(t.count)
  }

  ghost predicate Least(feasible: nat -> bool, k: nat) {
    feasible(k) && forall m: nat | m < k :: !feasible(m)
  }

  /** The node count that is saved; zeroGo is the verdict of the last trial on the empty cluster. */
  function Saved(m: Move, zeroGo: bool): int
    requires !m.Searching?
  {
    if m.TakeMax? then m.c.maxNode else if zeroGo then 0 else 1
  }

  /** What is saved is the least feasible count among all naturals, the empty cluster included,
      for every monotone oracle that gave the verdicts. */
  lemma SavedIsLeast(n: int, verdicts: seq<bool>, feasible: nat -> bool)
    requires 0 <= n && !InGap(n)
    requires !Walk(Start(n), verdicts).Searching?
    requires Monotone(feasible) && Agrees(Trials(Start(n), verdicts), feasible)
    ensures var saved := Saved(Walk(Start(n), verdicts), feasible(0));
            saved >= 0 && Least(feasible, saved)
  {
    WalkSettled(n, verdicts);
    var m := Walk(Start(n), verdicts);
    if m.TakeMax? {
      assert Trial(m.c.maxNode, true) in Trials(Start(n), verdicts);
      assert !feasible(m.c.minNode);
    } else {
      assert Trial(1, true) in Trials(Start(n), verdicts);
    }
  }

  /** Whatever answers a scheduler gives, even contradictory ones, the trials that were made are
      those of some monotone oracle: the search never asks a question whose answer could clash. */
  lemma VerdictsNeverClash(n: int, verdicts: seq<bool>)
    requires 0 <= n && !InGap(n)
    ensures exists feasible: nat -> bool ::
              Monotone(feasible) && Agrees(Trials(Start(n), verdicts), feasible)
  {
    WalkSettled(n, verdicts);
    var c := Walk(Start(n), verdicts).c;
    var feasible := (k: nat) => k >= c.maxNode;
    assert Monotone(feasible) && Agrees(Trials(Start(n), verdicts), feasible);
  }

  // ---------------------------------------------------------------- termination and trial count

  /** From k nodes on, every trial succeeds. */
  ghost predicate EnoughFrom(h: seq<Trial>, k: int) {
    forall t | t in h && t.count >= k :: t.go
  }

  /** ceil(log2(width)): the bisections it takes to bring a width down to 1. */
  function CeilLog2(width: int): (r: nat)
    ensures width > 1 ==> r >= 1
    decreases width
  {
    if width <= 1 then 0 else 1 + CeilLog2((width + 1) / 2)
  }

  /** How often the upper bound can still grow by 100. */
  function Expansions(fMaxNode: int, k: int): (r: nat) {
    if k >= fMaxNode then (k - fMaxNode) / 100 + 1 else 0
  }

  /** The trials that halving the lower bound from fMinNode down to 0 can cost, with the last
      trial on the empty cluster. */
  function Descent(fMinNode: nat): (r: nat)
    ensures r >= 1
  {
    if fMinNode == 0 then 1 else CeilLog2(fMinNode + 1 - fMinNode / 2) + Descent(fMinNode / 2)
  }

  function Max(a: nat, b: nat): nat {
    if a >= b then a else b
  }

  /** The price of the widenings of one side that are still possible. */
  function Widening(c: Cursor, k: int): nat {
    Max(if c.maxNode == c.fMaxNode then 7 * Expansions(c.fMaxNode, k) else 0,
        if c.minNode == c.fMinNode && c.fMinNode >= 0 then Descent(c.fMinNode) else 0)
  }

  /** The trials still to come at most: one bisection, then the widenings of one side. */
  function Fuel(c: Cursor, k: int): nat {
    CeilLog2(c.maxNode - c.minNode) + Widening(c, k)
  }

  lemma {:induction false} CeilLog2Monotone(a: int, b: int)
    requires a <= b
    ensures CeilLog2(a) <= CeilLog2(b)
    decreases b
  {
    if a > 1 {
      CeilLog2Monotone((a + 1) / 2, (b + 1) / 2);
    }
  }

  lemma CeilLog2Of101()
    ensures CeilLog2(101) == 7
  {
    assert CeilLog2(4) == 2;
    assert CeilLog2(26) == 5;
  }

  /** A bisection takes at least one off the logarithm. */
  lemma NarrowHalves(c: Cursor, go: bool)
    requires Shape(c)
    ensures var d := Narrow(c, go);
            1 <= d.maxNode - d.minNode && CeilLog2(d.maxNode - d.minNode) + 1 <= CeilLog2(c.maxNode - c.minNode)
  {
    var d, w := Narrow(c, go), c.maxNode - c.minNode;
    CeilLog2Monotone(d.maxNode - d.minNode, (w + 1) / 2);
  }

  /** Growing the upper bound is paid for by one expansion. */
  lemma ExpansionPays(fMaxNode: int, k: int)
    requires k >= fMaxNode
    ensures Expansions(fMaxNode, k) == 1 + Expansions(fMaxNode + 100, k)
  {
  }

  lemma NarrowWidening(c: Cursor, go: bool, k: int)
    requires Shape(c)
    ensures Widening(Narrow(c, go), k) <= Widening(c, k)
  {
  }

  /** Every round, also one that widens the interval, uses up fuel. */
  lemma StepBurnsFuel(c: Cursor, go: bool, k: int)
    requires Shape(c)
    requires Middle(c) >= k ==> go
    ensures var m := Step(c, go);
            if m.Searching? then 1 <= Fuel(m.c, k) < Fuel(c, k)
            else if m.TakeMax? then Fuel(c, k) >= 1
            else Fuel(c, k) >= 2
  {
    hide CeilLog2, Widening;
    var d := Narrow(c, go);
    NarrowHalves(c, go);
    NarrowWidening(c, go, k);
    if d.maxNode - d.minNode == 1 && d.fMaxNode == d.maxNode {
      ExpansionCost(d, k);
    } else if d.maxNode - d.minNode == 1 && d.fMinNode == d.minNode {
      DescentCost(d, k);
    }
  }

  lemma ExpansionCost(d: Cursor, k: int)
    requires d.fMinNode < d.minNode && d.maxNode == d.fMaxNode == d.minNode + 1 && k >= d.fMaxNode
    ensures Fuel(d.(fMaxNode := d.fMaxNode + 100, maxNode := d.fMaxNode + 100), k) <= Widening(d, k)
  {
    hide CeilLog2, Expansions;
    CeilLog2Of101();
    ExpansionPays(d.fMaxNode, k);
  }

  lemma DescentCost(d: Cursor, k: int)
    requires 0 <= d.fMinNode == d.minNode && d.maxNode == d.minNode + 1 && d.maxNode < d.fMaxNode
    ensures Middle(d) == d.minNode && Widening(d, k) >= 1
    ensures Middle(d) != 0 ==>
              Fuel(d.(fMinNode := Half(d.fMinNode), minNode := Half(d.fMinNode)), k) <= Widening(d, k)
  {
    hide CeilLog2, Expansions, Descent;
    if d.minNode > 0 {
      DescentStep(d.minNode);
    }
  }

  lemma DescentStep(f: nat)
    requires f > 0
    ensures Descent(f) == CeilLog2(f + 1 - f / 2) + Descent(f / 2)
  {
  }

  /** The trial bound over every run. */
  lemma {:induction false} TrialBound(n: int, verdicts: seq<bool>, k: int)
    requires 0 <= n && !InGap(n)
    requires EnoughFrom(Trials(Start(n), verdicts), k)
    ensures var m := Walk(Start(n), verdicts); var made := |Trials(Start(n), verdicts)|;
            match m
            case Searching(c) => made == |verdicts| && made + Fuel(c, k) <= Fuel(Start(n), k)
            case TakeMax(c) => made <= Fuel(Start(n), k)
            case TryZero(c) => made + 1 <= Fuel(Start(n), k)
  {
    StartShape(n);
    if verdicts != [] {
      var rest, last := verdicts[..|verdicts| - 1], verdicts[|verdicts| - 1];
      var h := Trials(Start(n), rest);
      var front := Walk(Start(n), rest);
      assert forall t | t in h :: t in Trials(Start(n), verdicts);
      TrialBound(n, rest, k);
      if front.Searching? {
        WalkSettled(n, rest);
        assert Trials(Start(n), verdicts)[|h|] == Trial(Middle(front.c), last);
        StepBurnsFuel(front.c, last, k);
      }
    }
  }

  /** In the gap of generateMaxNode the bounds start out crossed, stay crossed, and the search
      never stops, whatever the verdicts are. */
  lemma {:induction false} GapNeverStops(n: int, verdicts: seq<bool>)
    requires InGap(n)
    ensures var m := Walk(Start(n), verdicts);
            m.Searching? && m.c.maxNode <= m.c.minNode
  {
    if verdicts != [] {
      GapNeverStops(n, verdicts[..|verdicts| - 1]);
    }
  }

  /** Some number of trials always suffices, given that k nodes and more are always enough. */
  ghost predicate AlwaysStops(n: int, k: int) {
    exists bound: nat :: StopsWithin(n, k, bound)
  }

  ghost predicate StopsWithin(n: int, k: int, bound: nat) {
    forall verdicts: seq<bool> | |verdicts| >= bound && EnoughFrom(Trials(Start(n), verdicts), k) ::
      !Walk(Start(n), verdicts).Searching?
  }

  /** The search is guaranteed to stop exactly when NodeNumber is not in 3001..4000. */
  lemma StopsExactlyOutsideGap(n: int, k: int)
    requires 0 <= n
    ensures AlwaysStops(n, k) <==> !InGap(n)
  {
    if InGap(n) {
      forall bound: nat ensures !StopsWithin(n, k, bound) {
        var yes := seq(bound, _ => true);
        AllTrue(Start(n), yes);
        GapNeverStops(n, yes);
      }
    } else {
      forall verdicts: seq<bool> | |verdicts| >= Fuel(Start(n), k) && EnoughFrom(Trials(Start(n), verdicts), k)
        ensures !Walk(Start(n), verdicts).Searching?
      {
        TrialBound(n, verdicts, k);
        WalkSettled(n, verdicts);
      }
      assert StopsWithin(n, k, Fuel(Start(n), k));
    }
  }

  lemma {:induction false} AllTrue(start: Cursor, verdicts: seq<bool>)
    requires forall i | 0 <= i < |verdicts| :: verdicts[i]
    ensures forall t | t in Trials(start, verdicts) :: t.go
  {
    if verdicts != [] {
      AllTrue(start, verdicts[..|verdicts| - 1]);
    }
  }

  // ---------------------------------------------------------------- how far the widenings have gone

  function Halved(n: nat, times: nat): nat {
    if times == 0 then n else Halved(n, times - 1) / 2
  }

  /** The outer bounds are the first ones, grown by 100 so many times, and halved so many times. */
  lemma {:induction false} OuterBounds(n: int, verdicts: seq<bool>) returns (grown: nat, halved: nat)
    requires 0 <= n && !InGap(n)
    ensures var c := Walk(Start(n), verdicts).c;
            c.fMaxNode == GenerateMaxNode(n) + 100 * grown && c.fMinNode == Halved(n, halved)
  {
    hide GenerateMaxNode;
    if verdicts == [] {
      grown, halved := 0, 0;
    } else {
      var rest, go := verdicts[..|verdicts| - 1], verdicts[|verdicts| - 1];
      grown, halved := OuterBounds(n, rest);
      var front := Walk(Start(n), rest);
      if front.Searching? {
        var c := Step(front.c, go).c;
        if c.fMaxNode != front.c.fMaxNode {
          grown := grown + 1;
        } else if c.fMinNode != front.c.fMinNode {
          halved := halved + 1;
        }
      }
    }
  }

  // ---------------------------------------------------------------- the bound in closed form

  /** CeilLog2 is the least exponent whose power of two reaches the width. */
  lemma {:induction false} CeilLog2IsLeast(width: int, e: nat)
    ensures width <= Pow2(e) <==> CeilLog2(width) <= e
    decreases width
  {
    if width > 1 && e > 0 {
      CeilLog2IsLeast((width + 1) / 2, e - 1);
    }
  }

  /** 1 + 2 + ... + e */
  function Triangle(e: nat): nat {
    if e == 0 then 0 else e + Triangle(e - 1)
  }

  lemma DescentOfZero()
    ensures Descent(0) == 1
  {
  }

  lemma ExponentStep(e: nat)
    ensures Pow2(e) > 1 ==> e > 0 && Pow2(e) == 2 * Pow2(e - 1) && Triangle(e) == e + Triangle(e - 1)
  {
  }

  /** Halving from below 2^e down to 0 costs at most 1 + 2 + ... + e trials, and the last one. */
  lemma {:induction false} DescentBound(f: nat, e: nat)
    requires f < Pow2(e)
    ensures Descent(f) <= Triangle(e) + 1
    decreases e
  {
    hide Descent, Triangle, Pow2;
    if f == 0 {
      DescentOfZero();
    } else {
      ExponentStep(e);
      DescentBound(f / 2, e - 1);
      DescentTurn(f, e);
    }
  }

  lemma DescentTurn(f: nat, e: nat)
    requires 0 < f < Pow2(e) && e > 0 && Descent(f / 2) <= Triangle(e - 1) + 1
    ensures Descent(f) <= Triangle(e) + 1
  {
    hide Descent, CeilLog2, Pow2, Triangle;
    DescentStep(f);
    ExponentStep(e);
    CeilLog2IsLeast(f + 1 - f / 2, e);
  }

  /** The trials of any run that stops, or is still going, from NodeNumber < 2^e: one bisection, then
      either 7 trials for each 100 nodes up to k, or the descent towards 0 with the last trial on the
      empty cluster. */
  lemma TrialBoundClosed(n: int, verdicts: seq<bool>, k: int, e: nat)
    requires 0 <= n < Pow2(e) && !InGap(n)
    requires EnoughFrom(Trials(Start(n), verdicts), k)
    ensures var f := GenerateMaxNode(n);
            && (n < 0x1_0000_0000_0000 ==> f == MaxNodeFor(n))
            && |Trials(Start(n), verdicts)| + (if Walk(Start(n), verdicts).TryZero? then 1 else 0) <=
               CeilLog2(f - n) + Max(if k >= f then 7 * ((k - f) / 100 + 1) else 0, Triangle(e) + 1)
    ensures |Trials(Start(n), verdicts)| + (if Walk(Start(n), verdicts).TryZero? then 1 else 0) <=
            CeilLog2(Max(n, 10)) + Max(if k > n then 7 * ((k - n) / 100 + 1) else 0, Triangle(e) + 1)
  {
    hide Trials, Walk, CeilLog2, Descent, Triangle, Pow2, GenerateMaxNode, EnoughFrom, MaxNodeFor;
    TrialBound(n, verdicts, k);
    DescentBound(n, e);
    if n < 0x1_0000_0000_0000 { MaxNodeIs(n); }
    FirstWidth(n);
    CeilLog2Monotone(GenerateMaxNode(n) - n, Max(n, 10));
    FewerExpansions(GenerateMaxNode(n), n, k);
  }

  lemma FewerExpansions(f: int, n: int, k: int)
    requires n < f
    ensures (if k >= f then 7 * ((k - f) / 100 + 1) else 0) <= if k > n then 7 * ((k - n) / 100 + 1) else 0
  {
  }

  lemma FirstWidth(n: int)
    requires 0 <= n && !InGap(n)
    ensures 2 <= GenerateMaxNode(n) - n <= Max(n, 10)
  {
    if 100 < n <= 1000 { ScaleBounds(LITERAL_1_2, n); }
    if 1000 < n <= 3000 { ScaleBounds(LITERAL_1_3, n); }
    if 4000 < n { ScaleBounds(LITERAL_1_4, n); }
    hide ScaleTrunc;
  }
}
