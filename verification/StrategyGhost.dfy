/** Strategy ghosts: the fading influence of the strategies a panda gave up. */
module StrategyGhost {
  import opened Text
  import RuleEngine

  /** The parsed JSON of a strategy; an empty object counts as no strategy at all where the
      score blends it in, and one without rules as a strategy that never fires. */
  datatype Parsed = EmptyJson | Json(rules: seq<RuleEngine.Rule>)

  datatype Ghost = Ghost(strategy: Parsed, trades: nat)

  function WeightForTrades(trades: nat): real {
    if trades < 50 then 0.40 else if trades < 150 then 0.20 else if trades < 300 then 0.08 else 0.0
  }

  predicate IsExpired(g: Ghost) { WeightForTrades(g.trades) == 0.0 }

  function Active(ghosts: seq<Ghost>): seq<Ghost> {
    if ghosts == [] then []
    else
      var last := ghosts[|ghosts| - 1];
      Active(ghosts[..|ghosts| - 1]) + if IsExpired(last) then [] else [last]
  }

  function SumOfWeights(ghosts: seq<Ghost>): real {
    if ghosts == [] then 0.0
    else SumOfWeights(ghosts[..|ghosts| - 1]) + WeightForTrades(ghosts[|ghosts| - 1].trades)
  }

  function TotalWeight(ghosts: seq<Ghost>): real {
    var sum := SumOfWeights(Active(ghosts));
    if sum < 0.50 then sum else 0.50
  }

  /** The weight and the strategy that the pipeline blends in: that of the last active ghost. */
  function Blended(ghosts: seq<Ghost>): (real, Option<Parsed>) {
    var active := Active(ghosts);
    if active == [] then (0.0, None)
    else (TotalWeight(ghosts), Some(active[|active| - 1].strategy))
  }

  function Aged(ghosts: seq<Ghost>): seq<Ghost> {
    if ghosts == [] then []
    else
      var last := ghosts[|ghosts| - 1];
      Aged(ghosts[..|ghosts| - 1]) + [last.(trades := last.trades + 1)]
  }

  /** One row of the strategy history, as it is read when an actor starts: the weight it was
      given and, if the strategy still exists, its JSON.  Rows come newest first. */
  datatype HistoryRow = HistoryRow(weight: real, strategy: Option<Parsed>, trades: nat)

  /** The ghosts that the rows give, in their order. */
  function Loaded(rows: seq<HistoryRow>): seq<Ghost> {
    if rows == [] then []
    else
      var last := rows[|rows| - 1];
      Loaded(rows[..|rows| - 1])
      + if last.weight <= 0.0 || last.strategy.None? then [] else [Ghost(last.strategy.value, last.trades)]
  }

  lemma {:induction false} AgedNothing()
    ensures Aged([]) == []
  {
  }

  lemma {:induction false} NextAged(was: seq<Ghost>, k: nat)
    requires k < |was|
    ensures Aged(was[..k + 1]) == Aged(was[..k]) + [was[k].(trades := was[k].trades + 1)]
  {
    assert was[..k + 1][..k] == was[..k];
  }

  /** A run of the manager between and across hydrations.  The stored rows do not change:
      nothing in the engine writes trades_since_switch back. */
  datatype Op = Add(strategy: Parsed) | Trade | Hydrate

  class GhostManager {
    var ghosts: seq<Ghost>

    constructor ()
      ensures ghosts == []
    {
      ghosts := [];
    }

    /** hydrate: what was there is forgotten, and the loaded ghosts are appended one by one. */
    method Hydrate(rows: seq<HistoryRow>)
      modifies this
      ensures ghosts == Loaded(rows)
    {
      ghosts := [];
      for k := 0 to |rows|
        invariant ghosts == Loaded(rows[..k])
      {
        assert rows[..k + 1][..k] == rows[..k];
        var row := rows[k];
        if row.weight > 0.0 && row.strategy.Some? {
          ghosts := ghosts + [Ghost(row.strategy.value, row.trades)];
        }
      }
      assert rows[..|rows|] == rows;
    }

    method AddGhost(strategy: Parsed)
      modifies this
      ensures ghosts == Active(old(ghosts)) + [Ghost(strategy, 0)]
    {
      var kept: seq<Ghost> := [];
      for k := 0 to |ghosts|
        invariant ghosts == old(ghosts)
        invariant kept == Active(ghosts[..k])
      {
        assert ghosts[..k + 1][..k] == ghosts[..k];
        if !IsExpired(ghosts[k]) {
          kept := kept + [ghosts[k]];
        }
      }
      assert ghosts[..|ghosts|] == ghosts;
      ghosts := kept + [Ghost(strategy, 0)];
    }

    method OnTrade()
      modifies this
      ensures ghosts == Aged(old(ghosts))
    {
      var was := ghosts;
      var k := 0;
      AgedNothing();
      hide Aged;
      while k < |ghosts|
        invariant 0 <= k <= |ghosts| == |was|
        invariant ghosts[..k] == Aged(was[..k]) && ghosts[k..] == was[k..]
      {
        assert ghosts[k] == was[k];
        NextAged(was, k);
        ghost var done, rest := ghosts[..k], ghosts[k + 1..];
        ghosts := ghosts[k := ghosts[k].(trades := ghosts[k].trades + 1)];
        assert ghosts[..k + 1] == done + [was[k].(trades := was[k].trades + 1)] && ghosts[k + 1..] == rest;
        assert rest == was[k + 1..];
        k := k + 1;
      }
      assert was[..k] == was && ghosts[..k] == ghosts;
    }
  }

  // ---- Runs ----

  /** The manager's list after a run from any list, and that of one that never prunes. */
  function Kept(start: seq<Ghost>, stored: seq<HistoryRow>, ops: seq<Op>): seq<Ghost> {
    if ops == [] then start
    else
      var before := Kept(start, stored, ops[..|ops| - 1]);
      match ops[|ops| - 1]
      case Add(strategy) => Active(before) + [Ghost(strategy, 0)]
      case Trade => Aged(before)
      case Hydrate => Loaded(stored)
  }

  function All(start: seq<Ghost>, stored: seq<HistoryRow>, ops: seq<Op>): seq<Ghost> {
    if ops == [] then start
    else
      var before := All(start, stored, ops[..|ops| - 1]);
      match ops[|ops| - 1]
      case Add(strategy) => before + [Ghost(strategy, 0)]
      case Trade => Aged(before)
      case Hydrate => Loaded(stored)
  }

  lemma {:induction false} ActiveOnce(ghosts: seq<Ghost>)
    ensures Active(Active(ghosts)) == Active(ghosts)
  {
    hide IsExpired;
    if ghosts != [] {
      var front := ghosts[..|ghosts| - 1];
      ActiveOnce(front);
      if !IsExpired(ghosts[|ghosts| - 1]) {
        assert (Active(front) + [ghosts[|ghosts| - 1]])[..|Active(front)|] == Active(front);
      } else {
        assert Active(front) + [] == Active(front);
      }
    }
  }

  lemma {:induction false} ActiveAdds(ghosts: seq<Ghost>, strategy: Parsed)
    ensures Active(ghosts + [Ghost(strategy, 0)]) == Active(ghosts) + [Ghost(strategy, 0)]
  {
    assert (ghosts + [Ghost(strategy, 0)])[..|ghosts|] == ghosts;
  }

  lemma {:induction false} ActiveSnoc(ghosts: seq<Ghost>, g: Ghost)
    ensures Active(ghosts + [g]) == if IsExpired(g) then Active(ghosts) else Active(ghosts) + [g]
  {
    hide IsExpired;
    assert (ghosts + [g])[..|ghosts|] == ghosts;
    assert Active(ghosts) + [] == Active(ghosts);
  }

  lemma {:induction false} AgedSnoc(ghosts: seq<Ghost>, g: Ghost)
    ensures Aged(ghosts + [g]) == Aged(ghosts) + [g.(trades := g.trades + 1)]
  {
    assert (ghosts + [g])[..|ghosts|] == ghosts;
  }

  lemma {:induction false} ExpiryLasts(g: Ghost)
    ensures IsExpired(g) ==> IsExpired(g.(trades := g.trades + 1))
  {
  }

  lemma {:induction false} ActiveAges(ghosts: seq<Ghost>)
    ensures Active(Aged(ghosts)) == Active(Aged(Active(ghosts)))
  {
    if ghosts != [] {
      var front, last := ghosts[..|ghosts| - 1], ghosts[|ghosts| - 1];
      ActiveAges(front);
      ExpiryLasts(last);
      hide IsExpired, Active, Aged;
      assert ghosts == front + [last];
      ActiveSnoc(front, last);
      AgedSnoc(front, last);
      ActiveSnoc(Aged(front), last.(trades := last.trades + 1));
      AgedSnoc(Active(front), last);
      ActiveSnoc(Aged(Active(front)), last.(trades := last.trades + 1));
    }
  }

  lemma {:induction false} SameBlend(ghosts: seq<Ghost>, others: seq<Ghost>)
    ensures Active(ghosts) == Active(others) ==> Blended(ghosts) == Blended(others)
  {
    hide Active, SumOfWeights;
  }

  /** Dropping expired ghosts when a new one comes forgets nothing that counts: after
      every run, from any list and over any hydrations, the pipeline gets what the full
      history would give it. */
  lemma {:induction false} PruningForgetsNoGhost(start: seq<Ghost>, stored: seq<HistoryRow>, ops: seq<Op>)
    ensures Active(Kept(start, stored, ops)) == Active(All(start, stored, ops))
    ensures Blended(Kept(start, stored, ops)) == Blended(All(start, stored, ops))
  {
    hide IsExpired, Aged, Active, Blended, Loaded;
    if ops != [] {
      var front := ops[..|ops| - 1];
      PruningForgetsNoGhost(start, stored, front);
      match ops[|ops| - 1] {
        case Add(strategy) =>
          ActiveAdds(Active(Kept(start, stored, front)), strategy);
          ActiveAdds(All(start, stored, front), strategy);
          ActiveOnce(Kept(start, stored, front));
        case Trade =>
          ActiveAges(Kept(start, stored, front));
          ActiveAges(All(start, stored, front));
        case Hydrate =>
      }
    }
    SameBlend(Kept(start, stored, ops), All(start, stored, ops));
  }

  lemma {:induction false} WeightsAddUp(ghosts: seq<Ghost>)
    requires forall i :: 0 <= i < |ghosts| ==> !IsExpired(ghosts[i])
    ensures SumOfWeights(ghosts) >= 0.08 * |ghosts| as real
  {
    if ghosts != [] {
      WeightsAddUp(ghosts[..|ghosts| - 1]);
    }
  }

  lemma {:induction false} ActiveAreAlive(ghosts: seq<Ghost>)
    ensures forall i :: 0 <= i < |Active(ghosts)| ==> !IsExpired(Active(ghosts)[i])
  {
    hide IsExpired;
    if ghosts != [] {
      ActiveAreAlive(ghosts[..|ghosts| - 1]);
    }
  }

  /** What is blended in weighs at most a half, and there is a strategy to blend exactly
      when the weight is positive. */
  lemma {:induction false} BlendedWeight(ghosts: seq<Ghost>)
    ensures 0.0 <= Blended(ghosts).0 <= 0.50
    ensures Blended(ghosts).1.Some? <==> Blended(ghosts).0 > 0.0
  {
    hide IsExpired;
    ActiveAreAlive(ghosts);
    WeightsAddUp(Active(ghosts));
  }

  function Trades(ops: seq<Op>): nat {
    if ops == [] then 0 else Trades(ops[..|ops| - 1]) + if ops[|ops| - 1].Trade? then 1 else 0
  }

  function Adds(ops: seq<Op>): nat {
    if ops == [] then 0 else Adds(ops[..|ops| - 1]) + if ops[|ops| - 1].Add? then 1 else 0
  }

  predicate NoHydration(ops: seq<Op>) {
    forall i :: 0 <= i < |ops| ==> !ops[i].Hydrate?
  }

  lemma {:induction false} AllInTwo(start: seq<Ghost>, stored: seq<HistoryRow>, before: seq<Op>, after: seq<Op>)
    ensures All(start, stored, before + after) == All(All(start, stored, before), stored, after)
  {
    hide Aged, Loaded;
    if after == [] {
      assert before + after == before;
    } else {
      AllInTwo(start, stored, before, after[..|after| - 1]);
      assert (before + after)[..|before + after| - 1] == before + after[..|after| - 1];
    }
  }

  lemma {:induction false} AgedEach(ghosts: seq<Ghost>)
    ensures |Aged(ghosts)| == |ghosts|
    ensures forall i :: 0 <= i < |ghosts| ==> Aged(ghosts)[i] == ghosts[i].(trades := ghosts[i].trades + 1)
  {
    if ghosts != [] {
      AgedEach(ghosts[..|ghosts| - 1]);
    }
  }

  lemma {:induction false} HistoryKeepsAge(start: seq<Ghost>, stored: seq<HistoryRow>, ops: seq<Op>)
    requires NoHydration(ops)
    ensures |All(start, stored, ops)| == |start| + Adds(ops)
    ensures forall i :: 0 <= i < |start| ==>
              All(start, stored, ops)[i] == start[i].(trades := start[i].trades + Trades(ops))
  {
    if ops != [] {
      var front := ops[..|ops| - 1];
      HistoryKeepsAge(start, stored, front);
      if ops[|ops| - 1].Trade? {
        AgedEach(All(start, stored, front));
      }
      hide Aged, Loaded;
    }
  }

  /** The index of the last ghost that has not expired. */
  function LastActive(ghosts: seq<Ghost>): (k: Option<nat>)
    ensures k.Some? ==> k.value < |ghosts|
  {
    if ghosts == [] then None
    else if !IsExpired(ghosts[|ghosts| - 1]) then Some(|ghosts| - 1)
    else LastActive(ghosts[..|ghosts| - 1])
  }

  lemma {:induction false} LastActiveMeans(ghosts: seq<Ghost>, k: nat)
    ensures LastActive(ghosts) == Some(k)
       <==> k < |ghosts| && ghosts[k].trades < 300 && forall i :: k < i < |ghosts| ==> ghosts[i].trades >= 300
  {
    if ghosts != [] {
      var front := ghosts[..|ghosts| - 1];
      LastActiveMeans(front, k);
      assert forall i :: 0 <= i < |front| ==> front[i] == ghosts[i];
    }
  }

  lemma {:induction false} NothingActive()
    ensures Active([]) == []
  {
  }

  lemma {:induction false} LastActiveEnds(ghosts: seq<Ghost>)
    ensures match LastActive(ghosts)
            case None => Active(ghosts) == []
            case Some(k) => Active(ghosts) != [] && Active(ghosts)[|Active(ghosts)| - 1] == ghosts[k]
  {
    hide IsExpired, Active;
    if ghosts == [] {
      NothingActive();
    } else {
      var front, last := ghosts[..|ghosts| - 1], ghosts[|ghosts| - 1];
      LastActiveEnds(front);
      assert front + [last] == ghosts;
      ActiveSnoc(front, last);
    }
  }

  /** The strategy that is blended in is that of the last ghost that has not expired. */
  lemma {:induction false} BlendedIsLastActive(ghosts: seq<Ghost>)
    ensures Blended(ghosts).1 == match LastActive(ghosts) case None => None case Some(k) => Some(ghosts[k].strategy)
    ensures LastActive(ghosts).None? ==> Blended(ghosts) == (0.0, None)
  {
    LastActiveEnds(ghosts);
    hide SumOfWeights;
  }

  /** How every ghost of any list fades: without another added or a hydration, the
      strategy blended in is that of ghost k exactly while it has fewer than 300 trades and every
      later one in the list has 300 or more. */
  lemma {:induction false} GhostsFade(start: seq<Ghost>, stored: seq<HistoryRow>, ops: seq<Op>, k: nat)
    requires NoHydration(ops) && Adds(ops) == 0
    ensures var ghosts := All(start, stored, ops);
            && Blended(Kept(start, stored, ops)) == Blended(ghosts)
            && (LastActive(ghosts) == Some(k)
                <==> k < |start| && start[k].trades + Trades(ops) < 300
                     && forall i :: k < i < |start| ==> start[i].trades + Trades(ops) >= 300)
            && (LastActive(ghosts) == Some(k) ==> Blended(ghosts).1 == Some(start[k].strategy))
            && (LastActive(ghosts) == None ==> Blended(ghosts) == (0.0, None))
  {
    hide Active, Blended, Aged, LastActive, Loaded;
    PruningForgetsNoGhost(start, stored, ops);
    HistoryKeepsAge(start, stored, ops);
    var ghosts := All(start, stored, ops);
    LastActiveMeans(ghosts, k);
    BlendedIsLastActive(ghosts);
  }

  /** A strategy given up by add_ghost comes last in the list, so it is blended in for
      exactly its next 300 trades. */
  lemma {:induction false} AddedGhostFades(start: seq<Ghost>, stored: seq<HistoryRow>, before: seq<Op>,
                                           strategy: Parsed, after: seq<Op>)
    requires NoHydration(after) && Adds(after) == 0
    ensures var list := Kept(start, stored, before + [Add(strategy)]);
            && Blended(Kept(list, stored, after)) == Blended(All(list, stored, after))
            && (LastActive(All(list, stored, after)) == Some(|list| - 1) <==> Trades(after) < 300)
            && (Trades(after) < 300 ==> Blended(All(list, stored, after)).1 == Some(strategy))
  {
    hide Active, Blended, Aged, LastActive, Loaded;
    var first := before + [Add(strategy)];
    assert first[..|first| - 1] == before;
    var list := Kept(start, stored, first);
    assert list[|list| - 1] == Ghost(strategy, 0);
    GhostsFade(list, stored, after, |list| - 1);
  }

  lemma {:induction false} WeightOfOne(g: Ghost)
    ensures Blended([g]).0 == if g.trades < 50 then 0.40 else if g.trades < 150 then 0.20 else if g.trades < 300 then 0.08 else 0.0
  {
    var one := [g];
    assert one[..0] == [] && Active(one[..0]) == [];
    assert SumOfWeights(one) == WeightForTrades(g.trades) by {
      assert SumOfWeights(one[..0]) == 0.0;
    }
  }

  /** How the influence of a single strategy given up fades: 40% for its first 50 trades, 20%
      up to 150, 8% up to 300, and then none. */
  lemma {:induction false} SingleGhostFades(strategy: Parsed, stored: seq<HistoryRow>, after: seq<Op>)
    requires NoHydration(after) && Adds(after) == 0
    ensures var n := Trades(after);
            Blended(Kept([], stored, [Add(strategy)] + after)).0
            == if n < 50 then 0.40 else if n < 150 then 0.20 else if n < 300 then 0.08 else 0.0
  {
    hide Active, Blended, Aged, Loaded;
    var first: seq<Op> := [Add(strategy)];
    assert first[..0] == [];
    var one: seq<Ghost> := [Ghost(strategy, 0)];
    assert [] + one == one;
    PruningForgetsNoGhost([], stored, first + after);
    AllInTwo([], stored, first, after);
    HistoryKeepsAge(one, stored, after);
    var all := All(one, stored, after);
    assert all == [Ghost(strategy, Trades(after))];
    WeightOfOne(all[0]);
  }

  /** A stored row is loaded exactly when it was given weight and its strategy still exists. */
  lemma {:induction false} LoadedExactlyWhen(rows: seq<HistoryRow>, row: HistoryRow)
    ensures Loaded(rows + [row])
         == Loaded(rows) + if row.weight > 0.0 && row.strategy.Some? then [Ghost(row.strategy.value, row.trades)] else []
  {
    assert (rows + [row])[..|rows|] == rows;
  }

  /** Hydration loads the newest ghost first, and the last that is active counts: of a
      hydrated list the newest is blended in exactly when it is active and every older one
      has expired; otherwise an older one is. */
  lemma {:induction false} HydrationPrefersTheOldest(start: seq<Ghost>, stored: seq<HistoryRow>, before: seq<Op>, ops: seq<Op>)
    requires NoHydration(ops) && Adds(ops) == 0 && Loaded(stored) != []
    ensures var loaded := Loaded(stored);
            var ghosts := All(start, stored, before + [Hydrate] + ops);
            && Blended(Kept(start, stored, before + [Hydrate] + ops)) == Blended(ghosts)
            && (LastActive(ghosts) == Some(0)
                <==> loaded[0].trades + Trades(ops) < 300
                     && forall i :: 0 < i < |loaded| ==> loaded[i].trades + Trades(ops) >= 300)
            && (LastActive(ghosts).Some? ==>
                  LastActive(ghosts).value < |loaded| && Blended(ghosts).1 == Some(loaded[LastActive(ghosts).value].strategy))
  {
    hide Active, Blended, Aged, LastActive, Loaded;
    var hydrated := before + [Hydrate];
    assert hydrated[..|hydrated| - 1] == before;
    AllInTwo(start, stored, hydrated, ops);
    PruningForgetsNoGhost(start, stored, hydrated + ops);
    var loaded, ghosts := Loaded(stored), All(start, stored, hydrated + ops);
    GhostsFade(loaded, stored, ops, 0);
    if LastActive(ghosts).Some? {
      GhostsFade(loaded, stored, ops, LastActive(ghosts).value);
    }
  }

  lemma {:induction false} NoLastActive(ghosts: seq<Ghost>, i: nat)
    requires LastActive(ghosts).None? && i < |ghosts|
    ensures ghosts[i].trades >= 300
  {
    if i < |ghosts| - 1 {
      NoLastActive(ghosts[..|ghosts| - 1], i);
    }
  }

  /** Ages start again: whatever has happened before, after a hydration every ghost is as
      old as its stored row says, and one that has faded is back. */
  lemma {:induction false} HydrationRestoresAges(start: seq<Ghost>, stored: seq<HistoryRow>, before: seq<Op>)
    ensures Kept(start, stored, before + [Hydrate]) == Loaded(stored)
    ensures (exists i :: 0 <= i < |Loaded(stored)| && Loaded(stored)[i].trades < 300)
       <==> Blended(Kept(start, stored, before + [Hydrate])).1.Some?
  {
    hide Active, Aged, Loaded, LastActive, Blended;
    var hydrated := before + [Hydrate];
    assert hydrated[..|hydrated| - 1] == before;
    var loaded := Loaded(stored);
    BlendedIsLastActive(loaded);
    if LastActive(loaded).Some? {
      LastActiveMeans(loaded, LastActive(loaded).value);
    } else {
      forall i | 0 <= i < |loaded| ensures loaded[i].trades >= 300 {
        NoLastActive(loaded, i);
      }
    }
  }

  /** Two ghosts a switch apart: the newer is loaded first, and the older is blended in. */
  lemma {:induction false} OlderGhostIsBlended(newer: Parsed, older: Parsed)
    ensures var stored := [HistoryRow(0.4, Some(newer), 10), HistoryRow(0.2, Some(older), 60)];
            Blended(Kept([], stored, [Hydrate])) == (0.50, Some(older))
  {
    var stored := [HistoryRow(0.4, Some(newer), 10), HistoryRow(0.2, Some(older), 60)];
    var ghosts := [Ghost(newer, 10), Ghost(older, 60)];
    var first: seq<Ghost> := [Ghost(newer, 10)];
    assert stored[..1][..0] == [] && Loaded(stored[..1]) == first && Loaded(stored) == ghosts;
    assert ghosts[..1] == first && first[..0] == [];
    assert Active(first) == first && Active(ghosts) == ghosts;
    assert SumOfWeights(first) == 0.4 && SumOfWeights(ghosts) == 0.4 + 0.2;
  }
}
