/** The win and loss counters behind strategy promotion, and what they say about a history of tournament rounds. */
module StrategyCounters {
  import opened PyLists

  const ISLANDS := {"A", "B", "C"}
  const PROMOTION_THRESHOLD := 2
  const DEMOTION_THRESHOLD := 3

  datatype Round = Round(island: string, won: bool)

  /** The two dictionaries; `order` is the insertion order of the win dictionary. */
  datatype Counters = Counters(order: seq<string>, wins: map<string, int>, losses: map<string, int>) {
    function Wins(island: string): int {
      if island in wins then wins[island] else 0
    }

    function Losses(island: string): int {
      if island in losses then losses[island] else 0
    }

    function SetWins(island: string, n: int): Counters {
      Counters(if island in wins then order else order + [island], wins[island := n], losses)
    }

    function SetLosses(island: string, n: int): Counters {
      this.(losses := losses[island := n])
    }

    ghost predicate Valid() {
      Distinct(order) && (forall i :: i in order <==> i in wins) && (forall i :: i in wins ==> wins[i] >= 0)
    }
  }

  function Max(a: int, b: int): int {
    if a > b then a else b
  }

  /** One recorded result: labels other than the canonical islands are ignored. */
  function Step(c: Counters, round: Round): Counters {
    var i := round.island;
    if i !in ISLANDS then c
    else if round.won then c.SetWins(i, c.Wins(i) + 1).SetLosses(i, 0)
    else
      var lost := c.SetLosses(i, c.Losses(i) + 1);
      if lost.Losses(i) >= DEMOTION_THRESHOLD then lost.SetWins(i, Max(0, c.Wins(i) - 1)) else lost
  }

  function Run(history: seq<Round>): Counters {
    if history == [] then Counters([], map[], map[]) else Step(Run(history[..|history| - 1]), history[|history| - 1])
  }

  class StrategyRegistry {
    var order: seq<string>
    var wins: map<string, int>
    var losses: map<string, int>

    function State(): Counters
      reads this
    {
      Counters(order, wins, losses)
    }

    constructor ()
      ensures State() == Run([])
    {
      order, wins, losses := [], map[], map[];
    }

    method PutWins(island: string, n: int)
      modifies this
      ensures State() == old(State()).SetWins(island, n)
    {
      if island !in wins {
        order := order + [island];
      }
      wins := wins[island := n];
    }

    method RecordIslandResult(island: string, won: bool)
      modifies this
      ensures State() == Step(old(State()), Round(island, won))
    {
      if island !in ISLANDS {
        return;
      }
      if won {
        PutWins(island, (if island in wins then wins[island] else 0) + 1);
        losses := losses[island := 0];
      } else {
        losses := losses[island := (if island in losses then losses[island] else 0) + 1];
        if losses[island] >= DEMOTION_THRESHOLD {
          PutWins(island, Max(0, (if island in wins then wins[island] else 0) - 1));
        }
      }
    }

    /** The first island, in insertion order, among those with the most wins at or above the threshold. */
    method GetDominantIsland() returns (best: Option<string>)
      requires State().Valid()
      ensures best == None <==> forall i :: i in wins ==> wins[i] < 2
      ensures best.Some? ==> exists at :: 0 <= at < |order| && order[at] == best.value && IsDominant(State(), at)
    {
      best := None;
      ghost var at := 0;
      for k := 0 to |order|
        invariant best == None <==> forall j :: 0 <= j < k ==> wins[order[j]] < PROMOTION_THRESHOLD
        invariant best.Some? ==> 0 <= at < k && order[at] == best.value && wins[order[at]] >= PROMOTION_THRESHOLD
        invariant best.Some? ==> forall j :: 0 <= j < k ==> wins[order[j]] <= wins[order[at]]
        invariant best.Some? ==> forall j :: 0 <= j < at ==> wins[order[j]] < wins[order[at]]
      {
        var i := order[k];
        if wins[i] >= PROMOTION_THRESHOLD && (best == None || wins[i] > wins[best.value]) {
          best := Some(i);
          at := k;
        }
      }
    }
  }

  /** The island at position `at` has reached the threshold, nobody has more wins, and nobody before it has as many. */
  ghost predicate IsDominant(c: Counters, at: nat)
    requires c.Valid() && at < |c.order|
  {
    && c.wins[c.order[at]] >= 2
    && (forall i :: i in c.wins ==> c.wins[i] <= c.wins[c.order[at]])
    && (forall j :: 0 <= j < at ==> c.wins[c.order[j]] < c.wins[c.order[at]])
  }

  // ----- whole histories

  lemma {:induction false} RunIsValid(history: seq<Round>)
    ensures Run(history).Valid()
  {
    if history != [] {
      var before := Run(history[..|history| - 1]);
      RunIsValid(history[..|history| - 1]);
      var i := history[|history| - 1].island;
      if i !in before.order {
        DistinctAppend(before.order, i);
      }
    }
  }

  /** The number of losses of `island` since its last win. */
  function LosingStreak(history: seq<Round>, island: string): nat {
    if history == [] then 0
    else
      var last, earlier := history[|history| - 1], history[..|history| - 1];
      if last.island != island then LosingStreak(earlier, island)
      else if last.won then 0
      else LosingStreak(earlier, island) + 1
  }

  lemma {:induction false} LossesAreTheStreak(history: seq<Round>, island: string)
    requires island in ISLANDS
    ensures Run(history).Losses(island) == LosingStreak(history, island)
  {
    if history != [] {
      LossesAreTheStreak(history[..|history| - 1], island);
    }
  }

  predicate Canonical(round: Round) {
    round.island in ISLANDS
  }

  lemma RunAppend(history: seq<Round>, round: Round)
    ensures Run(history + [round]) == Step(Run(history), round)
  {
    assert (history + [round])[..|history|] == history;
  }

  /** Rounds of hybrid labels leave no trace. */
  lemma {:induction false} HybridRoundsLeaveNoTrace(history: seq<Round>)
    ensures Run(history) == Run(Filter(history, Canonical))
  {
    if history != [] {
      var last, earlier := history[|history| - 1], history[..|history| - 1];
      HybridRoundsLeaveNoTrace(earlier);
      FilterLast(history, Canonical);
      RunAppend(Filter(earlier, Canonical), last);
    }
  }

  /**
   What one more round does to the wins of an island: a win of its own adds one, a loss that is at least its third in
   a row takes one away unless none is left, and nothing else changes them.
   */
  lemma RoundCounts(history: seq<Round>, round: Round, island: string)
    requires island in ISLANDS
    ensures var wins, after := Run(history).Wins(island), Run(history + [round]).Wins(island);
      after == if round.island != island then wins
               else if round.won then wins + 1
               else if LosingStreak(history, island) >= 2 && wins > 0 then wins - 1 else wins
  {
    RunAppend(history, round);
    RunIsValid(history);
    LossesAreTheStreak(history, island);
  }

  /** An island joins the order, at its end, with its first win or its first third loss in a row. */
  lemma RoundJoins(history: seq<Round>, round: Round)
    ensures var order, i := Run(history).order, round.island;
      Run(history + [round]).order ==
        if i in {"A", "B", "C"} && (round.won || LosingStreak(history, i) >= 2) && i !in order
        then order + [i] else order
  {
    RunAppend(history, round);
    RunIsValid(history);
    if round.island in ISLANDS {
      LossesAreTheStreak(history, round.island);
    }
  }

  /** The rounds of one island in a history. */
  function Own(history: seq<Round>, island: string): nat {
    if history == [] then 0
    else Own(history[..|history| - 1], island) + if history[|history| - 1].island == island then 1 else 0
  }

  /**
   From a fresh streak, a run of losses costs one win for each loss from the third on, down to zero,
   however the rounds of other labels are interleaved.
   */
  lemma {:induction false} CostOfAStreak(history: seq<Round>, streak: seq<Round>, island: string)
    requires island in ISLANDS && LosingStreak(history, island) == 0
    requires forall k :: 0 <= k < |streak| && streak[k].island == island ==> !streak[k].won
    ensures LosingStreak(history + streak, island) == Own(streak, island)
    ensures Run(history + streak).Wins(island) == Max(0, Run(history).Wins(island) - Max(0, Own(streak, island) - 2))
  {
    RunIsValid(history);
    if streak == [] {
      assert history + streak == history;
    } else {
      var n := |streak| - 1;
      CostOfAStreak(history, streak[..n], island);
      assert (history + streak)[..|history + streak| - 1] == history + streak[..n];
      LossesAreTheStreak(history + streak[..n], island);
    }
  }
}
