/**
 * The population of agents and their win/loss records: building the first
 * generation, a season in which every agent meets every other agent, the
 * choice of survivors and the refilling of the population from them.
 */
module League {
  import opened Failures
  import opened Network
  import opened Match
  import opened Ranking
  import opened ConnectFour

  const PopSize: nat := 50
  const SurviveMin: int := 5
  const SurviveMax: int := 10
  /** Node counts of a new agent: 42 board inputs, 25 hidden nodes, 7 columns. */
  const NetStruct: seq<nat> := [42, 25, 7]
  const MutatedNodes: nat := 2

  /** One agent's season record. */
  datatype Record = Record(wins: int, losses: int)

  function WinsOf(r: Record): int { r.wins }
  function LossesOf(r: Record): int { r.losses }

  /** A fresh record for each of k agents. */
  function FreshRecords(k: nat): (st: seq<Record>)
    ensures |st| == k && forall i :: 0 <= i < k ==> st[i] == Record(0, 0)
  {
    seq(k, i => Record(0, 0))
  }

  /** The sum of one field over all records. */
  function Total(st: seq<Record>, f: Record -> int): int {
    if st == [] then 0 else f(st[0]) + Total(st[1..], f)
  }

  lemma {:induction false} TotalUpdate(st: seq<Record>, f: Record -> int, k: int, rec: Record)
    requires 0 <= k < |st|
    ensures Total(st[k := rec], f) == Total(st, f) - f(st[k]) + f(rec)
  {
    if k > 0 {
      assert st[k := rec][1..] == st[1..][k - 1 := rec];
      TotalUpdate(st[1..], f, k - 1, rec);
    }
  }

  /** The entries that can play: the first n agents are networks that play. */
  predicate Entrants(ls: seq<seq<Layer>>, n: nat) {
    n <= |ls| && forall k :: 0 <= k < n ==> Playable(ls[k])
  }

  /** Whether agent i, moving first, is credited with the game against agent j:
      `play_game` as written returns 1. */
  function Outcomes(ls: seq<seq<Layer>>): (nat, nat) -> bool {
    (i: nat, j: nat) => i < |ls| && j < |ls| && Playable(ls[i]) && Playable(ls[j]) && Credited(ls[i], ls[j]) == 1
  }

  /** Whether agent i, moving first, actually wins against agent j: the corrected
      winner is 1. */
  function IntendedOutcomes(ls: seq<seq<Layer>>): (nat, nat) -> bool {
    (i: nat, j: nat) => i < |ls| && j < |ls| && Playable(ls[i]) && Playable(ls[j]) && Winner(ls[i], ls[j]) == 1
  }

  /** The credited result and the actual result of a game differ exactly when the
      game ends on a winning piece that fills its column. */
  lemma OutcomesDiffer(ls: seq<seq<Layer>>, i: nat, j: nat)
    requires i < |ls| && j < |ls| && Playable(ls[i]) && Playable(ls[j])
    ensures var e := PlayFrom(ls[i], ls[j], EmptyGrid(), 1);
      Outcomes(ls)(i, j) != IntendedOutcomes(ls)(i, j) <==> e.won && !Open(e.board, e.move)
  {
    var e := PlayFrom(ls[i], ls[j], EmptyGrid(), 1);
    GameEnds(ls[i], ls[j], EmptyGrid(), 1);
    SettleDiffers(e);
  }

  /** One pairing of a season: agent i moves first against agent j, unless they
      are the same agent; the winner gets a win and the loser a loss. */
  function PlayPairing(st: seq<Record>, pop: seq<Net>, beats: (nat, nat) -> bool, i: nat, j: nat): (r: seq<Record>)
    requires i < |st| && j < |st| && i < |pop| && j < |pop|
    ensures |r| == |st|
  {
    if pop[i] == pop[j] then st
    else if beats(i, j) then
      st[i := Record(st[i].wins + 1, st[i].losses)][j := Record(st[j].wins, st[j].losses + 1)]
    else
      st[i := Record(st[i].wins, st[i].losses + 1)][j := Record(st[j].wins + 1, st[j].losses)]
  }

  /** The records after the pairings of a season among the first n agents up to
      (i, j): every pairing (a, b) with a < i, then (i, b) with b < j. */
  function Season(st: seq<Record>, pop: seq<Net>, beats: (nat, nat) -> bool, n: nat, i: nat, j: nat): (r: seq<Record>)
    requires n <= |st| && n <= |pop| && i <= n && j <= n && (i == n ==> j == 0)
    ensures |r| == |st|
    decreases i, j
  {
    if j == 0 then
      if i == 0 then st else Season(st, pop, beats, n, i - 1, n)
    else
      PlayPairing(Season(st, pop, beats, n, i, j - 1), pop, beats, i, j - 1)
  }

  /** A season among the first n agents leaves the records beyond them alone. */
  lemma {:induction false} SeasonRest(st: seq<Record>, pop: seq<Net>, beats: (nat, nat) -> bool, n: nat, i: nat, j: nat)
    requires n <= |st| && n <= |pop| && i <= n && j <= n && (i == n ==> j == 0)
    ensures forall k :: n <= k < |st| ==> Season(st, pop, beats, n, i, j)[k] == st[k]
    decreases i, j
  {
    if j == 0 {
      if i > 0 {
        SeasonRest(st, pop, beats, n, i - 1, n);
      }
    } else {
      SeasonRest(st, pop, beats, n, i, j - 1);
    }
  }

  /** The number of pairings up to (i, j) that are actually played. */
  function Pairings(pop: seq<Net>, n: nat, i: nat, j: nat): nat
    requires n <= |pop| && i <= n && j <= n && (i == n ==> j == 0)
    decreases i, j
  {
    if j == 0 then
      if i == 0 then 0 else Pairings(pop, n, i - 1, n)
    else
      Pairings(pop, n, i, j - 1) + (if pop[i] == pop[j - 1] then 0 else 1)
  }

  /** A pairing that is played adds one win and one loss. */
  lemma PairingTotals(st: seq<Record>, pop: seq<Net>, beats: (nat, nat) -> bool, i: nat, j: nat)
    requires i < |st| && j < |st| && i < |pop| && j < |pop|
    ensures Total(PlayPairing(st, pop, beats, i, j), WinsOf) == Total(st, WinsOf) + (if pop[i] == pop[j] then 0 else 1)
    ensures Total(PlayPairing(st, pop, beats, i, j), LossesOf) == Total(st, LossesOf) + (if pop[i] == pop[j] then 0 else 1)
  {
    if pop[i] != pop[j] {
      var first, second := if beats(i, j) then Record(st[i].wins + 1, st[i].losses) else Record(st[i].wins, st[i].losses + 1),
        if beats(i, j) then Record(st[j].wins, st[j].losses + 1) else Record(st[j].wins + 1, st[j].losses);
      var s1 := st[i := first];
      assert PlayPairing(st, pop, beats, i, j) == s1[j := second];
      assert s1[j] == st[j];
      TotalUpdate(st, WinsOf, i, first);
      TotalUpdate(s1, WinsOf, j, second);
      TotalUpdate(st, LossesOf, i, first);
      TotalUpdate(s1, LossesOf, j, second);
    }
  }

  /** A pairing credits the game's result: when the agents differ, the agent
      `beats` names gains a win, the other gains a loss, and every other record
      stays; an agent paired with itself changes nothing. */
  lemma PairingCredits(st: seq<Record>, pop: seq<Net>, beats: (nat, nat) -> bool, i: nat, j: nat)
    requires i < |st| && j < |st| && i < |pop| && j < |pop|
    ensures pop[i] == pop[j] ==> PlayPairing(st, pop, beats, i, j) == st
    ensures pop[i] != pop[j] ==>
      var r := PlayPairing(st, pop, beats, i, j);
      var (w, l) := if beats(i, j) then (i, j) else (j, i);
      && r[w] == st[w].(wins := st[w].wins + 1)
      && r[l] == st[l].(losses := st[l].losses + 1)
      && forall k :: 0 <= k < |st| && k != i && k != j ==> r[k] == st[k]
  {
  }

  /** The games agent k is credited with (won) or charged with (!won) as first
      mover against the agents b < m other than itself. */
  function AsFirst(beats: (nat, nat) -> bool, k: nat, m: nat, won: bool): nat {
    if m == 0 then 0 else AsFirst(beats, k, m - 1, won) + (if m - 1 != k && beats(k, m - 1) == won then 1 else 0)
  }

  /** The games agent k is credited with (won) or charged with (!won) as second
      mover against the agents a < m other than itself. */
  function AsSecond(beats: (nat, nat) -> bool, k: nat, m: nat, won: bool): nat {
    if m == 0 then 0 else AsSecond(beats, k, m - 1, won) + (if m - 1 != k && beats(m - 1, k) != won then 1 else 0)
  }

  /** Every agent b < m other than k is met once as first mover and once as second
      mover, and each such game is either credited or charged. */
  lemma {:induction false} OpponentsOnce(beats: (nat, nat) -> bool, k: nat, m: nat)
    requires k < m
    ensures AsFirst(beats, k, m, true) + AsFirst(beats, k, m, false) == m - 1
    ensures AsSecond(beats, k, m, true) + AsSecond(beats, k, m, false) == m - 1
  {
    if m - 1 != k {
      OpponentsOnce(beats, k, m - 1);
    } else if k > 0 {
      Untouched(beats, k, k);
    }
  }

  /** Before agent k's own position, every other agent counts once. */
  lemma {:induction false} Untouched(beats: (nat, nat) -> bool, k: nat, m: nat)
    requires m <= k
    ensures AsFirst(beats, k, m, true) + AsFirst(beats, k, m, false) == m
    ensures AsSecond(beats, k, m, true) + AsSecond(beats, k, m, false) == m
  {
    if m > 0 {
      Untouched(beats, k, m - 1);
    }
  }

  /** What agent k is credited with (won) or charged with (!won) in the season up
      to (i, j): its whole row when k < i, its row up to j when k == i, the rows
      before i as second mover, and the current row's game against it once that
      is played. */
  function Progress(beats: (nat, nat) -> bool, n: nat, i: nat, j: nat, k: nat, won: bool): int {
    (if k < i then AsFirst(beats, k, n, won) else if k == i then AsFirst(beats, k, j, won) else 0)
    + AsSecond(beats, k, i, won)
    + (if i != k && k < j && beats(i, k) != won then 1 else 0)
  }

  /** Each agent's record grows by exactly the games credited and charged to it. */
  lemma {:induction false} SeasonRecord(st: seq<Record>, pop: seq<Net>, beats: (nat, nat) -> bool, n: nat, i: nat, j: nat, k: nat)
    requires n <= |st| && n <= |pop| && i <= n && j <= n && (i == n ==> j == 0)
    requires Distinct(pop, n) && k < n
    ensures var r := Season(st, pop, beats, n, i, j);
      && r[k].wins == st[k].wins + Progress(beats, n, i, j, k, true)
      && r[k].losses == st[k].losses + Progress(beats, n, i, j, k, false)
    decreases i, j
  {
    if j == 0 {
      if i > 0 {
        SeasonRecord(st, pop, beats, n, i - 1, n, k);
      }
    } else {
      SeasonRecord(st, pop, beats, n, i, j - 1, k);
      PairingCredits(Season(st, pop, beats, n, i, j - 1), pop, beats, i, j - 1);
      assert pop[i] == pop[j - 1] <==> i == j - 1;
    }
  }

  /** Each game played adds one win and one loss: both totals grow by the number
      of pairings played. */
  lemma {:induction false} SeasonTotals(st: seq<Record>, pop: seq<Net>, beats: (nat, nat) -> bool, n: nat, i: nat, j: nat)
    requires n <= |st| && n <= |pop| && i <= n && j <= n && (i == n ==> j == 0)
    ensures Total(Season(st, pop, beats, n, i, j), WinsOf) == Total(st, WinsOf) + Pairings(pop, n, i, j)
    ensures Total(Season(st, pop, beats, n, i, j), LossesOf) == Total(st, LossesOf) + Pairings(pop, n, i, j)
    decreases i, j
  {
    if j == 0 {
      if i > 0 {
        SeasonTotals(st, pop, beats, n, i - 1, n);
      }
    } else {
      SeasonTotals(st, pop, beats, n, i, j - 1);
      PairingTotals(Season(st, pop, beats, n, i, j - 1), pop, beats, i, j - 1);
    }
  }

  /** The first n agents are n different agents. */
  predicate Distinct(pop: seq<Net>, n: nat)
    requires n <= |pop|
  {
    forall a, b :: 0 <= a < b < n ==> pop[a] != pop[b]
  }

  /** Among different agents every ordered pair is played: n (n - 1) games. */
  lemma {:induction false} DistinctPairings(pop: seq<Net>, n: nat, i: nat, j: nat)
    requires n <= |pop| && Distinct(pop, n) && i <= n && j <= n && (i == n ==> j == 0)
    ensures Pairings(pop, n, i, j) == i * (n - 1) + j - (if i < j then 1 else 0)
    decreases i, j
  {
    if j == 0 {
      if i > 0 {
        DistinctPairings(pop, n, i - 1, n);
        assert (i - 1) * (n - 1) + n - 1 == i * (n - 1);
      }
    } else {
      DistinctPairings(pop, n, i, j - 1);
      assert pop[i] == pop[j - 1] <==> i == j - 1;
    }
  }

  /** The games agent k has played up to (i, j) among n different agents: one
      against each earlier first mover, all n - 1 of its own row once that row is
      done, and those of the current row so far. */
  function Involved(k: nat, n: nat, i: nat, j: nat): int {
    (if k < i then n - 1 else 0) + i - (if k < i then 1 else 0)
    + (if i == k then j - (if k < j then 1 else 0) else if k < j then 1 else 0)
  }

  /** Every game an agent plays adds one to its wins or to its losses. */
  lemma {:induction false} SeasonPerAgent(st: seq<Record>, pop: seq<Net>, beats: (nat, nat) -> bool, n: nat, i: nat, j: nat, k: nat)
    requires n <= |st| && n <= |pop| && i <= n && j <= n && (i == n ==> j == 0)
    requires Distinct(pop, n) && k < n
    ensures var r := Season(st, pop, beats, n, i, j);
      r[k].wins + r[k].losses == st[k].wins + st[k].losses + Involved(k, n, i, j)
    decreases i, j
  {
    if j == 0 {
      if i > 0 {
        SeasonPerAgent(st, pop, beats, n, i - 1, n, k);
      }
    } else {
      SeasonPerAgent(st, pop, beats, n, i, j - 1, k);
      assert pop[i] == pop[j - 1] <==> i == j - 1;
    }
  }

  /** A full season among n different agents: n (n - 1) games, and every agent
      plays 2 (n - 1) of them, once as first mover and once as second mover
      against each other agent. Records beyond the first n stay as they were. */
  lemma FullSeason(st: seq<Record>, pop: seq<Net>, beats: (nat, nat) -> bool, n: nat)
    requires n <= |st| && n <= |pop| && Distinct(pop, n)
    ensures var r := Season(st, pop, beats, n, n, 0);
      && Total(r, WinsOf) == Total(st, WinsOf) + n * (n - 1)
      && Total(r, LossesOf) == Total(st, LossesOf) + n * (n - 1)
      && (forall k :: 0 <= k < n ==> r[k].wins + r[k].losses == st[k].wins + st[k].losses + 2 * (n - 1))
      && (forall k :: n <= k < |st| ==> r[k] == st[k])
    ensures var r := Season(st, pop, beats, n, n, 0);
      forall k :: 0 <= k < n ==>
        && r[k].wins == st[k].wins + AsFirst(beats, k, n, true) + AsSecond(beats, k, n, true)
        && r[k].losses == st[k].losses + AsFirst(beats, k, n, false) + AsSecond(beats, k, n, false)
  {
    SeasonTotals(st, pop, beats, n, n, 0);
    SeasonRest(st, pop, beats, n, n, 0);
    DistinctPairings(pop, n, n, 0);
    forall k | 0 <= k < n
      ensures var r := Season(st, pop, beats, n, n, 0);
        r[k].wins + r[k].losses == st[k].wins + st[k].losses + 2 * (n - 1)
    {
      SeasonPerAgent(st, pop, beats, n, n, 0, k);
    }
    forall k | 0 <= k < n
      ensures var r := Season(st, pop, beats, n, n, 0);
        && r[k].wins == st[k].wins + AsFirst(beats, k, n, true) + AsSecond(beats, k, n, true)
        && r[k].losses == st[k].losses + AsFirst(beats, k, n, false) + AsSecond(beats, k, n, false)
    {
      SeasonRecord(st, pop, beats, n, n, 0, k);
    }
  }

  /** Every agent's weights. */
  function LayersOf(pop: seq<Net>): (ls: seq<seq<Layer>>)
    reads pop
    ensures |ls| == |pop| && forall k :: 0 <= k < |pop| ==> ls[k] == pop[k].layers
  {
    seq(|pop|, k reads pop requires 0 <= k < |pop| => pop[k].layers)
  }

  /** Every agent satisfies the network constructor's check. */
  ghost predicate AllValid(pop: seq<Net>)
    reads pop
  {
    forall k :: 0 <= k < |pop| ==> pop[k].Valid()
  }

  /** The population and the standings, as module-level lists. */
  class League {
    var population: seq<Net>
    var standings: seq<Record>

    /** How many agents take part: `zip` stops at the shorter list. */
    function Entries(): (n: nat)
      reads this
      ensures n <= |population| && n <= |standings|
      ensures n == |population| || n == |standings|
    {
      if |population| <= |standings| then |population| else |standings|
    }

    /** `generate_pop`: appends 50 agents with random weights, shaped by the
        node counts 42, 25, 7, and 50 fresh records; agent k draws its weights
        from rands(k). */
    method GeneratePop(rands: nat -> ((nat, nat, nat) -> real))
      requires forall k, l, i, j :: 0.0 <= rands(k)(l, i, j) < 1.0
      modifies this
      ensures |population| == |old(population)| + PopSize && population[..|old(population)|] == old(population)
      ensures standings == old(standings) + FreshRecords(PopSize)
      ensures forall k :: |old(population)| <= k < |population| ==>
        && fresh(population[k]) && population[k].Valid() && Playable(population[k].layers)
        && population[k].layers == RandomNet(rands(k - |old(population)|))
    {
      var agents: seq<Net> := [];
      var count := 0;
      while count < PopSize
        invariant 0 <= count <= PopSize && |agents| == count
        invariant population == old(population) && standings == old(standings)
        invariant forall k :: 0 <= k < count ==> fresh(agents[k]) && agents[k].layers == RandomNet(rands(k))
      {
        var net := RandomAgent(rands(count));
        agents := agents + [net];
        count := count + 1;
      }
      population := population + agents;
      standings := standings + FreshRecords(PopSize);
    }

    /** `export`: every agent's weights as nested lists. */
    function Export(): (e: seq<seq<seq<seq<real>>>>)
      reads this, population
      ensures |e| == |population|
      ensures forall k :: 0 <= k < |population| ==> e[k] == ExportLayers(population[k].layers)
    {
      seq(|population|, k reads this, population requires 0 <= k < |population| => ExportLayers(population[k].layers))
    }

    /** `populate_from_export`: one new agent per exported network and a fresh
        record for each. If any network fails to import, nothing changes. */
    method PopulateFromExport(exported: seq<seq<seq<seq<real>>>>) returns (r: Outcome)
      modifies this
      ensures r.Pass? <==> forall k :: 0 <= k < |exported| ==> ImportLayers(exported[k]).Ok?
      ensures r.Pass? ==> |population| == |exported| && standings == FreshRecords(|exported|)
      ensures r.Pass? ==> forall k :: 0 <= k < |exported| ==>
        fresh(population[k]) && population[k].Valid() && population[k].layers == ImportLayers(exported[k]).value
      ensures r.Fail? ==> population == old(population) && standings == old(standings)
    {
      var agents: seq<Net> := [];
      var k := 0;
      while k < |exported|
        invariant 0 <= k <= |exported| && |agents| == k
        invariant population == old(population) && standings == old(standings)
        invariant forall a :: 0 <= a < k ==> ImportLayers(exported[a]).Ok?
        invariant forall a :: 0 <= a < k ==>
          fresh(agents[a]) && agents[a].Valid() && agents[a].layers == ImportLayers(exported[a]).value
      {
        var agent := FromExport(exported[k]);
        if agent.Err? {
          return Fail(agent.error);
        }
        agents := agents + [agent.value];
        k := k + 1;
      }
      population := agents;
      standings := FreshRecords(|exported|);
      return Pass;
    }

    /** The body of `play_season`'s inner loop: agent i moves first against agent
        j unless they are the same agent, and both records are updated. */
    method PlayPair(i: nat, j: nat, ghost ls: seq<seq<Layer>>)
      requires i < Entries() && j < Entries() && i < |ls| && j < |ls|
      requires ls[i] == population[i].layers && ls[j] == population[j].layers
      requires Playable(ls[i]) && Playable(ls[j])
      modifies this`standings
      ensures population == old(population)
      ensures standings == PlayPairing(old(standings), population, Outcomes(ls), i, j)
    {
      ghost var beats := Outcomes(ls);
      if population[i] != population[j] {
        var result := PlayGame(population[i], population[j]);
        assert beats(i, j) <==> result == 1;
        var st := standings;
        if result == 1 {
          standings := st[i := Record(st[i].wins + 1, st[i].losses)][j := Record(st[j].wins, st[j].losses + 1)];
        } else {
          standings := st[i := Record(st[i].wins, st[i].losses + 1)][j := Record(st[j].wins + 1, st[j].losses)];
        }
      }
    }

    /** Entry k plays with the layers ls[k], and `play_game` accepts them. */
    ghost predicate Seated(ls: seq<seq<Layer>>, n: nat)
      reads this`population, population
    {
      n <= |population| && n <= |ls| && forall k :: 0 <= k < n ==> ls[k] == population[k].layers && Playable(ls[k])
    }

    /** One pass of `play_season`'s outer loop: agent i moves first against each
        of the n entries in turn. */
    method PlayRow(i: nat, ghost st: seq<Record>, ghost ls: seq<seq<Layer>>)
      requires i < Entries() && Entries() <= |st| && Entries() <= |ls|
      requires Seated(ls, Entries())
      requires standings == Season(st, population, Outcomes(ls), Entries(), i, 0)
      modifies this`standings
      ensures population == old(population) && Entries() == old(Entries())
      ensures standings == Season(st, population, Outcomes(ls), Entries(), i + 1, 0)
    {
      var n := Entries();
      ghost var pop := population;
      var j := 0;
      while j < n
        invariant 0 <= j <= n && population == pop && n == Entries()
        invariant Seated(ls, n)
        invariant standings == Season(st, pop, Outcomes(ls), n, i, j)
      {
        PlayPair(i, j, ls);
        j := j + 1;
      }
    }

    /** `play_season`: every agent moves first once against every other agent;
        the records end as the season defines them. */
    method PlaySeason()
      requires Entrants(LayersOf(population), Entries()) && AllValid(population)
      modifies this`standings
      ensures population == old(population) && |standings| == |old(standings)|
      ensures standings == Season(old(standings), population, Outcomes(LayersOf(population)), old(Entries()), old(Entries()), 0)
    {
      ghost var st := standings;
      ghost var ls := LayersOf(population);
      var n := Entries();
      ghost var pop := population;
      var i := 0;
      while i < n
        invariant 0 <= i <= n && population == pop && n == Entries()
        invariant Seated(ls, n)
        invariant standings == Season(st, pop, Outcomes(ls), n, i, 0)
      {
        PlayRow(i, st, ls);
        i := i + 1;
      }
    }

    /** The entries' wins, in population order. */
    function WinsList(): (w: seq<int>)
      reads this
      ensures |w| == Entries() && forall k :: 0 <= k < |w| ==> w[k] == standings[k].wins
    {
      seq(Entries(), k requires 0 <= k < Entries() reads this => standings[k].wins)
    }

    /** `gather_top(n, nmax)`: ranks the agents by wins and takes them in that
        order while `Keeps` allows, as `Gather` decides on the entries' wins. */
    method GatherTop(n: int, nmax: int) returns (r: Result<seq<Net>>)
      ensures var ws := RankedWins(WinsList());
        r.Err? <==> Entries() == 0 || (1 <= nmax && n < 1) || forall k :: 1 <= k <= Entries() ==> Keeps(ws, n, nmax, k)
      ensures r.Err? ==> r.error == if Entries() > 0 && 1 <= nmax && n < 1 then IndexError else ExhaustedError
      ensures var ws := RankedWins(WinsList());
        r.Ok? ==> && |r.value| < Entries()
                  && (forall k :: 1 <= k <= |r.value| ==> Keeps(ws, n, nmax, k))
                  && !Keeps(ws, n, nmax, |r.value| + 1)
      ensures r.Ok? ==> forall a :: 0 <= a < |r.value| ==> r.value[a] == population[Rank(WinsList())[a]]
    {
      var w := WinsList();
      var taken := Gather(w, n, nmax);
      if taken.Err? {
        return Err(taken.error);
      }
      var top := taken.value;
      var pop := population;
      assert forall a :: 0 <= a < |top| ==> top[a] == Rank(w)[a] < |w| <= |pop|;
      return Ok(seq(|top|, a requires 0 <= a < |top| => pop[top[a]]));
    }

    /** `gather_top()` with its default bounds, SURVIVE_MIN and SURVIVE_MAX: between
        5 and 10 survivors, none with fewer wins than an agent left out. The tie
        test never reads an empty list, so the only failure is running out of
        agents. */
    method GatherSurvivors() returns (r: Result<seq<Net>>)
      ensures r.Err? <==>
        Entries() == 0 || forall k :: 1 <= k <= Entries() ==> Keeps(RankedWins(WinsList()), SurviveMin, SurviveMax, k)
      ensures r.Err? ==> r.error == ExhaustedError
      ensures r.Ok? ==> SurviveMin <= |r.value| <= SurviveMax
      ensures r.Ok? ==> var ws := RankedWins(WinsList());
        forall a, b :: 0 <= a < |r.value| <= b < |ws| ==> ws[a] >= ws[b]
    {
      r := GatherTop(SurviveMin, SurviveMax);
      if r.Ok? {
        RankedWinsSorted(WinsList());
        GatherMeaning(RankedWins(WinsList()), SurviveMin, SurviveMax, |r.value|);
      }
    }

    /** `repop_from(parents)`: the parents become the population, every record is
        reset (50 of them), and children fill the population up to 50. The k-th
        child is the offspring of the two parents luck[k].pair names, by the coins,
        picks and draws of luck[k]. Fails when fewer than two parents must fill a
        place, or when a sampled pair cannot be crossed; the children made so far
        stay. */
    method RepopFrom(parents: seq<Net>, luck: seq<Luck>) returns (r: Outcome)
      requires forall k :: 0 <= k < |parents| ==> parents[k].Valid()
      requires |parents| + |luck| >= PopSize
      requires |parents| >= 2 ==> forall k :: 0 <= k < PopSize - |parents| ==>
        luck[k].pair.0 < |parents| && luck[k].pair.1 < |parents| && luck[k].pair.0 != luck[k].pair.1
      modifies this
      ensures standings == FreshRecords(PopSize)
      ensures |population| >= |parents| && population[..|parents|] == parents
      ensures r.Pass? <==> |parents| >= PopSize || (|parents| >= 2 && forall k :: 0 <= k < PopSize - |parents| ==>
        Crossable(parents[luck[k].pair.0].layers, parents[luck[k].pair.1].layers))
      ensures r.Pass? ==> |population| == if |parents| >= PopSize then |parents| else PopSize
      ensures |population| - |parents| <= |luck|
      ensures forall k :: 0 <= k < |population| - |parents| ==>
        fresh(population[|parents| + k]) && ChildOf(LayersOf(parents), luck[k], population[|parents| + k].layers)
    {
      var children;
      children, r := Brood(parents, LayersOf(parents), luck);
      LitterChildren(LayersOf(parents), luck, |children|);
      population := parents + children;
      standings := FreshRecords(PopSize);
    }
  }

  /** The random choices behind one child of `repop_from`: the positions of the two
      parents `sample` takes, the crossover's coins, and the mutation's picks and
      draws. */
  datatype Luck = Luck(pair: (nat, nat), coin: (nat, nat) -> real, pick: (nat, nat) -> nat, draw: (nat, nat) -> real)

  /** The children `repop_from` appends to the parents, in order: the k-th is bred
      by luck[k]. */
  method Brood(parents: seq<Net>, ghost pls: seq<seq<Layer>>, luck: seq<Luck>) returns (children: seq<Net>, r: Outcome)
    requires pls == LayersOf(parents) && forall k :: 0 <= k < |parents| ==> parents[k].Valid()
    requires |parents| + |luck| >= PopSize
    requires |parents| >= 2 ==> forall k :: 0 <= k < PopSize - |parents| ==>
      luck[k].pair.0 < |parents| && luck[k].pair.1 < |parents| && luck[k].pair.0 != luck[k].pair.1
    ensures r.Pass? <==> |parents| >= PopSize || (|parents| >= 2 && forall k :: 0 <= k < PopSize - |parents| ==>
      Crossable(pls[luck[k].pair.0], pls[luck[k].pair.1]))
    ensures r.Pass? ==> |parents| + |children| == if |parents| >= PopSize then |parents| else PopSize
    ensures |parents| + |children| <= PopSize || children == []
    ensures |children| <= |luck| && forall k :: 0 <= k < |children| ==> Pairable(pls, luck[k].pair)
    ensures forall k :: 0 <= k < |children| ==>
      fresh(children[k]) && children[k].layers == Litter(pls, luck, |children|)[k]
  {
    ghost var kids: seq<seq<Layer>> := [];
    children := [];
    var x := |parents|;
    assert forall k :: 0 <= k < |parents| ==> parents[k].layers == pls[k] && ValidChain(pls[k]);
    while x < PopSize
      invariant |parents| <= x && (|parents| < PopSize ==> x <= PopSize) && (|parents| >= PopSize ==> x == |parents|)
      invariant x == |parents| + |children| && |kids| == |children| <= |luck|
      invariant forall k :: 0 <= k < |parents| ==> parents[k].layers == pls[k]
      invariant |children| > 0 ==> |parents| >= 2
      invariant forall k :: 0 <= k < |children| ==> fresh(children[k])
      invariant forall k :: 0 <= k < |children| ==> children[k].layers == kids[k]
      invariant forall k :: 0 <= k < |kids| ==> Pairable(pls, luck[k].pair)
      invariant kids == Litter(pls, luck, |kids|)
    {
      if |parents| < 2 {
        return children, Fail(SampleError);
      }
      var child := BreedNext(parents, pls, luck, |children|);
      if child.Err? {
        return children, Fail(child.error);
      }
      LitterGrows(pls, luck, kids, child.value.layers);
      children := children + [child.value];
      kids := kids + [child.value.layers];
      x := x + 1;
    }
    return children, Pass;
  }

  /** The sampled pair names two different parents, the first a valid network, whose
      weights can be crossed. */
  predicate Pairable(pls: seq<seq<Layer>>, pair: (nat, nat)) {
    && pair.0 < |pls| && pair.1 < |pls| && pair.0 != pair.1
    && ValidChain(pls[pair.0]) && Crossable(pls[pair.0], pls[pair.1])
  }

  /** Whether `child` are the weights of an offspring of the two different parents
      luck.pair names among the parents' weights `pls`, by the coins, picks and
      draws of `luck`. */
  predicate ChildOf(pls: seq<seq<Layer>>, luck: Luck, child: seq<Layer>)
  {
    Pairable(pls, luck.pair) && child == Offspring(pls[luck.pair.0], pls[luck.pair.1], luck.coin, luck.pick, luck.draw)
  }

  /** The weights of the n children bred first. */
  function Litter(pls: seq<seq<Layer>>, luck: seq<Luck>, n: nat): (cs: seq<seq<Layer>>)
    requires n <= |luck| && forall x :: 0 <= x < n ==> Pairable(pls, luck[x].pair)
    ensures |cs| == n
    decreases n, 2
  {
    LitterOf(pls, luck, n)
  }

  /** Litter, one call further from its body. The two calls between Litter and its
      body keep the verifier from unfolding the offspring where a proof does not
      ask for them. */
  function LitterOf(pls: seq<seq<Layer>>, luck: seq<Luck>, n: nat): (cs: seq<seq<Layer>>)
    requires n <= |luck| && forall x :: 0 <= x < n ==> Pairable(pls, luck[x].pair)
    ensures |cs| == n
    decreases n, 1
  {
    LitterBody(pls, luck, n)
  }

  /** Litter's body: the litter one shorter, then the offspring for the last place. */
  function LitterBody(pls: seq<seq<Layer>>, luck: seq<Luck>, n: nat): (cs: seq<seq<Layer>>)
    requires n <= |luck| && forall x :: 0 <= x < n ==> Pairable(pls, luck[x].pair)
    ensures |cs| == n
    decreases n, 0
  {
    if n == 0 then []
    else
      var l := luck[n - 1];
      assert 0 <= n - 1 < n;
      assert Pairable(pls, l.pair);
      Litter(pls, luck, n - 1) + [Offspring(pls[l.pair.0], pls[l.pair.1], l.coin, l.pick, l.draw)]
  }

  /** One more child extends the litter by its offspring. */
  lemma LitterStep(pls: seq<seq<Layer>>, luck: seq<Luck>, n: nat)
    requires n < |luck|
    requires (forall x :: 0 <= x < n ==> Pairable(pls, luck[x].pair)) && Pairable(pls, luck[n].pair)
    ensures Litter(pls, luck, n + 1) == Litter(pls, luck, n)
      + [Offspring(pls[luck[n].pair.0], pls[luck[n].pair.1], luck[n].coin, luck[n].pick, luck[n].draw)]
  {
    assert Litter(pls, luck, n + 1) == LitterOf(pls, luck, n + 1) == LitterBody(pls, luck, n + 1);
  }

  /** The litter so far, extended by the next child bred, is the next litter. */
  lemma LitterGrows(pls: seq<seq<Layer>>, luck: seq<Luck>, kids: seq<seq<Layer>>, child: seq<Layer>)
    requires |kids| < |luck| && forall k :: 0 <= k < |kids| ==> Pairable(pls, luck[k].pair)
    requires Pairable(pls, luck[|kids|].pair)
    requires kids == Litter(pls, luck, |kids|)
    requires child == Litter(pls, luck, |kids| + 1)[|kids|]
    ensures forall k :: 0 <= k < |kids| + 1 ==> Pairable(pls, luck[k].pair)
    ensures kids + [child] == Litter(pls, luck, |kids| + 1)
  {
    LitterStep(pls, luck, |kids|);
  }

  /** Breeding more children leaves the ones bred first as they are. */
  lemma {:induction false} LitterPrefix(pls: seq<seq<Layer>>, luck: seq<Luck>, n: nat, m: nat)
    requires m <= n <= |luck| && forall k :: 0 <= k < n ==> Pairable(pls, luck[k].pair)
    ensures Litter(pls, luck, m) == Litter(pls, luck, n)[..m]
    decreases n
  {
    if m < n {
      LitterPrefix(pls, luck, n - 1, m);
      LitterStep(pls, luck, n - 1);
      assert Litter(pls, luck, n)[..m] == Litter(pls, luck, n - 1)[..m];
    }
  }

  /** The k-th child of a litter is an offspring of the pair sampled for it. */
  lemma LitterChild(pls: seq<seq<Layer>>, luck: seq<Luck>, n: nat, k: nat)
    requires k < n <= |luck| && forall i :: 0 <= i < n ==> Pairable(pls, luck[i].pair)
    ensures ChildOf(pls, luck[k], Litter(pls, luck, n)[k])
  {
    LitterPrefix(pls, luck, n, k + 1);
    LitterStep(pls, luck, k);
  }

  /** Every child of a litter is an offspring of the pair sampled for it. */
  lemma LitterChildren(pls: seq<seq<Layer>>, luck: seq<Luck>, n: nat)
    requires n <= |luck| && forall k :: 0 <= k < n ==> Pairable(pls, luck[k].pair)
    ensures forall k :: 0 <= k < n ==> ChildOf(pls, luck[k], Litter(pls, luck, n)[k])
  {
    forall k | 0 <= k < n
      ensures ChildOf(pls, luck[k], Litter(pls, luck, n)[k])
    {
      LitterChild(pls, luck, n, k);
    }
  }

  /** One agent of `generate_pop`: `from_random(42, 25, 7)`, which cannot fail
      for these node counts. */
  method RandomAgent(rand: (nat, nat, nat) -> real) returns (net: Net)
    requires forall l, i, j :: 0.0 <= rand(l, i, j) < 1.0
    ensures fresh(net) && net.Valid() && Playable(net.layers) && net.layers == RandomNet(rand)
  {
    var r := FromRandom(NetStruct, rand);
    assert r.Ok?;
    ghost var want := RandomNet(rand);
    assert |r.value.layers| == |want| == 2;
    assert r.value.layers[0] == RandomMatrix(NetStruct[1], NetStruct[0], 0, rand) == want[0];
    assert r.value.layers[1] == RandomMatrix(NetStruct[2], NetStruct[1], 1, rand) == want[1];
    net := r.value;
  }

  /** The weights of an agent from `from_random(42, 25, 7)` with draws `rand`. */
  function RandomNet(rand: (nat, nat, nat) -> real): (ls: seq<Layer>)
    ensures Playable(ls)
  {
    var ls := [RandomMatrix(25, 42, 0, rand), RandomMatrix(7, 25, 1, rand)];
    assert Links(ls, 1);
    ls
  }

  /** A child's weights: the parents crossed by `coin`, then MutatedNodes rounds of
      mutation by `pick` and `draw`. */
  function Offspring(p1: seq<Layer>, p2: seq<Layer>, coin: (nat, nat) -> real, pick: (nat, nat) -> nat, draw: (nat, nat) -> real): (c: seq<Layer>)
    requires ValidChain(p1) && Crossable(p1, p2)
    ensures ValidChain(c) && SameShapes(c, p1)
  {
    var child := Crossed(p1, p2, coin);
    Mutated(child, SumRows(child), MutatedNodes, pick, draw)
  }

  /** The loop body of `repop_from` for place x: crossover of the two parents
      sampled for it, then mutation of the new child in place. */
  method Breed(parents: seq<Net>, ghost pls: seq<seq<Layer>>, l: Luck) returns (r: Result<Net>)
    requires |pls| == |parents| && forall k :: 0 <= k < |parents| ==> ValidChain(pls[k])
    requires l.pair.0 < |parents| && l.pair.1 < |parents| && l.pair.0 != l.pair.1
    requires parents[l.pair.0].layers == pls[l.pair.0] && parents[l.pair.1].layers == pls[l.pair.1]
    ensures r.Ok? <==> Crossable(pls[l.pair.0], pls[l.pair.1])
    ensures r.Ok? ==> fresh(r.value) && r.value.Valid() && ChildOf(pls, l, r.value.layers)
  {
    var crossed := Crossover(parents[l.pair.0], parents[l.pair.1], l.coin);
    if crossed.Err? {
      return Err(crossed.error);
    }
    var child := crossed.value.Mutate(MutatedNodes, l.pick, l.draw);
    return Ok(child);
  }

  /** Breed for the k-th child, stated as the next child of the litter. */
  method BreedNext(parents: seq<Net>, ghost pls: seq<seq<Layer>>, luck: seq<Luck>, k: nat) returns (r: Result<Net>)
    requires |pls| == |parents| && forall i :: 0 <= i < |parents| ==> ValidChain(pls[i])
    requires k < |luck| && forall i :: 0 <= i < k ==> Pairable(pls, luck[i].pair)
    requires luck[k].pair.0 < |parents| && luck[k].pair.1 < |parents| && luck[k].pair.0 != luck[k].pair.1
    requires parents[luck[k].pair.0].layers == pls[luck[k].pair.0] && parents[luck[k].pair.1].layers == pls[luck[k].pair.1]
    ensures r.Ok? <==> Crossable(pls[luck[k].pair.0], pls[luck[k].pair.1])
    ensures r.Ok? ==> Pairable(pls, luck[k].pair)
    ensures r.Ok? ==> fresh(r.value)
    ensures r.Ok? ==> r.value.layers == Litter(pls, luck, k + 1)[k]
  {
    r := Breed(parents, pls, luck[k]);
    if r.Ok? {
      LitterStep(pls, luck, k);
    }
  }

  /** Exported agents import back to the same weights, as long as every first
      layer has a row. */
  lemma ExportRoundTrip(league: League)
    requires forall k :: 0 <= k < |league.population| ==>
      ValidChain(league.population[k].layers) && league.population[k].layers[0].rows > 0
    ensures forall k :: 0 <= k < |league.population| ==>
      ImportLayers(league.Export()[k]) == Ok(league.population[k].layers)
  {
    forall k | 0 <= k < |league.population|
      ensures ImportLayers(league.Export()[k]) == Ok(league.population[k].layers)
    {
      RoundTrip(league.population[k].layers);
    }
  }
}
