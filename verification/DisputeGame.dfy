/** The chain of disputes of one conflict, for every possible outcome of every dispute. */
module DisputeGame {
  import opened Common
  import opened Events
  import opened ConsensusRules
  import opened Protocol

  // A conflict as the manager reports it: the lowest agreeing validator against a challenger that may
  // stand outside the agreement, inside it, or, later in the chain, be expelled already.
  ghost predicate Challenged(m: Manager, v: Verdict) {
    && WellFormed(m) && v.Conflict?
    && v.standing == m.currentClaim && v.challenge !in {ZERO_HASH, m.currentClaim}
    && Champion(m) == Some(v.defender)
    && v.challenger != ZERO_ADDRESS
  }

  function Rounds(s: State, s': State): int {
    |Query(s'.log, Filter.Disputes)| - |Query(s.log, Filter.Disputes)|
  }

  // The defenders beaten so far have the lowest slots of all that agreed.
  ghost predicate Lowest(beaten: set<nat>, all: set<nat>) {
    beaten <= all && forall i, j :: i in beaten && j in all - beaten ==> i < j
  }

  // The claim stands, and the challenger is out with the defenders it beat.
  ghost predicate Stands(m: Manager, v: Verdict, beaten: set<nat>, m': Manager)
    requires v.Conflict?
  {
    var slot := IndexOf(m.validators, v.challenger);
    && slot.Some? && slot.value !in beaten && beaten != m.agreement
    && WellFormed(m') && m'.currentClaim == m.currentClaim
    && m'.agreement == m.agreement - beaten - {slot.value}
    && m'.goal == m.goal - beaten - {slot.value}
  }

  // The claim falls: every defender is out, and the challenger alone agrees with its own claim, unless
  // it was among them.
  ghost predicate Falls(m: Manager, v: Verdict, m': Manager)
    requires v.Conflict?
  {
    var slot := IndexOf(m.validators, v.challenger);
    && WellFormed(m') && m'.currentClaim == v.challenge
    && m'.agreement == (if slot.Some? && slot.value !in m.agreement then {slot.value} else {})
    && m'.goal == m.goal - m.agreement
  }

  // The challenger had beaten itself and lost after that: expelling a stranger empties both masks, while
  // the validators that were not beaten are still listed.
  ghost predicate Emptied(m: Manager, v: Verdict, beaten: set<nat>, m': Manager)
    requires v.Conflict?
  {
    var slot := IndexOf(m.validators, v.challenger);
    && (slot.None? || slot.value in beaten) && beaten != m.agreement
    && m'.currentClaim == m.currentClaim
    && m'.agreement == {} && m'.goal == {}
    && Slots(m'.validators) == m.goal - beaten != {}
  }

  lemma ChampionSlot(m: Manager) returns (i: nat)
    requires WellFormed(m) && Champion(m).Some?
    ensures i in m.agreement && IndexOf(m.validators, Champion(m).value) == Some(i)
    ensures Champion(m).value != ZERO_ADDRESS && Champion(m).value in m.validators
    ensures forall j :: j in m.agreement ==> i <= j
  {
    i := LowestFrom(m.agreement, 0, |m.validators|).value;
    assert i in Slots(m.validators);
    assert forall j :: j in m.agreement ==> j in Slots(m.validators);
  }

  // Expelling the validator of one slot: a listed one keeps its slot, that one is no longer listed.
  lemma ExpelMovesNobody(m: Manager, i: nat, other: Address)
    requires WellFormed(m) && i < |m.validators| && m.validators[i] != ZERO_ADDRESS && other != ZERO_ADDRESS
    ensures var before, after := IndexOf(m.validators, other), IndexOf(Expel(m, m.validators[i]).validators, other);
            after == if before == Some(i) then None else before
  {
    var e := Expel(m, m.validators[i]);
    assert IndexOf(m.validators, m.validators[i]) == Some(i);
    assert e.validators == m.validators[i := ZERO_ADDRESS];
    var before, after := IndexOf(m.validators, other), IndexOf(e.validators, other);
    if after.Some? {
      assert m.validators[after.value] == other;
    }
    if before.Some? && before != Some(i) {
      assert e.validators[before.value] == other;
    }
  }

  // The challenger has beaten the defender of slot i, others still agree with the standing claim.
  ghost predicate Continues(m: Manager, v: Verdict, i: nat, m': Manager, v': Verdict)
    requires v.Conflict?
  {
    var slot := IndexOf(m.validators, v.challenger);
    && Challenged(m', v') && v'.challenge == v.challenge && v'.challenger == v.challenger
    && m'.currentClaim == m.currentClaim
    && m'.agreement == m.agreement - {i} && m'.goal == m.goal - {i}
    && IndexOf(m'.validators, v.challenger) == if slot == Some(i) then None else slot
  }

  lemma ChallengerWins(m: Manager, v: Verdict) returns (i: nat, m': Manager, v': Verdict)
    requires Challenged(m, v)
    ensures OnDisputeEnd(m, v.challenger, v.defender, v.challenge) == Some((m', v'))
    ensures i in m.agreement && forall j :: j in m.agreement ==> i <= j
    ensures m.agreement == {i} ==> v' == Judge(m') && Falls(m, v, m')
    ensures m.agreement != {i} ==> Continues(m, v, i, m', v')
  {
    i := ChampionSlot(m);
    ExpelListed(m, v.defender);
    ExpelMovesNobody(m, i, v.challenger);
    var e := Expel(m, v.defender);
    assert e.agreement == m.agreement - {i};
    if m.agreement == {i} {
      m' := Join(e.(currentClaim := v.challenge), v.challenger);
      v' := Judge(m');
      var slot := IndexOf(e.validators, v.challenger);
      assert slot.Some? ==> slot.value in Slots(e.validators);
    } else {
      assert e.agreement != {};
      ChampionIsLowestAgreeing(e);
      m', v' := e, Conflict(e.currentClaim, v.challenge, Champion(e).value, v.challenger);
    }
  }

  // A defence that is won ends the chain.
  lemma DefenderWins(m: Manager, v: Verdict)
    requires Challenged(m, v)
    ensures var m' := Expel(m, v.challenger);
            && OnDisputeEnd(m, v.defender, v.challenger, v.standing) == Some((m', Judge(m')))
            && (if v.challenger in m.validators then Stands(m, v, {}, m') else Emptied(m, v, {}, m'))
  {
    var i := ChampionSlot(m);
    if v.challenger in m.validators {
      ExpelListed(m, v.challenger);
    } else {
      assert i in m.goal;
    }
  }

  // How the rest of a chain looks from one round before.
  lemma OneRoundBefore(m: Manager, v: Verdict, i: nat, m1: Manager, v1: Verdict, beaten: set<nat>, m': Manager)
    requires v.Conflict? && i in m.agreement && (forall j :: j in m.agreement ==> i <= j)
    requires Continues(m, v, i, m1, v1) && Lowest(beaten, m1.agreement)
    ensures Lowest(beaten + {i}, m.agreement) && |beaten + {i}| == |beaten| + 1
    ensures v1.Conflict?
    ensures Stands(m1, v1, beaten, m') ==> Stands(m, v, beaten + {i}, m')
    ensures Emptied(m1, v1, beaten, m') ==> Emptied(m, v, beaten + {i}, m')
    ensures Falls(m1, v1, m') ==> Falls(m, v, m')
  {
    hide WellFormed, Champion, IndexOf, Slots;
    assert m.agreement == m1.agreement + {i};
    assert m.goal - (beaten + {i}) == m1.goal - beaten;
    assert m.agreement - (beaten + {i}) == m1.agreement - beaten;
    assert m.goal - m.agreement == m1.goal - m1.agreement;
  }

  // One round announces one resolved dispute, and touches nothing but the manager and the clock.
  lemma RoundLog(s: State, at: Moment, winner: Address, loser: Address, claim: Hash)
    requires OnDisputeEnd(s.manager, winner, loser, claim).Some?
    ensures var r := EndDispute(s.EnterPhase(at, AwaitingDispute), at, winner, loser, claim);
            && r.Some? && OnDisputeEnd(s.manager, winner, loser, claim) == Some((r.value.0.manager, r.value.1))
            && Rounds(s, r.value.0) == 1 && Played(s, r.value.0, at)
  {
    var d := s.EnterPhase(at, AwaitingDispute);
    QueryEmit(s.log, Entry(at, PhaseChange(AwaitingDispute)));
    QueryEmit(d.log, Entry(at, Event.ResolveDispute(winner, loser, claim)));
  }

  ghost predicate Played(s: State, s': State, at: Moment) {
    && s'.phase.AwaitingDispute? && s'.sealing == at.time
    && s'.inbox == s.inbox && s'.epochHashes == s.epochHashes && s'.accumulationStart == s.accumulationStart
  }

  // The chain ends for every oracle, after at most as many rounds as there were agreeing validators, in
  // one of three ways; the goal still lists the validators in all but the third.
  lemma {:induction false} DisputesEnd(s: State, at: Moment, v: Verdict, oracle: Oracle) returns (beaten: set<nat>)
    requires Challenged(s.manager, v)
    ensures Ready(s.manager, v) && DisputeChain(s, at, v, oracle).Some?
    ensures var (s', v') := DisputeChain(s, at, v, oracle).value;
            var m, m' := s.manager, s'.manager;
            && 1 <= Rounds(s, s') <= |m.agreement|
            && v' == Judge(m') && Played(s, s', at)
            && Lowest(beaten, m.agreement)
            && (|| (Falls(m, v, m') && beaten == m.agreement && Rounds(s, s') == |m.agreement|)
                || (Stands(m, v, beaten, m') && Rounds(s, s') == |beaten| + 1)
                || (Emptied(m, v, beaten, m') && Rounds(s, s') == |beaten| + 1))
    decreases |s.manager.agreement|
  {
    hide WellFormed, Champion, IndexOf, OnDisputeEnd, EndDispute, Stands, Falls, Emptied, Query, Slots;
    var m := s.manager;
    var i := ChampionSlot(m);
    assert |m.agreement| >= 1;
    if oracle(m) {
      DefenderWins(m, v);
      RoundLog(s, at, v.defender, v.challenger, v.standing);
      beaten := {};
    } else {
      var k, m1, v1 := ChallengerWins(m, v);
      RoundLog(s, at, v.challenger, v.defender, v.challenge);
      var s1 := EndDispute(s.EnterPhase(at, AwaitingDispute), at, v.challenger, v.defender, v.challenge).value.0;
      if m.agreement == {k} {
        beaten := m.agreement;
      } else {
        assert m.agreement == m1.agreement + {k} && |m1.agreement| == |m.agreement| - 1;
        var later := DisputesEnd(s1, at, v1, oracle);
        OneRoundBefore(m, v, k, m1, v1, later, DisputeChain(s1, at, v1, oracle).value.0.manager);
        beaten := later + {k};
      }
    }
  }

  // The three ends are different ones, and the masks lose track of the validators in the third alone.
  lemma GoalSurvives(m: Manager, v: Verdict, beaten: set<nat>, m': Manager)
    requires Challenged(m, v) && v.challenger in m.validators
    requires Falls(m, v, m') || Stands(m, v, beaten, m') || Emptied(m, v, beaten, m')
    ensures m'.goal == Slots(m'.validators) <==> !Emptied(m, v, beaten, m')
  {
  }

  // What the challenger needs for that: it agreed with the claim, and somebody in a higher slot did too.
  ghost predicate MayEmpty(m: Manager, v: Verdict)
    requires v.Conflict? && v.challenger in m.validators
  {
    var k := IndexOf(m.validators, v.challenger).value;
    k in m.agreement && exists j :: j in m.agreement && k < j
  }

  ghost predicate LosesTrack(s: State, at: Moment, v: Verdict, oracle: Oracle)
    requires Challenged(s.manager, v)
  {
    && Ready(s.manager, v)
    && DisputeChain(s, at, v, oracle).Some?
    && var m' := DisputeChain(s, at, v, oracle).value.0.manager;
       m'.goal != Slots(m'.validators)
  }

  // Some outcomes of the disputes leave the masks without the remaining validators if and only if the
  // challenger agreed with the claim it contradicts, and so did a validator in a higher slot.
  lemma LosesTrackExactly(s: State, at: Moment, v: Verdict)
    requires Challenged(s.manager, v) && v.challenger in s.manager.validators
    ensures (exists oracle :: LosesTrack(s, at, v, oracle)) <==> MayEmpty(s.manager, v)
  {
    hide LosesTrack;
    forall oracle | LosesTrack(s, at, v, oracle)
      ensures MayEmpty(s.manager, v)
    {
      OnlyThenEmptied(s, at, v, oracle);
    }
    if MayEmpty(s.manager, v) {
      var oracle: Oracle := (m: Manager) => v.challenger !in m.validators;
      StrangerLoses(s, at, v, oracle);
      assert LosesTrack(s, at, v, oracle);
    }
  }

  lemma OnlyThenEmptied(s: State, at: Moment, v: Verdict, oracle: Oracle)
    requires Challenged(s.manager, v) && v.challenger in s.manager.validators && LosesTrack(s, at, v, oracle)
    ensures MayEmpty(s.manager, v)
  {
    hide WellFormed, Champion, Slots, DisputeChain;
    var m, m' := s.manager, DisputeChain(s, at, v, oracle).value.0.manager;
    var beaten := DisputesEnd(s, at, v, oracle);
    GoalSurvives(m, v, beaten, m');
    var k := IndexOf(m.validators, v.challenger).value;
    var j :| (j in beaten && j !in m.agreement) || (j in m.agreement && j !in beaten);
    assert k in beaten && j in m.agreement - beaten;
    assert k < j;
  }

  // With these outcomes the challenger wins until it has beaten itself, and then loses.
  lemma {:induction false} StrangerLoses(s: State, at: Moment, v: Verdict, oracle: Oracle)
    requires Challenged(s.manager, v) && forall m :: oracle(m) == (v.challenger !in m.validators)
    requires v.challenger in s.manager.validators ==> MayEmpty(s.manager, v)
    ensures LosesTrack(s, at, v, oracle)
    decreases |s.manager.agreement|
  {
    hide WellFormed, Champion, OnDisputeEnd, EndDispute, Slots;
    var m := s.manager;
    var i := ChampionSlot(m);
    if v.challenger !in m.validators {
      DefenderWins(m, v);
      RoundLog(s, at, v.defender, v.challenger, v.standing);
      var end := EndDispute(s.EnterPhase(at, AwaitingDispute), at, v.defender, v.challenger, v.standing);
      assert oracle(m) && !end.value.1.Conflict?;
      assert DisputeChain(s, at, v, oracle) == end;
    } else {
      var n, m1, v1 := ChallengerWins(m, v);
      RoundLog(s, at, v.challenger, v.defender, v.challenge);
      var s1 := EndDispute(s.EnterPhase(at, AwaitingDispute), at, v.challenger, v.defender, v.challenge).value.0;
      var k := IndexOf(m.validators, v.challenger).value;
      var j :| j in m.agreement && k < j;
      assert m.agreement == m1.agreement + {n} && |m1.agreement| < |m.agreement|;
      assert j in m1.agreement;
      StrangerLoses(s1, at, v1, oracle);
    }
  }

  // Against a challenger that did not agree with the claim: the claim stands, somebody still behind it,
  // and the challenger is gone; or it falls, with every one of its supporters, to the challenger.
  lemma OutsiderDisputesEnd(s: State, at: Moment, v: Verdict, oracle: Oracle)
    requires Challenged(s.manager, v) && v.challenger in s.manager.validators
    requires IndexOf(s.manager.validators, v.challenger).value !in s.manager.agreement
    ensures DisputeChain(s, at, v, oracle).Some?
    ensures var m, m' := s.manager, DisputeChain(s, at, v, oracle).value.0.manager;
            var slot := IndexOf(m.validators, v.challenger).value;
            && WellFormed(m')
            && (|| (m'.currentClaim == m.currentClaim && m'.agreement != {} && m'.agreement <= m.agreement && slot !in m'.goal)
                || (m'.currentClaim == v.challenge && m'.agreement == {slot} && m'.goal == m.goal - m.agreement))
  {
    hide WellFormed, Champion, Slots, DisputeChain;
    var beaten := DisputesEnd(s, at, v, oracle);
    var m, m' := s.manager, DisputeChain(s, at, v, oracle).value.0.manager;
    if Stands(m, v, beaten, m') {
      var i :| (i in beaten && i !in m.agreement) || (i in m.agreement && i !in beaten);
      assert i in m'.agreement;
    }
  }

  // A claim against the standing one, by whichever validator, is such a conflict.
  lemma ConflictsAreChallenges(m: Manager, sender: Address, claim: Hash)
    requires WellFormed(m) && sender != ZERO_ADDRESS && m.currentClaim != ZERO_HASH
    requires OnClaim(m, sender, claim).Some? && OnClaim(m, sender, claim).value.1.Conflict?
    ensures var (m', v) := OnClaim(m, sender, claim).value;
            && m' == m && v.challenge == claim && v.challenger == sender
            && Challenged(m, v)
  {
  }

  // Even when the challenger is itself the defender, the chain ends without a revert.
  lemma {:induction false} ChainNeverReverts(s: State, at: Moment, v: Verdict, oracle: Oracle)
    requires Ready(s.manager, v)
    ensures DisputeChain(s, at, v, oracle).Some?
    decreases |s.manager.goal|, v.Conflict?
  {
    hide OnDisputeEnd, WellFormed;
    if v.Conflict? {
      var (winner, loser, claim) :=
        if oracle(s.manager) then (v.defender, v.challenger, v.standing) else (v.challenger, v.defender, v.challenge);
      RoundShrinksGoal(s.manager, winner, loser, claim);
      var (s', v') := EndDispute(s.EnterPhase(at, AwaitingDispute), at, winner, loser, claim).value;
      if v'.Conflict? {
        ChainNeverReverts(s', at, v', oracle);
      }
    }
  }

  // Three validators, of which the first two agree. The first one contradicts itself, wins that dispute,
  // and loses the next one: both masks come out empty, which counts as consensus on the standing claim,
  // although the other two validators are still there.

  const TRIO := Manager(9, [1, 2, 3], {0, 1}, {0, 1, 2})

  lemma SelfDisputeEmpties(oracle: Oracle)
    requires !oracle(TRIO) && oracle(Expel(TRIO, 1))
    ensures WellFormed(TRIO) && OnClaim(TRIO, 1, 8) == Some((TRIO, Conflict(9, 8, 1, 1)))
    ensures var one := OnDisputeEnd(TRIO, 1, 1, 8);
            && one == Some((Expel(TRIO, 1), Conflict(9, 8, 2, 1)))
            && OnDisputeEnd(one.value.0, 2, 1, 9) == Some((Manager(9, [0, 2, 3], {}, {}), Consensus))
  {
    assert Slots(TRIO.validators) == {0, 1, 2};
    assert IndexOf(TRIO.validators, 1) == Some(0);
    var e := Expel(TRIO, 1);
    assert e == Manager(9, [0, 2, 3], {1}, {1, 2});
    assert LowestFrom(e.agreement, 0, 3) == LowestFrom(e.agreement, 1, 3) == Some(1);
    assert IndexOf(e.validators, 1).None?;
  }
}
