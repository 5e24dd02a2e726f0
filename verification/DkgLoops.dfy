/**
 * When the two receive loops of round 1 end. They look for the phase they wait for only between
 * batches, and a machine that is ready is in neither phase any more.
 */
module DkgLoops {
  import opened Wrappers
  import opened Identities
  import opened Collecting
  import opened DkgSession
  import opened DkgRuns
  import opened DkgClient

  /** The participants whose round 2 packages are among the messages. */
  ghost function Round2Senders(v: View, msgs: seq<Msg>): set<Identifier> {
    set m | m in msgs && m.payload.Round2? && m.sender in v.pubkeys :: v.pubkeys[m.sender]
  }

  /** The participants whose round 2 packages are held. */
  function Round2Held(s: State): set<Identifier> {
    match s
    case CollectingRound2(_, _, round2) => round2.Keys
    case Ready(_, round2) => round2.Keys
    case _ => {}
  }

  lemma StepHoldsRound2(v: View, s: State, m: Msg)
    requires v.Valid() && Invariant(v, s) && v.Foreign(m.sender) && Step(s, m, v.self).outcome.Ok?
    ensures Round2Held(Step(s, m, v.self).state) == Round2Held(s) + Round2Senders(v, [m])
  {
    assert forall n :: n in [m] <==> n == m;
  }

  /** An accepted batch adds exactly its round 2 senders to those held. */
  lemma {:induction false} BatchHoldsRound2(v: View, s: State, msgs: seq<Msg>)
    requires v.Valid() && Invariant(v, s) && AllForeign(v, msgs) && RecvBatch(s, msgs, v.self).outcome.Ok?
    ensures Round2Held(RecvBatch(s, msgs, v.self).state) == Round2Held(s) + Round2Senders(v, msgs)
    decreases |msgs|
  {
    hide Step, Invariant;
    if msgs == [] {
    } else {
      StepHoldsRound2(v, s, msgs[0]);
      StepKeepsInvariant(v, s, msgs[0]);
      BatchHoldsRound2(v, Step(s, msgs[0], v.self).state, msgs[1..]);
      assert Round2Senders(v, msgs) == Round2Senders(v, [msgs[0]]) + Round2Senders(v, msgs[1..]) by {
        assert msgs == [msgs[0]] + msgs[1..];
      }
    }
  }

  lemma ReadyMeansAllHeld(v: View, s: State)
    requires v.Valid() && Invariant(v, s)
    ensures s.Ready? <==> Round2Held(s) == v.Others()
  {
    v.OthersSize();
  }

  /** A machine that is ready is past what the loops of round 1 wait for, whatever comes. */
  lemma {:induction false} ReadyLoopNeverEnds(s: State, batches: seq<seq<Msg>>, self: Identifier, goal: Goal)
    requires s.Ready? && !goal.GotRound2?
    ensures Poll(s, batches, self, goal).0 == s && Poll(s, batches, self, goal).1.Err?
    decreases |batches|
  {
    if batches == [] {
    } else {
      assert RecvBatch(s, batches[0], self).state == s;
      if batches[0] == [] { ReadyLoopNeverEnds(s, batches[1..], self, goal); }
    }
  }

  predicate Reached(s: State, goal: Goal) {
    match goal case GotRound1 => Phase(s) >= 1 case GotEchoes => Phase(s) >= 2 case GotRound2 => Phase(s) >= 3
  }

  /**
   * In either loop of round 1, with an accepted batch that takes the machine to the phase waited
   * for, or past it: the loop succeeds just when the batch does not also bring a round 2 package
   * from everybody else. If it does, the machine is ready and the loop never succeeds.
   */
  lemma LoopEndsUnlessOvertaken(v: View, s: State, batch: seq<Msg>, more: seq<seq<Msg>>, goal: Goal)
    requires v.Valid() && Invariant(v, s) && AllForeign(v, batch) && !goal.GotRound2? && !Reached(s, goal)
    requires RecvBatch(s, batch, v.self).outcome.Ok? && Reached(RecvBatch(s, batch, v.self).state, goal)
    ensures var r := Poll(s, [batch] + more, v.self, goal);
            && (r.1.Ok? <==> Round2Senders(v, batch) != v.Others())
            && r.0 == RecvBatch(s, batch, v.self).state
            && (r.1.Err? <==> r.0.Ready?)
  {
    hide Invariant;
    var t := RecvBatch(s, batch, v.self).state;
    assert ([batch] + more)[0] == batch && ([batch] + more)[1..] == more;
    BatchHoldsRound2(v, s, batch);
    BatchKeepsInvariant(v, s, batch);
    ReadyMeansAllHeld(v, t);
    if t.Ready? { ReadyLoopNeverEnds(t, more, v.self, goal); }
  }

  lemma {:induction false} BatchStopsAtRejection(s: State, msgs: seq<Msg>, k: nat, self: Identifier)
    requires k < |msgs| && RecvBatch(s, msgs[..k], self).outcome.Ok?
    requires Step(RecvBatch(s, msgs[..k], self).state, msgs[k], self).outcome.Err?
    ensures RecvBatch(s, msgs, self) == Step(RecvBatch(s, msgs[..k], self).state, msgs[k], self)
    decreases k
  {
    hide Step;
    if k == 0 {
    } else {
      assert msgs[..k][0] == msgs[0] && msgs[..k][1..] == msgs[1..][..k - 1];
      BatchStopsAtRejection(Step(s, msgs[0], self).state, msgs[1..], k - 1, self);
    }
  }

  /** The first message a machine rejects ends the loop with its error, whatever else has arrived. */
  lemma RejectionEndsLoop(v: View, s: State, msgs: seq<Msg>, k: nat, more: seq<seq<Msg>>, goal: Goal)
    requires v.Valid() && Invariant(v, s) && AllForeign(v, msgs)
    requires k < |msgs| && RecvBatch(s, msgs[..k], v.self).outcome.Ok?
    requires Step(RecvBatch(s, msgs[..k], v.self).state, msgs[k], v.self).outcome.Err?
    ensures var t := RecvBatch(s, msgs[..k], v.self).state;
            Poll(s, [msgs] + more, v.self, goal) == (t, Err(SessionFailed(Step(t, msgs[k], v.self).outcome.error)))
  {
    hide Step, Invariant;
    BatchStopsAtRejection(s, msgs, k, v.self);
    BatchKeepsInvariant(v, s, msgs[..k]);
    RejectionChangesNothing(v, RecvBatch(s, msgs[..k], v.self).state, msgs[k]);
    assert ([msgs] + more)[0] == msgs;
  }

  // ------------------------------------------------------------------ it happens

  /** With two participants: both of the other's packages are there when the client first looks. */
  lemma FirstLoopOvertaken(v: View, k: PublicKey, p: Package1, q: Package2, more: seq<seq<Msg>>)
    requires v.Valid() && |v.pubkeys| == 2 && k in v.pubkeys && v.pubkeys[k] != v.self
    ensures var r := Poll(Start(v), [[Msg(k, Round1(p)), Msg(k, Round2(q))]] + more, v.self, GotRound1);
            r.0.Ready? && r.1.Err?
  {
    var batch := [Msg(k, Round1(p)), Msg(k, Round2(q))];
    var both := map[v.pubkeys[k] := p];
    var s := CollectingRound2(v.pubkeys, both, map[]);
    assert both == map[][v.pubkeys[k] := p] && |both| == 1;
    assert Step(Start(v), batch[0], v.self) == Reply(s, Ok(()));
    assert batch[1..] == [batch[1]] && batch[1..][1..] == [];
    var round2 := map[v.pubkeys[k] := q];
    assert map[][v.pubkeys[k] := q] == round2 && round2.Keys == both.Keys;
    assert Step(s, batch[1], v.self) == Reply(Ready(v.pubkeys, round2), Ok(()));
    assert RecvBatch(s, [batch[1]], v.self) == RecvBatch(Ready(v.pubkeys, round2), [], v.self);
    assert RecvBatch(Start(v), batch, v.self) == RecvBatch(s, [batch[1]], v.self);
    assert ([batch] + more)[0] == batch && ([batch] + more)[1..] == more;
    ReadyLoopNeverEnds(Ready(v.pubkeys, round2), more, v.self, GotRound1);
  }

  /** One round 2 package each from participants not heard from yet: the whole batch is accepted. */
  lemma {:induction false} Round2BatchAccepted(v: View, round1: map<Identifier, Package1>,
                                               round2: map<Identifier, Package2>, msgs: seq<Msg>)
    requires v.Valid() && Invariant(v, CollectingRound2(v.pubkeys, round1, round2)) && Round2FromOthers(v, msgs)
    requires OnePerKey(Round2Writes(v, msgs)) && KeysOf(Round2Writes(v, msgs)) !! round2.Keys
    ensures RecvBatch(CollectingRound2(v.pubkeys, round1, round2), msgs, v.self).outcome.Ok?
    decreases |msgs|
  {
    if msgs == [] {
    } else {
      var s := CollectingRound2(v.pubkeys, round1, round2);
      var writes := Round2Writes(v, msgs);
      var m, id := msgs[0], v.pubkeys[msgs[0].sender];
      var after := round2[id := m.payload.package2];
      assert m in msgs && writes[0] == (id, m.payload.package2) && writes[0] in writes;
      StepKeepsInvariant(v, s, m);
      assert Round2Writes(v, msgs[1..]) == writes[1..];
      forall j | 0 <= j < |writes[1..]| ensures writes[1..][j].0 in v.Others() && writes[1..][j].0 !in after {
        assert msgs[j + 1] in msgs && writes[j + 1] in writes;
        assert writes[j + 1].0 in KeysOf(writes) && writes[j + 1].0 != writes[0].0;
      }
      if msgs[1..] == [] {
      } else {
        assert writes[1..][0].0 in v.Others() && writes[1..][0].0 !in after;
        Round2BatchAccepted(v, round1, after, msgs[1..]);
      }
    }
  }

  /**
   * With three participants or more: the last echo and everybody's round 2 package are there
   * when the client looks again. Nobody has done anything wrong.
   */
  lemma SecondLoopOvertaken(v: View, s: State, echo: Msg, msgs: seq<Msg>, more: seq<seq<Msg>>)
    requires v.Valid() && s.CollectingEchoes? && Invariant(v, s) && MissingEchoes(v, s, [echo])
    requires Ledger(s.echoes) + PairsOf(v, [echo]) == AllPairs(v.Others())
    requires Round2FromOthers(v, msgs) && OnePerKey(Round2Writes(v, msgs))
    requires KeysOf(Round2Writes(v, msgs)) == v.Others()
    ensures var r := Poll(s, [[echo] + msgs] + more, v.self, GotEchoes);
            r.0.Ready? && r.1.Err?
  {
    hide Step, Invariant, MissingEchoes;
    var batch := [echo] + msgs;
    var t := CollectingRound2(s.pubkeys, s.round1, map[]);
    LastEcho(v, s, echo);
    AllRound2(v, t, msgs);
    assert batch[0] == echo && batch[1..] == msgs;
    assert ([batch] + more)[0] == batch && ([batch] + more)[1..] == more;
    ReadyLoopNeverEnds(RecvBatch(t, msgs, v.self).state, more, v.self, GotEchoes);
  }

  lemma AllRound2(v: View, t: State, msgs: seq<Msg>)
    requires v.Valid() && Invariant(v, t) && t.CollectingRound2? && t.round2 == map[]
    requires Round2FromOthers(v, msgs) && OnePerKey(Round2Writes(v, msgs))
    requires KeysOf(Round2Writes(v, msgs)) == v.Others()
    ensures RecvBatch(t, msgs, v.self).outcome.Ok? && RecvBatch(t, msgs, v.self).state.Ready?
  {
    hide Step, RecvBatch;
    Round2BatchAccepted(v, t.round1, map[], msgs);
    BatchHoldsRound2(v, t, msgs);
    BatchKeepsInvariant(v, t, msgs);
    SendersOfWrites(v, msgs);
    ReadyMeansAllHeld(v, RecvBatch(t, msgs, v.self).state);
  }

  lemma LastEcho(v: View, s: State, echo: Msg)
    requires v.Valid() && s.CollectingEchoes? && Invariant(v, s) && MissingEchoes(v, s, [echo])
    requires Ledger(s.echoes) + PairsOf(v, [echo]) == AllPairs(v.Others())
    ensures v.Foreign(echo.sender) && Invariant(v, CollectingRound2(s.pubkeys, s.round1, map[]))
    ensures s.pubkeys == v.pubkeys
    ensures Step(s, echo, v.self) == Reply(CollectingRound2(s.pubkeys, s.round1, map[]), Ok(()))
  {
    assert echo in [echo];
    assert PairsOf(v, [echo]) == {PairOf(v, echo)};
    EchoStep(v, s, echo.sender, echo.payload.original, echo.payload.package);
    v.OthersSize();
  }

  lemma SendersOfWrites(v: View, msgs: seq<Msg>)
    requires Round2FromOthers(v, msgs)
    ensures Round2Senders(v, msgs) == KeysOf(Round2Writes(v, msgs))
  {
    var writes := Round2Writes(v, msgs);
    forall id | id in KeysOf(writes) ensures id in Round2Senders(v, msgs) {
      var i :| 0 <= i < |writes| && writes[i].0 == id;
      assert msgs[i] in msgs;
    }
    forall id | id in Round2Senders(v, msgs) ensures id in KeysOf(writes) {
      var m :| m in msgs && m.sender in v.pubkeys && v.pubkeys[m.sender] == id;
      var i :| 0 <= i < |msgs| && msgs[i] == m;
      assert writes[i] in writes;
    }
  }
}
