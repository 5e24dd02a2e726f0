/** What one session machine does over whole sequences of messages. */
module DkgRuns {
  import opened Wrappers
  import opened Identities
  import opened Collecting
  import opened DkgSession

  ghost predicate AllForeign(v: View, msgs: seq<Msg>) {
    forall m | m in msgs :: v.Foreign(m.sender)
  }

  /** The invariant holds after any messages whatever, accepted or not. */
  lemma {:induction false} RunKeepsInvariant(v: View, s: State, msgs: seq<Msg>)
    requires v.Valid() && Invariant(v, s) && AllForeign(v, msgs)
    ensures Invariant(v, Run(s, msgs, v.self))
  {
    if msgs == [] {
    } else {
      var last := |msgs| - 1;
      RunKeepsInvariant(v, s, msgs[..last]);
      StepKeepsInvariant(v, Run(s, msgs[..last], v.self), msgs[last]);
    }
  }

  // ------------------------------------------------------------------ phases

  function Phase(s: State): nat {
    match s
    case CollectingRound1(_, _) => 0
    case CollectingEchoes(_, _, _) => 1
    case CollectingRound2(_, _, _) => 2
    case Ready(_, _) => 3
  }

  /**
   * Phases only move forward, the participants never change, the round 1 packages are frozen
   * once collected, and a finished session ignores everything.
   */
  lemma {:induction false} RunsOnlyAdvance(v: View, s: State, msgs: seq<Msg>)
    requires v.Valid() && Invariant(v, s) && AllForeign(v, msgs)
    ensures var t := Run(s, msgs, v.self);
            && Phase(s) <= Phase(t)
            && t.pubkeys == s.pubkeys
            && (!s.CollectingRound1? && !t.Ready? ==> t.round1 == s.round1)
            && (s.Ready? ==> t == s)
  {
    if msgs == [] {
    } else {
      var last := |msgs| - 1;
      RunsOnlyAdvance(v, s, msgs[..last]);
      RunKeepsInvariant(v, s, msgs[..last]);
      var t := Run(s, msgs[..last], v.self);
      if t.CollectingEchoes? && msgs[last].payload.Echo? {
        EchoStep(v, t, msgs[last].sender, msgs[last].payload.original, msgs[last].payload.package);
      }
    }
  }

  /**
   * Round 1 closes only on a package from everybody else, and the session is ready only with a
   * round 2 package from everybody else; with two participants nobody waits for echoes.
   */
  lemma PhasesHoldEveryOther(v: View, msgs: seq<Msg>)
    requires v.Valid() && AllForeign(v, msgs)
    ensures var t := Run(Start(v), msgs, v.self);
            && (HasRound1Packages(t) ==> t.round1.Keys == v.Others())
            && (HasRound2Packages(t) ==> t.round2.Keys == v.Others())
            && (|v.pubkeys| == 2 ==> !t.CollectingEchoes?)
            && (t.CollectingRound1? ==> t.round1.Keys != v.Others())
            && (t.CollectingRound2? ==> t.round2.Keys != v.Others())
  {
    StartSatisfiesInvariant(v);
    RunKeepsInvariant(v, Start(v), msgs);
  }

  /**
   * Nothing in the machine itself keeps a participant's own package out: round 1 also closes on
   * n - 1 packages of which one is its own and somebody else's is missing. It closes on exactly
   * the others just when neither this message nor one before it came from the participant itself.
   */
  lemma OwnPackageDisplacesAnother(v: View, round1: map<Identifier, Package1>, sender: PublicKey, package: Package1)
    requires v.Valid() && round1.Keys <= v.pubkeys.Values && sender in v.pubkeys
    requires HasRound1Packages(OnRound1(CollectingRound1(v.pubkeys, round1), sender, package).state)
    ensures var closed := OnRound1(CollectingRound1(v.pubkeys, round1), sender, package).state.round1;
            && (closed.Keys == v.Others() <==> v.self !in round1 && v.pubkeys[sender] != v.self)
            && (closed.Keys != v.Others() <==> exists missing :: missing in v.Others() && missing !in closed)
  {
    var closed := round1[v.pubkeys[sender] := package];
    v.OthersSize();
    assert |closed| == |closed.Keys|;
    if v.self !in closed {
      SameSizeSubset(closed.Keys, v.Others());
    } else {
      if v.Others() <= closed.Keys {
        assert |v.Others() + {v.self}| == |v.pubkeys|;
        SameSizeSubset(v.Others() + {v.self}, closed.Keys);
        assert false;
      }
      var missing :| missing in v.Others() && missing !in closed.Keys;
    }
  }

  /** Round 2 does keep it out: a package is taken from exactly the senders of round 1. */
  lemma Round2TakesFromRound1(pubkeys: map<PublicKey, Identifier>, round1: map<Identifier, Package1>,
                              round2: map<Identifier, Package2>, sender: PublicKey, package: Package2)
    ensures var s := CollectingRound2(pubkeys, round1, round2);
            var r := OnRound2(s, sender, package);
            && (r.outcome.Ok? <==> sender in pubkeys && pubkeys[sender] in round1)
            && (r.outcome.Err? ==> r == Reply(s, Err(UnknownParticipant)))
  {
  }

  /** The number of echoes accepted along the way. */
  ghost function AcceptedEchoes(s: State, msgs: seq<Msg>, self: Identifier): nat {
    if msgs == [] then 0
    else
      var last := |msgs| - 1;
      var before := Run(s, msgs[..last], self);
      AcceptedEchoes(s, msgs[..last], self)
      + if before.CollectingEchoes? && Step(before, msgs[last], self).outcome.Ok? then 1 else 0
  }

  /** In any run exactly (n - 1)(n - 2) echoes are accepted before the echo round is passed. */
  lemma {:induction false} EchoRoundAcceptsItsBudget(v: View, msgs: seq<Msg>)
    requires v.Valid() && AllForeign(v, msgs)
    ensures var t := Run(Start(v), msgs, v.self);
            AcceptedEchoes(Start(v), msgs, v.self)
            == match Phase(t) case 0 => 0 case 1 => |Ledger(t.echoes)| case _ => EchoBudget(v)
  {
    StartSatisfiesInvariant(v);
    if msgs == [] {
    } else {
      var last := |msgs| - 1;
      EchoRoundAcceptsItsBudget(v, msgs[..last]);
      RunKeepsInvariant(v, Start(v), msgs[..last]);
      var before := Run(Start(v), msgs[..last], v.self);
      var after := Step(before, msgs[last], v.self).state;
      StepKeepsInvariant(v, before, msgs[last]);
      match before
      case CollectingRound1(_, _) => assert Ledger(map[]) == {};
      case CollectingEchoes(_, _, _) =>
        if msgs[last].payload.Echo? {
          EchoStep(v, before, msgs[last].sender, msgs[last].payload.original, msgs[last].payload.package);
          EchoLedgerIsExact(v, before, msgs[last].sender, msgs[last].payload.original, msgs[last].payload.package);
        }
      case _ =>
    }
  }

  // ------------------------------------------------------------------ delivery order

  ghost predicate Round1FromOthers(v: View, msgs: seq<Msg>) {
    forall m | m in msgs :: m.payload.Round1? && m.sender in v.pubkeys && v.Foreign(m.sender)
  }

  ghost function Round1Writes(v: View, msgs: seq<Msg>): (w: seq<(Identifier, Package1)>)
    requires Round1FromOthers(v, msgs)
    ensures |w| == |msgs|
  {
    seq(|msgs|, i requires 0 <= i < |msgs| => (v.pubkeys[msgs[i].sender], msgs[i].payload.package))
  }

  lemma Round1Step(v: View, held: map<Identifier, Package1>, m: Msg)
    requires v.Valid() && Round1FromOthers(v, [m]) && held.Keys < v.Others()
    ensures var after := held[v.pubkeys[m.sender] := m.payload.package];
            Step(CollectingRound1(v.pubkeys, held), m, v.self).state
            == if after.Keys == v.Others() then CloseRound1(v.pubkeys, after) else CollectingRound1(v.pubkeys, after)
  {
    v.OthersSize();
    assert m in [m];
    var after := held[v.pubkeys[m.sender] := m.payload.package];
    SameSizeSubset(after.Keys, v.Others());
    assert |after| == |after.Keys|;
  }

  /**
   * While somebody has not been heard from, the last package of each sender is the one held;
   * the package that completes the set closes the round with it.
   */
  lemma {:induction false} Round1KeepsLatest(v: View, msgs: seq<Msg>)
    requires v.Valid() && Round1FromOthers(v, msgs)
    requires msgs != [] ==> KeysOf(Round1Writes(v, msgs[..|msgs| - 1])) != v.Others()
    ensures var held := Latest(Round1Writes(v, msgs));
            Run(Start(v), msgs, v.self)
            == if held.Keys == v.Others() then CloseRound1(v.pubkeys, held) else CollectingRound1(v.pubkeys, held)
  {
    if msgs != [] {
      var last := |msgs| - 1;
      var writes := Round1Writes(v, msgs);
      assert writes[..last] == Round1Writes(v, msgs[..last]);
      assert last > 0 ==> writes[..last][..last - 1] == Round1Writes(v, msgs[..last][..last - 1]);
      OpenBefore(writes, v.Others());
      Round1KeepsLatest(v, msgs[..last]);
      Round1Step(v, Latest(writes[..last]), msgs[last]);
    } else {
      v.OthersSize();
      assert Round1Writes(v, msgs) == [];
    }
  }

  /** One package from each sender: the order in which they arrive does not matter. */
  lemma Round1IgnoresOrder(v: View, a: seq<Msg>, b: seq<Msg>)
    requires v.Valid() && Round1FromOthers(v, a) && Round1FromOthers(v, b)
    requires OnePerKey(Round1Writes(v, a)) && OnePerKey(Round1Writes(v, b))
    requires forall m :: m in a <==> m in b
    ensures Run(Start(v), a, v.self) == Run(Start(v), b, v.self)
  {
    var writesA, writesB := Round1Writes(v, a), Round1Writes(v, b);
    SameCollection(a, b, writesA, writesB, v.Others());
    assert a != [] ==> writesA[..|a| - 1] == Round1Writes(v, a[..|a| - 1]);
    assert b != [] ==> writesB[..|b| - 1] == Round1Writes(v, b[..|b| - 1]);
    Round1KeepsLatest(v, a);
    Round1KeepsLatest(v, b);
  }

  ghost function PairOf(v: View, m: Msg): (Identifier, Identifier)
    requires m.payload.Echo? && m.sender in v.pubkeys
  {
    (m.payload.original, v.pubkeys[m.sender])
  }

  /** Echoes that repeat what `s` holds, each of a pair `s` has not heard and no two of one pair. */
  ghost predicate MissingEchoes(v: View, s: State, msgs: seq<Msg>)
    requires s.CollectingEchoes? && Invariant(v, s)
  {
    && (forall m | m in msgs :: m.payload.Echo? && v.Foreign(m.sender)
                                && AcceptableEcho(v, s, m.sender, m.payload.original, m.payload.package))
    && (forall i, j :: 0 <= i < j < |msgs| ==> PairOf(v, msgs[i]) != PairOf(v, msgs[j]))
  }

  ghost function PairsOf(v: View, msgs: seq<Msg>): set<(Identifier, Identifier)>
    requires forall m | m in msgs :: m.payload.Echo? && m.sender in v.pubkeys
  {
    set m | m in msgs :: PairOf(v, m)
  }

  /**
   * In whatever order the missing echoes come they are all accepted, and the round closes on
   * the last one, just when together they cover every pair.
   */
  lemma {:induction false} EchoesInAnyOrder(v: View, s: State, msgs: seq<Msg>)
    requires v.Valid() && s.CollectingEchoes? && Invariant(v, s) && MissingEchoes(v, s, msgs)
    ensures var t := Run(s, msgs, v.self);
            if Ledger(s.echoes) + PairsOf(v, msgs) == AllPairs(v.Others()) then
              t == CollectingRound2(s.pubkeys, s.round1, map[])
            else
              && t.CollectingEchoes? && t.round1 == s.round1 && Invariant(v, t)
              && Ledger(t.echoes) == Ledger(s.echoes) + PairsOf(v, msgs)
  {
    if msgs == [] {
    } else {
      var last := |msgs| - 1;
      var m := msgs[last];
      EchoesInAnyOrder(v, s, msgs[..last]);
      assert PairsOf(v, msgs) == PairsOf(v, msgs[..last]) + {PairOf(v, m)};
      assert PairOf(v, m) !in Ledger(s.echoes) + PairsOf(v, msgs[..last]);
      assert PairOf(v, m) in AllPairs(v.Others());
      var t := Run(s, msgs[..last], v.self);
      EchoStep(v, t, m.sender, m.payload.original, m.payload.package);
    }
  }

  ghost predicate Round2FromOthers(v: View, msgs: seq<Msg>) {
    forall m | m in msgs :: m.payload.Round2? && m.sender in v.pubkeys && v.Foreign(m.sender)
  }

  ghost function Round2Writes(v: View, msgs: seq<Msg>): (w: seq<(Identifier, Package2)>)
    requires Round2FromOthers(v, msgs)
    ensures |w| == |msgs|
  {
    seq(|msgs|, i requires 0 <= i < |msgs| => (v.pubkeys[msgs[i].sender], msgs[i].payload.package2))
  }

  lemma Round2Step(v: View, round1: map<Identifier, Package1>, held: map<Identifier, Package2>, m: Msg)
    requires v.Valid() && Round2FromOthers(v, [m]) && held.Keys < v.Others() && round1.Keys == v.Others()
    ensures var after := held[v.pubkeys[m.sender] := m.payload.package2];
            Step(CollectingRound2(v.pubkeys, round1, held), m, v.self).state
            == if after.Keys == v.Others() then Ready(v.pubkeys, after) else CollectingRound2(v.pubkeys, round1, after)
  {
    v.OthersSize();
    assert m in [m];
    var after := held[v.pubkeys[m.sender] := m.payload.package2];
    SameSizeSubset(after.Keys, v.Others());
    assert |after| == |after.Keys|;
  }

  /** Round 2 keeps the last package of each sender too, and is ready when it has everybody's. */
  lemma {:induction false} Round2KeepsLatest(v: View, round1: map<Identifier, Package1>, msgs: seq<Msg>)
    requires v.Valid() && Round2FromOthers(v, msgs) && round1.Keys == v.Others()
    requires msgs != [] ==> KeysOf(Round2Writes(v, msgs[..|msgs| - 1])) != v.Others()
    ensures var held := Latest(Round2Writes(v, msgs));
            Run(CollectingRound2(v.pubkeys, round1, map[]), msgs, v.self)
            == if held.Keys == v.Others() then Ready(v.pubkeys, held)
               else CollectingRound2(v.pubkeys, round1, held)
  {
    if msgs != [] {
      var last := |msgs| - 1;
      var writes := Round2Writes(v, msgs);
      assert writes[..last] == Round2Writes(v, msgs[..last]);
      assert last > 0 ==> writes[..last][..last - 1] == Round2Writes(v, msgs[..last][..last - 1]);
      OpenBefore(writes, v.Others());
      Round2KeepsLatest(v, round1, msgs[..last]);
      Round2Step(v, round1, Latest(writes[..last]), msgs[last]);
    } else {
      v.OthersSize();
      assert Round2Writes(v, msgs) == [];
    }
  }

  /** Nor does it in round 2. */
  lemma Round2IgnoresOrder(v: View, round1: map<Identifier, Package1>, a: seq<Msg>, b: seq<Msg>)
    requires v.Valid() && round1.Keys == v.Others()
    requires Round2FromOthers(v, a) && Round2FromOthers(v, b)
    requires OnePerKey(Round2Writes(v, a)) && OnePerKey(Round2Writes(v, b))
    requires forall m :: m in a <==> m in b
    ensures var s := CollectingRound2(v.pubkeys, round1, map[]);
            Run(s, a, v.self) == Run(s, b, v.self)
  {
    var writesA, writesB := Round2Writes(v, a), Round2Writes(v, b);
    SameCollection(a, b, writesA, writesB, v.Others());
    assert a != [] ==> writesA[..|a| - 1] == Round2Writes(v, a[..|a| - 1]);
    assert b != [] ==> writesB[..|b| - 1] == Round2Writes(v, b[..|b| - 1]);
    Round2KeepsLatest(v, round1, a);
    Round2KeepsLatest(v, round1, b);
  }
}
