/**
 * A whole key generation: honest participants, each running one session machine the way the
 * HTTP client drives it, and corrupt ones that may send anything under their own key.
 * Channels are authenticated; they may drop, delay, reorder and repeat messages.
 */
module DkgNetwork {
  import opened Wrappers
  import opened Identities
  import opened DkgSession
  import opened DkgClient

  /**
   * What is fixed before the run: who takes part, who is honest, the round 1 package of each
   * honest participant, and what each computes from the packages it gathered.
   */
  datatype Setup = Setup(pubkeys: map<PublicKey, Identifier>, honest: set<PublicKey>,
                         own: map<PublicKey, Package1>,
                         part2: (PublicKey, map<Identifier, Package1>) -> map<Identifier, Package2>) {
    ghost predicate Valid() {
      Injective(pubkeys) && |pubkeys| >= 2 && honest <= pubkeys.Keys && honest <= own.Keys
    }

    function ViewOf(h: PublicKey): View
      requires h in pubkeys
    {
      View(pubkeys, pubkeys[h])
    }
  }

  /** Where a participant is in its client: the two loops of round 1, the loop of round 2, after. */
  datatype Stage = AwaitingRound1 | AwaitingEchoes | AwaitingRound2 | Finished | Aborted

  /**
   * `received` is what gathering round 1 packages returned; `closed` is a history variable: the
   * packages held when the machine left round 1.
   */
  datatype Party = Party(state: State, stage: Stage,
                         closed: Option<map<Identifier, Package1>>,
                         received: Option<map<Identifier, Package1>>)

  datatype Network = Network(parties: map<PublicKey, Party>, wire: set<Envelope>)

  datatype Action =
    | Send(h: PublicKey, envelope: Envelope)
    | Deliver(h: PublicKey, envelope: Envelope)
    | LeaveRound1(h: PublicKey)
    | LeaveEchoes(h: PublicKey)
    | Finish(h: PublicKey)
    | Abort(h: PublicKey)
    | Corrupt(envelope: Envelope)

  ghost function Init(c: Setup): Network
    requires c.Valid()
  {
    Network(map h | h in c.honest :: Party(Start(c.ViewOf(h)), AwaitingRound1, None, None), {})
  }

  function HandOver(p: Party, msg: Msg, self: Identifier): Party {
    var r := Step(p.state, msg, self);
    var closed := if p.closed.None? && HasRound1Packages(r.state) then Some(r.state.round1) else p.closed;
    Party(r.state, if r.outcome.Ok? then p.stage else Aborted, closed, p.received)
  }

  /**
   * The mail a client has to send where it is. It sends one message at a time, perhaps not all
   * of them; here it may also receive in between.
   */
  function Mail(c: Setup, h: PublicKey, p: Party): set<Envelope>
    requires h in c.own
  {
    match p.stage
    case AwaitingRound1 => Round1Mail(c.pubkeys, h, c.own[h])
    case AwaitingEchoes => if HasRound1Packages(p.state) then EchoMail(c.pubkeys, h, p.state.round1) else {}
    case AwaitingRound2 => if p.received.Some? then Round2Mail(c.pubkeys, h, c.part2(h, p.received.value)) else {}
    case _ => {}
  }

  predicate Receiving(p: Party) { p.stage != Finished && p.stage != Aborted }

  /** One action; an action that is not possible in `n` leaves it unchanged. */
  function Apply(c: Setup, n: Network, a: Action): Network
    requires c.Valid() && n.parties.Keys == c.honest
  {
    if a.Corrupt? then
      if a.envelope.from in c.honest then n else n.(wire := n.wire + {a.envelope})
    else if a.h !in c.honest then n
    else
      var p := n.parties[a.h];
      match a
      case Send(h, e) => if e in Mail(c, h, p) then n.(wire := n.wire + {e}) else n
      case Deliver(h, e) =>
        if Receiving(p) && e in n.wire && e.to == h && e.from != h
        then Update(n, h, HandOver(p, Msg(e.from, e.payload), c.pubkeys[h])) else n
      case LeaveRound1(h) =>
        if p.stage != AwaitingRound1 || !HasRound1Packages(p.state) then n
        else if HasCheckedRound1Packages(p.state)
        then Update(n, h, p.(stage := AwaitingRound2, received := Some(p.state.round1)))
        else Update(n, h, p.(stage := AwaitingEchoes))
      case LeaveEchoes(h) =>
        if p.stage == AwaitingEchoes && HasCheckedRound1Packages(p.state)
        then Update(n, h, p.(stage := AwaitingRound2, received := Some(p.state.round1))) else n
      case Finish(h) =>
        if p.stage == AwaitingRound2 && HasRound2Packages(p.state) then Update(n, h, p.(stage := Finished)) else n
      case Abort(h) => Update(n, h, p.(stage := Aborted))
  }

  function Update(n: Network, h: PublicKey, p: Party): Network {
    n.(parties := n.parties[h := p])
  }

  /** The network after any sequence of actions. */
  ghost function Execute(c: Setup, actions: seq<Action>): (n: Network)
    requires c.Valid()
    ensures n.parties.Keys == c.honest
  {
    if actions == [] then Init(c)
    else Apply(c, Execute(c, actions[..|actions| - 1]), actions[|actions| - 1])
  }

  // ------------------------------------------------------------------ the invariant

  /** `k` closed round 1 holding `package` for `original`. */
  ghost predicate Vouches(n: Network, k: PublicKey, original: Identifier, package: Package1) {
    && k in n.parties && n.parties[k].closed.Some?
    && original in n.parties[k].closed.value && n.parties[k].closed.value[original] == package
  }

  ghost predicate SentRound2(c: Setup, n: Network, k: PublicKey, to: Identifier, package: Package2) {
    && k in n.parties && n.parties[k].received.Some?
    && to in c.part2(k, n.parties[k].received.value)
    && c.part2(k, n.parties[k].received.value)[to] == package
  }

  /** Whatever bears an honest key is what that participant's client sends. */
  ghost predicate HonestEnvelope(c: Setup, n: Network, e: Envelope)
    requires c.Valid() && e.from in c.honest
  {
    match e.payload
    case Round1(package) => package == c.own[e.from]
    case Echo(original, package) => Vouches(n, e.from, original, package)
    case Round2(package) => e.to in c.pubkeys && SentRound2(c, n, e.from, c.pubkeys[e.to], package)
    case Garbage => true
  }

  ghost predicate WireInvariant(c: Setup, n: Network)
    requires c.Valid()
  {
    forall e | e in n.wire && e.from in c.honest :: HonestEnvelope(c, n, e)
  }

  ghost predicate HonestPackages(c: Setup, h: PublicKey, round1: map<Identifier, Package1>)
    requires c.Valid()
  {
    forall k | k in c.honest && k != h && c.pubkeys[k] in round1 :: round1[c.pubkeys[k]] == c.own[k]
  }

  /** Every echo heard from an honest participant is vouched for by it. */
  ghost predicate EchoesVouched(c: Setup, n: Network, h: PublicKey, echoes: Echoes)
    requires c.Valid()
  {
    forall k, o | k in c.honest && k != h && o in echoes && c.pubkeys[k] in echoes[o] ::
      Vouches(n, k, o, echoes[o][c.pubkeys[k]])
  }

  /** Every honest participant vouches for every package of a third one. */
  ghost predicate FullyVouched(c: Setup, n: Network, h: PublicKey, round1: map<Identifier, Package1>)
    requires c.Valid()
  {
    forall k, o | k in c.honest && k != h && o in round1 && o != c.pubkeys[k] :: Vouches(n, k, o, round1[o])
  }

  ghost predicate Round2Honest(c: Setup, n: Network, h: PublicKey, round2: map<Identifier, Package2>)
    requires c.Valid() && h in c.pubkeys
  {
    forall k | k in c.honest && k != h && c.pubkeys[k] in round2 ::
      SentRound2(c, n, k, c.pubkeys[h], round2[c.pubkeys[k]])
  }

  /** What holds of participant `h` in condition `p`, given what the others in `n` have done. */
  ghost predicate PartyInvariant(c: Setup, n: Network, h: PublicKey, p: Party)
    requires c.Valid() && h in c.honest
  {
    && Invariant(c.ViewOf(h), p.state)
    && (p.stage == AwaitingRound2 || p.stage == Finished ==> p.received.Some?)
    && (p.stage == Finished ==> p.state.Ready?)
    && (p.received.Some? ==> p.received == p.closed && Phase2(p.state))
    && match p.state
       case CollectingRound1(_, round1) => p.closed.None? && HonestPackages(c, h, round1)
       case CollectingEchoes(_, round1, echoes) =>
         p.closed == Some(round1) && HonestPackages(c, h, round1) && EchoesVouched(c, n, h, echoes)
       case CollectingRound2(_, round1, round2) =>
         && p.closed == Some(round1) && HonestPackages(c, h, round1) && FullyVouched(c, n, h, round1)
         && Round2Honest(c, n, h, round2)
       case Ready(_, round2) =>
         && p.closed.Some? && p.closed.value.Keys == c.ViewOf(h).Others()
         && HonestPackages(c, h, p.closed.value) && FullyVouched(c, n, h, p.closed.value)
         && Round2Honest(c, n, h, round2)
  }

  predicate Phase2(s: State) { s.CollectingRound2? || s.Ready? }

  ghost predicate NetworkInvariant(c: Setup, n: Network)
    requires c.Valid() && n.parties.Keys == c.honest
  {
    WireInvariant(c, n) && forall h | h in c.honest :: PartyInvariant(c, n, h, n.parties[h])
  }

  /** Nothing a participant has closed or received is ever taken back. */
  ghost predicate Extends(n: Network, m: Network) {
    && n.parties.Keys == m.parties.Keys
    && forall k | k in n.parties ::
         && (n.parties[k].closed.Some? ==> m.parties[k].closed == n.parties[k].closed)
         && (n.parties[k].received.Some? ==> m.parties[k].received == n.parties[k].received)
  }

  /** A participant that does not act keeps its invariant whatever the others do. */
  lemma BystanderKeepsInvariant(c: Setup, n: Network, m: Network, h: PublicKey, p: Party)
    requires c.Valid() && h in c.honest && Extends(n, m) && PartyInvariant(c, n, h, p)
    ensures PartyInvariant(c, m, h, p)
  {
  }

  lemma WireKeepsInvariant(c: Setup, n: Network, m: Network)
    requires c.Valid() && Extends(n, m) && WireInvariant(c, n) && m.wire == n.wire
    ensures WireInvariant(c, m)
  {
    forall e | e in m.wire && e.from in c.honest ensures HonestEnvelope(c, m, e) {
      assert HonestEnvelope(c, n, e);
    }
  }

  lemma Round1Delivery(c: Setup, n: Network, h: PublicKey, p: Party, e: Envelope)
    requires c.Valid() && h in c.honest && PartyInvariant(c, n, h, p) && p.state.CollectingRound1?
    requires e.from != h && (e.from in c.honest ==> HonestEnvelope(c, n, e))
    ensures PartyInvariant(c, n, h, HandOver(p, Msg(e.from, e.payload), c.pubkeys[h]))
  {
    var v := c.ViewOf(h);
    StepKeepsInvariant(v, p.state, Msg(e.from, e.payload));
    if e.payload.Round1? && e.from in c.pubkeys {
      assert HonestPackages(c, h, p.state.round1[c.pubkeys[e.from] := e.payload.package]);
    }
  }

  lemma EchoDelivery(c: Setup, n: Network, h: PublicKey, p: Party, e: Envelope)
    requires c.Valid() && h in c.honest && PartyInvariant(c, n, h, p) && p.state.CollectingEchoes?
    requires e.from != h && (e.from in c.honest ==> HonestEnvelope(c, n, e))
    ensures PartyInvariant(c, n, h, HandOver(p, Msg(e.from, e.payload), c.pubkeys[h]))
  {
    var v := c.ViewOf(h);
    var msg := Msg(e.from, e.payload);
    StepKeepsInvariant(v, p.state, msg);
    if e.payload.Echo? {
      var o := e.payload.original;
      EchoStep(v, p.state, e.from, o, e.payload.package);
      if AcceptableEcho(v, p.state, e.from, o, e.payload.package) {
        var after := Heard(p.state.round1, p.state.echoes, o, c.pubkeys[e.from]);
        assert EchoesVouched(c, n, h, after);
        if Ledger(after) == AllPairs(v.Others()) {
          EveryPairVouched(c, n, h, p.state.round1, after);
        }
      }
    }
  }

  /** Having heard every pair, each package is vouched for by everybody honest. */
  lemma EveryPairVouched(c: Setup, n: Network, h: PublicKey, round1: map<Identifier, Package1>, echoes: Echoes)
    requires c.Valid() && h in c.honest && round1.Keys == c.ViewOf(h).Others()
    requires EchoesFaithful(c.ViewOf(h), round1, echoes) && EchoesVouched(c, n, h, echoes)
    requires Ledger(echoes) == AllPairs(c.ViewOf(h).Others())
    ensures FullyVouched(c, n, h, round1)
  {
    forall k, o | k in c.honest && k != h && o in round1 && o != c.pubkeys[k]
      ensures Vouches(n, k, o, round1[o])
    {
      assert (o, c.pubkeys[k]) in AllPairs(c.ViewOf(h).Others());
      assert (o, c.pubkeys[k]) in Ledger(echoes);
    }
  }

  lemma Round2Delivery(c: Setup, n: Network, h: PublicKey, p: Party, e: Envelope)
    requires c.Valid() && h in c.honest && PartyInvariant(c, n, h, p) && p.state.CollectingRound2?
    requires e.to == h && e.from != h && (e.from in c.honest ==> HonestEnvelope(c, n, e))
    ensures PartyInvariant(c, n, h, HandOver(p, Msg(e.from, e.payload), c.pubkeys[h]))
  {
    var v := c.ViewOf(h);
    StepKeepsInvariant(v, p.state, Msg(e.from, e.payload));
    if e.payload.Round2? && e.from in c.pubkeys {
      assert Round2Honest(c, n, h, p.state.round2[c.pubkeys[e.from] := e.payload.package2]);
    }
  }

  /** One participant's own step: the others and the wire see at most that it closed or received more. */
  lemma OwnStep(c: Setup, n: Network, h: PublicKey, p: Party)
    requires c.Valid() && h in c.honest && n.parties.Keys == c.honest && NetworkInvariant(c, n)
    requires PartyInvariant(c, n, h, p)
    requires n.parties[h].closed.Some? ==> p.closed == n.parties[h].closed
    requires n.parties[h].received.Some? ==> p.received == n.parties[h].received
    ensures NetworkInvariant(c, Update(n, h, p))
  {
    var m := Update(n, h, p);
    assert Extends(n, m);
    WireKeepsInvariant(c, n, m);
    forall k | k in c.honest ensures PartyInvariant(c, m, k, m.parties[k]) {
      BystanderKeepsInvariant(c, n, m, k, m.parties[k]);
    }
  }

  lemma PostKeepsInvariant(c: Setup, n: Network, e: Envelope)
    requires c.Valid() && n.parties.Keys == c.honest && NetworkInvariant(c, n)
    requires e.from in c.honest ==> HonestEnvelope(c, n, e)
    ensures NetworkInvariant(c, n.(wire := n.wire + {e}))
  {
    var m := n.(wire := n.wire + {e});
    assert Extends(n, m);
    forall f | f in m.wire && f.from in c.honest ensures HonestEnvelope(c, m, f) {
      assert f == e || HonestEnvelope(c, n, f);
    }
    forall k | k in c.honest ensures PartyInvariant(c, m, k, m.parties[k]) {
      BystanderKeepsInvariant(c, n, m, k, n.parties[k]);
    }
  }

  lemma SendKeepsInvariant(c: Setup, n: Network, h: PublicKey, e: Envelope)
    requires c.Valid() && n.parties.Keys == c.honest && NetworkInvariant(c, n)
    requires h in c.honest && e in Mail(c, h, n.parties[h])
    ensures NetworkInvariant(c, n.(wire := n.wire + {e}))
  {
    assert PartyInvariant(c, n, h, n.parties[h]);
    assert HonestEnvelope(c, n, e);
    PostKeepsInvariant(c, n, e);
  }

  lemma DeliverKeepsInvariant(c: Setup, n: Network, h: PublicKey, e: Envelope)
    requires c.Valid() && n.parties.Keys == c.honest && NetworkInvariant(c, n)
    requires h in c.honest && e in n.wire && e.to == h && e.from != h
    ensures NetworkInvariant(c, Update(n, h, HandOver(n.parties[h], Msg(e.from, e.payload), c.pubkeys[h])))
  {
    var p := n.parties[h];
    assert PartyInvariant(c, n, h, p);
    match p.state {
      case CollectingRound1(_, _) => Round1Delivery(c, n, h, p, e);
      case CollectingEchoes(_, _, _) => EchoDelivery(c, n, h, p, e);
      case CollectingRound2(_, _, _) => Round2Delivery(c, n, h, p, e);
      case Ready(_, _) =>
    }
    OwnStep(c, n, h, HandOver(p, Msg(e.from, e.payload), c.pubkeys[h]));
  }

  lemma AdvanceKeepsInvariant(c: Setup, n: Network, a: Action)
    requires c.Valid() && n.parties.Keys == c.honest && NetworkInvariant(c, n)
    requires a.LeaveRound1? || a.LeaveEchoes? || a.Finish? || a.Abort?
    ensures NetworkInvariant(c, Apply(c, n, a))
  {
    if a.h in c.honest && Apply(c, n, a) != n {
      assert PartyInvariant(c, n, a.h, n.parties[a.h]);
      OwnStep(c, n, a.h, Apply(c, n, a).parties[a.h]);
    }
  }

  lemma ActionKeepsInvariant(c: Setup, n: Network, a: Action)
    requires c.Valid() && n.parties.Keys == c.honest && NetworkInvariant(c, n)
    ensures NetworkInvariant(c, Apply(c, n, a))
  {
    match a
    case Corrupt(e) =>
      if e.from !in c.honest { PostKeepsInvariant(c, n, e); }
    case Deliver(h, e) =>
      if h in c.honest && Receiving(n.parties[h]) && e in n.wire && e.to == h && e.from != h {
        DeliverKeepsInvariant(c, n, h, e);
      }
    case Send(h, e) =>
      if h in c.honest && e in Mail(c, h, n.parties[h]) { SendKeepsInvariant(c, n, h, e); }
    case _ => AdvanceKeepsInvariant(c, n, a);
  }

  lemma {:induction false} ExecutionKeepsInvariant(c: Setup, actions: seq<Action>)
    requires c.Valid()
    ensures NetworkInvariant(c, Execute(c, actions))
  {
    if actions == [] {
      forall h | h in c.honest ensures PartyInvariant(c, Init(c), h, Init(c).parties[h]) {
        StartSatisfiesInvariant(c.ViewOf(h));
      }
    } else {
      var last := |actions| - 1;
      ExecutionKeepsInvariant(c, actions[..last]);
      ActionKeepsInvariant(c, Execute(c, actions[..last]), actions[last]);
    }
  }

  // ------------------------------------------------------------------ agreement

  /** All the round 1 packages participant `h` goes on to use: its own and those it gathered. */
  ghost function Packages(c: Setup, h: PublicKey, gathered: map<Identifier, Package1>): map<Identifier, Package1>
    requires c.Valid() && h in c.honest
  {
    gathered[c.pubkeys[h] := c.own[h]]
  }

  /**
   * Two honest participants that finish gathering round 1 packages hold the same package for
   * every participant, corrupt ones included, and for honest ones the package these sent.
   */
  lemma Agreement(c: Setup, actions: seq<Action>, i: PublicKey, j: PublicKey)
    requires c.Valid() && i in c.honest && j in c.honest
    requires Execute(c, actions).parties[i].received.Some? && Execute(c, actions).parties[j].received.Some?
    ensures var n := Execute(c, actions);
            var packages := Packages(c, i, n.parties[i].received.value);
            && packages == Packages(c, j, n.parties[j].received.value)
            && packages.Keys == c.pubkeys.Values
            && forall k | k in c.honest :: packages[c.pubkeys[k]] == c.own[k]
  {
    ExecutionKeepsInvariant(c, actions);
    var n := Execute(c, actions);
    assert PartyInvariant(c, n, i, n.parties[i]) && PartyInvariant(c, n, j, n.parties[j]);
    if i != j {
      CheckedPackagesAreShared(c, n, i, j);
    } else {
      forall k | k in c.honest && k != i ensures c.pubkeys[k] in n.parties[i].received.value {
        assert c.pubkeys[k] in c.ViewOf(i).Others();
      }
    }
  }

  lemma ClosedPackages(c: Setup, n: Network, h: PublicKey)
    requires c.Valid() && n.parties.Keys == c.honest && NetworkInvariant(c, n)
    requires h in c.honest && n.parties[h].closed.Some?
    ensures n.parties[h].closed.value.Keys == c.ViewOf(h).Others()
    ensures HonestPackages(c, h, n.parties[h].closed.value)
    ensures n.parties[h].received.Some? ==>
              n.parties[h].received == n.parties[h].closed && FullyVouched(c, n, h, n.parties[h].closed.value)
  {
    assert PartyInvariant(c, n, h, n.parties[h]);
  }

  lemma CheckedPackagesAreShared(c: Setup, n: Network, i: PublicKey, j: PublicKey)
    requires c.Valid() && n.parties.Keys == c.honest && NetworkInvariant(c, n)
    requires i in c.honest && j in c.honest && i != j
    requires n.parties[i].closed.Some? && n.parties[j].closed.Some? && n.parties[j].received.Some?
    ensures var packages := Packages(c, i, n.parties[i].closed.value);
            && packages == Packages(c, j, n.parties[j].received.value)
            && packages.Keys == c.pubkeys.Values
            && forall k | k in c.honest :: packages[c.pubkeys[k]] == c.own[k]
  {
    ClosedPackages(c, n, i);
    ClosedPackages(c, n, j);
    var a, b := n.parties[i].closed.value, n.parties[j].received.value;
    var pa, pb := Packages(c, i, a), Packages(c, j, b);
    assert pa.Keys == c.pubkeys.Values && pb.Keys == c.pubkeys.Values;
    forall o | o in pb ensures pa[o] == pb[o] {
      if o != c.pubkeys[i] && o != c.pubkeys[j] {
        assert Vouches(n, i, o, b[o]);
      }
    }
  }

  /**
   * With three participants or more, one honest completion already binds the rest: every honest
   * participant has closed round 1 on the very same packages, even if it never completes.
   */
  lemma OneCompletionBindsAll(c: Setup, actions: seq<Action>, i: PublicKey, j: PublicKey)
    requires c.Valid() && |c.pubkeys| > 2 && i in c.honest && j in c.honest && i != j
    requires Execute(c, actions).parties[j].received.Some?
    ensures var n := Execute(c, actions);
            && n.parties[i].closed.Some?
            && Packages(c, i, n.parties[i].closed.value) == Packages(c, j, n.parties[j].received.value)
  {
    ExecutionKeepsInvariant(c, actions);
    var n := Execute(c, actions);
    assert PartyInvariant(c, n, j, n.parties[j]);
    var v := c.ViewOf(j);
    v.OthersSize();
    var rest := v.Others() - {c.pubkeys[i]};
    assert |rest| >= 1;
    var o :| o in rest;
    assert Vouches(n, i, o, n.parties[j].received.value[o]);
    CheckedPackagesAreShared(c, n, i, j);
  }

  /** A participant that sent two honest ones different packages keeps both from completing. */
  lemma EquivocationStopsCompletion(c: Setup, actions: seq<Action>, i: PublicKey, j: PublicKey, k: Identifier)
    requires c.Valid() && i in c.honest && j in c.honest && i != j && k in c.pubkeys.Values
    requires k != c.pubkeys[i] && k != c.pubkeys[j]
    requires var n := Execute(c, actions);
             && n.parties[i].closed.Some? && n.parties[j].closed.Some?
             && k in n.parties[i].closed.value && k in n.parties[j].closed.value
             && n.parties[i].closed.value[k] != n.parties[j].closed.value[k]
    ensures Execute(c, actions).parties[i].received.None? && Execute(c, actions).parties[j].received.None?
  {
    ExecutionKeepsInvariant(c, actions);
    var n := Execute(c, actions);
    ClosedPackages(c, n, i);
    ClosedPackages(c, n, j);
    var a, b := n.parties[i].closed.value, n.parties[j].closed.value;
    assert Packages(c, i, a)[k] == a[k] && Packages(c, j, b)[k] == b[k];
    if n.parties[j].received.Some? { CheckedPackagesAreShared(c, n, i, j); }
    if n.parties[i].received.Some? { CheckedPackagesAreShared(c, n, j, i); }
  }

  /**
   * A participant that finishes has, from every other honest one, the round 2 package that one
   * computed for it, out of the very same round 1 packages.
   */
  lemma FinishedMeansEveryHonestCompleted(c: Setup, actions: seq<Action>, i: PublicKey, k: PublicKey)
    requires c.Valid() && i in c.honest && k in c.honest && i != k
    requires Execute(c, actions).parties[i].stage == Finished
    ensures var n := Execute(c, actions);
            && n.parties[i].received.Some? && n.parties[k].received.Some? && n.parties[i].state.Ready?
            && c.pubkeys[k] in n.parties[i].state.round2
            && c.pubkeys[i] in c.part2(k, n.parties[k].received.value)
            && n.parties[i].state.round2[c.pubkeys[k]] == c.part2(k, n.parties[k].received.value)[c.pubkeys[i]]
            && Packages(c, i, n.parties[i].received.value) == Packages(c, k, n.parties[k].received.value)
  {
    ExecutionKeepsInvariant(c, actions);
    var n := Execute(c, actions);
    assert PartyInvariant(c, n, i, n.parties[i]) && PartyInvariant(c, n, k, n.parties[k]);
    assert c.pubkeys[k] in c.ViewOf(i).Others();
    assert SentRound2(c, n, k, c.pubkeys[i], n.parties[i].state.round2[c.pubkeys[k]]);
    CheckedPackagesAreShared(c, n, i, k);
  }

  // ------------------------------------------------------------------ clients within the network

  function Deliveries(h: PublicKey, msgs: seq<Msg>): (actions: seq<Action>)
    ensures |actions| == |msgs|
  {
    seq(|msgs|, i requires 0 <= i < |msgs| => Deliver(h, Envelope(msgs[i].sender, h, msgs[i].payload)))
  }

  /** What a client does with a received batch is what the network does delivering it one by one. */
  lemma {:induction false} BatchIsDeliveries(c: Setup, actions: seq<Action>, h: PublicKey, msgs: seq<Msg>)
    requires c.Valid() && h in c.honest && Receiving(Execute(c, actions).parties[h])
    requires forall m | m in msgs :: m.sender != h && Envelope(m.sender, h, m.payload) in Execute(c, actions).wire
    ensures var p, q := Execute(c, actions).parties[h], Execute(c, actions + Deliveries(h, msgs)).parties[h];
            var r := RecvBatch(p.state, msgs, c.pubkeys[h]);
            && q.state == r.state && q.received == p.received
            && q.stage == if r.outcome.Ok? then p.stage else Aborted
    decreases |msgs|
  {
    var todo := Deliveries(h, msgs);
    if msgs == [] {
      assert actions + todo == actions;
    } else {
      var more := actions + [todo[0]];
      assert more[..|more| - 1] == actions;
      assert Envelope(msgs[0].sender, h, msgs[0].payload) in Execute(c, actions).wire by { assert msgs[0] in msgs; }
      assert todo == [todo[0]] + Deliveries(h, msgs[1..]);
      assert actions + todo == more + Deliveries(h, msgs[1..]);
      if Step(Execute(c, actions).parties[h].state, msgs[0], c.pubkeys[h]).outcome.Ok? {
        BatchIsDeliveries(c, more, h, msgs[1..]);
      } else {
        AbortedIgnores(c, more, h, msgs[1..]);
      }
    }
  }

  lemma AbortedIgnoresOne(c: Setup, n: Network, h: PublicKey, e: Envelope)
    requires c.Valid() && n.parties.Keys == c.honest && h in c.honest && n.parties[h].stage == Aborted
    ensures Apply(c, n, Deliver(h, e)) == n
  {
  }

  lemma {:induction false} AbortedIgnores(c: Setup, actions: seq<Action>, h: PublicKey, msgs: seq<Msg>)
    requires c.Valid() && h in c.honest && Execute(c, actions).parties[h].stage == Aborted
    ensures Execute(c, actions + Deliveries(h, msgs)) == Execute(c, actions)
  {
    hide Apply;
    var all := actions + Deliveries(h, msgs);
    if msgs == [] {
      assert all == actions;
    } else {
      var last := |msgs| - 1;
      AbortedIgnores(c, actions, h, msgs[..last]);
      assert all[..|all| - 1] == actions + Deliveries(h, msgs[..last]);
      assert all[|all| - 1] == Deliveries(h, msgs)[last];
      AbortedIgnoresOne(c, Execute(c, actions), h, Envelope(msgs[last].sender, h, msgs[last].payload));
    }
  }
}
