/**
 * One participant's distributed-key-generation session: collect round 1 packages, check them
 * with an echo broadcast, collect round 2 packages.
 *
 * `Step` is the machine as a function; the class at the end performs it in place.
 */
module DkgSession {
  import opened Wrappers
  import opened Identities
  import opened Collecting

  type Package1(==, !new, 0)
  type Package2(==, !new, 0)

  /** What a message body parses to; a body of one kind does not parse as another. */
  datatype Payload =
    | Round1(package: Package1)
    | Echo(original: Identifier, package: Package1)
    | Round2(package2: Package2)
    | Garbage

  /** The sender is authenticated by the channel; the payload is whatever the sender chose. */
  datatype Msg = Msg(sender: PublicKey, payload: Payload)

  datatype Error =
    | ParseError
    | UnknownParticipant
    | OwnEcho
    | RedundantEcho
    | PackageNotFound
    | EchoMismatch
    | DuplicatedEcho
    | WrongState

  /** Echoes are kept by original sender, then by the participant that echoed. */
  type Echoes = map<Identifier, map<Identifier, Package1>>

  datatype State =
    | CollectingRound1(pubkeys: map<PublicKey, Identifier>, round1: map<Identifier, Package1>)
    | CollectingEchoes(pubkeys: map<PublicKey, Identifier>, round1: map<Identifier, Package1>, echoes: Echoes)
    | CollectingRound2(pubkeys: map<PublicKey, Identifier>, round1: map<Identifier, Package1>,
                       round2: map<Identifier, Package2>)
    | Ready(pubkeys: map<PublicKey, Identifier>, round2: map<Identifier, Package2>)

  /** The state after a message and what was reported to the caller. */
  datatype Reply = Reply(state: State, outcome: Result<(), Error>)

  // ------------------------------------------------------------------ the machine

  predicate HasRound1Packages(s: State) { s.CollectingEchoes? || s.CollectingRound2? }

  predicate HasCheckedRound1Packages(s: State) { s.CollectingRound2? }

  predicate HasRound2Packages(s: State) { s.Ready? }

  /** The state entered when the last round 1 package arrives: two parties have nothing to echo. */
  function CloseRound1(pubkeys: map<PublicKey, Identifier>, round1: map<Identifier, Package1>): State {
    if |pubkeys| > 2 then CollectingEchoes(pubkeys, round1, map[]) else CollectingRound2(pubkeys, round1, map[])
  }

  function OnRound1(s: State, sender: PublicKey, package: Package1): Reply
    requires s.CollectingRound1?
  {
    if sender !in s.pubkeys then Reply(s, Err(UnknownParticipant))
    else
      var round1 := s.round1[s.pubkeys[sender] := package];
      if |round1| == |s.pubkeys| - 1 then Reply(CloseRound1(s.pubkeys, round1), Ok(()))
      else Reply(CollectingRound1(s.pubkeys, round1), Ok(()))
  }

  function EchoesOf(echoes: Echoes, original: Identifier): map<Identifier, Package1> {
    if original in echoes then echoes[original] else map[]
  }

  /** The test the code makes after every accepted echo, set by set. */
  predicate EchoRoundComplete(round1: map<Identifier, Package1>, echoes: Echoes) {
    && echoes.Keys == round1.Keys
    && forall original | original in echoes ::
         && echoes[original].Keys + {original} == round1.Keys
         && forall echoer | echoer in echoes[original] ::
              original in round1 && echoes[original][echoer] == round1[original]
  }

  function OnEcho(s: State, sender: PublicKey, self: Identifier, original: Identifier, package: Package1): Reply
    requires s.CollectingEchoes?
  {
    if sender !in s.pubkeys then Reply(s, Err(UnknownParticipant))
    else if original !in s.pubkeys.Values then Reply(s, Err(UnknownParticipant))
    else if original == self then Reply(s, Err(OwnEcho))
    else if original == s.pubkeys[sender] then Reply(s, Err(RedundantEcho))
    else if original !in s.round1 then Reply(s, Err(PackageNotFound))
    else if s.round1[original] != package then Reply(s, Err(EchoMismatch))
    else
      var before := EchoesOf(s.echoes, original);
      var echoes := s.echoes[original := before[s.pubkeys[sender] := package]];
      // The insertion has happened by the time the duplicate is noticed.
      if s.pubkeys[sender] in before then Reply(CollectingEchoes(s.pubkeys, s.round1, echoes), Err(DuplicatedEcho))
      else if EchoRoundComplete(s.round1, echoes) then
        Reply(CollectingRound2(s.pubkeys, s.round1, map[]), Ok(()))
      else Reply(CollectingEchoes(s.pubkeys, s.round1, echoes), Ok(()))
  }

  function OnRound2(s: State, sender: PublicKey, package: Package2): Reply
    requires s.CollectingRound2?
  {
    if sender !in s.pubkeys then Reply(s, Err(UnknownParticipant))
    else if s.pubkeys[sender] !in s.round1 then Reply(s, Err(UnknownParticipant))
    else
      var round2 := s.round2[s.pubkeys[sender] := package];
      if round2.Keys == s.round1.Keys then Reply(Ready(s.pubkeys, round2), Ok(()))
      else Reply(CollectingRound2(s.pubkeys, s.round1, round2), Ok(()))
  }

  function Step(s: State, msg: Msg, self: Identifier): Reply {
    match s
    case CollectingRound1(_, _) =>
      if msg.payload.Round1? then OnRound1(s, msg.sender, msg.payload.package) else Reply(s, Err(ParseError))
    case CollectingEchoes(_, _, _) =>
      if msg.payload.Echo? then OnEcho(s, msg.sender, self, msg.payload.original, msg.payload.package)
      else Reply(s, Err(ParseError))
    case CollectingRound2(_, _, _) =>
      if msg.payload.Round2? then OnRound2(s, msg.sender, msg.payload.package2) else Reply(s, Err(ParseError))
    case Ready(_, _) => Reply(s, Err(WrongState))
  }

  /** The state after a whole sequence of messages, rejected ones included. */
  function Run(s: State, msgs: seq<Msg>, self: Identifier): State {
    if msgs == [] then s
    else Step(Run(s, msgs[..|msgs| - 1], self), msgs[|msgs| - 1], self).state
  }

  // ------------------------------------------------------------------ who is in the session

  /** The session as one participant sees it; fixed before the first message arrives. */
  datatype View = View(pubkeys: map<PublicKey, Identifier>, self: Identifier) {
    ghost predicate Valid() {
      Injective(pubkeys) && self in pubkeys.Values && |pubkeys| >= 2
    }

    ghost function Others(): set<Identifier> { pubkeys.Values - {self} }

    /** The channel never delivers a participant's own messages back to it. */
    ghost predicate Foreign(sender: PublicKey) {
      sender in pubkeys ==> pubkeys[sender] != self
    }

    lemma OthersSize()
      requires Valid()
      ensures |Others()| == |pubkeys| - 1
    {
      InjectiveSize(pubkeys);
    }
  }

  function Start(v: View): State { CollectingRound1(v.pubkeys, map[]) }

  // ------------------------------------------------------------------ the echo ledger

  /** The accepted (original sender, echoer) pairs. */
  ghost function Ledger(echoes: Echoes): set<(Identifier, Identifier)> {
    set original, echoer | original in echoes && echoer in echoes[original] :: (original, echoer)
  }

  /** Every pair one participant has to hear: each of the others, echoed by each of the rest. */
  ghost function AllPairs(ids: set<Identifier>): set<(Identifier, Identifier)> {
    set a, b | a in ids && b in ids && a != b :: (a, b)
  }

  lemma {:induction false} RowSize(x: Identifier, ids: set<Identifier>)
    ensures |set y | y in ids :: (x, y)| == |ids|
    ensures |set y | y in ids :: (y, x)| == |ids|
  {
    if ids == {} {
      assert (set y | y in ids :: (x, y)) == {};
      assert (set y | y in ids :: (y, x)) == {};
    } else {
      var z :| z in ids;
      RowSize(x, ids - {z});
      assert (set y | y in ids :: (x, y)) == (set y | y in ids - {z} :: (x, y)) + {(x, z)};
      assert (set y | y in ids :: (y, x)) == (set y | y in ids - {z} :: (y, x)) + {(z, x)};
    }
  }

  lemma PairsWith(x: Identifier, rest: set<Identifier>)
    requires x !in rest
    ensures |AllPairs(rest + {x})|
         == |AllPairs(rest)| + |set y | y in rest :: (x, y)| + |set y | y in rest :: (y, x)|
  {
    var row, column := set y | y in rest :: (x, y), set y | y in rest :: (y, x);
    assert AllPairs(rest + {x}) == AllPairs(rest) + row + column;
    assert AllPairs(rest) !! row;
    assert AllPairs(rest) + row !! column;
  }

  lemma {:induction false} AllPairsSize(ids: set<Identifier>)
    ensures |AllPairs(ids)| == |ids| * (|ids| - 1)
  {
    if ids == {} {
      assert AllPairs(ids) == {};
    } else {
      var x :| x in ids;
      var rest := ids - {x};
      AllPairsSize(rest);
      RowSize(x, rest);
      PairsWith(x, rest);
      var n := |rest|;
      assert |ids| == n + 1;
      assert n * (n - 1) + 2 * n == (n + 1) * n;
      assert rest + {x} == ids;
    }
  }

  /** Echoes are about other participants, come from yet others, and repeat the original package. */
  ghost predicate EchoesFaithful(v: View, round1: map<Identifier, Package1>, echoes: Echoes) {
    forall o | o in echoes ::
      && o in v.Others() && o in round1
      && echoes[o].Keys <= v.Others() - {o}
      && forall e | e in echoes[o] :: echoes[o][e] == round1[o]
  }

  /** What holds of the machine at all times, phase by phase. */
  ghost predicate Invariant(v: View, s: State) {
    && s.pubkeys == v.pubkeys
    && match s
       case CollectingRound1(_, round1) => round1.Keys < v.Others()
       case CollectingEchoes(_, round1, echoes) =>
         && |v.pubkeys| > 2
         && round1.Keys == v.Others()
         && EchoesFaithful(v, round1, echoes)
         && Ledger(echoes) < AllPairs(v.Others())
       case CollectingRound2(_, round1, round2) =>
         round1.Keys == v.Others() && round2.Keys < v.Others()
       case Ready(_, round2) => round2.Keys == v.Others()
  }

  lemma StartSatisfiesInvariant(v: View)
    requires v.Valid()
    ensures Invariant(v, Start(v))
  {
    v.OthersSize();
  }

  lemma OthersHavePairs(v: View, o: Identifier)
    requires v.Valid() && |v.pubkeys| > 2 && o in v.Others()
    ensures exists e :: e in v.Others() && (o, e) in AllPairs(v.Others())
  {
    v.OthersSize();
    var rest := v.Others() - {o};
    assert |rest| >= 1;
    var e :| e in rest;
    assert (o, e) in AllPairs(v.Others());
  }

  /** Comparing key sets map by map is the same as having heard every pair. */
  lemma CompleteMeansAllPairs(v: View, round1: map<Identifier, Package1>, echoes: Echoes)
    requires v.Valid() && |v.pubkeys| > 2 && round1.Keys == v.Others()
    requires EchoesFaithful(v, round1, echoes)
    ensures Ledger(echoes) <= AllPairs(v.Others())
    ensures EchoRoundComplete(round1, echoes) <==> Ledger(echoes) == AllPairs(v.Others())
  {
    if EchoRoundComplete(round1, echoes) {
      forall a, b | (a, b) in AllPairs(v.Others()) ensures (a, b) in Ledger(echoes) {
        assert b in echoes[a].Keys + {a};
      }
    }
    if Ledger(echoes) == AllPairs(v.Others()) {
      forall o | o in v.Others() ensures o in echoes && echoes[o].Keys + {o} == round1.Keys {
        OthersHavePairs(v, o);
        forall e | e in v.Others() - {o} ensures e in echoes[o] {
          assert (o, e) in Ledger(echoes);
        }
      }
      assert echoes.Keys == round1.Keys;
    }
  }

  /** The result of hearing `echoer` repeat the package of `original`. */
  function Heard(round1: map<Identifier, Package1>, echoes: Echoes, original: Identifier, echoer: Identifier): Echoes
    requires original in round1
  {
    echoes[original := EchoesOf(echoes, original)[echoer := round1[original]]]
  }

  lemma HeardGrowsLedger(v: View, round1: map<Identifier, Package1>, echoes: Echoes, o: Identifier, e: Identifier)
    requires EchoesFaithful(v, round1, echoes)
    requires o in v.Others() && o in round1 && e in v.Others() && e != o
    ensures EchoesFaithful(v, round1, Heard(round1, echoes, o, e))
    ensures Ledger(Heard(round1, echoes, o, e)) == Ledger(echoes) + {(o, e)}
  {
    var after := Heard(round1, echoes, o, e);
    forall a, b ensures (a, b) in Ledger(after) <==> (a, b) in Ledger(echoes) + {(o, e)} {
    }
  }

  // ------------------------------------------------------------------ main results on one machine

  /** No message a participant can receive takes its machine out of the invariant. */
  lemma StepKeepsInvariant(v: View, s: State, msg: Msg)
    requires v.Valid() && Invariant(v, s) && v.Foreign(msg.sender)
    ensures Invariant(v, Step(s, msg, v.self).state)
  {
    v.OthersSize();
    if s.CollectingRound1? && msg.payload.Round1? && msg.sender in s.pubkeys {
      var round1 := s.round1[s.pubkeys[msg.sender] := msg.payload.package];
      SameSizeSubset(round1.Keys, v.Others());
      if |round1| == |s.pubkeys| - 1 && |s.pubkeys| > 2 {
        var o :| o in v.Others();
        OthersHavePairs(v, o);
        assert Ledger(map[]) == {};
      }
    } else if s.CollectingEchoes? && msg.payload.Echo? && msg.sender in s.pubkeys {
      EchoStep(v, s, msg.sender, msg.payload.original, msg.payload.package);
    }
  }

  /** An echo is about somebody else's package, which it repeats, and is the first of its pair. */
  ghost predicate AcceptableEcho(v: View, s: State, sender: PublicKey, original: Identifier, package: Package1)
    requires s.CollectingEchoes? && Invariant(v, s)
  {
    && sender in v.pubkeys
    && original in v.Others() - {v.pubkeys[sender]}
    && package == s.round1[original]
    && (original, v.pubkeys[sender]) !in Ledger(s.echoes)
  }

  /** One echo, in terms of the set of pairs heard so far. */
  lemma EchoStep(v: View, s: State, sender: PublicKey, original: Identifier, package: Package1)
    requires v.Valid() && s.CollectingEchoes? && Invariant(v, s) && v.Foreign(sender)
    ensures var r := OnEcho(s, sender, v.self, original, package);
            if AcceptableEcho(v, s, sender, original, package) then
              var after := Heard(s.round1, s.echoes, original, s.pubkeys[sender]);
              && r.outcome == Ok(())
              && Ledger(after) == Ledger(s.echoes) + {(original, s.pubkeys[sender])}
              && Ledger(after) <= AllPairs(v.Others())
              && EchoesFaithful(v, s.round1, after)
              && r.state == if Ledger(after) == AllPairs(v.Others()) then CollectingRound2(s.pubkeys, s.round1, map[])
                            else CollectingEchoes(s.pubkeys, s.round1, after)
            else
              r.outcome.Err? && r.state == s
  {
    if sender in v.pubkeys && original in v.Others() - {v.pubkeys[sender]} && package == s.round1[original] {
      var echoer := v.pubkeys[sender];
      var after := Heard(s.round1, s.echoes, original, echoer);
      HeardGrowsLedger(v, s.round1, s.echoes, original, echoer);
      CompleteMeansAllPairs(v, s.round1, after);
      if (original, echoer) in Ledger(s.echoes) {
        assert after[original] == s.echoes[original];
        assert after == s.echoes;
      }
    }
  }

  /** How many echoes a participant accepts: every other package from every third participant. */
  function EchoBudget(v: View): int { (|v.pubkeys| - 1) * (|v.pubkeys| - 2) }

  /**
   * The echo ledger is exact: an echo is accepted just when it is acceptable, so no pair is
   * accepted twice; it then adds one to the number of accepted echoes, and closes the round
   * just when that makes (n - 1)(n - 2).
   */
  lemma EchoLedgerIsExact(v: View, s: State, sender: PublicKey, original: Identifier, package: Package1)
    requires v.Valid() && s.CollectingEchoes? && Invariant(v, s) && v.Foreign(sender)
    ensures var r := OnEcho(s, sender, v.self, original, package);
            && |Ledger(s.echoes)| < EchoBudget(v)
            && (r.outcome.Ok? <==> AcceptableEcho(v, s, sender, original, package))
            && (r.outcome.Ok? ==>
                  if |Ledger(s.echoes)| + 1 == EchoBudget(v) then
                    r.state == CollectingRound2(s.pubkeys, s.round1, map[])
                  else
                    && r.state.CollectingEchoes?
                    && Ledger(r.state.echoes) == Ledger(s.echoes) + {(original, s.pubkeys[sender])}
                    && |Ledger(r.state.echoes)| == |Ledger(s.echoes)| + 1)
  {
    v.OthersSize();
    AllPairsSize(v.Others());
    SameSizeSubset(Ledger(s.echoes), AllPairs(v.Others()));
    EchoStep(v, s, sender, original, package);
    if AcceptableEcho(v, s, sender, original, package) {
      SameSizeSubset(Ledger(s.echoes) + {(original, s.pubkeys[sender])}, AllPairs(v.Others()));
    }
  }

  /**
   * Just which messages are accepted: a round 1 or round 2 package of a participant while such are
   * collected, an acceptable echo in between, and nothing at the end. An echo is answered with a
   * mismatch just when it is not what was received, and with a duplicate when it was heard before.
   */
  lemma AcceptedExactly(v: View, s: State, msg: Msg)
    requires v.Valid() && Invariant(v, s) && v.Foreign(msg.sender)
    ensures var outcome := Step(s, msg, v.self).outcome;
            match s
            case CollectingRound1(_, _) => outcome.Ok? <==> msg.payload.Round1? && msg.sender in v.pubkeys
            case CollectingEchoes(_, round1, echoes) =>
              if !msg.payload.Echo? then outcome == Err(ParseError)
              else
                var o, package := msg.payload.original, msg.payload.package;
                var wanted := msg.sender in v.pubkeys && o in v.Others() - {v.pubkeys[msg.sender]};
                && (outcome.Ok? <==> wanted && package == round1[o] && (o, v.pubkeys[msg.sender]) !in Ledger(echoes))
                && (outcome == Err(EchoMismatch) <==> wanted && package != round1[o])
                && (outcome == Err(DuplicatedEcho) <==>
                      wanted && package == round1[o] && (o, v.pubkeys[msg.sender]) in Ledger(echoes))
            case CollectingRound2(_, _, _) => outcome.Ok? <==> msg.payload.Round2? && msg.sender in v.pubkeys
            case Ready(_, _) => outcome == Err(WrongState)
  {
    if s.CollectingEchoes? && msg.payload.Echo? {
      EchoStep(v, s, msg.sender, msg.payload.original, msg.payload.package);
    }
  }

  /** A message that is answered with an error leaves the session as it was, in every phase. */
  lemma RejectionChangesNothing(v: View, s: State, msg: Msg)
    requires v.Valid() && Invariant(v, s) && v.Foreign(msg.sender)
    requires Step(s, msg, v.self).outcome.Err?
    ensures Step(s, msg, v.self).state == s
  {
    if s.CollectingEchoes? && msg.payload.Echo? {
      EchoStep(v, s, msg.sender, msg.payload.original, msg.payload.package);
    }
  }

  // ------------------------------------------------------------------ the machine, in place

  /** The session object: its state is replaced by each message it handles. */
  class Session {
    var state: State

    constructor ()
      ensures state == CollectingRound1(map[], map[])
    {
      state := CollectingRound1(map[], map[]);
    }

    /** Copies the session's participants in, before any message has been handled. */
    method SetPubkeys(pubkeys: map<PublicKey, Identifier>)
      requires state.CollectingRound1?
      modifies this
      ensures state == CollectingRound1(pubkeys, old(state.round1))
    {
      state := CollectingRound1(pubkeys, state.round1);
    }

    method Recv(msg: Msg, self: Identifier) returns (r: Result<(), Error>)
      modifies this
      ensures Reply(state, r) == Step(old(state), msg, self)
    {
      match state
      case CollectingRound1(_, _) =>
        if !msg.payload.Round1? { return Err(ParseError); }
        r := HandleRound1Package(msg.sender, msg.payload.package);
      case CollectingEchoes(_, _, _) =>
        if !msg.payload.Echo? { return Err(ParseError); }
        r := HandleRound1PackageBroadcast(msg.sender, self, msg.payload.original, msg.payload.package);
      case CollectingRound2(_, _, _) =>
        if !msg.payload.Round2? { return Err(ParseError); }
        r := HandleRound2Package(msg.sender, msg.payload.package2);
      case Ready(_, _) =>
        return Err(WrongState);
    }

    method HandleRound1Package(sender: PublicKey, package: Package1) returns (r: Result<(), Error>)
      requires state.CollectingRound1?
      modifies this
      ensures Reply(state, r) == OnRound1(old(state), sender, package)
    {
      if sender !in state.pubkeys { return Err(UnknownParticipant); }
      var identifier := state.pubkeys[sender];
      state := CollectingRound1(state.pubkeys, state.round1[identifier := package]);
      if |state.round1| == |state.pubkeys| - 1 {
        if |state.pubkeys| > 2 {
          state := CollectingEchoes(state.pubkeys, state.round1, map[]);
        } else {
          state := CollectingRound2(state.pubkeys, state.round1, map[]);
        }
      }
      return Ok(());
    }

    method HandleRound1PackageBroadcast(sender: PublicKey, self: Identifier, original: Identifier, package: Package1)
      returns (r: Result<(), Error>)
      requires state.CollectingEchoes?
      modifies this
      ensures Reply(state, r) == OnEcho(old(state), sender, self, original, package)
    {
      if sender !in state.pubkeys { return Err(UnknownParticipant); }
      var echoer := state.pubkeys[sender];
      if original !in state.pubkeys.Values { return Err(UnknownParticipant); }
      if original == self { return Err(OwnEcho); }
      if original == echoer { return Err(RedundantEcho); }
      if original !in state.round1 { return Err(PackageNotFound); }
      if state.round1[original] != package { return Err(EchoMismatch); }

      var heard := EchoesOf(state.echoes, original);
      var duplicate := echoer in heard;
      heard := heard[echoer := package];
      state := CollectingEchoes(state.pubkeys, state.round1, state.echoes[original := heard]);
      if duplicate { return Err(DuplicatedEcho); }

      if EchoRoundComplete(state.round1, state.echoes) {
        state := CollectingRound2(state.pubkeys, state.round1, map[]);
      }
      return Ok(());
    }

    method HandleRound2Package(sender: PublicKey, package: Package2) returns (r: Result<(), Error>)
      requires state.CollectingRound2?
      modifies this
      ensures Reply(state, r) == OnRound2(old(state), sender, package)
    {
      if sender !in state.pubkeys { return Err(UnknownParticipant); }
      var identifier := state.pubkeys[sender];
      if identifier !in state.round1 { return Err(UnknownParticipant); }
      state := CollectingRound2(state.pubkeys, state.round1, state.round2[identifier := package]);
      if state.round2.Keys == state.round1.Keys {
        state := Ready(state.pubkeys, state.round2);
      }
      return Ok(());
    }
  }
}
