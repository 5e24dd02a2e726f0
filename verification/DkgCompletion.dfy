/**
 * What participants send each other is what they need: when all of it is delivered, in any order
 * and in any batches, every one of them comes to the end.
 */
module DkgCompletion {
  import opened Wrappers
  import opened Identities
  import opened Collecting
  import opened DkgSession
  import opened DkgRuns
  import opened DkgClient

  // ------------------------------------------------------------------ loops and batches

  /** Every message is accepted, and the last one is the first that reaches the goal. */
  predicate Paves(s: State, msgs: seq<Msg>, self: Identifier, goal: Goal)
    decreases |msgs|
  {
    if msgs == [] then Done(s, goal)
    else
      && !Done(s, goal) && Step(s, msgs[0], self).outcome.Ok?
      && Paves(Step(s, msgs[0], self).state, msgs[1..], self, goal)
  }

  lemma {:induction false} PavesInParts(s: State, a: seq<Msg>, b: seq<Msg>, self: Identifier, goal: Goal)
    requires Paves(s, a + b, self, goal)
    ensures RecvBatch(s, a, self).outcome.Ok? && Paves(RecvBatch(s, a, self).state, b, self, goal)
    ensures RecvBatch(s, a + b, self) == RecvBatch(RecvBatch(s, a, self).state, b, self)
    decreases |a|
  {
    hide Step, Done;
    if a == [] {
      assert a + b == b;
    } else {
      assert (a + b)[0] == a[0] && (a + b)[1..] == a[1..] + b;
      PavesInParts(Step(s, a[0], self).state, a[1..], b, self, goal);
    }
  }

  /** A loop that gets such messages ends in the state they lead to, however they are batched. */
  lemma {:induction false} PollOfPaved(s: State, batches: seq<seq<Msg>>, self: Identifier, goal: Goal)
    requires Paves(s, Flatten(batches), self, goal) && !Done(s, goal)
    ensures Poll(s, batches, self, goal) == (RecvBatch(s, Flatten(batches), self).state, Ok(()))
    decreases |batches|
  {
    hide Step, Done;
    if batches == [] {
    } else {
      PavesInParts(s, batches[0], Flatten(batches[1..]), self, goal);
      var t := RecvBatch(s, batches[0], self).state;
      if Done(t, goal) {
        assert Flatten(batches[1..]) == [];
      } else {
        PollOfPaved(t, batches[1..], self, goal);
      }
    }
  }

  // ------------------------------------------------------------------ phase by phase

  ghost function Senders(v: View, msgs: seq<Msg>): set<Identifier> {
    set m | m in msgs && m.sender in v.pubkeys :: v.pubkeys[m.sender]
  }

  lemma FirstSends(v: View, msgs: seq<Msg>)
    requires forall m | m in msgs :: m.sender in v.pubkeys
    ensures msgs == [] || v.pubkeys[msgs[0].sender] in Senders(v, msgs)
  {
    if msgs == [] {
    } else {
      assert msgs[0] in msgs;
    }
  }

  /** Where everybody sends one message, the rest are from everybody but the first. */
  lemma RestOfSenders(v: View, msgs: seq<Msg>)
    requires v.Valid() && msgs != [] && msgs[0].sender in v.pubkeys
    requires forall i, j | 0 <= i < j < |msgs| :: msgs[i].sender != msgs[j].sender
    ensures Senders(v, msgs[1..]) == Senders(v, msgs) - {v.pubkeys[msgs[0].sender]}
  {
    assert msgs == [msgs[0]] + msgs[1..];
    forall m | m in msgs[1..] ensures m.sender != msgs[0].sender {
    }
  }

  /** The round 1 packages still missing, one message each, make `all` of what is held. */
  ghost predicate Missing1(v: View, held: map<Identifier, Package1>, msgs: seq<Msg>, all: map<Identifier, Package1>) {
    && all.Keys == v.Others()
    && (forall id | id in held :: id in all && held[id] == all[id])
    && (forall m | m in msgs ::
          && m.payload.Round1? && m.sender in v.pubkeys && v.pubkeys[m.sender] in v.Others() - held.Keys
          && all[v.pubkeys[m.sender]] == m.payload.package)
    && (forall i, j | 0 <= i < j < |msgs| :: msgs[i].sender != msgs[j].sender)
    && Senders(v, msgs) == v.Others() - held.Keys
  }

  lemma {:induction false} Round1Paves(v: View, held: map<Identifier, Package1>, msgs: seq<Msg>,
                                       all: map<Identifier, Package1>)
    requires v.Valid() && held.Keys < v.Others() && Missing1(v, held, msgs, all)
    ensures Paves(CollectingRound1(v.pubkeys, held), msgs, v.self, GotRound1)
    ensures RecvBatch(CollectingRound1(v.pubkeys, held), msgs, v.self).state == CloseRound1(v.pubkeys, all)
    decreases |msgs|
  {
    hide Step, CloseRound1;
    assert Senders(v, []) == {} && v.Others() - held.Keys != {};
    var m := msgs[0];
    assert m in msgs;
    var after := held[v.pubkeys[m.sender] := m.payload.package];
    assert Round1FromOthers(v, [m]);
    Round1Step(v, held, m);
    Round1Accepted(v, held, m);
    Missing1Shrinks(v, held, msgs, all);
    if after.Keys == v.Others() {
      FirstSends(v, msgs[1..]);
      assert after == all;
      ClosedIsPast(v, all);
    } else {
      Round1Paves(v, after, msgs[1..], all);
    }
  }

  lemma ClosedIsPast(v: View, all: map<Identifier, Package1>)
    ensures HasRound1Packages(CloseRound1(v.pubkeys, all))
  {
  }

  lemma Round1Accepted(v: View, held: map<Identifier, Package1>, m: Msg)
    requires m.payload.Round1? && m.sender in v.pubkeys
    ensures Step(CollectingRound1(v.pubkeys, held), m, v.self).outcome.Ok?
  {
  }

  lemma Missing1Shrinks(v: View, held: map<Identifier, Package1>, msgs: seq<Msg>, all: map<Identifier, Package1>)
    requires v.Valid() && msgs != [] && Missing1(v, held, msgs, all)
    ensures Missing1(v, held[v.pubkeys[msgs[0].sender] := msgs[0].payload.package], msgs[1..], all)
  {
    assert msgs[0] in msgs;
    RestOfSenders(v, msgs);
    forall m | m in msgs[1..] ensures m in msgs && m.sender != msgs[0].sender {
    }
  }

  /** All missing echoes, each once: they are accepted, and the last of them ends the round. */
  lemma {:induction false} EchoesPave(v: View, s: State, msgs: seq<Msg>)
    requires v.Valid() && s.CollectingEchoes? && Invariant(v, s) && MissingEchoes(v, s, msgs) && msgs != []
    requires Ledger(s.echoes) + PairsOf(v, msgs) == AllPairs(v.Others())
    ensures Paves(s, msgs, v.self, GotEchoes)
    ensures RecvBatch(s, msgs, v.self).state == CollectingRound2(s.pubkeys, s.round1, map[])
    decreases |msgs|
  {
    hide Step, Invariant, MissingEchoes;
    FirstEcho(v, s, msgs);
    if msgs[1..] == [] {
    } else {
      EchoesPave(v, Step(s, msgs[0], v.self).state, msgs[1..]);
    }
  }

  lemma SomeEchoIsMissing(v: View, s: State, msgs: seq<Msg>)
    requires s.CollectingEchoes? && Invariant(v, s) && MissingEchoes(v, s, msgs)
    requires Ledger(s.echoes) + PairsOf(v, msgs) == AllPairs(v.Others())
    ensures msgs != []
  {
    NoPairs(v);
  }

  lemma NoPairs(v: View)
    ensures PairsOf(v, []) == {}
  {
  }

  /** Without its first message, the pairs are all the others: no two messages are of one pair. */
  lemma RestOfPairs(v: View, s: State, msgs: seq<Msg>)
    requires s.CollectingEchoes? && Invariant(v, s) && MissingEchoes(v, s, msgs) && msgs != []
    ensures PairsOf(v, msgs[1..]) == PairsOf(v, msgs) - {PairOf(v, msgs[0])}
    ensures PairOf(v, msgs[0]) in PairsOf(v, msgs)
  {
    assert msgs == [msgs[0]] + msgs[1..];
    forall m | m in msgs[1..] ensures m in msgs && PairOf(v, m) != PairOf(v, msgs[0]) {
    }
  }

  lemma RestIsMissing(v: View, s: State, t: State, msgs: seq<Msg>)
    requires s.CollectingEchoes? && Invariant(v, s) && MissingEchoes(v, s, msgs) && msgs != []
    requires t.CollectingEchoes? && Invariant(v, t) && t.round1 == s.round1
    requires Ledger(t.echoes) == Ledger(s.echoes) + {PairOf(v, msgs[0])}
    ensures MissingEchoes(v, t, msgs[1..])
  {
    forall m | m in msgs[1..] ensures m in msgs && PairOf(v, m) != PairOf(v, msgs[0]) {
    }
  }

  lemma FirstEcho(v: View, s: State, msgs: seq<Msg>)
    requires v.Valid() && s.CollectingEchoes? && Invariant(v, s) && MissingEchoes(v, s, msgs) && msgs != []
    requires Ledger(s.echoes) + PairsOf(v, msgs) == AllPairs(v.Others())
    ensures var r := Step(s, msgs[0], v.self);
            && r.outcome.Ok?
            && if msgs[1..] == [] then r.state == CollectingRound2(s.pubkeys, s.round1, map[])
               else
                 && r.state.CollectingEchoes? && Invariant(v, r.state) && r.state.pubkeys == s.pubkeys
                 && r.state.round1 == s.round1 && MissingEchoes(v, r.state, msgs[1..])
                 && Ledger(r.state.echoes) + PairsOf(v, msgs[1..]) == AllPairs(v.Others())
  {
    var m := msgs[0];
    assert m in msgs;
    RestOfPairs(v, s, msgs);
    EchoStep(v, s, m.sender, m.payload.original, m.payload.package);
    StepKeepsInvariant(v, s, m);
    var t := Step(s, m, v.self).state;
    hide MissingEchoes, Invariant, EchoRoundComplete;
    if msgs[1..] == [] {
      assert PairsOf(v, msgs[1..]) == {};
    } else {
      MorePairs(v, s, msgs);
      RestIsMissing(v, s, t, msgs);
    }
  }

  lemma MorePairs(v: View, s: State, msgs: seq<Msg>)
    requires s.CollectingEchoes? && Invariant(v, s) && MissingEchoes(v, s, msgs) && |msgs| > 1
    requires Ledger(s.echoes) + PairsOf(v, msgs) == AllPairs(v.Others())
    ensures Ledger(s.echoes) + {PairOf(v, msgs[0])} != AllPairs(v.Others())
  {
    assert msgs[1] in msgs && PairOf(v, msgs[1]) in PairsOf(v, msgs);
  }

  /** The same for round 2. */
  ghost predicate Missing2(v: View, held: map<Identifier, Package2>, msgs: seq<Msg>, all: map<Identifier, Package2>) {
    && all.Keys == v.Others()
    && (forall id | id in held :: id in all && held[id] == all[id])
    && (forall m | m in msgs ::
          && m.payload.Round2? && m.sender in v.pubkeys && v.pubkeys[m.sender] in v.Others() - held.Keys
          && all[v.pubkeys[m.sender]] == m.payload.package2)
    && (forall i, j | 0 <= i < j < |msgs| :: msgs[i].sender != msgs[j].sender)
    && Senders(v, msgs) == v.Others() - held.Keys
  }

  lemma Missing2Shrinks(v: View, held: map<Identifier, Package2>, msgs: seq<Msg>, all: map<Identifier, Package2>)
    requires v.Valid() && msgs != [] && Missing2(v, held, msgs, all)
    ensures Missing2(v, held[v.pubkeys[msgs[0].sender] := msgs[0].payload.package2], msgs[1..], all)
  {
    assert msgs[0] in msgs;
    RestOfSenders(v, msgs);
    forall m | m in msgs[1..] ensures m in msgs && m.sender != msgs[0].sender {
    }
  }

  lemma Round2Accepted(v: View, round1: map<Identifier, Package1>, held: map<Identifier, Package2>, m: Msg)
    requires m.payload.Round2? && m.sender in v.pubkeys && v.pubkeys[m.sender] in round1
    ensures Step(CollectingRound2(v.pubkeys, round1, held), m, v.self).outcome.Ok?
  {
  }

  lemma {:induction false} Round2Paves(v: View, round1: map<Identifier, Package1>, held: map<Identifier, Package2>,
                                       msgs: seq<Msg>, all: map<Identifier, Package2>)
    requires v.Valid() && round1.Keys == v.Others() && held.Keys < v.Others() && Missing2(v, held, msgs, all)
    ensures Paves(CollectingRound2(v.pubkeys, round1, held), msgs, v.self, GotRound2)
    ensures RecvBatch(CollectingRound2(v.pubkeys, round1, held), msgs, v.self).state == Ready(v.pubkeys, all)
    decreases |msgs|
  {
    hide Step;
    assert Senders(v, []) == {} && v.Others() - held.Keys != {};
    var m := msgs[0];
    assert m in msgs;
    var after := held[v.pubkeys[m.sender] := m.payload.package2];
    assert Round2FromOthers(v, [m]);
    Round2Step(v, round1, held, m);
    Round2Accepted(v, round1, held, m);
    Missing2Shrinks(v, held, msgs, all);
    if after.Keys == v.Others() {
      FirstSends(v, msgs[1..]);
      assert after == all;
    } else {
      Round2Paves(v, round1, after, msgs[1..], all);
    }
  }

  // ------------------------------------------------------------------ the mail

  /** What a client sends while it gathers round 1 packages, message by message. */
  lemma MailIsExact(pubkeys: map<PublicKey, Identifier>, self: PublicKey, s: State, own: Package1,
                    first: seq<seq<Msg>>, second: seq<seq<Msg>>, e: Envelope)
    requires self in pubkeys
    ensures var (t, r) := Poll(s, first, pubkeys[self], GotRound1);
            e in GatherRound1(pubkeys, self, s, own, first, second).mail
            <==> && e.from == self && e.to in pubkeys && e.to != self
                 && match e.payload
                    case Round1(package) => package == own
                    case Echo(original, package) =>
                      && r.Ok? && t.CollectingEchoes? && original != pubkeys[e.to]
                      && original in t.round1 && package == t.round1[original]
                    case _ => false
  {
    PollReaches(s, first, pubkeys[self], GotRound1);
  }

  /** Everybody's packages but one's own. */
  ghost function FromOthers(pubkeys: map<PublicKey, Identifier>, own: map<PublicKey, Package1>, self: PublicKey)
    : (packages: map<Identifier, Package1>)
    requires Injective(pubkeys) && pubkeys.Keys <= own.Keys
    ensures packages.Keys == set k | k in pubkeys && k != self :: pubkeys[k]
    ensures forall k | k in pubkeys && k != self :: packages[pubkeys[k]] == own[k]
  {
    map k | k in pubkeys && k != self :: pubkeys[k] := own[k]
  }

  /** Everything the others have sent to one participant, each message once. */
  ghost predicate Delivers(mail: map<PublicKey, set<Envelope>>, to: PublicKey, msgs: seq<Msg>) {
    && (forall m | m in msgs ::
          m.sender in mail && m.sender != to && Envelope(m.sender, to, m.payload) in mail[m.sender])
    && (forall k, p | k in mail && k != to && Envelope(k, to, p) in mail[k] :: Msg(k, p) in msgs)
    && forall i, j | 0 <= i < j < |msgs| :: msgs[i] != msgs[j]
  }

  ghost predicate Session(pubkeys: map<PublicKey, Identifier>, own: map<PublicKey, Package1>, to: PublicKey) {
    Injective(pubkeys) && |pubkeys| >= 2 && pubkeys.Keys <= own.Keys && to in pubkeys
  }

  function AllRound1Mail(pubkeys: map<PublicKey, Identifier>, own: map<PublicKey, Package1>)
    : map<PublicKey, set<Envelope>>
    requires pubkeys.Keys <= own.Keys
  {
    map k | k in pubkeys :: Round1Mail(pubkeys, k, own[k])
  }

  ghost function AllEchoMail(pubkeys: map<PublicKey, Identifier>, own: map<PublicKey, Package1>)
    : map<PublicKey, set<Envelope>>
    requires Injective(pubkeys) && pubkeys.Keys <= own.Keys
  {
    map k | k in pubkeys :: EchoMail(pubkeys, k, FromOthers(pubkeys, own, k))
  }

  lemma OthersAreOthers(pubkeys: map<PublicKey, Identifier>, own: map<PublicKey, Package1>, to: PublicKey)
    requires Session(pubkeys, own, to)
    ensures FromOthers(pubkeys, own, to).Keys == View(pubkeys, pubkeys[to]).Others()
  {
  }

  lemma Round1MailIsMissing(pubkeys: map<PublicKey, Identifier>, own: map<PublicKey, Package1>, to: PublicKey,
                            msgs: seq<Msg>)
    requires Session(pubkeys, own, to) && Delivers(AllRound1Mail(pubkeys, own), to, msgs)
    ensures Missing1(View(pubkeys, pubkeys[to]), map[], msgs, FromOthers(pubkeys, own, to))
  {
    var v := View(pubkeys, pubkeys[to]);
    var mail := AllRound1Mail(pubkeys, own);
    OthersAreOthers(pubkeys, own, to);
    forall i, j | 0 <= i < j < |msgs| ensures msgs[i].sender != msgs[j].sender {
      assert msgs[i] in msgs && msgs[j] in msgs;
    }
    forall id | id in v.Others() ensures id in Senders(v, msgs) {
      var k :| k in pubkeys && pubkeys[k] == id;
      assert Envelope(k, to, Round1(own[k])) in mail[k];
      assert Msg(k, Round1(own[k])) in msgs;
    }
  }

  /** Everybody else's echoes are exactly the ones missing. */
  lemma EchoMailIsMissing(pubkeys: map<PublicKey, Identifier>, own: map<PublicKey, Package1>, to: PublicKey,
                          s: State, msgs: seq<Msg>)
    requires Session(pubkeys, own, to) && |pubkeys| > 2 && Delivers(AllEchoMail(pubkeys, own), to, msgs)
    requires s == CollectingEchoes(pubkeys, FromOthers(pubkeys, own, to), map[])
    ensures var v := View(pubkeys, pubkeys[to]);
            && Invariant(v, s) && MissingEchoes(v, s, msgs)
            && Ledger(s.echoes) + PairsOf(v, msgs) == AllPairs(v.Others())
  {
    var v := View(pubkeys, pubkeys[to]);
    FreshEchoRound(pubkeys, own, to);
    forall m | m in msgs
      ensures m.payload.Echo? && v.Foreign(m.sender)
              && AcceptableEcho(v, s, m.sender, m.payload.original, m.payload.package)
    {
      EchoIsWanted(pubkeys, own, to, m);
    }
    forall i, j | 0 <= i < j < |msgs| ensures PairOf(v, msgs[i]) != PairOf(v, msgs[j]) {
      assert msgs[i] in msgs && msgs[j] in msgs;
      EchoIsWanted(pubkeys, own, to, msgs[i]);
      EchoIsWanted(pubkeys, own, to, msgs[j]);
    }
    forall o, e | (o, e) in AllPairs(v.Others()) ensures (o, e) in PairsOf(v, msgs) {
      var m := PairIsEchoed(pubkeys, own, to, msgs, o, e);
    }
  }

  lemma FreshEchoRound(pubkeys: map<PublicKey, Identifier>, own: map<PublicKey, Package1>, to: PublicKey)
    requires Session(pubkeys, own, to) && |pubkeys| > 2
    ensures Invariant(View(pubkeys, pubkeys[to]), CollectingEchoes(pubkeys, FromOthers(pubkeys, own, to), map[]))
    ensures Ledger(map[]) == {}
  {
    var v := View(pubkeys, pubkeys[to]);
    OthersAreOthers(pubkeys, own, to);
    v.OthersSize();
    var o :| o in v.Others();
    OthersHavePairs(v, o);
  }

  /** An echo from another participant's mail is about a third one's package, and repeats it. */
  lemma EchoIsWanted(pubkeys: map<PublicKey, Identifier>, own: map<PublicKey, Package1>, to: PublicKey, m: Msg)
    requires Session(pubkeys, own, to) && m.sender in pubkeys && m.sender != to
    requires Envelope(m.sender, to, m.payload) in EchoMail(pubkeys, m.sender, FromOthers(pubkeys, own, m.sender))
    ensures m.payload.Echo? && View(pubkeys, pubkeys[to]).Foreign(m.sender)
    ensures m.payload.original in View(pubkeys, pubkeys[to]).Others() - {pubkeys[m.sender]}
    ensures m.payload.package == FromOthers(pubkeys, own, to)[m.payload.original]
  {
    var o := m.payload.original;
    var k :| k in pubkeys && k != m.sender && pubkeys[k] == o;
    assert k != to;
  }

  /** Every pair a participant has to hear of is in the echoing participant's mail to it. */
  lemma PairIsEchoed(pubkeys: map<PublicKey, Identifier>, own: map<PublicKey, Package1>, to: PublicKey,
                     msgs: seq<Msg>, original: Identifier, echoer: Identifier) returns (m: Msg)
    requires Session(pubkeys, own, to) && Delivers(AllEchoMail(pubkeys, own), to, msgs)
    requires (original, echoer) in AllPairs(View(pubkeys, pubkeys[to]).Others())
    ensures m in msgs && m.sender in pubkeys && m.payload.Echo?
    ensures PairOf(View(pubkeys, pubkeys[to]), m) == (original, echoer)
    ensures m.payload.package == FromOthers(pubkeys, own, m.sender)[original]
  {
    var k :| k in pubkeys && pubkeys[k] == echoer;
    var o :| o in pubkeys && pubkeys[o] == original;
    var held := FromOthers(pubkeys, own, k);
    m := Msg(k, Echo(original, held[original]));
    assert original in held && original != pubkeys[to] && k != to;
    assert Envelope(k, to, m.payload) in AllEchoMail(pubkeys, own)[k];
  }

  /**
   * A client that is delivered what all the others send while they gather round 1 packages, in
   * any order and in any batches, gathers everybody's package.
   */
  lemma GatheringCompletes(pubkeys: map<PublicKey, Identifier>, own: map<PublicKey, Package1>, to: PublicKey,
                           first: seq<seq<Msg>>, second: seq<seq<Msg>>)
    requires Session(pubkeys, own, to) && Delivers(AllRound1Mail(pubkeys, own), to, Flatten(first))
    requires |pubkeys| > 2 ==> Delivers(AllEchoMail(pubkeys, own), to, Flatten(second))
    ensures var all := FromOthers(pubkeys, own, to);
            var g := GatherRound1(pubkeys, to, Start(View(pubkeys, pubkeys[to])), own[to], first, second);
            && g.result == Ok(all) && g.state == CollectingRound2(pubkeys, all, map[])
            && g.mail == AllRound1Mail(pubkeys, own)[to]
                         + if |pubkeys| > 2 then AllEchoMail(pubkeys, own)[to] else {}
  {
    hide Flatten, Poll, Paves, RecvBatch, Delivers, Missing1, Invariant, MissingEchoes, Round1Mail, EchoMail;
    var v := View(pubkeys, pubkeys[to]);
    var all := FromOthers(pubkeys, own, to);
    Round1MailIsMissing(pubkeys, own, to, Flatten(first));
    v.OthersSize();
    Round1Paves(v, map[], Flatten(first), all);
    PollOfPaved(Start(v), first, v.self, GotRound1);
    if |pubkeys| > 2 {
      var s := CollectingEchoes(pubkeys, all, map[]);
      EchoMailIsMissing(pubkeys, own, to, s, Flatten(second));
      SomeEchoIsMissing(v, s, Flatten(second));
      EchoesPave(v, s, Flatten(second));
      PollOfPaved(s, second, v.self, GotEchoes);
    }
  }

  // ------------------------------------------------------------------ round 2

  /** What every other participant computed for this one. */
  ghost function ForOne(pubkeys: map<PublicKey, Identifier>, packages: map<PublicKey, map<Identifier, Package2>>,
                        to: PublicKey): (all: map<Identifier, Package2>)
    requires Injective(pubkeys) && to in pubkeys
    requires forall k | k in pubkeys && k != to :: k in packages && pubkeys[to] in packages[k]
    ensures all.Keys == set k | k in pubkeys && k != to :: pubkeys[k]
    ensures forall k | k in pubkeys && k != to :: all[pubkeys[k]] == packages[k][pubkeys[to]]
  {
    map k | k in pubkeys && k != to :: pubkeys[k] := packages[k][pubkeys[to]]
  }

  function AllRound2Mail(pubkeys: map<PublicKey, Identifier>, packages: map<PublicKey, map<Identifier, Package2>>)
    : map<PublicKey, set<Envelope>>
    requires pubkeys.Keys <= packages.Keys
  {
    map k | k in pubkeys :: Round2Mail(pubkeys, k, packages[k])
  }

  lemma Round2MailIsMissing(pubkeys: map<PublicKey, Identifier>, packages: map<PublicKey, map<Identifier, Package2>>,
                            to: PublicKey, msgs: seq<Msg>)
    requires Injective(pubkeys) && to in pubkeys && pubkeys.Keys <= packages.Keys
    requires forall k | k in pubkeys && k != to :: pubkeys[to] in packages[k]
    requires Delivers(AllRound2Mail(pubkeys, packages), to, msgs)
    ensures Missing2(View(pubkeys, pubkeys[to]), map[], msgs, ForOne(pubkeys, packages, to))
  {
    var v := View(pubkeys, pubkeys[to]);
    var mail := AllRound2Mail(pubkeys, packages);
    forall i, j | 0 <= i < j < |msgs| ensures msgs[i].sender != msgs[j].sender {
      assert msgs[i] in msgs && msgs[j] in msgs;
    }
    forall id | id in v.Others() ensures id in Senders(v, msgs) {
      var k :| k in pubkeys && pubkeys[k] == id;
      var p := Round2(packages[k][pubkeys[to]]);
      assert Envelope(k, to, p) in mail[k];
      assert Msg(k, p) in msgs;
    }
  }

  /**
   * A client that is delivered everybody's round 2 mail ends ready, with exactly the package
   * every other participant computed for it.
   */
  lemma Round2Completes(pubkeys: map<PublicKey, Identifier>, packages: map<PublicKey, map<Identifier, Package2>>,
                        to: PublicKey, round1: map<Identifier, Package1>, batches: seq<seq<Msg>>)
    requires Injective(pubkeys) && |pubkeys| >= 2 && to in pubkeys && pubkeys.Keys <= packages.Keys
    requires forall k | k in pubkeys && k != to :: pubkeys[to] in packages[k]
    requires round1.Keys == View(pubkeys, pubkeys[to]).Others()
    requires Delivers(AllRound2Mail(pubkeys, packages), to, Flatten(batches))
    ensures Poll(CollectingRound2(pubkeys, round1, map[]), batches, pubkeys[to], GotRound2)
         == (Ready(pubkeys, ForOne(pubkeys, packages, to)), Ok(()))
  {
    hide Flatten, Poll, Paves, RecvBatch, Delivers, Missing2, Round2Mail;
    var v := View(pubkeys, pubkeys[to]);
    Round2MailIsMissing(pubkeys, packages, to, Flatten(batches));
    v.OthersSize();
    Round2Paves(v, round1, map[], Flatten(batches), ForOne(pubkeys, packages, to));
    PollOfPaved(CollectingRound2(pubkeys, round1, map[]), batches, v.self, GotRound2);
  }
}
