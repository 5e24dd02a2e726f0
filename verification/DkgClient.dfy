/**
 * What an honest participant's client does with its session machine: send a round 1 package to
 * everybody else, wait, repeat what it heard to everybody else, wait, send round 2 packages, wait.
 */
module DkgClient {
  import opened Wrappers
  import opened Identities
  import opened DkgSession
  import DkgRuns

  datatype Envelope = Envelope(from: PublicKey, to: PublicKey, payload: Payload)

  // ------------------------------------------------------------------ outgoing mail

  function Round1Mail(pubkeys: map<PublicKey, Identifier>, self: PublicKey, own: Package1): set<Envelope> {
    set to | to in pubkeys && to != self :: Envelope(self, to, Round1(own))
  }

  /** Every package that was received goes to every participant but oneself and its sender. */
  function EchoMail(pubkeys: map<PublicKey, Identifier>, self: PublicKey,
                    round1: map<Identifier, Package1>): set<Envelope> {
    set to, o | to in pubkeys && to != self && o in round1 && o != pubkeys[to] ::
      Envelope(self, to, Echo(o, round1[o]))
  }

  /** Each participant's own round 2 package, if there is one for it. */
  function Round2Mail(pubkeys: map<PublicKey, Identifier>, self: PublicKey,
                      packages: map<Identifier, Package2>): set<Envelope> {
    set to | to in pubkeys && to != self && pubkeys[to] in packages ::
      Envelope(self, to, Round2(packages[pubkeys[to]]))
  }

  // ------------------------------------------------------------------ receive loops

  datatype Goal = GotRound1 | GotEchoes | GotRound2

  predicate Done(s: State, goal: Goal) {
    match goal
    case GotRound1 => HasRound1Packages(s)
    case GotEchoes => HasCheckedRound1Packages(s)
    case GotRound2 => HasRound2Packages(s)
  }

  datatype ClientError = SessionFailed(error: Error) | StillWaiting | NoPackageFor(id: Identifier)

  /** One received batch: every message is handled, until one is rejected. */
  function RecvBatch(s: State, msgs: seq<Msg>, self: Identifier): Reply
    decreases |msgs|
  {
    if msgs == [] then Reply(s, Ok(()))
    else
      var r := Step(s, msgs[0], self);
      if r.outcome.Err? then r else RecvBatch(r.state, msgs[1..], self)
  }

  /** A receive loop fed from `batches`; the machine is looked at only after a whole batch. */
  function Poll(s: State, batches: seq<seq<Msg>>, self: Identifier, goal: Goal): (State, Result<(), ClientError>)
    decreases |batches|
  {
    if batches == [] then (s, Err(StillWaiting))
    else
      var r := RecvBatch(s, batches[0], self);
      if r.outcome.Err? then (r.state, Err(SessionFailed(r.outcome.error)))
      else if Done(r.state, goal) then (r.state, Ok(()))
      else Poll(r.state, batches[1..], self, goal)
  }

  /** The state it leaves the machine in, the mail it sent, and what it returned. */
  datatype Gathered<T> = Gathered(state: State, mail: set<Envelope>, result: Result<T, ClientError>)

  /** Gathering round 1 packages: the second loop, and the echoes before it, only if still needed. */
  function GatherRound1(pubkeys: map<PublicKey, Identifier>, self: PublicKey, s: State, own: Package1,
                        first: seq<seq<Msg>>, second: seq<seq<Msg>>): Gathered<map<Identifier, Package1>>
    requires self in pubkeys
  {
    var mail := Round1Mail(pubkeys, self, own);
    var (t, r) := Poll(s, first, pubkeys[self], GotRound1);
    if r.Err? then Gathered(t, mail, Err(r.error))
    else
      PollReaches(s, first, pubkeys[self], GotRound1);
      if HasCheckedRound1Packages(t) then Gathered(t, mail, Ok(t.round1))
      else
        var (u, q) := Poll(t, second, pubkeys[self], GotEchoes);
        PollReaches(t, second, pubkeys[self], GotEchoes);
        Gathered(u, mail + EchoMail(pubkeys, self, t.round1), if q.Err? then Err(q.error) else Ok(u.round1))
  }

  lemma {:induction false} PollReaches(s: State, batches: seq<seq<Msg>>, self: Identifier, goal: Goal)
    ensures Poll(s, batches, self, goal).1.Ok? ==> Done(Poll(s, batches, self, goal).0, goal)
    ensures Poll(s, batches, self, goal).1.Err? ==> !Poll(s, batches, self, goal).1.error.NoPackageFor?
    decreases |batches|
  {
    if batches == [] {
    } else {
      var r := RecvBatch(s, batches[0], self);
      if r.outcome.Ok? && !Done(r.state, goal) { PollReaches(r.state, batches[1..], self, goal); }
    }
  }

  ghost predicate BatchesForeign(v: View, batches: seq<seq<Msg>>) {
    forall batch | batch in batches :: DkgRuns.AllForeign(v, batch)
  }

  lemma {:induction false} BatchKeepsInvariant(v: View, s: State, msgs: seq<Msg>)
    requires v.Valid() && Invariant(v, s) && DkgRuns.AllForeign(v, msgs)
    ensures Invariant(v, RecvBatch(s, msgs, v.self).state)
    decreases |msgs|
  {
    if msgs == [] {
    } else {
      StepKeepsInvariant(v, s, msgs[0]);
      var r := Step(s, msgs[0], v.self);
      if r.outcome.Ok? { BatchKeepsInvariant(v, r.state, msgs[1..]); }
    }
  }

  lemma {:induction false} PollKeepsInvariant(v: View, s: State, batches: seq<seq<Msg>>, goal: Goal)
    requires v.Valid() && Invariant(v, s) && BatchesForeign(v, batches)
    ensures Invariant(v, Poll(s, batches, v.self, goal).0)
    decreases |batches|
  {
    if batches == [] {
    } else {
      BatchKeepsInvariant(v, s, batches[0]);
      var r := RecvBatch(s, batches[0], v.self);
      if r.outcome.Ok? && !Done(r.state, goal) { PollKeepsInvariant(v, r.state, batches[1..], goal); }
    }
  }

  /** A participant that gathers round 1 packages has one from every other participant. */
  lemma GatheredFromEveryOther(v: View, self: PublicKey, own: Package1, first: seq<seq<Msg>>, second: seq<seq<Msg>>)
    requires v.Valid() && self in v.pubkeys && v.pubkeys[self] == v.self
    requires BatchesForeign(v, first) && BatchesForeign(v, second)
    ensures var g := GatherRound1(v.pubkeys, self, Start(v), own, first, second);
            g.result.Ok? ==> g.result.value.Keys == v.Others() && g.state.CollectingRound2?
                             && g.result.value == g.state.round1
  {
    StartSatisfiesInvariant(v);
    PollKeepsInvariant(v, Start(v), first, GotRound1);
    var (t, r) := Poll(Start(v), first, v.self, GotRound1);
    PollReaches(Start(v), first, v.self, GotRound1);
    if r.Ok? && !HasCheckedRound1Packages(t) {
      PollKeepsInvariant(v, t, second, GotEchoes);
      PollReaches(t, second, v.self, GotEchoes);
    }
  }

  // ------------------------------------------------------------------ the client, in place

  class HttpComms {
    const session: Session
    const pubkeys: map<PublicKey, Identifier>
    const self: PublicKey
    var outbox: set<Envelope>

    /** Taking part: the session's participants are copied into the machine. */
    constructor (session: Session, pubkeys: map<PublicKey, Identifier>, self: PublicKey)
      requires self in pubkeys && session.state.CollectingRound1?
      modifies session
      ensures this.session == session && this.pubkeys == pubkeys && this.self == self && outbox == {}
      ensures session.state == CollectingRound1(pubkeys, old(session.state.round1))
    {
      this.session := session;
      this.pubkeys := pubkeys;
      this.self := self;
      outbox := {};
      new;
      session.SetPubkeys(pubkeys);
    }

    method PollUntil(batches: seq<seq<Msg>>, goal: Goal) returns (r: Result<(), ClientError>)
      requires self in pubkeys
      modifies session
      ensures (session.state, r) == Poll(old(session.state), batches, pubkeys[self], goal)
    {
      hide Step;
      var identifier := pubkeys[self];
      var i := 0;
      while i < |batches|
        invariant 0 <= i <= |batches|
        invariant Poll(old(session.state), batches, identifier, goal)
               == Poll(session.state, batches[i..], identifier, goal)
      {
        ghost var before := session.state;
        var batch := batches[i];
        assert batches[i..][0] == batch && batches[i..][1..] == batches[i + 1..];
        var j := 0;
        while j < |batch|
          invariant 0 <= j <= |batch|
          invariant RecvBatch(before, batch, identifier) == RecvBatch(session.state, batch[j..], identifier)
        {
          assert batch[j..][0] == batch[j] && batch[j..][1..] == batch[j + 1..];
          var outcome := session.Recv(batch[j], identifier);
          if outcome.Err? { return Err(SessionFailed(outcome.error)); }
          j := j + 1;
        }
        if Done(session.state, goal) { return Ok(()); }
        i := i + 1;
      }
      return Err(StillWaiting);
    }

    method SendRound1(own: Package1)
      modifies this`outbox
      ensures outbox == old(outbox) + Round1Mail(pubkeys, self, own)
    {
      var left := pubkeys.Keys;
      while left != {}
        invariant left <= pubkeys.Keys
        invariant outbox == old(outbox)
                            + set to | to in pubkeys.Keys - left && to != self :: Envelope(self, to, Round1(own))
        decreases left
      {
        var to :| to in left;
        left := left - {to};
        if to != self { outbox := outbox + {Envelope(self, to, Round1(own))}; }
      }
    }

    /** All packages but the recipient's own, to one recipient. */
    method SendEchoesTo(to: PublicKey, round1: map<Identifier, Package1>)
      requires to in pubkeys
      modifies this`outbox
      ensures outbox == old(outbox) + set o | o in round1 && o != pubkeys[to] :: Envelope(self, to, Echo(o, round1[o]))
    {
      var left := round1.Keys;
      while left != {}
        invariant left <= round1.Keys
        invariant outbox == old(outbox)
                            + set o | o in round1.Keys - left && o != pubkeys[to] ::
                                Envelope(self, to, Echo(o, round1[o]))
        decreases left
      {
        var o :| o in left;
        left := left - {o};
        if o != pubkeys[to] { outbox := outbox + {Envelope(self, to, Echo(o, round1[o]))}; }
      }
    }

    method SendEchoes(round1: map<Identifier, Package1>)
      modifies this`outbox
      ensures outbox == old(outbox) + EchoMail(pubkeys, self, round1)
    {
      var left := pubkeys.Keys;
      while left != {}
        invariant left <= pubkeys.Keys
        invariant outbox == old(outbox)
                            + set to, o | to in pubkeys.Keys - left && to != self && o in round1 && o != pubkeys[to] ::
                                Envelope(self, to, Echo(o, round1[o]))
        decreases left
      {
        var to :| to in left;
        left := left - {to};
        if to != self { SendEchoesTo(to, round1); }
      }
    }

    method GetRound1Packages(own: Package1, first: seq<seq<Msg>>, second: seq<seq<Msg>>)
      returns (r: Result<map<Identifier, Package1>, ClientError>)
      requires self in pubkeys
      modifies session, this`outbox
      ensures var g := GatherRound1(pubkeys, self, old(session.state), own, first, second);
              session.state == g.state && outbox == old(outbox) + g.mail && r == g.result
    {
      SendRound1(own);
      PollReaches(session.state, first, pubkeys[self], GotRound1);
      var polled := PollUntil(first, GotRound1);
      if polled.Err? { return Err(polled.error); }
      if !HasCheckedRound1Packages(session.state) {
        SendEchoes(session.state.round1);
        PollReaches(session.state, second, pubkeys[self], GotEchoes);
        polled := PollUntil(second, GotEchoes);
        if polled.Err? { return Err(polled.error); }
      }
      return Ok(session.state.round1);
    }

    /** Sends until somebody's package turns out to be missing. */
    method SendRound2(packages: map<Identifier, Package2>) returns (r: Result<(), ClientError>)
      modifies this`outbox
      ensures old(outbox) <= outbox <= old(outbox) + Round2Mail(pubkeys, self, packages)
      ensures r.Ok? <==> forall to | to in pubkeys && to != self :: pubkeys[to] in packages
      ensures r.Ok? ==> outbox == old(outbox) + Round2Mail(pubkeys, self, packages)
      ensures r.Err? ==> exists to | to in pubkeys && to != self ::
                           pubkeys[to] !in packages && r.error == NoPackageFor(pubkeys[to])
    {
      var left := pubkeys.Keys;
      while left != {}
        invariant left <= pubkeys.Keys
        invariant forall to | to in pubkeys.Keys - left && to != self :: pubkeys[to] in packages
        invariant outbox == old(outbox)
                            + set to | to in pubkeys.Keys - left && to != self && pubkeys[to] in packages ::
                                Envelope(self, to, Round2(packages[pubkeys[to]]))
        decreases left
      {
        var to :| to in left;
        if to != self && pubkeys[to] !in packages { return Err(NoPackageFor(pubkeys[to])); }
        left := left - {to};
        if to != self { outbox := outbox + {Envelope(self, to, Round2(packages[pubkeys[to]]))}; }
      }
      return Ok(());
    }

    method GetRound2Packages(packages: map<Identifier, Package2>, batches: seq<seq<Msg>>)
      returns (r: Result<map<Identifier, Package2>, ClientError>)
      requires self in pubkeys
      modifies session, this`outbox
      ensures old(outbox) <= outbox <= old(outbox) + Round2Mail(pubkeys, self, packages)
      ensures r.Ok? ==>
                && outbox == old(outbox) + Round2Mail(pubkeys, self, packages)
                && Poll(old(session.state), batches, pubkeys[self], GotRound2).0 == session.state
                && session.state.Ready? && r.value == session.state.round2
      ensures r.Err? && r.error.NoPackageFor? ==>
                session.state == old(session.state) && r.error.id !in packages
      ensures r.Err? && !r.error.NoPackageFor? ==>
                && outbox == old(outbox) + Round2Mail(pubkeys, self, packages)
                && Poll(old(session.state), batches, pubkeys[self], GotRound2) == (session.state, Err(r.error))
    {
      var sent := SendRound2(packages);
      if sent.Err? { return Err(sent.error); }
      PollReaches(session.state, batches, pubkeys[self], GotRound2);
      var polled := PollUntil(batches, GotRound2);
      if polled.Err? { return Err(polled.error); }
      return Ok(session.state.round2);
    }
  }
}
