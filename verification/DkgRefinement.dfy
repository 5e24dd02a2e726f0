/**
 * A client that gathers round 1 packages, as part of the network: whatever the others do between
 * its batches, its call is a sequence of actions that leaves the network with its result.
 */
module DkgRefinement {
  import opened Wrappers
  import opened Identities
  import opened DkgSession
  import opened DkgClient
  import opened DkgNetwork

  /** What the others do while the client waits, and the batch it receives then. */
  datatype Turn = Turn(others: seq<Action>, batch: seq<Msg>)

  /** One call: its first mail and loop, and the mail and loop that follow if they are needed. */
  datatype Call = Call(sends: seq<Action>, first: seq<Turn>, echoes: seq<Action>, second: seq<Turn>)

  function Batches(turns: seq<Turn>): (batches: seq<seq<Msg>>)
    ensures |batches| == |turns|
  {
    seq(|turns|, i requires 0 <= i < |turns| => turns[i].batch)
  }

  predicate Elsewhere(h: PublicKey, a: Action) { a.Corrupt? || a.h != h }

  /** The batch has been sent to the client by others. */
  ghost predicate Available(n: Network, h: PublicKey, batch: seq<Msg>) {
    forall m | m in batch :: m.sender != h && Envelope(m.sender, h, m.payload) in n.wire
  }

  ghost predicate GoesOn(c: Setup, actions: seq<Action>, h: PublicKey, batch: seq<Msg>, goal: Goal)
    requires c.Valid() && h in c.honest
  {
    var r := RecvBatch(Execute(c, actions).parties[h].state, batch, c.pubkeys[h]);
    r.outcome.Ok? && !Done(r.state, goal)
  }

  /** As long as the loop runs, the others act for themselves and the batches are what was sent. */
  ghost predicate Arrives(c: Setup, actions: seq<Action>, h: PublicKey, turns: seq<Turn>, goal: Goal)
    requires c.Valid() && h in c.honest
    decreases |turns|
  {
    turns == [] ||
    var now := actions + turns[0].others;
    && (forall a | a in turns[0].others :: Elsewhere(h, a))
    && Available(Execute(c, now), h, turns[0].batch)
    && (GoesOn(c, now, h, turns[0].batch, goal) ==>
          Arrives(c, now + Deliveries(h, turns[0].batch), h, turns[1..], goal))
  }

  /** `actions` and then the loop, until it ends. */
  ghost function AfterLoop(c: Setup, actions: seq<Action>, h: PublicKey, turns: seq<Turn>, goal: Goal): seq<Action>
    requires c.Valid() && h in c.honest
    decreases |turns|
  {
    if turns == [] then actions
    else
      var now := actions + turns[0].others;
      var delivered := now + Deliveries(h, turns[0].batch);
      if GoesOn(c, now, h, turns[0].batch, goal) then AfterLoop(c, delivered, h, turns[1..], goal) else delivered
  }

  lemma {:induction false} OthersLeaveAlone(c: Setup, actions: seq<Action>, others: seq<Action>, h: PublicKey)
    requires c.Valid() && h in c.honest && forall a | a in others :: Elsewhere(h, a)
    ensures Execute(c, actions + others).parties[h] == Execute(c, actions).parties[h]
  {
    hide Apply;
    if others == [] {
      assert actions + others == actions;
    } else {
      var last := |others| - 1;
      OthersLeaveAlone(c, actions, others[..last], h);
      assert (actions + others)[..|actions + others| - 1] == actions + others[..last];
      AppliedElsewhere(c, Execute(c, actions + others[..last]), others[last], h);
    }
  }

  lemma AppliedElsewhere(c: Setup, n: Network, a: Action, h: PublicKey)
    requires c.Valid() && n.parties.Keys == c.honest && h in c.honest && Elsewhere(h, a)
    ensures Apply(c, n, a).parties[h] == n.parties[h]
  {
    hide HandOver, Mail;
  }

  lemma WireGrowsByOne(c: Setup, n: Network, a: Action)
    requires c.Valid() && n.parties.Keys == c.honest
    ensures n.wire <= Apply(c, n, a).wire
  {
    hide HandOver, Mail;
  }

  lemma {:induction false} WireGrows(c: Setup, actions: seq<Action>, more: seq<Action>)
    requires c.Valid()
    ensures Execute(c, actions).wire <= Execute(c, actions + more).wire
  {
    hide Apply;
    if more == [] {
      assert actions + more == actions;
    } else {
      var last := |more| - 1;
      WireGrows(c, actions, more[..last]);
      assert (actions + more)[..|actions + more| - 1] == actions + more[..last];
      WireGrowsByOne(c, Execute(c, actions + more[..last]), more[last]);
    }
  }

  /** The loop in the network is the loop of the client. */
  lemma {:induction false} LoopIsPoll(c: Setup, actions: seq<Action>, h: PublicKey, turns: seq<Turn>, goal: Goal)
    requires c.Valid() && h in c.honest && Receiving(Execute(c, actions).parties[h])
    requires Arrives(c, actions, h, turns, goal)
    ensures var p := Execute(c, actions).parties[h];
            var q := Execute(c, AfterLoop(c, actions, h, turns, goal)).parties[h];
            var r := Poll(p.state, Batches(turns), c.pubkeys[h], goal);
            && q.state == r.0 && q.received == p.received
            && q.stage == if r.1.Err? && r.1.error.SessionFailed? then Aborted else p.stage
    ensures Execute(c, actions).wire <= Execute(c, AfterLoop(c, actions, h, turns, goal)).wire
    decreases |turns|
  {
    hide Execute, RecvBatch;
    if turns == [] {
    } else {
      var turn := turns[0];
      var now := actions + turn.others;
      OthersLeaveAlone(c, actions, turn.others, h);
      WireGrows(c, actions, turn.others);
      BatchIsDeliveries(c, now, h, turn.batch);
      WireGrows(c, now, Deliveries(h, turn.batch));
      assert Batches(turns)[0] == turn.batch && Batches(turns)[1..] == Batches(turns[1..]);
      if GoesOn(c, now, h, turn.batch, goal) {
        LoopIsPoll(c, now + Deliveries(h, turn.batch), h, turns[1..], goal);
      }
    }
  }

  predicate SendsOf(h: PublicKey, a: Action) { a.Send? && a.h == h }

  /** The client sends all of the mail and nothing else, in some order; the others go on meanwhile. */
  ghost predicate Mails(h: PublicKey, mail: set<Envelope>, sends: seq<Action>) {
    && (forall a | a in sends :: Elsewhere(h, a) || (SendsOf(h, a) && a.envelope in mail))
    && (forall e | e in mail :: Send(h, e) in sends)
  }

  lemma {:induction false} SendsPost(c: Setup, actions: seq<Action>, h: PublicKey, sends: seq<Action>)
    requires c.Valid() && h in c.honest
    requires forall a | a in sends ::
               Elsewhere(h, a) || (SendsOf(h, a) && a.envelope in Mail(c, h, Execute(c, actions).parties[h]))
    ensures Execute(c, actions + sends).parties[h] == Execute(c, actions).parties[h]
    ensures Execute(c, actions).wire <= Execute(c, actions + sends).wire
    ensures forall a | a in sends && SendsOf(h, a) :: a.envelope in Execute(c, actions + sends).wire
  {
    hide Apply, Mail;
    if sends == [] {
      assert actions + sends == actions;
    } else {
      var last := |sends| - 1;
      SendsPost(c, actions, h, sends[..last]);
      assert (actions + sends)[..|actions + sends| - 1] == actions + sends[..last];
      assert sends == sends[..last] + [sends[last]] && sends[last] in sends;
      var n := Execute(c, actions + sends[..last]);
      WireGrowsByOne(c, n, sends[last]);
      if SendsOf(h, sends[last]) { SendPosts(c, n, h, sends[last].envelope); }
      else { AppliedElsewhere(c, n, sends[last], h); }
    }
  }

  lemma SendPosts(c: Setup, n: Network, h: PublicKey, e: Envelope)
    requires c.Valid() && n.parties.Keys == c.honest && h in c.honest && e in Mail(c, h, n.parties[h])
    ensures Apply(c, n, Send(h, e)) == n.(wire := n.wire + {e})
  {
  }

  lemma MailIsPosted(c: Setup, actions: seq<Action>, h: PublicKey, mail: set<Envelope>, sends: seq<Action>)
    requires c.Valid() && h in c.honest && Mails(h, mail, sends)
    requires mail == Mail(c, h, Execute(c, actions).parties[h])
    ensures Execute(c, actions + sends).parties[h] == Execute(c, actions).parties[h]
    ensures Execute(c, actions).wire + mail <= Execute(c, actions + sends).wire
  {
    hide Execute, Mail;
    SendsPost(c, actions, h, sends);
    forall e | e in mail ensures e in Execute(c, actions + sends).wire {
      assert Send(h, e) in sends && SendsOf(h, Send(h, e));
    }
  }

  ghost function Leave(actions: seq<Action>, a: Action): seq<Action> { actions + [a] }

  /** The actions up to where the client has what the first loop waits for. */
  ghost function FirstHalf(c: Setup, actions: seq<Action>, h: PublicKey, call: Call): seq<Action>
    requires c.Valid() && h in c.honest
  {
    AfterLoop(c, actions + call.sends, h, call.first, GotRound1)
  }

  /** What the first loop returns. */
  function FirstLoop(c: Setup, h: PublicKey, call: Call): (r: (State, Result<(), ClientError>))
    requires c.Valid() && h in c.honest
    ensures r.1.Ok? ==> HasRound1Packages(r.0)
  {
    PollReaches(Start(c.ViewOf(h)), Batches(call.first), c.pubkeys[h], GotRound1);
    Poll(Start(c.ViewOf(h)), Batches(call.first), c.pubkeys[h], GotRound1)
  }

  function SecondLoop(c: Setup, h: PublicKey, call: Call): (State, Result<(), ClientError>)
    requires c.Valid() && h in c.honest
  {
    Poll(FirstLoop(c, h, call).0, Batches(call.second), c.pubkeys[h], GotEchoes)
  }

  predicate NeedsEchoes(c: Setup, h: PublicKey, call: Call)
    requires c.Valid() && h in c.honest
  {
    FirstLoop(c, h, call).1.Ok? && !HasCheckedRound1Packages(FirstLoop(c, h, call).0)
  }

  /** The actions from where the first loop has ended to where the second has. */
  ghost function SecondHalf(c: Setup, actions: seq<Action>, h: PublicKey, call: Call): seq<Action>
    requires c.Valid() && h in c.honest
  {
    AfterLoop(c, Leave(FirstHalf(c, actions, h, call), LeaveRound1(h)) + call.echoes, h, call.second, GotEchoes)
  }

  /** `actions` and then the whole call. */
  ghost function AfterCall(c: Setup, actions: seq<Action>, h: PublicKey, call: Call): seq<Action>
    requires c.Valid() && h in c.honest
  {
    if FirstLoop(c, h, call).1.Err? then FirstHalf(c, actions, h, call)
    else if !NeedsEchoes(c, h, call) then Leave(FirstHalf(c, actions, h, call), LeaveRound1(h))
    else if SecondLoop(c, h, call).1.Err? then SecondHalf(c, actions, h, call)
    else Leave(SecondHalf(c, actions, h, call), LeaveEchoes(h))
  }

  /** The client sends what it has to, and receives what was sent to it. */
  ghost predicate Legal(c: Setup, actions: seq<Action>, h: PublicKey, call: Call)
    requires c.Valid() && h in c.honest
  {
    && Mails(h, Round1Mail(c.pubkeys, h, c.own[h]), call.sends)
    && Arrives(c, actions + call.sends, h, call.first, GotRound1)
    && (NeedsEchoes(c, h, call) ==>
          && Mails(h, EchoMail(c.pubkeys, h, FirstLoop(c, h, call).0.round1), call.echoes)
          && Arrives(c, Leave(FirstHalf(c, actions, h, call), LeaveRound1(h)) + call.echoes, h, call.second, GotEchoes))
  }

  lemma FirstHalfIsLoop(c: Setup, actions: seq<Action>, h: PublicKey, call: Call)
    requires c.Valid() && h in c.honest && Legal(c, actions, h, call)
    requires Execute(c, actions).parties[h] == Party(Start(c.ViewOf(h)), AwaitingRound1, None, None)
    ensures var n := Execute(c, FirstHalf(c, actions, h, call));
            var r := FirstLoop(c, h, call);
            && n.parties[h].state == r.0 && n.parties[h].received == None
            && (r.1.Ok? ==> n.parties[h].stage == AwaitingRound1)
            && Round1Mail(c.pubkeys, h, c.own[h]) <= n.wire
  {
    hide Execute, Poll, AfterLoop, Arrives;
    MailIsPosted(c, actions, h, Round1Mail(c.pubkeys, h, c.own[h]), call.sends);
    LoopIsPoll(c, actions + call.sends, h, call.first, GotRound1);
  }

  lemma LeaveStep(c: Setup, actions: seq<Action>, a: Action)
    requires c.Valid()
    ensures Execute(c, Leave(actions, a)) == Apply(c, Execute(c, actions), a)
  {
    assert Leave(actions, a)[..|actions|] == actions;
  }

  lemma SecondHalfIsLoop(c: Setup, actions: seq<Action>, h: PublicKey, call: Call)
    requires c.Valid() && h in c.honest && Legal(c, actions, h, call) && NeedsEchoes(c, h, call)
    requires Execute(c, actions).parties[h] == Party(Start(c.ViewOf(h)), AwaitingRound1, None, None)
    ensures var n := Execute(c, SecondHalf(c, actions, h, call));
            var r := SecondLoop(c, h, call);
            && n.parties[h].state == r.0 && n.parties[h].received == None
            && (r.1.Ok? ==> n.parties[h].stage == AwaitingEchoes)
            && Round1Mail(c.pubkeys, h, c.own[h]) + EchoMail(c.pubkeys, h, FirstLoop(c, h, call).0.round1) <= n.wire
  {
    hide Execute, Poll, AfterLoop, Arrives, Mails, HandOver;
    FirstHalfIsLoop(c, actions, h, call);
    var left := Leave(FirstHalf(c, actions, h, call), LeaveRound1(h));
    LeaveStep(c, FirstHalf(c, actions, h, call), LeaveRound1(h));
    MailIsPosted(c, left, h, EchoMail(c.pubkeys, h, FirstLoop(c, h, call).0.round1), call.echoes);
    LoopIsPoll(c, left + call.echoes, h, call.second, GotEchoes);
  }

  /**
   * Gathering round 1 packages is a sequence of actions of the network: after it the machine is
   * in the state the client leaves it in, the client's mail is on its way, and the participant
   * has received exactly what the client returned, or nothing if it returned an error.
   */
  lemma GatherIsActions(c: Setup, actions: seq<Action>, h: PublicKey, call: Call)
    requires c.Valid() && h in c.honest && Legal(c, actions, h, call)
    requires Execute(c, actions).parties[h] == Party(Start(c.ViewOf(h)), AwaitingRound1, None, None)
    ensures var n := Execute(c, AfterCall(c, actions, h, call));
            var g := GatherRound1(c.pubkeys, h, Start(c.ViewOf(h)), c.own[h],
                                  Batches(call.first), Batches(call.second));
            && n.parties[h].state == g.state && g.mail <= n.wire
            && n.parties[h].received == if g.result.Ok? then Some(g.result.value) else None
  {
    hide Execute, Poll, AfterLoop, Arrives, Mails, HandOver, FirstHalf, SecondHalf;
    var v := c.ViewOf(h);
    FirstHalfIsLoop(c, actions, h, call);
    PollReaches(Start(v), Batches(call.first), v.self, GotRound1);
    if FirstLoop(c, h, call).1.Ok? {
      LeaveStep(c, FirstHalf(c, actions, h, call), LeaveRound1(h));
      if NeedsEchoes(c, h, call) {
        SecondHalfIsLoop(c, actions, h, call);
        PollReaches(FirstLoop(c, h, call).0, Batches(call.second), v.self, GotEchoes);
        LeaveStep(c, SecondHalf(c, actions, h, call), LeaveEchoes(h));
      }
    }
  }

  /**
   * So the packages a client returns are those of any other honest participant that has finished
   * gathering by then, itself running beside it.
   */
  lemma GatheredPackagesAgree(c: Setup, actions: seq<Action>, h: PublicKey, call: Call, j: PublicKey)
    requires c.Valid() && h in c.honest && j in c.honest && Legal(c, actions, h, call)
    requires Execute(c, actions).parties[h] == Party(Start(c.ViewOf(h)), AwaitingRound1, None, None)
    requires Execute(c, AfterCall(c, actions, h, call)).parties[j].received.Some?
    ensures var n := Execute(c, AfterCall(c, actions, h, call));
            var g := GatherRound1(c.pubkeys, h, Start(c.ViewOf(h)), c.own[h],
                                  Batches(call.first), Batches(call.second));
            g.result.Ok? ==>
              && Packages(c, h, g.result.value) == Packages(c, j, n.parties[j].received.value)
              && Packages(c, h, g.result.value).Keys == c.pubkeys.Values
  {
    hide Execute, AfterCall, GatherRound1, Legal;
    GatherIsActions(c, actions, h, call);
    if Execute(c, AfterCall(c, actions, h, call)).parties[h].received.Some? {
      Agreement(c, AfterCall(c, actions, h, call), h, j);
    }
  }

  // ------------------------------------------------------------------ round 2

  /** `actions`, then the client's round 2 mail and loop, and its return if the loop succeeds. */
  ghost function AfterRound2(c: Setup, actions: seq<Action>, h: PublicKey, sends: seq<Action>, turns: seq<Turn>)
    : seq<Action>
    requires c.Valid() && h in c.honest
  {
    var looped := AfterLoop(c, actions + sends, h, turns, GotRound2);
    if Round2Loop(c, actions, h, turns).1.Ok? then Leave(looped, Finish(h)) else looped
  }

  ghost function Round2Loop(c: Setup, actions: seq<Action>, h: PublicKey, turns: seq<Turn>)
    : (State, Result<(), ClientError>)
    requires c.Valid() && h in c.honest
  {
    Poll(Execute(c, actions).parties[h].state, Batches(turns), c.pubkeys[h], GotRound2)
  }

  /** The client computes round 2 packages from what it received, sends them, and waits for the others'. */
  ghost predicate LegalRound2(c: Setup, actions: seq<Action>, h: PublicKey, sends: seq<Action>, turns: seq<Turn>)
    requires c.Valid() && h in c.honest
  {
    var p := Execute(c, actions).parties[h];
    && p.stage == AwaitingRound2 && p.received.Some?
    && Mails(h, Round2Mail(c.pubkeys, h, c.part2(h, p.received.value)), sends)
    && Arrives(c, actions + sends, h, turns, GotRound2)
  }

  /** The second call of a client is a sequence of actions too; it finishes just when it returns packages. */
  lemma Round2IsActions(c: Setup, actions: seq<Action>, h: PublicKey, sends: seq<Action>, turns: seq<Turn>)
    requires c.Valid() && h in c.honest && LegalRound2(c, actions, h, sends, turns)
    ensures var p := Execute(c, AfterRound2(c, actions, h, sends, turns)).parties[h];
            var r := Round2Loop(c, actions, h, turns);
            && p.state == r.0 && (p.stage == Finished <==> r.1.Ok?) && (r.1.Ok? ==> p.state.Ready?)
  {
    hide Execute, Poll, AfterLoop, Arrives, Mails, HandOver;
    var p := Execute(c, actions).parties[h];
    MailIsPosted(c, actions, h, Round2Mail(c.pubkeys, h, c.part2(h, p.received.value)), sends);
    LoopIsPoll(c, actions + sends, h, turns, GotRound2);
    PollReaches(p.state, Batches(turns), c.pubkeys[h], GotRound2);
    LeaveStep(c, AfterLoop(c, actions + sends, h, turns, GotRound2), Finish(h));
  }

  /** What it returns is, for every other honest participant, what that one computed for this one. */
  lemma ReturnedPackagesAreTheirs(c: Setup, actions: seq<Action>, h: PublicKey, sends: seq<Action>,
                                  turns: seq<Turn>, k: PublicKey)
    requires c.Valid() && h in c.honest && k in c.honest && k != h && LegalRound2(c, actions, h, sends, turns)
    requires Round2Loop(c, actions, h, turns).1.Ok?
    ensures var n := Execute(c, AfterRound2(c, actions, h, sends, turns));
            var s := Round2Loop(c, actions, h, turns).0;
            && s.Ready? && c.pubkeys[k] in s.round2 && n.parties[k].received.Some?
            && c.pubkeys[h] in c.part2(k, n.parties[k].received.value)
            && s.round2[c.pubkeys[k]] == c.part2(k, n.parties[k].received.value)[c.pubkeys[h]]
  {
    hide Execute, AfterRound2, LegalRound2, Round2Loop;
    Round2IsActions(c, actions, h, sends, turns);
    FinishedMeansEveryHonestCompleted(c, AfterRound2(c, actions, h, sends, turns), h, k);
  }
}
