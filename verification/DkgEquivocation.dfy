/** Why the echo round is there: without it, one corrupt participant splits the honest ones. */
module DkgEquivocation {
  import opened Wrappers
  import opened Identities
  import opened DkgSession
  import opened DkgClient
  import opened DkgNetwork

  lemma ExecutePrefix(c: Setup, actions: seq<Action>, k: nat)
    requires c.Valid() && 0 < k <= |actions|
    ensures Execute(c, actions[..k]) == Apply(c, Execute(c, actions[..k - 1]), actions[k - 1])
  {
    assert actions[..k][..k - 1] == actions[..k - 1];
  }

  /** Three participants, the last of which sends the other two different packages. */
  ghost predicate Split(c: Setup, a: PublicKey, b: PublicKey, k: PublicKey) {
    && c.Valid() && a != b && b != k && a != k
    && c.pubkeys.Keys == {a, b, k} && c.honest == {a, b}
  }

  function SplitActions(c: Setup, a: PublicKey, b: PublicKey, k: PublicKey, p: Package1, q: Package1): seq<Action>
    requires a in c.own && b in c.own
  {
    [Corrupt(Envelope(k, a, Round1(p))), Corrupt(Envelope(k, b, Round1(q))),
     Send(a, Envelope(a, b, Round1(c.own[a]))), Send(b, Envelope(b, a, Round1(c.own[b]))),
     Deliver(a, Envelope(b, a, Round1(c.own[b]))), Deliver(a, Envelope(k, a, Round1(p))),
     Deliver(b, Envelope(a, b, Round1(c.own[a]))), Deliver(b, Envelope(k, b, Round1(q)))]
  }

  /** Handling one round 1 package of two, in a session of three. */
  lemma FirstOfTwo(v: View, sender: PublicKey, p: Package1)
    requires |v.pubkeys| == 3 && sender in v.pubkeys
    ensures Step(Start(v), Msg(sender, Round1(p)), v.self)
         == Reply(CollectingRound1(v.pubkeys, map[v.pubkeys[sender] := p]), Ok(()))
  {
    assert map[][v.pubkeys[sender] := p] == map[v.pubkeys[sender] := p];
  }

  lemma SecondOfTwo(v: View, first: Identifier, p: Package1, sender: PublicKey, q: Package1)
    requires |v.pubkeys| == 3 && sender in v.pubkeys && v.pubkeys[sender] != first
    ensures var both := map[first := p, v.pubkeys[sender] := q];
            Step(CollectingRound1(v.pubkeys, map[first := p]), Msg(sender, Round1(q)), v.self)
            == Reply(CollectingEchoes(v.pubkeys, both, map[]), Ok(()))
  {
    var both := map[first := p, v.pubkeys[sender] := q];
    assert map[first := p][v.pubkeys[sender] := q] == both;
    assert both.Keys == {first, v.pubkeys[sender]} && |both| == |both.Keys|;
  }

  /** A participant that gets a package from each of the two others; nobody else notices. */
  lemma BothArrive(c: Setup, n: Network, h: PublicKey, x: Envelope, y: Envelope, p: Package1, q: Package1)
    requires c.Valid() && |c.pubkeys| == 3 && n.parties.Keys == c.honest && h in c.honest
    requires n.parties[h].state == Start(c.ViewOf(h)) && n.parties[h].stage == AwaitingRound1
    requires x == Envelope(x.from, h, Round1(p)) && y == Envelope(y.from, h, Round1(q)) && {x, y} <= n.wire
    requires x.from in c.pubkeys && y.from in c.pubkeys && x.from != y.from && x.from != h && y.from != h
    ensures var m := Apply(c, Apply(c, n, Deliver(h, x)), Deliver(h, y));
            && m.wire == n.wire && m.parties.Keys == c.honest
            && (forall k | k in c.honest && k != h :: m.parties[k] == n.parties[k])
            && m.parties[h].state
               == CollectingEchoes(c.pubkeys, map[c.pubkeys[x.from] := p, c.pubkeys[y.from] := q], map[])
  {
    hide Step;
    var v := c.ViewOf(h);
    FirstOfTwo(v, x.from, p);
    SecondOfTwo(v, c.pubkeys[x.from], p, y.from, q);
    var m := Apply(c, n, Deliver(h, x));
    assert m == Update(n, h, HandOver(n.parties[h], Msg(x.from, x.payload), v.self));
    assert m.parties[h].state == CollectingRound1(c.pubkeys, map[c.pubkeys[x.from] := p]);
    assert m.parties[h].stage == AwaitingRound1;
    assert Apply(c, m, Deliver(h, y)) == Update(m, h, HandOver(m.parties[h], Msg(y.from, y.payload), v.self));
  }

  /** A corrupt participant may send anything, an honest one its round 1 package. */
  lemma Posted(c: Setup, n: Network, from: PublicKey, to: PublicKey, package: Package1)
    requires c.Valid() && n.parties.Keys == c.honest && to in c.pubkeys && to != from
    requires from in c.honest ==> n.parties[from].stage == AwaitingRound1 && package == c.own[from]
    ensures var e := Envelope(from, to, Round1(package));
            Apply(c, n, if from in c.honest then Send(from, e) else Corrupt(e)) == n.(wire := n.wire + {e})
  {
  }

  /** One more action of the plan posts its envelope. */
  lemma PostedNext(c: Setup, acts: seq<Action>, i: nat, from: PublicKey, to: PublicKey, package: Package1)
    requires c.Valid() && i < |acts| && to in c.pubkeys && to != from
    requires var e := Envelope(from, to, Round1(package));
             acts[i] == if from in c.honest then Send(from, e) else Corrupt(e)
    requires Execute(c, acts[..i]).parties == Init(c).parties && (from in c.honest ==> package == c.own[from])
    ensures Execute(c, acts[..i + 1]).parties == Init(c).parties
    ensures Execute(c, acts[..i + 1]).wire == Execute(c, acts[..i]).wire + {Envelope(from, to, Round1(package))}
  {
    hide Apply;
    ExecutePrefix(c, acts, i + 1);
    Posted(c, Execute(c, acts[..i]), from, to, package);
  }

  /** The honest ones' packages and the two that differ can all be under way. */
  lemma AllUnderWay(c: Setup, a: PublicKey, b: PublicKey, k: PublicKey, p: Package1, q: Package1)
    requires Split(c, a, b, k)
    ensures var acts := SplitActions(c, a, b, k, p, q);
            var n := Execute(c, acts[..4]);
            && n.parties == Init(c).parties
            && {acts[4].envelope, acts[5].envelope, acts[6].envelope, acts[7].envelope} <= n.wire
  {
    var acts := SplitActions(c, a, b, k, p, q);
    assert Execute(c, acts[..0]) == Init(c);
    hide Apply, Execute;
    PostedNext(c, acts, 0, k, a, p);
    PostedNext(c, acts, 1, k, b, q);
    PostedNext(c, acts, 2, a, b, c.own[a]);
    PostedNext(c, acts, 3, b, a, c.own[b]);
  }

  /** Both honest participants have everybody's round 1 package, and do not agree on one of them. */
  lemma RoundOneAloneDoesNotAgree(c: Setup, a: PublicKey, b: PublicKey, k: PublicKey, p: Package1, q: Package1)
    requires Split(c, a, b, k)
    ensures var n := Execute(c, SplitActions(c, a, b, k, p, q));
            && n.parties[a].state
               == CollectingEchoes(c.pubkeys, map[c.pubkeys[b] := c.own[b], c.pubkeys[k] := p], map[])
            && n.parties[b].state
               == CollectingEchoes(c.pubkeys, map[c.pubkeys[a] := c.own[a], c.pubkeys[k] := q], map[])
  {
    hide Apply, Step;
    var acts := SplitActions(c, a, b, k, p, q);
    assert |c.pubkeys| == |c.pubkeys.Keys| == 3;
    assert acts[..8] == acts;
    AllUnderWay(c, a, b, k, p, q);
    ExecutePrefix(c, acts, 5);
    ExecutePrefix(c, acts, 6);
    BothArrive(c, Execute(c, acts[..4]), a, acts[4].envelope, acts[5].envelope, c.own[b], p);
    ExecutePrefix(c, acts, 7);
    ExecutePrefix(c, acts, 8);
    BothArrive(c, Execute(c, acts[..6]), b, acts[6].envelope, acts[7].envelope, c.own[a], q);
  }
}
