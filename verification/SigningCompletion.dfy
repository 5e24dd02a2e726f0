/**
 * When a signing session completes: if every signer answers once, however that is delivered, it
 * is up to aggregation and nothing else.
 */
module SigningCompletion {
  import opened Wrappers
  import opened Identities
  import opened Collecting
  import C = CoordinatorSession
  import opened Signing

  lemma {:induction false} RunSplits(s: C.State, a: seq<C.Msg>, b: seq<C.Msg>)
    ensures C.Run(s, a + b) == C.Run(C.Run(s, a), b)
  {
    if b == [] {
      assert a + b == a;
    } else {
      var last := |b| - 1;
      assert (a + b)[..|a + b| - 1] == a + b[..last];
      RunSplits(s, a, b[..last]);
    }
  }

  /** Every message is accepted, and the last one is the first that ends the wait. */
  ghost predicate Smooth(s: C.State, msgs: seq<C.Msg>, wantShares: bool) {
    && (forall k | 0 <= k < |msgs| :: AcceptedAndOpen(s, msgs, wantShares, k))
    && Done(C.Run(s, msgs), wantShares)
  }

  ghost predicate AcceptedAndOpen(s: C.State, msgs: seq<C.Msg>, wantShares: bool, k: nat)
    requires k < |msgs|
  {
    var before := C.Run(s, msgs[..k]);
    !Done(before, wantShares) && C.Step(before, msgs[k]).outcome.Ok?
  }

  lemma {:induction false} BatchIsRun(s: C.State, msgs: seq<C.Msg>)
    requires forall k | 0 <= k < |msgs| :: C.Step(C.Run(s, msgs[..k]), msgs[k]).outcome.Ok?
    ensures RecvBatch(s, msgs) == C.Reply(C.Run(s, msgs), Ok(()))
    decreases |msgs|
  {
    hide C.Step;
    if msgs == [] {
    } else {
      var first, rest := [msgs[0]], msgs[1..];
      assert C.Run(s, msgs[..0]) == s;
      assert C.Step(s, msgs[0]).outcome.Ok?;
      assert C.Run(s, first) == C.Step(s, msgs[0]).state by { assert first[..0] == []; }
      forall k | 0 <= k < |rest| ensures C.Step(C.Run(C.Run(s, first), rest[..k]), rest[k]).outcome.Ok? {
        RunSplits(s, first, rest[..k]);
        assert first + rest[..k] == msgs[..k + 1];
      }
      BatchIsRun(C.Run(s, first), rest);
      RunSplits(s, first, rest);
      assert first + rest == msgs;
    }
  }

  /** However the messages are split into batches, the loop ends in the state they lead to. */
  lemma {:induction false} PollIsRun(s: C.State, batches: seq<seq<C.Msg>>, wantShares: bool)
    requires Smooth(s, Flatten(batches), wantShares) && !Done(s, wantShares)
    ensures Poll(s, batches, wantShares) == Reached(C.Run(s, Flatten(batches)))
    decreases |batches|
  {
    var msgs := Flatten(batches);
    if batches == [] {
    } else {
      var now, later := batches[0], Flatten(batches[1..]);
      assert msgs == now + later;
      forall k | 0 <= k < |now| ensures C.Step(C.Run(s, now[..k]), now[k]).outcome.Ok? {
        assert AcceptedAndOpen(s, msgs, wantShares, k);
        assert msgs[..k] == now[..k];
      }
      BatchIsRun(s, now);
      RunSplits(s, now, later);
      var t := C.Run(s, now);
      if Done(t, wantShares) {
        OpenUntilTheEnd(s, now, later, wantShares);
      } else {
        SmoothRest(s, now, later, wantShares);
        PollIsRun(t, batches[1..], wantShares);
      }
    }
  }

  lemma OpenUntilTheEnd(s: C.State, now: seq<C.Msg>, later: seq<C.Msg>, wantShares: bool)
    requires Smooth(s, now + later, wantShares)
    ensures later != [] ==> !Done(C.Run(s, now), wantShares)
  {
    if later != [] {
      assert AcceptedAndOpen(s, now + later, wantShares, |now|);
      assert (now + later)[..|now|] == now;
    }
  }

  lemma SmoothRest(s: C.State, now: seq<C.Msg>, later: seq<C.Msg>, wantShares: bool)
    requires Smooth(s, now + later, wantShares)
    ensures Smooth(C.Run(s, now), later, wantShares)
  {
    RunSplits(s, now, later);
    forall k | 0 <= k < |later| ensures AcceptedAndOpen(C.Run(s, now), later, wantShares, k) {
      assert AcceptedAndOpen(s, now + later, wantShares, |now| + k);
      assert (now + later)[..|now| + k] == now + later[..k];
      RunSplits(s, now, later[..k]);
    }
  }

  lemma {:induction false} BatchStopsAtRejection(s: C.State, msgs: seq<C.Msg>, k: nat)
    requires k < |msgs| && RecvBatch(s, msgs[..k]).outcome.Ok?
    requires C.Step(RecvBatch(s, msgs[..k]).state, msgs[k]).outcome.Err?
    ensures RecvBatch(s, msgs) == C.Step(RecvBatch(s, msgs[..k]).state, msgs[k])
    decreases k
  {
    hide C.Step;
    if k == 0 {
    } else {
      assert msgs[..k][0] == msgs[0] && msgs[..k][1..] == msgs[1..][..k - 1];
      BatchStopsAtRejection(C.Step(s, msgs[0]).state, msgs[1..], k - 1);
    }
  }

  /** The first message the session rejects ends the loop with its error, whatever else has arrived. */
  lemma RejectionEndsLoop(s: C.State, msgs: seq<C.Msg>, k: nat, more: seq<seq<C.Msg>>, wantShares: bool)
    requires k < |msgs| && RecvBatch(s, msgs[..k]).outcome.Ok?
    requires C.Step(RecvBatch(s, msgs[..k]).state, msgs[k]).outcome.Err?
    ensures var t := RecvBatch(s, msgs[..k]).state;
            Poll(s, [msgs] + more, wantShares) == Failed(t, C.Step(t, msgs[k]).outcome.error)
  {
    hide C.Step;
    BatchStopsAtRejection(s, msgs, k);
    C.RejectionChangesNothing(RecvBatch(s, msgs[..k]).state, msgs[k]);
    assert ([msgs] + more)[0] == msgs;
  }

  lemma {:induction false} OnePerKeySize<V>(writes: seq<(Identifier, V)>)
    requires OnePerKey(writes)
    ensures |KeysOf(writes)| == |writes|
  {
    if writes == [] {
    } else {
      var last := |writes| - 1;
      OnePerKeySize(writes[..last]);
      assert KeysOf(writes) == KeysOf(writes[..last]) + {writes[last].0};
    }
  }

  /** One good vector of commitments from each of as many signers as the session is for. */
  ghost predicate AllCommit(c: Setup, msgs: seq<C.Msg>) {
    && |msgs| == c.numSigners && C.GoodCommitments(c.pubkeys, |c.messages|, msgs)
    && OnePerKey(C.CommitmentWrites(c.pubkeys, msgs))
  }

  lemma CommitmentsBefore(c: Setup, msgs: seq<C.Msg>, k: nat)
    requires AllCommit(c, msgs) && c.numSigners > 0 && k <= |msgs|
    ensures var s := C.Run(C.New(|c.messages|, c.numSigners, c.pubkeys), msgs[..k]);
            var held := Latest(C.CommitmentWrites(c.pubkeys, msgs[..k]));
            && held.Keys == KeysOf(C.CommitmentWrites(c.pubkeys, msgs[..k]))
            && s == if k == |msgs| then C.AwaitingShares(c.Args(), held, c.pubkeys, map[])
                    else C.AwaitingCommitments(c.Args(), held, c.pubkeys)
  {
    var writes := C.CommitmentWrites(c.pubkeys, msgs[..k]);
    assert writes == C.CommitmentWrites(c.pubkeys, msgs)[..k];
    OnePerKeySize(writes);
    LatestKeys(writes);
    assert |Latest(writes)| == |Latest(writes).Keys|;
    if k > 0 {
      assert C.CommitmentWrites(c.pubkeys, msgs[..k][..k - 1]) == writes[..k - 1];
      OnePerKeySize(writes[..k - 1]);
    }
    C.CommitmentsKeepLatest(c.Args(), c.pubkeys, msgs[..k]);
  }

  lemma CommitmentsAreSmooth(c: Setup, msgs: seq<C.Msg>)
    requires AllCommit(c, msgs) && c.numSigners > 0
    ensures Smooth(C.New(|c.messages|, c.numSigners, c.pubkeys), msgs, false)
  {
    forall k | 0 <= k < |msgs| ensures AcceptedAndOpen(C.New(|c.messages|, c.numSigners, c.pubkeys), msgs, false, k) {
      CommitmentsBefore(c, msgs, k);
      assert msgs[k] in msgs;
    }
    CommitmentsBefore(c, msgs, |msgs|);
    assert msgs[..|msgs|] == msgs;
  }

  /** One good vector of shares from everybody that committed. */
  ghost predicate AllShare(s: C.State, msgs: seq<C.Msg>)
    requires s.AwaitingShares?
  {
    && |msgs| == |s.commitments| && C.GoodShares(s, msgs) && OnePerKey(C.ShareWrites(s.pubkeys, msgs))
  }

  lemma SharesHeld(s: C.State, msgs: seq<C.Msg>, k: nat)
    requires s.AwaitingShares? && AllShare(s, msgs) && k <= |msgs|
    ensures var writes := C.ShareWrites(s.pubkeys, msgs[..k]);
            && KeysOf(writes) <= s.commitments.Keys
            && (KeysOf(writes) == s.commitments.Keys <==> k == |msgs|)
  {
    hide C.Run, Latest;
    var writes := C.ShareWrites(s.pubkeys, msgs[..k]);
    assert writes == C.ShareWrites(s.pubkeys, msgs)[..k];
    assert |s.commitments| == |s.commitments.Keys|;
    OnePerKeySize(writes);
    SameSizeSubset(KeysOf(writes), s.commitments.Keys);
  }

  lemma SharesBefore(s: C.State, msgs: seq<C.Msg>, k: nat)
    requires s.AwaitingShares? && s.shares == map[] && s.commitments != map[] && AllShare(s, msgs) && k <= |msgs|
    ensures var t := C.Run(s, msgs[..k]);
            if k == |msgs| then t == C.SharesReady(s.args, Latest(C.ShareWrites(s.pubkeys, msgs)))
            else t.AwaitingShares? && t.args == s.args && t.commitments == s.commitments && t.pubkeys == s.pubkeys
  {
    hide C.Run, Latest, C.ShareWrites;
    SharesHeld(s, msgs, k);
    LatestKeys(C.ShareWrites(s.pubkeys, msgs[..k]));
    if k > 0 {
      assert msgs[..k][..k - 1] == msgs[..k - 1];
      SharesHeld(s, msgs, k - 1);
    }
    assert k == |msgs| ==> msgs[..k] == msgs;
    C.SharesKeepLatest(s, msgs[..k]);
  }

  lemma SharesAreSmooth(s: C.State, msgs: seq<C.Msg>)
    requires s.AwaitingShares? && s.shares == map[] && s.commitments != map[] && AllShare(s, msgs)
    ensures Smooth(s, msgs, true)
  {
    forall k | 0 <= k < |msgs| ensures AcceptedAndOpen(s, msgs, true, k) {
      SharesBefore(s, msgs, k);
      assert msgs[k] in msgs;
    }
    SharesBefore(s, msgs, |msgs|);
    assert msgs[..|msgs|] == msgs;
  }

  /** One good vector of shares from each of the signers that sent `first`. */
  ghost predicate AllAnswer(c: Setup, first: seq<C.Msg>, second: seq<C.Msg>)
    requires AllCommit(c, first)
  {
    && |second| == |first|
    && (forall m | m in second ::
          && m.payload.Shares? && |m.payload.shares| == |c.messages|
          && m.sender in c.pubkeys && c.pubkeys[m.sender] in KeysOf(C.CommitmentWrites(c.pubkeys, first)))
    && OnePerKey(C.ShareWrites(c.pubkeys, second))
  }

  lemma FirstLoopEnds(c: Setup, first: seq<seq<C.Msg>>)
    requires c.numSigners > 0 && 0 < |c.messages| <= 255 && AllCommit(c, Flatten(first))
    ensures GatherCommitments(c, first).Ok?
    ensures var s := GatherCommitments(c, first).value;
            && s == C.AwaitingShares(c.Args(), s.commitments, c.pubkeys, map[])
            && s.commitments.Keys == KeysOf(C.CommitmentWrites(c.pubkeys, Flatten(first)))
            && |s.commitments| == |Flatten(first)|
            && forall m | m in Flatten(first) ::
                 c.pubkeys[m.sender] in s.commitments && s.commitments[c.pubkeys[m.sender]] == m.payload.commitments
  {
    hide C.Run, Latest, C.CommitmentWrites, Flatten, Poll;
    var msgs := Flatten(first);
    CommitmentsAreSmooth(c, msgs);
    PollIsRun(C.New(|c.messages|, c.numSigners, c.pubkeys), first, false);
    CommitmentsBefore(c, msgs, |msgs|);
    assert msgs[..|msgs|] == msgs;
    EachCommitmentKept(c, msgs);
  }

  lemma EachCommitmentKept(c: Setup, msgs: seq<C.Msg>)
    requires AllCommit(c, msgs)
    ensures var held := Latest(C.CommitmentWrites(c.pubkeys, msgs));
            forall m | m in msgs :: c.pubkeys[m.sender] in held && held[c.pubkeys[m.sender]] == m.payload.commitments
  {
    hide Latest;
    var writes := C.CommitmentWrites(c.pubkeys, msgs);
    AllWritesKept(writes);
    forall m | m in msgs
      ensures c.pubkeys[m.sender] in Latest(writes) && Latest(writes)[c.pubkeys[m.sender]] == m.payload.commitments
    {
      var i :| 0 <= i < |msgs| && msgs[i] == m;
      assert writes[i] == (c.pubkeys[m.sender], m.payload.commitments);
    }
  }

  lemma EachShareKept(s: C.State, msgs: seq<C.Msg>)
    requires s.AwaitingShares? && AllShare(s, msgs)
    ensures var held := Latest(C.ShareWrites(s.pubkeys, msgs));
            forall m | m in msgs :: s.pubkeys[m.sender] in held && held[s.pubkeys[m.sender]] == m.payload.shares
  {
    hide Latest;
    var writes := C.ShareWrites(s.pubkeys, msgs);
    AllWritesKept(writes);
    forall m | m in msgs
      ensures s.pubkeys[m.sender] in Latest(writes) && Latest(writes)[s.pubkeys[m.sender]] == m.payload.shares
    {
      var i :| 0 <= i < |msgs| && msgs[i] == m;
      assert writes[i] == (s.pubkeys[m.sender], m.payload.shares);
    }
  }

  lemma AnswersFit(c: Setup, s: C.State, first: seq<C.Msg>, second: seq<C.Msg>)
    requires AllCommit(c, first) && AllAnswer(c, first, second)
    requires s.AwaitingShares? && s.pubkeys == c.pubkeys && s.args == c.Args() && |s.commitments| == |first|
    requires s.commitments.Keys == KeysOf(C.CommitmentWrites(c.pubkeys, first))
    ensures AllShare(s, second)
  {
  }

  /** Whether message `m` can be aggregated from its own package, shares and randomizer. */
  predicate Aggregates(c: Setup, args: SignArgs, shares: seq<map<Identifier, C.Share>>, m: nat)
    requires m < |args.packages| && m < |shares| && (args.randomizers != [] ==> m < |args.randomizers|)
  {
    if args.randomizers == [] then c.crypto.aggregate(args.packages[m], shares[m], c.publicKey).Ok?
    else c.crypto.aggregateRandomized(args.packages[m], shares[m], c.publicKey, args.randomizers[m]).Ok?
  }

  lemma AggregateSucceedsWhenEachDoes(c: Setup, args: SignArgs, shares: seq<map<Identifier, C.Share>>)
    requires |args.packages| == |shares| && (args.randomizers != [] ==> |args.randomizers| == |shares|)
    ensures Aggregate(c, args, shares).Ok? <==> forall m: nat | m < |shares| :: Aggregates(c, args, shares, m)
  {
    var n := |shares|;
    var results: seq<Result<Signature, Error>>;
    if args.randomizers == [] {
      results := seq(n, i requires 0 <= i < n => c.crypto.aggregate(args.packages[i], shares[i], c.publicKey));
    } else {
      results := seq(n, i requires 0 <= i < n =>
        c.crypto.aggregateRandomized(args.packages[i], shares[i], c.publicKey, args.randomizers[i]));
    }
    assert Aggregate(c, args, shares) == Gather(results);
    forall m: nat | m < n ensures Aggregates(c, args, shares, m) <==> results[m].Ok? {
    }
  }

  /**
   * If as many signers as required commit once and each then answers the request once, in any
   * order and in any batches, both loops end, with what those signers sent; and the session
   * completes, with a signature per message, just when aggregation succeeds on every message's
   * own package and the shares gathered for it.
   */
  lemma AnsweredSessionCompletes(c: Setup, first: seq<seq<C.Msg>>, second: seq<seq<C.Msg>>)
    requires c.numSigners > 0 && 0 < |c.messages| <= 255
    requires c.randomizers == [] || |c.randomizers| == |c.messages|
    requires AllCommit(c, Flatten(first)) && AllAnswer(c, Flatten(first), Flatten(second))
    ensures GatherCommitments(c, first).Ok?
    ensures GatherShares(c, GatherCommitments(c, first).value, second).Ok?
    ensures var args := Request(c, GatherCommitments(c, first).value);
            var shares := GatherShares(c, GatherCommitments(c, first).value, second).value;
            && |args.packages| == |shares| == |c.messages| && args.randomizers == c.randomizers
            && (forall i | 0 <= i < |shares| :: shares[i].Keys == args.packages[i].commitments.Keys)
            && (forall i, m | 0 <= i < |shares| && m in Flatten(first) ::
                  var id := c.pubkeys[m.sender];
                  id in shares[i] && args.packages[i].commitments[id] == m.payload.commitments[i])
            && (forall i, m | 0 <= i < |shares| && m in Flatten(second) ::
                  var id := c.pubkeys[m.sender];
                  id in shares[i] && shares[i][id] == m.payload.shares[i])
            && (Coordinate(c, first, second).Ok? <==> forall m: nat | m < |shares| :: Aggregates(c, args, shares, m))
            && (Coordinate(c, first, second).Ok? ==>
                  |Coordinate(c, first, second).value.signatures| == |c.messages|)
  {
    hide C.Run, Latest, C.ShareWrites, C.CommitmentWrites, Flatten, Poll, Aggregate, Aggregates;
    FirstLoopEnds(c, first);
    var s := GatherCommitments(c, first).value;
    SecondLoopEnds(c, s, Flatten(first), second);
    var args, shares := Request(c, s), GatherShares(c, s, second).value;
    AggregateSucceedsWhenEachDoes(c, args, shares);
    if Aggregate(c, args, shares).Ok? { AggregateLength(c, args, shares); }
  }

  lemma AggregateLength(c: Setup, args: SignArgs, shares: seq<map<Identifier, C.Share>>)
    requires |args.packages| == |shares| && (args.randomizers != [] ==> |args.randomizers| == |shares|)
    requires Aggregate(c, args, shares).Ok?
    ensures |Aggregate(c, args, shares).value| == |shares|
  {
  }

  lemma SecondLoopEnds(c: Setup, s: C.State, first: seq<C.Msg>, second: seq<seq<C.Msg>>)
    requires c.numSigners > 0 && AllCommit(c, first) && AllAnswer(c, first, Flatten(second))
    requires s.AwaitingShares? && C.Invariant(c.Args(), c.pubkeys, s) && s.shares == map[]
    requires |s.commitments| == |first| && s.commitments.Keys == KeysOf(C.CommitmentWrites(c.pubkeys, first))
    ensures GatherShares(c, s, second).Ok?
    ensures var shares := GatherShares(c, s, second).value;
            && |shares| == |c.messages|
            && (forall i | 0 <= i < |shares| :: shares[i].Keys == s.commitments.Keys)
            && forall i, m | 0 <= i < |shares| && m in Flatten(second) ::
                 c.pubkeys[m.sender] in shares[i] && shares[i][c.pubkeys[m.sender]] == m.payload.shares[i]
  {
    hide C.Run, Latest, C.ShareWrites, C.CommitmentWrites, Flatten, Poll;
    var msgs := Flatten(second);
    AnswersFit(c, s, first, msgs);
    SharesAreSmooth(s, msgs);
    PollIsRun(s, second, true);
    PollKeepsInvariant(c.Args(), c.pubkeys, s, second, true);
    C.CommitmentsAreFrozen(s, msgs);
    SharesBefore(s, msgs, |msgs|);
    assert msgs[..|msgs|] == msgs;
    EachShareKept(s, msgs);
  }
}
