/**
 * A session all of whose signers are honest: what each of them sends is fixed by its nonces and
 * its key, and so is everything that follows.
 */
module SigningHonest {
  import opened Wrappers
  import opened Identities
  import opened Collecting
  import C = CoordinatorSession
  import opened Signing
  import opened SigningCompletion

  /** Every signer is in the session and known to be honest, and they are as many as required. */
  ghost predicate Complete(c: Setup, ks: set<PublicKey>) {
    && c.Valid() && ks <= c.signers.Keys && |ks| == c.numSigners && c.numSigners > 0
    && 0 < |c.messages| <= 255 && (c.randomizers == [] || |c.randomizers| == |c.messages|)
  }

  /** Exactly one message from each of the signers. */
  ghost predicate OneFromEach(ks: set<PublicKey>, msgs: seq<C.Msg>) {
    && |msgs| == |ks| && (forall m | m in msgs :: m.sender in ks)
    && forall i, j | 0 <= i < j < |msgs| :: msgs[i].sender != msgs[j].sender
  }

  ghost function Ids(c: Setup, ks: set<PublicKey>): set<Identifier>
    requires ks <= c.pubkeys.Keys
  {
    set k | k in ks :: c.pubkeys[k]
  }

  /** Package `i` is for message `i`, with every signer's commitment to its own nonce for it. */
  ghost predicate IsRequest(c: Setup, ks: set<PublicKey>, args: SignArgs)
    requires Complete(c, ks)
  {
    && |args.packages| == |c.messages| && args.randomizers == c.randomizers
    && forall i | 0 <= i < |c.messages| ::
         && args.packages[i].message == c.messages[i]
         && args.packages[i].commitments.Keys == Ids(c, ks)
         && forall k | k in ks :: args.packages[i].commitments[c.pubkeys[k]] == c.crypto.commit(c.signers[k].nonces[i])
  }

  /** What signer `k` makes of package `i`, its own nonce for it, its key and that randomizer. */
  function SingleSignature(c: Setup, args: SignArgs, k: PublicKey, i: nat): Result<C.Share, Error>
    requires c.Valid() && k in c.signers && i < |c.messages| && i < |args.packages|
    requires c.randomizers == [] || |c.randomizers| == |c.messages|
  {
    if c.randomizers == [] then c.crypto.sign(args.packages[i], c.signers[k].nonces[i], c.signers[k].key)
    else c.crypto.signRandomized(args.packages[i], c.signers[k].nonces[i], c.signers[k].key, c.randomizers[i])
  }

  ghost function Senders(msgs: seq<C.Msg>): set<PublicKey> {
    set m | m in msgs :: m.sender
  }

  /** The senders of one message from each of the signers are the signers. */
  lemma {:induction false} SendersAreSigners(ks: set<PublicKey>, msgs: seq<C.Msg>)
    requires OneFromEach(ks, msgs)
    ensures Senders(msgs) == ks
    decreases |msgs|
  {
    if msgs == [] {
    } else {
      var last := |msgs| - 1;
      var x := msgs[last].sender;
      assert msgs[last] in msgs;
      SendersAreSigners(ks - {x}, msgs[..last]);
      forall k | k in ks ensures k in Senders(msgs) {
        if k != x {
          assert k in Senders(msgs[..last]);
          var m :| m in msgs[..last] && m.sender == k;
          assert m in msgs;
        }
      }
    }
  }

  lemma EachSignerSent(c: Setup, ks: set<PublicKey>, msgs: seq<C.Msg>, k: PublicKey) returns (m: C.Msg)
    requires OneFromEach(ks, msgs) && k in ks
    ensures m in msgs && m.sender == k
  {
    SendersAreSigners(ks, msgs);
    assert k in Senders(msgs);
    m :| m in msgs && m.sender == k;
  }

  lemma KeysAreIds(c: Setup, ks: set<PublicKey>, msgs: seq<C.Msg>)
    requires Complete(c, ks) && OneFromEach(ks, msgs)
    requires forall m | m in msgs :: m.payload == C.Commitments(CommitmentsOf(c, m.sender))
    ensures AllCommit(c, msgs)
    ensures KeysOf(C.CommitmentWrites(c.pubkeys, msgs)) == Ids(c, ks)
  {
    var writes := C.CommitmentWrites(c.pubkeys, msgs);
    forall id | id in Ids(c, ks) ensures id in KeysOf(writes) {
      var k :| k in ks && c.pubkeys[k] == id;
      var m := EachSignerSent(c, ks, msgs, k);
      var i :| 0 <= i < |msgs| && msgs[i] == m;
      assert writes[i] in writes;
    }
    forall w | w in writes ensures w.0 in Ids(c, ks) {
      var i :| 0 <= i < |writes| && writes[i] == w;
      assert msgs[i] in msgs;
    }
  }

  /** Once every signer has committed, the request is fixed by the nonces. */
  lemma RequestIsFixed(c: Setup, ks: set<PublicKey>, first: seq<seq<C.Msg>>)
    requires Complete(c, ks) && OneFromEach(ks, Flatten(first))
    requires forall m | m in Flatten(first) :: m.payload == C.Commitments(CommitmentsOf(c, m.sender))
    ensures AllCommit(c, Flatten(first)) && GatherCommitments(c, first).Ok?
    ensures IsRequest(c, ks, Request(c, GatherCommitments(c, first).value))
  {
    hide Flatten, GatherCommitments, C.CommitmentWrites, Request, CommitmentsOf;
    KeysAreIds(c, ks, Flatten(first));
    FirstLoopEnds(c, first);
    RequestOfHeld(c, ks, Flatten(first), GatherCommitments(c, first).value);
  }

  lemma RequestOfHeld(c: Setup, ks: set<PublicKey>, msgs: seq<C.Msg>, s: C.State)
    requires Complete(c, ks) && OneFromEach(ks, msgs)
    requires forall m | m in msgs :: m.payload == C.Commitments(CommitmentsOf(c, m.sender))
    requires s.AwaitingShares? && C.Invariant(c.Args(), c.pubkeys, s) && s.commitments.Keys == Ids(c, ks)
    requires forall m | m in msgs ::
               c.pubkeys[m.sender] in s.commitments && s.commitments[c.pubkeys[m.sender]] == m.payload.commitments
    ensures IsRequest(c, ks, Request(c, s))
  {
    hide CommitmentsOf, C.Invariant;
    var args := Request(c, s);
    forall k | k in ks
      ensures c.pubkeys[k] in s.commitments && s.commitments[c.pubkeys[k]] == CommitmentsOf(c, k)
    {
      var m := EachSignerSent(c, ks, msgs, k);
    }
    forall i, k | 0 <= i < |c.messages| && k in ks
      ensures args.packages[i].commitments[c.pubkeys[k]] == c.crypto.commit(c.signers[k].nonces[i])
    {
      CommitmentAt(c, k, i);
    }
  }

  lemma CommitmentAt(c: Setup, k: PublicKey, i: nat)
    requires c.Valid() && k in c.signers && i < |c.messages|
    ensures |CommitmentsOf(c, k)| == |c.messages| && CommitmentsOf(c, k)[i] == c.crypto.commit(c.signers[k].nonces[i])
  {
  }

  lemma OneRequest(c: Setup, ks: set<PublicKey>, a: SignArgs, b: SignArgs)
    requires Complete(c, ks) && IsRequest(c, ks, a) && IsRequest(c, ks, b)
    ensures a == b
  {
    forall i | 0 <= i < |c.messages| ensures a.packages[i] == b.packages[i] {
      forall id | id in Ids(c, ks) ensures a.packages[i].commitments[id] == b.packages[i].commitments[id] {
        var k :| k in ks && c.pubkeys[k] == id;
      }
      assert a.packages[i].commitments == b.packages[i].commitments;
    }
    assert a.packages == b.packages;
  }

  /** A signer whose single signatures succeed answers with exactly these. */
  lemma SignerAnswers(c: Setup, ks: set<PublicKey>, args: SignArgs, k: PublicKey)
    requires Complete(c, ks) && IsRequest(c, ks, args) && k in ks
    ensures var r := GenerateSignature(c.crypto, args, c.signers[k].key, c.signers[k].nonces);
            && (r.Ok? <==> forall i: nat | i < |c.messages| :: SingleSignature(c, args, k, i).Ok?)
            && (r.Ok? ==> |r.value| == |c.messages|
                          && forall i: nat | i < |c.messages| :: SingleSignature(c, args, k, i) == Ok(r.value[i]))
  {
    hide GenerateSignature;
    var key, nonces := c.signers[k].key, c.signers[k].nonces;
    SignsWhenEachDoes(c.crypto, args, key, nonces);
    if GenerateSignature(c.crypto, args, key, nonces).Ok? {
      SharesLineUp(c.crypto, args, key, nonces);
    } else {
      var i :| 0 <= i < |nonces|
               && !(if args.randomizers == [] then c.crypto.sign(args.packages[i], nonces[i], key).Ok?
                    else c.crypto.signRandomized(args.packages[i], nonces[i], key, args.randomizers[i]).Ok?);
      assert SingleSignature(c, args, k, i).Err?;
    }
  }

  /** Every signer has sent its commitments, and then its signatures for the request. */
  ghost predicate AllSign(c: Setup, ks: set<PublicKey>, args: SignArgs, first: seq<C.Msg>, second: seq<C.Msg>)
    requires Complete(c, ks)
  {
    && OneFromEach(ks, first) && OneFromEach(ks, second)
    && (forall m | m in first :: m.payload == C.Commitments(CommitmentsOf(c, m.sender)))
    && (forall m | m in second :: m.payload.Shares? && HonestShares(c, args, m.sender, m.payload.shares))
  }

  lemma AnswersArrive(c: Setup, ks: set<PublicKey>, args: SignArgs, first: seq<C.Msg>, second: seq<C.Msg>)
    requires Complete(c, ks) && IsRequest(c, ks, args) && AllSign(c, ks, args, first, second)
    ensures AllCommit(c, first) && AllAnswer(c, first, second)
  {
    hide GenerateSignature, C.CommitmentWrites;
    KeysAreIds(c, ks, first);
    forall m | m in second ensures |m.payload.shares| == |c.messages| && c.pubkeys[m.sender] in Ids(c, ks) {
      SignerAnswers(c, ks, args, m.sender);
    }
  }

  /**
   * When every signer commits and then signs, in any order and in any batches, the request sent
   * is the one the nonces fix, the shares gathered for a message are the signers' own signatures
   * for it, and the session completes just when these aggregate, message by message.
   */
  lemma HonestSessionCompletes(c: Setup, ks: set<PublicKey>, args: SignArgs,
                               first: seq<seq<C.Msg>>, second: seq<seq<C.Msg>>)
    requires Complete(c, ks) && IsRequest(c, ks, args) && AllSign(c, ks, args, Flatten(first), Flatten(second))
    ensures GatherCommitments(c, first).Ok? && Request(c, GatherCommitments(c, first).value) == args
    ensures GatherShares(c, GatherCommitments(c, first).value, second).Ok?
    ensures var shares := GatherShares(c, GatherCommitments(c, first).value, second).value;
            && |shares| == |c.messages|
            && (forall i: nat | i < |c.messages| ::
                  && shares[i].Keys == Ids(c, ks)
                  && forall k | k in ks :: SingleSignature(c, args, k, i) == Ok(shares[i][c.pubkeys[k]]))
            && (Coordinate(c, first, second).Ok? <==>
                  forall i: nat | i < |c.messages| :: Aggregates(c, args, shares, i))
            && (Coordinate(c, first, second).Ok? ==>
                  |Coordinate(c, first, second).value.signatures| == |c.messages|)
  {
    hide Flatten, GatherCommitments, GatherShares, Coordinate, Request, Aggregates;
    hide GenerateSignature, C.CommitmentWrites;
    RequestIsFixed(c, ks, first);
    var s := GatherCommitments(c, first).value;
    OneRequest(c, ks, args, Request(c, s));
    AnswersArrive(c, ks, args, Flatten(first), Flatten(second));
    AnsweredSessionCompletes(c, first, second);
    var shares := GatherShares(c, s, second).value;
    forall i: nat, k | i < |c.messages| && k in ks
      ensures c.pubkeys[k] in shares[i] && SingleSignature(c, args, k, i) == Ok(shares[i][c.pubkeys[k]])
    {
      var m := EachSignerSent(c, ks, Flatten(second), k);
      SignerAnswers(c, ks, args, k);
    }
  }
}
