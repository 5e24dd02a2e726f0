/**
 * The coordinator's signing session: collect one vector of commitments per signer, freeze them,
 * collect one vector of signature shares from each of the same signers, and hand both out
 * message by message.
 */
module CoordinatorSession {
  import opened Wrappers
  import opened Identities
  import opened Collecting

  type Commitment(==, !new, 0)
  type Share(==, !new, 0)

  datatype Payload = Commitments(commitments: seq<Commitment>) | Shares(shares: seq<Share>) | Garbage

  datatype Msg = Msg(sender: PublicKey, payload: Payload)

  datatype Error = ParseError | WrongCount | UnknownParticipant | InvalidIdentifier | WrongState

  datatype Args = Args(numMessages: nat, numSigners: nat)

  datatype State =
    | AwaitingCommitments(args: Args, commitments: map<Identifier, seq<Commitment>>,
                          pubkeys: map<PublicKey, Identifier>)
    | AwaitingShares(args: Args, commitments: map<Identifier, seq<Commitment>>,
                     pubkeys: map<PublicKey, Identifier>, shares: map<Identifier, seq<Share>>)
    | SharesReady(args: Args, shares: map<Identifier, seq<Share>>)

  datatype Reply = Reply(state: State, outcome: Result<(), Error>)

  // ------------------------------------------------------------------ the machine

  function New(numMessages: nat, numSigners: nat, pubkeys: map<PublicKey, Identifier>): State {
    AwaitingCommitments(Args(numMessages, numSigners), map[], pubkeys)
  }

  function OnCommitments(s: State, sender: PublicKey, vector: seq<Commitment>): Reply
    requires s.AwaitingCommitments?
  {
    if |vector| != s.args.numMessages then Reply(s, Err(WrongCount))
    else if sender !in s.pubkeys then Reply(s, Err(UnknownParticipant))
    else
      var commitments := s.commitments[s.pubkeys[sender] := vector];
      if |commitments| == s.args.numSigners then
        Reply(AwaitingShares(s.args, commitments, s.pubkeys, map[]), Ok(()))
      else Reply(AwaitingCommitments(s.args, commitments, s.pubkeys), Ok(()))
  }

  function OnShares(s: State, sender: PublicKey, vector: seq<Share>): Reply
    requires s.AwaitingShares?
  {
    if |vector| != s.args.numMessages then Reply(s, Err(WrongCount))
    else if sender !in s.pubkeys then Reply(s, Err(UnknownParticipant))
    else if s.pubkeys[sender] !in s.commitments then Reply(s, Err(InvalidIdentifier))
    else
      var shares := s.shares[s.pubkeys[sender] := vector];
      if shares.Keys == s.commitments.Keys then Reply(SharesReady(s.args, shares), Ok(()))
      else Reply(AwaitingShares(s.args, s.commitments, s.pubkeys, shares), Ok(()))
  }

  function Step(s: State, msg: Msg): Reply {
    match s
    case AwaitingCommitments(_, _, _) =>
      if msg.payload.Commitments? then OnCommitments(s, msg.sender, msg.payload.commitments)
      else Reply(s, Err(ParseError))
    case AwaitingShares(_, _, _, _) =>
      if msg.payload.Shares? then OnShares(s, msg.sender, msg.payload.shares) else Reply(s, Err(ParseError))
    case SharesReady(_, _) => Reply(s, Err(WrongState))
  }

  function Run(s: State, msgs: seq<Msg>): State {
    if msgs == [] then s
    else Step(Run(s, msgs[..|msgs| - 1]), msgs[|msgs| - 1]).state
  }

  predicate HasCommitments(s: State) { s.AwaitingShares? }

  predicate HasShares(s: State) { s.SharesReady? }

  // ------------------------------------------------------------------ transposition

  /** One map per message, out of one vector per signer. */
  function Transpose<V>(vectors: map<Identifier, seq<V>>, count: nat): (byMessage: seq<map<Identifier, V>>)
    requires forall id | id in vectors :: count <= |vectors[id]|
  {
    seq(count, i requires 0 <= i < count => map id | id in vectors :: vectors[id][i])
  }

  /** The vectors that were transposed; this needs to be told who they were for. */
  function Collect<V>(byMessage: seq<map<Identifier, V>>, ids: set<Identifier>): map<Identifier, seq<V>>
    requires forall m | m in byMessage :: m.Keys == ids
  {
    map id | id in ids :: seq(|byMessage|, i requires 0 <= i < |byMessage| => byMessage[i][id])
  }

  /** There is one value per message, and they can be got back from the maps. */
  ghost predicate NothingLost<V>(vectors: map<Identifier, seq<V>>, count: nat) {
    && Shaped(vectors, count)
    && (forall m | m in Transpose(vectors, count) :: m.Keys == vectors.Keys)
    && Collect(Transpose(vectors, count), vectors.Keys) == vectors
  }

  /** Transposing moves every entry to its place and can be undone, so it loses nothing. */
  lemma TransposeIsExact<V>(vectors: map<Identifier, seq<V>>, count: nat)
    requires Shaped(vectors, count)
    ensures var t := Transpose(vectors, count);
            && |t| == count
            && (forall i | 0 <= i < count :: t[i].Keys == vectors.Keys)
            && (forall i, id | 0 <= i < count && id in vectors :: t[i][id] == vectors[id][i])
            && NothingLost(vectors, count)
  {
    var t := Transpose(vectors, count);
    assert forall m | m in t :: m.Keys == vectors.Keys;
    var back := Collect(t, vectors.Keys);
    forall id | id in vectors ensures back[id] == vectors[id] {
      assert |back[id]| == |vectors[id]|;
    }
  }

  // ------------------------------------------------------------------ invariant

  ghost predicate Shaped<V>(vectors: map<Identifier, seq<V>>, count: nat) {
    forall id | id in vectors :: |vectors[id]| == count
  }

  /** What holds of a session for `args` among `pubkeys`, phase by phase. */
  ghost predicate Invariant(args: Args, pubkeys: map<PublicKey, Identifier>, s: State) {
    && s.args == args
    && match s
       case AwaitingCommitments(_, commitments, keys) =>
         && keys == pubkeys && Shaped(commitments, args.numMessages) && commitments.Keys <= pubkeys.Values
         && (args.numSigners > 0 ==> |commitments| < args.numSigners)
       case AwaitingShares(_, commitments, keys, shares) =>
         && keys == pubkeys && Shaped(commitments, args.numMessages) && commitments.Keys <= pubkeys.Values
         && |commitments| == args.numSigners && args.numSigners > 0
         && Shaped(shares, args.numMessages) && shares.Keys < commitments.Keys
       case SharesReady(_, shares) =>
         && Shaped(shares, args.numMessages) && shares.Keys <= pubkeys.Values
         && |shares| == args.numSigners && args.numSigners > 0
  }

  lemma StepKeepsInvariant(args: Args, pubkeys: map<PublicKey, Identifier>, s: State, msg: Msg)
    requires Invariant(args, pubkeys, s)
    ensures Invariant(args, pubkeys, Step(s, msg).state)
  {
    match s
    case AwaitingCommitments(_, commitments, _) =>
      if msg.payload.Commitments? && msg.sender in pubkeys {
        var after := commitments[pubkeys[msg.sender] := msg.payload.commitments];
        assert after.Keys == commitments.Keys + {pubkeys[msg.sender]};
        assert |after| == |after.Keys| && |commitments| == |commitments.Keys|;
      }
    case AwaitingShares(_, commitments, _, shares) =>
      if msg.payload.Shares? && msg.sender in pubkeys {
        var after := shares[pubkeys[msg.sender] := msg.payload.shares];
        assert |after| == |after.Keys| && |commitments| == |commitments.Keys|;
      }
    case SharesReady(_, _) =>
  }

  lemma {:induction false} RunKeepsInvariant(args: Args, pubkeys: map<PublicKey, Identifier>, s: State, msgs: seq<Msg>)
    requires Invariant(args, pubkeys, s)
    ensures Invariant(args, pubkeys, Run(s, msgs))
  {
    if msgs == [] {
    } else {
      var last := |msgs| - 1;
      RunKeepsInvariant(args, pubkeys, s, msgs[..last]);
      StepKeepsInvariant(args, pubkeys, Run(s, msgs[..last]), msgs[last]);
    }
  }

  /** A message that is answered with an error leaves the session as it was. */
  lemma RejectionChangesNothing(s: State, msg: Msg)
    requires Step(s, msg).outcome.Err?
    ensures Step(s, msg).state == s
  {
  }

  /** A vector is accepted just when it is of the right kind and length and from a signer in question. */
  lemma AcceptedExactly(args: Args, pubkeys: map<PublicKey, Identifier>, s: State, msg: Msg)
    requires Invariant(args, pubkeys, s)
    ensures var outcome := Step(s, msg).outcome;
            match s
            case AwaitingCommitments(_, _, _) =>
              outcome.Ok? <==> msg.payload.Commitments? && |msg.payload.commitments| == args.numMessages
                               && msg.sender in pubkeys
            case AwaitingShares(_, commitments, _, _) =>
              outcome.Ok? <==> msg.payload.Shares? && |msg.payload.shares| == args.numMessages
                               && msg.sender in pubkeys && pubkeys[msg.sender] in commitments
            case SharesReady(_, _) => outcome == Err(WrongState)
  {
  }

  /** Once commitments are in they do not change, and the shares close on the same signers. */
  lemma {:induction false} CommitmentsAreFrozen(s: State, msgs: seq<Msg>)
    requires s.AwaitingShares?
    ensures match Run(s, msgs)
            case AwaitingCommitments(_, _, _) => false
            case AwaitingShares(_, commitments, _, _) => commitments == s.commitments
            case SharesReady(_, shares) => shares.Keys == s.commitments.Keys
  {
    if msgs == [] {
    } else {
      CommitmentsAreFrozen(s, msgs[..|msgs| - 1]);
    }
  }

  /**
   * Over any run: once commitments are in, exactly `numSigners` signers have one per message, and
   * handing them out by message loses none; the shares end up with those same signers and that
   * same shape.
   */
  lemma SharesMatchCommitments(args: Args, pubkeys: map<PublicKey, Identifier>, s: State, msgs: seq<Msg>)
    requires Invariant(args, pubkeys, s) && s.AwaitingShares? && Run(s, msgs).SharesReady?
    ensures var shares := Run(s, msgs).shares;
            && shares.Keys == s.commitments.Keys && |s.commitments| == args.numSigners
            && NothingLost(s.commitments, args.numMessages) && NothingLost(shares, args.numMessages)
  {
    hide Run;
    CommitmentsAreFrozen(s, msgs);
    RunKeepsInvariant(args, pubkeys, s, msgs);
    TransposeIsExact(s.commitments, args.numMessages);
    TransposeIsExact(Run(s, msgs).shares, args.numMessages);
  }

  // ------------------------------------------------------------------ delivery order

  ghost predicate GoodCommitments(pubkeys: map<PublicKey, Identifier>, count: nat, msgs: seq<Msg>) {
    forall m | m in msgs :: m.payload.Commitments? && |m.payload.commitments| == count && m.sender in pubkeys
  }

  ghost function CommitmentWrites(pubkeys: map<PublicKey, Identifier>, msgs: seq<Msg>)
    : (w: seq<(Identifier, seq<Commitment>)>)
    requires forall m | m in msgs :: m.payload.Commitments? && m.sender in pubkeys
    ensures |w| == |msgs|
  {
    seq(|msgs|, i requires 0 <= i < |msgs| => (pubkeys[msgs[i].sender], msgs[i].payload.commitments))
  }

  /** While signers are missing the last vector of each is the one held; the last signer closes. */
  lemma {:induction false} CommitmentsKeepLatest(args: Args, pubkeys: map<PublicKey, Identifier>, msgs: seq<Msg>)
    requires GoodCommitments(pubkeys, args.numMessages, msgs) && args.numSigners > 0
    requires msgs != [] ==> |KeysOf(CommitmentWrites(pubkeys, msgs[..|msgs| - 1]))| < args.numSigners
    ensures var held := Latest(CommitmentWrites(pubkeys, msgs));
            Run(New(args.numMessages, args.numSigners, pubkeys), msgs)
            == if |held| == args.numSigners then AwaitingShares(args, held, pubkeys, map[])
               else AwaitingCommitments(args, held, pubkeys)
  {
    if msgs == [] {
    } else {
      var last := |msgs| - 1;
      var writes := CommitmentWrites(pubkeys, msgs);
      assert writes[..last] == CommitmentWrites(pubkeys, msgs[..last]);
      LatestKeys(writes[..last]);
      assert |Latest(writes[..last])| == |Latest(writes[..last]).Keys|;
      if last > 0 {
        assert msgs[..last][..last - 1] == msgs[..last - 1];
        assert writes[..last - 1] == CommitmentWrites(pubkeys, msgs[..last - 1]);
        assert KeysOf(writes[..last - 1]) <= KeysOf(writes[..last]);
        SameSizeSubset(KeysOf(writes[..last - 1]), KeysOf(writes[..last]));
      }
      CommitmentsKeepLatest(args, pubkeys, msgs[..last]);
    }
  }

  /** One vector per signer: the session they leave does not depend on the order they came in. */
  lemma CommitmentsIgnoreOrder(args: Args, pubkeys: map<PublicKey, Identifier>, a: seq<Msg>, b: seq<Msg>)
    requires GoodCommitments(pubkeys, args.numMessages, a) && GoodCommitments(pubkeys, args.numMessages, b)
    requires OnePerKey(CommitmentWrites(pubkeys, a)) && OnePerKey(CommitmentWrites(pubkeys, b))
    requires |a| <= args.numSigners && |b| <= args.numSigners && args.numSigners > 0
    requires forall m :: m in a <==> m in b
    ensures var start := New(args.numMessages, args.numSigners, pubkeys); Run(start, a) == Run(start, b)
  {
    hide Run, Latest;
    var writesA, writesB := CommitmentWrites(pubkeys, a), CommitmentWrites(pubkeys, b);
    KeysAtMost(writesA);
    KeysAtMost(writesB);
    assert a != [] ==> writesA[..|a| - 1] == CommitmentWrites(pubkeys, a[..|a| - 1]);
    assert b != [] ==> writesB[..|b| - 1] == CommitmentWrites(pubkeys, b[..|b| - 1]);
    CommitmentsKeepLatest(args, pubkeys, a);
    CommitmentsKeepLatest(args, pubkeys, b);
    SameWrites(a, b, writesA, writesB);
    LatestIgnoresOrder(writesA, writesB);
  }

  lemma {:induction false} KeysAtMost<V>(writes: seq<(Identifier, V)>)
    ensures |KeysOf(writes)| <= |writes|
    ensures writes != [] ==> |KeysOf(writes[..|writes| - 1])| < |writes|
  {
    if writes == [] {
    } else {
      var last := |writes| - 1;
      KeysAtMost(writes[..last]);
      assert KeysOf(writes) == KeysOf(writes[..last]) + {writes[last].0};
    }
  }

  ghost predicate GoodShares(s: State, msgs: seq<Msg>)
    requires s.AwaitingShares?
  {
    forall m | m in msgs ::
      && m.payload.Shares? && |m.payload.shares| == s.args.numMessages
      && m.sender in s.pubkeys && s.pubkeys[m.sender] in s.commitments
  }

  ghost function ShareWrites(pubkeys: map<PublicKey, Identifier>, msgs: seq<Msg>)
    : (w: seq<(Identifier, seq<Share>)>)
    requires forall m | m in msgs :: m.payload.Shares? && m.sender in pubkeys
    ensures |w| == |msgs|
  {
    seq(|msgs|, i requires 0 <= i < |msgs| => (pubkeys[msgs[i].sender], msgs[i].payload.shares))
  }

  /** The same for shares, which close on exactly the signers that committed. */
  lemma {:induction false} SharesKeepLatest(s: State, msgs: seq<Msg>)
    requires s.AwaitingShares? && s.shares == map[] && s.commitments != map[] && GoodShares(s, msgs)
    requires msgs != [] ==> KeysOf(ShareWrites(s.pubkeys, msgs[..|msgs| - 1])) != s.commitments.Keys
    ensures var held := Latest(ShareWrites(s.pubkeys, msgs));
            Run(s, msgs)
            == if held.Keys == s.commitments.Keys then SharesReady(s.args, held)
               else AwaitingShares(s.args, s.commitments, s.pubkeys, held)
  {
    if msgs != [] {
      var last := |msgs| - 1;
      var writes := ShareWrites(s.pubkeys, msgs);
      assert writes[..last] == ShareWrites(s.pubkeys, msgs[..last]);
      LatestKeys(writes[..last]);
      if last > 0 {
        assert msgs[..last][..last - 1] == msgs[..last - 1];
        assert writes[..last - 1] == ShareWrites(s.pubkeys, msgs[..last - 1]);
        assert KeysOf(writes[..last - 1]) <= KeysOf(writes[..last]) <= s.commitments.Keys;
      }
      SharesKeepLatest(s, msgs[..last]);
    } else {
      assert Latest(ShareWrites(s.pubkeys, msgs)) == map[];
    }
  }

  /** One share vector per signer: their order does not matter either. */
  lemma SharesIgnoreOrder(s: State, a: seq<Msg>, b: seq<Msg>)
    requires s.AwaitingShares? && s.shares == map[] && s.commitments != map[]
    requires GoodShares(s, a) && GoodShares(s, b) && forall m :: m in a <==> m in b
    requires OnePerKey(ShareWrites(s.pubkeys, a)) && OnePerKey(ShareWrites(s.pubkeys, b))
    ensures Run(s, a) == Run(s, b)
  {
    hide Run, Latest;
    var writesA, writesB := ShareWrites(s.pubkeys, a), ShareWrites(s.pubkeys, b);
    SameCollection(a, b, writesA, writesB, s.commitments.Keys);
    assert a != [] ==> writesA[..|a| - 1] == ShareWrites(s.pubkeys, a[..|a| - 1]);
    assert b != [] ==> writesB[..|b| - 1] == ShareWrites(s.pubkeys, b[..|b| - 1]);
    SharesKeepLatest(s, a);
    SharesKeepLatest(s, b);
  }

  // ------------------------------------------------------------------ the machine, in place

  /** The session object: its state is replaced by each message it handles. */
  class Session {
    var state: State

    constructor (numMessages: nat, numSigners: nat, pubkeys: map<PublicKey, Identifier>)
      ensures state == New(numMessages, numSigners, pubkeys)
    {
      state := AwaitingCommitments(Args(numMessages, numSigners), map[], pubkeys);
    }

    method Recv(msg: Msg) returns (r: Result<(), Error>)
      modifies this
      ensures Reply(state, r) == Step(old(state), msg)
    {
      match state
      case AwaitingCommitments(_, _, _) =>
        if !msg.payload.Commitments? { return Err(ParseError); }
        r := HandleCommitments(msg.sender, msg.payload.commitments);
      case AwaitingShares(_, _, _, _) =>
        if !msg.payload.Shares? { return Err(ParseError); }
        r := HandleSignatureShare(msg.sender, msg.payload.shares);
      case SharesReady(_, _) =>
        return Err(WrongState);
    }

    method HandleCommitments(sender: PublicKey, vector: seq<Commitment>) returns (r: Result<(), Error>)
      requires state.AwaitingCommitments?
      modifies this
      ensures Reply(state, r) == OnCommitments(old(state), sender, vector)
    {
      if |vector| != state.args.numMessages { return Err(WrongCount); }
      if sender !in state.pubkeys { return Err(UnknownParticipant); }
      var identifier := state.pubkeys[sender];
      state := AwaitingCommitments(state.args, state.commitments[identifier := vector], state.pubkeys);
      if |state.commitments| == state.args.numSigners {
        state := AwaitingShares(state.args, state.commitments, state.pubkeys, map[]);
      }
      return Ok(());
    }

    method HandleSignatureShare(sender: PublicKey, vector: seq<Share>) returns (r: Result<(), Error>)
      requires state.AwaitingShares?
      modifies this
      ensures Reply(state, r) == OnShares(old(state), sender, vector)
    {
      if |vector| != state.args.numMessages { return Err(WrongCount); }
      if sender !in state.pubkeys { return Err(UnknownParticipant); }
      var identifier := state.pubkeys[sender];
      if identifier !in state.commitments { return Err(InvalidIdentifier); }
      state := AwaitingShares(state.args, state.commitments, state.pubkeys, state.shares[identifier := vector]);
      if state.shares.Keys == state.commitments.Keys {
        state := SharesReady(state.args, state.shares);
      }
      return Ok(());
    }
  }
}
