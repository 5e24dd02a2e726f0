/**
 * Signing several messages at once: what each participant computes, what the coordinator builds
 * and aggregates, and that message, nonce, randomizer and share keep the same index throughout.
 */
module Signing {
  import opened Wrappers
  import opened Identities
  import C = CoordinatorSession

  type Nonces(==, !new, 0)
  type KeyPackage(==, !new, 0)
  type PublicKeyPackage(==, !new, 0)
  type Message(==, !new, 0)
  type Randomizer(==, !new, 0)
  type Signature(==, !new, 0)

  datatype Error =
    | NonceCountMismatch
    | RandomizerCountMismatch
    | TooManyMessages
    | SessionRefused
    | SessionFailed(error: C.Error)
    | StillWaiting
    | CryptoFailed

  datatype SigningPackage = SigningPackage(commitments: map<Identifier, C.Commitment>, message: Message)

  /** What the coordinator sends every signer; no randomizers means a plain signature. */
  datatype SignArgs = SignArgs(packages: seq<SigningPackage>, randomizers: seq<Randomizer>)

  /** The FROST operations, which this model leaves uninterpreted. */
  datatype Crypto = Crypto(
    commit: Nonces -> C.Commitment,
    sign: (SigningPackage, Nonces, KeyPackage) -> Result<C.Share, Error>,
    signRandomized: (SigningPackage, Nonces, KeyPackage, Randomizer) -> Result<C.Share, Error>,
    aggregate: (SigningPackage, map<Identifier, C.Share>, PublicKeyPackage) -> Result<Signature, Error>,
    aggregateRandomized: (SigningPackage, map<Identifier, C.Share>, PublicKeyPackage, Randomizer)
                         -> Result<Signature, Error>)

  function Min(a: nat, b: nat): nat { if a < b then a else b }

  /** All the values, or the first error. */
  function Gather<T>(results: seq<Result<T, Error>>): (r: Result<seq<T>, Error>)
    ensures r.Ok? ==> |r.value| == |results| && forall i | 0 <= i < |results| :: results[i] == Ok(r.value[i])
    ensures r.Err? ==> exists i | 0 <= i < |results| ::
                         results[i] == Err(r.error) && forall j | 0 <= j < i :: results[j].Ok?
  {
    if results == [] then Ok([])
    else if results[0].Err? then Err(results[0].error)
    else
      var rest := Gather(results[1..]);
      assert rest.Err? ==> exists i | 0 < i < |results| ::
                             results[i] == Err(rest.error) && forall j | 0 <= j < i :: results[j].Ok? by {
        if rest.Err? {
          var i :| 0 <= i < |results| - 1 && results[1..][i] == Err(rest.error)
                   && forall j | 0 <= j < i :: results[1..][j].Ok?;
          assert results[i + 1] == Err(rest.error);
          assert forall j | 0 < j < i + 1 :: results[j] == results[1..][j - 1];
        }
      }
      if rest.Err? then rest else Ok([results[0].value] + rest.value)
  }

  // ------------------------------------------------------------------ a participant

  /** Signs every message, zipping packages, nonces and randomizers the way iterators do. */
  function GenerateSignature(crypto: Crypto, args: SignArgs, key: KeyPackage, nonces: seq<Nonces>)
    : Result<seq<C.Share>, Error>
  {
    if |nonces| != |args.packages| then Err(NonceCountMismatch)
    else if args.randomizers != [] && |args.randomizers| != |args.packages| then Err(RandomizerCountMismatch)
    else if args.randomizers == [] then
      var n := Min(|args.packages|, |nonces|);
      Gather(seq(n, i requires 0 <= i < n => crypto.sign(args.packages[i], nonces[i], key)))
    else
      var n := Min(Min(|args.packages|, |nonces|), |args.randomizers|);
      Gather(seq(n, i requires 0 <= i < n =>
        crypto.signRandomized(args.packages[i], nonces[i], key, args.randomizers[i])))
  }

  /**
   * A participant signs just when it has a nonce and, in a rerandomized session, a randomizer for
   * every package, and each single signature succeeds.
   */
  lemma SignsWhenEachDoes(crypto: Crypto, args: SignArgs, key: KeyPackage, nonces: seq<Nonces>)
    ensures var r := GenerateSignature(crypto, args, key, nonces);
            && (r == Err(NonceCountMismatch) || r == Err(RandomizerCountMismatch) || Countable(args, nonces))
            && (r.Ok? <==>
                  && Countable(args, nonces)
                  && forall i | 0 <= i < |nonces| ::
                       if args.randomizers == [] then crypto.sign(args.packages[i], nonces[i], key).Ok?
                       else crypto.signRandomized(args.packages[i], nonces[i], key, args.randomizers[i]).Ok?)
  {
    if Countable(args, nonces) {
      if args.randomizers == [] {
        var n := Min(|args.packages|, |nonces|);
        var results := seq(n, i requires 0 <= i < n => crypto.sign(args.packages[i], nonces[i], key));
        assert GenerateSignature(crypto, args, key, nonces) == Gather(results);
        assert forall i | 0 <= i < n :: results[i] == crypto.sign(args.packages[i], nonces[i], key);
      } else {
        var n := Min(Min(|args.packages|, |nonces|), |args.randomizers|);
        var results := seq(n, i requires 0 <= i < n =>
          crypto.signRandomized(args.packages[i], nonces[i], key, args.randomizers[i]));
        assert GenerateSignature(crypto, args, key, nonces) == Gather(results);
        assert forall i | 0 <= i < n ::
            results[i] == crypto.signRandomized(args.packages[i], nonces[i], key, args.randomizers[i]);
      }
    }
  }

  /** There is a nonce for every package, and a randomizer if there is any. */
  predicate Countable(args: SignArgs, nonces: seq<Nonces>) {
    |nonces| == |args.packages| && (args.randomizers == [] || |args.randomizers| == |args.packages|)
  }

  /** A participant's vector has one share per message, each made with that message's own inputs. */
  lemma SharesLineUp(crypto: Crypto, args: SignArgs, key: KeyPackage, nonces: seq<Nonces>)
    requires GenerateSignature(crypto, args, key, nonces).Ok?
    ensures var shares := GenerateSignature(crypto, args, key, nonces).value;
            && |shares| == |args.packages| == |nonces|
            && (args.randomizers != [] ==> |args.randomizers| == |shares|)
            && forall i | 0 <= i < |shares| ::
                 Ok(shares[i]) == if args.randomizers == [] then crypto.sign(args.packages[i], nonces[i], key)
                                  else crypto.signRandomized(args.packages[i], nonces[i], key, args.randomizers[i])
  {
  }

  // ------------------------------------------------------------------ the coordinator's client

  /** A receive loop fed from `batches`: it got what it waited for, failed, or is waiting still. */
  datatype Progress =
    | Reached(state: C.State)
    | Failed(state: C.State, error: C.Error)
    | Waiting(state: C.State)

  /** One received batch: every message is handled, until one is rejected. */
  function RecvBatch(s: C.State, msgs: seq<C.Msg>): C.Reply
    decreases |msgs|
  {
    if msgs == [] then C.Reply(s, Ok(()))
    else
      var r := C.Step(s, msgs[0]);
      if r.outcome.Err? then r else RecvBatch(r.state, msgs[1..])
  }

  predicate Done(s: C.State, wantShares: bool) {
    if wantShares then C.HasShares(s) else C.HasCommitments(s)
  }

  /** The state is looked at only after a whole batch. */
  function Poll(s: C.State, batches: seq<seq<C.Msg>>, wantShares: bool): Progress
    decreases |batches|
  {
    if batches == [] then Waiting(s)
    else
      var r := RecvBatch(s, batches[0]);
      if r.outcome.Err? then Failed(r.state, r.outcome.error)
      else if Done(r.state, wantShares) then Reached(r.state)
      else Poll(r.state, batches[1..], wantShares)
  }

  // ------------------------------------------------------------------ the whole session

  /** An honest participant: its key and the nonces it drew, one per message of the session. */
  datatype Signer = Signer(key: KeyPackage, nonces: seq<Nonces>)

  /** What is fixed before the session; `signers` are the participants known to be honest. */
  datatype Setup = Setup(crypto: Crypto, messages: seq<Message>, randomizers: seq<Randomizer>,
                         numSigners: nat, pubkeys: map<PublicKey, Identifier>,
                         publicKey: PublicKeyPackage, signers: map<PublicKey, Signer>) {
    ghost predicate Valid() {
      && Injective(pubkeys) && signers.Keys <= pubkeys.Keys
      && forall k | k in signers :: |signers[k].nonces| == |messages|
    }

    function Args(): C.Args { C.Args(|messages|, numSigners) }
  }

  const MAX_MESSAGES := 255

  /** Everything a completed session produced. */
  datatype Signed = Signed(args: SignArgs, shares: seq<map<Identifier, C.Share>>, signatures: seq<Signature>)

  lemma {:induction false} BatchKeepsInvariant(args: C.Args, pubkeys: map<PublicKey, Identifier>, s: C.State,
                                               msgs: seq<C.Msg>)
    requires C.Invariant(args, pubkeys, s)
    ensures C.Invariant(args, pubkeys, RecvBatch(s, msgs).state)
    decreases |msgs|
  {
    if msgs == [] {
    } else {
      C.StepKeepsInvariant(args, pubkeys, s, msgs[0]);
      if C.Step(s, msgs[0]).outcome.Ok? {
        BatchKeepsInvariant(args, pubkeys, C.Step(s, msgs[0]).state, msgs[1..]);
      }
    }
  }

  lemma {:induction false} PollKeepsInvariant(args: C.Args, pubkeys: map<PublicKey, Identifier>, s: C.State,
                                              batches: seq<seq<C.Msg>>, wantShares: bool)
    requires C.Invariant(args, pubkeys, s)
    ensures C.Invariant(args, pubkeys, Poll(s, batches, wantShares).state)
    ensures Poll(s, batches, wantShares).Reached? ==> Done(Poll(s, batches, wantShares).state, wantShares)
    decreases |batches|
  {
    if batches == [] {
    } else {
      BatchKeepsInvariant(args, pubkeys, s, batches[0]);
      var r := RecvBatch(s, batches[0]);
      if r.outcome.Ok? && !Done(r.state, wantShares) {
        PollKeepsInvariant(args, pubkeys, r.state, batches[1..], wantShares);
      }
    }
  }

  /** The first loop: the state in which all commitments are in. */
  function GatherCommitments(c: Setup, batches: seq<seq<C.Msg>>): (r: Result<C.State, Error>)
    ensures r.Ok? ==> r.value.AwaitingShares? && C.Invariant(c.Args(), c.pubkeys, r.value)
  {
    if |c.messages| > MAX_MESSAGES then Err(TooManyMessages)
    // The server does not create a session for no messages.
    else if c.messages == [] then Err(SessionRefused)
    else
      var start := C.New(|c.messages|, c.numSigners, c.pubkeys);
      PollKeepsInvariant(c.Args(), c.pubkeys, start, batches, false);
      match Poll(start, batches, false)
      case Reached(s) => Ok(s)
      case Failed(_, e) => Err(SessionFailed(e))
      case Waiting(_) => Err(StillWaiting)
  }

  /** One signing package per message, and every randomizer. */
  function Request(c: Setup, s: C.State): SignArgs
    requires s.AwaitingShares? && C.Invariant(c.Args(), c.pubkeys, s)
  {
    var commitments := C.Transpose(s.commitments, |c.messages|);
    SignArgs(seq(|commitments|, i requires 0 <= i < |commitments| => SigningPackage(commitments[i], c.messages[i])),
             c.randomizers)
  }

  /** The second loop: the shares by message. */
  function GatherShares(c: Setup, s: C.State, batches: seq<seq<C.Msg>>): Result<seq<map<Identifier, C.Share>>, Error>
    requires C.Invariant(c.Args(), c.pubkeys, s)
  {
    PollKeepsInvariant(c.Args(), c.pubkeys, s, batches, true);
    match Poll(s, batches, true)
    case Reached(t) => Ok(C.Transpose(t.shares, |c.messages|))
    case Failed(_, e) => Err(SessionFailed(e))
    case Waiting(_) => Err(StillWaiting)
  }

  /** Aggregates message by message, zipping packages, shares and randomizers as iterators do. */
  function Aggregate(c: Setup, args: SignArgs, shares: seq<map<Identifier, C.Share>>): Result<seq<Signature>, Error> {
    if args.randomizers == [] then
      var n := Min(|args.packages|, |shares|);
      Gather(seq(n, i requires 0 <= i < n => c.crypto.aggregate(args.packages[i], shares[i], c.publicKey)))
    else
      var n := Min(Min(|args.randomizers|, |args.packages|), |shares|);
      Gather(seq(n, i requires 0 <= i < n =>
        c.crypto.aggregateRandomized(args.packages[i], shares[i], c.publicKey, args.randomizers[i])))
  }

  /** The coordinator from start to end, given what the server delivers to it in each loop. */
  function Coordinate(c: Setup, first: seq<seq<C.Msg>>, second: seq<seq<C.Msg>>): Result<Signed, Error> {
    if c.randomizers != [] && |c.randomizers| != |c.messages| then Err(RandomizerCountMismatch)
    else
      match GatherCommitments(c, first)
      case Err(e) => Err(e)
      case Ok(s) =>
        var args := Request(c, s);
        match GatherShares(c, s, second)
        case Err(e) => Err(e)
        case Ok(shares) =>
          match Aggregate(c, args, shares)
          case Err(e) => Err(e)
          case Ok(signatures) => Ok(Signed(args, shares, signatures))
  }

  // ------------------------------------------------------------------ the client, in place

  /** The coordinator's end of a session, as its client performs it. */
  class HttpComms {
    const session: C.Session
    var pubkeys: map<PublicKey, Identifier>
    var outbox: map<PublicKey, SignArgs>

    constructor (session: C.Session)
      ensures this.session == session && pubkeys == map[] && outbox == map[]
    {
      this.session := session;
      pubkeys, outbox := map[], map[];
    }

    method PollUntil(batches: seq<seq<C.Msg>>, wantShares: bool) returns (r: Progress)
      modifies session
      ensures r == Poll(old(session.state), batches, wantShares) && session.state == r.state
    {
      hide C.Step;
      var i := 0;
      while i < |batches|
        invariant 0 <= i <= |batches|
        invariant Poll(old(session.state), batches, wantShares) == Poll(session.state, batches[i..], wantShares)
      {
        ghost var before := session.state;
        var batch := batches[i];
        assert batches[i..][0] == batch && batches[i..][1..] == batches[i + 1..];
        var j := 0;
        while j < |batch|
          invariant 0 <= j <= |batch|
          invariant RecvBatch(before, batch) == RecvBatch(session.state, batch[j..])
        {
          assert batch[j..][0] == batch[j] && batch[j..][1..] == batch[j + 1..];
          var outcome := session.Recv(batch[j]);
          if outcome.Err? { return Failed(session.state, outcome.error); }
          j := j + 1;
        }
        if Done(session.state, wantShares) { return Reached(session.state); }
        i := i + 1;
      }
      return Waiting(session.state);
    }

    /** Sends the same request to every participant of the session, one message each. */
    method SendSigningPackage(args: SignArgs)
      modifies this`outbox
      ensures outbox == old(outbox) + map k | k in pubkeys :: args
    {
      var left := pubkeys.Keys;
      while left != {}
        invariant left <= pubkeys.Keys
        invariant outbox == old(outbox) + map k | k in pubkeys.Keys - left :: args
        decreases left
      {
        var recipient :| recipient in left;
        outbox := outbox[recipient := args];
        left := left - {recipient};
      }
    }

    /** Waits for the commitments of the session's signers, whose keys it keeps. */
    method GetSigningCommitments(c: Setup, batches: seq<seq<C.Msg>>)
      returns (r: Result<seq<map<Identifier, C.Commitment>>, Error>)
      requires session.state == C.New(|c.messages|, c.numSigners, c.pubkeys)
      modifies session, this`pubkeys
      ensures match GatherCommitments(c, batches)
              case Err(e) => r == Err(e) && pubkeys == old(pubkeys)
              case Ok(s) =>
                && session.state == s && pubkeys == c.pubkeys
                && r == Ok(C.Transpose(s.commitments, |c.messages|))
    {
      if |c.messages| > MAX_MESSAGES { return Err(TooManyMessages); }
      if c.messages == [] { return Err(SessionRefused); }
      PollKeepsInvariant(c.Args(), c.pubkeys, session.state, batches, false);
      var progress := PollUntil(batches, false);
      match progress
      case Failed(_, e) => return Err(SessionFailed(e));
      case Waiting(_) => return Err(StillWaiting);
      case Reached(s) =>
        pubkeys := s.pubkeys;
        return Ok(C.Transpose(s.commitments, s.args.numMessages));
    }

    /** Sends the request out, and waits for shares from the signers that committed. */
    method SendSigningPackageAndGetShares(c: Setup, args: SignArgs, batches: seq<seq<C.Msg>>)
      returns (r: Result<seq<map<Identifier, C.Share>>, Error>)
      requires session.state.AwaitingShares? && C.Invariant(c.Args(), c.pubkeys, session.state)
      modifies session, this`outbox
      ensures r == GatherShares(c, old(session.state), batches)
      ensures outbox == old(outbox) + map k | k in pubkeys :: args
    {
      SendSigningPackage(args);
      PollKeepsInvariant(c.Args(), c.pubkeys, session.state, batches, true);
      var progress := PollUntil(batches, true);
      match progress
      case Failed(_, e) => return Err(SessionFailed(e));
      case Waiting(_) => return Err(StillWaiting);
      case Reached(s) => return Ok(C.Transpose(s.shares, s.args.numMessages));
    }

    /** The coordinator: what it returns, and the request each signer has been sent if it succeeds. */
    method SignMessages(c: Setup, first: seq<seq<C.Msg>>, second: seq<seq<C.Msg>>) returns (r: Result<Signed, Error>)
      requires session.state == C.New(|c.messages|, c.numSigners, c.pubkeys) && outbox == map[]
      modifies session, this`pubkeys, this`outbox
      ensures r == Coordinate(c, first, second)
      ensures r.Ok? ==> outbox == map k | k in c.pubkeys :: r.value.args
    {
      if c.randomizers != [] && |c.randomizers| != |c.messages| { return Err(RandomizerCountMismatch); }
      var gathered := GetSigningCommitments(c, first);
      if gathered.Err? { return Err(gathered.error); }
      var commitments := gathered.value;
      var packages := seq(|commitments|, i requires 0 <= i < |commitments| =>
        SigningPackage(commitments[i], c.messages[i]));
      var args := SignArgs(packages, c.randomizers);
      assert args == Request(c, session.state);
      var shares := SendSigningPackageAndGetShares(c, args, second);
      if shares.Err? { return Err(shares.error); }
      var signatures := Aggregate(c, args, shares.value);
      if signatures.Err? { return Err(signatures.error); }
      return Ok(Signed(args, shares.value, signatures.value));
    }
  }

  // ------------------------------------------------------------------ honest participants

  /** The vector of commitments participant `k` sends. */
  function CommitmentsOf(c: Setup, k: PublicKey): seq<C.Commitment>
    requires k in c.signers
  {
    var nonces := c.signers[k].nonces;
    seq(|nonces|, i requires 0 <= i < |nonces| => c.crypto.commit(nonces[i]))
  }

  /** Before any request goes out an honest participant sends only its commitments. */
  ghost predicate HonestBefore(c: Setup, batches: seq<seq<C.Msg>>) {
    forall batch, m | batch in batches && m in batch && m.sender in c.signers ::
      m.payload == C.Commitments(CommitmentsOf(c, m.sender))
  }

  ghost predicate HonestShares(c: Setup, args: SignArgs, k: PublicKey, shares: seq<C.Share>)
    requires k in c.signers
  {
    GenerateSignature(c.crypto, args, c.signers[k].key, c.signers[k].nonces) == Ok(shares)
  }

  /** Shares of an honest participant are the ones it computed for the request it was sent. */
  ghost predicate HonestAfter(c: Setup, args: SignArgs, batches: seq<seq<C.Msg>>) {
    forall batch, m | batch in batches && m in batch && m.sender in c.signers ::
      m.payload.Shares? ==> HonestShares(c, args, m.sender, m.payload.shares)
  }

  /** What the session holds of honest participants is theirs. */
  ghost predicate HoldsHonest(c: Setup, s: C.State)
    requires c.Valid()
  {
    forall k | k in c.signers ::
      match s
      case AwaitingCommitments(_, commitments, _) =>
        c.pubkeys[k] in commitments ==> commitments[c.pubkeys[k]] == CommitmentsOf(c, k)
      case AwaitingShares(_, commitments, _, shares) =>
        && (c.pubkeys[k] in commitments ==> commitments[c.pubkeys[k]] == CommitmentsOf(c, k))
        && c.pubkeys[k] !in shares
      case SharesReady(_, _) => true
  }

  ghost predicate HoldsHonestShares(c: Setup, args: SignArgs, s: C.State)
    requires c.Valid()
  {
    forall k | k in c.signers ::
      match s
      case AwaitingCommitments(_, _, _) => false
      case AwaitingShares(_, _, _, shares) =>
        c.pubkeys[k] in shares ==> HonestShares(c, args, k, shares[c.pubkeys[k]])
      case SharesReady(_, shares) =>
        c.pubkeys[k] in shares ==> HonestShares(c, args, k, shares[c.pubkeys[k]])
  }

  lemma StepBefore(c: Setup, s: C.State, m: C.Msg)
    requires c.Valid() && C.Invariant(c.Args(), c.pubkeys, s) && HoldsHonest(c, s)
    requires m.sender in c.signers ==> m.payload == C.Commitments(CommitmentsOf(c, m.sender))
    ensures HoldsHonest(c, C.Step(s, m).state)
  {
    hide CommitmentsOf;
  }

  lemma {:induction false} BatchBefore(c: Setup, s: C.State, msgs: seq<C.Msg>)
    requires c.Valid() && C.Invariant(c.Args(), c.pubkeys, s) && HoldsHonest(c, s)
    requires forall m | m in msgs && m.sender in c.signers :: m.payload == C.Commitments(CommitmentsOf(c, m.sender))
    ensures HoldsHonest(c, RecvBatch(s, msgs).state)
    decreases |msgs|
  {
    hide C.Step, C.Invariant, HoldsHonest;
    if msgs == [] {
    } else {
      C.StepKeepsInvariant(c.Args(), c.pubkeys, s, msgs[0]);
      StepBefore(c, s, msgs[0]);
      if C.Step(s, msgs[0]).outcome.Ok? {
        BatchBefore(c, C.Step(s, msgs[0]).state, msgs[1..]);
      }
    }
  }

  lemma {:induction false} PollBefore(c: Setup, s: C.State, batches: seq<seq<C.Msg>>)
    requires c.Valid() && C.Invariant(c.Args(), c.pubkeys, s) && HoldsHonest(c, s) && HonestBefore(c, batches)
    ensures HoldsHonest(c, Poll(s, batches, false).state)
    decreases |batches|
  {
    if batches == [] {
    } else {
      BatchBefore(c, s, batches[0]);
      BatchKeepsInvariant(c.Args(), c.pubkeys, s, batches[0]);
      var r := RecvBatch(s, batches[0]);
      if r.outcome.Ok? && !Done(r.state, false) {
        PollBefore(c, r.state, batches[1..]);
      }
    }
  }

  /** What a message, or a batch of them, may do to a session whose commitments are in. */
  ghost predicate GoesOn(c: Setup, args: SignArgs, s: C.State, t: C.State)
    requires c.Valid() && !s.AwaitingCommitments?
  {
    && !t.AwaitingCommitments? && HoldsHonestShares(c, args, t) && Signatories(t) == Signatories(s)
  }

  lemma StepAfter(c: Setup, args: SignArgs, s: C.State, m: C.Msg)
    requires c.Valid() && C.Invariant(c.Args(), c.pubkeys, s)
    requires !s.AwaitingCommitments? && HoldsHonestShares(c, args, s)
    requires m.sender in c.signers && m.payload.Shares? ==> HonestShares(c, args, m.sender, m.payload.shares)
    ensures GoesOn(c, args, s, C.Step(s, m).state)
  {
    hide HonestShares;
  }

  lemma {:induction false} BatchAfter(c: Setup, args: SignArgs, s: C.State, msgs: seq<C.Msg>)
    requires c.Valid() && C.Invariant(c.Args(), c.pubkeys, s)
    requires !s.AwaitingCommitments? && HoldsHonestShares(c, args, s)
    requires forall m | m in msgs && m.sender in c.signers ::
               m.payload.Shares? ==> HonestShares(c, args, m.sender, m.payload.shares)
    ensures GoesOn(c, args, s, RecvBatch(s, msgs).state)
    decreases |msgs|
  {
    hide C.Step, C.Invariant, HonestShares, HoldsHonestShares;
    if msgs == [] {
    } else {
      C.StepKeepsInvariant(c.Args(), c.pubkeys, s, msgs[0]);
      StepAfter(c, args, s, msgs[0]);
      if C.Step(s, msgs[0]).outcome.Ok? {
        BatchAfter(c, args, C.Step(s, msgs[0]).state, msgs[1..]);
      }
    }
  }

  ghost function Signatories(s: C.State): set<Identifier>
    requires !s.AwaitingCommitments?
  {
    if s.AwaitingShares? then s.commitments.Keys else s.shares.Keys
  }

  lemma {:induction false} PollAfter(c: Setup, args: SignArgs, s: C.State, batches: seq<seq<C.Msg>>)
    requires c.Valid() && C.Invariant(c.Args(), c.pubkeys, s) && !s.AwaitingCommitments?
    requires HoldsHonestShares(c, args, s) && HonestAfter(c, args, batches)
    ensures GoesOn(c, args, s, Poll(s, batches, true).state)
    decreases |batches|
  {
    hide C.Invariant, HonestShares, HoldsHonestShares;
    if batches == [] {
    } else {
      BatchAfter(c, args, s, batches[0]);
      BatchKeepsInvariant(c.Args(), c.pubkeys, s, batches[0]);
      var r := RecvBatch(s, batches[0]);
      if r.outcome.Ok? && !Done(r.state, true) {
        PollAfter(c, args, r.state, batches[1..]);
      }
    }
  }

  // ------------------------------------------------------------------ main result

  /** Message `m` of a completed session: everything in it belongs to `m`. */
  ghost predicate Aligned(c: Setup, done: Signed, m: nat)
    requires c.Valid() && m < |c.messages|
    requires |done.args.packages| == |done.shares| == |done.signatures| == |c.messages|
    requires c.randomizers != [] ==> |c.randomizers| == |c.messages|
    requires done.args.randomizers == c.randomizers
  {
    var package := done.args.packages[m];
    && package.message == c.messages[m]
    && package.commitments.Keys == done.shares[m].Keys && |package.commitments| == c.numSigners
    && (forall k | k in c.signers && c.pubkeys[k] in package.commitments ::
          && package.commitments[c.pubkeys[k]] == c.crypto.commit(c.signers[k].nonces[m])
          && Ok(done.shares[m][c.pubkeys[k]])
             == if c.randomizers == [] then c.crypto.sign(package, c.signers[k].nonces[m], c.signers[k].key)
                else c.crypto.signRandomized(package, c.signers[k].nonces[m], c.signers[k].key, c.randomizers[m]))
    && Ok(done.signatures[m])
       == if c.randomizers == [] then c.crypto.aggregate(package, done.shares[m], c.publicKey)
          else c.crypto.aggregateRandomized(package, done.shares[m], c.publicKey, c.randomizers[m])
  }

  /**
   * End to end: a session that completes has exactly one signature per message, and for every
   * message the package, each honest participant's nonce, commitment and share, the randomizer
   * and the aggregation are all those of that message.
   */
  lemma SessionIsAligned(c: Setup, first: seq<seq<C.Msg>>, second: seq<seq<C.Msg>>)
    requires c.Valid() && Coordinate(c, first, second).Ok?
    requires HonestBefore(c, first)
    requires HonestAfter(c, Coordinate(c, first, second).value.args, second)
    ensures var done := Coordinate(c, first, second).value;
            && |done.args.packages| == |done.shares| == |done.signatures| == |c.messages|
            && 0 < |c.messages| <= 255 && done.args.randomizers == c.randomizers
            && (c.randomizers != [] ==> |c.randomizers| == |c.messages|)
            && forall m | 0 <= m < |c.messages| :: Aligned(c, done, m)
  {
    hide C.NothingLost, Poll, HonestShares, Aligned;
    var done := Coordinate(c, first, second).value;
    var start := C.New(|c.messages|, c.numSigners, c.pubkeys);
    PollBefore(c, start, first);
    var s := GatherCommitments(c, first).value;
    PollAfter(c, done.args, s, second);
    PollKeepsInvariant(c.Args(), c.pubkeys, s, second, true);
    var t := Poll(s, second, true).state;
    C.TransposeIsExact(s.commitments, |c.messages|);
    C.TransposeIsExact(t.shares, |c.messages|);
    forall m | 0 <= m < |c.messages| ensures Aligned(c, done, m) {
      MessageIsAligned(c, done, s, t, m);
    }
  }

  lemma MessageIsAligned(c: Setup, done: Signed, s: C.State, t: C.State, m: nat)
    requires c.Valid() && m < |c.messages| && (c.randomizers != [] ==> |c.randomizers| == |c.messages|)
    requires s.AwaitingShares? && C.Invariant(c.Args(), c.pubkeys, s) && HoldsHonest(c, s)
    requires t.SharesReady? && C.Invariant(c.Args(), c.pubkeys, t) && HoldsHonestShares(c, done.args, t)
    requires t.shares.Keys == s.commitments.Keys
    requires done.args == Request(c, s) && done.shares == C.Transpose(t.shares, |c.messages|)
    requires Aggregate(c, done.args, done.shares) == Ok(done.signatures)
    ensures |done.signatures| == |c.messages| && Aligned(c, done, m)
  {
    var package := done.args.packages[m];
    assert package.commitments.Keys == s.commitments.Keys;
    assert |package.commitments| == |package.commitments.Keys| && |s.commitments| == |s.commitments.Keys|;
    forall k | k in c.signers && c.pubkeys[k] in package.commitments
      ensures package.commitments[c.pubkeys[k]] == c.crypto.commit(c.signers[k].nonces[m])
      ensures Ok(done.shares[m][c.pubkeys[k]])
              == if c.randomizers == [] then c.crypto.sign(package, c.signers[k].nonces[m], c.signers[k].key)
                 else c.crypto.signRandomized(package, c.signers[k].nonces[m], c.signers[k].key, c.randomizers[m])
    {
      assert HonestShares(c, done.args, k, t.shares[c.pubkeys[k]]);
      SharesLineUp(c.crypto, done.args, c.signers[k].key, c.signers[k].nonces);
    }
  }
}
