/**
 * A whole signing session: honest participants that commit to their nonces and answer the request
 * they are sent, corrupt ones that send anything under their own key, and a coordinator that
 * receives what was sent in any order, late, repeatedly or never.
 */
module SigningNetwork {
  import opened Wrappers
  import opened Identities
  import C = CoordinatorSession
  import opened Signing

  /**
   * `first` and `second` are the batches the coordinator received before and after it sent its
   * request out.
   */
  datatype World = World(wire: set<C.Msg>, first: seq<seq<C.Msg>>, request: Option<SignArgs>, second: seq<seq<C.Msg>>)

  datatype Action =
    | Commit(k: PublicKey)
    | SendRequest
    | Answer(k: PublicKey)
    | Receive(batch: seq<C.Msg>)
    | Corrupt(msg: C.Msg)

  const INIT := World({}, [], None, [])

  /** The commitments a participant sends once it has joined the session. */
  function CommitMsg(c: Setup, k: PublicKey): C.Msg
    requires k in c.signers
  {
    C.Msg(k, C.Commitments(CommitmentsOf(c, k)))
  }

  /** One action; an action that is not possible leaves everything as it is. */
  function Apply(c: Setup, w: World, a: Action): World {
    match a
    case Commit(k) => if k in c.signers then w.(wire := w.wire + {CommitMsg(c, k)}) else w
    case SendRequest =>
      if w.request.Some? || GatherCommitments(c, w.first).Err? then w
      else w.(request := Some(Request(c, GatherCommitments(c, w.first).value)))
    case Answer(k) =>
      if k !in c.signers || w.request.None? then w
      else
        var r := GenerateSignature(c.crypto, w.request.value, c.signers[k].key, c.signers[k].nonces);
        if r.Err? then w else w.(wire := w.wire + {C.Msg(k, C.Shares(r.value))})
    case Receive(batch) =>
      if exists m | m in batch :: m !in w.wire then w
      else if w.request.None? then w.(first := w.first + [batch])
      else w.(second := w.second + [batch])
    case Corrupt(m) => if m.sender in c.signers then w else w.(wire := w.wire + {m})
  }

  function Execute(c: Setup, actions: seq<Action>): World {
    if actions == [] then INIT else Apply(c, Execute(c, actions[..|actions| - 1]), actions[|actions| - 1])
  }

  /** What bears an honest key is its commitments or, once there is a request, its shares for that. */
  ghost predicate Honest(c: Setup, w: World, m: C.Msg) {
    m.sender in c.signers ==>
      || m == CommitMsg(c, m.sender)
      || (w.request.Some? && m.payload.Shares? && HonestShares(c, w.request.value, m.sender, m.payload.shares))
  }

  ghost predicate Invariant(c: Setup, w: World) {
    && (forall m | m in w.wire :: Honest(c, w, m))
    && HonestBefore(c, w.first)
    && (w.request.None? ==> w.second == [])
    && (w.request.Some? ==>
          && GatherCommitments(c, w.first).Ok?
          && w.request.value == Request(c, GatherCommitments(c, w.first).value)
          && HonestAfter(c, w.request.value, w.second))
  }

  lemma PostKeepsInvariant(c: Setup, w: World, m: C.Msg)
    requires Invariant(c, w) && Honest(c, w, m)
    ensures Invariant(c, w.(wire := w.wire + {m}))
  {
    hide GatherCommitments, Request, HonestShares, HonestBefore, HonestAfter;
    var after := w.(wire := w.wire + {m});
    forall n | n in after.wire ensures Honest(c, after, n) {
      assert Honest(c, w, n);
    }
  }

  lemma ReceiveKeepsInvariant(c: Setup, w: World, batch: seq<C.Msg>)
    requires Invariant(c, w)
    ensures Invariant(c, Apply(c, w, Receive(batch)))
  {
    hide GatherCommitments, Request, HonestShares;
    var after := Apply(c, w, Receive(batch));
    if after != w {
      forall m | m in after.wire ensures Honest(c, after, m) {
        assert Honest(c, w, m);
      }
      forall m | m in batch ensures Honest(c, w, m) {
      }
    }
  }

  lemma RequestKeepsInvariant(c: Setup, w: World)
    requires Invariant(c, w)
    ensures Invariant(c, Apply(c, w, SendRequest))
  {
    hide GatherCommitments, Request, HonestShares;
    var after := Apply(c, w, SendRequest);
    forall m | m in after.wire ensures Honest(c, after, m) {
      assert Honest(c, w, m);
    }
  }

  lemma StepKeepsInvariant(c: Setup, w: World, a: Action)
    requires Invariant(c, w)
    ensures Invariant(c, Apply(c, w, a))
  {
    hide GatherCommitments, Request, Invariant, GenerateSignature;
    match a
    case Commit(k) =>
      if k in c.signers { PostKeepsInvariant(c, w, CommitMsg(c, k)); }
    case Answer(k) =>
      if Apply(c, w, a) != w {
        var r := GenerateSignature(c.crypto, w.request.value, c.signers[k].key, c.signers[k].nonces);
        PostKeepsInvariant(c, w, C.Msg(k, C.Shares(r.value)));
      }
    case Corrupt(m) =>
      if m.sender !in c.signers { PostKeepsInvariant(c, w, m); }
    case Receive(batch) => ReceiveKeepsInvariant(c, w, batch);
    case SendRequest => RequestKeepsInvariant(c, w);
  }

  lemma {:induction false} ExecutionKeepsInvariant(c: Setup, actions: seq<Action>)
    ensures Invariant(c, Execute(c, actions))
  {
    hide Apply;
    if actions == [] {
    } else {
      var last := |actions| - 1;
      ExecutionKeepsInvariant(c, actions[..last]);
      StepKeepsInvariant(c, Execute(c, actions[..last]), actions[last]);
    }
  }

  /**
   * In every run of the network in which the coordinator completes, the session is aligned; the
   * request its signatures are for is the one the participants were sent.
   */
  lemma EveryRunIsAligned(c: Setup, actions: seq<Action>)
    requires c.Valid()
    requires Coordinate(c, Execute(c, actions).first, Execute(c, actions).second).Ok?
    ensures var w := Execute(c, actions);
            var done := Coordinate(c, w.first, w.second).value;
            && w.request == Some(done.args)
            && |done.args.packages| == |done.shares| == |done.signatures| == |c.messages|
            && done.args.randomizers == c.randomizers
            && (c.randomizers != [] ==> |c.randomizers| == |c.messages|)
            && forall m | 0 <= m < |c.messages| :: Aligned(c, done, m)
  {
    hide GatherCommitments, Request, Execute, Aggregate, HonestBefore, HonestAfter, Aligned;
    ExecutionKeepsInvariant(c, actions);
    var w := Execute(c, actions);
    assert w.request.Some?;
    SessionIsAligned(c, w.first, w.second);
  }
}
