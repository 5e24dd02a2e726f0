/**
 * The message server's shared state and its request handlers. A handler holds its locks from
 * its first look at the state to its last change, so each is one step on that state.
 */
module Server {
  import opened Wrappers

  type Uuid(==, !new, 0)
  type byte = x: int | 0 <= x < 256
  type Bytes = seq<byte>
  type PublicKey = Bytes

  const MAX_MSG_SIZE := 65535

  datatype Error = InvalidArgument | Unauthorized | SessionNotFound | NotCoordinator | NotInSession

  /** Whose messages a queue holds. */
  datatype Slot = Coordinator | Participant(key: PublicKey)

  datatype Msg = Msg(sender: PublicKey, body: Bytes)

  function Waiting(queue: map<Slot, seq<Msg>>, slot: Slot): seq<Msg> { if slot in queue then queue[slot] else [] }

  datatype Session = Session(pubkeys: seq<PublicKey>, coordinator: PublicKey, messageCount: byte,
                             queue: map<Slot, seq<Msg>>) {
    predicate Member(key: PublicKey) { key in pubkeys || key == coordinator }

    function Queued(slot: Slot): seq<Msg> { Waiting(queue, slot) }
  }

  /** Live sessions, and by key the sessions that key may see. */
  datatype Sessions = Sessions(live: map<Uuid, Session>, byKey: map<PublicKey, set<Uuid>>)

  /** The sessions listed under a key. */
  function Listed(byKey: map<PublicKey, set<Uuid>>, key: PublicKey): set<Uuid> {
    if key in byKey then byKey[key] else {}
  }

  datatype Reply<T> = Reply(sessions: Sessions, outcome: Result<T, Error>)

  // ------------------------------------------------------------------ handlers

  function Enter(byKey: map<PublicKey, set<Uuid>>, key: PublicKey, id: Uuid): map<PublicKey, set<Uuid>> {
    byKey[key := Listed(byKey, key) + {id}]
  }

  function EnterAll(byKey: map<PublicKey, set<Uuid>>, keys: seq<PublicKey>, id: Uuid): map<PublicKey, set<Uuid>> {
    if keys == [] then byKey
    else Enter(EnterAll(byKey, keys[..|keys| - 1], id), keys[|keys| - 1], id)
  }

  function Leave(byKey: map<PublicKey, set<Uuid>>, key: PublicKey, id: Uuid): map<PublicKey, set<Uuid>> {
    if key in byKey then byKey[key := byKey[key] - {id}] else byKey
  }

  function LeaveAll(byKey: map<PublicKey, set<Uuid>>, keys: seq<PublicKey>, id: Uuid): map<PublicKey, set<Uuid>> {
    if keys == [] then byKey
    else Leave(LeaveAll(byKey, keys[..|keys| - 1], id), keys[|keys| - 1], id)
  }

  /** `id` is the identifier drawn for the new session. */
  function CreateNewSession(s: Sessions, user: PublicKey, pubkeys: seq<PublicKey>, messageCount: byte, id: Uuid)
    : Reply<Uuid>
  {
    if messageCount == 0 then Reply(s, Err(InvalidArgument))
    else Reply(Sessions(s.live[id := Session(pubkeys, user, messageCount, map[])],
                        Enter(EnterAll(s.byKey, pubkeys, id), user, id)), Ok(id))
  }

  function ListSessions(s: Sessions, user: PublicKey): set<Uuid> { Listed(s.byKey, user) }

  function GetSessionInfo(s: Sessions, user: PublicKey, id: Uuid): Result<(byte, seq<PublicKey>, PublicKey), Error> {
    if user !in s.byKey || id !in s.byKey[user] || id !in s.live then Err(SessionNotFound)
    else Ok((s.live[id].messageCount, s.live[id].pubkeys, s.live[id].coordinator))
  }

  /** The slots a request names; naming nobody means the coordinator. */
  function Recipients(keys: seq<PublicKey>): seq<Slot> {
    if keys == [] then [Coordinator]
    else seq(|keys|, i requires 0 <= i < |keys| => Participant(keys[i]))
  }

  function Push(queue: map<Slot, seq<Msg>>, slot: Slot, msg: Msg): map<Slot, seq<Msg>> {
    queue[slot := Waiting(queue, slot) + [msg]]
  }

  function PushAll(queue: map<Slot, seq<Msg>>, slots: seq<Slot>, msg: Msg): map<Slot, seq<Msg>> {
    if slots == [] then queue
    else Push(PushAll(queue, slots[..|slots| - 1], msg), slots[|slots| - 1], msg)
  }

  predicate InSession(session: Session, slot: Slot) { slot.Coordinator? || slot.key in session.pubkeys }

  function Send(s: Sessions, user: PublicKey, id: Uuid, keys: seq<PublicKey>, body: Bytes): Reply<()> {
    if |body| > MAX_MSG_SIZE then Reply(s, Err(InvalidArgument))
    else if id !in s.live then Reply(s, Err(SessionNotFound))
    else
      var session := s.live[id];
      if !session.Member(user) || exists slot | slot in Recipients(keys) :: !InSession(session, slot) then
        Reply(s, Err(NotInSession))
      else
        var queue := PushAll(session.queue, Recipients(keys), Msg(user, body));
        Reply(s.(live := s.live[id := session.(queue := queue)]), Ok(()))
  }

  /** The slot a user reads from: the coordinator may ask for either of its roles. */
  function SlotOf(session: Session, user: PublicKey, asCoordinator: bool): Slot {
    if user == session.coordinator && asCoordinator then Coordinator else Participant(user)
  }

  function Receive(s: Sessions, user: PublicKey, id: Uuid, asCoordinator: bool): Reply<seq<Msg>> {
    if id !in s.live then Reply(s, Err(SessionNotFound))
    else
      var session := s.live[id];
      if !session.Member(user) then Reply(s, Err(NotInSession))
      else
        var slot := SlotOf(session, user, asCoordinator);
        if slot !in session.queue then Reply(s, Ok([]))
        else Reply(s.(live := s.live[id := session.(queue := session.queue[slot := []])]), Ok(session.queue[slot]))
  }

  function CloseSession(s: Sessions, user: PublicKey, id: Uuid): Reply<()> {
    if user !in s.byKey || id !in s.byKey[user] || id !in s.live then Reply(s, Err(SessionNotFound))
    else if s.live[id].coordinator != user then Reply(s, Err(NotCoordinator))
    else Reply(Sessions(s.live - {id}, Leave(LeaveAll(s.byKey, s.live[id].pubkeys, id), user, id)), Ok(()))
  }

  /** The expiry task takes a timed-out session out first ... */
  function Expire(s: Sessions, id: Uuid): Sessions { s.(live := s.live - {id}) }

  /** ... and later removes it from the lists of its participants. */
  function Clean(s: Sessions, id: Uuid, session: Session): Sessions {
    s.(byKey := LeaveAll(s.byKey, session.pubkeys, id))
  }

  // ------------------------------------------------------------------ the state, in place

  class AppState {
    var sessions: map<Uuid, Session>
    var sessionsByPubkey: map<PublicKey, set<Uuid>>
    var challenges: set<Uuid>
    var accessTokens: map<Uuid, PublicKey>
    /** Signature verification, left uninterpreted: key, signed challenge, signature. */
    const verify: (PublicKey, Uuid, Bytes) -> bool

    constructor (verify: (PublicKey, Uuid, Bytes) -> bool)
      ensures Now() == Sessions(map[], map[]) && challenges == {} && accessTokens == map[]
      ensures this.verify == verify
    {
      this.verify := verify;
      sessions, sessionsByPubkey, challenges, accessTokens := map[], map[], {}, map[];
    }

    function Now(): Sessions
      reads this
    {
      Sessions(sessions, sessionsByPubkey)
    }

    method HandleCreateNewSession(user: PublicKey, pubkeys: seq<PublicKey>, messageCount: byte, id: Uuid)
      returns (r: Result<Uuid, Error>)
      modifies this`sessions, this`sessionsByPubkey
      ensures Reply(Now(), r) == CreateNewSession(old(Now()), user, pubkeys, messageCount, id)
    {
      if messageCount == 0 { return Err(InvalidArgument); }
      for i := 0 to |pubkeys|
        invariant sessionsByPubkey == EnterAll(old(sessionsByPubkey), pubkeys[..i], id)
        invariant sessions == old(sessions)
      {
        assert pubkeys[..i + 1][..i] == pubkeys[..i];
        sessionsByPubkey := Enter(sessionsByPubkey, pubkeys[i], id);
      }
      assert pubkeys[..|pubkeys|] == pubkeys;
      sessionsByPubkey := Enter(sessionsByPubkey, user, id);
      sessions := sessions[id := Session(pubkeys, user, messageCount, map[])];
      return Ok(id);
    }

    method HandleSend(user: PublicKey, id: Uuid, keys: seq<PublicKey>, body: Bytes) returns (r: Result<(), Error>)
      modifies this`sessions
      ensures Reply(Now(), r) == Send(old(Now()), user, id, keys, body)
    {
      if |body| > MAX_MSG_SIZE { return Err(InvalidArgument); }
      if id !in sessions { return Err(SessionNotFound); }
      var session := sessions[id];
      var recipients := Recipients(keys);
      if !session.Member(user) || exists slot | slot in recipients :: !InSession(session, slot) {
        return Err(NotInSession);
      }
      var queue := session.queue;
      for i := 0 to |recipients|
        invariant queue == PushAll(session.queue, recipients[..i], Msg(user, body))
      {
        assert recipients[..i + 1][..i] == recipients[..i];
        queue := Push(queue, recipients[i], Msg(user, body));
      }
      assert recipients[..|recipients|] == recipients;
      sessions := sessions[id := session.(queue := queue)];
      return Ok(());
    }

    method HandleReceive(user: PublicKey, id: Uuid, asCoordinator: bool) returns (r: Result<seq<Msg>, Error>)
      modifies this`sessions
      ensures Reply(Now(), r) == Receive(old(Now()), user, id, asCoordinator)
    {
      if id !in sessions { return Err(SessionNotFound); }
      var session := sessions[id];
      if user !in session.pubkeys && session.coordinator != user { return Err(NotInSession); }
      var slot := if user == session.coordinator && asCoordinator then Coordinator else Participant(user);
      if slot !in session.queue { return Ok([]); }
      var msgs := session.queue[slot];
      sessions := sessions[id := session.(queue := session.queue[slot := []])];
      return Ok(msgs);
    }

    method HandleCloseSession(user: PublicKey, id: Uuid) returns (r: Result<(), Error>)
      modifies this`sessions, this`sessionsByPubkey
      ensures Reply(Now(), r) == CloseSession(old(Now()), user, id)
    {
      if user !in sessionsByPubkey { return Err(SessionNotFound); }
      if id !in sessionsByPubkey[user] { return Err(SessionNotFound); }
      if id !in sessions { return Err(SessionNotFound); }
      var session := sessions[id];
      if session.coordinator != user { return Err(NotCoordinator); }
      RemoveFromLists(session.pubkeys, id);
      sessionsByPubkey := Leave(sessionsByPubkey, user, id);
      sessions := sessions - {id};
      return Ok(());
    }

    /** The loop that closing and the expiry task have in common. */
    method RemoveFromLists(pubkeys: seq<PublicKey>, id: Uuid)
      modifies this`sessionsByPubkey
      ensures sessionsByPubkey == LeaveAll(old(sessionsByPubkey), pubkeys, id)
    {
      for i := 0 to |pubkeys|
        invariant sessionsByPubkey == LeaveAll(old(sessionsByPubkey), pubkeys[..i], id)
      {
        assert pubkeys[..i + 1][..i] == pubkeys[..i];
        sessionsByPubkey := Leave(sessionsByPubkey, pubkeys[i], id);
      }
      assert pubkeys[..|pubkeys|] == pubkeys;
    }

    /** First half of the expiry task, under the session lock. */
    method TakeExpired(id: Uuid) returns (session: Session)
      requires id in sessions
      modifies this`sessions
      ensures Now() == Expire(old(Now()), id) && session == old(sessions)[id]
    {
      session := sessions[id];
      sessions := sessions - {id};
    }

    /** Second half, under the index lock only. */
    method CleanExpired(id: Uuid, session: Session)
      modifies this`sessionsByPubkey
      ensures Now() == Clean(old(Now()), id, session)
    {
      RemoveFromLists(session.pubkeys, id);
    }

    method HandleChallenge(id: Uuid) returns (challenge: Uuid)
      modifies this`challenges
      ensures challenges == old(challenges) + {id} && challenge == id
    {
      challenges := challenges + {id};
      challenge := id;
    }

    /**
     * `token` is the identifier drawn for the access token. The signature is checked before the
     * challenge is looked for, and the challenge is gone once it has been used.
     */
    method HandleLogin(challenge: Uuid, pubkey: PublicKey, signature: Bytes, token: Uuid)
      returns (r: Result<Uuid, Error>)
      modifies this`challenges, this`accessTokens
      ensures r == if |pubkey| != 32 || |signature| != 64 then Err(InvalidArgument)
                   else if !verify(pubkey, challenge, signature) || challenge !in old(challenges) then Err(Unauthorized)
                   else Ok(token)
      ensures r.Ok? ==>
                challenges == old(challenges) - {challenge} && accessTokens == old(accessTokens)[token := pubkey]
      ensures r.Err? ==> challenges == old(challenges) && accessTokens == old(accessTokens)
    {
      if signature == [] || pubkey == [] { return Err(InvalidArgument); }
      if |pubkey| != 32 { return Err(InvalidArgument); }
      if |signature| != 64 { return Err(InvalidArgument); }
      if !verify(pubkey, challenge, signature) { return Err(Unauthorized); }
      if challenge !in challenges { return Err(Unauthorized); }
      challenges := challenges - {challenge};
      accessTokens := accessTokens[token := pubkey];
      return Ok(token);
    }

    method HandleLogout(token: Uuid)
      modifies this`accessTokens
      ensures accessTokens == old(accessTokens) - {token}
    {
      accessTokens := accessTokens - {token};
    }

    /** Who a request is from: the key its token was issued to. */
    method Authenticate(token: Uuid) returns (r: Result<PublicKey, Error>)
      ensures r == if token in accessTokens then Ok(accessTokens[token]) else Err(Unauthorized)
    {
      if token !in accessTokens { return Err(Unauthorized); }
      return Ok(accessTokens[token]);
    }
  }
}
