/**
 * The server over any interleaving of requests, with the expiry task running beside them in two
 * separate steps. Identifiers are drawn fresh. Requests come from authenticated users.
 */
module ServerRuns {
  import opened Wrappers
  import opened Server

  /**
   * What is remembered beside the state, for stating what happened: every session ever created,
   * the ones that expired, and for each slot what was sent to it and what was handed out from it.
   */
  datatype History = History(created: map<Uuid, Session>, expired: set<Uuid>,
                             sent: map<(Uuid, Slot), seq<Msg>>, delivered: map<(Uuid, Slot), seq<Msg>>)

  /** `cleaning` is the expired session the task has taken out but not yet removed from the lists. */
  datatype World = World(now: Sessions, cleaning: Option<(Uuid, Session)>, history: History)

  datatype Action =
    | DoCreate(user: PublicKey, pubkeys: seq<PublicKey>, messageCount: byte, id: Uuid)
    | DoSend(user: PublicKey, id: Uuid, keys: seq<PublicKey>, body: Bytes)
    | DoReceive(user: PublicKey, id: Uuid, asCoordinator: bool)
    | DoClose(user: PublicKey, id: Uuid)
    | DoExpire(id: Uuid)
    | DoClean

  const INIT := World(Sessions(map[], map[]), None, History(map[], {}, map[], map[]))

  function At(log: map<(Uuid, Slot), seq<Msg>>, id: Uuid, slot: Slot): seq<Msg> {
    if (id, slot) in log then log[(id, slot)] else []
  }

  function Record(log: map<(Uuid, Slot), seq<Msg>>, id: Uuid, slot: Slot, msgs: seq<Msg>): map<(Uuid, Slot), seq<Msg>> {
    log[(id, slot) := At(log, id, slot) + msgs]
  }

  function RecordAll(log: map<(Uuid, Slot), seq<Msg>>, id: Uuid, slots: seq<Slot>, msg: Msg)
    : map<(Uuid, Slot), seq<Msg>>
  {
    if slots == [] then log
    else Record(RecordAll(log, id, slots[..|slots| - 1], msg), id, slots[|slots| - 1], [msg])
  }

  /** One action; one that is not possible leaves everything as it is. */
  function Apply(w: World, a: Action): World {
    match a
    case DoCreate(user, pubkeys, messageCount, id) =>
      if id in w.history.created then w
      else
        var r := CreateNewSession(w.now, user, pubkeys, messageCount, id);
        if r.outcome.Err? then w.(now := r.sessions)
        else
          var asked := Session(pubkeys, user, messageCount, map[]);
          w.(now := r.sessions, history := w.history.(created := w.history.created[id := asked]))
    case DoSend(user, id, keys, body) =>
      var r := Send(w.now, user, id, keys, body);
      if r.outcome.Err? then w.(now := r.sessions)
      else w.(now := r.sessions,
              history := w.history.(sent := RecordAll(w.history.sent, id, Recipients(keys), Msg(user, body))))
    case DoReceive(user, id, asCoordinator) =>
      var r := Receive(w.now, user, id, asCoordinator);
      if r.outcome.Err? then w.(now := r.sessions)
      else
        var slot := SlotOf(w.now.live[id], user, asCoordinator);
        w.(now := r.sessions,
           history := w.history.(delivered := Record(w.history.delivered, id, slot, r.outcome.value)))
    case DoClose(user, id) => w.(now := CloseSession(w.now, user, id).sessions)
    case DoExpire(id) =>
      if w.cleaning.Some? || id !in w.now.live then w
      else w.(now := Expire(w.now, id), cleaning := Some((id, w.now.live[id])),
              history := w.history.(expired := w.history.expired + {id}))
    case DoClean =>
      if w.cleaning.None? then w
      else w.(now := Clean(w.now, w.cleaning.value.0, w.cleaning.value.1), cleaning := None)
  }

  function Execute(actions: seq<Action>): World {
    if actions == [] then INIT else Apply(Execute(actions[..|actions| - 1]), actions[|actions| - 1])
  }

  // ------------------------------------------------------------------ the loops over keys and slots

  lemma {:induction false} EnterAllLists(byKey: map<PublicKey, set<Uuid>>, keys: seq<PublicKey>, id: Uuid,
                                         key: PublicKey)
    ensures Listed(EnterAll(byKey, keys, id), key) == Listed(byKey, key) + if key in keys then {id} else {}
  {
    if keys == [] {
    } else {
      EnterAllLists(byKey, keys[..|keys| - 1], id, key);
      assert keys == keys[..|keys| - 1] + [keys[|keys| - 1]];
    }
  }

  lemma {:induction false} LeaveAllLists(byKey: map<PublicKey, set<Uuid>>, keys: seq<PublicKey>, id: Uuid,
                                         key: PublicKey)
    ensures Listed(LeaveAll(byKey, keys, id), key) == Listed(byKey, key) - if key in keys then {id} else {}
  {
    if keys == [] {
    } else {
      LeaveAllLists(byKey, keys[..|keys| - 1], id, key);
      assert keys == keys[..|keys| - 1] + [keys[|keys| - 1]];
    }
  }

  /** One copy of a message for every time a slot is named. */
  function Copies(slots: seq<Slot>, slot: Slot, msg: Msg): seq<Msg> {
    if slots == [] then []
    else Copies(slots[..|slots| - 1], slot, msg) + if slots[|slots| - 1] == slot then [msg] else []
  }

  lemma {:induction false} PushAllAppends(queue: map<Slot, seq<Msg>>, slots: seq<Slot>, msg: Msg, slot: Slot)
    ensures Waiting(PushAll(queue, slots, msg), slot) == Waiting(queue, slot) + Copies(slots, slot, msg)
    ensures slot in PushAll(queue, slots, msg) <==> slot in queue || slot in slots
  {
    if slots == [] {
    } else {
      var last := |slots| - 1;
      PushAllAppends(queue, slots[..last], msg, slot);
      assert slots == slots[..last] + [slots[last]];
    }
  }

  lemma {:induction false} RecordAllAppends(log: map<(Uuid, Slot), seq<Msg>>, id: Uuid, slots: seq<Slot>, msg: Msg,
                                            slot: Slot)
    ensures At(RecordAll(log, id, slots, msg), id, slot) == At(log, id, slot) + Copies(slots, slot, msg)
  {
    if slots == [] {
    } else {
      RecordAllAppends(log, id, slots[..|slots| - 1], msg, slot);
    }
  }

  lemma {:induction false} OtherSessionsNotRecorded(log: map<(Uuid, Slot), seq<Msg>>, id: Uuid, slots: seq<Slot>,
                                                    msg: Msg, other: Uuid, slot: Slot)
    requires other != id
    ensures At(RecordAll(log, id, slots, msg), other, slot) == At(log, other, slot)
  {
    if slots == [] {
    } else {
      OtherSessionsNotRecorded(log, id, slots[..|slots| - 1], msg, other, slot);
    }
  }

  // ------------------------------------------------------------------ queues

  /** Everything sent to a slot has been handed out, in order and once, or is waiting in it. */
  ghost predicate QueueConserved(w: World, id: Uuid, slot: Slot) {
    if id in w.now.live then
      && At(w.history.sent, id, slot) == At(w.history.delivered, id, slot) + w.now.live[id].Queued(slot)
      && (slot in w.now.live[id].queue ==> InSession(w.now.live[id], slot))
    else
      && At(w.history.delivered, id, slot) <= At(w.history.sent, id, slot)
      && (id !in w.history.created ==> At(w.history.sent, id, slot) == [])
  }

  lemma SendConservesQueue(w: World, a: Action, id: Uuid, slot: Slot)
    requires QueueConserved(w, id, slot) && a.DoSend? && Send(w.now, a.user, a.id, a.keys, a.body).outcome.Ok?
    ensures QueueConserved(Apply(w, a), id, slot)
  {
    hide RecordAll, PushAll, Recipients;
    var slots, msg := Recipients(a.keys), Msg(a.user, a.body);
    if a.id == id {
      var queue := w.now.live[id].queue;
      PushAllAppends(queue, slots, msg, slot);
      RecordAllAppends(w.history.sent, id, slots, msg, slot);
      assert Apply(w, a).now.live[id].queue == PushAll(queue, slots, msg);
    } else {
      OtherSessionsNotRecorded(w.history.sent, a.id, slots, msg, id, slot);
    }
  }

  lemma StepConservesQueue(w: World, a: Action, id: Uuid, slot: Slot)
    requires QueueConserved(w, id, slot) && w.now.live.Keys <= w.history.created.Keys
    ensures QueueConserved(Apply(w, a), id, slot)
  {
    hide RecordAll, PushAll, Recipients, EnterAll, LeaveAll;
    if a.DoSend? && Send(w.now, a.user, a.id, a.keys, a.body).outcome.Ok? {
      SendConservesQueue(w, a, id, slot);
    }
  }

  lemma {:induction false} SessionsAreRecorded(actions: seq<Action>)
    ensures Execute(actions).now.live.Keys <= Execute(actions).history.created.Keys
  {
    hide RecordAll, PushAll, Recipients, EnterAll, LeaveAll;
    if actions == [] {
    } else {
      SessionsAreRecorded(actions[..|actions| - 1]);
    }
  }

  /**
   * Over every interleaving, for every slot of every live session: the messages addressed to it
   * are, in order, those handed out from it followed by those in its queue; and queues exist
   * only for the coordinator and the participants.
   */
  lemma {:induction false} QueuesAreConserved(actions: seq<Action>, id: Uuid, slot: Slot)
    ensures QueueConserved(Execute(actions), id, slot)
  {
    if actions == [] {
    } else {
      var last := |actions| - 1;
      QueuesAreConserved(actions[..last], id, slot);
      SessionsAreRecorded(actions[..last]);
      StepConservesQueue(Execute(actions[..last]), actions[last], id, slot);
    }
  }

  /** Whose queue it is: the coordinator's own, or the participant's. */
  predicate Owns(session: Session, user: PublicKey, slot: Slot) {
    match slot
    case Coordinator => user == session.coordinator
    case Participant(key) => user == key
  }

  /**
   * A queue is drained only by its owner, a member of the session, who gets all of it; anything
   * else can only add to it.
   */
  lemma OnlyOwnerDrains(w: World, a: Action, id: Uuid, slot: Slot)
    requires id in w.now.live && id in Apply(w, a).now.live
    requires w.now.live.Keys <= w.history.created.Keys
    ensures var session := w.now.live[id];
            var before, after := session.Queued(slot), Apply(w, a).now.live[id].Queued(slot);
            || (before <= after && At(Apply(w, a).history.delivered, id, slot) == At(w.history.delivered, id, slot))
            || (&& a.DoReceive? && a.id == id && after == []
                && Owns(session, a.user, slot) && (a.user in session.pubkeys || a.user == session.coordinator)
                && Receive(w.now, a.user, id, a.asCoordinator).outcome == Ok(before)
                && At(Apply(w, a).history.delivered, id, slot) == At(w.history.delivered, id, slot) + before)
  {
    hide RecordAll, PushAll, Recipients, EnterAll, LeaveAll;
    if a.DoSend? && a.id == id && Send(w.now, a.user, id, a.keys, a.body).outcome.Ok? {
      var queue, slots, msg := w.now.live[id].queue, Recipients(a.keys), Msg(a.user, a.body);
      PushAllAppends(queue, slots, msg, slot);
      assert Apply(w, a).now.live[id].queue == PushAll(queue, slots, msg);
    }
  }

  /**
   * Every member can read what is its own: a participant its queue, and a coordinator that asks
   * as such the coordinator's. Nobody else can read anything, and no other queue is touched.
   */
  lemma MembersReadTheirOwn(s: Sessions, user: PublicKey, id: Uuid, asCoordinator: bool)
    ensures var r := Receive(s, user, id, asCoordinator);
            && (r.outcome.Ok? <==> id in s.live && (user in s.live[id].pubkeys || user == s.live[id].coordinator))
            && (r.outcome.Ok? ==>
                  var slot := if asCoordinator && user == s.live[id].coordinator then Coordinator
                              else Participant(user);
                  && r.outcome == Ok(s.live[id].Queued(slot))
                  && id in r.sessions.live && r.sessions.live[id].Queued(slot) == []
                  && forall other | other != slot :: r.sessions.live[id].Queued(other) == s.live[id].Queued(other))
            && (r.outcome.Err? ==>
                  r.sessions == s && r.outcome.error == if id !in s.live then SessionNotFound else NotInSession)
  {
  }

  function SlotsOf(keys: seq<PublicKey>): (slots: seq<Slot>)
    ensures |slots| == |keys|
  {
    seq(|keys|, i requires 0 <= i < |keys| => Participant(keys[i]))
  }

  function Repeated(msg: Msg, count: nat): (msgs: seq<Msg>)
    ensures |msgs| == count && forall m | m in msgs :: m == msg
  {
    if count == 0 then [] else Repeated(msg, count - 1) + [msg]
  }

  /** As many copies of a message as there are mentions of a key. */
  lemma {:induction false} CopiesOfMentions(keys: seq<PublicKey>, key: PublicKey, msg: Msg)
    ensures Copies(SlotsOf(keys), Participant(key), msg) == Repeated(msg, multiset(keys)[key])
    ensures Copies(SlotsOf(keys), Coordinator, msg) == []
  {
    if keys == [] {
    } else {
      var last := |keys| - 1;
      CopiesOfMentions(keys[..last], key, msg);
      assert SlotsOf(keys)[..last] == SlotsOf(keys[..last]);
      assert keys == keys[..last] + [keys[last]];
      assert multiset(keys)[key] == multiset(keys[..last])[key] + if keys[last] == key then 1 else 0;
    }
  }

  /**
   * A message is accepted from a member for members, if it is not too big; it then reaches the
   * coordinator if nobody is named, and otherwise each key named, as often as it is, and nobody else.
   */
  lemma SendReachesThoseNamed(s: Sessions, user: PublicKey, id: Uuid, keys: seq<PublicKey>, body: Bytes)
    ensures var r := Send(s, user, id, keys, body);
            && (r.outcome.Ok? <==>
                  && |body| <= 65535 && id in s.live
                  && (user in s.live[id].pubkeys || user == s.live[id].coordinator)
                  && forall key | key in keys :: key in s.live[id].pubkeys)
            && (r.outcome.Err? ==>
                  && r.sessions == s
                  && r.outcome.error == if |body| > 65535 then InvalidArgument
                                        else if id !in s.live then SessionNotFound else NotInSession)
            && (r.outcome.Ok? ==>
                  && id in r.sessions.live
                  && r.sessions.live[id].Queued(Coordinator)
                     == s.live[id].Queued(Coordinator) + (if keys == [] then [Msg(user, body)] else [])
                  && forall key :: r.sessions.live[id].Queued(Participant(key))
                       == s.live[id].Queued(Participant(key)) + Repeated(Msg(user, body), multiset(keys)[key]))
  {
    hide PushAll;
    var slots, msg := Recipients(keys), Msg(user, body);
    assert keys != [] ==> forall i | 0 <= i < |keys| :: slots[i] in slots && slots[i].key == keys[i];
    if Send(s, user, id, keys, body).outcome.Ok? {
      var queue := s.live[id].queue;
      PushAllAppends(queue, slots, msg, Coordinator);
      assert keys == [] ==> Copies(slots, Coordinator, msg) == Copies([], Coordinator, msg) + [msg];
      forall key
        ensures Waiting(PushAll(queue, slots, msg), Participant(key))
             == Waiting(queue, Participant(key)) + Repeated(msg, multiset(keys)[key])
        ensures Waiting(PushAll(queue, slots, msg), Coordinator)
             == Waiting(queue, Coordinator) + (if keys == [] then [msg] else [])
      {
        PushAllAppends(queue, slots, msg, Participant(key));
        CopiesOfMentions(keys, key, msg);
        assert keys != [] ==> slots == SlotsOf(keys);
        assert keys == [] ==> Copies(slots, Participant(key), msg) == Copies([], Participant(key), msg);
      }
    }
  }

  /** Every message in these queues is of a permitted size and from a member of the session. */
  ghost predicate FromMembers(session: Session, queue: map<Slot, seq<Msg>>) {
    forall slot, m | slot in queue && m in queue[slot] :: session.Member(m.sender) && |m.body| <= MAX_MSG_SIZE
  }

  lemma {:induction false} PushAllFromMembers(session: Session, queue: map<Slot, seq<Msg>>, slots: seq<Slot>, msg: Msg)
    requires FromMembers(session, queue) && session.Member(msg.sender) && |msg.body| <= MAX_MSG_SIZE
    ensures FromMembers(session, PushAll(queue, slots, msg))
  {
    if slots == [] {
    } else {
      PushAllFromMembers(session, queue, slots[..|slots| - 1], msg);
    }
  }

  /** Over every interleaving, what waits in a session was sent by its members and is not too big. */
  lemma {:induction false} OnlyMembersAreHeard(actions: seq<Action>, id: Uuid)
    requires id in Execute(actions).now.live
    ensures FromMembers(Execute(actions).now.live[id], Execute(actions).now.live[id].queue)
  {
    hide RecordAll, PushAll, Recipients, EnterAll, LeaveAll;
    if actions == [] {
    } else {
      var last := |actions| - 1;
      var w, a := Execute(actions[..last]), actions[last];
      if id in w.now.live {
        OnlyMembersAreHeard(actions[..last], id);
        var session := w.now.live[id];
        if a.DoSend? && a.id == id && Send(w.now, a.user, id, a.keys, a.body).outcome.Ok? {
          PushAllFromMembers(session, session.queue, Recipients(a.keys), Msg(a.user, a.body));
        }
      }
    }
  }

  /** A request touches no session but the one it names. */
  lemma OtherSessionsUntouched(w: World, a: Action, id: Uuid)
    requires !a.DoClean? ==> a.id != id
    ensures id in Apply(w, a).now.live <==> id in w.now.live
    ensures id in w.now.live ==> Apply(w, a).now.live[id] == w.now.live[id]
  {
  }

  // ------------------------------------------------------------------ lists

  /**
   * Exactly when a key is listed under: a live session for its members, an expired one being
   * cleaned up likewise, and after that only for a coordinator that took no part.
   */
  ghost predicate ShouldList(w: World, id: Uuid, key: PublicKey) {
    || (id in w.now.live && w.now.live[id].Member(key))
    || (id in w.history.expired && id in w.history.created
        && if w.cleaning.Some? && w.cleaning.value.0 == id then w.history.created[id].Member(key)
           else key == w.history.created[id].coordinator && key !in w.history.created[id].pubkeys)
  }

  /** What the history says of a session agrees with the state. */
  ghost predicate Consistent(w: World, id: Uuid) {
    && (id in w.now.live ==>
          && id in w.history.created && id !in w.history.expired
          && w.now.live[id].pubkeys == w.history.created[id].pubkeys
          && w.now.live[id].messageCount == w.history.created[id].messageCount
          && w.now.live[id].coordinator == w.history.created[id].coordinator)
    && (id in w.history.expired ==> id in w.history.created)
    && (w.cleaning.Some? && w.cleaning.value.0 == id ==>
          && id in w.history.expired
          && w.cleaning.value.1.pubkeys == w.history.created[id].pubkeys
          && w.cleaning.value.1.coordinator == w.history.created[id].coordinator)
  }

  ghost predicate ListExact(w: World, id: Uuid, key: PublicKey) {
    Consistent(w, id) && (id in Listed(w.now.byKey, key) <==> ShouldList(w, id, key))
  }

  lemma CreateKeepsListExact(w: World, a: Action, id: Uuid, key: PublicKey)
    requires ListExact(w, id, key) && a.DoCreate?
    ensures ListExact(Apply(w, a), id, key)
  {
    hide EnterAll;
    EnterAllLists(w.now.byKey, a.pubkeys, a.id, key);
  }

  lemma CloseKeepsListExact(w: World, a: Action, id: Uuid, key: PublicKey)
    requires ListExact(w, id, key) && a.DoClose?
    ensures ListExact(Apply(w, a), id, key)
  {
    hide LeaveAll;
    if a.id in w.now.live { LeaveAllLists(w.now.byKey, w.now.live[a.id].pubkeys, a.id, key); }
  }

  lemma CleanKeepsListExact(w: World, id: Uuid, key: PublicKey)
    requires ListExact(w, id, key)
    ensures ListExact(Apply(w, DoClean), id, key)
  {
    hide LeaveAll;
    if w.cleaning.Some? { LeaveAllLists(w.now.byKey, w.cleaning.value.1.pubkeys, w.cleaning.value.0, key); }
  }

  lemma StepKeepsListExact(w: World, a: Action, id: Uuid, key: PublicKey)
    requires ListExact(w, id, key)
    ensures ListExact(Apply(w, a), id, key)
  {
    hide RecordAll, PushAll, Recipients, EnterAll, LeaveAll;
    match a
    case DoCreate(_, _, _, _) => CreateKeepsListExact(w, a, id, key);
    case DoClose(_, _) => CloseKeepsListExact(w, a, id, key);
    case DoClean => CleanKeepsListExact(w, id, key);
    case _ =>
  }

  /** Over every interleaving the lists are exact, entry by entry. */
  lemma {:induction false} ListsAreExact(actions: seq<Action>, id: Uuid, key: PublicKey)
    ensures ListExact(Execute(actions), id, key)
  {
    if actions == [] {
    } else {
      var last := |actions| - 1;
      ListsAreExact(actions[..last], id, key);
      StepKeepsListExact(Execute(actions[..last]), actions[last], id, key);
    }
  }

  /**
   * The index never gets in the way of a live session: over every interleaving, just its members
   * can see it, with what it was created with, and just its coordinator can close it.
   */
  lemma AccessIsExact(actions: seq<Action>, user: PublicKey, id: Uuid)
    ensures var w := Execute(actions);
            var info := GetSessionInfo(w.now, user, id);
            && (info.Ok? <==>
                  id in w.now.live && (user in w.now.live[id].pubkeys || user == w.now.live[id].coordinator))
            && (info.Err? ==> info.error == SessionNotFound)
            && (info.Ok? ==>
                  && id in w.history.created
                  && info.value.0 == w.history.created[id].messageCount
                  && info.value.1 == w.history.created[id].pubkeys && info.value.2 == w.history.created[id].coordinator)
            && CloseSession(w.now, user, id).outcome
               == (if id !in w.now.live || !(user in w.now.live[id].pubkeys || user == w.now.live[id].coordinator)
                   then Err(SessionNotFound)
                   else if user != w.now.live[id].coordinator then Err(NotCoordinator) else Ok(()))
            && (CloseSession(w.now, user, id).outcome.Err? ==> CloseSession(w.now, user, id).sessions == w.now)
  {
    hide Execute;
    ListsAreExact(actions, id, user);
  }

  /** A session is created as it was asked for, and listed under everybody it names and its coordinator. */
  lemma CreatedAsAsked(s: Sessions, user: PublicKey, pubkeys: seq<PublicKey>, messageCount: byte, id: Uuid)
    ensures var r := CreateNewSession(s, user, pubkeys, messageCount, id);
            && (if messageCount == 0 then r == Reply(s, Err(InvalidArgument))
                else
                  && r.outcome == Ok(id)
                  && r.sessions.live == s.live[id := Session(pubkeys, user, messageCount, map[])]
                  && forall key :: Listed(r.sessions.byKey, key)
                       == Listed(s.byKey, key) + if key in pubkeys || key == user then {id} else {})
  {
    hide EnterAll;
    forall key
      ensures Listed(EnterAll(s.byKey, pubkeys, id), key) == Listed(s.byKey, key) + if key in pubkeys then {id} else {}
    {
      EnterAllLists(s.byKey, pubkeys, id, key);
    }
  }

  /** A session that was created, is over, and did not expire. */
  ghost predicate Over(w: World, id: Uuid) {
    id in w.history.created && id !in w.now.live && id !in w.history.expired
  }

  lemma OverStep(w: World, a: Action, id: Uuid)
    requires Over(w, id)
    ensures Over(Apply(w, a), id)
  {
    hide RecordAll, PushAll, Recipients, EnterAll, LeaveAll;
  }

  lemma {:induction false} OverStays(before: seq<Action>, after: seq<Action>, id: Uuid)
    requires Over(Execute(before), id)
    ensures Over(Execute(before + after), id)
  {
    hide Apply, Over;
    if after == [] {
      assert before + after == before;
    } else {
      var last := |after| - 1;
      var all := before + after;
      OverStays(before, after[..last], id);
      assert all[..|all| - 1] == before + after[..last] && all[|all| - 1] == after[last];
      OverStep(Execute(before + after[..last]), after[last], id);
    }
  }

  /**
   * A session its coordinator closes is gone: from then on, whatever happens, it is not live and
   * nobody has it listed. Closing touches no other session.
   */
  lemma ClosedIsGone(before: seq<Action>, user: PublicKey, id: Uuid, after: seq<Action>, key: PublicKey)
    requires id in Execute(before).now.live && Execute(before).now.live[id].coordinator == user
    ensures var closed := Execute(before + [DoClose(user, id)]);
            closed.now.live == Execute(before).now.live - {id}
    ensures var w := Execute(before + [DoClose(user, id)] + after);
            id !in w.now.live && id !in ListSessions(w.now, key)
  {
    var closing := before + [DoClose(user, id)];
    assert closing[..|closing| - 1] == before;
    ListsAreExact(before, id, user);
    OverStays(closing, after, id);
    ListsAreExact(closing + after, id, key);
  }

  /** The live sessions a user is a member of. */
  ghost function LiveSessionsOf(w: World, user: PublicKey): set<Uuid> {
    set id | id in w.now.live && w.now.live[id].Member(user)
  }

  /** The expired sessions that `user` coordinated without taking part. */
  ghost function Stale(w: World, user: PublicKey): set<Uuid> {
    set id | id in w.history.expired && id in w.history.created
             && w.history.created[id].coordinator == user && user !in w.history.created[id].pubkeys
  }

  /**
   * With no clean-up pending, what a user is listed is its live sessions and its stale ones; so
   * the list is right just when the user coordinated no expired session from outside.
   */
  lemma ListIsRightUnlessStale(actions: seq<Action>, user: PublicKey)
    requires Execute(actions).cleaning.None?
    ensures var w := Execute(actions);
            && ListSessions(w.now, user) == LiveSessionsOf(w, user) + Stale(w, user)
            && (ListSessions(w.now, user) == LiveSessionsOf(w, user) <==> Stale(w, user) == {})
  {
    var w := Execute(actions);
    forall id ensures id in ListSessions(w.now, user) <==> id in LiveSessionsOf(w, user) + Stale(w, user) {
      ListsAreExact(actions, id, user);
    }
    forall id | id in Stale(w, user) ensures id !in LiveSessionsOf(w, user) {
      ListsAreExact(actions, id, user);
    }
    if Stale(w, user) != {} {
      var id :| id in Stale(w, user);
      assert id in LiveSessionsOf(w, user) + Stale(w, user);
    }
  }

  lemma StaleStep(w: World, a: Action, user: PublicKey, id: Uuid)
    requires Consistent(w, id) && id in Stale(w, user)
    ensures id in Stale(Apply(w, a), user)
  {
  }

  lemma {:induction false} StaleStays(before: seq<Action>, after: seq<Action>, user: PublicKey, id: Uuid)
    requires id in Stale(Execute(before), user)
    ensures id in Stale(Execute(before + after), user)
  {
    hide Apply;
    if after == [] {
      assert before + after == before;
    } else {
      var last := |after| - 1;
      var all := before + after;
      StaleStays(before, after[..last], user, id);
      assert all[..|all| - 1] == before + after[..last] && all[|all| - 1] == after[last];
      ListsAreExact(before + after[..last], id, user);
      StaleStep(Execute(before + after[..last]), after[last], user, id);
    }
  }

  /** A stale entry is listed from then on for good: it cannot be read and it cannot be closed. */
  lemma StaleEntriesAreForGood(before: seq<Action>, after: seq<Action>, user: PublicKey, id: Uuid)
    requires id in Stale(Execute(before), user)
    ensures var w := Execute(before + after);
            && id in ListSessions(w.now, user)
            && GetSessionInfo(w.now, user, id) == Err(SessionNotFound)
            && CloseSession(w.now, user, id) == Reply(w.now, Err(SessionNotFound))
  {
    StaleStays(before, after, user, id);
    ListsAreExact(before + after, id, user);
  }

  /** Stale entries do occur: a coordinator from outside lets its session time out. */
  lemma StaleEntryExists(user: PublicKey, other: PublicKey, id: Uuid)
    requires user != other
    ensures var w := Execute([DoCreate(user, [other], 1, id), DoExpire(id), DoClean]);
            w.cleaning.None? && id in Stale(w, user) && id !in w.now.live
  {
    var a, b, c := DoCreate(user, [other], 1, id), DoExpire(id), DoClean;
    assert [a, b, c][..2] == [a, b] && [a, b][..1] == [a] && [a][..0] == [];
    assert Execute([a]) == Apply(INIT, a);
    assert Execute([a, b]) == Apply(Execute([a]), b);
    assert Execute([a, b, c]) == Apply(Execute([a, b]), c);
  }
}
