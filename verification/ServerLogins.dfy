/**
 * Logins over any interleaving: many may have passed the signature check before one of them
 * takes the challenge, and a login that took it has yet to store its token.
 */
module ServerLogins {
  import opened Wrappers
  import opened Server

  /** What a token was issued for. */
  datatype Grant = Grant(challenge: Uuid, key: PublicKey, signature: Bytes)

  /**
   * `checked` are the logins whose signature was found good, `granted` those that then took their
   * challenge and have no token yet. `issued` and `origin` are history: the challenges ever
   * handed out, and what each access token ever handed out was for.
   */
  datatype World = World(challenges: set<Uuid>, tokens: map<Uuid, PublicKey>,
                         checked: set<Grant>, granted: seq<Grant>,
                         issued: set<Uuid>, origin: map<Uuid, Grant>)

  datatype Action =
    | Challenge(id: Uuid)
    | ExpireChallenge(id: Uuid)
    | Check(login: Grant)
    | TakeChallenge(login: Grant)
    | StoreToken(which: nat, token: Uuid)
    | ExpireToken(token: Uuid)
    | Logout(token: Uuid)

  type Verifier = (PublicKey, Uuid, Bytes) -> bool

  const INIT := World({}, map[], {}, [], {}, map[])

  /** One atomic piece of a handler, or a timeout; one that is not possible changes nothing. */
  function Apply(verify: Verifier, w: World, a: Action): World {
    match a
    case Challenge(id) =>
      if id in w.issued then w else w.(challenges := w.challenges + {id}, issued := w.issued + {id})
    case ExpireChallenge(id) => w.(challenges := w.challenges - {id})
    case Check(login) =>
      if |login.key| == 32 && |login.signature| == 64 && verify(login.key, login.challenge, login.signature)
      then w.(checked := w.checked + {login}) else w
    case TakeChallenge(login) =>
      if login in w.checked && login.challenge in w.challenges
      then w.(challenges := w.challenges - {login.challenge}, granted := w.granted + [login]) else w
    case StoreToken(which, token) =>
      if which < |w.granted| && token !in w.origin
      then w.(granted := w.granted[..which] + w.granted[which + 1..],
              tokens := w.tokens[token := w.granted[which].key], origin := w.origin[token := w.granted[which]])
      else w
    case ExpireToken(token) => w.(tokens := w.tokens - {token})
    case Logout(token) => w.(tokens := w.tokens - {token})
  }

  function Execute(verify: Verifier, actions: seq<Action>): World {
    if actions == [] then INIT
    else Apply(verify, Execute(verify, actions[..|actions| - 1]), actions[|actions| - 1])
  }

  /**
   * A login nobody interrupts: it gives out the token just when the key and the signature have
   * their sizes, the signature is good and the challenge is still there, and then uses it up.
   */
  lemma UninterruptedLogin(verify: Verifier, w: World, login: Grant, token: Uuid)
    requires login !in w.checked && w.granted == [] && token !in w.origin
    ensures var checked := Apply(verify, w, Check(login));
            var done := Apply(verify, Apply(verify, checked, TakeChallenge(login)), StoreToken(0, token));
            if |login.key| == 32 && |login.signature| == 64 && verify(login.key, login.challenge, login.signature)
               && login.challenge in w.challenges
            then done.challenges == w.challenges - {login.challenge} && done.tokens == w.tokens[token := login.key]
            else done.challenges == w.challenges && done.tokens == w.tokens
  {
    var checked := Apply(verify, w, Check(login));
    var taken := Apply(verify, checked, TakeChallenge(login));
    assert taken.granted == if taken == checked then [] else [login];
  }

  /** A challenge that can be taken no more. */
  ghost predicate Spent(w: World, challenge: Uuid) { challenge in w.issued && challenge !in w.challenges }

  ghost predicate Genuine(verify: Verifier, login: Grant) {
    |login.key| == 32 && |login.signature| == 64 && verify(login.key, login.challenge, login.signature)
  }

  ghost predicate Invariant(verify: Verifier, w: World) {
    && w.challenges <= w.issued
    && (forall g | g in w.checked :: Genuine(verify, g))
    && (forall i | 0 <= i < |w.granted| :: Genuine(verify, w.granted[i]) && Spent(w, w.granted[i].challenge))
    && (forall i, j | 0 <= i < j < |w.granted| :: w.granted[i].challenge != w.granted[j].challenge)
    && (forall t | t in w.origin :: Genuine(verify, w.origin[t]) && Spent(w, w.origin[t].challenge))
    && (forall t, i | t in w.origin && 0 <= i < |w.granted| :: w.origin[t].challenge != w.granted[i].challenge)
    && (forall t, u | t in w.origin && u in w.origin && t != u :: w.origin[t].challenge != w.origin[u].challenge)
    && (forall t | t in w.tokens :: t in w.origin && w.tokens[t] == w.origin[t].key)
  }

  lemma StoreKeepsInvariant(verify: Verifier, w: World, which: nat, token: Uuid)
    requires Invariant(verify, w) && which < |w.granted| && token !in w.origin
    ensures Invariant(verify, Apply(verify, w, StoreToken(which, token)))
  {
    var w' := Apply(verify, w, StoreToken(which, token));
    forall i | 0 <= i < |w'.granted| ensures w'.granted[i] == w.granted[if i < which then i else i + 1] {
    }
  }

  lemma StepKeepsInvariant(verify: Verifier, w: World, a: Action)
    requires Invariant(verify, w)
    ensures Invariant(verify, Apply(verify, w, a))
  {
    match a
    case StoreToken(which, token) =>
      if which < |w.granted| && token !in w.origin { StoreKeepsInvariant(verify, w, which, token); }
    case _ =>
  }

  lemma {:induction false} ExecutionKeepsInvariant(verify: Verifier, actions: seq<Action>)
    ensures Invariant(verify, Execute(verify, actions))
  {
    if actions == [] {
    } else {
      var last := |actions| - 1;
      ExecutionKeepsInvariant(verify, actions[..last]);
      StepKeepsInvariant(verify, Execute(verify, actions[..last]), actions[last]);
    }
  }

  /**
   * Challenges are single-use: every access token ever issued comes from its own challenge, one
   * the server had handed out and will not accept again, and a token stands for the key whose
   * signature of that challenge was good.
   */
  lemma ChallengesAreSingleUse(verify: Verifier, actions: seq<Action>)
    ensures var w := Execute(verify, actions);
            && (forall t, u | t in w.origin && u in w.origin
                              && w.origin[t].challenge == w.origin[u].challenge :: t == u)
            && (forall t | t in w.origin ::
                  && w.origin[t].challenge in w.issued && w.origin[t].challenge !in w.challenges
                  && verify(w.origin[t].key, w.origin[t].challenge, w.origin[t].signature))
            && (forall t | t in w.tokens :: t in w.origin && w.tokens[t] == w.origin[t].key)
            && |w.origin| <= |w.issued|
  {
    ExecutionKeepsInvariant(verify, actions);
    var w := Execute(verify, actions);
    FewerThanIssued(w.origin, w.issued);
  }

  lemma {:induction false} FewerThanIssued(origin: map<Uuid, Grant>, issued: set<Uuid>)
    requires forall t | t in origin :: origin[t].challenge in issued
    requires forall t, u | t in origin && u in origin && t != u :: origin[t].challenge != origin[u].challenge
    ensures |origin| <= |issued|
    decreases |origin|
  {
    if |origin| == 0 {
    } else {
      var t :| t in origin;
      var rest := origin - {t};
      FewerThanIssued(rest, issued - {origin[t].challenge});
      assert |rest| == |origin| - 1;
    }
  }
}
