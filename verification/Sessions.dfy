/**
 Challenges and sessions of connected wallets: two in-memory maps, and what a whole history of
 calls makes of them. Times are clock readings in milliseconds and need not increase. An address
 is the account it names, or None when the text is not an address. Signatures and the token's
 authentication code cannot be forged, and hashing a token loses nothing.
 */
module Sessions {
  import opened Prelude

  const CHALLENGE_TTL: nat := 5 * 60 * 1000
  const IDLE_TIMEOUT: nat := 15 * 60 * 1000

  datatype Message = Message(address: nat, nonce: nat)

  datatype Signature = Absent | Garbled | Signature(signer: nat, message: Message)

  /** A token whose code is right carries an address and the time it was made. */
  datatype Token = Signed(address: nat, iat: nat) | Unsigned(text: string)

  datatype Challenge = Challenge(message: Message, expires: nat)

  datatype Store = Store(challenges: map<nat, Challenge>, activity: map<Token, nat>)

  /** A call with the clock readings it makes; verifying reads the clock three times. */
  datatype Call =
    | Issue(address: Option<nat>, nonce: nat, now: nat)
    | Verify(address: Option<nat>, signature: Signature, now: nat, iat: nat, seen: nat)
    | Use(token: Token, now: nat)
    | Revoke(token: Token)

  /** verifyMessage: who signed this message. */
  function Recover(message: Message, signature: Signature): Option<nat> {
    if signature.Signature? && signature.message == message then Some(signature.signer) else None
  }

  /** A use at `now` is close enough to a last use at `last`; a last use at time zero reads as none. */
  predicate Fresh(last: nat, now: nat) {
    last != 0 && now - last <= IDLE_TIMEOUT
  }

  /** That is at most fifteen minutes, and a challenge answered in less than five counts. */
  lemma MinutesAllowed(last: nat, now: nat)
    ensures Fresh(last, now) <==> last > 0 && now <= last + 900000
    ensures now < last + CHALLENGE_TTL <==> now < last + 300000
  {
  }

  // ---------------------------------------------------------------- the store, call by call

  function Step(s: Store, c: Call): Store {
    match c
    case Issue(address, nonce, now) =>
      if address.None? then s
      else
        var challenge := Challenge(Message(address.value, nonce), now + CHALLENGE_TTL);
        s.(challenges := s.challenges[address.value := challenge])
    case Verify(address, signature, now, iat, seen) =>
      if signature.Absent? || address.None? || address.value !in s.challenges then s
      else if s.challenges[address.value].expires <= now then s.(challenges := s.challenges - {address.value})
      else if !LogsIn(s, c) then s
      else Store(s.challenges - {address.value}, s.activity[Signed(address.value, iat) := seen])
    case Use(token, now) =>
      if token.Unsigned? || token !in s.activity || s.activity[token] == 0 then s
      else if !Accepts(s, token, now) then s.(activity := s.activity - {token})
      else s.(activity := s.activity[token := now])
    case Revoke(token) => if token == Unsigned("") then s else s.(activity := s.activity - {token})
  }

  predicate LogsIn(s: Store, c: Call) {
    && c.Verify? && c.address.Some? && c.address.value in s.challenges
    && c.now < s.challenges[c.address.value].expires
    && Recover(s.challenges[c.address.value].message, c.signature) == c.address
  }

  predicate Accepts(s: Store, token: Token, now: nat) {
    token.Signed? && token in s.activity && Fresh(s.activity[token], now)
  }

  /** The store after the first n calls of a history that started empty. */
  function After(t: seq<Call>, n: nat): Store
    requires n <= |t|
  {
    if n == 0 then Store(map[], map[]) else Step(After(t, n - 1), t[n - 1])
  }

  // ---------------------------------------------------------------- the same, read off the history

  ghost predicate Issues(t: seq<Call>, c: nat, a: nat) {
    c < |t| && t[c].Issue? && t[c].address == Some(a)
  }

  /** Call j answers the challenge issued at c, in time or not, in such a way that it is spent. */
  ghost predicate Spends(t: seq<Call>, c: nat, j: nat, a: nat)
    requires Issues(t, c, a)
  {
    && j < |t| && t[j].Verify? && t[j].address == Some(a) && !t[j].signature.Absent?
    && (t[c].now + CHALLENGE_TTL <= t[j].now || t[j].signature == Signature(a, Message(a, t[c].nonce)))
  }

  /** The challenge issued at c is the latest for its address before call n, and unspent. */
  ghost predicate Outstanding(t: seq<Call>, n: nat, c: nat, a: nat) {
    && Issues(t, c, a) && c < n
    && forall j :: c < j < n ==> !Issues(t, j, a) && !Spends(t, c, j, a)
  }

  /** Call i answers the outstanding, unexpired challenge issued at c with its signature. */
  ghost predicate Answers(t: seq<Call>, c: nat, i: nat, a: nat) {
    && i < |t| && Outstanding(t, i, c, a) && t[i].Verify? && t[i].address == Some(a)
    && t[i].now < t[c].now + CHALLENGE_TTL && t[i].signature == Signature(a, Message(a, t[c].nonce))
  }

  ghost predicate AnswersOne(t: seq<Call>, i: nat, a: nat) {
    exists c: nat :: Answers(t, c, i, a)
  }

  /** Call i is a login that hands out this token. */
  ghost predicate Opens(t: seq<Call>, i: nat, token: Token) {
    && i < |t| && t[i].Verify? && token.Signed? && token.iat == t[i].iat
    && AnswersOne(t, i, token.address)
  }

  ghost predicate Touches(t: seq<Call>, i: nat, token: Token) {
    i < |t| && (Opens(t, i, token) || t[i] == Use(token, Moment(t[i])))
  }

  ghost function Moment(c: Call): nat {
    if c.Verify? then c.seen else if c.Revoke? then 0 else c.now
  }

  ghost predicate Adjacent(t: seq<Call>, p: nat, q: nat, token: Token) {
    && p < q && Touches(t, p, token) && Touches(t, q, token)
    && forall k :: p < k < q ==> !Touches(t, k, token)
  }

  /** Before call n the token was handed out at i and never since, was not revoked since, its last
      use was at `last`, and its consecutive uses are all close enough. */
  ghost predicate Live(t: seq<Call>, n: nat, i: nat, last: nat, token: Token) {
    && i <= last < n <= |t| && Opens(t, i, token) && Touches(t, last, token)
    && (forall j :: i < j < n ==> !Opens(t, j, token) && t[j] != Revoke(token))
    && (forall k :: last < k < n ==> !Touches(t, k, token))
    && (forall p: nat, q: nat :: i <= p < q < n && Adjacent(t, p, q, token) ==> Fresh(Moment(t[p]), Moment(t[q])))
  }

  // ---------------------------------------------------------------- challenges

  lemma OutstandingStep(t: seq<Call>, n: nat, c: nat, a: nat)
    requires 0 < n <= |t|
    ensures Outstanding(t, n, c, a) <==>
            Issues(t, c, a) &&
            (c == n - 1 || (Outstanding(t, n - 1, c, a) && !Issues(t, n - 1, a) && !Spends(t, c, n - 1, a)))
  {
  }

  /** The challenge map holds exactly the outstanding challenges. */
  lemma {:induction false} ChallengesRefineHistory(t: seq<Call>, n: nat, a: nat)
    requires n <= |t|
    ensures a in After(t, n).challenges <==> exists c: nat :: Outstanding(t, n, c, a)
    ensures forall c: nat :: Outstanding(t, n, c, a) ==>
              a in After(t, n).challenges
                  && After(t, n).challenges[a] == Challenge(Message(a, t[c].nonce), t[c].now + CHALLENGE_TTL)
  {
    if n > 0 {
      ChallengesRefineHistory(t, n - 1, a);
      forall c: nat ensures Outstanding(t, n, c, a) <==>
            Issues(t, c, a) &&
            (c == n - 1 || (Outstanding(t, n - 1, c, a) && !Issues(t, n - 1, a) && !Spends(t, c, n - 1, a)))
      {
        OutstandingStep(t, n, c, a);
      }
      if Issues(t, n - 1, a) {
        assert Outstanding(t, n, n - 1, a);
      } else if a in After(t, n - 1).challenges {
        var c: nat :| Outstanding(t, n - 1, c, a);
        assert a in After(t, n).challenges <==> !Spends(t, c, n - 1, a);
      }
    }
  }

  /** A verification succeeds exactly when it answers an outstanding, unexpired challenge. */
  lemma LoginsAnswerChallenges(t: seq<Call>, i: nat)
    requires i < |t|
    ensures LogsIn(After(t, i), t[i]) <==> t[i].Verify? && t[i].address.Some? && AnswersOne(t, i, t[i].address.value)
  {
    if t[i].Verify? && t[i].address.Some? {
      var a := t[i].address.value;
      ChallengesRefineHistory(t, i, a);
      if LogsIn(After(t, i), t[i]) {
        var c: nat :| Outstanding(t, i, c, a);
        assert Answers(t, c, i, a);
      }
    }
  }

  ghost function Challenged(t: seq<Call>, n: nat, a: nat): nat
    requires n <= |t|
  {
    if n == 0 then 0 else Challenged(t, n - 1, a) + if Issues(t, n - 1, a) then 1 else 0
  }

  ghost function LoggedIn(t: seq<Call>, n: nat, a: nat): nat
    requires n <= |t|
  {
    if n == 0 then 0 else LoggedIn(t, n - 1, a) + if AnswersOne(t, n - 1, a) then 1 else 0
  }

  /** An address never has more logins than challenges issued for it. */
  lemma {:induction false} LoginsWithinChallenges(t: seq<Call>, n: nat, a: nat)
    requires n <= |t|
    ensures LoggedIn(t, n, a) + (if a in After(t, n).challenges then 1 else 0) <= Challenged(t, n, a)
  {
    if n > 0 {
      LoginsWithinChallenges(t, n - 1, a);
      LoginsAnswerChallenges(t, n - 1);
    }
  }

  /** If no nonce is drawn twice, a signature logs in at most once in a whole history. */
  lemma SignatureLogsInOnce(t: seq<Call>, a: nat, i: nat, j: nat)
    requires forall c: nat, d: nat, x: nat, y: nat :: Issues(t, c, x) && Issues(t, d, y) && c != d ==>
        t[c].nonce != t[d].nonce
    requires i <= j < |t| && LogsIn(After(t, i), t[i]) && LogsIn(After(t, j), t[j])
    requires t[i].address == t[j].address == Some(a) && t[i].signature == t[j].signature
    ensures i == j
  {
    LoginsAnswerChallenges(t, i);
    LoginsAnswerChallenges(t, j);
    var c: nat :| Answers(t, c, i, a);
    var d: nat :| Answers(t, d, j, a);
    assert c == d;
    assert i > c && Spends(t, c, i, a);
  }

  // ---------------------------------------------------------------- sessions

  /** What the activity map says of a token, an entry at time zero counting as none. */
  ghost function Held(s: Store, token: Token): Option<nat> {
    if token in s.activity && s.activity[token] != 0 then Some(s.activity[token]) else None
  }

  /** The last call before n that touches the token, seen from a live session. */
  lemma LiveStep(t: seq<Call>, n: nat, i: nat, last: nat, token: Token)
    requires 0 < n <= |t| && !Touches(t, n - 1, token)
    ensures Live(t, n, i, last, token) <==> Live(t, n - 1, i, last, token) && t[n - 1] != Revoke(token)
  {
  }

  lemma LiveOpened(t: seq<Call>, n: nat, i: nat, last: nat, token: Token)
    requires 0 < n <= |t| && Opens(t, n - 1, token)
    ensures Live(t, n, i, last, token) <==> i == n - 1 == last
  {
    assert Touches(t, n - 1, token);
  }

  lemma LiveUsed(t: seq<Call>, n: nat, i: nat, last: nat, before: nat, token: Token)
    requires 0 < n <= |t| && t[n - 1] == Use(token, Moment(t[n - 1])) && Live(t, n - 1, i, before, token)
    ensures Live(t, n, i, last, token) <==> last == n - 1 && Fresh(Moment(t[before]), Moment(t[n - 1]))
  {
    assert Touches(t, n - 1, token);
    assert Adjacent(t, before, n - 1, token);
    if last == n - 1 && Fresh(Moment(t[before]), Moment(t[n - 1])) {
      forall p: nat, q: nat | i <= p < q < n && Adjacent(t, p, q, token) ensures Fresh(Moment(t[p]), Moment(t[q])) {
        if q == n - 1 {
          assert p == before;
        }
      }
    }
  }

  /** The last touch of a token before n, when there is one at or after i. */
  lemma {:induction false} LastTouch(t: seq<Call>, n: nat, i: nat, token: Token) returns (last: nat)
    requires i < n <= |t| && Touches(t, i, token)
    ensures i <= last < n && Touches(t, last, token) && forall k :: last < k < n ==> !Touches(t, k, token)
  {
    if Touches(t, n - 1, token) { last := n - 1; } else { last := LastTouch(t, n - 1, i, token); }
  }

  /** A session that is live after a use was live before it. */
  lemma LiveBefore(t: seq<Call>, n: nat, i: nat, last: nat, token: Token) returns (before: nat)
    requires 0 < n <= |t| && t[n - 1] == Use(token, Moment(t[n - 1])) && Live(t, n, i, last, token)
    ensures Live(t, n - 1, i, before, token)
  {
    assert Touches(t, n - 1, token) && Touches(t, i, token);
    before := LastTouch(t, n - 1, i, token);
  }

  lemma StepKeepsOthers(t: seq<Call>, n: nat, token: Token)
    requires 0 < n <= |t| && !Touches(t, n - 1, token)
    ensures Held(After(t, n), token) == if t[n - 1] == Revoke(token) then None else Held(After(t, n - 1), token)
  {
    LoginsAnswerChallenges(t, n - 1);
    if token in After(t, n).activity { OnlySignedHeld(t, n, token); }
  }

  lemma StepOpens(t: seq<Call>, n: nat, token: Token)
    requires 0 < n <= |t| && Opens(t, n - 1, token)
    ensures token in After(t, n).activity && After(t, n).activity[token] == Moment(t[n - 1])
  {
    LoginsAnswerChallenges(t, n - 1);
  }

  lemma OnlySignedHeld(t: seq<Call>, n: nat, token: Token)
    requires n <= |t| && token in After(t, n).activity
    ensures token.Signed?
  {
  }

  lemma StepUses(t: seq<Call>, n: nat, token: Token)
    requires 0 < n <= |t| && t[n - 1] == Use(token, Moment(t[n - 1]))
    ensures var held, now := Held(After(t, n - 1), token), Moment(t[n - 1]);
            Held(After(t, n), token) == if held.Some? && Fresh(held.value, now) && now != 0 then Some(now) else None
  {
    if token in After(t, n - 1).activity { OnlySignedHeld(t, n - 1, token); }
  }

  /** What the map holds for a token is the time of the last use of its live session. */
  ghost predicate Agrees(t: seq<Call>, n: nat, token: Token)
    requires n <= |t|
  {
    && (Held(After(t, n), token).Some? ==> exists i: nat, last: nat :: Live(t, n, i, last, token))
    && (forall i: nat, last: nat :: Live(t, n, i, last, token) ==>
          Held(After(t, n), token) == if Moment(t[last]) != 0 then Some(Moment(t[last])) else None)
  }

  lemma AgreesAfterUse(t: seq<Call>, n: nat, token: Token)
    requires 0 < n <= |t| && t[n - 1] == Use(token, Moment(t[n - 1])) && Agrees(t, n - 1, token)
    ensures Agrees(t, n, token)
  {
    StepUses(t, n, token);
    if Held(After(t, n), token).Some? {
      var i: nat, before: nat :| Live(t, n - 1, i, before, token);
      LiveUsed(t, n, i, n - 1, before, token);
      assert Live(t, n, i, n - 1, token);
    }
    forall i: nat, last: nat | Live(t, n, i, last, token)
      ensures Held(After(t, n), token) == if Moment(t[last]) != 0 then Some(Moment(t[last])) else None
    {
      var before := LiveBefore(t, n, i, last, token);
      LiveUsed(t, n, i, last, before, token);
    }
  }

  lemma {:induction false} SessionsRefineHistory(t: seq<Call>, n: nat, token: Token)
    requires n <= |t|
    ensures Agrees(t, n, token)
  {
    if n > 0 {
      SessionsRefineHistory(t, n - 1, token);
      if Opens(t, n - 1, token) {
        StepOpens(t, n, token);
        forall i: nat, last: nat ensures Live(t, n, i, last, token) <==> i == n - 1 == last {
            LiveOpened(t, n, i, last, token); }
        assert Live(t, n, n - 1, n - 1, token);
      } else if Touches(t, n - 1, token) {
        AgreesAfterUse(t, n, token);
      } else {
        StepKeepsOthers(t, n, token);
        forall i: nat, last: nat
          ensures Live(t, n, i, last, token) <==> Live(t, n - 1, i, last, token) && t[n - 1] != Revoke(token)
        {
          LiveStep(t, n, i, last, token);
        }
        if Held(After(t, n), token).Some? {
          var i: nat, last: nat :| Live(t, n - 1, i, last, token);
          assert Live(t, n, i, last, token);
        }
      }
    }
  }

  /** After any history, a token is accepted at a time exactly when a login that answered an
      unexpired challenge handed it out, it was not revoked since, and its consecutive uses, this
      one included, are at most fifteen minutes apart. */
  lemma AcceptedIffLive(t: seq<Call>, token: Token, now: nat)
    ensures Accepts(After(t, |t|), token, now) <==>
            exists i: nat, last: nat :: Live(t, |t|, i, last, token) && Fresh(Moment(t[last]), now)
  {
    SessionsRefineHistory(t, |t|, token);
    if Accepts(After(t, |t|), token, now) {
      var i: nat, last: nat :| Live(t, |t|, i, last, token);
      assert Fresh(Moment(t[last]), now);
    }
  }

  /** A revoked token stays refused until a login hands it out again. */
  lemma RevokedStaysRefused(t: seq<Call>, r: nat, token: Token, now: nat)
    requires r < |t| && t[r] == Revoke(token) && forall j :: r < j < |t| ==> !Opens(t, j, token)
    ensures !Accepts(After(t, |t|), token, now)
  {
    AcceptedIffLive(t, token, now);
  }

  // ---------------------------------------------------------------- two sessions of one address

  lemma {:induction false} AfterPrefix(t: seq<Call>, c: Call, n: nat)
    requires n <= |t|
    ensures After(t + [c], n) == After(t, n)
  {
    if n > 0 {
      AfterPrefix(t, c, n - 1);
      assert (t + [c])[n - 1] == t[n - 1];
    }
  }

  /** The token a login hands out. */
  function TokenOf(c: Call): Token
    requires c.Verify? && c.address.Some?
  {
    Signed(c.address.value, c.iat)
  }

  /** After any history, revoking the token of one login ends the session of another exactly when
      the two logins are of one address and made their tokens in the same millisecond. */
  lemma RevokingEndsOtherLoginIff(t: seq<Call>, i: nat, j: nat, now: nat)
    requires i < |t| && j < |t| && LogsIn(After(t, i), t[i]) && LogsIn(After(t, j), t[j])
    requires Accepts(After(t, |t|), TokenOf(t[j]), now)
    ensures !Accepts(After(t + [Revoke(TokenOf(t[i]))], |t| + 1), TokenOf(t[j]), now)
            <==> t[i].address == t[j].address && t[i].iat == t[j].iat
  {
    AfterPrefix(t, Revoke(TokenOf(t[i])), |t|);
  }

  /** Two logins of address a, both with their tokens made at time 3, and the first one's logout. */
  ghost function SharedToken(a: nat): seq<Call> {
    [Issue(Some(a), 0, 1), Verify(Some(a), Signature(a, Message(a, 0)), 2, 3, 3),
     Issue(Some(a), 1, 3), Verify(Some(a), Signature(a, Message(a, 1)), 3, 3, 3)]
  }

  /** It does happen: two logins, each with a challenge and a signature of its own, one of them
      revoked, and both sessions are over. */
  lemma SharedTokenEndsBoth(a: nat)
    ensures var t := SharedToken(a);
            && LogsIn(After(t, 1), t[1]) && LogsIn(After(t, 3), t[3])
            && Accepts(After(t, 4), TokenOf(t[3]), 4)
            && !Accepts(After(t + [Revoke(TokenOf(t[1]))], 5), TokenOf(t[3]), 4)
  {
    var t, none := SharedToken(a), Store(map[], map[]);
    var issued := Step(none, t[0]);
    assert After(t, 0) == none;
    assert After(t, 1) == issued;
    var first := Step(issued, t[1]);
    assert After(t, 2) == first && Signed(a, 3) in first.activity;
    var again := Step(first, t[2]);
    assert After(t, 3) == again;
    var second := Step(again, t[3]);
    assert After(t, 4) == second && Accepts(second, Signed(a, 3), 4);
    RevokingEndsOtherLoginIff(t, 1, 3, 4);
  }

  // ---------------------------------------------------------------- the service

  datatype SessionError =
    | InvalidAddress | SignatureRequired | NoChallenge | ChallengeExpired | InvalidSignature
    | MissingToken | InvalidSession | SessionExpired

  class SessionService {
    var challengeStore: map<nat, Challenge>
    var sessionActivity: map<Token, nat>

    ghost function Now(): Store
      reads this
    {
      Store(challengeStore, sessionActivity)
    }

    constructor ()
      ensures Now() == After([], 0)
    {
      challengeStore := map[];
      sessionActivity := map[];
    }

    method IssueConnectedWalletChallenge(address: Option<nat>, nonce: nat, now: nat)
        returns (r: Result<Challenge, SessionError>)
      modifies this
      ensures Now() == Step(old(Now()), Issue(address, nonce, now))
      ensures address.None? ==> r == Failure(InvalidAddress)
      ensures address.Some? ==>
                && r.Success? && address.value in challengeStore && r.value == challengeStore[address.value]
                && r.value == Challenge(Message(address.value, nonce), now + 300000)
    {
      if address.None? { return Failure(InvalidAddress); }
      var challenge := Challenge(Message(address.value, nonce), now + CHALLENGE_TTL);
      challengeStore := challengeStore[address.value := challenge];
      r := Success(challenge);
    }

    method VerifyConnectedWalletChallenge(address: Option<nat>, signature: Signature, now: nat, iat: nat, seen: nat)
      returns (r: Result<Token, SessionError>)
      modifies this
      ensures Now() == Step(old(Now()), Verify(address, signature, now, iat, seen))
      ensures r.Success? <==> LogsIn(old(Now()), Verify(address, signature, now, iat, seen))
      ensures r.Success? ==> address.Some? && r.value == Signed(address.value, iat)
      ensures r.Failure? ==>
                r.error == if signature.Absent? then SignatureRequired
                           else if address.None? then InvalidAddress
                           else if address.value !in old(challengeStore) then NoChallenge
                           else if old(challengeStore)[address.value].expires <= now then ChallengeExpired
                           else InvalidSignature
      ensures r.Failure? && r.error != ChallengeExpired ==> Now() == old(Now())
      ensures r == Failure(ChallengeExpired) ==> sessionActivity == old(sessionActivity)
    {
      if signature.Absent? { return Failure(SignatureRequired); }
      if address.None? { return Failure(InvalidAddress); }
      var key := address.value;
      if key !in challengeStore { return Failure(NoChallenge); }
      var challenge := challengeStore[key];
      if challenge.expires <= now {
        challengeStore := challengeStore - {key};
        return Failure(ChallengeExpired);
      }
      if Recover(challenge.message, signature) != Some(key) { return Failure(InvalidSignature); }
      challengeStore := challengeStore - {key};
      var token := CreateSessionToken(key, iat, seen);
      r := Success(token);
    }

    method CreateSessionToken(address: nat, iat: nat, seen: nat) returns (token: Token)
      modifies this`sessionActivity
      ensures token == Signed(address, iat) && sessionActivity == old(sessionActivity)[token := seen]
    {
      token := Signed(address, iat);
      sessionActivity := sessionActivity[token := seen];
    }

    method AuthenticateConnectedWalletSession(token: Token, now: nat) returns (r: Result<nat, SessionError>)
      modifies this`sessionActivity
      ensures Now() == Step(old(Now()), Use(token, now))
      ensures r.Success? <==> Accepts(old(Now()), token, now)
      ensures r.Success? ==> token.Signed? && r.value == token.address
      ensures r.Failure? ==>
                r.error == if token == Unsigned("") then MissingToken
                           else if token in old(sessionActivity) && token.Signed? && old(sessionActivity)[token] != 0
                           then SessionExpired
                           else InvalidSession
      ensures r == Failure(SessionExpired) ==> token in old(sessionActivity) && token !in sessionActivity
      ensures r.Failure? && r.error != SessionExpired ==> sessionActivity == old(sessionActivity)
    {
      if token == Unsigned("") { return Failure(MissingToken); }
      if token.Unsigned? { return Failure(InvalidSession); }
      if token !in sessionActivity || sessionActivity[token] == 0 { return Failure(InvalidSession); }
      if now - sessionActivity[token] > IDLE_TIMEOUT {
        sessionActivity := sessionActivity - {token};
        return Failure(SessionExpired);
      }
      sessionActivity := sessionActivity[token := now];
      r := Success(token.address);
    }

    method RevokeConnectedWalletSession(token: Token)
      modifies this`sessionActivity
      ensures Now() == Step(old(Now()), Revoke(token))
    {
      if token == Unsigned("") { return; }
      sessionActivity := sessionActivity - {token};
    }
  }
}
