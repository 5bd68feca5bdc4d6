/** Customer sessions: a capped sorted set of access sessions, and rotating refresh tokens. Times are milliseconds. */
module CustomerSessions {
  import opened Wrappers

  const SESSION_CAP := 5
  const ACCESS_TTL := 18000
  const REFRESH_TTL := 30 * 86400
  const REFRESH_SHORT_TTL := 86400

  /** A member of the sorted set; members of equal score are ordered by name. */
  datatype Session = Session(jti: nat, expiry: int)

  predicate Before(a: Session, b: Session) {
    a.expiry < b.expiry || (a.expiry == b.expiry && a.jti < b.jti)
  }

  ghost predicate SortedSet(s: seq<Session>) {
    && (forall i, j :: 0 <= i < j < |s| ==> Before(s[i], s[j]))
    && (forall i, j :: 0 <= i < j < |s| ==> s[i].jti != s[j].jti)
  }

  predicate HasJti(s: seq<Session>, jti: nat) {
    exists i :: 0 <= i < |s| && s[i].jti == jti
  }

  // -- Redis sorted-set commands ----------------------------------------------

  /** ZREMRANGEBYSCORE key 0 hi */
  function RemoveByScore(s: seq<Session>, hi: int): (r: seq<Session>)
    ensures forall x :: x in r <==> x in s && !(0 <= x.expiry <= hi)
  {
    if s == [] then []
    else if 0 <= s[0].expiry <= hi then RemoveByScore(s[1..], hi)
    else [s[0]] + RemoveByScore(s[1..], hi)
  }

  /** ZREM key jti */
  function RemoveMember(s: seq<Session>, jti: nat): (r: seq<Session>)
    ensures |r| <= |s| && forall x :: x in r <==> x in s && x.jti != jti
  {
    if s == [] then []
    else if s[0].jti == jti then RemoveMember(s[1..], jti)
    else [s[0]] + RemoveMember(s[1..], jti)
  }

  function InsertSorted(s: seq<Session>, x: Session): (r: seq<Session>)
    ensures |r| == |s| + 1 && forall y :: y in r <==> y in s || y == x
  {
    if s == [] || Before(x, s[0]) then [x] + s else [s[0]] + InsertSorted(s[1..], x)
  }

  /** Putting an element before all of a sorted set. */
  lemma {:induction false} Prepend(x: Session, s: seq<Session>)
    requires SortedSet(s) && forall y :: y in s ==> Before(x, y) && x.jti != y.jti
    ensures SortedSet([x] + s)
  {}

  lemma {:induction false} HeadFirst(s: seq<Session>)
    requires SortedSet(s) && s != []
    ensures SortedSet(s[1..]) && forall y :: y in s[1..] ==> Before(s[0], y) && s[0].jti != y.jti
  {}

  lemma {:induction false} RemoveByScoreSorted(s: seq<Session>, hi: int)
    requires SortedSet(s)
    ensures SortedSet(RemoveByScore(s, hi))
  {
    if s != [] {
      HeadFirst(s);
      RemoveByScoreSorted(s[1..], hi);
      if !(0 <= s[0].expiry <= hi) { Prepend(s[0], RemoveByScore(s[1..], hi)); }
    }
  }

  lemma {:induction false} RemoveMemberSorted(s: seq<Session>, jti: nat)
    requires SortedSet(s)
    ensures SortedSet(RemoveMember(s, jti))
  {
    if s != [] {
      HeadFirst(s);
      RemoveMemberSorted(s[1..], jti);
      if s[0].jti != jti { Prepend(s[0], RemoveMember(s[1..], jti)); }
    }
  }

  lemma {:induction false} InsertIsSorted(s: seq<Session>, x: Session)
    requires SortedSet(s) && forall y :: y in s ==> y.jti != x.jti
    ensures SortedSet(InsertSorted(s, x))
  {
    if s == [] || Before(x, s[0]) {
      if s != [] { HeadFirst(s); }
      forall y | y in s ensures Before(x, y) { assert y == s[0] || y in s[1..]; }
      Prepend(x, s);
    } else {
      HeadFirst(s);
      InsertIsSorted(s[1..], x);
      var head := s[0];
      assert head in s;
      Prepend(head, InsertSorted(s[1..], x));
    }
  }

  lemma {:induction false} RemoveMissing(s: seq<Session>, jti: nat)
    requires forall x :: x in s ==> x.jti != jti
    ensures RemoveMember(s, jti) == s
  {
    if s != [] {
      var head := s[0];
      assert head in s;
      RemoveMissing(s[1..], jti);
    }
  }

  /** ZADD key score jti: a member already there gets the new score. */
  function Add(s: seq<Session>, x: Session): seq<Session> {
    InsertSorted(RemoveMember(s, x.jti), x)
  }

  /** What is left once the expired are gone and room for one more is made. */
  function Kept(s: seq<Session>, now: int): seq<Session> {
    var live := RemoveByScore(s, now);
    if |live| >= SESSION_CAP then live[|live| - (SESSION_CAP - 1)..] else live
  }

  function AddSession(s: seq<Session>, jti: nat, ttl: nat, now: nat): seq<Session> {
    Add(Kept(s, now), Session(jti, now + ttl * 1000))
  }

  /** The cap holds, the newcomer is in, no expired session is kept, no more are dropped than the
      cap demands, and a live session that is dropped expires no later than any older one kept. */
  lemma {:induction false} AddSessionEvictsEarliest(s: seq<Session>, jti: nat, ttl: nat, now: nat)
    requires SortedSet(s) && forall x :: x in s ==> x.jti != jti && x.expiry >= 0
    ensures var r, live := AddSession(s, jti, ttl, now), RemoveByScore(s, now);
            && SortedSet(r)
            && |r| == (if |live| + 1 < SESSION_CAP then |live| + 1 else SESSION_CAP)
            && Session(jti, now + ttl * 1000) in r
            && (forall x :: x in r && x.jti != jti ==> x in s && x.expiry > now)
            && (forall d, k :: d in s && d.expiry > now && d !in r && k in r && k.jti != jti ==> d.expiry <= k.expiry)
  {
    KeptIsSorted(s, now);
    KeptAreLatest(s, now);
    RemoveMissing(Kept(s, now), jti);
    InsertIsSorted(Kept(s, now), Session(jti, now + ttl * 1000));
  }

  lemma {:induction false} KeptIsSorted(s: seq<Session>, now: int)
    requires SortedSet(s)
    ensures SortedSet(Kept(s, now)) && forall x :: x in Kept(s, now) ==> x in RemoveByScore(s, now)
  {
    RemoveByScoreSorted(s, now);
  }

  lemma {:induction false} KeptAreLatest(s: seq<Session>, now: int)
    requires SortedSet(s)
    ensures forall d, k ::
              d in RemoveByScore(s, now) && d !in Kept(s, now) && k in Kept(s, now) ==> d.expiry <= k.expiry
  {
    var live := RemoveByScore(s, now);
    RemoveByScoreSorted(s, now);
    if |live| >= SESSION_CAP { SuffixIsLatest(live, |live| - (SESSION_CAP - 1)); }
  }

  lemma {:induction false} SuffixIsLatest(s: seq<Session>, n: nat)
    requires SortedSet(s) && n <= |s|
    ensures forall d, k :: d in s && d !in s[n..] && k in s[n..] ==> d.expiry <= k.expiry
  {}

  // -- What each call does ----------------------------------------------------

  /** What a signed refresh token says; verification fails once exp has come. */
  datatype Payload = Payload(customer: int, sessionJti: nat, exp: nat)

  /** issued decodes every refresh token ever signed; jtis and tokens are numbered by next. */
  datatype Store = Store(sessions: map<int, seq<Session>>, tokens: map<int, map<nat, nat>>,
                         issued: map<nat, Payload>, next: nat, now: nat)

  function SessionsOf(m: map<int, seq<Session>>, c: int): seq<Session> { if c in m then m[c] else [] }
  function TokensOf(m: map<int, map<nat, nat>>, c: int): map<nat, nat> { if c in m then m[c] else map[] }

  /** issueCustomerTokens, also the tail of a refresh. */
  function Issue(st: Store, c: int, refreshTtl: nat): Store {
    var jti, token := st.next, st.next + 1;
    Store(st.sessions[c := AddSession(SessionsOf(st.sessions, c), jti, ACCESS_TTL, st.now)],
          st.tokens[c := TokensOf(st.tokens, c)[jti := token]],
          st.issued[token := Payload(c, jti, st.now + refreshTtl * 1000)],
          st.next + 2, st.now)
  }

  function Drop(st: Store, c: int, jti: nat): Store {
    st.(sessions := st.sessions[c := RemoveMember(SessionsOf(st.sessions, c), jti)],
        tokens := st.tokens[c := TokensOf(st.tokens, c) - {jti}])
  }

  predicate Stored(st: Store, token: nat) {
    token in st.issued &&
    var p := st.issued[token];
    p.sessionJti in TokensOf(st.tokens, p.customer) && TokensOf(st.tokens, p.customer)[p.sessionJti] == token
  }

  predicate Exchangeable(st: Store, token: nat) {
    Stored(st, token) && st.now < st.issued[token].exp
  }

  function Clear(st: Store, c: int): Store {
    st.(sessions := st.sessions - {c}, tokens := st.tokens - {c})
  }

  datatype Op =
    | Login(customer: int, rememberMe: bool)
    | Refresh(token: nat)
    | Logout(customer: int, jti: nat)
    | ResetPassword(customer: int)
    | Wait(ms: nat)
    | SessionsExpire(customer: int)   // Redis drops the whole key
    | TokensExpire(customer: int)     // likewise

  /** A refused refresh changes nothing. */
  function Step(st: Store, op: Op): Store {
    match op
    case Login(c, remember) => Issue(st, c, if remember then REFRESH_TTL else REFRESH_SHORT_TTL)
    case Refresh(t) =>
      if Exchangeable(st, t) then
        var p := st.issued[t];
        Issue(Drop(st, p.customer, p.sessionJti), p.customer, REFRESH_TTL)
      else st
    case Logout(c, jti) => Drop(st, c, jti)
    case ResetPassword(c) => Clear(st, c)
    case Wait(ms) => st.(now := st.now + ms)
    case SessionsExpire(c) => st.(sessions := st.sessions - {c})
    case TokensExpire(c) => st.(tokens := st.tokens - {c})
  }

  // -- The services -----------------------------------------------------------

  class RedisService {
    var sessions: map<int, seq<Session>>
    var tokens: map<int, map<nat, nat>>

    constructor ()
      ensures sessions == map[] && tokens == map[]
    {
      sessions, tokens := map[], map[];
    }

    method AddCustomerSession(userId: int, jti: nat, ttl: nat, now: nat)
      modifies this`sessions
      ensures sessions == old(sessions)[userId := AddSession(SessionsOf(old(sessions), userId), jti, ttl, now)]
    {
      var zset := SessionsOf(sessions, userId);
      var expiry := now + ttl * 1000;
      var live := RemoveByScore(zset, now);
      var count := |live|;
      var kept := live;
      if count >= SESSION_CAP {
        kept := live[count - SESSION_CAP + 1..];
      }
      assert kept == Kept(zset, now);
      sessions := sessions[userId := Add(kept, Session(jti, expiry))];
    }

    method IsCustomerSessionValid(userId: int, jti: nat, now: nat) returns (valid: bool)
      ensures valid <==> exists x :: x in SessionsOf(sessions, userId) && x.jti == jti && now < x.expiry
    {
      var zset := SessionsOf(sessions, userId);
      for i := 0 to |zset|
        invariant forall k :: 0 <= k < i ==> !(zset[k].jti == jti && now < zset[k].expiry)
      {
        if zset[i].jti == jti && now < zset[i].expiry { return true; }
      }
      return false;
    }

    method RemoveCustomerSession(userId: int, jti: nat)
      modifies this`sessions
      ensures sessions == old(sessions)[userId := RemoveMember(SessionsOf(old(sessions), userId), jti)]
    {
      sessions := sessions[userId := RemoveMember(SessionsOf(sessions, userId), jti)];
    }

    method ClearAllCustomerSessions(userId: int)
      modifies this
      ensures sessions == old(sessions) - {userId} && tokens == old(tokens) - {userId}
    {
      sessions := sessions - {userId};
      tokens := tokens - {userId};
    }

    method AddCustomerRefreshToken(userId: int, sessionJti: nat, token: nat)
      modifies this`tokens
      ensures tokens == old(tokens)[userId := TokensOf(old(tokens), userId)[sessionJti := token]]
    {
      tokens := tokens[userId := TokensOf(tokens, userId)[sessionJti := token]];
    }

    method GetCustomerRefreshToken(userId: int, sessionJti: nat) returns (token: Option<nat>)
      ensures var hash := TokensOf(tokens, userId);
              token == if sessionJti in hash then Some(hash[sessionJti]) else None
    {
      var hash := TokensOf(tokens, userId);
      token := if sessionJti in hash then Some(hash[sessionJti]) else None;
    }

    method RemoveCustomerRefreshToken(userId: int, sessionJti: nat)
      modifies this`tokens
      ensures tokens == old(tokens)[userId := TokensOf(old(tokens), userId) - {sessionJti}]
    {
      tokens := tokens[userId := TokensOf(tokens, userId) - {sessionJti}];
    }
  }

  class AuthService {
    const redis: RedisService
    var issued: map<nat, Payload>  // what verifying a signature recovers
    var next: nat
    var now: nat

    constructor (redis: RedisService)
      ensures this.redis == redis && issued == map[] && next == 0 && now == 0
      ensures redis.sessions == map[] && redis.tokens == map[] ==> Valid(State())
    {
      this.redis := redis;
      issued, next, now := map[], 0, 0;
    }

    ghost function State(): Store
      reads this, redis
    {
      Store(redis.sessions, redis.tokens, issued, next, now)
    }

    method IssueCustomerTokens(customer: int, refreshTtl: nat) returns (jti: nat, token: nat)
      modifies this`issued, this`next, redis
      ensures State() == Issue(old(State()), customer, refreshTtl)
      ensures jti == old(next) && token == old(next) + 1
    {
      jti := next;
      redis.AddCustomerSession(customer, jti, ACCESS_TTL, now);
      token := next + 1;
      issued := issued[token := Payload(customer, jti, now + refreshTtl * 1000)];
      redis.AddCustomerRefreshToken(customer, jti, token);
      next := next + 2;
    }

    method LoginCustomer(customer: int, rememberMe: bool) returns (jti: nat, token: nat)
      modifies this`issued, this`next, redis
      ensures State() == Step(old(State()), Login(customer, rememberMe))
    {
      jti, token := IssueCustomerTokens(customer, if rememberMe then REFRESH_TTL else REFRESH_SHORT_TTL);
    }

    /** payload is what the verified token decodes to. */
    method RefreshCustomerToken(payload: Payload, refreshToken: nat) returns (granted: Option<(nat, nat)>)
      requires refreshToken in issued && issued[refreshToken] == payload && now < payload.exp
      modifies this`issued, this`next, redis
      ensures granted.Some? <==> Exchangeable(old(State()), refreshToken)
      ensures granted.Some? ==> granted.value == (old(next), old(next) + 1)
      ensures State() == Step(old(State()), Refresh(refreshToken))
    {
      var stored := redis.GetCustomerRefreshToken(payload.customer, payload.sessionJti);
      if stored.None? || stored.value != refreshToken { return None; }
      redis.RemoveCustomerSession(payload.customer, payload.sessionJti);
      redis.RemoveCustomerRefreshToken(payload.customer, payload.sessionJti);
      assert State() == Drop(old(State()), payload.customer, payload.sessionJti);
      var jti, token := IssueCustomerTokens(payload.customer, REFRESH_TTL);
      return Some((jti, token));
    }

    /** A token that was never signed, or has run out, fails verification. */
    method RefreshToken(refreshToken: nat) returns (granted: Option<(nat, nat)>)
      modifies this`issued, this`next, redis
      ensures granted.Some? <==> Exchangeable(old(State()), refreshToken)
      ensures granted.Some? ==> granted.value == (old(next), old(next) + 1)
      ensures State() == Step(old(State()), Refresh(refreshToken))
    {
      if refreshToken !in issued || now >= issued[refreshToken].exp { return None; }
      granted := RefreshCustomerToken(issued[refreshToken], refreshToken);
    }

    method LogoutCustomer(customer: int, jti: nat)
      modifies redis
      ensures State() == Step(old(State()), Logout(customer, jti))
    {
      redis.RemoveCustomerSession(customer, jti);
      redis.RemoveCustomerRefreshToken(customer, jti);
    }

    /** The last step of a password reset. */
    method ClearAfterReset(customer: int)
      modifies redis
      ensures State() == Step(old(State()), ResetPassword(customer))
    {
      redis.ClearAllCustomerSessions(customer);
    }
  }

  // -- Whole runs -------------------------------------------------------------

  ghost predicate SessionsOk(s: seq<Session>, next: nat) {
    SortedSet(s) && |s| <= SESSION_CAP && forall x :: x in s ==> x.jti < next && x.expiry >= 0
  }

  ghost predicate Valid(st: Store) {
    && (forall c :: SessionsOk(SessionsOf(st.sessions, c), st.next))
    && (forall t :: t in st.issued ==> t < st.next && st.issued[t].sessionJti < st.next)
    && (forall c, jti :: jti in TokensOf(st.tokens, c) ==> jti < st.next && TokensOf(st.tokens, c)[jti] < st.next)
  }

  lemma {:induction false} IssueKeepsValid(st: Store, c: int, ttl: nat)
    requires Valid(st)
    ensures Valid(Issue(st, c, ttl))
  {
    var st', s := Issue(st, c, ttl), SessionsOf(st.sessions, c);
    assert SessionsOk(s, st.next);
    AddSessionEvictsEarliest(s, st.next, ACCESS_TTL, st.now);
    forall k ensures SessionsOk(SessionsOf(st'.sessions, k), st'.next) {
      assert SessionsOk(SessionsOf(st.sessions, k), st.next);
    }
    forall k, jti | jti in TokensOf(st'.tokens, k) ensures jti < st'.next && TokensOf(st'.tokens, k)[jti] < st'.next {
      assert jti in TokensOf(st.tokens, k) || (k == c && jti == st.next);
    }
  }

  lemma {:induction false} DropKeepsValid(st: Store, c: int, jti: nat)
    requires Valid(st)
    ensures Valid(Drop(st, c, jti))
  {
    var st' := Drop(st, c, jti);
    forall k ensures SessionsOk(SessionsOf(st'.sessions, k), st'.next) {
      assert SessionsOk(SessionsOf(st.sessions, k), st.next);
      RemoveMemberSorted(SessionsOf(st.sessions, k), jti);
    }
    forall k, j | j in TokensOf(st'.tokens, k) ensures j < st'.next && TokensOf(st'.tokens, k)[j] < st'.next {
      assert j in TokensOf(st.tokens, k);
    }
  }

  lemma {:induction false} ForgetKeepsValid(st: Store, sessions: map<int, seq<Session>>, tokens: map<int, map<nat,
                                            nat>>, now: nat)
    requires Valid(st)
    requires forall c :: SessionsOf(sessions, c) in {[], SessionsOf(st.sessions, c)}
    requires forall c :: TokensOf(tokens, c) in {map[], TokensOf(st.tokens, c)}
    ensures Valid(Store(sessions, tokens, st.issued, st.next, now))
  {}

  lemma {:induction false} StepKeepsValid(st: Store, op: Op)
    requires Valid(st)
    ensures Valid(Step(st, op))
  {
    match op {
      case Login(c, remember) => IssueKeepsValid(st, c, if remember then REFRESH_TTL else REFRESH_SHORT_TTL);
      case Refresh(t) =>
        if Exchangeable(st, t) {
          var p := st.issued[t];
          DropKeepsValid(st, p.customer, p.sessionJti);
          IssueKeepsValid(Drop(st, p.customer, p.sessionJti), p.customer, REFRESH_TTL);
        }
      case Logout(c, jti) => DropKeepsValid(st, c, jti);
      case _ =>
        var st' := Step(st, op);
        ForgetKeepsValid(st, st'.sessions, st'.tokens, st'.now);
    }
  }

  function Run(st: Store, ops: seq<Op>): Store
    decreases |ops|
  {
    if ops == [] then st else Run(Step(st, ops[0]), ops[1..])
  }

  /** The refresh tokens exchanged during a run, in order. */
  function Exchanged(st: Store, ops: seq<Op>): seq<nat>
    decreases |ops|
  {
    if ops == [] then []
    else (if ops[0].Refresh? && Exchangeable(st, ops[0].token) then [ops[0].token] else [])
         + Exchanged(Step(st, ops[0]), ops[1..])
  }

  predicate HasSession(st: Store, c: int, jti: nat) {
    HasJti(SessionsOf(st.sessions, c), jti)
  }

  /** No step brings back a token or a session that was handed out before it and is gone. */
  lemma {:induction false} NothingComesBack(st: Store, op: Op)
    requires Valid(st)
    ensures forall t: nat :: t < st.next && Stored(Step(st, op), t) ==> Stored(st, t)
    ensures forall c, jti: nat :: jti < st.next && HasSession(Step(st, op), c, jti) ==> HasSession(st, c, jti)
    ensures st.next <= Step(st, op).next
    ensures forall t :: t in st.issued ==> t in Step(st, op).issued && Step(st, op).issued[t] == st.issued[t]
  {
    var st' := Step(st, op);
    forall c, jti: nat | jti < st.next && HasSession(st', c, jti) ensures HasSession(st, c, jti) {
      var s, s' := SessionsOf(st.sessions, c), SessionsOf(st'.sessions, c);
      var i :| 0 <= i < |s'| && s'[i].jti == jti;
      var x := s'[i];
      assert x in s';
      assert x in s by { SessionsComeFromBefore(st, op, c, x); }
      var j :| 0 <= j < |s| && s[j] == x;
    }
  }

  lemma {:induction false} SessionsComeFromBefore(st: Store, op: Op, c: int, x: Session)
    requires Valid(st) && x in SessionsOf(Step(st, op).sessions, c) && x.jti < st.next
    ensures x in SessionsOf(st.sessions, c)
  {}

  /** A token that is no longer stored is never exchanged again. */
  lemma {:induction false} DeadTokensStayDead(st: Store, ops: seq<Op>, t: nat)
    requires Valid(st) && t < st.next && !Stored(st, t)
    ensures t !in Exchanged(st, ops)
    decreases |ops|
  {
    if ops != [] {
      NothingComesBack(st, ops[0]);
      StepKeepsValid(st, ops[0]);
      DeadTokensStayDead(Step(st, ops[0]), ops[1..], t);
    }
  }

  lemma {:induction false} ExchangeKillsToken(st: Store, t: nat)
    requires Valid(st) && Exchangeable(st, t)
    ensures !Stored(Step(st, Refresh(t)), t) && t < Step(st, Refresh(t)).next
  {}

  /** Rotation: over every run, no refresh token is exchanged twice. */
  lemma {:induction false} EachTokenExchangedOnce(st: Store, ops: seq<Op>)
    requires Valid(st)
    ensures forall i, j :: 0 <= i < j < |Exchanged(st, ops)| ==> Exchanged(st, ops)[i] != Exchanged(st, ops)[j]
    decreases |ops|
  {
    if ops != [] {
      var st', rest := Step(st, ops[0]), Exchanged(Step(st, ops[0]), ops[1..]);
      StepKeepsValid(st, ops[0]);
      EachTokenExchangedOnce(st', ops[1..]);
      if ops[0].Refresh? && Exchangeable(st, ops[0].token) {
        ExchangeKillsToken(st, ops[0].token);
        DeadTokensStayDead(st', ops[1..], ops[0].token);
        forall j | 0 <= j < |rest| ensures rest[j] != ops[0].token { assert rest[j] in rest; }
      }
    }
  }

  /** Over every run at most five sessions per customer exist, so at most five access tokens are live. */
  lemma {:induction false} RunsKeepCap(st: Store, ops: seq<Op>, c: int)
    requires Valid(st)
    ensures Valid(Run(st, ops)) && |SessionsOf(Run(st, ops).sessions, c)| <= SESSION_CAP
    decreases |ops|
  {
    if ops != [] {
      StepKeepsValid(st, ops[0]);
      RunsKeepCap(Step(st, ops[0]), ops[1..], c);
    } else {
      assert SessionsOk(SessionsOf(st.sessions, c), st.next);
    }
  }

  lemma {:induction false} GoneSessionsStayGone(st: Store, ops: seq<Op>, c: int, jti: nat)
    requires Valid(st) && jti < st.next && !HasSession(st, c, jti)
    ensures !HasSession(Run(st, ops), c, jti)
    decreases |ops|
  {
    if ops != [] {
      NothingComesBack(st, ops[0]);
      StepKeepsValid(st, ops[0]);
      GoneSessionsStayGone(Step(st, ops[0]), ops[1..], c, jti);
    }
  }

  /** A password reset ends everything handed out before it: no such refresh token of the customer
      is ever exchanged again, and no such session of theirs is ever valid again. */
  lemma {:induction false} ResetRevokesEverything(st: Store, c: int, ops: seq<Op>)
    requires Valid(st)
    ensures forall t ::
              t in st.issued && st.issued[t].customer == c ==> t !in Exchanged(Step(st, ResetPassword(c)), ops)
    ensures forall jti: nat :: jti < st.next ==> !HasSession(Run(Step(st, ResetPassword(c)), ops), c, jti)
  {
    var st' := Step(st, ResetPassword(c));
    StepKeepsValid(st, ResetPassword(c));
    forall t | t in st.issued && st.issued[t].customer == c ensures t !in Exchanged(st', ops) {
      DeadTokensStayDead(st', ops, t);
    }
    forall jti: nat | jti < st.next ensures !HasSession(Run(st', ops), c, jti) {
      GoneSessionsStayGone(st', ops, c, jti);
    }
  }

  // -- What the cap does not bound --------------------------------------------

  /** The customer's unexpired sessions, earliest expiry first. */
  function LiveSessions(st: Store, c: int): seq<Session> {
    RemoveByScore(SessionsOf(st.sessions, c), st.now)
  }

  /** The earliest of five live sessions makes way at the customer's next login. */
  predicate MakesWay(st: Store, c: int, jti: nat) {
    |LiveSessions(st, c)| == SESSION_CAP && LiveSessions(st, c)[0].jti == jti
  }

  lemma {:induction false} SessionsAfterLogin(st: Store, c: int, remember: bool, x: Session)
    requires Valid(st) && x in LiveSessions(st, c)
    ensures HasSession(Step(st, Login(c, remember)), c, x.jti) <==>
            exists y :: y in Kept(SessionsOf(st.sessions, c), st.now) && y.jti == x.jti
  {
    var s := SessionsOf(st.sessions, c);
    var r := SessionsOf(Step(st, Login(c, remember)).sessions, c);
    assert SessionsOk(s, st.next);
    assert x in s;
    KeptIsSorted(s, st.now);
    RemoveMissing(Kept(s, st.now), st.next);
    if y :| y in Kept(s, st.now) && y.jti == x.jti {
      assert y in r;
      var i :| 0 <= i < |r| && r[i] == y;
    }
    if i :| 0 <= i < |r| && r[i].jti == x.jti {
      var y := r[i];
      assert y in r && y in Kept(s, st.now);
    }
  }

  lemma {:induction false} KeptUnlessEarliest(live: seq<Session>, x: Session)
    requires SortedSet(live) && |live| <= SESSION_CAP && x in live
    ensures var kept := if |live| >= SESSION_CAP then live[|live| - (SESSION_CAP - 1)..] else live;
            (exists y :: y in kept && y.jti == x.jti) <==> !(|live| == SESSION_CAP && live[0].jti == x.jti)
  {
    var k :| 0 <= k < |live| && live[k] == x;
    if |live| == SESSION_CAP {
      if k > 0 { assert live[1..][k - 1] == x && live[0].jti != live[k].jti; }
      if y :| y in live[1..] && y.jti == x.jti {
        var j :| 0 <= j < |live[1..]| && live[1..][j] == y;
        assert live[0].jti != live[j + 1].jti;
      }
    }
  }

  /** A live session survives the customer's next login exactly when it is not the earliest of five. */
  lemma {:induction false} SurvivesLoginIff(st: Store, c: int, remember: bool, x: Session)
    requires Valid(st) && x in LiveSessions(st, c)
    ensures HasSession(Step(st, Login(c, remember)), c, x.jti) <==> !MakesWay(st, c, x.jti)
  {
    assert SessionsOk(SessionsOf(st.sessions, c), st.next);
    SessionsAfterLogin(st, c, remember, x);
    RemoveByScoreSorted(SessionsOf(st.sessions, c), st.now);
    SortedLength(SessionsOf(st.sessions, c), st.now);
    KeptUnlessEarliest(LiveSessions(st, c), x);
  }

  lemma {:induction false} SortedLength(s: seq<Session>, hi: int)
    ensures |RemoveByScore(s, hi)| <= |s|
  {
    if s != [] { SortedLength(s[1..], hi); }
  }

  /** A login leaves every refresh token issued before it exactly as exchangeable as it was. */
  lemma {:induction false} LoginKeepsTokens(st: Store, c: int, remember: bool, t: nat)
    requires Valid(st) && t in st.issued
    ensures Exchangeable(Step(st, Login(c, remember)), t) <==> Exchangeable(st, t)
  {
    assert t < st.next && st.issued[t].sessionJti < st.next;
  }

  /** So a login takes the session of an exchangeable token away, and leaves the token, exactly
      when that session is the earliest of five live ones. */
  lemma {:induction false} EvictedSessionKeepsRefreshTokenIff(st: Store, c: int, remember: bool, t: nat, x: Session)
    requires Valid(st) && Exchangeable(st, t) && st.issued[t].customer == c
    requires x in LiveSessions(st, c) && x.jti == st.issued[t].sessionJti
    ensures var st' := Step(st, Login(c, remember));
            Exchangeable(st', t) && !HasSession(st', c, x.jti) <==> MakesWay(st, c, x.jti)
  {
    SurvivesLoginIff(st, c, remember, x);
    LoginKeepsTokens(st, c, remember, t);
  }

  /** The refresh tokens a customer could exchange now. */
  function TokensHeld(st: Store, c: int): set<nat> {
    set t | t in st.issued && st.issued[t].customer == c && Exchangeable(st, t)
  }

  /** Every login adds a token and takes none, so a customer holds more than five after one exactly
      when they held at least five before it. */
  lemma {:induction false} LoginAddsAToken(st: Store, c: int, remember: bool)
    requires Valid(st)
    ensures var st' := Step(st, Login(c, remember));
            && TokensHeld(st', c) == TokensHeld(st, c) + {st.next + 1}
            && |TokensHeld(st', c)| == |TokensHeld(st, c)| + 1
            && (|TokensHeld(st', c)| > SESSION_CAP <==> |TokensHeld(st, c)| >= SESSION_CAP)
  {
    var st' := Step(st, Login(c, remember));
    forall t | t in st.issued ensures t in TokensHeld(st', c) <==> t in TokensHeld(st, c) {
      LoginKeepsTokens(st, c, remember, t);
      assert t < st.next;
    }
    assert st.next + 1 !in st.issued && st.next + 1 in TokensHeld(st', c);
    assert TokensHeld(st', c) == TokensHeld(st, c) + {st.next + 1};
  }

  function Logins(c: int, n: nat): seq<Op> {
    seq(n, _ => Login(c, true))
  }

  /** However many logins: five sessions at most, but as many more tokens as there were logins. */
  lemma {:induction false} LoginsPileUpTokens(st: Store, c: int, n: nat)
    requires Valid(st)
    ensures var st' := Run(st, Logins(c, n));
            |TokensHeld(st', c)| == |TokensHeld(st, c)| + n && |SessionsOf(st'.sessions, c)| <= SESSION_CAP
    decreases n
  {
    RunsKeepCap(st, Logins(c, n), c);
    if n > 0 {
      LoginAddsAToken(st, c, true);
      StepKeepsValid(st, Login(c, true));
      LoginsPileUpTokens(Step(st, Login(c, true)), c, n - 1);
      assert Logins(c, n)[1..] == Logins(c, n - 1);
    }
  }

  // -- What each call delivers ------------------------------------------------

  /** The customer has a session that is still valid. */
  predicate ValidSession(st: Store, c: int, jti: nat) {
    exists i :: 0 <= i < |SessionsOf(st.sessions, c)| &&
                SessionsOf(st.sessions, c)[i].jti == jti && st.now < SessionsOf(st.sessions, c)[i].expiry
  }

  lemma {:induction false} NewSessionIn(st: Store, c: int, ttl: nat, ms: nat)
    requires Valid(st)
    ensures ValidSession(Step(Issue(st, c, ttl), Wait(ms)), c, st.next) <==> ms < 5 * 60 * 60 * 1000
  {
    var s, r := SessionsOf(st.sessions, c), SessionsOf(Issue(st, c, ttl).sessions, c);
    assert SessionsOk(s, st.next);
    AddSessionEvictsEarliest(s, st.next, ACCESS_TTL, st.now);
    var x := Session(st.next, st.now + ACCESS_TTL * 1000);
    var k :| 0 <= k < |r| && r[k] == x;
  }

  /** A login gives a session that is valid for five hours and a refresh token for it that can be
      exchanged for a day, or, remembered, for thirty. */
  lemma {:induction false} LoginDelivers(st: Store, c: int, remember: bool, ms: nat)
    requires Valid(st)
    ensures var st', jti, token := Step(Step(st, Login(c, remember)), Wait(ms)), st.next, st.next + 1;
            && (ValidSession(st', c, jti) <==> ms < 5 * 60 * 60 * 1000)
            && (Exchangeable(st', token) <==> ms < (if remember then 30 else 1) * 24 * 60 * 60 * 1000)
            && token in st'.issued && st'.issued[token].customer == c && st'.issued[token].sessionJti == jti
  {
    NewSessionIn(st, c, if remember then REFRESH_TTL else REFRESH_SHORT_TTL, ms);
  }

  lemma {:induction false} DropEnds(st: Store, c: int, jti: nat)
    ensures var st' := Drop(st, c, jti);
            && !HasSession(st', c, jti)
            && (forall t :: t in st.issued && st.issued[t].customer == c && st.issued[t].sessionJti == jti
                            ==> !Stored(st', t))
            && (forall k, j :: k != c || j != jti ==> (HasSession(st', k, j) <==> HasSession(st, k, j)))
            && (forall t :: t in st.issued && (st.issued[t].customer != c || st.issued[t].sessionJti != jti)
                            ==> (Stored(st', t) <==> Stored(st, t)))
  {
    var st' := Drop(st, c, jti);
    forall k, j | k != c || j != jti ensures HasSession(st', k, j) <==> HasSession(st, k, j) {
      KeepsOthers(SessionsOf(st.sessions, c), jti, j);
    }
    var r := SessionsOf(st'.sessions, c);
    forall i | 0 <= i < |r| ensures r[i].jti != jti { assert r[i] in r; }
  }

  lemma {:induction false} KeepsOthers(s: seq<Session>, jti: nat, j: nat)
    ensures j != jti ==> (HasJti(RemoveMember(s, jti), j) <==> HasJti(s, j))
  {
    var r := RemoveMember(s, jti);
    if j != jti {
      if i :| 0 <= i < |r| && r[i].jti == j {
        var x := r[i];
        assert x in r;
        var k :| 0 <= k < |s| && s[k] == x;
      }
      if i :| 0 <= i < |s| && s[i].jti == j {
        var x := s[i];
        assert x in s && x in r;
        var k :| 0 <= k < |r| && r[k] == x;
      }
    }
  }

  /** A logout ends just that session and its refresh token. */
  lemma {:induction false} LogoutDelivers(st: Store, c: int, jti: nat)
    ensures var st' := Step(st, Logout(c, jti));
            && !HasSession(st', c, jti)
            && (forall t :: t in st.issued && st.issued[t].customer == c && st.issued[t].sessionJti == jti
                            ==> !Stored(st', t))
            && (forall k, j :: k != c || j != jti ==> (HasSession(st', k, j) <==> HasSession(st, k, j)))
            && (forall t :: t in st.issued && (st.issued[t].customer != c || st.issued[t].sessionJti != jti)
                            ==> (Stored(st', t) <==> Stored(st, t)))
  {
    DropEnds(st, c, jti);
  }

  /** An exchange ends the old session and its token, gives a new session that is valid for five hours
      and a new token that can be exchanged for thirty days, and no other token changes. */
  lemma {:induction false} RefreshDelivers(st: Store, t: nat, ms: nat)
    requires Valid(st) && Exchangeable(st, t)
    ensures var st', c, oldJti := Step(st, Refresh(t)), st.issued[t].customer, st.issued[t].sessionJti;
            var later := Step(st', Wait(ms));
            && !HasSession(st', c, oldJti) && !Stored(st', t)
            && (ValidSession(later, c, st.next) <==> ms < 5 * 60 * 60 * 1000)
            && (Exchangeable(later, st.next + 1) <==> ms < 30 * 24 * 60 * 60 * 1000)
            && st'.issued[st.next + 1].customer == c && st'.issued[st.next + 1].sessionJti == st.next
            && (forall u :: u in st.issued && (st.issued[u].customer != c || st.issued[u].sessionJti != oldJti)
                            ==> (Exchangeable(st', u) <==> Exchangeable(st, u)))
  {
    var c, oldJti := st.issued[t].customer, st.issued[t].sessionJti;
    var dropped := Drop(st, c, oldJti);
    DropEnds(st, c, oldJti);
    DropKeepsValid(st, c, oldJti);
    NewSessionIn(dropped, c, REFRESH_TTL, ms);
    NothingComesBack(dropped, Login(c, true));
    assert Step(st, Refresh(t)) == Step(dropped, Login(c, true));
    forall u | u in st.issued && (st.issued[u].customer != c || st.issued[u].sessionJti != oldJti)
      ensures Exchangeable(Step(st, Refresh(t)), u) <==> Exchangeable(st, u)
    {
      LoginKeepsTokens(dropped, c, true, u);
    }
  }

  /** A reset leaves the customer without sessions and tokens, and everybody else as they were. */
  lemma {:induction false} ResetDelivers(st: Store, c: int)
    ensures var st' := Step(st, ResetPassword(c));
            && SessionsOf(st'.sessions, c) == [] && TokensOf(st'.tokens, c) == map[]
            && forall k :: k != c ==> SessionsOf(st'.sessions, k) == SessionsOf(st.sessions, k) &&
                                      TokensOf(st'.tokens, k) == TokensOf(st.tokens, k)
  {}
}
