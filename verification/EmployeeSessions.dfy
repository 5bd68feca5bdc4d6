/** One access token per employee: the active-jti key and the blacklist. Times are seconds. */
module EmployeeSessions {
  import opened Wrappers

  const ACCESS_TTL := 18000
  const REFRESH_TTL := 30 * 86400
  const REFRESH_SHORT_TTL := 86400

  /** A Redis value that is readable until expiry. */
  datatype Key<T> = Key(value: T, expiry: nat)
  datatype Access = Access(employee: int, exp: nat)

  /** issued decodes every access token ever signed; jtis and refresh tokens are numbered by next. */
  datatype Store = Store(active: map<int, Key<nat>>, blacklist: map<nat, nat>, refresh: map<int, Key<nat>>,
                         issued: map<nat, Access>, next: nat, now: nat)

  function Read<T>(m: map<int, Key<T>>, k: int, now: nat): Option<T> {
    if k in m && now < m[k].expiry then Some(m[k].value) else None
  }

  predicate Blacklisted(st: Store, jti: nat) {
    jti in st.blacklist && st.now < st.blacklist[jti]
  }

  predicate Unexpired(st: Store, jti: nat) {
    jti in st.issued && st.now < st.issued[jti].exp
  }

  predicate Live(st: Store, jti: nat) {
    Unexpired(st, jti) && !Blacklisted(st, jti)
  }

  /** What the request guard accepts. */
  predicate Accepted(st: Store, jti: nat) {
    Unexpired(st, jti) && !Blacklisted(st, jti) && Read(st.active, st.issued[jti].employee, st.now) == Some(jti)
  }

  // -- What each call does ----------------------------------------------------

  function Blacklist(st: Store, jti: nat): Store {
    st.(blacklist := st.blacklist[jti := st.now + ACCESS_TTL])
  }

  /** Revoke the active token if there is one, then sign and activate a new one. */
  function Renew(st: Store, e: int): Store {
    var oldJti := Read(st.active, e, st.now);
    var st' := if oldJti.Some? then Blacklist(st, oldJti.value) else st;
    st'.(active := st'.active[e := Key(st.next, st.now + ACCESS_TTL)],
         issued := st'.issued[st.next := Access(e, st.now + ACCESS_TTL)],
         next := st.next + 1)
  }

  function LoggedIn(st: Store, e: int, remember: bool): Store {
    var st' := Renew(st, e);
    st'.(refresh := st'.refresh[e := Key(st'.next, st.now + (if remember then REFRESH_TTL else REFRESH_SHORT_TTL))],
         next := st'.next + 1)
  }

  /** The service's logout, whatever token it is handed. */
  function LoggedOut(st: Store, e: int, jti: nat): Store {
    var st' := Blacklist(st, jti);
    st'.(active := st'.active - {e}, refresh := st'.refresh - {e})
  }

  datatype Op =
    | Login(employee: int, remember: bool)
    | Refresh(employee: int, token: nat)
    | Logout(jti: nat)
    | Wait(seconds: nat)

  /** A refused refresh, and a logout the guard does not let through, change nothing. */
  function Step(st: Store, op: Op): Store {
    match op
    case Login(e, remember) => LoggedIn(st, e, remember)
    case Refresh(e, token) => if Read(st.refresh, e, st.now) == Some(token) then Renew(st, e) else st
    case Logout(jti) => if Accepted(st, jti) then LoggedOut(st, st.issued[jti].employee, jti) else st
    case Wait(d) => st.(now := st.now + d)
  }

  class EmployeeAuth {
    var active: map<int, Key<nat>>
    var blacklist: map<nat, nat>
    var refresh: map<int, Key<nat>>
    var issued: map<nat, Access>
    var next: nat
    var now: nat

    constructor ()
      ensures State() == Store(map[], map[], map[], map[], 0, 0) && Valid(State())
    {
      active, blacklist, refresh, issued, next, now := map[], map[], map[], map[], 0, 0;
    }

    ghost function State(): Store
      reads this
    {
      Store(active, blacklist, refresh, issued, next, now)
    }

    method BlacklistToken(jti: nat)
      modifies this`blacklist
      ensures State() == Blacklist(old(State()), jti)
    {
      blacklist := blacklist[jti := now + ACCESS_TTL];
    }

    method RefreshEmployeeToken(employee: int, token: nat) returns (granted: Option<nat>)
      modifies this
      ensures State() == Step(old(State()), Refresh(employee, token))
      ensures granted == if Read(old(refresh), employee, old(now)) == Some(token) then Some(old(next)) else None
    {
      var stored := Read(refresh, employee, now);
      if stored.None? || stored.value != token { return None; }
      var oldJti := Read(active, employee, now);
      if oldJti.Some? { BlacklistToken(oldJti.value); }
      var jti := next;
      issued := issued[jti := Access(employee, now + ACCESS_TTL)];
      active := active[employee := Key(jti, now + ACCESS_TTL)];
      next := next + 1;
      return Some(jti);
    }

    method IssueEmployeeTokens(employee: int, remember: bool) returns (jti: nat, token: nat)
      modifies this
      ensures State() == Step(old(State()), Login(employee, remember))
      ensures jti == old(next) && token == old(next) + 1
    {
      var oldJti := Read(active, employee, now);
      if oldJti.Some? { BlacklistToken(oldJti.value); }
      jti := next;
      issued := issued[jti := Access(employee, now + ACCESS_TTL)];
      active := active[employee := Key(jti, now + ACCESS_TTL)];
      token := next + 1;
      refresh := refresh[employee := Key(token, now + (if remember then REFRESH_TTL else REFRESH_SHORT_TTL))];
      next := next + 2;
    }

    /** The guard in front of every authenticated request. */
    method Validate(jti: nat) returns (ok: bool)
      ensures ok <==> Accepted(State(), jti)
    {
      if jti !in issued || now >= issued[jti].exp { return false; }
      if jti in blacklist && now < blacklist[jti] { return false; }
      var activeJti := Read(active, issued[jti].employee, now);
      return activeJti.Some? && activeJti.value == jti;
    }

    method LogoutEmployee(jti: nat)
      modifies this
      ensures State() == Step(old(State()), Logout(jti))
    {
      var ok := Validate(jti);
      if !ok { return; }
      var employee := issued[jti].employee;
      BlacklistToken(jti);
      active := active - {employee};
      refresh := refresh - {employee};
    }
  }

  // -- Single session ---------------------------------------------------------

  /** A blacklist entry outlives its token; every token not revoked and not expired is its
      employee's active one; every active entry mirrors a token that was not revoked. */
  ghost predicate Valid(st: Store) {
    && (forall j :: j in st.issued ==> j < st.next && st.issued[j].exp <= st.now + ACCESS_TTL)
    && (forall j :: j in st.issued && j in st.blacklist ==> st.issued[j].exp <= st.blacklist[j])
    && (forall j :: j in st.issued && j !in st.blacklist && st.now < st.issued[j].exp ==>
          st.issued[j].employee in st.active && st.active[st.issued[j].employee] == Key(j, st.issued[j].exp))
    && (forall e :: e in st.active ==>
          st.active[e].value in st.issued && st.active[e].value !in st.blacklist &&
          st.issued[st.active[e].value] == Access(e, st.active[e].expiry))
    && (forall j :: j in st.blacklist ==> j < st.next)
  }

  ghost predicate AtMostOneLive(st: Store) {
    forall a, b :: Live(st, a) && Live(st, b) && st.issued[a].employee == st.issued[b].employee ==> a == b
  }

  lemma {:induction false} RenewKeepsValid(st: Store, e: int)
    requires Valid(st)
    ensures Valid(Renew(st, e)) && Accepted(Renew(st, e), st.next)
  {}

  lemma {:induction false} LogoutKeepsValid(st: Store, jti: nat)
    requires Valid(st) && Accepted(st, jti)
    ensures Valid(LoggedOut(st, st.issued[jti].employee, jti))
  {}

  lemma {:induction false} StepKeepsValid(st: Store, op: Op)
    requires Valid(st)
    ensures Valid(Step(st, op))
  {
    match op {
      case Login(e, _) => RenewKeepsValid(st, e);
      case Refresh(e, token) => RenewKeepsValid(st, e);
      case Logout(jti) => if Accepted(st, jti) { LogoutKeepsValid(st, jti); }
      case Wait(_) =>
    }
  }

  function Run(st: Store, ops: seq<Op>): Store
    decreases |ops|
  {
    if ops == [] then st else Run(Step(st, ops[0]), ops[1..])
  }

  /** In every reachable state at most one access token per employee is unexpired and not
      blacklisted, and the guard accepts exactly those tokens. */
  lemma {:induction false} RunsKeepSingleSession(st: Store, ops: seq<Op>)
    requires Valid(st)
    ensures Valid(Run(st, ops)) && AtMostOneLive(Run(st, ops))
    ensures forall j :: Live(Run(st, ops), j) <==> Accepted(Run(st, ops), j)
    decreases |ops|
  {
    if ops != [] {
      StepKeepsValid(st, ops[0]);
      RunsKeepSingleSession(Step(st, ops[0]), ops[1..]);
    }
  }

  /** A login or a granted refresh ends every earlier session of the employee, at once and for good. */
  lemma {:induction false} NewSessionEndsEarlierOnes(st: Store, e: int, jti: nat, ops: seq<Op>)
    requires Valid(st) && jti in st.issued && st.issued[jti].employee == e
    ensures !Live(Run(Renew(st, e), ops), jti)
  {
    RenewKeepsValid(st, e);
    DeadStaysDead(Renew(st, e), ops, jti);
  }

  lemma {:induction false} DeadAfterStep(st: Store, op: Op, jti: nat)
    requires Valid(st) && jti in st.issued && !Live(st, jti)
    ensures jti in Step(st, op).issued && !Live(Step(st, op), jti)
  {}

  lemma {:induction false} DeadStaysDead(st: Store, ops: seq<Op>, jti: nat)
    requires Valid(st) && jti in st.issued && !Live(st, jti)
    ensures !Live(Run(st, ops), jti)
    decreases |ops|
  {
    if ops != [] {
      StepKeepsValid(st, ops[0]);
      DeadAfterStep(st, ops[0], jti);
      DeadStaysDead(Step(st, ops[0]), ops[1..], jti);
    }
  }

  /** Without the guard in front, a logout keeps the next login exclusive exactly when
      it was handed the active token, or there was none. */
  lemma {:induction false} UnguardedLogoutSafeIff(st: Store, e: int, jti: nat, remember: bool)
    requires Valid(st) && jti < st.next
    ensures var active := Read(st.active, e, st.now);
            AtMostOneLive(LoggedIn(LoggedOut(st, e, jti), e, remember)) <==> active.None? || active == Some(jti)
  {
    var active := Read(st.active, e, st.now);
    var st1 := LoggedOut(st, e, jti);
    var st2 := LoggedIn(st1, e, remember);
    assert Live(st2, st.next);
    if active.Some? && active.value != jti {
      assert Live(st2, active.value);
    }
  }

  // -- What each call delivers ------------------------------------------------

  /** A refresh token would be granted. */
  predicate Refreshable(st: Store, e: int, token: nat) {
    Read(st.refresh, e, st.now) == Some(token)
  }

  /** A login gives an access token that is accepted for five hours and a refresh token good for a day,
      or, remembered, for thirty. */
  lemma {:induction false} LoginDelivers(st: Store, e: int, remember: bool, seconds: nat)
    requires Valid(st)
    ensures var st' := Step(Step(st, Login(e, remember)), Wait(seconds));
            && (Accepted(st', st.next) <==> seconds < 5 * 60 * 60)
            && (Refreshable(st', e, st.next + 1) <==> seconds < (if remember then 30 else 1) * 24 * 60 * 60)
            && st'.issued[st.next].employee == e
  {}

  /** A granted refresh gives another access token for five hours and leaves the refresh token as it
      was; a refused one changes nothing. */
  lemma {:induction false} RefreshDelivers(st: Store, e: int, token: nat, seconds: nat)
    requires Valid(st)
    ensures var st' := Step(st, Refresh(e, token));
            && (!Refreshable(st, e, token) ==> st' == st)
            && (Refreshable(st, e, token) ==>
                  && (Accepted(Step(st', Wait(seconds)), st.next) <==> seconds < 5 * 60 * 60)
                  && st'.refresh == st.refresh && st'.issued[st.next].employee == e)
  {}

  /** Behind the guard a logout ends the token and the employee's refresh token at once, and nobody
      else's. */
  lemma {:induction false} LogoutDelivers(st: Store, jti: nat)
    requires Valid(st) && Accepted(st, jti)
    ensures var st', e := Step(st, Logout(jti)), st.issued[jti].employee;
            && !Live(st', jti) && Read(st'.active, e, st'.now).None? && Read(st'.refresh, e, st'.now).None?
            && (forall j :: j in st.issued && st.issued[j].employee != e ==> (Accepted(st', j) <==> Accepted(st, j)))
            && (forall k, token :: k != e ==> (Refreshable(st', k, token) <==> Refreshable(st, k, token)))
  {}
}
