module AccountsSteps {
  /**
   What each step does, said of the accounts, sessions and identities themselves: exactly when it is done, what it
   changes and that it changes nothing else.
   */
  import opened Util
  import opened Accounts

  /** Account `u` has the address, in some spelling. */
  predicate Has(r: Rules, st: State, u: nat, email: Id) {
    u in st.users && r.norm(st.users[u].email) == r.norm(email)
  }

  ghost predicate Taken(r: Rules, st: State, email: Id) {
    exists u: nat :: Has(r, st, u, email)
  }

  /** The account that has the address is the one the store finds. */
  lemma Found(r: Rules, st: State, email: Id)
    requires Inv(r, st)
    ensures Taken(r, st, email) <==> ByEmail(r, st, email).Some?
    ensures forall u: nat :: Has(r, st, u, email) <==> ByEmail(r, st, email) == Some(u)
  {
    hide SessionsOk, OneSubject, BoundToKnown;
    var id := ByEmail(r, st, email);
    forall u: nat ensures Has(r, st, u, email) <==> id == Some(u) {
      if Has(r, st, u, email) {
        assert u < st.nextId && id.Some?;
        assert id.value == u;
      }
    }
    if id.Some? { assert Has(r, st, id.value, email); }
  }

  // ---- signing in ----

  /** The account is enabled, has the address, and the password verifies against its digest. */
  predicate Accepts(r: Rules, st: State, step: Step, u: nat)
    requires step.Login?
  {
    && Has(r, st, u, r.norm(step.email)) && !st.users[u].disabled
    && r.verify(step.password, st.users[u].password)
  }

  /** The token is bound to the account, as it is, until it expires; other tokens are left alone. */
  predicate Opens(st: State, next: State, token: Id, u: nat, expires: int) {
    u in st.users && next.sessions == st.sessions[token := Session(u, expires, st.users[u].role, st.users[u].cities)]
  }

  /**
   A password sign-in succeeds exactly for an enabled account with that address against whose digest the password
   verifies. It binds the token to that account and changes no account but for a renewed digest; a failed one changes
   nothing.
   */
  lemma LoginExactly(r: Rules, st: State, step: Step)
    requires Inv(r, st) && step.Login?
    ensures var (next, out) := Apply(r, st, step);
            && (out == Done <==> exists u: nat :: Accepts(r, st, step, u))
            && (out != Done ==> out == Unauthorized && next == st)
            && forall u: nat :: Accepts(r, st, step, u) ==>
                 && Opens(st, next, step.token, u, step.expires)
                 && next.identities == st.identities && next.nextId == st.nextId
                 && next.users == (if r.rehash(st.users[u].password).None? then st.users
                                   else st.users[u := st.users[u].(password := r.rehash(st.users[u].password).value)])
  {
    hide Inv, ByEmail;
    Found(r, st, r.norm(step.email));
    InvUsers(r, st);
    var id := ByEmail(r, st, r.norm(step.email));
    if id.Some? {
      assert Has(r, st, id.value, r.norm(step.email));
      assert st.users[id.value].id == id.value;
      assert Apply(r, st, step).1 == Done <==> Accepts(r, st, step, id.value);
    }
    forall u: nat | Accepts(r, st, step, u) ensures id == Some(u) {}
  }

  /** The sign-in provider's address is one the deployment makes accounts for, and nobody has it yet. */
  ghost predicate Provisions(r: Rules, st: State, email: Id) {
    !Taken(r, st, r.norm(email)) && r.provision.Some? && r.provision.value.allows(r.norm(email))
  }

  function Provisioned(r: Rules, st: State, step: Step): User
    requires step.SignIn? && r.provision.Some?
  {
    User(st.nextId, r.strip(r.norm(step.email)), step.name, r.provision.value.role, r.provision.value.cities, false,
         step.password)
  }

  /** The subject is bound to the account, or neither is bound to anything of the provider. */
  ghost predicate Bindable(st: State, u: nat, provider: Id, subject: Id) {
    if (provider, subject) in st.identities then st.identities[(provider, subject)].user == u
    else forall s :: (provider, s) in st.identities ==> st.identities[(provider, s)].user != u
  }

  /** A provider sign-in to an account that exists. */
  lemma SignInExactly(r: Rules, st: State, step: Step, u: nat)
    requires Inv(r, st) && step.SignIn? && Has(r, st, u, r.norm(step.email))
    ensures var (next, out) := Apply(r, st, step);
            && (out == Done <==> !st.users[u].disabled && Bindable(st, u, step.provider, step.subject))
            && (out != Done ==> out == Forbidden && next == st)
            && (out == Done ==>
                 && Opens(st, next, step.token, u, step.expires)
                 && next.identities
                    == st.identities[(step.provider, step.subject) := Identity(u, r.norm(step.email))]
                 && next.users == st.users && next.nextId == st.nextId)
  {
    Found(r, st, r.norm(step.email));
    var key := (step.provider, step.subject);
    assert ByEmail(r, st, r.norm(step.email)) == Some(u);
    if key !in st.identities {
      assert LinkedElsewhere(st, u, step.provider, step.subject) <==> !Bindable(st, u, step.provider, step.subject);
    }
  }

  /**
   A provider sign-in with an address nobody has makes an account if it may, bound or, if the subject is another's,
   not.
   */
  lemma FirstSignInExactly(r: Rules, st: State, step: Step)
    requires Inv(r, st) && step.SignIn? && !Taken(r, st, r.norm(step.email))
    ensures var (next, out) := Apply(r, st, step);
            var key := (step.provider, step.subject);
            && (out == Done <==> Provisions(r, st, step.email) && key !in st.identities)
            && (out != Done ==> out == Forbidden && next.sessions == st.sessions && next.identities == st.identities)
            && (if Provisions(r, st, step.email)
                then next.users == st.users[st.nextId := Provisioned(r, st, step)] && next.nextId == st.nextId + 1
                else next == st)
            && (out == Done ==>
                 && next.sessions == st.sessions[step.token := Session(st.nextId, step.expires, r.provision.value.role,
                                                                       r.provision.value.cities)]
                 && next.identities == st.identities[key := Identity(st.nextId, r.norm(step.email))])
  {
    Found(r, st, r.norm(step.email));
    forall k | k in st.identities ensures st.identities[k].user != st.nextId {
      NewIsUnbound(r, st, k);
    }
  }

  lemma NewIsUnbound(r: Rules, st: State, k: (Id, Id))
    requires Inv(r, st) && k in st.identities
    ensures st.identities[k].user != st.nextId
  {}

  // ---- managing accounts ----

  /** The token speaks for an enabled account now. */
  predicate Speaks(st: State, token: Id, now: int) {
    && token in st.sessions && st.sessions[token].expires > now
    && st.sessions[token].user in st.users && !st.users[st.sessions[token].user].disabled
  }

  predicate OwnerSpeaks(st: State, token: Id, now: int) {
    Speaks(st, token, now) && st.users[st.sessions[token].user].role == Owner
  }

  /** Only an owner's session manages accounts; anyone else is told why and changes nothing. */
  lemma OwnersOnly(r: Rules, st: State, step: Step)
    requires step.Create? || step.Update? || step.Disable?
    ensures var (next, out) := Apply(r, st, step);
            && (out == Unauthorized <==> !Speaks(st, step.me, step.now))
            && (out == Forbidden <==> Speaks(st, step.me, step.now) && !OwnerSpeaks(st, step.me, step.now))
            && (out != Done ==> next == st)
  {
    hide ByEmail, LastOwner;
  }

  predicate Adds(r: Rules, st: State, next: State, email: Id, password: Id, name: Id, role: Role, cities: seq<Id>) {
    next == st.(users := st.users[st.nextId := User(st.nextId, r.strip(email), name, role, cities, false, password)],
                nextId := st.nextId + 1)
  }

  lemma CreateExactly(r: Rules, st: State, step: Step)
    requires Inv(r, st) && step.Create? && OwnerSpeaks(st, step.me, step.now)
    ensures var (next, out) := Apply(r, st, step);
            && (out == Invalid <==> !step.accepted || !r.validEmail(r.norm(step.email)))
            && (out == Conflict <==> step.accepted && r.validEmail(r.norm(step.email)) && Taken(r, st, step.email))
            && out in {Done, Invalid, Conflict}
            && (out == Done ==> Adds(r, st, next, step.email, step.password, step.name, step.role, step.cities))
  {
    Found(r, st, step.email);
  }

  ghost predicate OnlyOwner(st: State, u: nat) {
    EnabledOwner(st, u) && forall k :: k in st.users && k != u ==> !EnabledOwner(st, k)
  }

  function Or<T>(given: Option<T>, kept: T): T {
    if given.Some? then given.value else kept
  }

  /** The sessions of everybody else. */
  ghost predicate SignsOut(st: State, next: State, u: nat) {
    && (forall t :: t in next.sessions <==> t in st.sessions && st.sessions[t].user != u)
    && (forall t :: t in next.sessions ==> next.sessions[t] == st.sessions[t])
  }

  /** Account `u` is `now`; everyone else, and the identities, are as before. */
  ghost predicate Becomes(st: State, next: State, u: nat, now: User) {
    next.users == st.users[u := now] && next.nextId == st.nextId && next.identities == st.identities
  }

  lemma UpdateExactly(r: Rules, st: State, step: Step)
    requires Inv(r, st) && step.Update? && OwnerSpeaks(st, step.me, step.now)
    ensures var (next, out) := Apply(r, st, step);
            var p := step.patch;
            var loses := p.disabled == Some(true) || p.role == Some(Viewer) || p.role == Some(Admin);
            && (out == NotFound <==> step.user !in st.users)
            && (out == Done <==> && step.user in st.users && (p.cities.Some? ==> p.citiesKnown)
                                 && !(loses && OnlyOwner(st, step.user)) && (p.password.Some? ==> p.passwordOk))
            && (out == Conflict ==> loses && OnlyOwner(st, step.user))
            && out in {Done, NotFound, Conflict, Invalid}
            && (out == Done ==>
                 var u := st.users[step.user];
                 && Becomes(st, next, step.user,
                            User(step.user, u.email, Or(p.name, u.name), Or(p.role, u.role), Or(p.cities, u.cities),
                                 Or(p.disabled, u.disabled), Or(p.password, u.password)))
                 && (if p.password.None? && p.role.None? && p.cities.None? && p.disabled.None?
                     then next.sessions == st.sessions else SignsOut(st, next, step.user)))
  {
    hide ByEmail, EmailsUnique, SessionsOk, OneSubject, BoundToKnown;
    assert OnlyOwner(st, step.user) <==> LastOwner(st, step.user);
  }

  lemma DisableExactly(r: Rules, st: State, step: Step)
    requires Inv(r, st) && step.Disable? && OwnerSpeaks(st, step.me, step.now)
    ensures var (next, out) := Apply(r, st, step);
            && out == (if step.user !in st.users then NotFound else if OnlyOwner(st, step.user) then Conflict else Done)
            && (out == Done ==>
                 && Becomes(st, next, step.user, st.users[step.user].(disabled := true))
                 && SignsOut(st, next, step.user))
  {
    hide ByEmail, EmailsUnique, SessionsOk, OneSubject, BoundToKnown;
    assert OnlyOwner(st, step.user) <==> LastOwner(st, step.user);
  }

  // ---- signing out ----

  lemma LogoutExactly(r: Rules, st: State, step: Step)
    requires step.Logout?
    ensures var (next, out) := Apply(r, st, step);
            && out == (if Speaks(st, step.token, step.now) then Done else Unauthorized)
            && next.users == st.users && next.identities == st.identities && next.nextId == st.nextId
            && (out != Done ==> next == st)
            && (out == Done ==>
                 && step.token !in next.sessions
                 && forall t :: t != step.token ==> Get(next.sessions, t) == Get(st.sessions, t))
  {}

  lemma ExpiryExactly(r: Rules, st: State, step: Step)
    requires step.DropExpired?
    ensures var next := Apply(r, st, step).0;
            && next.users == st.users && next.identities == st.identities && next.nextId == st.nextId
            && forall t :: Get(next.sessions, t) ==
                           if t in st.sessions && step.now < st.sessions[t].expires then Some(st.sessions[t]) else None
  {}

  // ---- the seed and the shell ----

  lemma SeedExactly(r: Rules, st: State, step: Step)
    requires Inv(r, st) && step.Bootstrap?
    ensures var (next, out) := Apply(r, st, step);
            if st.users.Keys == {} && r.validEmail(r.norm(step.email))
            then out == Done && Adds(r, st, next, r.norm(step.email), step.password, step.name, Owner, [])
            else next == st && (out == Invalid <==> st.users.Keys == {})
  {
    Found(r, st, r.norm(step.email));
    assert st.users.Keys == {} <==> st.users == map[];
  }

  lemma ShellCreateExactly(r: Rules, st: State, step: Step)
    requires Inv(r, st) && step.ShellCreate?
    ensures var (next, out) := Apply(r, st, step);
            && (out == Invalid <==> !r.validEmail(r.norm(step.email)))
            && (out == Conflict <==> r.validEmail(r.norm(step.email)) && Taken(r, st, r.norm(step.email)))
            && out in {Done, Invalid, Conflict} && (out != Done ==> next == st)
            && (out == Done ==>
                 Adds(r, st, next, r.norm(step.email), step.password, step.name, step.role, step.cities))
  {
    Found(r, st, r.norm(step.email));
  }

  /** The other commands of the shell, on the account `u` that has the address. */
  lemma ShellExactly(r: Rules, st: State, step: Step, u: nat)
    requires Inv(r, st) && (step.ShellPassword? || step.ShellDisable? || step.ShellEnable? || step.ShellUnlink?)
    requires Has(r, st, u, r.norm(step.email)) && r.validEmail(r.norm(step.email))
    ensures var (next, out) := Apply(r, st, step);
            && out == Done
            && (step.ShellPassword? ==>
                 Becomes(st, next, u, st.users[u].(password := step.password)) && SignsOut(st, next, u))
            && (step.ShellDisable? ==>
                 Becomes(st, next, u, st.users[u].(disabled := true)) && SignsOut(st, next, u))
            && (step.ShellEnable? ==>
                 Becomes(st, next, u, st.users[u].(disabled := false)) && next.sessions == st.sessions)
            && (step.ShellUnlink? ==>
                 && next.users == st.users && next.sessions == st.sessions && next.nextId == st.nextId
                 && forall k :: Get(next.identities, k) ==
                                if k in st.identities && st.identities[k].user == u && k.0 == step.provider then None
                                else Get(st.identities, k))
  {
    hide ByEmail, Inv;
    Found(r, st, r.norm(step.email));
    InvUsers(r, st);
    assert ShellUser(r, st, step.email) == Some(u);
  }

  lemma ShellNobody(r: Rules, st: State, step: Step)
    requires Inv(r, st) && (step.ShellPassword? || step.ShellDisable? || step.ShellEnable? || step.ShellUnlink?)
    requires !(Taken(r, st, r.norm(step.email)) && r.validEmail(r.norm(step.email)))
    ensures Apply(r, st, step) == (st, if r.validEmail(r.norm(step.email)) then NotFound else Invalid)
  {
    Found(r, st, r.norm(step.email));
  }

  // ---- where sessions come from ----

  /** Step `k` signed someone in under the token, and the session stands as it was opened then. */
  ghost predicate SignedIn(r: Rules, steps: seq<Step>, k: nat, n: nat, token: Id)
    requires k < n <= |steps|
  {
    && (steps[k].Login? || steps[k].SignIn?) && steps[k].token == token
    && Apply(r, Run(r, steps, k), steps[k]).1 == Done
    && Get(Run(r, steps, n).sessions, token) == Get(Run(r, steps, k + 1).sessions, token)
  }

  lemma NoNewSession(r: Rules, st: State, step: Step, token: Id)
    requires Inv(r, st) && token in Apply(r, st, step).0.sessions
    requires !((step.Login? || step.SignIn?) && step.token == token && Apply(r, st, step).1 == Done)
    ensures Get(Apply(r, st, step).0.sessions, token) == Get(st.sessions, token)
  {
    hide ByEmail, LastOwner, LinkedElsewhere, EmailsUnique, SessionsOk, OneSubject, BoundToKnown, Patched;
  }

  /** Over runs, every session was opened under its token by a sign-in that was accepted. */
  lemma {:induction false} SessionsAreSignedIn(r: Rules, steps: seq<Step>, n: nat, token: Id) returns (k: nat)
    requires Lawful(r) && n <= |steps| && token in Run(r, steps, n).sessions
    ensures k < n && SignedIn(r, steps, k, n, token)
  {
    hide Inv, Apply, Lawful;
    var st, step := Run(r, steps, n - 1), steps[n - 1];
    if (step.Login? || step.SignIn?) && step.token == token && Apply(r, st, step).1 == Done {
      k := n - 1;
    } else {
      RunKeeps(r, steps, n - 1);
      NoNewSession(r, st, step, token);
      k := SessionsAreSignedIn(r, steps, n - 1, token);
    }
  }
}
