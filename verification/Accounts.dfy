module Accounts {
  /**
   Admin accounts, sessions and provider identities as a state machine: every request, and every command of the
   shell script, is one atomic step. Passwords, digests and verified provider identities are opaque values.
   */
  import opened Util

  datatype Role = Viewer | Admin | Owner

  datatype User = User(id: nat, email: Id, name: Id, role: Role, cities: seq<Id>, disabled: bool, password: Id)

  /** `role` and `cities` are what the user had when the session was opened; the program does not store them. */
  datatype Session = Session(user: nat, expires: int, role: Role, cities: seq<Id>)

  datatype Identity = Identity(user: nat, email: Id)

  datatype State = State(users: map<nat, User>, sessions: map<Id, Session>, identities: map<(Id, Id), Identity>,
                         nextId: nat)

  datatype Provision = Provision(allows: Id -> bool, role: Role, cities: seq<Id>)

  /** Spelling of addresses, password digests, and whether a sign-in may create an account. */
  datatype Rules = Rules(norm: Id -> Id, strip: Id -> Id, validEmail: Id -> bool, verify: (Id, Id) -> bool,
                         rehash: Id -> Option<Id>, provision: Option<Provision>)

  /** Stripping an address does not change the address it stands for. */
  ghost predicate Lawful(r: Rules) {
    forall e :: r.norm(r.strip(e)) == r.norm(e)
  }

  datatype Outcome = Done | Unauthorized | Forbidden | NotFound | Conflict | Invalid

  datatype Patch = Patch(name: Option<Id>, role: Option<Role>, cities: Option<seq<Id>>, citiesKnown: bool,
                         disabled: Option<bool>, password: Option<Id>, passwordOk: bool)

  datatype Step =
    | Bootstrap(email: Id, password: Id, name: Id)
    | Create(me: Id, now: int, email: Id, password: Id, name: Id, role: Role, cities: seq<Id>, accepted: bool)
    | Update(me: Id, now: int, user: nat, patch: Patch)
    | Disable(me: Id, now: int, user: nat)
    | Login(email: Id, password: Id, token: Id, expires: int)
    | SignIn(provider: Id, subject: Id, email: Id, name: Id, password: Id, token: Id, expires: int)
    | Logout(token: Id, now: int)
    | DropExpired(now: int)
    | ShellCreate(email: Id, password: Id, name: Id, role: Role, cities: seq<Id>)
    | ShellPassword(email: Id, password: Id)
    | ShellDisable(email: Id)
    | ShellEnable(email: Id)
    | ShellUnlink(email: Id, provider: Id)

  const EMPTY := State(map[], map[], map[], 1)

  // ---- the store ----

  /** The first account, in the order of creation, whose address reads the same. */
  function ByEmailFrom(r: Rules, st: State, email: Id, i: nat): (u: Option<nat>)
    ensures u.Some? ==> u.value in st.users && r.norm(st.users[u.value].email) == r.norm(email)
    ensures u.None? ==> forall k :: i <= k < st.nextId && k in st.users ==> r.norm(st.users[k].email) != r.norm(email)
    decreases st.nextId - i
  {
    if i >= st.nextId then None
    else if i in st.users && r.norm(st.users[i].email) == r.norm(email) then Some(i)
    else ByEmailFrom(r, st, email, i + 1)
  }

  function ByEmail(r: Rules, st: State, email: Id): (u: Option<nat>)
    ensures u.Some? ==> u.value in st.users && r.norm(st.users[u.value].email) == r.norm(email)
    ensures u.None? ==> forall k :: 0 <= k < st.nextId && k in st.users ==> r.norm(st.users[k].email) != r.norm(email)
  {
    ByEmailFrom(r, st, email, 0)
  }

  function AddUser(r: Rules, st: State, email: Id, password: Id, name: Id, role: Role, cities: seq<Id>): State {
    st.(users := st.users[st.nextId := User(st.nextId, r.strip(email), name, role, cities, false, password)],
        nextId := st.nextId + 1)
  }

  /** Adds an account unless there is one with that address. */
  function CreateUser(r: Rules, st: State, email: Id, password: Id, name: Id, role: Role, cities: seq<Id>)
    : (State, Outcome)
  {
    if ByEmail(r, st, email).Some? then (st, Conflict) else (AddUser(r, st, email, password, name, role, cities), Done)
  }

  function DeleteSessionsOf(st: State, user: nat): State {
    st.(sessions := map t | t in st.sessions && st.sessions[t].user != user :: st.sessions[t])
  }

  function SetUser(st: State, u: User): State {
    st.(users := st.users[u.id := u])
  }

  function OpenSession(st: State, user: nat, token: Id, expires: int): State
    requires user in st.users
  {
    st.(sessions := st.sessions[token := Session(user, expires, st.users[user].role, st.users[user].cities)])
  }

  // ---- who is asking ----

  /** The user behind a session token, if it is live. */
  function Principal(st: State, token: Id, now: int): Option<User> {
    if token !in st.sessions || st.sessions[token].expires <= now || st.sessions[token].user !in st.users then None
    else
      var u := st.users[st.sessions[token].user];
      if u.disabled then None else Some(u)
  }

  function RequireOwner(st: State, token: Id, now: int): Outcome {
    var p := Principal(st, token, now);
    if p.None? then Unauthorized else if p.value.role != Owner then Forbidden else Done
  }

  predicate EnabledOwner(st: State, id: nat) {
    id in st.users && st.users[id].role.Owner? && !st.users[id].disabled
  }

  /** The only enabled owner is `id`. */
  ghost predicate LastOwner(st: State, id: nat) {
    EnabledOwner(st, id) && forall k :: EnabledOwner(st, k) ==> k == id
  }

  // ---- the steps ----

  function Patched(u: User, p: Patch): User {
    var a := if p.name.Some? then u.(name := p.name.value) else u;
    var b := if p.role.Some? then a.(role := p.role.value) else a;
    var c := if p.cities.Some? then b.(cities := p.cities.value) else b;
    var d := if p.disabled.Some? then c.(disabled := p.disabled.value) else c;
    if p.password.Some? then d.(password := p.password.value) else d
  }

  predicate Demotes(p: Patch) {
    p.disabled == Some(true) || (p.role.Some? && p.role.value != Owner)
  }

  predicate EndsSessions(p: Patch) {
    p.password.Some? || p.role.Some? || p.cities.Some? || p.disabled.Some?
  }

  ghost function UpdateUser(st: State, user: nat, p: Patch): (State, Outcome) {
    if user !in st.users then (st, NotFound)
    else if p.cities.Some? && !p.citiesKnown then (st, Invalid)
    else if Demotes(p) && LastOwner(st, user) then (st, Conflict)
    else if p.password.Some? && !p.passwordOk then (st, Invalid)
    else
      var next := SetUser(st, Patched(st.users[user], p).(id := user));
      (if EndsSessions(p) then DeleteSessionsOf(next, user) else next, Done)
  }

  ghost function DisableUser(st: State, user: nat): (State, Outcome) {
    if user !in st.users then (st, NotFound)
    else if LastOwner(st, user) then (st, Conflict)
    else (DeleteSessionsOf(SetUser(st, st.users[user].(id := user, disabled := true)), user), Done)
  }

  function LoginUser(r: Rules, st: State, email: Id, password: Id, token: Id, expires: int): (State, Outcome) {
    var id := ByEmail(r, st, r.norm(email));
    if id.None? || !r.verify(password, st.users[id.value].password) || st.users[id.value].disabled
    then (st, Unauthorized)
    else
      var digest := r.rehash(st.users[id.value].password);
      var next := if digest.Some? then SetUser(st, st.users[id.value].(id := id.value, password := digest.value))
                  else st;
      (OpenSession(next, id.value, token, expires), Done)
  }

  /** The account a provider sign-in is for, and the state once it has been provisioned if that is allowed. */
  function FindOrProvision(r: Rules, st: State, email: Id, name: Id, password: Id): (State, Option<nat>) {
    var id := ByEmail(r, st, r.norm(email));
    if id.Some? then (st, id)
    else if r.provision.Some? && r.provision.value.allows(r.norm(email)) then
      (AddUser(r, st, r.norm(email), password, name, r.provision.value.role, r.provision.value.cities), Some(st.nextId))
    else (st, None)
  }

  ghost predicate LinkedElsewhere(st: State, user: nat, provider: Id, subject: Id) {
    exists s :: (provider, s) in st.identities && st.identities[(provider, s)].user == user && s != subject
  }

  ghost function SignInUser(r: Rules, st: State, provider: Id, subject: Id, email: Id, name: Id, password: Id,
                            token: Id, expires: int): (State, Outcome) {
    var (found, id) := FindOrProvision(r, st, email, name, password);
    if id.None? || id.value !in found.users || found.users[id.value].disabled then (found, Forbidden)
    else
      var key := (provider, subject);
      if key in found.identities && found.identities[key].user != id.value then (found, Forbidden)
      else if key !in found.identities && LinkedElsewhere(found, id.value, provider, subject) then (found, Forbidden)
      else
        var next := found.(identities := found.identities[key := Identity(id.value, r.norm(email))]);
        (OpenSession(next, id.value, token, expires), Done)
  }

  function Unlink(st: State, user: nat, provider: Id): State {
    st.(identities :=
      map k | k in st.identities && !(st.identities[k].user == user && k.0 == provider) :: st.identities[k])
  }

  /** The account a shell command names; a malformed address names none. */
  function ShellUser(r: Rules, st: State, email: Id): (u: Option<nat>)
    ensures u.Some? ==> u.value in st.users
  {
    if r.validEmail(r.norm(email)) then ByEmail(r, st, r.norm(email)) else None
  }

  function NoShellUser(r: Rules, email: Id): Outcome {
    if r.validEmail(r.norm(email)) then NotFound else Invalid
  }

  ghost function Apply(r: Rules, st: State, step: Step): (State, Outcome) {
    match step
    case Bootstrap(email, password, name) =>
      if st.users != map[] then (st, Done)
      else if !r.validEmail(r.norm(email)) then (st, Invalid)
      else CreateUser(r, st, r.norm(email), password, name, Owner, [])
    case Create(me, now, email, password, name, role, cities, accepted) =>
      if RequireOwner(st, me, now) != Done then (st, RequireOwner(st, me, now))
      else if !accepted || !r.validEmail(r.norm(email)) then (st, Invalid)
      else CreateUser(r, st, email, password, name, role, cities)
    case Update(me, now, user, patch) =>
      if RequireOwner(st, me, now) != Done then (st, RequireOwner(st, me, now)) else UpdateUser(st, user, patch)
    case Disable(me, now, user) =>
      if RequireOwner(st, me, now) != Done then (st, RequireOwner(st, me, now)) else DisableUser(st, user)
    case Login(email, password, token, expires) => LoginUser(r, st, email, password, token, expires)
    case SignIn(provider, subject, email, name, password, token, expires) =>
      SignInUser(r, st, provider, subject, email, name, password, token, expires)
    case Logout(token, now) =>
      if Principal(st, token, now).None? then (st, Unauthorized) else (st.(sessions := st.sessions - {token}), Done)
    case DropExpired(now) =>
      (st.(sessions := map t | t in st.sessions && st.sessions[t].expires > now :: st.sessions[t]), Done)
    case ShellCreate(email, password, name, role, cities) =>
      if !r.validEmail(r.norm(email)) then (st, Invalid)
      else CreateUser(r, st, r.norm(email), password, name, role, cities)
    case ShellPassword(email, password) =>
      var id := ShellUser(r, st, email);
      if id.None? then (st, NoShellUser(r, email))
      else (DeleteSessionsOf(SetUser(st, st.users[id.value].(id := id.value, password := password)), id.value), Done)
    case ShellDisable(email) =>
      var id := ShellUser(r, st, email);
      if id.None? then (st, NoShellUser(r, email))
      else (DeleteSessionsOf(SetUser(st, st.users[id.value].(id := id.value, disabled := true)), id.value), Done)
    case ShellEnable(email) =>
      var id := ShellUser(r, st, email);
      if id.None? then (st, NoShellUser(r, email))
      else (SetUser(st, st.users[id.value].(id := id.value, disabled := false)), Done)
    case ShellUnlink(email, provider) =>
      var id := ShellUser(r, st, email);
      if id.None? then (st, NoShellUser(r, email)) else (Unlink(st, id.value, provider), Done)
  }

  ghost function Run(r: Rules, steps: seq<Step>, n: nat): State
    requires n <= |steps|
  {
    if n == 0 then EMPTY else Apply(r, Run(r, steps, n - 1), steps[n - 1]).0
  }

  // ---- what every step keeps ----

  type Users = map<nat, User>

  ghost predicate UsersOk(users: Users, nextId: nat) {
    forall id :: id in users ==> id < nextId && users[id].id == id
  }

  ghost predicate EmailsUnique(r: Rules, users: Users) {
    forall i, j :: i in users && j in users && i != j ==> r.norm(users[i].email) != r.norm(users[j].email)
  }

  predicate Live(s: Session, users: Users) {
    && s.user in users && !users[s.user].disabled
    && users[s.user].role == s.role && users[s.user].cities == s.cities
  }

  /** Every session is of an enabled user whose role and city scope are as they were when it was opened. */
  ghost predicate SessionsOk(sessions: map<Id, Session>, users: Users) {
    forall t :: t in sessions ==> Live(sessions[t], users)
  }

  ghost predicate BoundToKnown(identities: map<(Id, Id), Identity>, users: Users) {
    forall k :: k in identities ==> identities[k].user in users
  }

  /** A provider's subject is bound to one account, and an account to at most one subject of a provider. */
  ghost predicate OneSubject(identities: map<(Id, Id), Identity>) {
    forall j, k :: j in identities && k in identities && j.0 == k.0 && identities[j].user == identities[k].user ==>
             j == k
  }

  ghost predicate Inv(r: Rules, st: State) {
    && UsersOk(st.users, st.nextId) && EmailsUnique(r, st.users) && SessionsOk(st.sessions, st.users)
    && BoundToKnown(st.identities, st.users) && OneSubject(st.identities)
  }

  lemma AddUserKeeps(r: Rules, st: State, email: Id, password: Id, name: Id, role: Role, cities: seq<Id>)
    requires Lawful(r) && Inv(r, st) && ByEmail(r, st, email).None?
    ensures Inv(r, AddUser(r, st, email, password, name, role, cities))
  {
    hide OneSubject;
    assert r.norm(r.strip(email)) == r.norm(email);
  }

  /** Changing an account and ending its sessions; what changes may be anything but the address. */
  lemma SetUserKeeps(r: Rules, st: State, u: User)
    requires Inv(r, st) && u.id in st.users && u.email == st.users[u.id].email
    ensures Inv(r, DeleteSessionsOf(SetUser(st, u), u.id))
    ensures (u.disabled, u.role, u.cities) == (st.users[u.id].disabled, st.users[u.id].role, st.users[u.id].cities) ==>
              Inv(r, SetUser(st, u))
    ensures st.users[u.id].disabled ==> Inv(r, SetUser(st, u))
  {
    hide OneSubject, EmailsUnique;
    EmailsKept(r, st.users, u);
    KnownKept(st.identities, st.users, u);
    var next := SetUser(st, u);
    assert UsersOk(next.users, next.nextId);
    forall t | t in st.sessions && st.sessions[t].user != u.id ensures Live(st.sessions[t], next.users) {
      assert Live(st.sessions[t], st.users);
    }
    if st.users[u.id].disabled {
      forall t | t in st.sessions ensures st.sessions[t].user != u.id {
        assert Live(st.sessions[t], st.users);
      }
    }
    if u.disabled == st.users[u.id].disabled && u.role == st.users[u.id].role && u.cities == st.users[u.id].cities {
      forall t | t in st.sessions ensures Live(st.sessions[t], next.users) {
        assert Live(st.sessions[t], st.users);
      }
    }
  }

  lemma EmailsKept(r: Rules, users: Users, u: User)
    requires EmailsUnique(r, users) && u.id in users && u.email == users[u.id].email
    ensures EmailsUnique(r, users[u.id := u])
  {}

  lemma KnownKept(identities: map<(Id, Id), Identity>, users: Users, u: User)
    requires BoundToKnown(identities, users)
    ensures BoundToKnown(identities, users[u.id := u])
  {}

  lemma OpenSessionKeeps(r: Rules, st: State, user: nat, token: Id, expires: int)
    requires Inv(r, st) && user in st.users && !st.users[user].disabled
    ensures Inv(r, OpenSession(st, user, token, expires))
  {
    hide EmailsUnique;
  }

  lemma LinkKeeps(r: Rules, st: State, key: (Id, Id), i: Identity)
    requires Inv(r, st) && i.user in st.users
    requires key in st.identities ==> st.identities[key].user == i.user
    requires key !in st.identities ==> !LinkedElsewhere(st, i.user, key.0, key.1)
    ensures Inv(r, st.(identities := st.identities[key := i]))
  {
    hide EmailsUnique, SessionsOk;
    var next := st.identities[key := i];
    forall j, k | j in next && k in next && j.0 == k.0 && next[j].user == next[k].user ensures j == k {
      OneOther(st, key, i.user, j);
      OneOther(st, key, i.user, k);
    }
  }

  /** No other subject of the provider is bound to the user. */
  lemma OneOther(st: State, key: (Id, Id), user: nat, k: (Id, Id))
    requires OneSubject(st.identities)
    requires key in st.identities ==> st.identities[key].user == user
    requires key !in st.identities ==> !LinkedElsewhere(st, user, key.0, key.1)
    ensures k in st.identities && k.0 == key.0 && st.identities[k].user == user ==> k == key
  {
    assert k == (k.0, k.1) && key == (key.0, key.1);
  }

  lemma SignInKeeps(r: Rules, st: State, provider: Id, subject: Id, email: Id, name: Id, password: Id, token: Id,
                    expires: int)
    requires Lawful(r) && Inv(r, st)
    ensures Inv(r, SignInUser(r, st, provider, subject, email, name, password, token, expires).0)
  {
    hide Inv, ByEmail, LinkedElsewhere;
    var (found, id) := FindOrProvision(r, st, email, name, password);
    FindKeeps(r, st, email, name, password);
    if id.Some? && id.value in found.users && !found.users[id.value].disabled {
      var key := (provider, subject);
      if key in found.identities && found.identities[key].user != id.value {
      } else if key !in found.identities && LinkedElsewhere(found, id.value, provider, subject) {
      } else {
        LinkKeeps(r, found, key, Identity(id.value, r.norm(email)));
        OpenSessionKeeps(r, found.(identities := found.identities[key := Identity(id.value, r.norm(email))]), id.value,
                         token, expires);
      }
    }
  }

  lemma FindKeeps(r: Rules, st: State, email: Id, name: Id, password: Id)
    requires Lawful(r) && Inv(r, st)
    ensures Inv(r, FindOrProvision(r, st, email, name, password).0)
  {
    hide Inv;
    if ByEmail(r, st, r.norm(email)).None? && r.provision.Some? && r.provision.value.allows(r.norm(email)) {
      AddUserKeeps(r, st, r.norm(email), password, name, r.provision.value.role, r.provision.value.cities);
    }
  }

  lemma UpdateKeeps(r: Rules, st: State, user: nat, p: Patch)
    requires Inv(r, st)
    ensures Inv(r, UpdateUser(st, user, p).0) && Inv(r, DisableUser(st, user).0)
  {
    hide Inv, LastOwner;
    InvUsers(r, st);
    if user in st.users {
      SetUserKeeps(r, st, Patched(st.users[user], p).(id := user));
      SetUserKeeps(r, st, st.users[user].(id := user, disabled := true));
    }
  }

  lemma InvUsers(r: Rules, st: State)
    requires Inv(r, st)
    ensures UsersOk(st.users, st.nextId)
  {}

  lemma LoginKeeps(r: Rules, st: State, email: Id, password: Id, token: Id, expires: int)
    requires Inv(r, st)
    ensures Inv(r, LoginUser(r, st, email, password, token, expires).0)
  {
    hide Inv, ByEmail;
    InvUsers(r, st);
    var id := ByEmail(r, st, r.norm(email));
    if id.Some? && r.verify(password, st.users[id.value].password) && !st.users[id.value].disabled {
      var digest := r.rehash(st.users[id.value].password);
      if digest.Some? {
        var u := st.users[id.value].(id := id.value, password := digest.value);
        SetUserKeeps(r, st, u);
        OpenSessionKeeps(r, SetUser(st, u), id.value, token, expires);
      } else {
        OpenSessionKeeps(r, st, id.value, token, expires);
      }
    }
  }

  lemma FewerSessions(r: Rules, st: State, sessions: map<Id, Session>)
    requires Inv(r, st) && forall t :: t in sessions ==> t in st.sessions && sessions[t] == st.sessions[t]
    ensures Inv(r, st.(sessions := sessions))
  {
    hide EmailsUnique, OneSubject, BoundToKnown;
  }

  lemma UnlinkKeeps(r: Rules, st: State, user: nat, provider: Id)
    requires Inv(r, st)
    ensures Inv(r, Unlink(st, user, provider))
  {
    hide EmailsUnique, SessionsOk;
  }

  lemma ShellKeeps(r: Rules, st: State, step: Step)
    requires Inv(r, st)
    requires step.ShellPassword? || step.ShellDisable? || step.ShellEnable? || step.ShellUnlink?
    ensures Inv(r, Apply(r, st, step).0)
  {
    hide Inv;
    InvUsers(r, st);
    var id := ShellUser(r, st, step.email);
    if id.Some? {
      var u := st.users[id.value];
      match step
      case ShellPassword(_, password) => SetUserKeeps(r, st, u.(id := id.value, password := password));
      case ShellDisable(_) => SetUserKeeps(r, st, u.(id := id.value, disabled := true));
      case ShellEnable(_) => SetUserKeeps(r, st, u.(id := id.value, disabled := false));
      case ShellUnlink(_, provider) => UnlinkKeeps(r, st, id.value, provider);
    }
  }

  lemma StepKeeps(r: Rules, st: State, step: Step)
    requires Lawful(r) && Inv(r, st)
    ensures Inv(r, Apply(r, st, step).0)
  {
    hide Inv, Lawful, ByEmail, AddUser, SignInUser, LoginUser, UpdateUser, DisableUser;
    match step
    case Bootstrap(email, password, name) =>
      if ByEmail(r, st, r.norm(email)).None? { AddUserKeeps(r, st, r.norm(email), password, name, Owner, []); }
    case Create(_, _, email, password, name, role, cities, _) =>
      if ByEmail(r, st, email).None? { AddUserKeeps(r, st, email, password, name, role, cities); }
    case Update(_, _, user, patch) => UpdateKeeps(r, st, user, patch);
    case Disable(_, _, user) => UpdateKeeps(r, st, user, Patch(None, None, None, true, None, None, true));
    case Login(email, password, token, expires) => LoginKeeps(r, st, email, password, token, expires);
    case SignIn(provider, subject, email, name, password, token, expires) =>
      SignInKeeps(r, st, provider, subject, email, name, password, token, expires);
    case Logout(token, _) => FewerSessions(r, st, st.sessions - {token});
    case DropExpired(now) => FewerSessions(r, st, Apply(r, st, step).0.sessions);
    case ShellCreate(email, password, name, role, cities) =>
      if ByEmail(r, st, r.norm(email)).None? { AddUserKeeps(r, st, r.norm(email), password, name, role, cities); }
    case ShellPassword(_, _) => ShellKeeps(r, st, step);
    case ShellDisable(_) => ShellKeeps(r, st, step);
    case ShellEnable(_) => ShellKeeps(r, st, step);
    case ShellUnlink(_, _) => ShellKeeps(r, st, step);
  }

  /** Addresses, sessions and identities stay in order over every run. */
  lemma {:induction false} RunKeeps(r: Rules, steps: seq<Step>, n: nat)
    requires Lawful(r) && n <= |steps|
    ensures Inv(r, Run(r, steps, n))
  {
    hide Inv, Apply, Lawful;
    if n > 0 {
      RunKeeps(r, steps, n - 1);
      StepKeeps(r, Run(r, steps, n - 1), steps[n - 1]);
    } else {
      EmptyKeeps(r);
    }
  }

  lemma EmptyKeeps(r: Rules)
    ensures Inv(r, EMPTY)
  {}

  // ---- owners ----

  ghost predicate HasOwner(st: State) {
    exists k :: EnabledOwner(st, k)
  }

  lemma OwnersAfterSet(st: State, u: User, k: nat)
    ensures EnabledOwner(SetUser(st, u), k) <==> if k == u.id then u.role.Owner? && !u.disabled else EnabledOwner(st, k)
    ensures EnabledOwner(DeleteSessionsOf(SetUser(st, u), u.id), k) <==> EnabledOwner(SetUser(st, u), k)
  {}

  lemma OwnersAfterAdd(r: Rules, st: State, email: Id, password: Id, name: Id, role: Role, cities: seq<Id>, k: nat)
    requires UsersOk(st.users, st.nextId)
    ensures EnabledOwner(AddUser(r, st, email, password, name, role, cities), k) <==>
            if k == st.nextId then role.Owner? else EnabledOwner(st, k)
  {}

  lemma UpdateOwners(st: State, user: nat, p: Patch, k: nat)
    requires UsersOk(st.users, st.nextId) && EnabledOwner(st, k)
    ensures HasOwner(UpdateUser(st, user, p).0) && HasOwner(DisableUser(st, user).0)
  {
    hide LastOwner, EndsSessions, DeleteSessionsOf, SetUser;
    if user in st.users {
      var o := OtherOwner(st, user, k);
      var a, b := Patched(st.users[user], p).(id := user), st.users[user].(id := user, disabled := true);
      OwnersAfterSet(st, a, k);
      OwnersAfterSet(st, a, o);
      OwnersAfterSet(st, b, o);
    }
  }

  /** An owner left if `user` goes, when it is not the last one. */
  lemma OtherOwner(st: State, user: nat, k: nat) returns (o: nat)
    requires EnabledOwner(st, k)
    ensures EnabledOwner(st, o) && (!LastOwner(st, user) ==> o != user)
  {
    if LastOwner(st, user) {
      o := k;
    } else if k != user {
      o := k;
    } else {
      o :| EnabledOwner(st, o) && o != user;
    }
  }

  /** The one step that takes the last enabled owner away is disabling it from the shell. */
  predicate IsShellDisable(r: Rules, st: State, step: Step, user: nat) {
    step.ShellDisable? && ShellUser(r, st, step.email) == Some(user)
  }

  lemma ShellOwners(r: Rules, st: State, step: Step, k: nat)
    requires Inv(r, st) && EnabledOwner(st, k)
    requires step.ShellPassword? || step.ShellDisable? || step.ShellEnable? || step.ShellUnlink?
    ensures HasOwner(Apply(r, st, step).0) <==> !exists u :: IsShellDisable(r, st, step, u) && LastOwner(st, u)
  {
    hide LastOwner, SetUser, DeleteSessionsOf, UsersOk, EmailsUnique, SessionsOk, OneSubject, BoundToKnown;
    var id := ShellUser(r, st, step.email);
    if id.Some? {
      var u := st.users[id.value];
      match step
      case ShellPassword(_, password) => OwnersAfterSet(st, u.(id := id.value, password := password), k);
      case ShellDisable(_) =>
        var gone := u.(id := id.value, disabled := true);
        assert IsShellDisable(r, st, step, id.value);
        var o := OtherOwner(st, id.value, k);
        OwnersAfterSet(st, gone, o);
        if LastOwner(st, id.value) {
          forall j ensures !EnabledOwner(DeleteSessionsOf(SetUser(st, gone), id.value), j) {
            OwnersAfterSet(st, gone, j);
            LastIsOnly(st, id.value, j);
          }
        }
      case ShellEnable(_) => OwnersAfterSet(st, u.(id := id.value, disabled := false), k);
      case ShellUnlink(_, provider) => assert EnabledOwner(Unlink(st, id.value, provider), k);
    } else {
      assert EnabledOwner(Apply(r, st, step).0, k);
    }
  }

  lemma LastIsOnly(st: State, user: nat, j: nat)
    requires LastOwner(st, user)
    ensures EnabledOwner(st, j) ==> j == user
  {}

  lemma SignInOwners(r: Rules, st: State, step: Step, k: nat)
    requires UsersOk(st.users, st.nextId) && (step.SignIn? || step.Login?)
    ensures EnabledOwner(st, k) ==> EnabledOwner(Apply(r, st, step).0, k)
    ensures (r.provision.Some? ==> r.provision.value.role != Owner) && EnabledOwner(Apply(r, st, step).0, k) ==>
              EnabledOwner(st, k)
  {
    hide ByEmail, LinkedElsewhere, AddUser, SetUser;
    match step
    case SignIn(_, _, email, name, password, _, _) =>
      if r.provision.Some? {
        OwnersAfterAdd(r, st, r.norm(email), password, name, r.provision.value.role, r.provision.value.cities, k);
      }
    case Login(email, _, _, _) =>
      var id := ByEmail(r, st, r.norm(email));
      if id.Some? {
        var digest := r.rehash(st.users[id.value].password);
        if digest.Some? {
          OwnersAfterSet(st, st.users[id.value].(id := id.value, password := digest.value), k);
        }
      }
  }

  /**
   Once there is an enabled owner there always is one, whatever is asked of the API: the only step that ends this is
   disabling the last owner from the shell.
   */
  lemma OwnerStays(r: Rules, st: State, step: Step)
    requires Inv(r, st) && HasOwner(st)
    ensures HasOwner(Apply(r, st, step).0) <==> !exists u :: IsShellDisable(r, st, step, u) && LastOwner(st, u)
  {
    hide Inv, ByEmail, AddUser, UpdateUser, DisableUser, SignInUser, LoginUser, LastOwner;
    InvUsers(r, st);
    var k :| EnabledOwner(st, k);
    match step
    case Bootstrap(email, password, name) => OwnersAfterAdd(r, st, r.norm(email), password, name, Owner, [], k);
    case Create(_, _, email, password, name, role, cities, _) =>
      OwnersAfterAdd(r, st, email, password, name, role, cities, k);
    case Update(_, _, user, patch) => UpdateOwners(st, user, patch, k);
    case Disable(_, _, user) => UpdateOwners(st, user, Patch(None, None, None, true, None, None, true), k);
    case Login(_, _, _, _) => SignInOwners(r, st, step, k);
    case SignIn(_, _, _, _, _, _, _) => SignInOwners(r, st, step, k);
    case Logout(_, _) => assert EnabledOwner(Apply(r, st, step).0, k);
    case DropExpired(_) => assert EnabledOwner(Apply(r, st, step).0, k);
    case ShellCreate(email, password, name, role, cities) =>
      OwnersAfterAdd(r, st, r.norm(email), password, name, role, cities, k);
    case ShellPassword(_, _) => ShellOwners(r, st, step, k);
    case ShellDisable(_) => ShellOwners(r, st, step, k);
    case ShellEnable(_) => ShellOwners(r, st, step, k);
    case ShellUnlink(_, _) => ShellOwners(r, st, step, k);
  }

  predicate FromShell(step: Step) {
    step.ShellCreate? || step.ShellPassword? || step.ShellDisable? || step.ShellEnable? || step.ShellUnlink?
  }

  /** Step `k` disables the last owner from the shell. */
  ghost predicate EndsOwners(r: Rules, steps: seq<Step>, k: nat)
    requires k < |steps|
  {
    exists u :: IsShellDisable(r, Run(r, steps, k), steps[k], u) && LastOwner(Run(r, steps, k), u)
  }

  /** From the first owner on, no run loses the last one but by a step that disables it from the shell. */
  lemma {:induction false} OwnerStaysOverRuns(r: Rules, steps: seq<Step>, i: nat, n: nat)
    requires Lawful(r) && i <= n <= |steps| && HasOwner(Run(r, steps, i))
    requires forall k :: i <= k < n ==> !EndsOwners(r, steps, k)
    ensures HasOwner(Run(r, steps, n))
  {
    hide Inv, Apply, Lawful, HasOwner, LastOwner, ByEmail;
    if i < n {
      OwnerStaysOverRuns(r, steps, i, n - 1);
      RunKeeps(r, steps, n - 1);
      OwnerStays(r, Run(r, steps, n - 1), steps[n - 1]);
      assert !EndsOwners(r, steps, n - 1);
    }
  }

  /** The seed makes an owner, and a shell command takes it away: there are accounts and no owner. */
  lemma ShellTakesLastOwner(r: Rules, email: Id, password: Id)
    requires Lawful(r) && r.validEmail(r.norm(email)) && r.norm(r.norm(email)) == r.norm(email)
    ensures var steps := [Bootstrap(email, password, Id("")), ShellDisable(email)];
            HasOwner(Run(r, steps, 1)) && Run(r, steps, 2).users != map[] && !HasOwner(Run(r, steps, 2))
  {
    hide ByEmail;
    var steps := [Bootstrap(email, password, Id("")), ShellDisable(email)];
    assert Run(r, steps, 0) == EMPTY && ByEmail(r, EMPTY, r.norm(email)).None?;
    var st := Run(r, steps, 1);
    assert st.users.Keys == {1} && r.norm(st.users[1].email) == r.norm(email);
    assert EnabledOwner(st, 1);
    assert ByEmailFrom(r, st, r.norm(email), 0) == Some(1);
    var last := Run(r, steps, 2);
    assert 1 in last.users && last.users[1].disabled;
  }

  /** A shell command that makes an owner of a new account, or enables one that was disabled. */
  predicate MakesOwner(r: Rules, st: State, step: Step) {
    match step
    case ShellCreate(email, _, _, role, _) =>
      r.validEmail(r.norm(email)) && role.Owner? && ByEmail(r, st, r.norm(email)).None?
    case ShellEnable(email) =>
      var id := ShellUser(r, st, email);
      id.Some? && st.users[id.value].role.Owner?
    case _ => false
  }

  lemma ShellMakesOwner(r: Rules, st: State, step: Step)
    requires UsersOk(st.users, st.nextId) && FromShell(step) && !HasOwner(st)
    ensures HasOwner(Apply(r, st, step).0) <==> MakesOwner(r, st, step)
  {
    hide ByEmail, AddUser, SetUser, DeleteSessionsOf;
    var next := Apply(r, st, step).0;
    if step.ShellCreate? {
      var added := AddUser(r, st, r.norm(step.email), step.password, step.name, step.role, step.cities);
      forall k ensures EnabledOwner(added, k) <==> k == st.nextId && step.role.Owner? {
        OwnersAfterAdd(r, st, r.norm(step.email), step.password, step.name, step.role, step.cities, k);
        assert !EnabledOwner(st, k);
      }
      assert HasOwner(added) <==> EnabledOwner(added, st.nextId);
    } else if step.ShellUnlink? {
      forall k ensures !EnabledOwner(next, k) { assert !EnabledOwner(st, k); }
    } else {
      var id := ShellUser(r, st, step.email);
      if id.Some? {
        var u := st.users[id.value];
        var u' := if step.ShellPassword? then u.(id := id.value, password := step.password)
                  else u.(id := id.value, disabled := step.ShellDisable?);
        forall k ensures EnabledOwner(next, k) <==> k == id.value && u'.role.Owner? && !u'.disabled {
          OwnersAfterSet(st, u', k);
          assert !EnabledOwner(st, k) && !EnabledOwner(st, id.value);
        }
        assert HasOwner(next) <==> EnabledOwner(next, id.value);
        assert !EnabledOwner(st, id.value);
      }
    }
  }

  /**
   Accounts without an enabled owner stay without one until the shell makes one: otherwise only an owner makes accounts,
   and the seed does nothing once there is any. A sign-in that provisions the first account of a deployment leaves it
   in this state.
   */
  lemma NoOwnerStays(r: Rules, st: State, step: Step)
    requires Inv(r, st) && st.users != map[] && !HasOwner(st)
    requires r.provision.Some? ==> r.provision.value.role != Owner
    ensures HasOwner(Apply(r, st, step).0) <==> MakesOwner(r, st, step)
    ensures Apply(r, st, step).0.users != map[]
  {
    hide Inv, ByEmail, AddUser, UpdateUser, DisableUser, SignInUser, LoginUser, ShellUser;
    InvUsers(r, st);
    UsersRemain(r, st, step);
    if FromShell(step) {
      ShellMakesOwner(r, st, step);
    } else if step.Create? || step.Update? || step.Disable? {
      NobodyIsOwner(st, step.me, step.now);
    } else if step.SignIn? || step.Login? {
      forall k ensures !EnabledOwner(Apply(r, st, step).0, k) {
        assert !EnabledOwner(st, k);
        SignInOwners(r, st, step, k);
      }
    } else {
      forall k ensures !EnabledOwner(Apply(r, st, step).0, k) {
        assert !EnabledOwner(st, k);
      }
    }
  }

  lemma NobodyIsOwner(st: State, me: Id, now: int)
    requires !HasOwner(st) && UsersOk(st.users, st.nextId)
    ensures RequireOwner(st, me, now) != Done
  {
    if me in st.sessions {
      assert !EnabledOwner(st, st.sessions[me].user);
    }
  }

  lemma UsersRemain(r: Rules, st: State, step: Step)
    requires st.users != map[]
    ensures Apply(r, st, step).0.users != map[]
  {
    hide ByEmail, LinkedElsewhere, LastOwner, Patched;
    var k :| k in st.users;
    assert k in Apply(r, st, step).0.users;
  }

  /** A first account from a provider sign-in: the seed that follows does nothing, and there is no owner. */
  lemma ProvisionedFirst(r: Rules, email: Id, seed: Id)
    requires r.provision.Some? && r.provision.value.role != Owner && r.provision.value.allows(r.norm(email))
    ensures var steps := [SignIn(Id("google"), Id("1"), email, Id(""), Id("x"), Id("t"), 9),
                          Bootstrap(seed, Id("p"), Id(""))];
            Run(r, steps, 2).users != map[] && !HasOwner(Run(r, steps, 2))
  {
    var first := SignIn(Id("google"), Id("1"), email, Id(""), Id("x"), Id("t"), 9);
    var steps := [first, Bootstrap(seed, Id("p"), Id(""))];
    assert Run(r, steps, 0) == EMPTY;
    assert ByEmail(r, EMPTY, r.norm(email)).None?;
    var st := Apply(r, EMPTY, first).0;
    assert 1 in st.users && st.users[1].role == r.provision.value.role;
    assert Run(r, steps, 1) == st;
  }

  // ---- sessions and identities ----

  /** A session that has not run out always answers for its user, with the role and scope it was opened with. */
  lemma SessionSpeaks(r: Rules, st: State, token: Id, now: int)
    requires Inv(r, st)
    ensures Principal(st, token, now).Some? <==> token in st.sessions && st.sessions[token].expires > now
    ensures Principal(st, token, now).Some? ==>
              var (p, s) := (Principal(st, token, now).value, st.sessions[token]);
              p.id == s.user && p.role == s.role && p.cities == s.cities && !p.disabled
  {
    hide EmailsUnique, OneSubject;
    if token in st.sessions {
      assert Live(st.sessions[token], st.users);
    }
  }

  /** No step but unlinking changes or drops the account a provider's subject is bound to. */
  lemma BindingStays(r: Rules, st: State, step: Step, key: (Id, Id))
    requires key in st.identities
    ensures !step.ShellUnlink? ==>
              key in Apply(r, st, step).0.identities &&
              Apply(r, st, step).0.identities[key].user == st.identities[key].user
    ensures step.ShellUnlink? ==>
              (key in Apply(r, st, step).0.identities <==>
                 !(ShellUser(r, st, step.email) == Some(st.identities[key].user) && key.0 == step.provider))
  {
    hide ByEmail, LastOwner, LinkedElsewhere;
  }

  lemma {:induction false} BindingStaysOverRuns(r: Rules, steps: seq<Step>, i: nat, n: nat, key: (Id, Id))
    requires i <= n <= |steps| && key in Run(r, steps, i).identities
    requires forall k :: i <= k < n ==> !steps[k].ShellUnlink?
    ensures key in Run(r, steps, n).identities
    ensures Run(r, steps, n).identities[key].user == Run(r, steps, i).identities[key].user
  {
    hide Apply;
    if i < n {
      BindingStaysOverRuns(r, steps, i, n - 1, key);
      BindingStays(r, Run(r, steps, n - 1), steps[n - 1], key);
    }
  }

  /** A sign-in with another subject than the bound one, or with a subject bound to someone else, is refused. */
  lemma MismatchRefused(r: Rules, st: State, step: Step, other: (Id, Id))
    requires step.SignIn? && ByEmail(r, st, r.norm(step.email)).Some?
    requires other in st.identities && other.0 == step.provider
    requires var user := ByEmail(r, st, r.norm(step.email)).value;
             if other.1 == step.subject then st.identities[other].user != user
             else st.identities[other].user == user && (step.provider, step.subject) !in st.identities
    ensures Apply(r, st, step) == (st, Forbidden)
  {
    hide ByEmail;
    assert other == (other.0, other.1);
  }
}
