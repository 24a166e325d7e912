/**
 The in-memory account store, and the request handlers and shell commands that check and then update it. Each is
 proved to be the step of the state machine it is named after, refusals included, and to keep what the state
 machine keeps.
 */
module AccountsStore {
  import opened Util
  import opened Accounts

  class MemoryAdminUserStore {
    var users: map<nat, User>
    var sessions: map<Id, Session>
    var identities: map<(Id, Id), Identity>
    var nextId: nat

    constructor ()
      ensures View() == EMPTY
    {
      users, sessions, identities, nextId := map[], map[], map[], 1;
    }

    function View(): State
      reads this
    {
      State(users, sessions, identities, nextId)
    }

    method FindByEmail(r: Rules, email: Id) returns (id: Option<nat>)
      ensures id == ByEmail(r, View(), email)
    {
      var i := 0;
      while i < nextId
        invariant i <= nextId && ByEmailFrom(r, View(), email, i) == ByEmail(r, View(), email)
        decreases nextId - i
      {
        if i in users && r.norm(users[i].email) == r.norm(email) {
          return Some(i);
        }
        i := i + 1;
      }
      return None;
    }

    method InsertUser(r: Rules, email: Id, password: Id, name: Id, role: Role, cities: seq<Id>) returns (out: Outcome)
      modifies this
      ensures (View(), out) == CreateUser(r, old(View()), email, password, name, role, cities)
    {
      hide ByEmail;
      var taken := FindByEmail(r, email);
      if taken.Some? {
        return Conflict;
      }
      users := users[nextId := User(nextId, r.strip(email), name, role, cities, false, password)];
      nextId := nextId + 1;
      return Done;
    }

    method UpdateFields(id: nat, p: Patch)
      requires id in users
      modifies this`users
      ensures View() == SetUser(old(View()), Patched(old(users[id]), p).(id := id))
    {
      users := users[id := Patched(users[id], p).(id := id)];
    }

    method DropSessionsOf(user: nat)
      modifies this`sessions
      ensures View() == DeleteSessionsOf(old(View()), user)
    {
      var gone := set t | t in sessions && sessions[t].user == user;
      sessions := sessions - gone;
      assert sessions == DeleteSessionsOf(old(View()), user).sessions;
    }

    method CreateSession(user: nat, token: Id, expires: int)
      requires user in users
      modifies this`sessions
      ensures View() == Accounts.OpenSession(old(View()), user, token, expires)
    {
      sessions := sessions[token := Session(user, expires, users[user].role, users[user].cities)];
    }

    /** The ids of the enabled owners among the first `n`. */
    method EnabledOwners() returns (owners: seq<nat>)
      ensures owners == Owners(View(), nextId)
    {
      owners := [];
      for i := 0 to nextId
        invariant owners == Owners(View(), i)
      {
        if i in users && users[i].role.Owner? && !users[i].disabled {
          owners := owners + [i];
        }
      }
    }

    method IsLastOwner(id: nat) returns (last: bool)
      requires UsersOk(users, nextId)
      ensures last == LastOwner(View(), id)
    {
      var owners := EnabledOwners();
      last := owners == [id];
      OwnersAre(View(), nextId);
      LastOwnerListed(View(), id);
    }

    /** The subject of the provider bound to the user, searched over all identities. */
    method BoundElsewhere(user: nat, provider: Id, subject: Id) returns (found: bool)
      ensures found == LinkedElsewhere(View(), user, provider, subject)
    {
      found := false;
      var todo := identities.Keys;
      while todo != {}
        invariant todo <= identities.Keys
        invariant found ==> LinkedElsewhere(View(), user, provider, subject)
        invariant !found ==> forall k :: k in identities && k !in todo ==>
                               !(k.0 == provider && identities[k].user == user && k.1 != subject)
        decreases |todo|
      {
        var k :| k in todo;
        if k.0 == provider && identities[k].user == user && k.1 != subject {
          assert k == (provider, k.1);
          found := true;
        }
        todo := todo - {k};
      }
    }

    method LinkIdentity(provider: Id, subject: Id, user: nat, email: Id)
      modifies this`identities
      ensures View() == old(View()).(identities := old(identities)[(provider, subject) := Identity(user, email)])
    {
      identities := identities[(provider, subject) := Identity(user, email)];
    }

    method UnlinkIdentity(user: nat, provider: Id)
      modifies this`identities
      ensures View() == Unlink(old(View()), user, provider)
    {
      var gone := set k | k in identities && identities[k].user == user && k.0 == provider;
      identities := identities - gone;
      assert identities == Unlink(old(View()), user, provider).identities;
    }
  }

  function Owners(st: State, n: nat): (r: seq<nat>)
    ensures forall i :: 0 <= i < |r| ==> r[i] < n && EnabledOwner(st, r[i])
    ensures forall i, j :: 0 <= i < j < |r| ==> r[i] < r[j]
  {
    if n == 0 then [] else Owners(st, n - 1) + if EnabledOwner(st, n - 1) then [n - 1] else []
  }

  lemma {:induction false} OwnersAre(st: State, n: nat)
    ensures forall k: nat :: k < n && EnabledOwner(st, k) ==> k in Owners(st, n)
  {
    hide EnabledOwner;
    if n > 0 {
      OwnersAre(st, n - 1);
    }
  }

  lemma LastOwnerListed(st: State, id: nat)
    requires UsersOk(st.users, st.nextId) && forall k: nat :: k < st.nextId && EnabledOwner(st, k) ==>
               k in Owners(st, st.nextId)
    ensures Owners(st, st.nextId) == [id] <==> LastOwner(st, id)
  {
    var r := Owners(st, st.nextId);
    forall k: nat | EnabledOwner(st, k) ensures k in r { assert k < st.nextId; }
    if LastOwner(st, id) {
      assert id in r;
      forall i | 0 <= i < |r| ensures r[i] == id {
        assert EnabledOwner(st, r[i]);
      }
      FirstTwo(st, st.nextId);
      assert r == [id];
    }
    if r == [id] {
      assert EnabledOwner(st, r[0]);
      forall k: nat | EnabledOwner(st, k) ensures k == id { assert k in r; }
    }
  }

  lemma FirstTwo(st: State, n: nat)
    ensures |Owners(st, n)| > 1 ==> Owners(st, n)[0] < Owners(st, n)[1]
  {}

  /** What is required of every call below. */
  ghost predicate Ready(r: Rules, store: MemoryAdminUserStore)
    reads store
  {
    Lawful(r) && Inv(r, store.View())
  }

  // ---- sign in and out ----

  method BootstrapOwner(r: Rules, store: MemoryAdminUserStore, email: Id, password: Id, name: Id) returns (out: Outcome)
    requires Ready(r, store)
    modifies store
    ensures Ready(r, store) && (store.View(), out) == Apply(r, old(store.View()), Bootstrap(email, password, name))
  {
    hide Inv, Lawful, CreateUser;
    StepKeeps(r, store.View(), Bootstrap(email, password, name));
    if |store.users| > 0 {
      return Done;
    }
    if !r.validEmail(r.norm(email)) {
      return Invalid;
    }
    out := store.InsertUser(r, r.norm(email), password, name, Owner, []);
  }

  method SignInWithPassword(r: Rules, store: MemoryAdminUserStore, email: Id, password: Id, token: Id, expires: int)
    returns (out: Outcome)
    requires Ready(r, store)
    modifies store
    ensures Ready(r, store)
    ensures (store.View(), out) == Apply(r, old(store.View()), Login(email, password, token, expires))
  {
    hide Inv, Lawful, ByEmail;
    StepKeeps(r, store.View(), Login(email, password, token, expires));
    var id := store.FindByEmail(r, r.norm(email));
    if id.None? {
      return Unauthorized;
    }
    var user := store.users[id.value];
    if !r.verify(password, user.password) || user.disabled {
      return Unauthorized;
    }
    var digest := r.rehash(user.password);
    if digest.Some? {
      store.UpdateFields(id.value, Patch(None, None, None, true, None, digest, true));
    }
    store.CreateSession(id.value, token, expires);
    return Done;
  }

  method SignInWithIdentity(r: Rules, store: MemoryAdminUserStore, provider: Id, subject: Id, email: Id, name: Id,
                            password: Id, token: Id, expires: int)
    returns (out: Outcome)
    requires Ready(r, store)
    modifies store
    ensures Ready(r, store)
    ensures (store.View(), out)
         == Apply(r, old(store.View()), SignIn(provider, subject, email, name, password, token, expires))
  {
    hide Inv, Lawful, ByEmail, LinkedElsewhere;
    StepKeeps(r, store.View(), SignIn(provider, subject, email, name, password, token, expires));
    var id := store.FindByEmail(r, r.norm(email));
    if id.None? && r.provision.Some? && r.provision.value.allows(r.norm(email)) {
      id := Some(store.nextId);
      var p := r.provision.value;
      var _ := store.InsertUser(r, r.norm(email), password, name, p.role, p.cities);
    }
    if id.None? || id.value !in store.users || store.users[id.value].disabled {
      return Forbidden;
    }
    var key := (provider, subject);
    if key in store.identities && store.identities[key].user != id.value {
      return Forbidden;
    }
    if key !in store.identities {
      var elsewhere := store.BoundElsewhere(id.value, provider, subject);
      if elsewhere {
        return Forbidden;
      }
    }
    store.LinkIdentity(provider, subject, id.value, r.norm(email));
    store.CreateSession(id.value, token, expires);
    return Done;
  }

  method SignOut(r: Rules, store: MemoryAdminUserStore, token: Id, now: int) returns (out: Outcome)
    requires Ready(r, store)
    modifies store
    ensures Ready(r, store) && (store.View(), out) == Apply(r, old(store.View()), Logout(token, now))
  {
    hide Inv, Lawful;
    StepKeeps(r, store.View(), Logout(token, now));
    if Principal(store.View(), token, now).None? {
      return Unauthorized;
    }
    store.sessions := store.sessions - {token};
    return Done;
  }

  method DropExpiredSessions(r: Rules, store: MemoryAdminUserStore, now: int)
    requires Ready(r, store)
    modifies store
    ensures Ready(r, store) && store.View() == Apply(r, old(store.View()), DropExpired(now)).0
  {
    hide Inv, Lawful;
    StepKeeps(r, store.View(), DropExpired(now));
    store.sessions := map t | t in store.sessions && store.sessions[t].expires > now :: store.sessions[t];
  }

  // ---- accounts, owners only ----

  method CreateAccount(r: Rules, store: MemoryAdminUserStore, me: Id, now: int, email: Id, password: Id, name: Id,
                       role: Role, cities: seq<Id>, accepted: bool)
    returns (out: Outcome)
    requires Ready(r, store)
    modifies store
    ensures Ready(r, store)
    ensures (store.View(), out)
         == Apply(r, old(store.View()), Create(me, now, email, password, name, role, cities, accepted))
  {
    hide Inv, Lawful, CreateUser;
    StepKeeps(r, store.View(), Create(me, now, email, password, name, role, cities, accepted));
    out := RequireOwner(store.View(), me, now);
    if out != Done {
      return;
    }
    if !accepted || !r.validEmail(r.norm(email)) {
      return Invalid;
    }
    out := store.InsertUser(r, email, password, name, role, cities);
  }

  method UpdateAccount(r: Rules, store: MemoryAdminUserStore, me: Id, now: int, user: nat, patch: Patch)
    returns (out: Outcome)
    requires Ready(r, store)
    modifies store
    ensures Ready(r, store) && (store.View(), out) == Apply(r, old(store.View()), Update(me, now, user, patch))
  {
    hide Inv, Lawful, LastOwner, UsersOk;
    StepKeeps(r, store.View(), Update(me, now, user, patch));
    InvUsers(r, store.View());
    out := RequireOwner(store.View(), me, now);
    if out != Done {
      return;
    }
    if user !in store.users {
      return NotFound;
    }
    if patch.cities.Some? && !patch.citiesKnown {
      return Invalid;
    }
    if Demotes(patch) {
      var last := store.IsLastOwner(user);
      if last {
        return Conflict;
      }
    }
    if patch.password.Some? && !patch.passwordOk {
      return Invalid;
    }
    store.UpdateFields(user, patch);
    if EndsSessions(patch) {
      store.DropSessionsOf(user);
    }
    return Done;
  }

  method DisableAccount(r: Rules, store: MemoryAdminUserStore, me: Id, now: int, user: nat) returns (out: Outcome)
    requires Ready(r, store)
    modifies store
    ensures Ready(r, store) && (store.View(), out) == Apply(r, old(store.View()), Disable(me, now, user))
  {
    hide Inv, Lawful, LastOwner, UsersOk;
    StepKeeps(r, store.View(), Disable(me, now, user));
    InvUsers(r, store.View());
    out := RequireOwner(store.View(), me, now);
    if out != Done {
      return;
    }
    if user !in store.users {
      return NotFound;
    }
    var last := store.IsLastOwner(user);
    if last {
      return Conflict;
    }
    store.UpdateFields(user, Patch(None, None, None, true, Some(true), None, true));
    store.DropSessionsOf(user);
    return Done;
  }

  // ---- the shell script ----

  method RunShell(r: Rules, store: MemoryAdminUserStore, step: Step) returns (out: Outcome)
    requires Ready(r, store) && FromShell(step)
    modifies store
    ensures Ready(r, store) && (store.View(), out) == Apply(r, old(store.View()), step)
  {
    hide Inv, Lawful, ByEmail, CreateUser, Unlink, DeleteSessionsOf;
    StepKeeps(r, store.View(), step);
    if !r.validEmail(r.norm(step.email)) {
      return Invalid;
    }
    if step.ShellCreate? {
      out := store.InsertUser(r, r.norm(step.email), step.password, step.name, step.role, step.cities);
      return;
    }
    var id := store.FindByEmail(r, r.norm(step.email));
    if id.None? {
      return NotFound;
    }
    out := Done;
    if step.ShellUnlink? {
      store.UnlinkIdentity(id.value, step.provider);
    } else if step.ShellEnable? {
      store.UpdateFields(id.value, Patch(None, None, None, true, Some(false), None, true));
    } else if step.ShellDisable? {
      store.UpdateFields(id.value, Patch(None, None, None, true, Some(true), None, true));
      store.DropSessionsOf(id.value);
    } else {
      store.UpdateFields(id.value, Patch(None, None, None, true, None, Some(step.password), true));
      store.DropSessionsOf(id.value);
    }
  }
}
