/** The user accounts of the control store: the last active administrator, the username index and sessions. */
module Accounts {
  datatype Role = Admin | Member

  datatype User = User(username: string, role: Role, disabled: bool, password: string, mfa: bool, recovery: seq<string>)

  datatype Change = Change(role: Role, disabled: bool, password: string, resetMfa: bool)

  /** `sessions` and `tokens` map a hash to the user they belong to. */
  datatype Accounts = Accounts(users: map<string, User>, usernames: map<string, string>, sessions: map<string, string>,
                               tokens: map<string, string>)

  datatype Reply = Done | BootstrapCompleted | Conflict | NotFound | LastAdministrator | Unknown

  datatype Op =
    | Bootstrap(id: string, user: User)
    | Create(id: string, user: User)
    | Update(id: string, change: Change)
    | Delete(id: string)
    | SetMfa(id: string, enabled: bool, hashes: seq<string>)
    | ConsumeCode(id: string, hash: string)
    | OpenSession(hash: string, id: string)
    | IssueToken(hash: string, id: string)

  const NO_ACCOUNTS := Accounts(map[], map[], map[], map[])

  predicate ActiveAdmin(user: User) {
    user.role == Admin && !user.disabled
  }

  function ActiveAdmins(users: map<string, User>): set<string> {
    set id | id in users && ActiveAdmin(users[id])
  }

  function Without(owned: map<string, string>, owner: string): map<string, string> {
    map hash | hash in owned && owned[hash] != owner :: owned[hash]
  }

  function Changed(user: User, change: Change): User {
    var u := user.(role := change.role, disabled := change.disabled);
    var p := if change.password != "" then u.(password := change.password) else u;
    if change.resetMfa then p.(mfa := false, recovery := []) else p
  }

  function FirstIndex(hashes: seq<string>, hash: string): (i: nat)
    ensures i <= |hashes| && (i < |hashes| ==> hashes[i] == hash) && forall k :: 0 <= k < i ==> hashes[k] != hash
  {
    if hashes == [] || hashes[0] == hash then 0 else 1 + FirstIndex(hashes[1..], hash)
  }

  /** What each operation does, and what it answers. */
  function Step(s: Accounts, op: Op): (Accounts, Reply) {
    match op
    case Bootstrap(id, user) =>
      if s.users != map[] then (s, BootstrapCompleted)
      else (s.(users := s.users[id := user], usernames := s.usernames[user.username := id]), Done)
    case Create(id, user) =>
      if id in s.users || user.username in s.usernames then (s, Conflict)
      else (s.(users := s.users[id := user], usernames := s.usernames[user.username := id]), Done)
    case Update(id, change) =>
      if id !in s.users then (s, NotFound)
      else if ActiveAdmin(s.users[id]) && (change.role != Admin || change.disabled) && |ActiveAdmins(s.users)| <= 1 then (s, LastAdministrator)
      else (s.(users := s.users[id := Changed(s.users[id], change)], sessions := Without(s.sessions, id)), Done)
    case Delete(id) =>
      if id !in s.users then (s, NotFound)
      else if ActiveAdmin(s.users[id]) && |ActiveAdmins(s.users)| <= 1 then (s, LastAdministrator)
      else (Accounts(s.users - {id}, s.usernames - {s.users[id].username}, Without(s.sessions, id), Without(s.tokens, id)), Done)
    case SetMfa(id, enabled, hashes) =>
      if id !in s.users then (s, NotFound)
      else (s.(users := s.users[id := s.users[id].(mfa := enabled, recovery := hashes)]), Done)
    case ConsumeCode(id, hash) =>
      if id !in s.users then (s, NotFound)
      else
        var hashes := s.users[id].recovery;
        var i := FirstIndex(hashes, hash);
        if i == |hashes| then (s, Unknown)
        else (s.(users := s.users[id := s.users[id].(recovery := hashes[..i] + hashes[i + 1..])]), Done)
    case OpenSession(hash, id) => (s.(sessions := s.sessions[hash := id]), Done)
    case IssueToken(hash, id) => if hash in s.tokens then (s, Conflict) else (s.(tokens := s.tokens[hash := id]), Done)
  }

  // ---------- What every run keeps ----------

  /** The two indexes are inverse to each other. */
  ghost predicate Inverse(s: Accounts) {
    && (forall id :: id in s.users ==> s.users[id].username in s.usernames && s.usernames[s.users[id].username] == id)
    && (forall name :: name in s.usernames ==> s.usernames[name] in s.users && s.users[s.usernames[name]].username == name)
  }

  /** Taking the last one away is refused, so an administrator who can sign in always remains. */
  lemma StepKeepsAnAdministrator(s: Accounts, op: Op)
    requires ActiveAdmins(s.users) != {}
    ensures ActiveAdmins(Step(s, op).0.users) != {}
  {
    var s' := Step(s, op).0;
    match op
    case Update(id, change) => OthersRemain(s.users, s'.users, id);
    case Delete(id) => OthersRemain(s.users, s'.users, id);
    case SetMfa(id, _, _) => SameAdmins(s.users, s'.users);
    case ConsumeCode(id, _) => SameAdmins(s.users, s'.users);
    case Bootstrap(_, _) =>
    case Create(id, user) => assert ActiveAdmins(s.users) <= ActiveAdmins(s'.users);
    case _ =>
  }

  lemma SameAdmins(users: map<string, User>, users': map<string, User>)
    requires users.Keys == users'.Keys && forall id :: id in users ==> ActiveAdmin(users[id]) == ActiveAdmin(users'[id])
    ensures ActiveAdmins(users) == ActiveAdmins(users')
  {
  }

  lemma OthersRemain(users: map<string, User>, users': map<string, User>, id: string)
    requires users.Keys - {id} <= users'.Keys && forall other :: other in users && other != id ==> users'[other] == users[other]
    requires ActiveAdmins(users) != {}
    requires id in ActiveAdmins(users) && |ActiveAdmins(users)| <= 1 ==> id in ActiveAdmins(users')
    ensures ActiveAdmins(users') != {}
  {
    var admins := ActiveAdmins(users);
    if id in admins && |admins| > 1 {
      assert |admins - {id}| == |admins| - 1;
      var other :| other in admins - {id};
      assert other in ActiveAdmins(users');
    } else {
      var some :| some in admins;
      assert some != id ==> some in ActiveAdmins(users');
    }
  }

  lemma StepKeepsInverse(s: Accounts, op: Op)
    requires Inverse(s)
    ensures Inverse(Step(s, op).0)
  {
    hide Inverse;
    match op
    case Bootstrap(_, _) => CreateKeepsInverse(s, op);
    case Create(_, _) => CreateKeepsInverse(s, op);
    case Delete(id) => DeleteKeepsInverse(s, id);
    case _ =>
      NamesStay(s, op);
      SameNames(s, Step(s, op).0);
  }

  lemma NamesStay(s: Accounts, op: Op)
    requires !op.Bootstrap? && !op.Create? && !op.Delete?
    ensures var s' := Step(s, op).0;
            && s'.usernames == s.usernames && s'.users.Keys == s.users.Keys
            && forall id :: id in s.users ==> s'.users[id].username == s.users[id].username
  {
    hide ActiveAdmins, Without, FirstIndex;
  }

  lemma SameNames(s: Accounts, s': Accounts)
    requires Inverse(s) && s'.usernames == s.usernames && s'.users.Keys == s.users.Keys
    requires forall id :: id in s.users ==> s'.users[id].username == s.users[id].username
    ensures Inverse(s')
  {
  }

  lemma CreateKeepsInverse(s: Accounts, op: Op)
    requires Inverse(s) && (op.Bootstrap? || op.Create?)
    ensures Inverse(Step(s, op).0)
  {
    hide ActiveAdmins, Without, Changed, FirstIndex;
  }

  lemma DeleteKeepsInverse(s: Accounts, id: string)
    requires Inverse(s)
    ensures Inverse(Step(s, Delete(id)).0)
  {
    hide ActiveAdmins, Without, Changed, FirstIndex;
  }

  lemma StepKeepsBoth(s: Accounts, s': Accounts)
    requires Steps(s, s')
    ensures Inverse(s) ==> Inverse(s')
    ensures ActiveAdmins(s.users) != {} ==> ActiveAdmins(s'.users) != {}
  {
    var op :| Step(s, op).0 == s';
    hide *;
    if Inverse(s) {
      StepKeepsInverse(s, op);
    }
    if ActiveAdmins(s.users) != {} {
      StepKeepsAnAdministrator(s, op);
    }
  }

  ghost predicate Steps(s: Accounts, s': Accounts) {
    exists op :: Step(s, op).0 == s'
  }

  ghost predicate IsRun(run: seq<Accounts>) {
    && run != [] && run[0] == NO_ACCOUNTS
    && forall i {:trigger run[i]} :: 0 <= i < |run| - 1 ==> Steps(run[i], run[i + 1])
  }

  /** From the moment there is an active administrator there is one forever; the indexes agree throughout. */
  lemma {:induction false} RunsKeepAdministrator(run: seq<Accounts>, i: nat, j: nat)
    requires IsRun(run) && i <= j < |run|
    ensures Inverse(run[j])
    ensures ActiveAdmins(run[i].users) != {} ==> ActiveAdmins(run[j].users) != {}
    decreases j
  {
    hide Step, ActiveAdmins;
    if j > 0 {
      RunsKeepAdministrator(run, if i < j then i else j - 1, j - 1);
      assert Steps(run[j - 1], run[j - 1 + 1]);
      StepKeepsBoth(run[j - 1], run[j]);
    }
  }

  /** Changing or deleting a user ends every one of their sessions, and nobody else's. */
  lemma SessionsEnd(s: Accounts, op: Op)
    requires (op.Update? || op.Delete?) && Step(s, op).1 == Done
    ensures forall hash :: hash in Step(s, op).0.sessions <==> hash in s.sessions && s.sessions[hash] != op.id
    ensures forall hash :: hash in Step(s, op).0.sessions ==> Step(s, op).0.sessions[hash] == s.sessions[hash]
  {
  }

  lemma TakenOut(hashes: seq<string>, hash: string)
    ensures var i := FirstIndex(hashes, hash);
            && (i < |hashes| <==> hash in hashes)
            && (i < |hashes| ==> multiset(hashes[..i] + hashes[i + 1..]) == multiset(hashes) - multiset{hash})
  {
    var i := FirstIndex(hashes, hash);
    hide FirstIndex;
    if i < |hashes| {
      var before, after := hashes[..i], hashes[i + 1..];
      assert hashes == before + [hash] + after;
      assert multiset(before + [hash] + after) == multiset(before) + multiset{hash} + multiset(after);
      assert multiset(before + after) == multiset(before) + multiset(after);
    }
  }

  lemma ConsumeStep(s: Accounts, id: string, hash: string)
    requires id in s.users
    ensures var codes := s.users[id].recovery; var i := FirstIndex(codes, hash); var after := Step(s, ConsumeCode(id, hash));
            && (after.1 == Done <==> i < |codes|)
            && (i < |codes| ==> id in after.0.users && after.0.users[id].recovery == codes[..i] + codes[i + 1..])
  {
    hide FirstIndex;
  }

  /** A recovery code works once per copy: using it takes exactly one copy away. */
  lemma CodeIsUsedUp(s: Accounts, id: string, hash: string)
    requires id in s.users
    ensures Step(s, ConsumeCode(id, hash)).1 == Done <==> hash in s.users[id].recovery
    ensures Step(s, ConsumeCode(id, hash)).1 == Done ==>
              multiset(Step(s, ConsumeCode(id, hash)).0.users[id].recovery) == multiset(s.users[id].recovery) - multiset{hash}
  {
    hide *;
    TakenOut(s.users[id].recovery, hash);
    ConsumeStep(s, id, hash);
  }

  // ---------- The operations, in the users' own fields ----------

  /** The only administrator who can still sign in. */
  ghost predicate OnlyAdministrator(users: map<string, User>, id: string) {
    && id in users && users[id].role == Admin && !users[id].disabled
    && forall other :: other in users && users[other].role == Admin && !users[other].disabled ==> other == id
  }

  lemma OnlyAdministratorIff(users: map<string, User>, id: string)
    requires id in users && ActiveAdmin(users[id])
    ensures OnlyAdministrator(users, id) <==> |ActiveAdmins(users)| <= 1
  {
    var admins := ActiveAdmins(users);
    assert id in admins;
    if |admins| <= 1 {
      forall other | other in users && users[other].role == Admin && !users[other].disabled
        ensures other == id
      {
        assert other in admins;
        SameOfOne(admins, other, id);
      }
    }
    if OnlyAdministrator(users, id) {
      assert admins == {id};
      assert |admins| == 1;
    }
  }

  lemma SameOfOne<T>(s: set<T>, a: T, b: T)
    requires a in s && b in s && |s| <= 1
    ensures a == b
  {
    assert |s - {a}| == |s| - 1;
    assert b in s - {a} ==> |s - {a}| > 0;
  }

  /** The answers, exactly: the last administrator can be neither demoted, nor disabled, nor deleted. */
  lemma RefusedIff(s: Accounts, id: string, change: Change)
    ensures Step(s, Update(id, change)).1 == NotFound <==> id !in s.users
    ensures Step(s, Update(id, change)).1 == LastAdministrator
            <==> OnlyAdministrator(s.users, id) && (change.role != Admin || change.disabled)
    ensures Step(s, Update(id, change)).1 in {Done, NotFound, LastAdministrator}
    ensures Step(s, Update(id, change)).1 != Done ==> Step(s, Update(id, change)).0 == s
    ensures Step(s, Delete(id)).1 == NotFound <==> id !in s.users
    ensures Step(s, Delete(id)).1 == LastAdministrator <==> OnlyAdministrator(s.users, id)
    ensures Step(s, Delete(id)).1 in {Done, NotFound, LastAdministrator}
    ensures Step(s, Delete(id)).1 != Done ==> Step(s, Delete(id)).0 == s
  {
    if id in s.users && ActiveAdmin(s.users[id]) {
      OnlyAdministratorIff(s.users, id);
    }
    hide ActiveAdmins, Changed, Without;
  }

  /**
   A changed user has the role and the state asked for and keeps the name. The password is the new
   one, or the old one if none was given; the second factor and the recovery codes go exactly on a
   reset. Nothing else changes but that the user's sessions end.
   */
  lemma UserIsChanged(s: Accounts, id: string, change: Change)
    requires Step(s, Update(id, change)).1 == Done
    ensures var s' := Step(s, Update(id, change)).0;
            && id in s.users && s'.users.Keys == s.users.Keys
            && (var user, user' := s.users[id], s'.users[id];
                && user'.username == user.username && user'.role == change.role && user'.disabled == change.disabled
                && user'.password == (if change.password == "" then user.password else change.password)
                && (change.resetMfa ==> !user'.mfa && user'.recovery == [])
                && (!change.resetMfa ==> user'.mfa == user.mfa && user'.recovery == user.recovery))
            && (forall other :: other in s.users && other != id ==> s'.users[other] == s.users[other])
            && s'.usernames == s.usernames && s'.tokens == s.tokens
  {
    hide ActiveAdmins, Without;
  }

  /** A deleted user takes the name, the sessions and the tokens created along; all others keep theirs. */
  lemma UserIsDeleted(s: Accounts, id: string)
    requires Inverse(s) && Step(s, Delete(id)).1 == Done
    ensures var s' := Step(s, Delete(id)).0;
            && id in s.users && s'.users.Keys == s.users.Keys - {id}
            && (forall other :: other in s'.users ==> s'.users[other] == s.users[other])
            && (forall name :: name in s'.usernames <==> name in s.usernames && s.usernames[name] != id)
            && (forall name :: name in s'.usernames ==> s'.usernames[name] == s.usernames[name])
            && (forall hash :: hash in s'.tokens <==> hash in s.tokens && s.tokens[hash] != id)
            && (forall hash :: hash in s'.tokens ==> s'.tokens[hash] == s.tokens[hash])
  {
    hide ActiveAdmins;
  }

  /** A user is created as given, the first one in an empty store only, any other if id and name are free. */
  lemma UserIsCreated(s: Accounts, op: Op)
    requires op.Bootstrap? || op.Create?
    ensures op.Bootstrap? ==> (Step(s, op).1 == Done <==> forall id :: id !in s.users)
    ensures op.Create? ==> (Step(s, op).1 == Done <==> op.id !in s.users && op.user.username !in s.usernames)
    ensures Step(s, op).1 != Done ==> Step(s, op) == (s, if op.Bootstrap? then BootstrapCompleted else Conflict)
    ensures Step(s, op).1 == Done ==>
              var s' := Step(s, op).0;
              && s'.users.Keys == s.users.Keys + {op.id} && s'.users[op.id] == op.user
              && (forall other :: other in s.users && other != op.id ==> s'.users[other] == s.users[other])
              && s'.usernames.Keys == s.usernames.Keys + {op.user.username} && s'.usernames[op.user.username] == op.id
              && (forall name :: name in s.usernames && name != op.user.username ==> s'.usernames[name] == s.usernames[name])
              && s'.sessions == s.sessions && s'.tokens == s.tokens
  {
    if s.users != map[] {
      var id :| id in s.users;
    }
  }

  /** Setting the second factor touches that user's second factor and codes and nothing else. */
  lemma SecondFactorIsSet(s: Accounts, id: string, enabled: bool, hashes: seq<string>)
    requires id in s.users
    ensures var (s', reply) := Step(s, SetMfa(id, enabled, hashes));
            && reply == Done && s'.users.Keys == s.users.Keys
            && (var user, user' := s.users[id], s'.users[id];
                && user'.mfa == enabled && user'.recovery == hashes && user'.username == user.username
                && user'.role == user.role && user'.disabled == user.disabled && user'.password == user.password)
            && (forall other :: other in s.users && other != id ==> s'.users[other] == s.users[other])
            && s'.usernames == s.usernames && s'.sessions == s.sessions && s'.tokens == s.tokens
  {
    hide ActiveAdmins, Without, Changed, FirstIndex;
  }

  /** The only way for a session to be there is that it was there before or was opened. */
  lemma SessionWasOpened(s: Accounts, op: Op, hash: string)
    requires hash in Step(s, op).0.sessions
    ensures (hash in s.sessions && s.sessions[hash] == Step(s, op).0.sessions[hash])
            || op == OpenSession(hash, Step(s, op).0.sessions[hash])
  {
    hide ActiveAdmins, ActiveAdmin, Changed, FirstIndex;
    match op
    case Update(id, _) =>
    case Delete(id) =>
    case _ => hide Without;
  }

  lemma SessionStep(s: Accounts, s': Accounts, hash: string)
    requires Steps(s, s') && hash in s'.sessions
    ensures (hash in s.sessions && s.sessions[hash] == s'.sessions[hash])
            || Step(s, OpenSession(hash, s'.sessions[hash])).0 == s'
  {
    var op :| Step(s, op).0 == s';
    hide *;
    SessionWasOpened(s, op, hash);
  }

  lemma RunStep(run: seq<Accounts>, k: nat)
    requires IsRun(run) && k < |run| - 1
    ensures Steps(run[k], run[k + 1])
  {
  }

  /** A session that is there was opened after its user was last changed or deleted. */
  lemma {:induction false} SessionIsNewerThanChange(run: seq<Accounts>, i: nat, op: Op, j: nat, hash: string) returns (k: nat)
    requires IsRun(run) && i < j < |run| && (op.Update? || op.Delete?) && Step(run[i], op) == (run[i + 1], Done)
    requires hash in run[j].sessions && run[j].sessions[hash] == op.id
    ensures i < k < j && Step(run[k], OpenSession(hash, op.id)).0 == run[k + 1]
    decreases j
  {
    hide *;
    SessionsEnd(run[i], op);
    k := j - 1;
    RunStep(run, k);
    SessionStep(run[k], run[j], hash);
    if hash in run[k].sessions && run[k].sessions[hash] == op.id {
      k := SessionIsNewerThanChange(run, i, op, j - 1, hash);
    }
  }

  // ---------- The methods ----------

  class Memory {
    var users: map<string, User>
    var usernames: map<string, string>
    var sessions: map<string, string>
    var tokens: map<string, string>

    ghost function State(): Accounts
      reads this
    {
      Accounts(users, usernames, sessions, tokens)
    }

    constructor ()
      ensures State() == NO_ACCOUNTS
    {
      users, usernames, sessions, tokens := map[], map[], map[], map[];
    }

    method CreateInitialUser(id: string, user: User) returns (reply: Reply)
      modifies this
      ensures (State(), reply) == Step(old(State()), Bootstrap(id, user))
    {
      if |users| != 0 {
        return BootstrapCompleted;
      }
      users, usernames := users[id := user], usernames[user.username := id];
      return Done;
    }

    method CreateUser(id: string, user: User) returns (reply: Reply)
      modifies this
      ensures (State(), reply) == Step(old(State()), Create(id, user))
    {
      if id in users || user.username in usernames {
        return Conflict;
      }
      users, usernames := users[id := user], usernames[user.username := id];
      return Done;
    }

    method CountAdministrators() returns (count: nat)
      ensures count == |ActiveAdmins(users)|
    {
      count := 0;
      var todo := users.Keys;
      ghost var counted: set<string> := {};
      while todo != {}
        invariant todo <= users.Keys && counted == (set id | id in users.Keys - todo && ActiveAdmin(users[id]))
        invariant count == |counted|
        decreases todo
      {
        var id :| id in todo;
        todo := todo - {id};
        if users[id].role == Admin && !users[id].disabled {
          count := count + 1;
          counted := counted + {id};
        }
      }
      assert counted == ActiveAdmins(users);
    }

    method UpdateUser(id: string, change: Change) returns (reply: Reply)
      modifies this
      ensures (State(), reply) == Step(old(State()), Update(id, change))
    {
      if id !in users {
        return NotFound;
      }
      var user := users[id];
      if user.role == Admin && !user.disabled && (change.role != Admin || change.disabled) {
        var administrators := CountAdministrators();
        if administrators <= 1 {
          return LastAdministrator;
        }
      }
      user := user.(role := change.role, disabled := change.disabled);
      if change.password != "" {
        user := user.(password := change.password);
      }
      if change.resetMfa {
        user := user.(mfa := false, recovery := []);
      }
      users := users[id := user];
      sessions := DeleteOwned(sessions, id);
      return Done;
    }

    method DeleteOwned(owned: map<string, string>, owner: string) returns (left: map<string, string>)
      ensures left == Without(owned, owner)
    {
      left := owned;
      var todo := owned.Keys;
      while todo != {}
        invariant todo <= owned.Keys && left.Keys <= owned.Keys
        invariant forall hash :: hash in left ==> left[hash] == owned[hash]
        invariant forall hash :: hash in owned ==> (hash in left <==> hash in todo || owned[hash] != owner)
        decreases todo
      {
        var hash :| hash in todo;
        todo := todo - {hash};
        if owned[hash] == owner {
          left := left - {hash};
        }
      }
    }

    method DeleteUser(id: string) returns (reply: Reply)
      modifies this
      ensures (State(), reply) == Step(old(State()), Delete(id))
    {
      if id !in users {
        return NotFound;
      }
      var user := users[id];
      if user.role == Admin && !user.disabled {
        var administrators := CountAdministrators();
        if administrators <= 1 {
          return LastAdministrator;
        }
      }
      users, usernames := users - {id}, usernames - {user.username};
      tokens := DeleteOwned(tokens, id);
      sessions := DeleteOwned(sessions, id);
      return Done;
    }

    method SetUserMFA(id: string, enabled: bool, hashes: seq<string>) returns (reply: Reply)
      modifies this
      ensures (State(), reply) == Step(old(State()), SetMfa(id, enabled, hashes))
    {
      if id !in users {
        return NotFound;
      }
      users := users[id := users[id].(mfa := enabled, recovery := hashes)];
      return Done;
    }

    method CreateSession(hash: string, id: string)
      modifies this
      ensures State() == Step(old(State()), OpenSession(hash, id)).0
    {
      sessions := sessions[hash := id];
    }

    method ConsumeRecoveryCode(id: string, hash: string) returns (reply: Reply)
      modifies this
      ensures (State(), reply) == Step(old(State()), ConsumeCode(id, hash))
    {
      if id !in users {
        return NotFound;
      }
      var hashes := users[id].recovery;
      for i := 0 to |hashes|
        invariant forall k :: 0 <= k < i ==> hashes[k] != hash
        invariant State() == old(State())
      {
        if hashes[i] == hash {
          users := users[id := users[id].(recovery := hashes[..i] + hashes[i + 1..])];
          return Done;
        }
      }
      return Unknown;
    }
  }
}
