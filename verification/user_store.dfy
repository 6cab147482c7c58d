/** The `users` table of `db_manager.py`, as a map from email (the UNIQUE
    column) to the row stored under it. `today` is a parameter standing in
    for `datetime.now()` formatted as a date. */
module UserStore {
  import opened Wrappers
  import opened Text

  /** One row of `users`. SQL NULL is `None`. */
  datatype UserRecord = UserRecord(
    id: nat,
    email: string,
    passwordHash: Option<string>,
    name: Option<string>,
    picture: Option<string>,
    dailyChecks: int,
    lastCheckDate: Option<string>)

  /** The table, with the next AUTOINCREMENT id. */
  datatype Store = Store(users: map<string, UserRecord>, nextId: nat)

  const DefaultAvatar :=
    "https://www.gravatar.com/avatar/00000000000000000000000000000000?d=mp&f=y"

  /** Rows are keyed by their own email, ids are below the next id and no
      two rows share an id. */
  ghost predicate Valid(s: Store) {
    && (forall e :: e in s.users ==> s.users[e].email == e && s.users[e].id < s.nextId)
    && (forall e1, e2 :: e1 in s.users && e2 in s.users && e1 != e2 ==>
          s.users[e1].id != s.users[e2].id)
  }

  /** Python truthiness of an optional string: present and non-empty. */
  predicate Truthy(o: Option<string>) {
    o.Some? && o.value != ""
  }

  /** Every row but the one under `email` is as it was, and no other key
      appears or disappears. */
  ghost predicate OthersUnchanged(s: Store, s': Store, email: string) {
    forall e :: e != email ==>
      (e in s'.users <==> e in s.users) && (e in s.users ==> s'.users[e] == s.users[e])
  }

  // ---------------------------------------------------------------- get_user_by_email

  /** `get_user_by_email`: the row stored under `email`, if any. */
  function GetUserByEmail(s: Store, email: string): (r: Option<UserRecord>)
    ensures r.Some? <==> email in s.users
    ensures r.Some? ==> r.value == s.users[email]
  {
    if email in s.users then Some(s.users[email]) else None
  }

  /** In a valid table, the row found for an email carries that email. */
  lemma GetUserByEmailMatches(s: Store, email: string)
    requires Valid(s)
    requires GetUserByEmail(s, email).Some?
    ensures GetUserByEmail(s, email).value.email == email
  {
  }

  // ---------------------------------------------------------------- sync_user_data

  datatype Synced = Synced(store: Store, user: UserRecord)

  /** `sync_user_data`: insert a missing user, reset the counter on a new
      day, and fill in a missing name or picture. */
  function Sync(s: Store, email: string, name: Option<string>, picture: Option<string>,
                today: string): (r: Synced)
    ensures email in r.store.users && r.store.users[email] == r.user
    ensures OthersUnchanged(s, r.store, email)
    ensures r.user.email == email || email in s.users
    ensures r.user.lastCheckDate == Some(today)
    ensures email !in s.users ==>
      && r.user.id == s.nextId && r.store.nextId == s.nextId + 1
      && r.user.email == email && r.user.passwordHash == None
      && r.user.name == name && r.user.picture == picture && r.user.dailyChecks == 0
    ensures email in s.users ==>
      var prior := s.users[email];
      && r.store.nextId == s.nextId
      && r.user.id == prior.id && r.user.email == prior.email
      && r.user.passwordHash == prior.passwordHash
      && (prior.lastCheckDate == Some(today) ==> r.user.dailyChecks == prior.dailyChecks)
      && (prior.lastCheckDate != Some(today) ==> r.user.dailyChecks == 0)
      && r.user.name == (if Truthy(name) && !Truthy(prior.name) then name else prior.name)
      && r.user.picture == (if Truthy(picture) && !Truthy(prior.picture) then picture else prior.picture)
  {
    if email !in s.users then
      var row := UserRecord(s.nextId, email, None, name, picture, 0, Some(today));
      Synced(Store(s.users[email := row], s.nextId + 1), row)
    else
      var row := s.users[email];
      var newDay := row.lastCheckDate != Some(today);
      var user := if newDay then row.(dailyChecks := 0, lastCheckDate := Some(today)) else row;
      var fillName := Truthy(name) && !Truthy(user.name);
      var user := if fillName then user.(name := name) else user;
      var fillPicture := Truthy(picture) && !Truthy(user.picture);
      var user := if fillPicture then user.(picture := picture) else user;
      var needsUpdate := newDay || fillName || fillPicture;
      if needsUpdate then Synced(s.(users := s.users[email := user]), user)
      else Synced(s, user)
  }

  /** A stored non-empty name or picture is never overwritten by a sync. */
  lemma SyncKeepsFilledProfile(s: Store, email: string, name: Option<string>,
                               picture: Option<string>, today: string)
    requires email in s.users
    ensures Truthy(s.users[email].name) ==>
      Sync(s, email, name, picture, today).user.name == s.users[email].name
    ensures Truthy(s.users[email].picture) ==>
      Sync(s, email, name, picture, today).user.picture == s.users[email].picture
  {
  }

  /** Syncing twice on the same day with the same arguments is syncing once. */
  lemma SyncIdempotent(s: Store, email: string, name: Option<string>,
                       picture: Option<string>, today: string)
    ensures var r1 := Sync(s, email, name, picture, today);
            var r2 := Sync(r1.store, email, name, picture, today);
            r2.store == r1.store && r2.user == r1.user
  {
  }

  lemma SyncPreservesValid(s: Store, email: string, name: Option<string>,
                           picture: Option<string>, today: string)
    requires Valid(s)
    ensures Valid(Sync(s, email, name, picture, today).store)
  {
  }

  // ---------------------------------------------------------------- create_user

  datatype Created = Created(ok: bool, store: Store)

  /** `create_user`: insert a password account; the UNIQUE email constraint
      turns a duplicate into `False` with nothing written. */
  function CreateUser(s: Store, email: string, passwordHash: string, name: Option<string>,
                      picture: Option<string>, today: string): (r: Created)
    ensures r.ok <==> email !in s.users
    ensures !r.ok ==> r.store == s
    ensures r.ok ==>
      && r.store.users.Keys == s.users.Keys + {email}
      && OthersUnchanged(s, r.store, email)
      && r.store.nextId == s.nextId + 1
      && var row := r.store.users[email];
         && row.id == s.nextId && row.email == email
         && row.passwordHash == Some(passwordHash)
         && row.name == Some(if Truthy(name) then name.value else LocalPart(email))
         && row.picture == Some(if Truthy(picture) then picture.value else DefaultAvatar)
         && row.dailyChecks == 0 && row.lastCheckDate == Some(today)
  {
    if email in s.users then Created(false, s)
    else
      var row := UserRecord(
        s.nextId, email, Some(passwordHash),
        Some(if Truthy(name) then name.value else LocalPart(email)),
        Some(if Truthy(picture) then picture.value else DefaultAvatar),
        0, Some(today));
      Created(true, Store(s.users[email := row], s.nextId + 1))
  }

  /** The default display name is the address's local part: it has no '@'
      and puts back the address when followed by the rest. */
  lemma DefaultNameIsLocalPart(s: Store, email: string, passwordHash: string, today: string)
    requires email !in s.users
    requires '@' in email
    ensures var name := CreateUser(s, email, passwordHash, None, None, today)
                          .store.users[email].name.value;
            '@' !in name && email == name + "@" + email[|name| + 1..]
  {
    LocalPartSplits(email);
  }

  lemma CreateUserPreservesValid(s: Store, email: string, passwordHash: string,
                                 name: Option<string>, picture: Option<string>, today: string)
    requires Valid(s)
    ensures Valid(CreateUser(s, email, passwordHash, name, picture, today).store)
  {
  }

  // ---------------------------------------------------------------- update_user_checks

  /** `update_user_checks`: set one user's counter; no row, no change. */
  function UpdateUserChecks(s: Store, email: string, count: int): (s': Store)
    ensures email !in s.users ==> s' == s
    ensures s'.users.Keys == s.users.Keys && s'.nextId == s.nextId
    ensures OthersUnchanged(s, s', email)
    ensures email in s.users ==>
      s'.users[email].dailyChecks == count
      && s'.users[email] == s.users[email].(dailyChecks := count)
  {
    if email in s.users then s.(users := s.users[email := s.users[email].(dailyChecks := count)])
    else s
  }

  /** Of two counter writes to the same user, the last one wins. */
  lemma UpdateUserChecksLastWins(s: Store, email: string, a: int, b: int)
    ensures UpdateUserChecks(UpdateUserChecks(s, email, a), email, b)
            == UpdateUserChecks(s, email, b)
  {
  }

  lemma UpdateUserChecksPreservesValid(s: Store, email: string, count: int)
    requires Valid(s)
    ensures Valid(UpdateUserChecks(s, email, count))
  {
  }
}
