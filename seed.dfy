/** The database seed: the administrator, the default user and a sample pack are
    created when absent and left as they are otherwise (every upsert has an empty
    update). The bcrypt hashes of the two passwords are parameters. */
module Seed {
  import opened Common
  import opened Tables
  import opened Database

  function AdminUser(hash: string): User {
    User("admin", "admin@tcgapp.local", hash, ADMIN, true)
  }

  function DefaultUser(hash: string): User {
    User("user001", "user001@tcgapp.local", hash, USER, true)
  }

  const SAMPLE_PACK: Pack :=
    Pack("LOB", "Legend of Blue Eyes White Dragon", "EN", Some("2002-03-08"), "BOOSTER", 126)

  predicate HasUsername(users: Table<User>, name: string) {
    exists id :: id in users.rows && users.rows[id].username == name
  }

  predicate HasEmail(users: Table<User>, email: string) {
    exists id :: id in users.rows && users.rows[id].email == email
  }

  predicate HasSetCode(packs: Table<Pack>, code: string) {
    exists id :: id in packs.rows && packs.rows[id].setCode == code
  }

  /** Every row of `a` is stored in `b` unchanged. */
  predicate Extends<T(==)>(a: Table<T>, b: Table<T>) {
    forall id :: id in a.rows ==> id in b.rows && b.rows[id] == a.rows[id]
  }

  lemma ExtendsKeepsUsername(a: Table<User>, b: Table<User>, name: string)
    requires Extends(a, b) && HasUsername(a, name)
    ensures HasUsername(b, name)
  {
    var id :| id in a.rows && a.rows[id].username == name;
    assert b.rows[id].username == name;
  }

  function NamedUser(name: string): User -> bool { (u: User) => u.username == name }

  function CodedPack(code: string): Pack -> bool { (p: Pack) => p.setCode == code }

  /** `user.upsert` keyed by username with an empty update: an existing user is
      kept as it is; otherwise `u` is created, which fails on the unique email
      when another user already has that email. */
  function UpsertUser(users: Table<User>, u: User): (r: Option<Table<User>>)
    requires WellFormed(users)
    ensures HasUsername(users, u.username) ==> r == Some(users)
    ensures !HasUsername(users, u.username) && !HasEmail(users, u.email) ==> r == Some(Insert(users, u))
    ensures r.None? <==> !HasUsername(users, u.username) && HasEmail(users, u.email)
    ensures r.Some? ==> WellFormed(r.value) && HasUsername(r.value, u.username)
    ensures r.Some? ==> Extends(users, r.value)
    ensures r.Some? ==> forall id :: id in r.value.rows && id !in users.rows ==>
      r.value.rows[id] == u && !HasUsername(users, u.username)
  {
    if First(users, NamedUser(u.username)).Some? then Some(users)
    else if HasEmail(users, u.email) then None
    else
      InsertWellFormed(users, u);
      assert Insert(users, u).rows[users.next] == u;
      Some(Insert(users, u))
  }

  /** `pack.upsert` keyed by set code with an empty update. */
  function UpsertPack(packs: Table<Pack>, p: Pack): (r: Table<Pack>)
    requires WellFormed(packs)
    ensures HasSetCode(packs, p.setCode) ==> r == packs
    ensures !HasSetCode(packs, p.setCode) ==> r == Insert(packs, p)
    ensures WellFormed(r) && HasSetCode(r, p.setCode)
    ensures Extends(packs, r)
    ensures forall id :: id in r.rows && id !in packs.rows ==> r.rows[id] == p && !HasSetCode(packs, p.setCode)
  {
    if First(packs, CodedPack(p.setCode)).Some? then packs
    else
      InsertWellFormed(packs, p);
      assert Insert(packs, p).rows[packs.next] == p;
      Insert(packs, p)
  }

  /** Where a run of the seed stopped: `ok` is false when an upsert failed (the
      script then exits, keeping what the earlier upserts stored). */
  datatype Run = Run(state: State, ok: bool)

  function SeedRun(s: State, adminHash: string, userHash: string): (r: Run)
    requires WellFormedState(s)
    ensures r.state == s.(users := r.state.users, packs := r.state.packs)
    ensures WellFormedState(r.state)
    ensures r.ok ==> HasUsername(r.state.users, "admin") && HasUsername(r.state.users, "user001")
                     && HasSetCode(r.state.packs, "LOB")
    ensures !r.ok ==> r.state.packs == s.packs
  {
    match UpsertUser(s.users, AdminUser(adminHash))
    case None => Run(s, false)
    case Some(withAdmin) =>
      match UpsertUser(withAdmin, DefaultUser(userHash))
      case None => Run(s.(users := withAdmin), false)
      case Some(withUser) =>
        ExtendsKeepsUsername(withAdmin, withUser, "admin");
        Run(s.(users := withUser, packs := UpsertPack(s.packs, SAMPLE_PACK)), true)
  }

  /** The script's `main`. */
  method RunSeed(db: Store, adminHash: string, userHash: string) returns (ok: bool)
    requires db.Valid()
    modifies db
    ensures Run(db.Snapshot(), ok) == SeedRun(old(db.Snapshot()), adminHash, userHash)
    ensures db.Valid()
  {
    SeedKeepsValid(db.Snapshot(), adminHash, userHash);
    var users := UpsertUser(db.users, AdminUser(adminHash));
    if users.None? {
      return false;
    }
    db.users := users.value;
    users := UpsertUser(db.users, DefaultUser(userHash));
    if users.None? {
      return false;
    }
    db.users := users.value;
    db.packs := UpsertPack(db.packs, SAMPLE_PACK);
    ok := true;
  }

  /** Seeding keeps the unique constraints and the card-to-pack reference. */
  lemma SeedKeepsValid(s: State, adminHash: string, userHash: string)
    requires ValidState(s)
    ensures ValidState(SeedRun(s, adminHash, userHash).state)
  {
    var withAdmin := UpsertUser(s.users, AdminUser(adminHash));
    if withAdmin.Some? {
      UpsertUserKeepsUnique(s.users, AdminUser(adminHash));
      UpsertUserKeepsUnique(withAdmin.value, DefaultUser(userHash));
      UpsertPackKeepsUnique(s.packs, SAMPLE_PACK);
    }
  }

  /** The user upsert keeps usernames and emails unique. */
  lemma UpsertUserKeepsUnique(users: Table<User>, u: User)
    requires WellFormed(users) && Unique(users, Username) && Unique(users, Email)
    ensures var r := UpsertUser(users, u); r.Some? ==> Unique(r.value, Username) && Unique(r.value, Email)
  {
  }

  /** The pack upsert keeps set codes unique. */
  lemma UpsertPackKeepsUnique(packs: Table<Pack>, p: Pack)
    requires WellFormed(packs) && Unique(packs, SetCode)
    ensures Unique(UpsertPack(packs, p), SetCode)
  {
  }

  /** Running the seed a second time, with any hashes, changes nothing and ends the
      same way as the first run. */
  lemma {:induction false} SeedIdempotent(s: State, adminHash: string, userHash: string, adminHash2: string, userHash2: string)
    requires WellFormedState(s)
    ensures SeedRun(SeedRun(s, adminHash, userHash).state, adminHash2, userHash2) == SeedRun(s, adminHash, userHash)
  {
    var r := SeedRun(s, adminHash, userHash);
    var withAdmin := UpsertUser(s.users, AdminUser(adminHash));
    if withAdmin.None? {
      assert !HasUsername(s.users, "admin") && HasEmail(s.users, "admin@tcgapp.local");
    } else {
      var withUser := UpsertUser(withAdmin.value, DefaultUser(userHash));
      assert HasUsername(withAdmin.value, "admin");
      if withUser.None? {
        assert !HasUsername(withAdmin.value, "user001") && HasEmail(withAdmin.value, "user001@tcgapp.local");
      }
    }
  }

  /** Rows already stored are never changed by the seed, and the only rows it adds
      are the administrator, the default user and the sample pack, each added only
      when no row had its key. */
  lemma SeedLeavesExisting(s: State, adminHash: string, userHash: string)
    requires WellFormedState(s)
    ensures var r := SeedRun(s, adminHash, userHash).state;
      Extends(s.users, r.users) && Extends(s.packs, r.packs)
      && (forall id :: id in r.users.rows && id !in s.users.rows ==>
            (r.users.rows[id] == AdminUser(adminHash) && !HasUsername(s.users, "admin"))
            || (r.users.rows[id] == DefaultUser(userHash) && !HasUsername(s.users, "user001")))
      && (forall id :: id in r.packs.rows && id !in s.packs.rows ==>
            r.packs.rows[id] == SAMPLE_PACK && !HasSetCode(s.packs, "LOB"))
  {
    var withAdmin := UpsertUser(s.users, AdminUser(adminHash));
    if withAdmin.Some? {
      var withUser := UpsertUser(withAdmin.value, DefaultUser(userHash));
      if withUser.Some? && HasUsername(s.users, "user001") {
        ExtendsKeepsUsername(s.users, withAdmin.value, "user001");
      }
    }
  }
}
