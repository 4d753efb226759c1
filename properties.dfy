/** Properties that relate several calls of `UserService`: what one operation leaves behind
    for the next, including the places where the cache and the store disagree. */
module Properties {
  import opened Base
  import opened Text
  import opened Credentials
  import opened UserModel
  import opened Tokens
  import opened Schemas
  import opened Repositories
  import opened ServiceSpec
  import opened Auth
  import opened RoleGuard

  /** A `login` that finds a record under the e-mail key of the form. A cache that reads it
      back as plain JSON makes the call throw, whatever the password, and nothing changes. A
      cache that revives it accepts or refuses on that record's password alone, and on
      success signs for the record as cached. */
  lemma LoginFromCache(s: State, f: LoginForm, a: Account, codec: Codec)
    requires LoginOk(f)
    requires EmailKey(f.email.value) in s.cache && s.cache[EmailKey(f.email.value)].value == Record(a)
    ensures codec == PlainJson ==> Login(s, f, codec) == Step(Fault(NotAFunction), s)
    ensures codec == Revived ==> (Login(s, f, codec).result.Ok? <==> ComparePassword(a, f.password.value))
    ensures codec == Revived && ComparePassword(a, f.password.value) ==>
      Login(s, f, codec) == Step(Ok(Session(Project(a), IssueToken(a))),
                                 State(s.store, s.cache[IdKey(a.id) := Entry(Profile(Project(a)), Ttl)]))
  {
  }

  /** A `login` whose record is cached under the form's e-mail key and whose projection is
      already under the id key changes nothing: it returns a session when the cache revives
      records, and throws when it reads them back as plain JSON. */
  lemma LoginChangesNothing(s: State, f: LoginForm, a: Account, codec: Codec)
    requires LoginOk(f) && ComparePassword(a, f.password.value)
    requires EmailKey(f.email.value) in s.cache && s.cache[EmailKey(f.email.value)].value == Record(a)
    requires IdKey(a.id) in s.cache && s.cache[IdKey(a.id)] == Entry(Profile(Project(a)), Ttl)
    ensures Login(s, f, codec) ==
      Step(if codec == Revived then Ok(Session(Project(a), IssueToken(a))) else Fault(NotAFunction), s)
  {
    LoginFromCache(s, f, a, codec);
    assert s.cache[IdKey(a.id) := Entry(Profile(Project(a)), Ttl)] == s.cache;
  }

  /** Logging in right after registering, with the same e-mail and password, leaves both
      repositories as `register` left them. `register` cached the record under the e-mail as
      typed, so the login is a cache hit: with a reviving cache it returns the session
      `register` returned, with a plain-JSON cache it throws. */
  lemma RegisterThenLogin(s: State, r: Registration, id: string, now: int, codec: Codec)
    requires StoreValid(s.store)
    requires Register(s, r, id, now).result.Ok?
    ensures var st := Register(s, r, id, now);
      Login(st.next, LoginForm(r.email, r.password), codec) ==
        Step(if codec == Revived then st.result else Fault(NotAFunction), st.next)
  {
    RegisterSuccess(s, r, id, now);
    var st := Register(s, r, id, now);
    var a := Account(id, Lower(r.email.value), Hash(r.password.value), ParseRole(r.role.value).value,
                     Trim(r.name.value), now);
    LoginChangesNothing(st.next, LoginForm(r.email, r.password), a, codec);
  }

  /** A successful `login` caches what it found under the form's e-mail key, so the same
      login again is a cache hit. With a reviving cache it gives the same session and changes
      nothing more; with a plain-JSON cache it throws. */
  lemma LoginAgain(s: State, f: LoginForm, codec: Codec)
    requires Valid(s) && LoginOk(f)
    requires Login(s, f, codec).result.Ok?
    ensures var st := Login(s, f, codec);
      Login(st.next, f, codec) ==
        Step(if codec == Revived then st.result else Fault(NotAFunction), st.next)
  {
    var e := f.email.value;
    var look := LookupByEmail(s, e);
    LoginSuccess(s, f, codec);
    LookupPreservesValid(s, e);
    var a := look.found.value.account;
    var st := Login(s, f, codec);
    assert st.next == State(look.next.store, look.next.cache[IdKey(a.id) := Entry(Profile(Project(a)), Ttl)]);
    assert EmailKey(e) in look.next.cache && look.next.cache[EmailKey(e)].value == Record(a);
    assert st.next.cache[EmailKey(e)] == look.next.cache[EmailKey(e)];
    LoginChangesNothing(st.next, f, a, codec);
  }

  /** Once an account is registered, registering again with any e-mail that normalizes to the
      same address is refused with 409, whether or not it is typed the same way (a different
      spelling misses the cache and is found in the store). */
  lemma RegisterTwiceConflicts(s: State, r: Registration, id: string, now: int,
                               r2: Registration, id2: string, now2: int)
    requires StoreValid(s.store)
    requires Register(s, r, id, now).result.Ok?
    requires RegistrationOk(r2) && Normalize(r2.email.value) == Normalize(r.email.value)
    ensures Register(Register(s, r, id, now).next, r2, id2, now2).result == Err(409, "User already exists")
  {
    RegisterSuccess(s, r, id, now);
    var st := Register(s, r, id, now);
    ValidEmailNormalizes(r.email.value);
    assert st.next.store[id].email == Normalize(r2.email.value);
    RegisterConflict(st.next, r2, id2, now2);
  }

  /** Right after `register`, `getUser` of the new id is a cache hit on the projection. */
  lemma RegisterThenGet(s: State, r: Registration, id: string, now: int)
    requires StoreValid(s.store)
    requires Register(s, r, id, now).result.Ok?
    ensures var st := Register(s, r, id, now);
      GetUser(st.next, id) == Step(Ok(Profile(st.result.value.user)), st.next)
  {
    RegisterSuccess(s, r, id, now);
  }

  /** Right after a successful `updateUser`, `getUser` of that id returns the updated
      projection from the cache. */
  lemma UpdateThenGet(s: State, id: string, p: Patch)
    requires StoreValid(s.store)
    requires UpdateUser(s, id, p).result.Ok?
    ensures var st := UpdateUser(s, id, p);
      GetUser(st.next, id) == Step(Ok(Profile(st.result.value)), st.next)
  {
    UpdateSuccess(s, id, p);
  }

  /** Two `getUser` calls for an id whose key is not cached answer differently: the first
      returns the full store record, password hash included, the second the projection it
      cached. */
  lemma GetUserMissThenHit(s: State, id: string)
    requires IdKey(id) !in s.cache && id in s.store
    ensures var st := GetUser(s, id);
      && st.result == Ok(Record(s.store[id]))
      && GetUser(st.next, id) == Step(Ok(Profile(Project(s.store[id]))), st.next)
  {
  }

  /** `updateUser` never deletes an e-mail key other than those of the stored and requested
      e-mails: the key of the account's previous e-mail keeps the record as it was, and a
      lookup through it still finds that stale record. */
  lemma StaleEmailKeyAfterUpdate(s: State, id: string, p: Patch, e: string)
    requires UpdateUser(s, id, p).result.Ok?
    requires EmailKey(e) in s.cache
    requires EmailKey(e) !in DroppedKeys(p)
    ensures var st := UpdateUser(s, id, p);
      && EmailKey(e) in st.next.cache
      && st.next.cache[EmailKey(e)] == s.cache[EmailKey(e)]
      && LookupByEmail(st.next, e) == Lookup(Some(s.cache[EmailKey(e)].value), true, st.next)
  {
    UpdateKeepsKey(s, id, p, EmailKey(e));
  }

  /** After an account's e-mail is changed, logging in with the previous e-mail still reads
      the stale record while its key is cached. With a reviving cache the password then
      logs in, and the session names the previous e-mail although the store holds the new
      one; with a plain-JSON cache the login throws instead of refusing with 401. */
  lemma LoginWithPreviousEmail(s: State, id: string, p: Patch, f: LoginForm, codec: Codec)
    requires StoreValid(s.store) && LoginOk(f) && p.email.Some?
    requires id in s.store && EmailKey(f.email.value) in s.cache
    requires s.cache[EmailKey(f.email.value)].value == Record(s.store[id])
    requires EmailKey(f.email.value) !in DroppedKeys(p)
    requires ComparePassword(s.store[id], f.password.value)
    requires UpdateUser(s, id, p).result.Ok?
    ensures id in UpdateUser(s, id, p).next.store
    ensures UpdateUser(s, id, p).next.store[id].email == Normalize(p.email.value)
    ensures Login(UpdateUser(s, id, p).next, f, codec).result ==
      if codec == Revived then Ok(Session(Project(s.store[id]), IssueToken(s.store[id]))) else Fault(NotAFunction)
  {
    StaleEmailKeyAfterUpdate(s, id, p, f.email.value);
    UpdateNext(s, id, p);
    LoginFromCache(UpdateUser(s, id, p).next, f, s.store[id], codec);
  }

  /** A role change does not reach a cached e-mail key. With a reviving cache, an Admin
      demoted to Candidate who logs in through a cached e-mail key gets a token that still
      says Admin, and that token still passes the guard of `PUT /:id`. With a plain-JSON
      cache that login throws, so no token is issued. */
  lemma DemotedAdminKeepsAccess(s: State, id: string, f: LoginForm, codec: Codec)
    requires StoreValid(s.store) && LoginOk(f)
    requires id in s.store && s.store[id].role == Admin
    requires EmailKey(f.email.value) in s.cache
    requires s.cache[EmailKey(f.email.value)].value == Record(s.store[id])
    requires ComparePassword(s.store[id], f.password.value)
    ensures var p := Patch(None, None, Some("Candidate"), []);
      var st := UpdateUser(s, id, p);
      var lg := Login(st.next, f, codec);
      && st.result.Ok? && st.next.store[id].role == Candidate
      && (codec == Revived ==> lg.result.Ok? && UpdateRoute(Some(BearerPrefix + lg.result.value.token)) == Next)
      && (codec == PlainJson ==> lg.result == Fault(NotAFunction))
  {
    var p := Patch(None, None, Some("Candidate"), []);
    var a := s.store[id];
    var ch := ValidatePatch(p).value;
    assert ApplyChanges(a, ch).email == a.email;
    assert EmailFree(s.store, a.email, id);
    UpdateSuccess(s, id, p);
    StaleEmailKeyAfterUpdate(s, id, p, f.email.value);
    var st := UpdateUser(s, id, p);
    LoginFromCache(st.next, f, a, codec);
    SignedTokenRoutes(Claims(a.id, a.role), TokenLifetime);
  }
}
