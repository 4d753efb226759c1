/** The four operations of `UserService` (`server/src/services/userService.js`) as functions
    from the state of the two repositories to an outcome and the next state. Each call is one
    sequential step; the class `Service.UserService` performs the same steps one repository
    call at a time and is proved equal to these functions. */
module ServiceSpec {
  import opened Base
  import opened Text
  import opened Credentials
  import opened UserModel
  import opened Tokens
  import opened Schemas
  import opened Repositories

  datatype State = State(store: Store, cache: Cache)

  /** What `register` and `login` return: `{user, token}`. */
  datatype Session = Session(user: View, token: string)

  datatype Step<T> = Step(result: Outcome<T>, next: State)

  /** The `expiresIn` the service signs with. */
  const TokenLifetime: string := "1h"

  /** `jwt.sign({id, role}, secret, {expiresIn: '1h'})` for an account. */
  function IssueToken(a: Account): string {
    Sign(Claims(a.id, a.role), TokenLifetime)
  }

  /** Which keys hold which shapes: an id key holds the projection of the account with that
      id, never a full record; an e-mail key holds a full, schema-conforming record whose
      e-mail is the key's e-mail normalized. */
  ghost predicate CacheValid(c: Cache) {
    forall k :: k in c ==> Fits(k, c[k])
  }

  /** The shape the entry under `k` must have. */
  ghost predicate Fits(k: Key, e: Entry) {
    match k
    case IdKey(id) => e.value.Profile? && e.value.view.id == id
    case EmailKey(email) =>
      && e.value.Record?
      && Conforms(e.value.account)
      && e.value.account.email == Normalize(email)
  }

  ghost predicate Valid(s: State) {
    StoreValid(s.store) && CacheValid(s.cache)
  }

  lemma CacheSetId(c: Cache, a: Account)
    requires CacheValid(c)
    ensures CacheValid(c[IdKey(a.id) := Entry(Profile(Project(a)), Ttl)])
  {
  }

  lemma CacheSetEmail(c: Cache, email: string, a: Account)
    requires CacheValid(c)
    requires Conforms(a) && a.email == Normalize(email)
    ensures CacheValid(c[EmailKey(email) := Entry(Record(a), Ttl)])
  {
    var c' := c[EmailKey(email) := Entry(Record(a), Ttl)];
    forall k | k in c'
      ensures Fits(k, c'[k])
    {
      if k != EmailKey(email) {
        assert c'[k] == c[k];
      }
    }
  }

  lemma CacheDrop(c: Cache, k: Key)
    requires CacheValid(c)
    ensures CacheValid(c - {k})
  {
  }

  /** What the cache-aside read found, whether it came from the cache (`hit`), and the
      state it leaves. */
  datatype Lookup = Lookup(found: Option<UserValue>, hit: bool, next: State)

  /** The cache-aside read by e-mail that `register` and `login` share: the key is built
      from the e-mail exactly as given; on a miss the store is asked, and a record it finds
      is cached under that key. */
  ghost function LookupByEmail(s: State, email: string): Lookup {
    var key := EmailKey(email);
    if key in s.cache then Lookup(Some(s.cache[key].value), true, s)
    else
      match FindByEmail(s.store, email)
      case None => Lookup(None, false, s)
      case Some(a) => Lookup(Some(Record(a)), false, State(s.store, s.cache[key := Entry(Record(a), Ttl)]))
  }

  /** The second half of `register`, once the e-mail is known to be new: create the record,
      cache its projection under the id key and the record under the key of the e-mail as
      typed, and sign a token. */
  ghost function Enroll(s: State, data: NewUser, id: string, now: int): Step<Session> {
    match CreateRecord(s.store, data, id, now)
    case Ok(a) =>
      var cache := s.cache[IdKey(a.id) := Entry(Profile(Project(a)), Ttl)]
                          [EmailKey(data.email) := Entry(Record(a), Ttl)];
      Step(Ok(Session(Project(a), IssueToken(a))), State(s.store[id := a], cache))
    case Err(status, m) => Step(Err(status, m), s)
    case Fault(reason) => Step(Fault(reason), s)
  }

  /** The lookup writes at most the one e-mail key it reads, and never the store. */
  lemma LookupTouchesOnlyItsKey(s: State, email: string, k: Key)
    requires k != EmailKey(email)
    ensures LookupByEmail(s, email).next.store == s.store
    ensures k in LookupByEmail(s, email).next.cache <==> k in s.cache
    ensures k in s.cache ==> LookupByEmail(s, email).next.cache[k] == s.cache[k]
  {
  }

  /** `register(userData)`; `id` and `now` are what the store assigns to a new record. */
  ghost function Register(s: State, input: Registration, id: string, now: int): Step<Session> {
    match ValidateRegistration(input)
    case Rejected(m) => Step(Err(400, m), s)
    case Accepted(data) =>
      var look := LookupByEmail(s, data.email);
      if look.found.Some? then Step(Err(409, "User already exists"), look.next)
      else Enroll(s, data, id, now)
  }

  /** The `TypeError` that `user.comparePassword(password)` throws on a value without the
      method. */
  const NotAFunction: string := "user.comparePassword is not a function"

  /** Whether what the lookup found has `comparePassword`: a record the store returned does;
      a record read back from the cache does only if the cache revives it; a projection
      never does. */
  predicate HasComparePassword(look: Lookup, codec: Codec)
    requires look.found.Some?
  {
    look.found.value.Record? && (!look.hit || codec == Revived)
  }

  /** The second half of `login`, given what the lookup found: 401 when nothing was found or
      the password does not match; otherwise the id key is refreshed and a token signed. A
      found value without `comparePassword` makes the call throw, which surfaces as a fault. */
  ghost function CheckCredentials(look: Lookup, password: string, codec: Codec): Step<Session> {
    match look.found
    case None => Step(Err(401, "Invalid credentials"), look.next)
    case Some(v) =>
      if !HasComparePassword(look, codec) then Step(Fault(NotAFunction), look.next)
      else if !ComparePassword(v.account, password) then Step(Err(401, "Invalid credentials"), look.next)
      else
        var a := v.account;
        var cache := look.next.cache[IdKey(a.id) := Entry(Profile(Project(a)), Ttl)];
        Step(Ok(Session(Project(a), IssueToken(a))), State(look.next.store, cache))
  }

  /** `login({email, password})`, with the cache reading records back as `codec` says. */
  ghost function Login(s: State, form: LoginForm, codec: Codec): Step<Session> {
    match ValidateLogin(form)
    case Rejected(m) => Step(Err(400, m), s)
    case Accepted(l) => CheckCredentials(LookupByEmail(s, l.email), l.password, codec)
  }

  /** `getUser(id)`: the cached value as it is on a hit; on a miss the store record itself,
      after caching its projection. */
  ghost function GetUser(s: State, id: string): Step<UserValue> {
    var key := IdKey(id);
    if key in s.cache then Step(Ok(s.cache[key].value), s)
    else
      match FindById(s.store, id)
      case None => Step(Err(404, "User not found"), s)
      case Some(a) =>
        Step(Ok(Record(a)), State(s.store, s.cache[key := Entry(Profile(Project(a)), Ttl)]))
  }

  /** The e-mail invalidation of `updateUser`: the key of the stored (normalized) e-mail,
      then the key of the requested e-mail when the two strings differ. */
  function DropEmailKeys(c: Cache, stored: string, requested: string): Cache {
    var c1 := c - {EmailKey(stored)};
    if requested != stored then c1 - {EmailKey(requested)} else c1
  }

  /** `updateUser(id, userData)`. */
  ghost function UpdateUser(s: State, id: string, patch: Patch): Step<View> {
    match ValidatePatch(patch)
    case Rejected(m) => Step(Err(400, m), s)
    case Accepted(ch) =>
      match UpdateRecord(s.store, id, ch)
      case Ok(None) => Step(Err(404, "User not found"), s)
      case Ok(Some(a)) =>
        var cache := s.cache[IdKey(id) := Entry(Profile(Project(a)), Ttl)];
        var cache' := if patch.email.Some? then DropEmailKeys(cache, a.email, patch.email.value) else cache;
        Step(Ok(Project(a)), State(s.store[id := a], cache'))
      case Err(status, m) => Step(Err(status, m), s)
      case Fault(reason) => Step(Fault(reason), s)
  }

  // ---------------------------------------------------------------------------------------
  // Properties of one call

  /** Schema-invalid input is refused with 400 and Joi's message, before either repository
      is read or written. */
  lemma ValidationComesFirst(s: State, r: Registration, f: LoginForm, p: Patch, id: string, now: int, target: string,
                             codec: Codec)
    ensures !RegistrationOk(r) ==> Register(s, r, id, now) == Step(Err(400, ValidateRegistration(r).message), s)
    ensures !LoginOk(f) ==> Login(s, f, codec) == Step(Err(400, ValidateLogin(f).message), s)
    ensures !PatchOk(p) ==> UpdateUser(s, target, p) == Step(Err(400, ValidatePatch(p).message), s)
  {
  }

  /** `register` answers 409 exactly when the e-mail key is cached or the store has a record
      with the normalized e-mail; it then creates nothing, and a store hit is first cached
      under the e-mail key. */
  lemma RegisterConflict(s: State, r: Registration, id: string, now: int)
    requires RegistrationOk(r)
    ensures var e := r.email.value;
      var st := Register(s, r, id, now);
      var seen := EmailKey(e) in s.cache || FindByEmail(s.store, e).Some?;
      && (st.result == Err(409, "User already exists") <==> seen)
      && (seen ==> st.next.store == s.store)
      && (EmailKey(e) in s.cache ==> st.next.cache == s.cache)
      && (EmailKey(e) !in s.cache && seen ==>
            st.next.cache == s.cache[EmailKey(e) := Entry(Record(FindByEmail(s.store, e).value), Ttl)])
  {
    var data := ValidateRegistration(r).value;
    var look := LookupByEmail(s, data.email);
    var seen := EmailKey(data.email) in s.cache || FindByEmail(s.store, data.email).Some?;
    assert look.found.Some? <==> seen;
    assert CreateRecord(s.store, data, id, now).Err? == false;
    if seen {
      assert Register(s, r, id, now) == Step(Err(409, "User already exists"), look.next);
    } else {
      assert Register(s, r, id, now) == Enroll(s, data, id, now);
    }
  }

  /** A successful `register` adds exactly one record, under the new id, with the e-mail
      lower-cased, the name trimmed and the password hashed; it caches the projection under
      the id key and the full record under the key of the e-mail as typed, both with TTL 3600;
      and it returns the projection with a token over `{id, role}` valid for 1h. It succeeds
      exactly when the input is valid, neither the cache nor the store knows the e-mail, the
      id is free and the trimmed name is not empty. */
  lemma RegisterSuccess(s: State, r: Registration, id: string, now: int)
    requires StoreValid(s.store)
    ensures Register(s, r, id, now).result.Ok? <==>
      && RegistrationOk(r)
      && EmailKey(r.email.value) !in s.cache && FindByEmail(s.store, r.email.value).None?
      && id !in s.store && Trim(r.name.value) != []
    ensures Register(s, r, id, now).result.Ok? ==>
      var st := Register(s, r, id, now);
      var e := r.email.value;
      var a := Account(id, Lower(e), Hash(r.password.value), ParseRole(r.role.value).value, Trim(r.name.value), now);
      && id !in s.store
      && st.next.store == s.store[id := a]
      && |st.next.store| == |s.store| + 1
      && st.next.cache == s.cache[IdKey(id) := Entry(Profile(View(id, Lower(e), a.role, a.name)), Ttl)]
                                 [EmailKey(e) := Entry(Record(a), Ttl)]
      && st.result.value == Session(View(id, Lower(e), a.role, a.name), Sign(Claims(id, a.role), "1h"))
      && (forall p :: ComparePassword(a, p) <==> p == r.password.value)
  {
    if RegistrationOk(r) {
      var data := ValidateRegistration(r).value;
      var e := data.email;
      ValidEmailNormalizes(e);
      CreateRecordSpec(s.store, data, id, now);
    }
  }

  /** How `login` refuses. A hit on the e-mail key of a cache that reads records back as plain
      JSON throws, as `comparePassword` is missing. Otherwise the two refusals are
      indistinguishable: an unknown e-mail and a wrong password both give 401 "Invalid
      credentials". No refusal changes the store or any id key. */
  lemma LoginRefusals(s: State, f: LoginForm, codec: Codec)
    requires Valid(s) && LoginOk(f)
    ensures var st := Login(s, f, codec);
      var found := LookupByEmail(s, f.email.value).found;
      var plain := codec == PlainJson && EmailKey(f.email.value) in s.cache;
      && (found.Some? ==> found.value.Record?)
      && (st.result.Ok? || st.result == Err(401, "Invalid credentials") || st.result == Fault(NotAFunction))
      && (st.result == Fault(NotAFunction) <==> plain)
      && (st.result == Err(401, "Invalid credentials") <==>
            !plain && (found.None? || !ComparePassword(found.value.account, f.password.value)))
      && (!st.result.Ok? ==> st.next == LookupByEmail(s, f.email.value).next)
      && (!st.result.Ok? ==>
            && st.next.store == s.store
            && forall k: Key :: k.IdKey? ==>
                 (k in st.next.cache <==> k in s.cache) && (k in s.cache ==> st.next.cache[k] == s.cache[k]))
  {
    var e := f.email.value;
    var look := LookupByEmail(s, e);
    LookupPreservesValid(s, e);
    var st := Login(s, f, codec);
    if !st.result.Ok? {
      assert st.next == look.next;
      forall k: Key | k.IdKey?
        ensures k in look.next.cache <==> k in s.cache
        ensures k in s.cache ==> look.next.cache[k] == s.cache[k]
      {
        LookupTouchesOnlyItsKey(s, e, k);
      }
    }
  }

  /** A successful `login` found a conforming record for the lower-cased e-mail that accepts
      the password, in the store or in a cache that revives records. It returns the
      projection with a token over `{id, role}`. The next state is given whole: the store
      is unchanged, and the cache only gains the record under the form's e-mail key on a
      store hit and the projection under the account's id key. */
  lemma LoginSuccess(s: State, f: LoginForm, codec: Codec)
    requires Valid(s) && LoginOk(f)
    ensures var st := Login(s, f, codec);
      var found := LookupByEmail(s, f.email.value).found;
      st.result.Ok? ==>
        && (codec == Revived || EmailKey(f.email.value) !in s.cache)
        && found.Some? && found.value.Record?
        && var a := found.value.account;
        && Conforms(a) && a.email == Lower(f.email.value)
        && ComparePassword(a, f.password.value)
        && st.result.value == Session(Project(a), IssueToken(a))
        && st.next.store == s.store
        && IdKey(a.id) in st.next.cache
        && st.next.cache[IdKey(a.id)] == Entry(Profile(Project(a)), Ttl)
        && var looked := if EmailKey(f.email.value) in s.cache then s.cache
                         else s.cache[EmailKey(f.email.value) := Entry(Record(a), Ttl)];
           st.next == State(s.store, looked[IdKey(a.id) := Entry(Profile(Project(a)), Ttl)])
  {
    ValidEmailNormalizes(f.email.value);
  }

  /** `getUser` trusts a cache hit and does not consult the store; a miss for an unknown id
      is 404 and leaves the cache alone; a miss for a known id caches the projection. */
  lemma GetUserCases(s: State, id: string)
    ensures IdKey(id) in s.cache ==> GetUser(s, id) == Step(Ok(s.cache[IdKey(id)].value), s)
    ensures IdKey(id) !in s.cache && id !in s.store ==> GetUser(s, id) == Step(Err(404, "User not found"), s)
    ensures IdKey(id) !in s.cache && id in s.store ==>
      GetUser(s, id) == Step(Ok(Record(s.store[id])),
                             State(s.store, s.cache[IdKey(id) := Entry(Profile(Project(s.store[id])), Ttl)]))
  {
  }

  /** What `getUser` hands out: on a hit, a projection of the requested id, with no password;
      on a miss, the full store record, password hash included. */
  lemma GetUserShapes(s: State, id: string)
    requires Valid(s)
    ensures var st := GetUser(s, id);
      && (st.result.Err? <==> IdKey(id) !in s.cache && id !in s.store)
      && (st.result.Ok? && IdKey(id) in s.cache ==>
            st.result.value.Profile? && st.result.value.view.id == id)
      && (st.result.Ok? && IdKey(id) !in s.cache ==>
            st.result.value.Record? && st.result.value.account.id == id &&
            IsHash(st.result.value.account.password))
  {
  }

  /** The state a successful `updateUser` leaves, spelled out: the patched record in the
      store, its projection under the id key, and the e-mail keys dropped when the patch
      names an e-mail. */
  lemma UpdateNext(s: State, id: string, p: Patch)
    requires UpdateUser(s, id, p).result.Ok?
    ensures PatchOk(p) && id in s.store
    ensures var a := ApplyChanges(s.store[id], ValidatePatch(p).value);
      var c := s.cache[IdKey(id) := Entry(Profile(Project(a)), Ttl)];
      && (p.email.Some? ==> a.email == Normalize(p.email.value))
      && UpdateUser(s, id, p).next ==
           State(s.store[id := a], if p.email.Some? then DropEmailKeys(c, a.email, p.email.value) else c)
  {
    var ch := ValidatePatch(p).value;
    var a := ApplyChanges(s.store[id], ch);
    assert UpdateRecord(s.store, id, ch) == Ok(Some(a));
  }

  lemma DropKeeps(c: Cache, stored: string, requested: string, k: Key)
    requires k != EmailKey(stored) && k != EmailKey(requested)
    ensures k in DropEmailKeys(c, stored, requested) <==> k in c
    ensures k in c ==> DropEmailKeys(c, stored, requested)[k] == c[k]
  {
  }

  lemma DropRemoves(c: Cache, stored: string, requested: string)
    ensures EmailKey(stored) !in DropEmailKeys(c, stored, requested)
    ensures EmailKey(requested) !in DropEmailKeys(c, stored, requested)
  {
  }

  /** `updateUser` on an unknown id is 404 and changes nothing; it succeeds exactly when the
      patch is valid, the id is known and no other record holds the patched e-mail. */
  lemma UpdateOutcome(s: State, id: string, p: Patch)
    ensures PatchOk(p) && id !in s.store ==> UpdateUser(s, id, p) == Step(Err(404, "User not found"), s)
    ensures UpdateUser(s, id, p).result.Ok? <==>
      PatchOk(p) && id in s.store && EmailFree(s.store, ApplyChanges(s.store[id], ValidatePatch(p).value).email, id)
  {
  }

  /** A successful update stores the patched record under the same id with the password hash
      untouched, refreshes the id key with its projection and returns that projection. */
  lemma UpdateSuccess(s: State, id: string, p: Patch)
    requires StoreValid(s.store)
    ensures var st := UpdateUser(s, id, p);
      st.result.Ok? ==>
        && id in s.store
        && var a := ApplyChanges(s.store[id], ValidatePatch(p).value);
        && st.next.store == s.store[id := a]
        && a.id == id && a.password == s.store[id].password
        && st.result.value == Project(a)
        && IdKey(id) in st.next.cache
        && st.next.cache[IdKey(id)] == Entry(Profile(Project(a)), Ttl)
  {
    var st := UpdateUser(s, id, p);
    if st.result.Ok? {
      UpdateNext(s, id, p);
      var ch := ValidatePatch(p).value;
      var a := ApplyChanges(s.store[id], ch);
      assert UpdateRecord(s.store, id, ch) == Ok(Some(a));
      assert st.result.value == Project(a);
      assert a.id == s.store[id].id == id;
      var c := s.cache[IdKey(id) := Entry(Profile(Project(a)), Ttl)];
      if p.email.Some? {
        DropKeeps(c, a.email, p.email.value, IdKey(id));
      }
      assert IdKey(id) in st.next.cache && st.next.cache[IdKey(id)] == Entry(Profile(Project(a)), Ttl);
    }
  }

  /** A key other than the id key and the e-mail keys of the patch keeps its entry. */
  lemma UpdateKeepsKey(s: State, id: string, p: Patch, k: Key)
    requires UpdateUser(s, id, p).result.Ok?
    requires k != IdKey(id) && k !in DroppedKeys(p)
    ensures k in UpdateUser(s, id, p).next.cache <==> k in s.cache
    ensures k in s.cache ==> UpdateUser(s, id, p).next.cache[k] == s.cache[k]
  {
    UpdateNext(s, id, p);
    var a := ApplyChanges(s.store[id], ValidatePatch(p).value);
    var c := s.cache[IdKey(id) := Entry(Profile(Project(a)), Ttl)];
    if p.email.Some? {
      DropKeeps(c, a.email, p.email.value, k);
    }
  }

  /** The e-mail keys `updateUser` deletes: none without an e-mail in the patch; with one,
      the key of the stored e-mail (the requested one normalized) and the key of the
      requested e-mail as typed. */
  function DroppedKeys(p: Patch): set<Key> {
    if p.email.Some? then {EmailKey(Normalize(p.email.value)), EmailKey(p.email.value)} else {}
  }

  /** The e-mail keys a successful `updateUser` touches are exactly `DroppedKeys`: they are
      gone afterwards, and every other key except the id key keeps its entry. The key of the
      account's previous e-mail in particular is left in place. */
  lemma UpdateEmailKeys(s: State, id: string, p: Patch)
    requires UpdateUser(s, id, p).result.Ok?
    ensures forall k :: k in DroppedKeys(p) ==> k !in UpdateUser(s, id, p).next.cache
    ensures forall k :: k != IdKey(id) && k !in DroppedKeys(p) ==>
      && (k in UpdateUser(s, id, p).next.cache <==> k in s.cache)
      && (k in s.cache ==> UpdateUser(s, id, p).next.cache[k] == s.cache[k])
  {
    UpdateNext(s, id, p);
    var a := ApplyChanges(s.store[id], ValidatePatch(p).value);
    var c := s.cache[IdKey(id) := Entry(Profile(Project(a)), Ttl)];
    if p.email.Some? {
      DropRemoves(c, a.email, p.email.value);
    }
    forall k | k != IdKey(id) && k !in DroppedKeys(p)
      ensures k in UpdateUser(s, id, p).next.cache <==> k in s.cache
      ensures k in s.cache ==> UpdateUser(s, id, p).next.cache[k] == s.cache[k]
    {
      UpdateKeepsKey(s, id, p, k);
    }
  }

  // ---------------------------------------------------------------------------------------
  // The invariant every operation keeps

  lemma LookupPreservesValid(s: State, email: string)
    requires Valid(s)
    ensures Valid(LookupByEmail(s, email).next)
    ensures LookupByEmail(s, email).next.store == s.store
    ensures LookupByEmail(s, email).found.Some? ==>
      && LookupByEmail(s, email).found.value.Record?
      && Conforms(LookupByEmail(s, email).found.value.account)
      && LookupByEmail(s, email).found.value.account.email == Normalize(email)
  {
    var f := FindByEmail(s.store, email);
    if EmailKey(email) !in s.cache && f.Some? {
      var k :| k in s.store && s.store[k] == f.value;
      CacheSetEmail(s.cache, email, f.value);
    }
  }

  lemma RegisterPreservesValid(s: State, r: Registration, id: string, now: int)
    requires Valid(s)
    ensures Valid(Register(s, r, id, now).next)
  {
    if RegistrationOk(r) {
      var data := ValidateRegistration(r).value;
      LookupPreservesValid(s, data.email);
      CreateRecordSpec(s.store, data, id, now);
      var c := CreateRecord(s.store, data, id, now);
      if c.Ok? && LookupByEmail(s, data.email).found.None? {
        var a := c.value;
        CacheSetId(s.cache, a);
        CacheSetEmail(s.cache[IdKey(a.id) := Entry(Profile(Project(a)), Ttl)], data.email, a);
      }
    }
  }

  lemma LoginPreservesValid(s: State, f: LoginForm, codec: Codec)
    requires Valid(s)
    ensures Valid(Login(s, f, codec).next)
  {
    if LoginOk(f) {
      var look := LookupByEmail(s, f.email.value);
      LookupPreservesValid(s, f.email.value);
      var st := Login(s, f, codec);
      if look.found.Some? && HasComparePassword(look, codec) && ComparePassword(look.found.value.account, f.password.value) {
        var a := look.found.value.account;
        CacheSetId(look.next.cache, a);
        assert st.next == State(look.next.store, look.next.cache[IdKey(a.id) := Entry(Profile(Project(a)), Ttl)]);
      } else {
        assert st.next == look.next;
      }
    }
  }

  lemma GetUserPreservesValid(s: State, id: string)
    requires Valid(s)
    ensures Valid(GetUser(s, id).next)
  {
    if IdKey(id) !in s.cache && id in s.store {
      CacheSetId(s.cache, s.store[id]);
    }
  }

  lemma UpdatePreservesValid(s: State, id: string, p: Patch)
    requires Valid(s)
    ensures Valid(UpdateUser(s, id, p).next)
  {
    if PatchOk(p) {
      var ch := ValidatePatch(p).value;
      UpdateRecordSpec(s.store, id, ch);
      if UpdateRecord(s.store, id, ch).Ok? && id in s.store {
        var a := UpdateRecord(s.store, id, ch).value.value;
        CacheSetId(s.cache, a);
        var c := s.cache[IdKey(id) := Entry(Profile(Project(a)), Ttl)];
        if p.email.Some? {
          CacheDrop(c, EmailKey(a.email));
          CacheDrop(c - {EmailKey(a.email)}, EmailKey(p.email.value));
        }
      }
    }
  }
}
