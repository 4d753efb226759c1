/** `UserService` (`server/src/services/userService.js`) as an object over its two
    repositories: the record store and the cache are fields that the repository calls update
    one at a time. Each operation is proved to end in the state, and with the outcome, that
    the matching function of `ServiceSpec` gives, and to keep `ServiceSpec.Valid`. */
module Service {
  import opened Base
  import opened Text
  import opened Credentials
  import opened UserModel
  import opened Schemas
  import opened Repositories
  import ServiceSpec

  class UserService {
    /** `MongoUserRepository`'s collection, by id. */
    var store: Store
    /** `RedisCacheRepository`'s keys. */
    var cache: Cache
    /** How `RedisCacheRepository.get` reads a cached record back. */
    const codec: Codec

    function State(): ServiceSpec.State
      reads this
    {
      ServiceSpec.State(store, cache)
    }

    ghost predicate Valid()
      reads this
    {
      ServiceSpec.Valid(State())
    }

    /** `new UserService()`: the two repositories are opened on whatever the collection and
        Redis already hold, which must meet the invariant. */
    constructor (store0: Store, cache0: Cache, codec0: Codec)
      requires ServiceSpec.Valid(ServiceSpec.State(store0, cache0))
      ensures store == store0 && cache == cache0 && codec == codec0
      ensures Valid()
    {
      store := store0;
      cache := cache0;
      codec := codec0;
    }

    // -------------------------------------------------------------------------------------
    // The cache repository

    /** `cacheRepository.get(key)`; a miss is `None`. */
    method CacheGet(k: Key) returns (v: Option<UserValue>)
      ensures v.Some? <==> k in cache
      ensures v.Some? ==> v.value == cache[k].value
    {
      if k in cache {
        v := Some(cache[k].value);
      } else {
        v := None;
      }
    }

    /** `cacheRepository.set(key, value, ttl)`. */
    method CacheSet(k: Key, v: UserValue, ttl: nat)
      modifies this`cache
      ensures cache == old(cache)[k := Entry(v, ttl)]
    {
      cache := cache[k := Entry(v, ttl)];
    }

    /** `cacheRepository.del(key)`; the extra arguments the service passes are ignored. */
    method CacheDel(k: Key)
      modifies this`cache
      ensures cache == old(cache) - {k}
    {
      cache := cache - {k};
    }

    // -------------------------------------------------------------------------------------
    // The user repository

    /** `userRepository.findUserByEmail(email)`. */
    method FindUserByEmail(email: string) returns (r: Option<Account>)
      requires StoreValid(store)
      ensures r == FindByEmail(store, email)
    {
      var e := Normalize(email);
      if exists id | id in store :: store[id].email == e {
        var id :| id in store && store[id].email == e;
        FindByEmailUnique(store, email, id);
        r := Some(store[id]);
      } else {
        r := None;
      }
    }

    /** `userRepository.findUserById(id)`. */
    method FindUserById(id: string) returns (r: Option<Account>)
      ensures r == FindById(store, id)
    {
      if id in store {
        r := Some(store[id]);
      } else {
        r := None;
      }
    }

    /** `userRepository.createUser(data)`: a new `User` document, saved (validation, then the
        pre-save hook), then inserted unless its id or e-mail is taken. */
    method CreateUser(data: NewUser, id: string, now: int) returns (r: Outcome<Account>)
      modifies this`store
      ensures r == CreateRecord(old(store), data, id, now)
      ensures r.Ok? ==> store == old(store)[id := r.value]
      ensures !r.Ok? ==> store == old(store)
    {
      var saved, a := CreateAndSave(id, data, now);
      if saved.Invalid? {
        r := Fault(saved.message);
      } else if id in store || !EmailFree(store, a.email, id) {
        r := Fault(DuplicateKey);
      } else {
        store := store[id := a];
        r := Ok(a);
      }
    }

    /** `userRepository.updateUser(id, data)`. */
    method UpdateStore(id: string, ch: Changes) returns (r: Outcome<Option<Account>>)
      modifies this`store
      ensures r == UpdateRecord(old(store), id, ch)
      ensures store == if r.Ok? && r.value.Some? then old(store)[id := r.value.value] else old(store)
    {
      if id !in store {
        return Ok(None);
      }
      var a := ApplyChanges(store[id], ch);
      if !EmailFree(store, a.email, id) {
        return Fault(DuplicateKey);
      }
      store := store[id := a];
      r := Ok(Some(a));
    }

    // -------------------------------------------------------------------------------------
    // The service

    /** The cache-aside read by e-mail at the start of `register` and `login`; `hit` tells
        whether the value came from the cache. */
    method LookupEmail(email: string) returns (found: Option<UserValue>, hit: bool)
      requires StoreValid(store)
      modifies this`cache
      ensures ServiceSpec.Lookup(found, hit, State()) == ServiceSpec.LookupByEmail(old(State()), email)
    {
      var key := EmailKey(email);
      found := CacheGet(key);
      hit := found.Some?;
      if found.None? {
        var a := FindUserByEmail(email);
        if a.Some? {
          CacheSet(key, Record(a.value), Ttl);
          found := Some(Record(a.value));
        }
      }
    }

    /** The creation half of `register`. */
    method Enroll(data: NewUser, id: string, now: int) returns (r: Outcome<ServiceSpec.Session>)
      modifies this
      ensures ServiceSpec.Step(r, State()) == ServiceSpec.Enroll(old(State()), data, id, now)
    {
      var created := CreateUser(data, id, now);
      if created.Fault? {
        return Fault(created.reason);
      }
      var a := created.value;
      CacheSet(IdKey(a.id), Profile(Project(a)), Ttl);
      CacheSet(EmailKey(data.email), Record(a), Ttl);
      r := Ok(ServiceSpec.Session(Project(a), ServiceSpec.IssueToken(a)));
    }

    /** `register(userData)`; `id` and `now` are the id and creation time the store gives
        the new record. */
    method Register(input: Registration, id: string, now: int) returns (r: Outcome<ServiceSpec.Session>)
      requires Valid()
      modifies this
      ensures ServiceSpec.Step(r, State()) == ServiceSpec.Register(old(State()), input, id, now)
      ensures Valid()
    {
      ghost var s := State();
      ServiceSpec.RegisterPreservesValid(s, input, id, now);
      var checked := ValidateRegistration(input);
      if checked.Rejected? {
        return Err(400, checked.message);
      }
      var data := checked.value;
      var existing, _ := LookupEmail(data.email);
      if existing.Some? {
        return Err(409, "User already exists");
      }
      r := Enroll(data, id, now);
    }

    /** The password check of `login`, on what the lookup found. */
    method CheckCredentials(found: Option<UserValue>, hit: bool, password: string)
      returns (r: Outcome<ServiceSpec.Session>)
      modifies this`cache
      ensures ServiceSpec.Step(r, State()) ==
        ServiceSpec.CheckCredentials(ServiceSpec.Lookup(found, hit, old(State())), password, codec)
    {
      if found.None? {
        return Err(401, "Invalid credentials");
      }
      if found.value.Profile? || (hit && codec == PlainJson) {
        return Fault(ServiceSpec.NotAFunction);
      }
      var a := found.value.account;
      if !ComparePassword(a, password) {
        return Err(401, "Invalid credentials");
      }
      CacheSet(IdKey(a.id), Profile(Project(a)), Ttl);
      r := Ok(ServiceSpec.Session(Project(a), ServiceSpec.IssueToken(a)));
    }

    /** `login({email, password})`. */
    method Login(form: LoginForm) returns (r: Outcome<ServiceSpec.Session>)
      requires Valid()
      modifies this
      ensures ServiceSpec.Step(r, State()) == ServiceSpec.Login(old(State()), form, codec)
      ensures Valid()
    {
      ghost var s := State();
      ServiceSpec.LoginPreservesValid(s, form, codec);
      var checked := ValidateLogin(form);
      if checked.Rejected? {
        return Err(400, checked.message);
      }
      var l := checked.value;
      var user, hit := LookupEmail(l.email);
      r := CheckCredentials(user, hit, l.password);
    }

    /** `getUser(id)`. */
    method GetUser(id: string) returns (r: Outcome<UserValue>)
      requires Valid()
      modifies this
      ensures ServiceSpec.Step(r, State()) == ServiceSpec.GetUser(old(State()), id)
      ensures Valid()
    {
      ghost var s := State();
      ServiceSpec.GetUserPreservesValid(s, id);
      var key := IdKey(id);
      var user := CacheGet(key);
      if user.Some? {
        return Ok(user.value);
      }
      var a := FindUserById(id);
      if a.None? {
        return Err(404, "User not found");
      }
      CacheSet(key, Profile(Project(a.value)), Ttl);
      r := Ok(Record(a.value));
    }

    /** `updateUser(id, userData)`. */
    method UpdateUser(id: string, patch: Patch) returns (r: Outcome<View>)
      requires Valid()
      modifies this
      ensures ServiceSpec.Step(r, State()) == ServiceSpec.UpdateUser(old(State()), id, patch)
      ensures Valid()
    {
      ghost var s := State();
      ServiceSpec.UpdatePreservesValid(s, id, patch);
      var checked := ValidatePatch(patch);
      if checked.Rejected? {
        return Err(400, checked.message);
      }
      var updated := UpdateStore(id, checked.value);
      if !updated.Ok? {
        return if updated.Err? then Err(updated.status, updated.message) else Fault(updated.reason);
      }
      if updated.value.None? {
        return Err(404, "User not found");
      }
      var a := updated.value.value;
      CacheSet(IdKey(id), Profile(Project(a)), Ttl);
      if patch.email.Some? {
        CacheDel(EmailKey(a.email));
        if patch.email.value != a.email {
          CacheDel(EmailKey(patch.email.value));
        }
      }
      r := Ok(Project(a));
    }
  }
}
