/** The persisted session store (`authStorage`): two JSON records (tokens and user profile)
    kept in `window.localStorage` under fixed keys, mirrored by two in-memory caches that are
    filled lazily, and refreshed by the `storage` events other tabs cause. `JSON.parse` and
    `JSON.stringify` are the abstract codec `c`. Operations that change the store return the
    notifications they send to the bus; the bus itself is modelled in `AuthBus`. */
module AuthStorage {
  import opened Base
  import opened Json

  const TokenKey: string := "healthApp.tokens"
  const UserKey: string := "healthApp.user"
  const LanguageKey: string := "app.lang"
  const DefaultLanguage: string := "en"

  /** `window.localStorage`: a map from keys to strings. */
  type Storage = map<string, string>

  /** `browser` is `isBrowser` (a window with local storage exists). A cache holding `JNull`
      is the JavaScript `null` the module starts with. */
  datatype Store = Store(browser: bool, storage: Storage, cachedTokens: Json, cachedUser: Json)

  /** Bus notifications the store sends: `emitTokensUpdated` and `emitUserUpdated`. */
  datatype Notice = TokensUpdated(tokens: Json) | UserUpdated(user: Json)

  /** The result of a getter: the value and the store after the lazy load. */
  datatype Read = Read(store: Store, value: Json)

  /** The result of a setter: the store and the notifications sent, in order. */
  datatype Write = Write(store: Store, notices: seq<Notice>)

  /** The store when the module is loaded: both caches `null`. */
  function Initial(browser: bool, storage: Storage): Store {
    Store(browser, storage, JNull, JNull)
  }

  /** `localStorage.getItem(key)`. */
  function GetItem(st: Storage, key: string): Option<string> {
    if key in st then Some(st[key]) else None
  }

  /** `safeParse`: `null` for a missing or empty string and for text the parser rejects. */
  function SafeParse(c: Codec, value: Option<string>): (r: Json)
    ensures value.None? || value == Some("") ==> r == JNull
    ensures value.Some? && c.parse(value.value).None? ==> r == JNull
  {
    if value.None? || value.value == "" then JNull
    else match c.parse(value.value)
      case None => JNull
      case Some(v) => v
  }

  /** Whatever the stored text, `safeParse` returns a value and never fails; for text that
      `JSON.stringify` produced from a non-null value, it returns that value. */
  lemma SafeParseRoundTrip(c: Codec, v: Json)
    requires Lawful(c) && Canonical(v)
    ensures SafeParse(c, Some(c.stringify(v))) == v
  {
    assert c.stringify(v) != "" && c.parse(c.stringify(v)) == Some(v);
  }

  /** `syncFromStorage`: reload both caches from storage (a no-op outside a browser). */
  function SyncFromStorage(c: Codec, s: Store): Store {
    if !s.browser then s
    else s.(cachedTokens := SafeParse(c, GetItem(s.storage, TokenKey)),
            cachedUser := SafeParse(c, GetItem(s.storage, UserKey)))
  }

  /** `ensureCache`: reload only when both caches are `null`. */
  function EnsureCache(c: Codec, s: Store): (r: Store)
    ensures r.browser == s.browser && r.storage == s.storage
    ensures !(s.browser && s.cachedTokens.JNull? && s.cachedUser.JNull?) ==> r == s
    ensures s.browser && s.cachedTokens.JNull? && s.cachedUser.JNull? ==>
      r.cachedTokens == SafeParse(c, GetItem(s.storage, TokenKey)) &&
      r.cachedUser == SafeParse(c, GetItem(s.storage, UserKey))
  {
    if s.cachedTokens.JNull? && s.cachedUser.JNull? then SyncFromStorage(c, s) else s
  }

  /** Loading is idempotent: a second lazy load right after the first changes nothing. */
  lemma {:induction false} EnsureCacheIdempotent(c: Codec, s: Store)
    ensures EnsureCache(c, EnsureCache(c, s)) == EnsureCache(c, s)
  {
    var r := EnsureCache(c, s);
    if s.browser && s.cachedTokens.JNull? && s.cachedUser.JNull? && r.cachedTokens.JNull? && r.cachedUser.JNull? {
      assert SyncFromStorage(c, r) == r;
    }
  }

  /** `persist(key, value)`. */
  function Persist(c: Codec, s: Store, key: string, value: Json): (r: Store)
    ensures r.browser == s.browser && r.cachedTokens == s.cachedTokens && r.cachedUser == s.cachedUser
    ensures forall k :: k != key ==> GetItem(r.storage, k) == GetItem(s.storage, k)
    ensures !s.browser ==> r == s
    ensures s.browser && value.JNull? ==> key !in r.storage
    ensures s.browser && !value.JNull? ==> GetItem(r.storage, key) == Some(c.stringify(value))
  {
    if !s.browser then s
    else if value.JNull? then s.(storage := s.storage - {key})
    else s.(storage := s.storage[key := c.stringify(value)])
  }

  /** What `persist` writes reads back as the value written, through `safeParse`. */
  lemma PersistRoundTrip(c: Codec, s: Store, key: string, value: Json)
    requires Lawful(c) && Canonical(value) && s.browser
    ensures SafeParse(c, GetItem(Persist(c, s, key, value).storage, key)) == value
  {
    if !value.JNull? {
      SafeParseRoundTrip(c, value);
    }
  }

  function GetTokens(c: Codec, s: Store): Read {
    var s1 := EnsureCache(c, s);
    Read(s1, s1.cachedTokens)
  }

  function GetUser(c: Codec, s: Store): Read {
    var s1 := EnsureCache(c, s);
    Read(s1, s1.cachedUser)
  }

  /** `getTokens()?.access_token ?? null`. */
  function GetAccessToken(c: Codec, s: Store): Read {
    var r := GetTokens(c, s);
    Read(r.store, Coalesce(Get(r.value, "access_token"), JNull))
  }

  /** `getTokens()?.refresh_token ?? null`. */
  function GetRefreshToken(c: Codec, s: Store): Read {
    var r := GetTokens(c, s);
    Read(r.store, Coalesce(Get(r.value, "refresh_token"), JNull))
  }

  /** The two token getters return the matching member of the tokens record, or `null` when
      there is no record or the member is absent or `null`. */
  lemma TokenFieldGetters(c: Codec, s: Store)
    ensures var t := GetTokens(c, s).value;
      && GetAccessToken(c, s).value == (if Get(t, "access_token").Some? then Get(t, "access_token").value else JNull)
      && GetRefreshToken(c, s).value == (if Get(t, "refresh_token").Some? then Get(t, "refresh_token").value else JNull)
      && (t.JNull? ==> GetAccessToken(c, s).value.JNull? && GetRefreshToken(c, s).value.JNull?)
      && GetAccessToken(c, s).store == GetTokens(c, s).store
      && GetRefreshToken(c, s).store == GetTokens(c, s).store
  {
  }

  /** Reading the refresh token twice in a row gives the same answer and the second read
      changes nothing. */
  lemma RefreshTokenReadStable(c: Codec, s: Store)
    ensures var r1 := GetRefreshToken(c, s);
            GetRefreshToken(c, r1.store) == r1
  {
    EnsureCacheIdempotent(c, s);
  }

  /** `setTokens(tokens)`: cache, persist, and notify only for a truthy record. */
  function SetTokens(c: Codec, s: Store, tokens: Json): (w: Write)
    ensures w.store.cachedTokens == tokens && w.store.cachedUser == s.cachedUser
    ensures w.notices == (if Truthy(tokens) then [TokensUpdated(tokens)] else [])
  {
    var s1 := Persist(c, s.(cachedTokens := tokens), TokenKey, tokens);
    Write(s1, if Truthy(tokens) then [TokensUpdated(tokens)] else [])
  }

  /** `setUser(user)`: cache, persist, and notify on every call, `null` included. */
  function SetUser(c: Codec, s: Store, user: Json): (w: Write)
    ensures w.store.cachedUser == user && w.store.cachedTokens == s.cachedTokens
    ensures w.notices == [UserUpdated(user)]
  {
    Write(Persist(c, s.(cachedUser := user), UserKey, user), [UserUpdated(user)])
  }

  /** After `setTokens(t)`, `getTokens()` returns `t` (`null` for `null`). */
  lemma SetThenGetTokens(c: Codec, s: Store, t: Json)
    ensures GetTokens(c, SetTokens(c, s, t).store).value == t
  {
    var s1 := SetTokens(c, s, t).store;
    if t.JNull? && s1.cachedUser.JNull? && s1.browser {
      assert TokenKey !in s1.storage;
    }
  }

  /** After `setUser(u)`, `getUser()` returns `u`. */
  lemma SetThenGetUser(c: Codec, s: Store, u: Json)
    ensures GetUser(c, SetUser(c, s, u).store).value == u
  {
    var s1 := SetUser(c, s, u).store;
    if u.JNull? && s1.cachedTokens.JNull? && s1.browser {
      assert UserKey !in s1.storage;
    }
  }

  /** `clear()`: both caches `null`, both keys removed, nothing sent on the bus. */
  function Clear(c: Codec, s: Store): (w: Write)
    ensures w.notices == []
    ensures w.store.cachedTokens.JNull? && w.store.cachedUser.JNull? && w.store.browser == s.browser
    ensures s.browser ==> TokenKey !in w.store.storage && UserKey !in w.store.storage
    ensures forall k :: k != TokenKey && k != UserKey ==> GetItem(w.store.storage, k) == GetItem(s.storage, k)
  {
    var s1 := s.(cachedTokens := JNull, cachedUser := JNull);
    Write(Persist(c, Persist(c, s1, TokenKey, JNull), UserKey, JNull), [])
  }

  /** Clearing twice leaves the same store as clearing once. */
  lemma ClearIdempotent(c: Codec, s: Store)
    ensures Clear(c, Clear(c, s).store) == Clear(c, s)
  {
    var s1 := Clear(c, s).store;
    var s2 := Clear(c, s1).store;
    if s.browser {
      assert s2.storage == s1.storage;
    }
  }

  /** `setSession(session)`. */
  function SetSession(c: Codec, s: Store, session: Json): Write {
    if !Truthy(session) then Clear(c, s)
    else
      var w1 := SetTokens(c, s, Coalesce(Get(session, "tokens"), JNull));
      var w2 := SetUser(c, w1.store, Coalesce(Get(session, "user"), JNull));
      Write(w2.store, w1.notices + w2.notices)
  }

  /** A falsy session clears; otherwise the tokens and the user of the session (or `null`)
      are stored, the tokens notice (when the tokens are truthy) preceding the user notice. */
  lemma SetSessionEffect(c: Codec, s: Store, session: Json)
    ensures !Truthy(session) ==> SetSession(c, s, session) == Clear(c, s)
    ensures Truthy(session) ==>
      var t := Coalesce(Get(session, "tokens"), JNull);
      var u := Coalesce(Get(session, "user"), JNull);
      var w := SetSession(c, s, session);
      && w.store.cachedTokens == t && w.store.cachedUser == u
      && w.notices == (if Truthy(t) then [TokensUpdated(t), UserUpdated(u)] else [UserUpdated(u)])
      && GetTokens(c, w.store).value == t && GetUser(c, w.store).value == u
  {
    if Truthy(session) {
      var t := Coalesce(Get(session, "tokens"), JNull);
      var u := Coalesce(Get(session, "user"), JNull);
      var w := SetSession(c, s, session);
      if w.store.browser {
        if t.JNull? { assert TokenKey !in w.store.storage; }
        if u.JNull? { assert UserKey !in w.store.storage; }
      }
    }
  }

  /** `getPreferredLanguage()`: the stored `app.lang` when non-empty, else `'en'`. */
  function GetPreferredLanguage(s: Store): (lang: string)
    ensures lang != ""
    ensures s.browser && LanguageKey in s.storage && s.storage[LanguageKey] != "" ==> lang == s.storage[LanguageKey]
    ensures !s.browser || LanguageKey !in s.storage || s.storage[LanguageKey] == "" ==> lang == DefaultLanguage
  {
    if !s.browser then DefaultLanguage
    else match GetItem(s.storage, LanguageKey)
      case None => DefaultLanguage
      case Some(v) => if v == "" then DefaultLanguage else v
  }

  /** The `storage` event listener: a change of the tokens key overwrites only the tokens
      cache, one of the user key only the user cache; any other key (or a whole-storage clear,
      whose event has no key) changes nothing. No listener exists outside a browser. */
  function OnStorageEvent(c: Codec, s: Store, key: Option<string>, newValue: Option<string>): (r: Store)
    ensures r.browser == s.browser && r.storage == s.storage
    ensures s.browser && key == Some(TokenKey) ==>
      r == s.(cachedTokens := SafeParse(c, newValue))
    ensures s.browser && key == Some(UserKey) ==>
      r == s.(cachedUser := SafeParse(c, newValue))
    ensures !s.browser || (key != Some(TokenKey) && key != Some(UserKey)) ==> r == s
  {
    if !s.browser then s
    else if key == Some(TokenKey) then s.(cachedTokens := SafeParse(c, newValue))
    else if key == Some(UserKey) then s.(cachedUser := SafeParse(c, newValue))
    else s
  }

  /** Another tab changes the shared storage (`key` None: it called `localStorage.clear()`),
      and this tab's listener receives the event. */
  function ExternalChange(c: Codec, s: Store, key: Option<string>, newValue: Option<string>): Store {
    if !s.browser then s
    else
      var st := match key
        case None => map[]
        case Some(k) => if newValue.Some? then s.storage[k := newValue.value] else s.storage - {k};
      OnStorageEvent(c, s.(storage := st), key, newValue)
  }

  /** The caches agree with what storage holds, so a lazy reload would change nothing. */
  ghost predicate Coherent(c: Codec, s: Store) {
    s.browser ==>
      && s.cachedTokens == SafeParse(c, GetItem(s.storage, TokenKey))
      && s.cachedUser == SafeParse(c, GetItem(s.storage, UserKey))
  }

  /** While the caches agree with storage, the lazy load is invisible. */
  lemma CoherentLoadIsIdentity(c: Codec, s: Store)
    requires Coherent(c, s)
    ensures EnsureCache(c, s) == s
  {
  }

  /** The first read from the initial store makes the caches agree with storage. */
  lemma FirstReadCoheres(c: Codec, browser: bool, storage: Storage)
    ensures Coherent(c, GetTokens(c, Initial(browser, storage)).store)
    ensures Coherent(c, GetUser(c, Initial(browser, storage)).store)
  {
  }

  /** `setTokens` keeps caches and storage in agreement. */
  lemma SetTokensKeepsCoherence(c: Codec, s: Store, t: Json)
    requires Lawful(c) && Coherent(c, s) && Canonical(t)
    ensures Coherent(c, SetTokens(c, s, t).store)
  {
    if s.browser {
      PersistRoundTrip(c, s.(cachedTokens := t), TokenKey, t);
      assert UserKey != TokenKey;
    }
  }

  /** `setUser` keeps caches and storage in agreement. */
  lemma SetUserKeepsCoherence(c: Codec, s: Store, u: Json)
    requires Lawful(c) && Coherent(c, s) && Canonical(u)
    ensures Coherent(c, SetUser(c, s, u).store)
  {
    if s.browser {
      PersistRoundTrip(c, s.(cachedUser := u), UserKey, u);
      assert UserKey != TokenKey;
    }
  }

  /** `clear` leaves agreeing caches and storage, whatever the state before. */
  lemma ClearCoheres(c: Codec, s: Store)
    ensures Coherent(c, Clear(c, s).store)
  {
  }

  /** `setSession` keeps caches and storage in agreement. */
  lemma SetSessionKeepsCoherence(c: Codec, s: Store, session: Json)
    requires Lawful(c) && Coherent(c, s) && Canonical(session)
    ensures Coherent(c, SetSession(c, s, session).store)
  {
    if Truthy(session) {
      var st := Coalesce(Get(session, "tokens"), JNull);
      var su := Coalesce(Get(session, "user"), JNull);
      CanonicalMember(session, "tokens");
      CanonicalMember(session, "user");
      SetTokensKeepsCoherence(c, s, st);
      SetUserKeepsCoherence(c, SetTokens(c, s, st).store, su);
    } else {
      ClearCoheres(c, s);
    }
  }

  /** A change of one key by another tab, delivered to the listener, keeps caches and
      storage in agreement. */
  lemma ExternalChangeKeepsCoherence(c: Codec, s: Store, key: string, newValue: Option<string>)
    requires Coherent(c, s)
    ensures Coherent(c, ExternalChange(c, s, Some(key), newValue))
  {
    if s.browser {
      var st := if newValue.Some? then s.storage[key := newValue.value] else s.storage - {key};
      assert GetItem(st, key) == newValue;
      assert forall k :: k != key ==> GetItem(st, k) == GetItem(s.storage, k);
    }
  }

  /** Members of a value `JSON.parse` can produce are themselves such values. */
  lemma CanonicalMember(v: Json, name: string)
    requires Canonical(v)
    ensures Canonical(Coalesce(Get(v, name), JNull))
  {
    if v.JObj? && Get(v, name).Some? {
      var ms := v.members;
      var i :| 0 <= i < |ms| && ms[i].name == name && ms[i].value == Get(v, name).value;
      assert Canonical(ms[i].value);
    }
  }

  /** A whole-storage clear from another tab arrives as an event with no key, which the
      listener ignores: the caches keep the old session although storage is now empty. */
  lemma ExternalClearLeavesStaleCache()
    ensures var c := Codec((text: string) => if text == "t" then Some(JStr("token")) else None,
                           (v: Json) => "t");
            var s := Store(true, map[TokenKey := "t"], JStr("token"), JNull);
            Coherent(c, s) && !Coherent(c, ExternalChange(c, s, None, None))
  {
    var c := Codec((text: string) => if text == "t" then Some(JStr("token")) else None,
                   (v: Json) => "t");
    var s := Store(true, map[TokenKey := "t"], JStr("token"), JNull);
    assert GetItem(s.storage, TokenKey) == Some("t");
    assert UserKey != TokenKey;
    assert GetItem(s.storage, UserKey) == None;
    var r := ExternalChange(c, s, None, None);
    assert r.storage == map[];
    assert r.cachedTokens == JStr("token");
  }

  /** Because the lazy load waits for BOTH caches to be `null`, a `setUser` before the first
      read hides the tokens already in storage: `getTokens()` then answers `null`. */
  lemma SetUserBeforeFirstReadHidesTokens()
    ensures var c := Codec((text: string) => if text == "t" then Some(JStr("token")) else None,
                           (v: Json) => "u");
            var s := Initial(true, map[TokenKey := "t"]);
            var s1 := SetUser(c, s, JStr("alice")).store;
            SafeParse(c, GetItem(s1.storage, TokenKey)) == JStr("token") && GetTokens(c, s1).value == JNull
  {
    var c := Codec((text: string) => if text == "t" then Some(JStr("token")) else None,
                   (v: Json) => "u");
    var s := Initial(true, map[TokenKey := "t"]);
    var s1 := SetUser(c, s, JStr("alice")).store;
    assert UserKey != TokenKey;
    assert GetItem(s1.storage, TokenKey) == Some("t");
  }
}
