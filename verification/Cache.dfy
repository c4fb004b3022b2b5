/**
 The cache in front of slow queries: a Redis store with expiry, any command of which may fail,
 and the look-up that computes on a miss. JSON text is identified with the value it encodes.
 Times are in seconds.
 */
module Cache {
  import opened Common
  import opened CacheKeys

  const PROVIDER_HEALTH_TTL := 3600
  const DASHBOARD_TTL := 300
  const PROVIDER_SYNC_TTL := 900
  const RECONCILIATION_TTL := 600

  /** A JSON value; a cached null reads back as a miss. */
  datatype Value = Null | Data(text: string)

  datatype Slot = Slot(value: Value, expiresAt: int)

  type Store = map<string, Slot>

  /** How one Redis command went: fine, no client, failed unexecuted, or executed but the reply was lost. */
  datatype Fault = Fine | NoClient | Refused | ReplyLost

  predicate Executed(fault: Fault) {
    fault.Fine? || fault.ReplyLost?
  }

  predicate Live(store: Store, key: string, now: int) {
    key in store && now < store[key].expiresAt
  }

  /** What a get returns: the live value, or null on a miss or any failure. */
  function Lookup(store: Store, key: string, now: int, fault: Fault): Value {
    if fault.Fine? && Live(store, key, now) then store[key].value else Null
  }

  /** What a look-up with computation returns: the hit, or else what was computed. */
  function Answer(store: Store, key: string, computed: Value, now: int, fault: Fault): Value {
    if Lookup(store, key, now, fault) != Null then Lookup(store, key, now, fault) else computed
  }

  /** SETEX refuses a time-to-live that is not positive. */
  function Written(store: Store, key: string, value: Value, ttl: int, now: int, fault: Fault): Store {
    if Executed(fault) && ttl > 0 then store[key := Slot(value, now + ttl)] else store
  }

  function Removed(store: Store, keys: set<string>, fault: Fault): Store {
    if Executed(fault) then store - keys else store
  }

  function Matching(store: Store, pattern: string, now: int): set<string> {
    set k | k in store && Live(store, k, now) && Glob(pattern, k)
  }

  /** The pattern of the health invalidator. */
  function HealthPattern(merchant: string): string {
    MakeKey("health", [merchant, "*"])
  }

  class CacheLayer {
    var store: Store

    constructor ()
      ensures store == map[]
    {
      store := map[];
    }

    method Get(key: string, now: int, fault: Fault) returns (value: Value)
      ensures value == Lookup(store, key, now, fault)
    {
      if !fault.Fine? || key !in store || store[key].expiresAt <= now {
        return Null;
      }
      return store[key].value;
    }

    method Set(key: string, value: Value, ttl: int, now: int, fault: Fault) returns (ok: bool)
      modifies this
      ensures store == Written(old(store), key, value, ttl, now, fault)
      ensures ok == (fault.Fine? && ttl > 0)
    {
      if fault.NoClient? || fault.Refused? || ttl <= 0 {
        return false;
      }
      store := store[key := Slot(value, now + ttl)];
      return fault.Fine?;
    }

    method Delete(key: string, fault: Fault) returns (ok: bool)
      modifies this
      ensures store == Removed(old(store), {key}, fault)
      ensures ok == fault.Fine?
    {
      if Executed(fault) {
        store := store - {key};
      }
      return fault.Fine?;
    }

    /** KEYS, then DEL on what it listed, if anything. */
    method DeletePattern(pattern: string, now: int, listing: Fault, deletion: Fault) returns (count: nat)
      modifies this
      ensures var keys := Matching(old(store), pattern, now);
        if listing.Fine? && keys != {} then
          store == Removed(old(store), keys, deletion) && count == if deletion.Fine? then |keys| else 0
        else store == old(store) && count == 0
    {
      if !listing.Fine? {
        return 0;
      }
      var keys := Matching(store, pattern, now);
      if keys == {} {
        return 0;
      }
      if Executed(deletion) {
        store := store - keys;
      }
      return if deletion.Fine? then |keys| else 0;
    }

    /**
     Looks the key up at `now`; on a miss computes, and stores what was computed at `later`. No
     failure of Redis reaches the caller.
     */
    method GetOrCompute(key: string, computed: Value, ttl: int, now: int, later: int, get: Fault, put: Fault)
      returns (value: Value)
      modifies this
      ensures value == Answer(old(store), key, computed, now, get)
      ensures store == if Lookup(old(store), key, now, get) != Null then old(store)
                       else Written(old(store), key, computed, ttl, later, put)
    {
      var cached := Get(key, now, get);
      if cached != Null {
        return cached;
      }
      var ok := Set(key, computed, ttl, later, put);
      return computed;
    }

    method InvalidateProviderHealth(merchant: string, now: int, listing: Fault, deletion: Fault) returns (count: nat)
      modifies this
      ensures listing.Fine? && deletion.Fine? ==>
        forall k :: Glob(HealthPattern(merchant), k) ==> !Live(store, k, now)
      ensures forall k :: !Glob(HealthPattern(merchant), k) ==>
        (k in store <==> k in old(store)) && (k in store ==> store[k] == old(store)[k])
    {
      var pattern := HealthPattern(merchant);
      ghost var keys := Matching(store, pattern, now);
      assert forall k :: Glob(pattern, k) && Live(store, k, now) ==> k in keys;
      count := DeletePattern(pattern, now, listing, deletion);
    }
  }

  // ----- any number of clients -----

  /** The commands that reach Redis; `DEL` takes the keys that one call names. */
  datatype Op = GetOp(key: string) | SetOp(key: string, value: Value, ttl: int) | DelOp(keys: set<string>)

  datatype Command = Command(op: Op, fault: Fault, at: int)

  function Execute(store: Store, c: Command): Store {
    match c.op
    case GetOp(key) => store
    case SetOp(key, value, ttl) => Written(store, key, value, ttl, c.at, c.fault)
    case DelOp(keys) => Removed(store, keys, c.fault)
  }

  function StoreAfter(cs: seq<Command>): Store {
    if cs == [] then map[] else Execute(StoreAfter(cs[..|cs| - 1]), cs[|cs| - 1])
  }

  predicate ClockMonotonic(cs: seq<Command>) {
    forall i, j :: 0 <= i <= j < |cs| ==> cs[i].at <= cs[j].at
  }

  /** The command wrote the key. */
  predicate Writes(c: Command, key: string) {
    c.op.SetOp? && c.op.key == key && c.op.ttl > 0 && Executed(c.fault)
  }

  /** The command wrote or removed the key. */
  predicate Touches(c: Command, key: string) {
    Writes(c, key) || (c.op.DelOp? && key in c.op.keys && Executed(c.fault))
  }

  /** The i-th command wrote the key and nothing has written or removed it since. */
  predicate LatestWrite(cs: seq<Command>, key: string, i: nat) {
    i < |cs| && Writes(cs[i], key) && forall j :: i < j < |cs| ==> !Touches(cs[j], key)
  }

  /** The store holds, per key, exactly what its latest write put there. */
  lemma {:induction false} StoreIsLatestWrites(cs: seq<Command>, key: string)
    ensures key in StoreAfter(cs) <==> exists i: nat :: LatestWrite(cs, key, i)
    ensures forall i: nat :: LatestWrite(cs, key, i) ==>
      key in StoreAfter(cs) && StoreAfter(cs)[key] == Slot(cs[i].op.value, cs[i].at + cs[i].op.ttl)
    decreases |cs|
  {
    if cs == [] {
    } else {
      var n := |cs| - 1;
      var init, c := cs[..n], cs[n];
      StoreIsLatestWrites(init, key);
      assert forall j :: 0 <= j < n ==> init[j] == cs[j];
      if Touches(c, key) {
        assert Writes(c, key) ==> LatestWrite(cs, key, n);
        assert forall i: nat :: LatestWrite(cs, key, i) ==> i == n;
      } else {
        assert forall i: nat :: LatestWrite(cs, key, i) <==> LatestWrite(init, key, i);
      }
    }
  }

  // ----- main results -----

  /**
   Whatever commands of whatever clients ran and failed before, a hit returns the value of the
   latest write to its key, written less than its time-to-live ago, and not removed since.
   */
  lemma {:induction false} BoundedStaleness(cs: seq<Command>, key: string, now: int, fault: Fault)
    requires ClockMonotonic(cs) && (cs != [] ==> cs[|cs| - 1].at <= now)
    ensures var hit := Lookup(StoreAfter(cs), key, now, fault);
      hit != Null ==> exists i: nat ::
        LatestWrite(cs, key, i) && hit == cs[i].op.value && cs[i].at <= now < cs[i].at + cs[i].op.ttl
  {
    StoreIsLatestWrites(cs, key);
    if Lookup(StoreAfter(cs), key, now, fault) != Null {
      var i: nat :| LatestWrite(cs, key, i);
    }
  }

  /** So a look-up with computation returns what this call computed, or a value as fresh as that. */
  lemma {:induction false} AnswerIsComputedOrFresh(cs: seq<Command>, key: string, computed: Value, now: int, fault: Fault)
    requires ClockMonotonic(cs) && (cs != [] ==> cs[|cs| - 1].at <= now)
    ensures var answer := Answer(StoreAfter(cs), key, computed, now, fault);
      || answer == computed
      || exists i: nat :: LatestWrite(cs, key, i) && answer == cs[i].op.value && cs[i].at <= now < cs[i].at + cs[i].op.ttl
    ensures !fault.Fine? ==> Answer(StoreAfter(cs), key, computed, now, fault) == computed
    ensures forall i: nat :: LatestWrite(cs, key, i) && cs[i].op.value != Null && now < cs[i].at + cs[i].op.ttl ==>
      Answer(StoreAfter(cs), key, computed, now, Fine) == cs[i].op.value
  {
    BoundedStaleness(cs, key, now, fault);
    StoreIsLatestWrites(cs, key);
  }

  /** What was computed and stored is served from then on until its time-to-live is over, and not longer. */
  lemma {:induction false} ComputedIsServed(store: Store, key: string, computed: Value, ttl: int, later: int, now: int)
    requires ttl > 0
    ensures Lookup(Written(store, key, computed, ttl, later, Fine), key, now, Fine)
         == if now < later + ttl then computed else Null
  {
  }

  /** A hit needs nothing else: a live, unremoved, non-null latest write is served whenever Redis answers. */
  lemma {:induction false} LatestWriteIsServed(cs: seq<Command>, key: string, now: int, i: nat)
    requires LatestWrite(cs, key, i) && now < cs[i].at + cs[i].op.ttl
    ensures Lookup(StoreAfter(cs), key, now, Fine) == cs[i].op.value
  {
    StoreIsLatestWrites(cs, key);
  }

  /** After a delete that executed, the key misses until it is written again. */
  lemma {:induction false} DeleteTakesEffect(cs: seq<Command>, key: string, i: nat, now: int, fault: Fault)
    requires i < |cs| && cs[i].op.DelOp? && key in cs[i].op.keys && Executed(cs[i].fault)
    requires forall j :: i < j < |cs| ==> !Writes(cs[j], key)
    ensures Lookup(StoreAfter(cs), key, now, fault) == Null
  {
    StoreIsLatestWrites(cs, key);
    assert Touches(cs[i], key);
    if k: nat :| LatestWrite(cs, key, k) {
      assert false;
    }
  }

  // ----- the cached views -----

  /** What the application caches, with the identifiers that go into the key. */
  datatype View =
    | Health(merchant: string, provider: string)
    | Dashboard(merchant: string)
    | SyncStatus(merchant: string, account: string)
    | Reconciliation(merchant: string)
    | Query(merchant: string, queryType: string, hash: string)

  function Namespace(v: View): string {
    match v
    case Health(_, _) => "health"
    case Dashboard(_) => "dashboard"
    case SyncStatus(_, _) => "sync_status"
    case Reconciliation(_) => "reconciliation"
    case Query(_, _, _) => "query"
  }

  function Parts(v: View): seq<string> {
    match v
    case Health(m, p) => [m, p]
    case Dashboard(m) => [m]
    case SyncStatus(m, a) => [m, a]
    case Reconciliation(m) => [m]
    case Query(m, t, h) => [m, t, h]
  }

  function ViewKey(v: View): string {
    MakeKey(Namespace(v), Parts(v))
  }

  /** The fixed time-to-live of a view; query results choose their own. */
  function ViewTtl(v: View): Option<int> {
    match v
    case Health(_, _) => Some(PROVIDER_HEALTH_TTL)
    case Dashboard(_) => Some(DASHBOARD_TTL)
    case SyncStatus(_, _) => Some(PROVIDER_SYNC_TTL)
    case Reconciliation(_) => Some(RECONCILIATION_TTL)
    case Query(_, _, _) => None
  }

  /** Every write goes through the wrapper of some view. */
  ghost predicate ViaWrappers(cs: seq<Command>) {
    forall i :: 0 <= i < |cs| && cs[i].op.SetOp? ==>
      exists v :: ViewKey(v) == cs[i].op.key && (ViewTtl(v).Some? ==> cs[i].op.ttl == ViewTtl(v).value)
  }

  lemma NamespacesColonFree(v: View)
    ensures ColonFree(Namespace(v))
  {
  }

  lemma NamespaceFixesView(v: View, w: View)
    requires Namespace(v) == Namespace(w)
    ensures ViewTtl(v) == ViewTtl(w)
  {
    assert |Namespace(v)| == |Namespace(w)|;
    assert Namespace(v)[0] == Namespace(w)[0];
  }

  lemma NamespaceDecidesTtl(v: View, w: View)
    requires ViewKey(v) == ViewKey(w)
    ensures Namespace(v) == Namespace(w) && ViewTtl(v) == ViewTtl(w)
  {
    NamespacesColonFree(v);
    NamespacesColonFree(w);
    NamespaceOfKey(Namespace(v), Parts(v));
    NamespaceOfKey(Namespace(w), Parts(w));
    NamespaceFixesView(v, w);
  }

  /** A view's key is its namespace, a colon, and its joined identifiers. */
  lemma ViewKeyParts(v: View)
    ensures ViewKey(v) == Namespace(v) + [COLON] + Join(Parts(v))
  {
    assert ([Namespace(v)] + Parts(v))[1..] == Parts(v);
  }

  lemma JoinTwo(a: string, b: string)
    ensures Join([a, b]) == a + [COLON] + b
  {
    assert [a, b][1..] == [b];
  }

  lemma JoinThree(a: string, b: string, c: string)
    ensures Join([a, b, c]) == a + [COLON] + (b + [COLON] + c)
  {
    assert [a, b, c][1..] == [b, c];
    JoinTwo(b, c);
  }

  lemma ColonsOfTwo(n: string, a: string, b: string)
    ensures n + [COLON] + (a + [COLON] + b) == n + ":" + a + ":" + b
  {
  }

  lemma ColonsOfThree(n: string, a: string, b: string, c: string)
    ensures n + [COLON] + (a + [COLON] + (b + [COLON] + c)) == n + ":" + a + ":" + b + ":" + c
  {
  }

  /** The key texts of the views with two identifiers, and for how many seconds each is stored. */
  lemma {:induction false} TwoPartViewTexts(m: string, id: string)
    ensures ViewKey(Health(m, id)) == "health" + ":" + m + ":" + id && ViewTtl(Health(m, id)) == Some(3600)
    ensures ViewKey(SyncStatus(m, id)) == "sync_status" + ":" + m + ":" + id && ViewTtl(SyncStatus(m, id)) == Some(900)
  {
    JoinTwo(m, id);
    ViewKeyParts(Health(m, id));
    ViewKeyParts(SyncStatus(m, id));
    ColonsOfTwo("health", m, id);
    ColonsOfTwo("sync_status", m, id);
  }

  /** The same for the views of a whole merchant. */
  lemma {:induction false} MerchantViewTexts(m: string)
    ensures ViewKey(Dashboard(m)) == "dashboard" + ":" + m && ViewTtl(Dashboard(m)) == Some(300)
    ensures ViewKey(Reconciliation(m)) == "reconciliation" + ":" + m && ViewTtl(Reconciliation(m)) == Some(600)
  {
    ViewKeyParts(Dashboard(m));
    ViewKeyParts(Reconciliation(m));
  }

  /** The same for query results, whose time-to-live their caller chooses. */
  lemma {:induction false} QueryTexts(m: string, queryType: string, hash: string)
    ensures ViewKey(Query(m, queryType, hash)) == "query" + ":" + m + ":" + queryType + ":" + hash
    ensures ViewTtl(Query(m, queryType, hash)) == None
  {
    JoinThree(m, queryType, hash);
    ViewKeyParts(Query(m, queryType, hash));
    ColonsOfThree("query", m, queryType, hash);
  }

  /** Two views share a key exactly when namespace and joined identifiers agree, whatever these contain. */
  lemma ViewKeysEqualIff(v: View, w: View)
    ensures ViewKey(v) == ViewKey(w) <==> Namespace(v) == Namespace(w) && Join(Parts(v)) == Join(Parts(w))
  {
    ViewKeyParts(v);
    ViewKeyParts(w);
    if ViewKey(v) == ViewKey(w) {
      NamespaceDecidesTtl(v, w);
      var n := |Namespace(v)| + 1;
      assert ViewKey(v)[n..] == Join(Parts(v)) && ViewKey(w)[n..] == Join(Parts(w));
    }
  }

  /** So keys of different views differ as long as identifiers contain no colon. */
  lemma ViewKeysDiffer(v: View, w: View)
    requires AllColonFree(Parts(v)) && AllColonFree(Parts(w)) && ViewKey(v) == ViewKey(w)
    ensures v == w
  {
    ViewKeysEqualIff(v, w);
    SplitJoin(Parts(v));
    SplitJoin(Parts(w));
  }

  /** A cached view is never served at or beyond its own time-to-live, whatever the identifiers contain. */
  lemma {:induction false} ViewsExpireOnTime(cs: seq<Command>, v: View, now: int, fault: Fault)
    requires ClockMonotonic(cs) && (cs != [] ==> cs[|cs| - 1].at <= now)
    requires ViaWrappers(cs) && ViewTtl(v).Some?
    ensures var hit := Lookup(StoreAfter(cs), ViewKey(v), now, fault);
      hit != Null ==> exists i: nat ::
        LatestWrite(cs, ViewKey(v), i) && hit == cs[i].op.value && now - ViewTtl(v).value < cs[i].at <= now
  {
    BoundedStaleness(cs, ViewKey(v), now, fault);
    if Lookup(StoreAfter(cs), ViewKey(v), now, fault) != Null {
      var i: nat :| LatestWrite(cs, ViewKey(v), i) && Lookup(StoreAfter(cs), ViewKey(v), now, fault) == cs[i].op.value
        && cs[i].at <= now < cs[i].at + cs[i].op.ttl;
      var w :| ViewKey(w) == cs[i].op.key && (ViewTtl(w).Some? ==> cs[i].op.ttl == ViewTtl(w).value);
      NamespaceDecidesTtl(v, w);
    }
  }

  lemma OnlyHealthKeys(v: View)
    requires "health" + [COLON] <= ViewKey(v)
    ensures v.Health?
  {
    var key := ViewKey(v);
    assert key == "health" + [COLON] + key[7..];
    SplitFirst("health", key[7..]);
    NamespacesColonFree(v);
    NamespaceOfKey(Namespace(v), Parts(v));
  }

  /** Which views the health invalidator's pattern selects, whatever the identifiers contain. */
  lemma HealthPatternSelects(merchant: string, v: View)
    requires Simple(merchant)
    ensures Glob(HealthPattern(merchant), ViewKey(v))
       <==> v.Health? && Glob(merchant + [COLON] + "*", v.merchant + [COLON] + v.provider)
  {
    var prefix, rest := "health" + [COLON], merchant + [COLON] + "*";
    MakeKeyOfTwo("health", merchant, "*");
    assert HealthPattern(merchant) == prefix + rest;
    LiteralPrefix(prefix, rest, ViewKey(v));
    ViewKeyParts(v);
    if v.Health? {
      JoinTwo(v.merchant, v.provider);
      assert ViewKey(v)[|prefix|..] == v.merchant + [COLON] + v.provider;
    } else if prefix <= ViewKey(v) {
      OnlyHealthKeys(v);
    }
  }

  lemma SameBeforeColon(a: string, b: string, rest: string)
    requires ColonFree(a) && ColonFree(b)
    ensures a + [COLON] <= b + [COLON] + rest <==> a == b
  {
    var s := b + [COLON] + rest;
    assert b + [COLON] <= s;
    SplitFirst(b, rest);
    assert Split(s)[0] == b;
    if a + [COLON] <= s {
      assert s == a + [COLON] + s[|a| + 1..];
      SplitFirst(a, s[|a| + 1..]);
      assert Split(s)[0] == a;
    }
  }

  /**
   For a merchant without wildcards it selects the health views whose identifiers, joined, start
   with the merchant and a colon: without colons in merchants, exactly the merchant's own.
   */
  lemma HealthPatternIsExact(merchant: string, v: View)
    requires Literal(merchant)
    ensures Glob(HealthPattern(merchant), ViewKey(v))
       <==> v.Health? && merchant + [COLON] <= v.merchant + [COLON] + v.provider
    ensures v.Health? && ColonFree(merchant) && ColonFree(v.merchant) ==>
      (Glob(HealthPattern(merchant), ViewKey(v)) <==> v.merchant == merchant)
  {
    HealthPatternSelects(merchant, v);
    if v.Health? {
      PrefixGlob(merchant + [COLON], v.merchant + [COLON] + v.provider);
      if ColonFree(merchant) && ColonFree(v.merchant) {
        SameBeforeColon(merchant, v.merchant, v.provider);
      }
    }
  }

  /** Colons in merchant ids let one merchant's invalidation delete another's cached health. */
  lemma InvalidationHitsAnotherMerchant()
    ensures exists merchant, v: View, store ::
      && v.Health? && v.merchant != merchant && Live(store, ViewKey(v), 0)
      && ViewKey(v) !in Removed(store, Matching(store, HealthPattern(merchant), 0), Fine)
  {
    var v := Health("a:b", "p");
    var store := map[ViewKey(v) := Slot(Data("x"), 1)];
    assert "a" + [COLON] <= v.merchant + [COLON] + v.provider;
    HealthPatternIsExact("a", v);
    assert ViewKey(v) in Matching(store, HealthPattern("a"), 0);
  }
}
