/** The provider cache (internal/manager/providerconfigmanager.go): a map behind a readers-writer lock,
  * read first and checked again before an initialisation. */
module ProviderCache {
  import opened Optional

  datatype KeyType = SystemManaged | Byok | Hyok

  datatype KeystoreName = DefaultKeystore | HyokKeystore

  datatype CacheKey = CacheKey(keystore: KeystoreName, provider: string, tenant: string)

  /** One initialised provider; `id` tells two of them apart. */
  datatype Entry = Entry(id: nat, expiration: nat)

  /** 24 hours in the clock's unit, seconds. */
  const DefaultLifetime: nat := 86400

  predicate Expired(e: Entry, now: nat) { e.expiration < now }

  /** NewProviderConfig */
  function NewEntry(id: nat, expiration: Option<nat>, now: nat): Entry {
    Entry(id, if expiration.Some? then expiration.value else now + DefaultLifetime)
  }

  /** The composite key of a request; the default keystore's provider comes from the catalog. */
  function KeyOf(keyType: KeyType, provider: string, tenant: Option<string>, catalog: Option<string>)
    : Option<CacheKey>
  {
    if tenant.None? then None
    else if keyType == Hyok then Some(CacheKey(HyokKeystore, provider, tenant.value))
    else if catalog.None? then None
    else Some(CacheKey(DefaultKeystore, catalog.value, tenant.value))
  }

  /** Two requests share an entry exactly when they are of one tenant and both use its default
    * keystore, or both bring a key of the same provider. */
  lemma SharedEntryIff(k1: KeyType, p1: string, t1: string, k2: KeyType, p2: string, t2: string, catalog: string)
    ensures KeyOf(k1, p1, Some(t1), Some(catalog)) == KeyOf(k2, p2, Some(t2), Some(catalog)) <==>
      t1 == t2 && (k1 == Hyok <==> k2 == Hyok) && (k1 == Hyok ==> p1 == p2)
  {
  }

  /** What the initialisation of a provider comes to. */
  datatype Answer = Unavailable | Available(expiration: Option<nat>)

  // ---- one caller ----

  datatype Served = Served(cache: map<CacheKey, Entry>, entry: Option<Entry>, built: bool)

  /** Behind the write lock: the second check at `checked`, the new entry at `now`. */
  function Serve(cache: map<CacheKey, Entry>, key: CacheKey, checked: nat, now: nat, id: nat, answer: Answer): Served {
    if key in cache && !Expired(cache[key], checked) then Served(cache, Some(cache[key]), false)
    else if answer.Unavailable? then Served(cache, None, false)
    else
      var e := NewEntry(id, answer.expiration, now);
      Served(cache[key := e], Some(e), true)
  }

  /** An entry built without an expiration of its own is served for exactly 24 hours. */
  lemma DefaultLifetimeIsADay(cache: map<CacheKey, Entry>, key: CacheKey, checked: nat, now: nat, id: nat,
                              later: nat, other: nat, answer: Answer)
    requires Serve(cache, key, checked, now, id, Available(None)).built
    ensures var s := Serve(cache, key, checked, now, id, Available(None));
      var again := Serve(s.cache, key, later, later, other, answer);
      again.entry == s.entry && !again.built <==> later <= now + 24 * 60 * 60
  {
  }

  class ProviderConfigManager {
    var providers: map<CacheKey, Entry>

    constructor (providers: map<CacheKey, Entry>)
      ensures this.providers == providers
    {
      this.providers := providers;
    }

    /** GetOrInitProvider: `meanwhile` is the map as other callers left it when the write lock was
      * free, and the clock is read at the two checks and for the new entry. */
    method GetOrInitProvider(keyType: KeyType, provider: string, tenant: Option<string>, catalog: Option<string>,
                             first: nat, meanwhile: map<CacheKey, Entry>, second: nat, now: nat,
                             id: nat, answer: Answer)
      returns (entry: Option<Entry>)
      requires first <= second <= now
      modifies this
      ensures var key := KeyOf(keyType, provider, tenant, catalog);
        if key.None? then entry.None? && providers == old(providers)
        else if key.value in old(providers) && !Expired(old(providers)[key.value], first) then
          entry == Some(old(providers)[key.value]) && providers == old(providers)
        else
          var s := Serve(meanwhile, key.value, second, now, id, answer); providers == s.cache && entry == s.entry
      ensures entry.Some? && Expired(entry.value, first) ==>
        answer.Available? && answer.expiration.Some? && answer.expiration.value < first
    {
      var key := KeyOf(keyType, provider, tenant, catalog);
      if key.None? { return None; }
      var k := key.value;
      if k in providers && !Expired(providers[k], first) { return Some(providers[k]); }
      providers := meanwhile;
      if k in providers && !Expired(providers[k], second) { return Some(providers[k]); }
      if answer.Unavailable? { return None; }
      var e := NewEntry(id, answer.expiration, now);
      providers := providers[k := e];
      return Some(e);
    }
  }

  // ---- any number of callers at once ----

  datatype Pc =
    | AtRLock
    | AtRead
    | AtRUnlock(found: Option<Entry>)
    | AtCheck(found: Option<Entry>)
    | AtLock
    | AtRecheck
    | AtInit(checked: nat)
    | AtUnlock(result: Pc)
    | Returned(entry: Entry, checked: nat, built: bool)
    | Failed

  datatype Caller = Caller(key: CacheKey, pc: Pc)

  /** A finished initialisation: the time of its second check and what it stored. */
  datatype Init = Init(key: CacheKey, checked: nat, entry: Option<Entry>)

  datatype World = World(
    now: nat, cache: map<CacheKey, Entry>, readers: set<nat>, writer: Option<nat>,
    callers: map<nat, Caller>, log: seq<Init>)

  datatype Step = Tick(seconds: nat) | Enter(caller: nat, key: CacheKey) | Advance(caller: nat, answer: Answer)

  function Put(w: World, c: nat, pc: Pc): World
    requires c in w.callers
  {
    w.(callers := w.callers[c := w.callers[c].(pc := pc)])
  }

  /** The next access of caller `c`; a lock that is not free leaves the caller where it is. */
  function Advanced(w: World, c: nat, answer: Answer): World
    requires c in w.callers
  {
    var k := w.callers[c].key;
    match w.callers[c].pc
    case AtRLock => if w.writer.Some? then w else Put(w, c, AtRead).(readers := w.readers + {c})
    case AtRead => Put(w, c, AtRUnlock(if k in w.cache then Some(w.cache[k]) else None))
    case AtRUnlock(found) => Put(w, c, AtCheck(found)).(readers := w.readers - {c})
    case AtCheck(found) =>
      if found.Some? && !Expired(found.value, w.now) then Put(w, c, Returned(found.value, w.now, false))
      else Put(w, c, AtLock)
    case AtLock =>
      if w.writer.Some? || w.readers != {} then w else Put(w, c, AtRecheck).(writer := Some(c))
    case AtRecheck =>
      if k in w.cache && !Expired(w.cache[k], w.now) then Put(w, c, AtUnlock(Returned(w.cache[k], w.now, false)))
      else Put(w, c, AtInit(w.now))
    case AtInit(checked) =>
      if answer.Unavailable? then Put(w, c, AtUnlock(Failed)).(log := w.log + [Init(k, checked, None)])
      else
        var e := NewEntry(|w.log|, answer.expiration, w.now);
        Put(w, c, AtUnlock(Returned(e, checked, true)))
          .(cache := w.cache[k := e], log := w.log + [Init(k, checked, Some(e))])
    case AtUnlock(result) => Put(w, c, result).(writer := None)
    case Returned(_, _, _) => w
    case Failed => w
  }

  function Next(w: World, step: Step): World {
    match step
    case Tick(seconds) => w.(now := w.now + seconds)
    case Enter(c, key) =>
      if c in w.callers && !w.callers[c].pc.Returned? && !w.callers[c].pc.Failed? then w
      else w.(callers := w.callers[c := Caller(key, AtRLock)])
    case Advance(c, answer) => if c in w.callers then Advanced(w, c, answer) else w
  }

  function Run(w: World, steps: seq<Step>): World
    decreases |steps|
  {
    if steps == [] then w else Run(Next(w, steps[0]), steps[1..])
  }

  predicate Reading(pc: Pc) { pc.AtRead? || pc.AtRUnlock? }

  predicate Writing(pc: Pc) { pc.AtRecheck? || pc.AtInit? || pc.AtUnlock? }

  /** Some initialisation of `key` stored `e`. */
  predicate Logged(log: seq<Init>, key: CacheKey, e: Entry) {
    exists i :: 0 <= i < |log| && log[i].key == key && log[i].entry == Some(e)
  }

  /** Every entry stored for `key` had expired at time `t`. */
  predicate AllExpiredAt(log: seq<Init>, key: CacheKey, t: nat) {
    forall i :: 0 <= i < |log| && log[i].key == key && log[i].entry.Some? ==> log[i].entry.value.expiration < t
  }

  predicate ResultOk(w: World, key: CacheKey, pc: Pc) {
    match pc
    case Returned(e, checked, built) =>
      && Logged(w.log, key, e) && checked <= w.now
      && if built then exists i :: 0 <= i < |w.log| && w.log[i] == Init(key, checked, Some(e))
         else !Expired(e, checked)
    case Failed => true
    case _ => false
  }

  predicate CallerOk(w: World, c: nat)
    requires c in w.callers
  {
    var k, pc := w.callers[c].key, w.callers[c].pc;
    && (c in w.readers <==> Reading(pc))
    && (w.writer == Some(c) <==> Writing(pc))
    && (pc.AtRUnlock? && pc.found.Some? ==> Logged(w.log, k, pc.found.value))
    && (pc.AtCheck? && pc.found.Some? ==> Logged(w.log, k, pc.found.value))
    && (pc.AtInit? ==> pc.checked <= w.now && AllExpiredAt(w.log, k, pc.checked))
    && (pc.AtUnlock? ==> ResultOk(w, k, pc.result))
    && (pc.Returned? ==> ResultOk(w, k, pc))
  }

  predicate LogOk(log: seq<Init>) {
    forall i, j :: 0 <= i < j < |log| && log[i].key == log[j].key && log[i].entry.Some? ==>
      log[i].entry.value.expiration < log[j].checked
  }

  ghost predicate Inv(w: World) {
    && (w.writer.Some? ==> w.readers == {} && w.writer.value in w.callers)
    && w.readers <= w.callers.Keys
    && LogOk(w.log)
    && (forall k :: k in w.cache ==> Logged(w.log, k, w.cache[k]))
    && (forall i :: 0 <= i < |w.log| && w.log[i].entry.Some? ==>
          && w.log[i].key in w.cache
          && (w.log[i].entry.value == w.cache[w.log[i].key] || w.log[i].entry.value.expiration < w.now))
    && (forall c :: c in w.callers ==> CallerOk(w, c))
  }

  lemma LogGrows(log: seq<Init>, init: Init, key: CacheKey, e: Entry)
    requires Logged(log, key, e)
    ensures Logged(log + [init], key, e)
  {
    var i :| 0 <= i < |log| && log[i].key == key && log[i].entry == Some(e);
    assert (log + [init])[i] == log[i];
  }

  lemma ResultKept(w: World, w': World, init: Init, key: CacheKey, pc: Pc)
    requires ResultOk(w, key, pc) && w.now <= w'.now && (w'.log == w.log || w'.log == w.log + [init])
    ensures ResultOk(w', key, pc)
  {
    if pc.Returned? && w'.log != w.log {
      LogGrows(w.log, init, key, pc.entry);
      if pc.built {
        var i :| 0 <= i < |w.log| && w.log[i] == Init(key, pc.checked, Some(pc.entry));
        assert w'.log[i] == w.log[i];
      }
    }
  }

  /** A step of one caller that leaves the cache and the log alone. */
  lemma OnlyCallerMoved(w: World, w': World, c: nat)
    requires Inv(w) && c in w.callers && c in w'.callers
    requires w'.now == w.now && w'.cache == w.cache && w'.log == w.log
    requires w'.callers.Keys == w.callers.Keys
    requires forall d :: d in w.callers && d != c ==> w'.callers[d] == w.callers[d]
    requires forall d :: d != c ==>
      (d in w'.readers <==> d in w.readers) && (w'.writer == Some(d) <==> w.writer == Some(d))
    requires CallerOk(w', c) && (w'.writer.Some? ==> w'.readers == {})
    ensures Inv(w')
  {
    forall d | d in w'.callers ensures CallerOk(w', d) {
      if d != c {
        assert CallerOk(w, d);
        var k, pc := w.callers[d].key, w.callers[d].pc;
        if pc.AtUnlock? { ResultKept(w, w', Init(k, 0, None), k, pc.result); }
        if pc.Returned? { ResultKept(w, w', Init(k, 0, None), k, pc); }
      }
    }
  }

  lemma TickKeepsInv(w: World, seconds: nat)
    requires Inv(w)
    ensures Inv(Next(w, Tick(seconds)))
  {
    var w' := Next(w, Tick(seconds));
    forall d | d in w'.callers ensures CallerOk(w', d) {
      assert CallerOk(w, d);
      var k, pc := w.callers[d].key, w.callers[d].pc;
      if pc.AtUnlock? { ResultKept(w, w', Init(k, 0, None), k, pc.result); }
      if pc.Returned? { ResultKept(w, w', Init(k, 0, None), k, pc); }
    }
  }

  lemma EnterKeepsInv(w: World, c: nat, key: CacheKey)
    requires Inv(w)
    ensures Inv(Next(w, Enter(c, key)))
  {
    var w' := Next(w, Enter(c, key));
    if w' != w {
      assert c !in w.readers && w.writer != Some(c) by { if c in w.callers { assert CallerOk(w, c); } }
      forall d | d in w'.callers ensures CallerOk(w', d) {
        if d != c {
          assert CallerOk(w, d);
          var k, pc := w.callers[d].key, w.callers[d].pc;
          if pc.AtUnlock? { ResultKept(w, w', Init(k, 0, None), k, pc.result); }
          if pc.Returned? { ResultKept(w, w', Init(k, 0, None), k, pc); }
        }
      }
    }
  }

  /** The log and the cache after an initialisation. */
  ghost predicate Stored(w: World, w': World, k: CacheKey, init: Init) {
    && w'.now == w.now && w'.log == w.log + [init] && init.key == k
    && w'.cache == if init.entry.Some? then w.cache[k := init.entry.value] else w.cache
  }

  lemma StoredKeepsTables(w: World, w': World, k: CacheKey, init: Init)
    requires Inv(w) && Stored(w, w', k, init) && init.checked <= w.now && AllExpiredAt(w.log, k, init.checked)
    ensures LogOk(w'.log)
    ensures forall key :: key in w'.cache ==> Logged(w'.log, key, w'.cache[key])
    ensures forall i :: 0 <= i < |w'.log| && w'.log[i].entry.Some? ==>
      && w'.log[i].key in w'.cache
      && (w'.log[i].entry.value == w'.cache[w'.log[i].key] || w'.log[i].entry.value.expiration < w'.now)
  {
    assert w'.log[|w.log|] == init && forall i :: 0 <= i < |w.log| ==> w'.log[i] == w.log[i];
    forall key | key in w'.cache ensures Logged(w'.log, key, w'.cache[key]) {
      if key != k || init.entry.None? { LogGrows(w.log, init, key, w.cache[key]); }
    }
  }

  lemma StoredKeepsCaller(w: World, w': World, c: nat, k: CacheKey, init: Init, d: nat)
    requires Inv(w) && Stored(w, w', k, init) && w.writer == Some(c) && w'.writer == w.writer && w'.readers == w.readers
    requires d in w.callers && d in w'.callers && d != c && w'.callers[d] == w.callers[d]
    ensures CallerOk(w', d)
  {
    assert CallerOk(w, d);
    var key, pc := w.callers[d].key, w.callers[d].pc;
    if pc.AtCheck? && pc.found.Some? { LogGrows(w.log, init, key, pc.found.value); }
    if pc.Returned? { ResultKept(w, w', init, key, pc); }
  }

  lemma InitKeepsInv(w: World, c: nat, answer: Answer)
    requires Inv(w) && c in w.callers && w.callers[c].pc.AtInit?
    ensures Inv(Advanced(w, c, answer))
  {
    var w', k := Advanced(w, c, answer), w.callers[c].key;
    var init := w'.log[|w.log|];
    assert CallerOk(w, c);
    assert Stored(w, w', k, init);
    StoredKeepsTables(w, w', k, init);
    assert CallerOk(w', c);
    forall d | d in w'.callers && d != c ensures CallerOk(w', d) { StoredKeepsCaller(w, w', c, k, init, d); }
  }

  lemma ReadSideKeepsInv(w: World, c: nat, answer: Answer)
    requires Inv(w) && c in w.callers
    requires var pc := w.callers[c].pc; pc.AtRLock? || pc.AtRead? || pc.AtRUnlock? || pc.AtCheck?
    ensures Inv(Advanced(w, c, answer))
  {
    assert CallerOk(w, c);
    if Advanced(w, c, answer) != w { OnlyCallerMoved(w, Advanced(w, c, answer), c); }
  }

  lemma WriteSideKeepsInv(w: World, c: nat, answer: Answer)
    requires Inv(w) && c in w.callers
    requires var pc := w.callers[c].pc; pc.AtLock? || pc.AtRecheck? || pc.AtUnlock?
    ensures Inv(Advanced(w, c, answer))
  {
    assert CallerOk(w, c);
    if Advanced(w, c, answer) != w { OnlyCallerMoved(w, Advanced(w, c, answer), c); }
  }

  lemma AdvanceKeepsInv(w: World, c: nat, answer: Answer)
    requires Inv(w) && c in w.callers
    ensures Inv(Advanced(w, c, answer))
  {
    match w.callers[c].pc
    case AtRLock => ReadSideKeepsInv(w, c, answer);
    case AtRead => ReadSideKeepsInv(w, c, answer);
    case AtRUnlock(_) => ReadSideKeepsInv(w, c, answer);
    case AtCheck(_) => ReadSideKeepsInv(w, c, answer);
    case AtLock => WriteSideKeepsInv(w, c, answer);
    case AtRecheck => WriteSideKeepsInv(w, c, answer);
    case AtInit(_) => InitKeepsInv(w, c, answer);
    case AtUnlock(_) => WriteSideKeepsInv(w, c, answer);
    case Returned(_, _, _) =>
    case Failed =>
  }

  lemma {:induction false} RunKeepsInv(w: World, steps: seq<Step>)
    requires Inv(w)
    ensures Inv(Run(w, steps))
    decreases |steps|
  {
    if steps != [] {
      match steps[0] {
        case Tick(seconds) => TickKeepsInv(w, seconds);
        case Enter(c, key) => EnterKeepsInv(w, c, key);
        case Advance(c, answer) => if c in w.callers { AdvanceKeepsInv(w, c, answer); }
      }
      RunKeepsInv(Next(w, steps[0]), steps[1..]);
    }
  }

  /** No caller yet. The map may be filled from the start: the log then lists its entries, once each. */
  ghost predicate Fresh(w: World) {
    && w.readers == {} && w.writer.None? && w.callers == map[]
    && (forall i :: 0 <= i < |w.log| ==>
          w.log[i].key in w.cache && w.log[i] == Init(w.log[i].key, 0, Some(w.cache[w.log[i].key])))
    && (forall i, j :: 0 <= i < j < |w.log| ==> w.log[i].key != w.log[j].key)
    && (forall k :: k in w.cache ==> exists i :: 0 <= i < |w.log| && w.log[i].key == k)
  }

  lemma FreshIsInv(w: World)
    requires Fresh(w)
    ensures Inv(w)
  {
    forall k | k in w.cache ensures Logged(w.log, k, w.cache[k]) {
      var i :| 0 <= i < |w.log| && w.log[i].key == k;
      assert w.log[i].entry == Some(w.cache[k]);
    }
  }

  /** At most one initialisation while an entry is unexpired: whenever a provider is initialised, every
    * entry that was ever stored for its key had expired by the second check. */
  lemma OneInitialisationPerLifetime(w: World, steps: seq<Step>, i: nat, j: nat)
    requires Fresh(w)
    requires var log := Run(w, steps).log; i < j < |log| && log[i].key == log[j].key && log[i].entry.Some?
    ensures var log := Run(w, steps).log; Expired(log[i].entry.value, log[j].checked)
  {
    FreshIsInv(w);
    RunKeepsInv(w, steps);
  }

  /** A caller that returns without error got an entry of its own key, and either the entry was
    * unexpired when the caller checked it or the caller built and stored it itself. */
  lemma ReturnedEntryIsGood(w: World, steps: seq<Step>, c: nat)
    requires Fresh(w)
    requires c in Run(w, steps).callers && Run(w, steps).callers[c].pc.Returned?
    ensures var w' := Run(w, steps); var key, pc := w'.callers[c].key, w'.callers[c].pc;
      && (exists i :: 0 <= i < |w'.log| && w'.log[i].key == key && w'.log[i].entry == Some(pc.entry))
      && (|| !Expired(pc.entry, pc.checked)
          || exists i :: 0 <= i < |w'.log| && w'.log[i] == Init(key, pc.checked, Some(pc.entry)))
  {
    FreshIsInv(w);
    RunKeepsInv(w, steps);
    assert CallerOk(Run(w, steps), c);
  }

  /** The map is never read and written at the same time, and has one writer at most. */
  lemma NoDataRace(w: World, steps: seq<Step>, c: nat, d: nat)
    requires Fresh(w)
    requires var w' := Run(w, steps); c in w'.callers && d in w'.callers && c != d && Writing(w'.callers[c].pc)
    ensures var w' := Run(w, steps); !Reading(w'.callers[d].pc) && !Writing(w'.callers[d].pc)
  {
    FreshIsInv(w);
    RunKeepsInv(w, steps);
    assert CallerOk(Run(w, steps), c) && CallerOk(Run(w, steps), d);
  }

  // ---- an undisturbed caller ----

  function Alone(w: World, c: nat, answer: Answer, n: nat): World
    requires c in w.callers
    decreases n
  {
    if n == 0 then w else Alone(Advanced(w, c, answer), c, answer, n - 1)
  }

  lemma AloneReads(w: World, c: nat, answer: Answer)
    requires c in w.callers && w.callers[c].pc.AtRLock? && w.readers == {} && w.writer.None?
    ensures var k := w.callers[c].key;
      Alone(w, c, answer, 4)
        == Put(w, c, if k in w.cache && !Expired(w.cache[k], w.now) then Returned(w.cache[k], w.now, false) else AtLock)
  {
    var w1 := Advanced(w, c, answer);
    var w2 := Advanced(w1, c, answer);
    var w3 := Advanced(w2, c, answer);
    var w4 := Advanced(w3, c, answer);
    assert Alone(w, c, answer, 4) == Alone(w1, c, answer, 3) == Alone(w2, c, answer, 2);
    assert Alone(w2, c, answer, 2) == Alone(w3, c, answer, 1) == Alone(w4, c, answer, 0);
    assert w3.readers == w.readers;
  }

  /** Behind the free write lock a caller does what `Serve` says. */
  lemma AloneServes(w: World, c: nat, answer: Answer)
    requires c in w.callers && w.callers[c].pc.AtLock? && w.readers == {} && w.writer.None?
    ensures var s := Serve(w.cache, w.callers[c].key, w.now, w.now, |w.log|, answer); var w' := Alone(w, c, answer, 4);
      && w'.cache == s.cache && w'.writer.None? && w'.readers == {} && c in w'.callers
      && w'.callers[c].pc == if s.entry.Some? then Returned(s.entry.value, w.now, s.built) else Failed
  {
    var w1 := Advanced(w, c, answer);
    var w2 := Advanced(w1, c, answer);
    var w3 := Advanced(w2, c, answer);
    var w4 := Advanced(w3, c, answer);
    assert Alone(w, c, answer, 4) == Alone(w1, c, answer, 3) == Alone(w2, c, answer, 2);
    assert Alone(w2, c, answer, 2) == Alone(w3, c, answer, 1) == Alone(w4, c, answer, 0);
  }
}
