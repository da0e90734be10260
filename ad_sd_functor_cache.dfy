/**
 * The cache for automatic- and symbolic-differentiation functors.
 *
 * Expensive derivative set-up is stored in a GeneralDataStorage, a store of
 * named objects.  By default each assembly worker's scratch data stores it
 * itself; a user may instead keep a persistent AdSdFunctorCache and register
 * it with a scratch data object, after which lookups are routed to that
 * cache.  Registration inserts a reference to the user's storage and a flag
 * under two fixed names; the flag's presence decides the route.
 */
module FunctorCache {
  import opened Operands

  /** The library's name prefix for internal storage keys. */
  const DealIIPrefix: string := "__DealII__"

  /** What a named entry of a GeneralDataStorage holds. */
  datatype Entry =
    | Reference(target: GeneralDataStorage)  // add_unique_reference: the object itself, not a copy
    | BoolCopy(value: bool)                  // add_unique_copy<bool>
    | OtherObject(tag: nat)                  // anything else the scratch data stores

  /** Why a named object cannot be handed out. */
  datatype LookupError = NameNotFound(name: string) | TypeMismatch(name: string)

  datatype Result<T> = Ok(value: T) | Err(error: LookupError)

  /**
   * add_unique_* as modelled here: an entry is inserted only under a name not
   * yet in use, and a name already in use leaves the storage as it was.
   */
  function AddUnique(entries: map<string, Entry>, name: string, entry: Entry): (r: map<string, Entry>)
    ensures r.Keys == entries.Keys + {name}
    ensures forall k :: k in entries ==> r[k] == entries[k]
    ensures name !in entries ==> r[name] == entry
  {
    if name in entries then entries else entries[name := entry]
  }

  /** get_object_with_name<GeneralDataStorage>: the storage referenced under a name. */
  function LookupStorage(entries: map<string, Entry>, name: string): (r: Result<GeneralDataStorage>)
    ensures r.Ok? <==> name in entries && entries[name].Reference?
    ensures r.Ok? ==> r.value == entries[name].target
    ensures name !in entries ==> r == Err(NameNotFound(name))
  {
    if name !in entries then Err(NameNotFound(name))
    else if entries[name].Reference? then Ok(entries[name].target)
    else Err(TypeMismatch(name))
  }

  /** A store of named objects. */
  class GeneralDataStorage {
    var entries: map<string, Entry>

    constructor ()
      ensures entries == map[]
    {
      entries := map[];
    }

    predicate StoresObjectWithName(name: string)
      reads this
    {
      name in entries
    }

    method AddUniqueReference(name: string, target: GeneralDataStorage)
      modifies this
      ensures entries == AddUnique(old(entries), name, Reference(target))
    {
      entries := AddUnique(entries, name, Reference(target));
    }

    method AddUniqueCopy(name: string, value: bool)
      modifies this
      ensures entries == AddUnique(old(entries), name, BoolCopy(value))
    {
      entries := AddUnique(entries, name, BoolCopy(value));
    }

    method GetStorageWithName(name: string) returns (r: Result<GeneralDataStorage>)
      ensures r == LookupStorage(entries, name)
    {
      r := LookupStorage(entries, name);
    }
  }

  /** The per-worker scratch data, of which only its general data storage is used here. */
  class ScratchData {
    const generalDataStorage: GeneralDataStorage

    constructor ()
      ensures fresh(generalDataStorage) && generalDataStorage.entries == map[]
    {
      generalDataStorage := new GeneralDataStorage();
    }
  }

  /** The name under which a user cache is referenced. */
  function AdSdCacheName(): (r: string)
    ensures |r| >= 19 && r[|r| - 19..] == "AD_SD_Functor_Cache"
  {
    DealIIPrefix + "AD_SD_Functor_Cache"
  }

  /** The name of the flag: the cache's name followed by "_Flag", so the two never clash. */
  function AdSdCacheFlagName(): (r: string)
    ensures |r| == |AdSdCacheName()| + 5
    ensures r[..|AdSdCacheName()|] == AdSdCacheName() && r[|AdSdCacheName()|..] == "_Flag"
    ensures r != AdSdCacheName()
  {
    AdSdCacheName() + "_Flag"
  }

  /** The storage contents after `cache` is registered: the reference, then the flag, each only if absent. */
  function Registered(entries: map<string, Entry>, cache: GeneralDataStorage): (r: map<string, Entry>)
    ensures r.Keys == entries.Keys + {AdSdCacheName(), AdSdCacheFlagName()}
    ensures forall k :: k in entries ==> r[k] == entries[k]
    ensures AdSdCacheName() !in entries ==> r[AdSdCacheName()] == Reference(cache)
    ensures AdSdCacheFlagName() !in entries ==> r[AdSdCacheFlagName()] == BoolCopy(true)
  {
    AddUnique(AddUnique(entries, AdSdCacheName(), Reference(cache)), AdSdCacheFlagName(), BoolCopy(true))
  }

  /**
   * The storage the cache lookups go to, for a scratch storage `own` with
   * contents `entries`: the referenced user cache once the flag is stored,
   * the scratch storage itself otherwise.
   */
  function SelectedCache(own: GeneralDataStorage, entries: map<string, Entry>): (r: Result<GeneralDataStorage>)
    ensures AdSdCacheFlagName() !in entries ==> r == Ok(own)
    ensures AdSdCacheFlagName() in entries ==> r == LookupStorage(entries, AdSdCacheName())
  {
    if AdSdCacheFlagName() in entries then LookupStorage(entries, AdSdCacheName()) else Ok(own)
  }

  /** After registration the flag is stored and lookups reach the registered cache. */
  lemma RegisteredRoutesToUserCache(own: GeneralDataStorage, entries: map<string, Entry>, cache: GeneralDataStorage)
    requires AdSdCacheName() !in entries || entries[AdSdCacheName()] == Reference(cache)
    ensures AdSdCacheFlagName() in Registered(entries, cache)
    ensures SelectedCache(own, Registered(entries, cache)) == Ok(cache)
  {
  }

  /**
   * Under the insert-if-absent storage, registering a second time, with the
   * same cache or another one, changes nothing.
   */
  lemma RegisterIsIdempotent(entries: map<string, Entry>, first: GeneralDataStorage, second: GeneralDataStorage)
    ensures Registered(Registered(entries, first), second) == Registered(entries, first)
  {
  }

  /** The first cache registered with a scratch storage is the one lookups reach. */
  lemma FirstRegistrationWins(own: GeneralDataStorage, entries: map<string, Entry>, first: GeneralDataStorage, second: GeneralDataStorage)
    requires AdSdCacheName() !in entries
    ensures SelectedCache(own, Registered(Registered(entries, first), second)) == Ok(first)
  {
    RegisterIsIdempotent(entries, first, second);
    RegisteredRoutesToUserCache(own, entries, first);
  }

  /**
   * Persistent data for differentiation functors, kept by the user across
   * assembly loops: `queueLength` per-worker slots and one shared cache.
   */
  class AdSdFunctorCache {
    const nSourceCaches: uint32
    var sourceLock: seq<bool>
    var sourceCache: seq<GeneralDataStorage>
    const cache: GeneralDataStorage

    /** One slot, with its lock and its storage, per possible concurrent worker. */
    ghost predicate Valid()
      reads this
    {
      |sourceLock| == nSourceCaches as int && |sourceCache| == nSourceCaches as int
    }

    /** `queueLength` slots, all unlocked, each with an empty storage of its own, and an empty cache. */
    constructor (queueLength: uint32)
      ensures Valid() && nSourceCaches == queueLength
      ensures forall i :: 0 <= i < |sourceLock| ==> !sourceLock[i]
      ensures forall i :: 0 <= i < |sourceCache| ==> fresh(sourceCache[i]) && sourceCache[i].entries == map[]
      ensures forall i, j :: 0 <= i < j < |sourceCache| ==> sourceCache[i] != sourceCache[j]
      ensures fresh(cache) && cache.entries == map[] && cache !in sourceCache
    {
      var slots: seq<GeneralDataStorage> := [];
      while |slots| < queueLength as int
        invariant |slots| <= queueLength as int
        invariant forall i :: 0 <= i < |slots| ==> fresh(slots[i]) && slots[i].entries == map[]
        invariant forall i, j :: 0 <= i < j < |slots| ==> slots[i] != slots[j]
      {
        var slot := new GeneralDataStorage();
        slots := slots + [slot];
      }
      nSourceCaches := queueLength;
      sourceLock := seq(queueLength as int, _ => false);
      sourceCache := slots;
      cache := new GeneralDataStorage();
    }

    /** The number of slots the cache was built with. */
    function QueueLength(): (r: uint32)
      reads this
      ensures Valid() ==> r as int == |sourceLock| && r as int == |sourceCache|
    {
      nSourceCaches
    }

    /** Whether a user cache has been registered with the scratch data. */
    static predicate HasUserCache(scratchData: ScratchData)
      reads scratchData.generalDataStorage
      ensures !HasUserCache(scratchData) ==>
                SelectedCache(scratchData.generalDataStorage, scratchData.generalDataStorage.entries) ==
                Ok(scratchData.generalDataStorage)
    {
      scratchData.generalDataStorage.StoresObjectWithName(AdSdCacheFlagName())
    }

    /**
     * Registers a user cache with the scratch data: without one the scratch
     * data is left alone, with one its cache is referenced and flagged.
     */
    static method Initialize(scratchData: ScratchData, adSdFunctorCache: AdSdFunctorCache?)
      modifies scratchData.generalDataStorage
      ensures adSdFunctorCache == null ==> unchanged(scratchData.generalDataStorage)
      ensures adSdFunctorCache != null ==>
                scratchData.generalDataStorage.entries ==
                Registered(old(scratchData.generalDataStorage.entries), adSdFunctorCache.cache)
      ensures adSdFunctorCache != null ==> HasUserCache(scratchData)
    {
      if adSdFunctorCache == null {
        return;
      }
      var scratchCache := scratchData.generalDataStorage;
      var userCache := adSdFunctorCache.cache;
      scratchCache.AddUniqueReference(AdSdCacheName(), userCache);
      scratchCache.AddUniqueCopy(AdSdCacheFlagName(), true);
    }

    /** The storage to read cached data from: the user cache when one is registered. */
    static method GetCache(scratchData: ScratchData) returns (r: Result<GeneralDataStorage>)
      ensures r == SelectedCache(scratchData.generalDataStorage, scratchData.generalDataStorage.entries)
      ensures !HasUserCache(scratchData) ==> r == Ok(scratchData.generalDataStorage)
    {
      if HasUserCache(scratchData) {
        var scratchCache := scratchData.generalDataStorage;
        r := scratchCache.GetStorageWithName(AdSdCacheName());
      } else {
        r := Ok(scratchData.generalDataStorage);
      }
    }

    /** The storage to write results to: always the scratch data's own. */
    static method GetDestinationCache(scratchData: ScratchData) returns (r: GeneralDataStorage)
      ensures r == scratchData.generalDataStorage
    {
      r := scratchData.generalDataStorage;
    }
  }
}
