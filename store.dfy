/** The adapter's slice of the browser's local storage: the optimization
    cache under the key `media_consortium_optimizations` and the first-party
    identifier under `ope_fpid`. */
module Store {
  import opened JsValues

  /** A server directive remembered for one ad unit: whether bidding on it is
      enabled, and until when (a timestamp in milliseconds) the directive
      holds. */
  datatype OptimizationRecord = OptimizationRecord(isEnabled: bool, expiresAt: int)

  /** The cache, keyed by ad unit code. */
  type Optimizations = map<string, OptimizationRecord>

  /** What the optimization key holds: nothing (or an empty string), text
      that does not parse (or storage that throws on access), or the
      serialised cache. */
  datatype StoredEntry = Missing | Corrupt | Stored(records: Optimizations)

  /** The value `getOptimizationsFromLocalStorage` yields for a stored entry:
      it fails open to the empty cache. */
  function Decode(e: StoredEntry): (m: Optimizations)
    ensures e.Stored? ==> m == e.records
    ensures !e.Stored? ==> m == map[]
  {
    match e
    case Stored(records) => records
    case _ => map[]
  }

  class LocalStore {
    var optimizationsEntry: StoredEntry
    var firstPartyId: Option<string>

    constructor (entry: StoredEntry, fpId: Option<string>)
      ensures optimizationsEntry == entry && firstPartyId == fpId
    {
      optimizationsEntry := entry;
      firstPartyId := fpId;
    }

    /** `getOptimizationsFromLocalStorage`: the stored cache, or the empty
        cache when nothing readable is stored. */
    method GetOptimizations() returns (m: Optimizations)
      ensures optimizationsEntry.Stored? ==> m == optimizationsEntry.records
      ensures !optimizationsEntry.Stored? ==> m == map[]
    {
      if optimizationsEntry.Stored? {
        m := optimizationsEntry.records;
      } else {
        m := map[];
      }
    }

    /** `setDataInLocalStorage` of the serialised cache; the first-party
        identifier is not touched. */
    method SetOptimizations(m: Optimizations)
      modifies this`optimizationsEntry
      ensures optimizationsEntry == Stored(m)
      ensures Decode(optimizationsEntry) == m
    {
      optimizationsEntry := Stored(m);
    }

    /** `getFpIdFromLocalStorage`: the identifier, or `None` when it is absent
        or storage cannot be read. */
    method GetFirstPartyId() returns (id: Option<string>)
      ensures id == firstPartyId
    {
      id := firstPartyId;
    }
  }
}
