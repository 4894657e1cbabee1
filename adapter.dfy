/** The adapter's entry points that touch storage: `buildRequests` reads the
    optimization cache (and, when configured, the first-party id), and
    `interpretResponse` reads the cache, merges the server's directives into
    it and writes it back. The clock and the UUID generator are parameters. */
module Adapter {
  import opened JsValues
  import opened Store
  import opened Requests
  import opened Responses

  /** Whether `readOnePlusXId` is configured on. */
  predicate ReadsOnePlusXId(config: Config)
  {
    Truthy(Some(Coalesce(config.readOnePlusXId, JBool(false))))
  }

  /** `spec.buildRequests` against the store: the cache it holds decides
      which slots are sent; the store itself is only read. */
  method BuildRequests(store: LocalStore, req: BidderRequest, config: Config, now: int, freshId: string)
    returns (r: Option<seq<Descriptor>>)
    ensures r == Requests.BuildRequests(req, config, Decode(store.optimizationsEntry),
                                        if ReadsOnePlusXId(config) then store.firstPartyId else None,
                                        now, freshId)
  {
    var opts := store.GetOptimizations();
    var fpId: Option<string> := None;
    if ReadsOnePlusXId(config) {
      fpId := store.GetFirstPartyId();
    }
    r := Requests.BuildRequests(req, config, opts, fpId, now, freshId);
  }

  /** `spec.interpretResponse` against the store: the bids it returns, and a
      read-modify-write of the cache that happens only for a valid response
      carrying an `optimizations` array. */
  method InterpretResponse(store: LocalStore, response: Value, params: Option<seq<Impression>>, now: int)
    returns (bids: seq<FormattedBid>)
    requires Interpretable(response, params)
    modifies store`optimizationsEntry
    ensures bids == InterpretBids(response, params)
    ensures !IsValidResponse(response) ==> bids == [] && store.optimizationsEntry == old(store.optimizationsEntry)
    ensures
      var updated := UpdatedCache(response, params, Decode(old(store.optimizationsEntry)), now);
      store.optimizationsEntry == if updated.Some? then Stored(updated.value) else old(store.optimizationsEntry)
  {
    if !IsValidResponse(response) {
      return [];
    }
    var directives := ResponseDirectives(response);
    if directives.Some? {
      var current := store.GetOptimizations();
      store.SetOptimizations(Merge(current, ToDirectives(directives.value), now));
    }
    bids := InterpretBids(response, params);
  }

  /** The cache round trip across two auction rounds: once a response has
      disabled an ad unit for `ttl` milliseconds, a request built at any time
      up to `now + ttl` carries no impression for it, whichever slots ask. */
  lemma DisabledSlotSkippedNextRound(response: Value, params: Option<seq<Impression>>, stored: Optimizations,
                                     now: int, adUnitCode: string, t: int, bids: seq<BidRequest>)
    requires Interpretable(response, params)
    requires UpdatedCache(response, params, stored, now).Some?
    requires
      var d := LastDirectiveFor(ToDirectives(ResponseDirectives(response).value), adUnitCode);
      d.Some? && !d.value.isEnabled && now <= t <= now + d.value.ttl
    ensures forall imp :: imp in Impressions(bids, UpdatedCache(response, params, stored, now).value, t) ==>
      imp.adUnitCode != adUnitCode
  {
    var ds := ToDirectives(ResponseDirectives(response).value);
    DirectiveSuppressesUntilExpiry(stored, ds, now, adUnitCode, t);
    SuppressedSlotDropped(bids, Merge(stored, ds, now), t, adUnitCode);
  }

  /** The directive `{adUnitCode: "X", isEnabled: false, ttl: 12000}` leaves
      a disabling record for "X" that expires 12000 milliseconds after the
      response was read, and other cached ad units keep their records. */
  lemma DirectiveRecordedForTtl(stored: Optimizations, now: int)
    ensures
      var merged := Merge(stored, [Directive("X", false, 12000)], now);
      && "X" in merged && merged["X"] == OptimizationRecord(false, now + 12000)
      && forall k :: k in stored && k != "X" ==> k in merged && merged[k] == stored[k]
  {
    var ds := [Directive("X", false, 12000)];
    assert LastDirectiveFor(ds, "X") == Some(ds[0]);
    MergeLookup(stored, ds, now, "X");
    forall k | k in stored && k != "X"
      ensures k in Merge(stored, ds, now) && Merge(stored, ds, now)[k] == stored[k]
    {
      MergeLookup(stored, ds, now, k);
    }
  }
}
