/** Response interpretation (`spec.interpretResponse`): the shape check that
    gates a server response, the merge of the server's optimization
    directives into the cache, and the formatting of server bids for the
    host framework. */
module Responses {
  import opened JsValues
  import opened Store
  import opened Requests

  const Video: string := "video"
  const DefaultTtl: int := 360

  /** `isValidResponse`: a plain object whose `body` is a plain object whose
      `bids` is an array. */
  predicate IsValidResponse(response: Value): (valid: bool)
    ensures valid <==>
      && response.JObj? && "body" in response.fields
      && response.fields["body"].JObj? && "bids" in response.fields["body"].fields
      && response.fields["body"].fields["bids"].JArr?
  {
    && response.JObj?
    && IsPlainObject(Get(response, "body"))
    && IsArray(Get(Get(response, "body").value, "bids"))
  }

  function Body(response: Value): Value
    requires IsValidResponse(response)
  {
    Get(response, "body").value
  }

  function ResponseBids(response: Value): seq<Value>
    requires IsValidResponse(response)
  {
    Get(Body(response), "bids").value.items
  }

  /** The `optimizations` list when it is an array, which is the only case
      in which the cache is touched. */
  function ResponseDirectives(response: Value): (r: Option<seq<Value>>)
    requires IsValidResponse(response)
    ensures r.Some? <==> IsArray(Get(Body(response), "optimizations"))
    ensures r.Some? ==> r.value == Get(Body(response), "optimizations").value.items
  {
    var o := Get(Body(response), "optimizations");
    if Truthy(o) && IsArray(o) then Some(o.value.items) else None
  }

  /** One entry of `optimizations`: `{adUnitCode, isEnabled, ttl}`. */
  datatype Directive = Directive(adUnitCode: string, isEnabled: bool, ttl: int)

  predicate WellFormedDirective(v: Value)
  {
    && Get(v, "adUnitCode").Some? && Get(v, "adUnitCode").value.JStr?
    && Get(v, "isEnabled").Some? && Get(v, "isEnabled").value.JBool?
    && Get(v, "ttl").Some? && Get(v, "ttl").value.JNum?
  }

  function ToDirective(v: Value): Directive
    requires WellFormedDirective(v)
  {
    Directive(Get(v, "adUnitCode").value.s, Get(v, "isEnabled").value.b, Get(v, "ttl").value.n)
  }

  function ToDirectives(vs: seq<Value>): (ds: seq<Directive>)
    requires forall i :: 0 <= i < |vs| ==> WellFormedDirective(vs[i])
    ensures |ds| == |vs|
    ensures forall i :: 0 <= i < |vs| ==> ds[i] == ToDirective(vs[i])
  {
    seq(|vs|, i requires 0 <= i < |vs| => ToDirective(vs[i]))
  }

  /** The record a directive leaves in the cache at time `now`. */
  function RecordOf(d: Directive, now: int): (r: OptimizationRecord)
    ensures r.isEnabled == d.isEnabled
    ensures r.expiresAt - now == d.ttl
    ensures r.expiresAt >= now <==> d.ttl >= 0
  {
    OptimizationRecord(d.isEnabled, now + d.ttl)
  }

  /** The `optimizations.reduce(...)` of `interpretResponse`, starting from
      the accumulator `acc` (the cache as currently stored). */
  function Merge(acc: Optimizations, ds: seq<Directive>, now: int): (r: Optimizations)
    ensures forall k :: k in acc ==> k in r
    decreases ds
  {
    if ds == [] then acc
    else Merge(acc[ds[0].adUnitCode := RecordOf(ds[0], now)], ds[1..], now)
  }

  /** The last directive of the list for an ad unit, if any: a reference
      definition of "the later entry wins". */
  function LastDirectiveFor(ds: seq<Directive>, adUnitCode: string): (r: Option<Directive>)
    ensures r.Some? ==> r.value in ds && r.value.adUnitCode == adUnitCode
    ensures r.Some? ==>
      exists i :: 0 <= i < |ds| && ds[i] == r.value
                  && forall j :: i < j < |ds| ==> ds[j].adUnitCode != adUnitCode
    ensures r.None? ==> forall i :: 0 <= i < |ds| ==> ds[i].adUnitCode != adUnitCode
  {
    if ds == [] then None
    else
      var last := ds[|ds| - 1];
      if last.adUnitCode == adUnitCode then Some(last)
      else LastDirectiveFor(ds[..|ds| - 1], adUnitCode)
  }

  lemma {:induction false} MergeSnoc(acc: Optimizations, ds: seq<Directive>, d: Directive, now: int)
    ensures Merge(acc, ds + [d], now) == Merge(acc, ds, now)[d.adUnitCode := RecordOf(d, now)]
    decreases ds
  {
    if ds == [] {
      assert ds + [d] == [d];
      assert [d][1..] == [];
    } else {
      assert (ds + [d])[0] == ds[0];
      assert (ds + [d])[1..] == ds[1..] + [d];
      MergeSnoc(acc[ds[0].adUnitCode := RecordOf(ds[0], now)], ds[1..], d, now);
    }
  }

  /** The merged cache, key by key: a listed ad unit gets the record of its
      last directive, every other key keeps its stored record, and no key is
      dropped. */
  lemma {:induction false} MergeLookup(stored: Optimizations, ds: seq<Directive>, now: int, k: string)
    ensures k in Merge(stored, ds, now) <==> k in stored || LastDirectiveFor(ds, k).Some?
    ensures LastDirectiveFor(ds, k).Some? ==>
      Merge(stored, ds, now)[k] == RecordOf(LastDirectiveFor(ds, k).value, now)
    ensures LastDirectiveFor(ds, k).None? && k in stored ==> Merge(stored, ds, now)[k] == stored[k]
  {
    if ds != [] {
      var init, last := ds[..|ds| - 1], ds[|ds| - 1];
      assert ds == init + [last];
      MergeSnoc(stored, init, last, now);
      MergeLookup(stored, init, now, k);
    }
  }

  /** A disabling directive keeps its ad unit out of every request built
      from `now` up to and including `now + ttl`, and no later. */
  lemma DirectiveSuppressesUntilExpiry(stored: Optimizations, ds: seq<Directive>, now: int, adUnitCode: string, t: int)
    requires LastDirectiveFor(ds, adUnitCode).Some?
    ensures
      var d := LastDirectiveFor(ds, adUnitCode).value;
      Suppressed(Merge(stored, ds, now), adUnitCode, t) <==> !d.isEnabled && t <= now + d.ttl
  {
    MergeLookup(stored, ds, now, adUnitCode);
  }

  /** The server's creative renderer for an outstream video bid, bound to
      the bid's id and to the ad unit it targets. */
  datatype Renderer = OutstreamRenderer(bidId: Option<Value>, adUnitCode: string)

  datatype VideoFields = VideoFields(vastXml: Option<Value>, renderer: Option<Renderer>)

  /** A bid in the host framework's format. */
  datatype FormattedBid = FormattedBid(
    requestId: Option<Value>,
    cpm: Option<Value>,
    currency: Option<Value>,
    dealId: Option<Value>,
    ttl: Value,
    netRevenue: bool,
    creativeId: Option<Value>,
    mediaType: Option<Value>,
    width: Option<Value>,
    height: Option<Value>,
    ad: Option<Value>,
    adUrl: Value,
    video: Option<VideoFields>)

  /** The nested destructuring of a server bid does not throw: the bid, its
      `price`, `ad`, `ad.creative` and `ad.creative.size` are all defined and
      not null. */
  predicate WellFormedBid(b: Value)
  {
    && Destructurable(Some(b))
    && Destructurable(Get(b, "price"))
    && Destructurable(Get(b, "ad"))
    && Destructurable(Get(Get(b, "ad").value, "creative"))
    && Destructurable(Get(Get(Get(b, "ad").value, "creative").value, "size"))
  }

  function Creative(b: Value): Value
    requires WellFormedBid(b)
  {
    Get(Get(b, "ad").value, "creative").value
  }

  predicate IsVideoBid(b: Value)
    requires WellFormedBid(b)
  {
    Get(Creative(b), "mediaType") == Some(JStr(Video))
  }

  /** `impression.id === impressionId` */
  predicate MatchesImpression(imp: Impression, impressionId: Option<Value>)
  {
    impressionId == Some(JStr(imp.id))
  }

  /** `impressions.find(...)`: the first impression whose id is the bid's
      impression id. */
  function FindImpression(imps: seq<Impression>, impressionId: Option<Value>): (r: Option<Impression>)
    ensures r.None? <==> forall i :: 0 <= i < |imps| ==> !MatchesImpression(imps[i], impressionId)
    ensures r.Some? ==>
      exists i :: 0 <= i < |imps| && imps[i] == r.value && MatchesImpression(imps[i], impressionId)
                  && forall j :: 0 <= j < i ==> !MatchesImpression(imps[j], impressionId)
  {
    if imps == [] then None
    else if MatchesImpression(imps[0], impressionId) then Some(imps[0])
    else
      var r := FindImpression(imps[1..], impressionId);
      if r.Some? then
        var i :| 0 <= i < |imps[1..]| && imps[1..][i] == r.value
          && MatchesImpression(imps[1..][i], impressionId)
          && forall j :: 0 <= j < i ==> !MatchesImpression(imps[1..][j], impressionId);
        assert imps[i + 1] == r.value;
        assert forall j :: 0 <= j < i + 1 ==> !MatchesImpression(imps[j], impressionId) by {
          forall j | 0 <= j < i + 1 ensures !MatchesImpression(imps[j], impressionId) {
            if j > 0 { assert imps[j] == imps[1..][j - 1]; }
          }
        }
        r
      else
        assert forall i :: 0 <= i < |imps| ==> !MatchesImpression(imps[i], impressionId) by {
          forall i | 0 <= i < |imps| ensures !MatchesImpression(imps[i], impressionId) {
            if i > 0 { assert imps[i] == imps[1..][i - 1]; }
          }
        }
        r
  }

  /** One server bid in the host framework's format. `params` holds the
      impressions of the auction request the host echoes back, and is only
      read for a video bid. */
  function FormatBid(b: Value, params: Option<seq<Impression>>): (r: FormattedBid)
    requires WellFormedBid(b)
    requires IsVideoBid(b) ==> params.Some?
    ensures r.requestId == Get(b, "impressionId")
    ensures r.cpm == Get(Get(b, "price").value, "cpm") && r.currency == Get(Get(b, "price").value, "currency")
    ensures r.dealId == Get(b, "dealId")
    ensures r.ttl == (if Get(b, "ttl").Some? then Get(b, "ttl").value else JNum(DefaultTtl))
    ensures r.netRevenue && r.adUrl == JNull
    ensures r.creativeId == Get(Creative(b), "id") && r.mediaType == Get(Creative(b), "mediaType")
    ensures r.ad == Get(Creative(b), "markup")
    ensures r.width == Get(Get(Creative(b), "size").value, "width")
    ensures r.height == Get(Get(Creative(b), "size").value, "height")
    ensures r.video.Some? <==> r.mediaType == Some(JStr(Video))
    ensures r.video.Some? ==> r.video.value.vastXml == r.ad
    ensures r.video.Some? ==>
      (r.video.value.renderer.Some? <==>
         exists i :: 0 <= i < |params.value| && MatchesImpression(params.value[i], r.requestId))
    ensures r.video.Some? && r.video.value.renderer.Some? ==>
      r.video.value.renderer.value.bidId == r.requestId
      && r.video.value.renderer.value.adUnitCode == FindImpression(params.value, r.requestId).value.adUnitCode
  {
    var creative := Creative(b);
    var size := Get(creative, "size").value;
    var price := Get(b, "price").value;
    var impressionId := Get(b, "impressionId");
    var markup := Get(creative, "markup");
    var video :=
      if IsVideoBid(b) then
        var imp := FindImpression(params.value, impressionId);
        Some(VideoFields(markup, if imp.Some? then Some(OutstreamRenderer(impressionId, imp.value.adUnitCode)) else None))
      else None;
    FormattedBid(
      impressionId,
      Get(price, "cpm"),
      Get(price, "currency"),
      Get(b, "dealId"),
      if Get(b, "ttl").Some? then Get(b, "ttl").value else JNum(DefaultTtl),
      true,
      Get(creative, "id"),
      Get(creative, "mediaType"),
      Get(size, "width"),
      Get(size, "height"),
      markup,
      JNull,
      video)
  }

  /** The analytics block that runs when `partners` is truthy evaluates the
      arguments of its events synchronously, before the cache is written.
      None of those evaluations throws: `params.data.ts` is read, so the
      request's data is there; a truthy `xandr` has an array of non-null
      `placements`, and when there is at least one placement, `onePlusX` is
      defined and not null (its `fpid` is read); a truthy `onePlusX` has an
      `opeaud` that is absent, null or an array (it is `concat`ed, then
      `join`ed). */
  predicate PartnersReadable(body: Value, params: Option<seq<Impression>>)
  {
    var partners := Get(body, "partners");
    Truthy(partners) ==>
      var onePlusX := Get(partners.value, "onePlusX");
      var xandr := Get(partners.value, "xandr");
      && params.Some?
      && (Truthy(xandr) ==>
            var placements := Get(xandr.value, "placements");
            && IsArray(placements)
            && (forall i :: 0 <= i < |placements.value.items| ==> !placements.value.items[i].JNull?)
            && (placements.value.items != [] ==> Destructurable(onePlusX)))
      && (Truthy(onePlusX) ==>
            var opeaud := Get(onePlusX.value, "opeaud");
            opeaud.None? || opeaud.value.JNull? || opeaud.value.JArr?)
  }

  /** The partners block can be evaluated, every server bid can be
      formatted, and every directive read. */
  predicate Interpretable(response: Value, params: Option<seq<Impression>>)
  {
    IsValidResponse(response) ==>
      && PartnersReadable(Body(response), params)
      && (forall i :: 0 <= i < |ResponseBids(response)| ==>
            WellFormedBid(ResponseBids(response)[i])
            && (IsVideoBid(ResponseBids(response)[i]) ==> params.Some?))
      && (ResponseDirectives(response).Some? ==>
            forall i :: 0 <= i < |ResponseDirectives(response).value| ==>
              WellFormedDirective(ResponseDirectives(response).value[i]))
  }

  /** The bids `interpretResponse` returns: nothing for a response that fails
      the shape check, otherwise one formatted bid per server bid, in order. */
  function InterpretBids(response: Value, params: Option<seq<Impression>>): (r: seq<FormattedBid>)
    requires Interpretable(response, params)
    ensures !IsValidResponse(response) ==> r == []
    ensures IsValidResponse(response) ==>
      |r| == |ResponseBids(response)|
      && forall i :: 0 <= i < |r| ==> r[i] == FormatBid(ResponseBids(response)[i], params)
  {
    if !IsValidResponse(response) then []
    else
      var bids := ResponseBids(response);
      seq(|bids|, i requires 0 <= i < |bids| => FormatBid(bids[i], params))
  }

  /** The cache `interpretResponse` leaves behind, given the cache it read:
      unchanged unless the response is valid and carries an `optimizations`
      array. */
  function UpdatedCache(response: Value, params: Option<seq<Impression>>, stored: Optimizations, now: int): (r: Option<Optimizations>)
    requires Interpretable(response, params)
    ensures r.Some? <==> IsValidResponse(response) && ResponseDirectives(response).Some?
  {
    if IsValidResponse(response) && ResponseDirectives(response).Some? then
      Some(Merge(stored, ToDirectives(ResponseDirectives(response).value), now))
    else None
  }

  /** A response whose `xandr` partner lists a placement while `onePlusX` is
      missing throws while the analytics arguments are evaluated, before its
      disabling directive reaches the cache: the model does not interpret
      it. */
  lemma ThrowingPartnersExcluded(params: Option<seq<Impression>>)
    ensures
      var directive := JObj(map["adUnitCode" := JStr("X"), "isEnabled" := JBool(false), "ttl" := JNum(5)]);
      var partners := JObj(map["xandr" := JObj(map["placements" := JArr([JObj(map["id" := JNum(1)])])])]);
      var response := JObj(map["body" := JObj(map["bids" := JArr([]), "partners" := partners,
                                                  "optimizations" := JArr([directive])])]);
      IsValidResponse(response) && !Interpretable(response, params)
  {
    var directive := JObj(map["adUnitCode" := JStr("X"), "isEnabled" := JBool(false), "ttl" := JNum(5)]);
    var xandr := JObj(map["placements" := JArr([JObj(map["id" := JNum(1)])])]);
    var partners := JObj(map["xandr" := xandr]);
    var body := JObj(map["bids" := JArr([]), "partners" := partners, "optimizations" := JArr([directive])]);
    var response := JObj(map["body" := body]);
    assert Get(body, "partners") == Some(partners);
    assert Get(partners, "xandr") == Some(xandr);
    assert Get(partners, "onePlusX").None?;
    assert !PartnersReadable(body, params);
  }

  /** A body that is not an object yields no bids. */
  lemma InvalidBodyYieldsNothing(params: Option<seq<Impression>>)
    ensures
      var response := JObj(map["body" := JStr("INVALID_BODY")]);
      !IsValidResponse(response) && InterpretBids(response, params) == []
  {
  }
}
