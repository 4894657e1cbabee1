/** Request building (`spec.buildRequests`): cached optimizations and the
    outstream-only video rule filter the auction's slots into impressions,
    which are sent as a GET to the sync endpoint followed by a POST to the
    auction endpoint. */
module Requests {
  import opened JsValues
  import opened Store

  const SyncEndpoint: string := "https://relay.hubvisor.io/v1/sync/big"
  const AuctionEndpoint: string := "https://relay.hubvisor.io/v1/auction/big"
  const Outstream: string := "outstream"
  const AuctionTimeout: int := 3600
  const OnePlusXIdKey: string := "1plusX"

  /** One ad slot of the auction, as the host framework hands it over. */
  datatype BidRequest = BidRequest(bidId: string, adUnitCode: string, mediaTypes: map<string, Value>)

  /** The projection of a surviving slot that is sent to the server. */
  datatype Impression = Impression(id: string, adUnitCode: string, mediaTypes: map<string, Value>)

  datatype GdprConsent = GdprConsent(gdprApplies: Option<bool>, consentString: Option<string>)

  /** The auction round: its id (absent or null is `None`), its slots, the
      consent block if any, and the `ortb2` device and site descriptors. */
  datatype BidderRequest = BidderRequest(
    auctionId: Option<string>,
    bids: seq<BidRequest>,
    gdprConsent: Option<GdprConsent>,
    device: Option<Value>,
    site: Option<Value>)

  /** The host configuration values `useProfileApi` and `readOnePlusXId`. */
  datatype Config = Config(useProfileApi: Option<Value>, readOnePlusXId: Option<Value>)

  datatype Payload =
    | SyncData(gdpr: bool, adUnitCodes: string, gdprConsent: Option<string>)
    | AuctionData(
        id: string,
        impressions: seq<Impression>,
        device: Option<Value>,
        site: Option<Value>,
        userIds: map<string, string>,
        gdprApplies: bool,
        consentString: Option<string>,
        timeout: int,
        useProfileApi: Value)

  datatype Descriptor = Descriptor(verb: string, url: string, data: Payload)

  /** `spec.isBidRequestValid`: every slot is accepted. */
  function IsBidRequestValid(bid: BidRequest): (valid: bool)
    ensures valid
  {
    true
  }

  /** A live, disabling record for the ad unit: it is still in force at the
      very millisecond it expires. */
  predicate Suppressed(opts: Optimizations, adUnitCode: string, now: int): (suppressed: bool)
    ensures adUnitCode !in opts ==> !suppressed
    ensures adUnitCode in opts && opts[adUnitCode].isEnabled ==> !suppressed
    ensures adUnitCode in opts && opts[adUnitCode].expiresAt < now ==> !suppressed
    ensures adUnitCode in opts && !opts[adUnitCode].isEnabled && opts[adUnitCode].expiresAt >= now ==> suppressed
  {
    adUnitCode in opts && opts[adUnitCode].expiresAt >= now && !opts[adUnitCode].isEnabled
  }

  /** The slot asks for video, and not for outstream video. */
  predicate HasNonOutstreamVideo(mediaTypes: map<string, Value>): (narrowed: bool)
    ensures "video" !in mediaTypes ==> !narrowed
    ensures "video" in mediaTypes && !Truthy(Some(mediaTypes["video"])) ==> !narrowed
    ensures "video" in mediaTypes && Get(mediaTypes["video"], "context") == Some(JStr(Outstream)) ==> !narrowed
    ensures ("video" in mediaTypes && Truthy(Some(mediaTypes["video"]))
             && Get(mediaTypes["video"], "context") != Some(JStr(Outstream))) ==> narrowed
  {
    "video" in mediaTypes
    && Truthy(Some(mediaTypes["video"]))
    && Get(mediaTypes["video"], "context") != Some(JStr(Outstream))
  }

  /** The media types of a slot once unsupported video is taken out, or
      `None` when nothing is left to bid on. */
  function NarrowMediaTypes(mediaTypes: map<string, Value>): (r: Option<map<string, Value>>)
    ensures r.None? <==> HasNonOutstreamVideo(mediaTypes) && mediaTypes.Keys == {"video"}
    ensures r.Some? ==> !HasNonOutstreamVideo(r.value)
    ensures r.Some? && !HasNonOutstreamVideo(mediaTypes) ==> r.value == mediaTypes
    ensures r.Some? && HasNonOutstreamVideo(mediaTypes) ==>
      r.value.Keys == mediaTypes.Keys - {"video"} && r.value.Keys != {}
    ensures r.Some? ==> forall k :: k in r.value ==> k in mediaTypes && r.value[k] == mediaTypes[k]
  {
    if !HasNonOutstreamVideo(mediaTypes) then Some(mediaTypes)
    else if |mediaTypes.Keys| > 1 then
      assert mediaTypes.Keys != {"video"};
      var rest := mediaTypes - {"video"};
      assert rest.Keys == mediaTypes.Keys - {"video"};
      assert rest.Keys != {} by {
        var k :| k in mediaTypes.Keys && k != "video";
        assert k in rest.Keys;
      }
      Some(rest)
    else
      assert mediaTypes.Keys == {"video"} by {
        assert "video" in mediaTypes.Keys;
        SingletonSet(mediaTypes.Keys, "video");
      }
      None
  }

  lemma SingletonSet(s: set<string>, x: string)
    requires x in s && |s| <= 1
    ensures s == {x}
  {
    if y :| y in s && y != x {
      assert {x, y} <= s;
      assert |{x, y}| == 2;
      SubsetCardinality({x, y}, s);
    }
  }

  lemma SubsetCardinality(a: set<string>, b: set<string>)
    requires a <= b
    ensures |a| <= |b|
  {
    assert b == a + (b - a);
  }

  /** What one slot contributes to the impressions: nothing when it is
      suppressed or left without media types, otherwise its projection. */
  function ImpressionFor(bid: BidRequest, opts: Optimizations, now: int): (r: Option<Impression>)
    ensures r.None? <==>
      Suppressed(opts, bid.adUnitCode, now) || NarrowMediaTypes(bid.mediaTypes).None?
    ensures r.Some? ==>
      r.value == Impression(bid.bidId, bid.adUnitCode, NarrowMediaTypes(bid.mediaTypes).value)
  {
    if Suppressed(opts, bid.adUnitCode, now) then None
    else
      match NarrowMediaTypes(bid.mediaTypes)
      case None => None
      case Some(mediaTypes) => Some(Impression(bid.bidId, bid.adUnitCode, mediaTypes))
  }

  function Contribution(bid: BidRequest, opts: Optimizations, now: int): seq<Impression>
  {
    match ImpressionFor(bid, opts, now)
    case None => []
    case Some(imp) => [imp]
  }

  /** The `bids.reduce(...)` of `buildRequests`: the surviving slots'
      impressions, in input order. */
  function Impressions(bids: seq<BidRequest>, opts: Optimizations, now: int): (r: seq<Impression>)
    ensures |r| <= |bids|
  {
    if bids == [] then []
    else Contribution(bids[0], opts, now) + Impressions(bids[1..], opts, now)
  }

  /** Building impressions distributes over concatenation of the slot list,
      so each slot's impression keeps its place relative to the others. */
  lemma {:induction false} ImpressionsAppend(a: seq<BidRequest>, b: seq<BidRequest>, opts: Optimizations, now: int)
    ensures Impressions(a + b, opts, now) == Impressions(a, opts, now) + Impressions(b, opts, now)
  {
    if a == [] {
      assert a + b == b;
    } else {
      assert (a + b)[0] == a[0];
      assert (a + b)[1..] == a[1..] + b;
      ImpressionsAppend(a[1..], b, opts, now);
    }
  }

  /** An impression is built exactly for the slots that survive both rules. */
  lemma {:induction false} ImpressionsMembership(bids: seq<BidRequest>, opts: Optimizations, now: int, imp: Impression)
    ensures imp in Impressions(bids, opts, now) <==>
      exists i :: 0 <= i < |bids| && ImpressionFor(bids[i], opts, now) == Some(imp)
  {
    if bids != [] {
      ImpressionsMembership(bids[1..], opts, now, imp);
      if imp in Impressions(bids[1..], opts, now) {
        var j :| 0 <= j < |bids[1..]| && ImpressionFor(bids[1..][j], opts, now) == Some(imp);
        assert ImpressionFor(bids[j + 1], opts, now) == Some(imp);
      }
      if i :| 0 <= i < |bids| && ImpressionFor(bids[i], opts, now) == Some(imp) {
        if i > 0 {
          assert ImpressionFor(bids[1..][i - 1], opts, now) == Some(imp);
        }
      }
    }
  }

  /** Suppression rule: no impression is built for an ad unit that has a
      live, disabling record. */
  lemma {:induction false} SuppressedSlotDropped(bids: seq<BidRequest>, opts: Optimizations, now: int, adUnitCode: string)
    requires Suppressed(opts, adUnitCode, now)
    ensures forall imp :: imp in Impressions(bids, opts, now) ==> imp.adUnitCode != adUnitCode
  {
    if bids != [] {
      SuppressedSlotDropped(bids[1..], opts, now, adUnitCode);
    }
  }

  /** A slot whose ad unit is not suppressed and whose media types survive
      the video rule is always sent, with its own id and code. */
  lemma SurvivingSlotKept(bids: seq<BidRequest>, opts: Optimizations, now: int, i: int)
    requires 0 <= i < |bids|
    requires !Suppressed(opts, bids[i].adUnitCode, now)
    requires NarrowMediaTypes(bids[i].mediaTypes).Some?
    ensures Impression(bids[i].bidId, bids[i].adUnitCode, NarrowMediaTypes(bids[i].mediaTypes).value)
      in Impressions(bids, opts, now)
  {
    ImpressionsMembership(bids, opts, now,
      Impression(bids[i].bidId, bids[i].adUnitCode, NarrowMediaTypes(bids[i].mediaTypes).value));
  }

  /** The boundary of the suppression rule: a disabling record that expires
      now still drops the slot, one that expired a millisecond ago does not,
      and an enabling record never does. */
  lemma SuppressionBoundary(bid: BidRequest, now: int)
    requires NarrowMediaTypes(bid.mediaTypes).Some?
    ensures Impressions([bid], map[bid.adUnitCode := OptimizationRecord(false, now)], now) == []
    ensures |Impressions([bid], map[bid.adUnitCode := OptimizationRecord(false, now - 1)], now)| == 1
    ensures forall t :: |Impressions([bid], map[bid.adUnitCode := OptimizationRecord(true, t)], now)| == 1
  {
    assert [bid][1..] == [];
  }

  /** The direct projection of a slot, with its media types untouched. */
  function Project(bid: BidRequest): Impression
  {
    Impression(bid.bidId, bid.adUnitCode, bid.mediaTypes)
  }

  /** Without live disabling records and without non-outstream video, the
      impressions are exactly the slots projected one by one, in order. */
  lemma {:induction false} UnfilteredIsProjection(bids: seq<BidRequest>, opts: Optimizations, now: int)
    requires forall i :: 0 <= i < |bids| ==> !Suppressed(opts, bids[i].adUnitCode, now)
    requires forall i :: 0 <= i < |bids| ==> !HasNonOutstreamVideo(bids[i].mediaTypes)
    ensures Impressions(bids, opts, now) == seq(|bids|, i requires 0 <= i < |bids| => Project(bids[i]))
  {
    if bids != [] {
      UnfilteredIsProjection(bids[1..], opts, now);
      assert Contribution(bids[0], opts, now) == [Project(bids[0])];
    }
  }

  /** `gdprApplies`, defaulting to false when the consent block or the flag
      is absent. */
  function GdprApplies(consent: Option<GdprConsent>): bool
  {
    consent.Some? && consent.value.gdprApplies == Some(true)
  }

  function ConsentString(consent: Option<GdprConsent>): Option<string>
  {
    if consent.Some? then consent.value.consentString else None
  }

  /** `Array.prototype.join(',')` over the ad unit codes. */
  function JoinCodes(codes: seq<string>): (r: string)
    ensures codes == [] ==> r == ""
    ensures codes != [] ==> |r| == TotalLength(codes) + |codes| - 1
    ensures codes != [] ==> |codes[0]| <= |r| && r[..|codes[0]|] == codes[0]
  {
    if codes == [] then ""
    else if |codes| == 1 then codes[0]
    else codes[0] + "," + JoinCodes(codes[1..])
  }

  /** The number of characters in all the codes together. */
  function TotalLength(codes: seq<string>): nat
  {
    if codes == [] then 0 else |codes[0]| + TotalLength(codes[1..])
  }

  /** `String.prototype.split(',')`, the reader's side of `JoinCodes`. */
  function SplitCodes(s: string): (r: seq<string>)
    ensures |r| >= 1
  {
    if s == [] then [""]
    else if s[0] == ',' then [""] + SplitCodes(s[1..])
    else
      var rest := SplitCodes(s[1..]);
      [[s[0]] + rest[0]] + rest[1..]
  }

  lemma {:induction false} SplitPlain(c: string)
    requires ',' !in c
    ensures SplitCodes(c) == [c]
  {
    if c != [] {
      SplitPlain(c[1..]);
      assert [c[0]] + c[1..] == c;
    }
  }

  lemma {:induction false} SplitHead(c: string, rest: string)
    requires ',' !in c
    ensures SplitCodes(c + "," + rest) == [c] + SplitCodes(rest)
  {
    if c == [] {
      assert c + "," + rest == [','] + rest;
      assert ([','] + rest)[1..] == rest;
    } else {
      var s := c + "," + rest;
      assert s[0] == c[0];
      assert s[1..] == c[1..] + "," + rest;
      SplitHead(c[1..], rest);
      assert [c[0]] + c[1..] == c;
    }
  }

  /** The codes in `ad_unit_codes` read back exactly as the impressions'
      codes, provided no code itself contains a comma. */
  lemma {:induction false} JoinCodesRoundTrip(codes: seq<string>)
    requires |codes| >= 1
    requires forall i :: 0 <= i < |codes| ==> ',' !in codes[i]
    ensures SplitCodes(JoinCodes(codes)) == codes
  {
    if |codes| == 1 {
      SplitPlain(codes[0]);
    } else {
      JoinCodesRoundTrip(codes[1..]);
      SplitHead(codes[0], JoinCodes(codes[1..]));
      assert [codes[0]] + codes[1..] == codes;
    }
  }

  function AdUnitCodes(imps: seq<Impression>): (codes: seq<string>)
    ensures |codes| == |imps|
    ensures forall i :: 0 <= i < |imps| ==> codes[i] == imps[i].adUnitCode
  {
    seq(|imps|, i requires 0 <= i < |imps| => imps[i].adUnitCode)
  }

  /** The first-party id sent under `user.ids['1plusX']`: only when the host
      asks for it and storage holds a non-empty one. */
  function UserIds(config: Config, fpId: Option<string>): (ids: map<string, string>)
    ensures ids != map[] <==> Truthy(Some(Coalesce(config.readOnePlusXId, JBool(false)))) && fpId.Some? && fpId.value != ""
    ensures ids != map[] ==> ids == map[OnePlusXIdKey := fpId.value]
  {
    if Truthy(Some(Coalesce(config.readOnePlusXId, JBool(false)))) && fpId.Some? && fpId.value != "" then
      var ids := map[OnePlusXIdKey := fpId.value];
      assert OnePlusXIdKey in ids;
      ids
    else map[]
  }

  /** `spec.buildRequests` over an injected clock `now`, the cache `opts`
      read from storage, the stored first-party id and the identifier
      `freshId` that `generateUUID` would return. */
  function BuildRequests(req: BidderRequest, config: Config, opts: Optimizations, fpId: Option<string>,
                         now: int, freshId: string): (r: Option<seq<Descriptor>>)
    ensures r.None? <==> Impressions(req.bids, opts, now) == []
    ensures r.Some? ==>
      && |r.value| == 2
      && r.value[0].verb == "GET" && r.value[0].url == SyncEndpoint && r.value[0].data.SyncData?
      && r.value[1].verb == "POST" && r.value[1].url == AuctionEndpoint && r.value[1].data.AuctionData?
    ensures r.Some? ==>
      var sync, auction := r.value[0].data, r.value[1].data;
      && auction.impressions == Impressions(req.bids, opts, now)
      && auction.id == (if req.auctionId.Some? then req.auctionId.value else freshId)
      && auction.device == req.device && auction.site == req.site
      && auction.timeout == AuctionTimeout
      && auction.consentString == ConsentString(req.gdprConsent)
      && sync.gdpr == auction.gdprApplies
      && (sync.gdpr <==> req.gdprConsent.Some? && req.gdprConsent.value.gdprApplies == Some(true))
      && (sync.gdprConsent.Some? <==> ConsentString(req.gdprConsent).Some? && ConsentString(req.gdprConsent).value != "")
      && (sync.gdprConsent.Some? ==> sync.gdprConsent == ConsentString(req.gdprConsent))
      && sync.adUnitCodes == JoinCodes(AdUnitCodes(auction.impressions))
      && auction.userIds == UserIds(config, fpId)
      && auction.useProfileApi == Coalesce(config.useProfileApi, JBool(false))
  {
    var impressions := Impressions(req.bids, opts, now);
    if impressions == [] then None
    else
      var consent := ConsentString(req.gdprConsent);
      var auction := AuctionData(
        if req.auctionId.Some? then req.auctionId.value else freshId,
        impressions,
        req.device,
        req.site,
        UserIds(config, fpId),
        GdprApplies(req.gdprConsent),
        consent,
        AuctionTimeout,
        Coalesce(config.useProfileApi, JBool(false)));
      var sync := SyncData(
        GdprApplies(req.gdprConsent),
        JoinCodes(AdUnitCodes(impressions)),
        if consent.Some? && consent.value != "" then consent else None);
      Some([Descriptor("GET", SyncEndpoint, sync), Descriptor("POST", AuctionEndpoint, auction)])
  }

  /** The sync request names the ad units of exactly the impressions the
      auction request carries, in the same order. */
  lemma SyncCodesMatchImpressions(req: BidderRequest, config: Config, opts: Optimizations, fpId: Option<string>,
                                  now: int, freshId: string)
    requires BuildRequests(req, config, opts, fpId, now, freshId).Some?
    requires forall i :: 0 <= i < |req.bids| ==> ',' !in req.bids[i].adUnitCode
    ensures
      var r := BuildRequests(req, config, opts, fpId, now, freshId).value;
      SplitCodes(r[0].data.adUnitCodes) == AdUnitCodes(r[1].data.impressions)
  {
    var imps := Impressions(req.bids, opts, now);
    forall j | 0 <= j < |imps| ensures ',' !in imps[j].adUnitCode {
      ImpressionsMembership(req.bids, opts, now, imps[j]);
    }
    JoinCodesRoundTrip(AdUnitCodes(imps));
  }
}
