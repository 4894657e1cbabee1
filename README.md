# Media Consortium bid adapter — a Dafny model

This project models the Media Consortium bid adapter for Prebid.js
(`modules/mediaConsortiumBidAdapter.js`). The adapter is a plugin that the
host framework calls at three points of an auction round:

- **Building requests** (`buildRequests`). The adapter reads its optimization
  cache from local storage. It drops the ad slots that a live, disabling
  record suppresses. Slots whose video is not outstream lose their video
  media type, or are dropped when video is all they ask for. The survivors are
  projected to impressions. If no impression is left, nothing is sent.
  Otherwise the result is exactly two request descriptors: a GET to the sync
  endpoint, then a POST to the auction endpoint.
- **Interpreting the auction response** (`interpretResponse`). A single shape
  check gates the response. Server optimization directives are merged into
  the cached map with a read-modify-write of storage. Each server bid is
  formatted for the host. A video bid also gets a VAST document and, when its
  impression can be found, an outstream renderer.
- **Collecting user syncs** (`getUserSyncs`). The bidders listed in the sync
  endpoint's response are mapped through a fixed table of sync types.

Modules, one per part of the adapter:

- `JsValues` (`jsvalues.dfy`) holds JavaScript values as the adapter sees them.
  A property that is not there (`undefined`) is `None` of an `Option<Value>`.
  The module also defines truthiness, `isPlainObject`, `isArray`, `??`, and
  which values destructuring throws on.
- `Store` (`store.dfy`) models the adapter's slice of local storage. It is a
  class with the optimization-cache entry and the first-party id as fields,
  plus methods for the storage reads and write.
- `Requests` (`requests.dfy`) holds the pure part of `buildRequests`:
  suppression, video narrowing, impressions and the two descriptors.
- `Responses` (`responses.dfy`) holds the pure part of `interpretResponse`:
  the shape check, the directive merge and bid formatting.
- `Syncs` (`syncs.dfy`) models `getUserSyncs`, both as written and corrected
  (see Findings).
- `Adapter` (`adapter.dfy`) holds the entry points that touch the store, and
  the lemmas that follow the cache across two auction rounds.

Three inputs become parameters: the clock (`Date.now()`, passed as `now`),
the identifier `generateUUID()` would return (`freshId`), and the host
configuration values (`Config`).

The model follows the code wherever the adapter's test or its description
say otherwise:

- The markup is copied unchanged into `ad` (line 241). The test expects
  `${AUCTION_PRICE}` to be replaced by the cpm
  (test/spec/modules/mediaConsortiumBidAdapter_spec.js:86,105).
- `buildRequests` always returns two descriptors (lines 120-131). The test
  reads `request.data` as if a single descriptor were returned.
- The auction payload built at lines 97-100 is missing a comma between
  `options` and `ts`. The model takes the evidently intended record, which
  has both fields (`ts` is then left out, see below).
- `buildRequests` never reads its first argument: the slots come from
  `bidderRequest.bids` (line 43). So the model's `BuildRequests` takes only
  the bidder request.
- `getUserSyncs` never reads `syncOptions`, so the model has no such
  parameter. It does not remove duplicate entries: every listed entry with a
  known type and a truthy url is kept, in order.
- The sync request is never optional: whenever an impression survives, both
  descriptors are built.
- Media types are values, so the caller's `mediaTypes` is never changed. The
  source gets the same guarantee from working on a deep clone (line 63).

## Model

| member | source | states |
|---|---|---|
| `Store.Decode` | modules/mediaConsortiumBidAdapter.js:281-289 | a stored cache decodes to itself; a missing or unparsable entry decodes to the empty cache |
| `Store.LocalStore.GetOptimizations` | modules/mediaConsortiumBidAdapter.js:281-289 | returns the stored cache when one is stored, and the empty cache (fail open) otherwise |
| `Store.LocalStore.SetOptimizations` | modules/mediaConsortiumBidAdapter.js:216 | afterwards storage holds exactly the given cache; the first-party id is not touched |
| `Store.LocalStore.GetFirstPartyId` | modules/mediaConsortiumBidAdapter.js:291-297 | returns the stored first-party id, or none when it is absent or unreadable |
| `Requests.IsBidRequestValid` | modules/mediaConsortiumBidAdapter.js:34-36 | every slot is accepted |
| `Requests.Suppressed` | modules/mediaConsortiumBidAdapter.js:53-61 | a slot is suppressed iff its ad unit has a cached record that is disabling and expires at `now` or later; no record, an enabling record or an expired one never suppresses |
| `Requests.HasNonOutstreamVideo` | modules/mediaConsortiumBidAdapter.js:65 | the video filter applies iff the slot has a truthy `video` media type whose `context` is not `outstream`; no video, a falsy video or outstream video never triggers it |
| `Requests.NarrowMediaTypes` | modules/mediaConsortiumBidAdapter.js:63-73 | a slot is dropped iff it asks for non-outstream video and nothing else; if it has other media types, only `video` is removed; a slot with outstream video or no video keeps its media types unchanged; the result never holds non-outstream video and never changes or adds an entry |
| `Requests.ImpressionFor` | modules/mediaConsortiumBidAdapter.js:52-75 | a slot yields no impression iff it is suppressed or left with no media types; otherwise it yields `{id: bidId, adUnitCode, narrowed mediaTypes}` |
| `Requests.Impressions` | modules/mediaConsortiumBidAdapter.js:51-76 | never more impressions than slots |
| `Requests.ImpressionsAppend` | modules/mediaConsortiumBidAdapter.js:51-76 | the impressions of a concatenation are the concatenation of the impressions, so input order is kept |
| `Requests.ImpressionsMembership` | modules/mediaConsortiumBidAdapter.js:51-76 | an impression is built iff some slot yields it |
| `Requests.SuppressedSlotDropped` | modules/mediaConsortiumBidAdapter.js:53-61 | no impression carries an ad unit code that has a record with `expiresAt >= now` and `!isEnabled` |
| `Requests.SurvivingSlotKept` | modules/mediaConsortiumBidAdapter.js:53-75 | a slot that is not suppressed and keeps some media type is always sent, with its own id and code |
| `Requests.SuppressionBoundary` | modules/mediaConsortiumBidAdapter.js:58 | a disabling record that expires exactly now still drops the slot; one that expired earlier, or an enabling record, never does |
| `Requests.UnfilteredIsProjection` | modules/mediaConsortiumBidAdapter.js:51-76 | with no live disabling record and no non-outstream video, the impressions are the slots projected one by one, in input order |
| `Requests.AdUnitCodes` | modules/mediaConsortiumBidAdapter.js:113 | the ad unit codes of the impressions, one per impression, in order |
| `Requests.JoinCodes` | modules/mediaConsortiumBidAdapter.js:113 | `[].join(',')` is empty; otherwise the joined text is as long as all codes plus one comma between each two, and it starts with the first code |
| `Requests.JoinCodesRoundTrip` | modules/mediaConsortiumBidAdapter.js:113 | splitting the comma-joined codes on commas gives back the codes, if no code contains a comma |
| `Requests.UserIds` | modules/mediaConsortiumBidAdapter.js:103-109 | `user.ids` is `{'1plusX': fpId}` iff `readOnePlusXId` is truthy and a non-empty id is stored, and `{}` otherwise |
| `Requests.BuildRequests` | modules/mediaConsortiumBidAdapter.js:37-132 | no descriptor iff no impression survives; otherwise exactly two descriptors, a GET to the sync endpoint then a POST to the auction endpoint. The POST carries the impressions, the request id (`auctionId`, or the generated id when it is absent), device, site and timeout 3600. `gdpr` is true only when the consent block says so (false by default), and the sync request's `gdpr` equals the auction request's. `gdpr_consent` is present iff the consent string is non-empty, and is then that string. `ad_unit_codes` is the comma-join of the impressions' codes. `user.ids` is the one-plus-X id map and `options.useProfileApi` is the configured value, `false` when unset |
| `Requests.SyncCodesMatchImpressions` | modules/mediaConsortiumBidAdapter.js:111-114 | the sync request's `ad_unit_codes` splits back into exactly the codes of the auction request's impressions, in order |
| `Responses.IsValidResponse` | modules/mediaConsortiumBidAdapter.js:299-303 | a response passes the shape check iff it is an object whose `body` is an object whose `bids` is an array |
| `Responses.ResponseDirectives` | modules/mediaConsortiumBidAdapter.js:204 | the directives are read iff `optimizations` is an array, and are then its entries |
| `Responses.ToDirectives` | modules/mediaConsortiumBidAdapter.js:207-208 | one directive per `optimizations` entry, read field by field |
| `Responses.RecordOf` | modules/mediaConsortiumBidAdapter.js:205-212 | a directive's record keeps its `isEnabled` and expires `ttl` after `now`, so it is live at `now` iff `ttl` is not negative |
| `Responses.Merge` | modules/mediaConsortiumBidAdapter.js:207-214 | the merge never drops a cached key |
| `Responses.LastDirectiveFor` | modules/mediaConsortiumBidAdapter.js:207-214 | reference for "the later entry wins": a directive for the ad unit that no later directive overrides, or none when none names it |
| `Responses.MergeLookup` | modules/mediaConsortiumBidAdapter.js:204-217 | after the merge, a listed ad unit holds `{isEnabled, expiresAt: now + ttl}` of its last directive; an unlisted key keeps its stored record; the key set is the stored keys plus the listed codes |
| `Responses.DirectiveSuppressesUntilExpiry` | modules/mediaConsortiumBidAdapter.js:207-214 | after the merge, an ad unit is suppressed at time `t` iff its last directive disables it and `t <= now + ttl` |
| `Responses.FindImpression` | modules/mediaConsortiumBidAdapter.js:246 | returns the first request impression whose id is the bid's impression id, and none iff no impression has that id |
| `Responses.FormatBid` | modules/mediaConsortiumBidAdapter.js:219-258 | `requestId` is the bid's impression id; price, deal and creative fields are copied, and `width` and `height` come from `creative.size`; `ttl` is 360 only when the bid has none; `netRevenue` is true, `adUrl` is null and `ad` is the markup. Video fields are present iff the media type is `video`, and then `vastXml` is the markup. A renderer is attached iff some request impression has the bid's id, and it is bound to the first such impression's ad unit |
| `Responses.InterpretBids` | modules/mediaConsortiumBidAdapter.js:133-259 | `[]` for a response that fails the shape check; otherwise one formatted bid per server bid, in order |
| `Responses.UpdatedCache` | modules/mediaConsortiumBidAdapter.js:204-217 | the cache is rewritten iff the response is valid and carries an `optimizations` array |
| `Responses.ThrowingPartnersExcluded` | modules/mediaConsortiumBidAdapter.js:146-160 | a response whose `xandr` partner lists a placement while `onePlusX` is missing throws before its directives reach the cache, so it is outside the interpreted responses |
| `Responses.InvalidBodyYieldsNothing` | test/spec/modules/mediaConsortiumBidAdapter_spec.js:66-68 | a response whose body is a string yields no bids |
| `Syncs.Bidders` | modules/mediaConsortiumBidAdapter.js:267 | the bidder list is read iff the response is an object whose `body` is an object with a non-null `bidders`, and is then that value |
| `Syncs.SyncTypeOf` | modules/mediaConsortiumBidAdapter.js:21-25 | only `image`, `redirect` and `iframe` are mapped, and only to `image` or `iframe` |
| `Syncs.SyncFor` | modules/mediaConsortiumBidAdapter.js:267-274 | an entry yields a sync iff its type is known and its url is truthy, and the sync is the normalised type with the url |
| `Syncs.Collect` | modules/mediaConsortiumBidAdapter.js:267-275 | never more syncs than entries, and every sync type is `image` or `iframe` |
| `Syncs.CollectAppend` | modules/mediaConsortiumBidAdapter.js:267-275 | collecting distributes over concatenation, so entry order is kept |
| `Syncs.CollectMembership` | modules/mediaConsortiumBidAdapter.js:267-275 | a sync is emitted iff some entry yields it |
| `Syncs.GetUserSyncs` | modules/mediaConsortiumBidAdapter.js:260-276 | nothing unless there are exactly two responses; with two, a result iff the first carries a bidder list, and it is then the syncs collected from that list, of type `image` or `iframe` only |
| `Syncs.RedirectNormalisedBogusDropped` | modules/mediaConsortiumBidAdapter.js:260-276 | a `redirect` entry becomes an image sync, and an entry of unknown type is dropped |
| `Syncs.SyncTypeLookupAsWritten` | modules/mediaConsortiumBidAdapter.js:268 | as written, a type is found iff it is a table key or an inherited member name; a table key yields the corrected lookup's `image` or `iframe`, and an inherited member is yielded only where the corrected lookup finds nothing |
| `Syncs.CollectAsWritten` | modules/mediaConsortiumBidAdapter.js:267-275 | the collector as written never yields more syncs than entries |
| `Syncs.GetUserSyncsAsWritten` | modules/mediaConsortiumBidAdapter.js:260-276 | as written, nothing unless there are exactly two responses; with two, a result iff the first carries a bidder list, and it is then the as-written collection of that list |
| `Syncs.InheritedTypeLeaksThrough` | modules/mediaConsortiumBidAdapter.js:268 | as written, an entry of type `constructor` is kept, with an inherited member as its sync type |
| `Syncs.CorrectedAgreesAsWritten` | modules/mediaConsortiumBidAdapter.js:268-274 | the corrected and as-written collectors agree whenever no type names an inherited member |
| `Adapter.BuildRequests` | modules/mediaConsortiumBidAdapter.js:37-132 | the descriptors are those built from the stored cache (empty when unreadable); the first-party id is read only when `readOnePlusXId` is set; storage is not changed |
| `Adapter.InterpretResponse` | modules/mediaConsortiumBidAdapter.js:133-259 | returns the interpreted bids. An invalid response leaves storage untouched. A valid response with an `optimizations` array stores the merge of the currently stored cache with its directives; any other valid response leaves storage untouched |
| `Adapter.DisabledSlotSkippedNextRound` | modules/mediaConsortiumBidAdapter.js:204-217 | once a response disables an ad unit for `ttl`, a request built at any time from `now` to `now + ttl` carries no impression for it |
| `Adapter.DirectiveRecordedForTtl` | modules/mediaConsortiumBidAdapter.js:204-217 | the directive `{X, isEnabled: false, ttl: 12000}` leaves `{isEnabled: false, expiresAt: now + 12000}` for X, and other cached records unchanged |

## Left out

- Analytics: the GA4 beacons, the session id and the IP and geolocation lookups (lines 146-202, 343-398). The beacons themselves are asynchronous network, cookie and `navigator` side effects that affect no return value and no cache. Their arguments are evaluated synchronously, though, before the cache is written, and some of those evaluations can throw; `Responses.PartnersReadable` states when none does, and `Adapter.InterpretResponse` requires it.
- Renderer setup: `buildXandrOutstreamRenderer` and `xandrOutstreamRenderer` (lines 305-341) depend on the host's `Renderer` and on `window.ANOutstreamVideo`. The model records only whether a renderer is attached, with its bid id and ad unit.
- The timing fields: `ts: performance.now()` (line 100) is a field of the auction request's payload, and the model's `AuctionData` leaves it out because it is a float clock reading; `end` (line 136) feeds only the analytics.
- `registerBidder` (line 279), the adapter's metadata (`version`, `code`, `gvlid`, `supportedMediaTypes`, lines 29-33) and the `logWarn` diagnostics are host plumbing with no logic.
- Concurrency: the host runs the entry points one after another on one thread. The read-modify-write of the cache is one method call.
- Numbers are integers and NaN is not modelled. The adapter copies prices and sizes unchanged; its only arithmetic is `now + ttl`.
- JSON serialisation of the cache: the stored text is modelled by the map it parses to (`Stored`), or as `Corrupt` when parsing fails. Text that parses to something other than an object is not modelled; `"null"` would make `buildRequests` throw at line 53. A write that storage refuses is not modelled either.
- Property keys that are not strings: a sync `type` that is an array converts to a string key in JavaScript (`["image"]` reads as `image`). The model treats every non-string type as unknown.
- Responses.InterpretBids: requires every server bid to destructure without throwing. The bid, its `price`, `ad`, `ad.creative` and `ad.creative.size` must be defined and non-null, and a video bid needs request impressions in `params`. The source throws a TypeError otherwise (lines 219-228, 246).
- Responses.UpdatedCache: requires every `optimizations` entry to have a string `adUnitCode`, a boolean `isEnabled` and a numeric `ttl`. The source accepts any value and would store NaN or a coerced key.
- Adapter.InterpretResponse: carries both of the preconditions above, and also requires the `partners` block to be evaluable (`Responses.PartnersReadable`): when `partners` is truthy, the request's `params.data` is there, a truthy `xandr` has an array of non-null `placements`, `onePlusX` is defined and not null when there is a placement, and a truthy `onePlusX` has an `opeaud` that is absent, null or an array. The source throws otherwise (lines 150, 155, 158, 163-174, 180-184, 200), before the cache write, so the model does not say what such a response leaves in storage. A throw part-way through (after the cache write, before the bids are returned) is not modelled either.
- Requests.BuildRequests: three inputs on which the source throws cannot be written in the model, because its types rule them out: a slot whose `mediaTypes` is undefined (line 65), a bidder request without `ortb2` (line 45), and `gdprConsent: null` (line 44, where the `= {}` default applies only to undefined). A missing `bids` list (line 51) is ruled out the same way.
- Syncs.GetUserSyncs: requires the first response to be non-null, with a bidder list that is absent, null, or an array of non-null entries. Otherwise the source throws at line 267.
- The build tooling (`gulpfile.js`) is not part of this model.

## Findings

| source | as written | input that shows it | evidently intended | confidence | as-written member | corrected member |
|---|---|---|---|---|---|---|
| modules/mediaConsortiumBidAdapter.js:268 | `SYNC_TYPES[type]` is a plain-object lookup, so it also finds the members every object inherits from `Object.prototype`. Those are truthy, so the entry is kept | first response `{body: {bidders: [{type: "constructor", url: "u"}]}}` with two responses yields a sync whose type is the `Object` constructor | only `image`, `redirect` and `iframe` are mapped, and every other type is dropped, so every sync is an image or an iframe | high; not executed | `Syncs.InheritedTypeLeaksThrough` | `Syncs.GetUserSyncs` |
