/** Sync collection (`spec.getUserSyncs`): the user syncs that the sync
    endpoint's response lists, with their types normalised through the
    adapter's fixed table. */
module Syncs {
  import opened JsValues

  /** `SYNC_TYPES`: the server's sync type names and the host framework's
      sync type each one maps to. */
  const SyncTypes: map<string, string> := map["image" := "image", "redirect" := "image", "iframe" := "iframe"]

  /** The properties every JavaScript object literal inherits from
      `Object.prototype`; reading any of them yields a truthy value. */
  const ObjectPrototypeMembers: set<string> := {
    "constructor", "hasOwnProperty", "isPrototypeOf", "propertyIsEnumerable",
    "toString", "toLocaleString", "valueOf", "__proto__",
    "__defineGetter__", "__defineSetter__", "__lookupGetter__", "__lookupSetter__"
  }

  datatype UserSync = UserSync(syncType: string, url: Value)

  /** `sync.body?.bidders`, with `null` read as absent. */
  function Bidders(sync: Value): (r: Option<Value>)
    ensures r.Some? <==>
      && sync.JObj? && "body" in sync.fields
      && sync.fields["body"].JObj? && "bidders" in sync.fields["body"].fields
      && !sync.fields["body"].fields["bidders"].JNull?
    ensures r.Some? ==> r.value == sync.fields["body"].fields["bidders"]
  {
    var bidders := GetOpt(GetOpt(Some(sync), "body"), "bidders");
    if bidders.Some? && bidders.value.JNull? then None else bidders
  }

  /** The first response can be read without throwing: it is not `null`,
      and its bidder list is absent, `null`, or an array of non-null entries
      (anything else has no `reduce`, and a `null` entry cannot be
      destructured). */
  predicate SyncResponseReadable(sync: Value)
  {
    && !sync.JNull?
    && (Bidders(sync).Some? ==>
          Bidders(sync).value.JArr?
          && forall i :: 0 <= i < |Bidders(sync).value.items| ==> !Bidders(sync).value.items[i].JNull?)
  }

  /** The sync type a server type name normalises to, looked up among the
      table's own entries. */
  function SyncTypeOf(t: Option<Value>): (r: Option<string>)
    ensures r.Some? ==> r.value == "image" || r.value == "iframe"
    ensures r.Some? <==> t.Some? && t.value.JStr? && t.value.s in SyncTypes
  {
    if t.Some? && t.value.JStr? && t.value.s in SyncTypes then Some(SyncTypes[t.value.s]) else None
  }

  /** What one bidder entry contributes: its normalised sync, or nothing
      when its type is unknown or its url is falsy. */
  function SyncFor(entry: Value): (r: Option<UserSync>)
    ensures r.Some? <==> SyncTypeOf(Get(entry, "type")).Some? && Truthy(Get(entry, "url"))
    ensures r.Some? ==> r.value == UserSync(SyncTypeOf(Get(entry, "type")).value, Get(entry, "url").value)
  {
    var syncType := SyncTypeOf(Get(entry, "type"));
    var url := Get(entry, "url");
    if syncType.None? || !Truthy(url) then None
    else Some(UserSync(syncType.value, url.value))
  }

  /** The `bidders.reduce(...)`, with the lookup corrected to the table's own
      entries. */
  function Collect(entries: seq<Value>): (r: seq<UserSync>)
    ensures |r| <= |entries|
    ensures forall i :: 0 <= i < |r| ==> r[i].syncType == "image" || r[i].syncType == "iframe"
  {
    if entries == [] then []
    else
      var rest := Collect(entries[1..]);
      match SyncFor(entries[0])
      case None => rest
      case Some(s) => [s] + rest
  }

  /** `spec.getUserSyncs`: nothing unless exactly the two responses of the
      sync and auction requests arrived; then the syncs listed by the first. */
  function GetUserSyncs(responses: seq<Value>): (r: Option<seq<UserSync>>)
    requires |responses| == 2 ==> SyncResponseReadable(responses[0])
    ensures |responses| != 2 ==> r.None?
    ensures |responses| == 2 ==> (r.Some? <==> Bidders(responses[0]).Some?)
    ensures |responses| == 2 && Bidders(responses[0]).Some? ==>
      r == Some(Collect(Bidders(responses[0]).value.items))
    ensures r.Some? ==> forall i :: 0 <= i < |r.value| ==> r.value[i].syncType in {"image", "iframe"}
  {
    if |responses| != 2 then None
    else
      match Bidders(responses[0])
      case None => None
      case Some(bidders) => Some(Collect(bidders.items))
  }

  /** Collecting distributes over concatenation of the bidder list, so the
      syncs keep the order of their entries. */
  lemma {:induction false} CollectAppend(a: seq<Value>, b: seq<Value>)
    ensures Collect(a + b) == Collect(a) + Collect(b)
  {
    if a == [] {
      assert a + b == b;
    } else {
      assert (a + b)[0] == a[0];
      assert (a + b)[1..] == a[1..] + b;
      CollectAppend(a[1..], b);
    }
  }

  /** A sync is emitted exactly for the entries with a known type and a
      truthy url. */
  lemma {:induction false} CollectMembership(entries: seq<Value>, s: UserSync)
    ensures s in Collect(entries) <==> exists i :: 0 <= i < |entries| && SyncFor(entries[i]) == Some(s)
  {
    if entries != [] {
      CollectMembership(entries[1..], s);
      if s in Collect(entries[1..]) {
        var j :| 0 <= j < |entries[1..]| && SyncFor(entries[1..][j]) == Some(s);
        assert SyncFor(entries[j + 1]) == Some(s);
      }
      if i :| 0 <= i < |entries| && SyncFor(entries[i]) == Some(s) {
        if i > 0 {
          assert SyncFor(entries[1..][i - 1]) == Some(s);
        }
      }
    }
  }

  /** A `redirect` entry becomes an image sync and an unknown type is
      dropped. */
  lemma RedirectNormalisedBogusDropped()
    ensures
      var first := JObj(map["body" := JObj(map["bidders" := JArr([
        JObj(map["type" := JStr("redirect"), "url" := JStr("u")]),
        JObj(map["type" := JStr("bogus"), "url" := JStr("u2")])])])]);
      GetUserSyncs([first, JObj(map[])]) == Some([UserSync("image", JStr("u"))])
  {
    var entries := [
        JObj(map["type" := JStr("redirect"), "url" := JStr("u")]),
        JObj(map["type" := JStr("bogus"), "url" := JStr("u2")])];
    var first := JObj(map["body" := JObj(map["bidders" := JArr(entries)])]);
    assert Bidders(first) == Some(JArr(entries));
    assert SyncFor(entries[0]) == Some(UserSync("image", JStr("u")));
    assert SyncFor(entries[1]).None?;
    assert entries[1..][1..] == [];
    assert Collect(entries[1..]) == [];
    assert Collect(entries) == [UserSync("image", JStr("u"))];
    var responses := [first, JObj(map[])];
    assert responses[0] == first;
    assert GetUserSyncs(responses) == Some(Collect(entries));
  }

  // ---- The lookup as the source writes it ----

  /** What `SYNC_TYPES[type]` yields: one of the table's own values, or a
      member inherited from `Object.prototype`. */
  datatype LookupResult = TableValue(name: string) | InheritedMember(member: string)

  datatype RawUserSync = RawUserSync(syncType: LookupResult, url: Value)

  /** `SYNC_TYPES[type]` as written: a plain object lookup, which also finds
      the members every object inherits. */
  function SyncTypeLookupAsWritten(t: Option<Value>): (r: Option<LookupResult>)
    ensures r.Some? <==> t.Some? && t.value.JStr? && (t.value.s in SyncTypes || t.value.s in ObjectPrototypeMembers)
    ensures r.Some? && r.value.TableValue? ==> r.value.name == "image" || r.value.name == "iframe"
    ensures SyncTypeOf(t).Some? ==> r == Some(TableValue(SyncTypeOf(t).value))
    ensures r.Some? && r.value.InheritedMember? ==> SyncTypeOf(t).None? && r.value.member == t.value.s
  {
    if t.Some? && t.value.JStr? then
      if t.value.s in SyncTypes then Some(TableValue(SyncTypes[t.value.s]))
      else if t.value.s in ObjectPrototypeMembers then Some(InheritedMember(t.value.s))
      else None
    else None
  }

  function CollectAsWritten(entries: seq<Value>): (r: seq<RawUserSync>)
    ensures |r| <= |entries|
  {
    if entries == [] then []
    else
      var rest := CollectAsWritten(entries[1..]);
      var syncType := SyncTypeLookupAsWritten(Get(entries[0], "type"));
      var url := Get(entries[0], "url");
      if syncType.None? || !Truthy(url) then rest
      else [RawUserSync(syncType.value, url.value)] + rest
  }

  function GetUserSyncsAsWritten(responses: seq<Value>): (r: Option<seq<RawUserSync>>)
    requires |responses| == 2 ==> SyncResponseReadable(responses[0])
    ensures |responses| != 2 ==> r.None?
    ensures |responses| == 2 ==> (r.Some? <==> Bidders(responses[0]).Some?)
    ensures |responses| == 2 && Bidders(responses[0]).Some? ==>
      r == Some(CollectAsWritten(Bidders(responses[0]).value.items))
  {
    if |responses| != 2 then None
    else
      match Bidders(responses[0])
      case None => None
      case Some(bidders) => Some(CollectAsWritten(bidders.items))
  }

  /** As written, a bidder entry whose type is "constructor" is kept, with a
      sync type that is neither an image nor an iframe. */
  lemma InheritedTypeLeaksThrough()
    ensures
      var first := JObj(map["body" := JObj(map["bidders" := JArr([
        JObj(map["type" := JStr("constructor"), "url" := JStr("u")])])])]);
      GetUserSyncsAsWritten([first, JObj(map[])]) == Some([RawUserSync(InheritedMember("constructor"), JStr("u"))])
  {
    var entry := JObj(map["type" := JStr("constructor"), "url" := JStr("u")]);
    var first := JObj(map["body" := JObj(map["bidders" := JArr([entry])])]);
    assert Bidders(first) == Some(JArr([entry]));
    assert "constructor" !in SyncTypes;
    assert SyncTypeLookupAsWritten(Get(entry, "type")) == Some(InheritedMember("constructor"));
    assert [entry][1..] == [];
    assert CollectAsWritten([entry]) == [RawUserSync(InheritedMember("constructor"), JStr("u"))];
    var responses := [first, JObj(map[])];
    assert responses[0] == first;
    assert GetUserSyncsAsWritten(responses) == Some(CollectAsWritten([entry]));
  }

  predicate NamesInheritedMember(entry: Value)
  {
    var t := Get(entry, "type");
    t.Some? && t.value.JStr? && t.value.s in ObjectPrototypeMembers
  }

  function Lift(syncs: seq<UserSync>): (r: seq<RawUserSync>)
    ensures |r| == |syncs|
  {
    seq(|syncs|, i requires 0 <= i < |syncs| => RawUserSync(TableValue(syncs[i].syncType), syncs[i].url))
  }

  /** The correction changes nothing for entries whose type is not an
      inherited member name: both collectors emit the same syncs. */
  lemma {:induction false} CorrectedAgreesAsWritten(entries: seq<Value>)
    requires forall i :: 0 <= i < |entries| ==> !NamesInheritedMember(entries[i])
    ensures CollectAsWritten(entries) == Lift(Collect(entries))
  {
    if entries != [] {
      CorrectedAgreesAsWritten(entries[1..]);
      assert !NamesInheritedMember(entries[0]);
      var t := Get(entries[0], "type");
      if t.Some? && t.value.JStr? {
        assert "image" !in ObjectPrototypeMembers && "redirect" !in ObjectPrototypeMembers && "iframe" !in ObjectPrototypeMembers;
      }
      var rest := Collect(entries[1..]);
      match SyncFor(entries[0])
      case None =>
      case Some(s) =>
        assert Lift([s] + rest) == [RawUserSync(TableValue(s.syncType), s.url)] + Lift(rest);
    }
  }
}
