/**
 * Server configuration processing of pkg/dvconfig/processing.go: the rewrite map
 * keyed by first path segment, the one-element header lists, the normalisation of
 * the CORS settings and the header maps filled from them, and the first-wins
 * registration of host servers.
 */
module DvConfig {
  import opened Wrappers
  import opened Text
  import opened Grouping
  import opened Registry

  // ------------------------------------------------------------ rewrite map

  /** One rewrite rule of the configuration. */
  datatype DvRewrite = DvRewrite(From: string, To: string)

  /** What dvcom.GetRewriteMapItem is given: the stored url, the full-match flag and the target. */
  datatype RewriteMapItem = RewriteMapItem(Url: string, Full: bool, To: string)

  type RewriteMap = map<string, seq<RewriteMapItem>>

  /** `From` without at most one leading slash. */
  function RewritePath(c: DvRewrite): string {
    if |c.From| > 0 && c.From[0] == '/' then c.From[1..] else c.From
  }

  /** The key a rule is grouped under: its first `/`-separated segment. */
  function RewriteKey(c: DvRewrite): string {
    Split(RewritePath(c), '/')[0]
  }

  /** The item stored for a rule: a trailing `*` means a prefix rule and is removed. */
  function RewriteItem(c: DvRewrite): RewriteMapItem {
    var url := "/" + RewritePath(c);
    if url[|url| - 1] == '*' then RewriteMapItem(url[..|url| - 1], false, c.To)
    else RewriteMapItem(url, true, c.To)
  }

  /** The key is the text of the path up to its first slash, and holds no slash. */
  lemma RewriteKeyShape(c: DvRewrite)
    ensures var key := RewriteKey(c); var path := RewritePath(c);
      '/' !in key && |key| <= |path| && key == path[..|key|]
      && (|key| == |path| || path[|key|] == '/')
    ensures |c.From| > 0 && c.From[0] == '/' ==> RewritePath(c) == c.From[1..]
    ensures (|c.From| == 0 || c.From[0] != '/') ==> RewritePath(c) == c.From
  {
    SplitHead(RewritePath(c), '/');
  }

  /**
   * The stored url starts with a slash; the rule is a prefix rule exactly when
   * "/" plus the path ends in `*`, and then exactly that one star is removed.
   */
  lemma RewriteItemShape(c: DvRewrite)
    ensures var item := RewriteItem(c); var url := "/" + RewritePath(c);
      |item.Url| > 0 && item.Url[0] == '/'
    ensures var item := RewriteItem(c); var url := "/" + RewritePath(c);
      (!item.Full <==> url[|url| - 1] == '*')
      && url == item.Url + (if item.Full then "" else "*")
      && item.To == c.To
  {
  }

  /** The rule "/api*" is a prefix rule keyed "api*" whose url is "/api". */
  lemma RewriteOfApiStar(to: string)
    ensures RewriteKey(DvRewrite("/api*", to)) == "api*"
    ensures RewriteItem(DvRewrite("/api*", to)) == RewriteMapItem("/api", false, to)
  {
    var c := DvRewrite("/api*", to);
    assert RewritePath(c) == "api*";
    assert IndexChar("api*", '/') == -1;
  }

  /** The key and the item prepareComRewriteMap computes for one rule. */
  method RewriteEntry(c: DvRewrite) returns (k: string, item: RewriteMapItem)
    ensures k == RewriteKey(c) && item == RewriteItem(c)
  {
    var url := c.From;
    if |url| > 0 && url[0] == '/' {
      url := url[1..];
    }
    var urls := Split(url, '/');
    var full := true;
    k := urls[0];
    url := "/" + url;
    if url[|url| - 1] == '*' {
      full := false;
      url := url[..|url| - 1];
    }
    item := RewriteMapItem(url, full, c.To);
  }

  /** prepareComRewriteMap: each rule appended under its key, in input order. */
  method PrepareComRewriteMap(rewrites: seq<DvRewrite>) returns (rewriteResult: RewriteMap)
    ensures rewriteResult == Grouped(rewrites, RewriteKey, RewriteItem)
  {
    rewriteResult := map[];
    for i := 0 to |rewrites|
      invariant rewriteResult == Grouped(rewrites[..i], RewriteKey, RewriteItem)
    {
      var k, item := RewriteEntry(rewrites[i]);
      var group := if k in rewriteResult then rewriteResult[k] else [];
      rewriteResult := rewriteResult[k := group + [item]];
      GroupedStep(rewrites, i, RewriteKey, RewriteItem);
    }
    assert rewrites[..|rewrites|] == rewrites;
  }

  /** Every key of the rewrite map holds at least one item; every rule is found under its own key. */
  lemma RewriteMapKeys(rewrites: seq<DvRewrite>)
    ensures var m := Grouped(rewrites, RewriteKey, RewriteItem);
      forall k :: k in m ==> |m[k]| > 0
    ensures var m := Grouped(rewrites, RewriteKey, RewriteItem);
      forall j :: 0 <= j < |rewrites| ==> RewriteKey(rewrites[j]) in m
  {
    var m := Grouped(rewrites, RewriteKey, RewriteItem);
    forall k | k in m ensures |m[k]| > 0 {
      GroupOfPresentKey(rewrites, RewriteKey, RewriteItem, k);
    }
  }

  // ------------------------------------------------------- string arrays

  /** prepareMapOfStringArrays: the same keys, each mapped to the one-element list of its value. */
  method PrepareMapOfStringArrays(smap: map<string, string>) returns (r: map<string, seq<string>>)
    ensures r.Keys == smap.Keys
    ensures forall k :: k in smap ==> r[k] == [smap[k]]
  {
    r := map[];
    var todo := smap.Keys;
    while |todo| > 0
      invariant todo <= smap.Keys
      invariant r.Keys == smap.Keys - todo
      invariant forall k :: k in r ==> r[k] == [smap[k]]
      decreases |todo|
    {
      var k :| k in todo;
      r := r[k := [smap[k]]];
      todo := todo - {k};
    }
  }

  // ------------------------------------------------------- CORS settings

  /** The value AccessControlMaxAge is left with: trimmed, and cleared unless strconv.Atoi accepts it. */
  function NormalMaxAge(s: string): (r: string)
    ensures r == (if AtoiAccepts(TrimSpace(s)) then TrimSpace(s) else "")
  {
    var t := TrimSpace(s);
    if |t| > 0 then (if AtoiAccepts(t) then t else "") else t
  }

  /** The value AccessControlAllowCredentials is left with: "true" when it trims to "true", else empty. */
  function NormalCredentials(s: string): (r: string)
    ensures r == "true" <==> TrimSpace(s) == "true"
    ensures r == "" || r == "true"
  {
    var t := TrimSpace(s);
    if |t| > 0 then (if t == "false" then "" else if t != "true" then "" else t) else t
  }

  /** Normalising a normalised max age changes nothing. */
  lemma NormalMaxAgeIdempotent(s: string)
    ensures NormalMaxAge(NormalMaxAge(s)) == NormalMaxAge(s)
  {
    var t := TrimSpace(s);
    if AtoiAccepts(t) {
      TrimSpaceIdempotent(s);
      assert NormalMaxAge(t) == t;
    } else {
      TrimSpaceOfTrimmed("");
      assert !AtoiAccepts("");
    }
  }

  /** Normalising normalised credentials changes nothing. */
  lemma NormalCredentialsIdempotent(s: string)
    ensures NormalCredentials(NormalCredentials(s)) == NormalCredentials(s)
  {
    var r := NormalCredentials(s);
    assert r == "" || r == "true";
    TrimSpaceOfTrimmed(r);
  }

  // ------------------------------------------------------------ header maps

  /**
   * What dvcom.PrepareAccessControlLists yields for a setting: a kind (negative when
   * the setting is absent), the plain text and the set of listed values.
   */
  datatype AccessList = AccessList(Kind: int, Plain: string, Imap: set<string>)

  /** The access lists of one server's allowed origins, methods and headers and of its exposed headers. */
  datatype AclLists = AclLists(Origin: AccessList, Methods: AccessList, Headers: AccessList, Expose: AccessList)

  /** Stand-ins for dvcom.HEADERS_SET_ORIGIN and dvcom.HEADERS_SET_ORIGIN_ALWAYS; only their difference matters. */
  const HeadersSetOrigin: int := 1
  const HeadersSetOriginAlways: int := 2

  const MaxAgeHeader := "Access-Control-Max-Age"
  const CredentialsHeader := "Access-Control-Allow-Credentials"
  const CacheControlHeader := "Cache-Control"
  const ExposeHeadersHeader := "Access-Control-Expose-Headers"
  const AllowHeadersHeader := "Access-Control-Allow-Headers"
  const AllowMethodsHeader := "Access-Control-Allow-Methods"
  const AllowOriginHeader := "Access-Control-Allow-Origin"

  type Headers = map<string, seq<string>>

  /** The parts of dvmeta.MicroCoreInfo that are computed from the settings in this file. */
  datatype MicroCoreInfo = MicroCoreInfo(
    BaseRewrite: RewriteMap,
    ServerRewrite: RewriteMap,
    HeadersStatic: Headers,
    HeadersStaticOptions: Headers,
    HeadersExtraServer: Headers,
    HeadersExtraServerOptions: Headers,
    HeadersSpecial: map<string, AccessList>,
    HeadersSpecialOptions: map<string, AccessList>,
    HeadersSpecialStatic: map<string, AccessList>,
    HostHeader: string)

  /** The fields of a DvHostServer that this file reads, as one value. */
  datatype HostSettings = HostSettings(
    Hosts: string,
    AccessControlMaxAge: string,
    AccessControlAllowCredentials: string,
    CacheControl: string,
    HostHeader: string,
    AccessControlAllowOrigin: string,
    AccessControlAllowMethod: string,
    AccessControlAllowHeaders: string,
    AccessControlExposeHeaders: string,
    Rewrites: seq<DvRewrite>,
    ServerRewrites: seq<DvRewrite>,
    HeadersStatic: map<string, string>,
    HeadersStaticOptions: map<string, string>,
    HeadersExtraServer: map<string, string>,
    HeadersExtraServerOptions: map<string, string>)

  /** One header a setting may put into a map: its name, whether it is put, and its value. */
  datatype Entry<V> = Entry(Name: string, When: bool, Value: V)

  function Put<V>(m: map<string, V>, e: Entry<V>): map<string, V> {
    if e.When then m[e.Name := e.Value] else m
  }

  /** The map after the entries are put into `m` in order. */
  function Apply<V>(m: map<string, V>, entries: seq<Entry<V>>): map<string, V>
    decreases |entries|
  {
    if |entries| == 0 then m else Apply(Put(m, entries[0]), entries[1..])
  }

  /** The value the last entry named `k` that is put gives, if any. */
  function SetBy<V>(entries: seq<Entry<V>>, k: string): Option<V>
    decreases |entries|
  {
    if |entries| == 0 then None
    else
      var later := SetBy(entries[1..], k);
      if later.Some? then later
      else if entries[0].When && entries[0].Name == k then Some(entries[0].Value)
      else None
  }

  /** `h` is `base` overlaid with the entries: an entry decides each name it sets, `base` the rest. */
  ghost predicate Overlaid<V>(h: map<string, V>, base: map<string, V>, entries: seq<Entry<V>>) {
    forall k :: (k in h <==> k in base || SetBy(entries, k).Some?)
      && (k in h ==> h[k] == if SetBy(entries, k).Some? then SetBy(entries, k).value else base[k])
  }

  /** Putting the entries in order overlays them on the map. */
  lemma {:induction false} ApplyOverlays<V>(m: map<string, V>, entries: seq<Entry<V>>)
    ensures Overlaid(Apply(m, entries), m, entries)
    decreases |entries|
  {
    if |entries| > 0 {
      var m' := Put(m, entries[0]);
      ApplyOverlays(m', entries[1..]);
      forall k ensures SetBy(entries, k) == (if SetBy(entries[1..], k).Some? then SetBy(entries[1..], k)
        else if entries[0].When && entries[0].Name == k then Some(entries[0].Value) else None) {
      }
    }
  }

  lemma Apply1<V>(m: map<string, V>, a: Entry<V>)
    ensures Apply(m, [a]) == Put(m, a)
  {
    assert [a][1..] == [];
  }

  lemma Apply2<V>(m: map<string, V>, a: Entry<V>, b: Entry<V>)
    ensures Apply(m, [a, b]) == Put(Put(m, a), b)
  {
    assert [a, b][1..] == [b];
    Apply1(Put(m, a), b);
  }

  lemma Apply3<V>(m: map<string, V>, a: Entry<V>, b: Entry<V>, c: Entry<V>)
    ensures Apply(m, [a, b, c]) == Put(Put(Put(m, a), b), c)
  {
    assert [a, b, c][1..] == [b, c];
    Apply2(Put(m, a), b, c);
  }

  lemma Apply4<V>(m: map<string, V>, a: Entry<V>, b: Entry<V>, c: Entry<V>, d: Entry<V>)
    ensures Apply(m, [a, b, c, d]) == Put(Put(Put(Put(m, a), b), c), d)
  {
    assert [a, b, c, d][1..] == [b, c, d];
    Apply3(Put(m, a), b, c, d);
  }

  function OneElementLists(smap: map<string, string>): (r: Headers)
    ensures r.Keys == smap.Keys
  {
    map k | k in smap :: [smap[k]]
  }

  /** The origin list as stored: when present, its kind says whether `*` is allowed. */
  function OriginList(a: AccessList): AccessList {
    if a.Kind < 0 then a
    else a.(Kind := if "*" in a.Imap then HeadersSetOriginAlways else HeadersSetOrigin)
  }

  /** What prepareMicroCoreInfo puts into HeadersStatic: credentials, cache control, exposed headers. */
  function StaticEntries(s: HostSettings, acl: AclLists): seq<Entry<seq<string>>> {
    var cc := TrimSpace(s.CacheControl);
    var eh := acl.Expose;
    [Entry(CredentialsHeader, NormalCredentials(s.AccessControlAllowCredentials) != "", ["true"]),
     Entry(CacheControlHeader, cc != "", [cc]),
     Entry(ExposeHeadersHeader, eh.Kind >= 0, [eh.Plain])]
  }

  /** What it puts into HeadersStaticOptions: max age, credentials, allowed headers, and an empty allowed-methods list. */
  function StaticOptionsEntries(s: HostSettings, acl: AclLists): seq<Entry<seq<string>>> {
    var ma := NormalMaxAge(s.AccessControlMaxAge);
    var ah := acl.Headers;
    [Entry(MaxAgeHeader, ma != "", [ma]),
     Entry(CredentialsHeader, NormalCredentials(s.AccessControlAllowCredentials) != "", ["true"]),
     Entry(AllowHeadersHeader, ah.Kind >= 0, [ah.Plain]),
     Entry(AllowMethodsHeader, acl.Methods.Kind >= 0, [])]
  }

  /** What it puts into HeadersExtraServer: credentials and cache control. */
  function ExtraServerEntries(s: HostSettings): seq<Entry<seq<string>>> {
    var cc := TrimSpace(s.CacheControl);
    [Entry(CredentialsHeader, NormalCredentials(s.AccessControlAllowCredentials) != "", ["true"]),
     Entry(CacheControlHeader, cc != "", [cc])]
  }

  /** What it puts into HeadersExtraServerOptions: max age and credentials. */
  function ExtraServerOptionsEntries(s: HostSettings): seq<Entry<seq<string>>> {
    var ma := NormalMaxAge(s.AccessControlMaxAge);
    [Entry(MaxAgeHeader, ma != "", [ma]),
     Entry(CredentialsHeader, NormalCredentials(s.AccessControlAllowCredentials) != "", ["true"])]
  }

  function OriginEntry(acl: AclLists): Entry<AccessList> {
    Entry(AllowOriginHeader, acl.Origin.Kind >= 0, OriginList(acl.Origin))
  }

  /** HeadersSpecial: the exposed headers and the origin list. */
  function SpecialEntries(acl: AclLists): seq<Entry<AccessList>> {
    [Entry(ExposeHeadersHeader, acl.Expose.Kind >= 0, acl.Expose), OriginEntry(acl)]
  }

  /** HeadersSpecialOptions: the allowed headers, the allowed methods and the origin list. */
  function SpecialOptionsEntries(acl: AclLists): seq<Entry<AccessList>> {
    [Entry(AllowHeadersHeader, acl.Headers.Kind >= 0, acl.Headers), Entry(AllowMethodsHeader, acl.Methods.Kind >= 0, acl.Methods),
     OriginEntry(acl)]
  }

  /** The access lists dvcom.PrepareAccessControlLists, given as `lists`, yields for a server's settings. */
  function ListsOf(s: HostSettings, lists: string -> AccessList): AclLists {
    AclLists(lists(s.AccessControlAllowOrigin), lists(s.AccessControlAllowMethod),
      lists(s.AccessControlAllowHeaders), lists(s.AccessControlExposeHeaders))
  }

  /**
   * The server info prepareMicroCoreInfo derives from a server's settings as given
   * (max age and credentials normalised first) and its access lists: each header map
   * is the user's headers, as one-element lists, overlaid with the entries the
   * settings call for.
   */
  function InfoOf(s: HostSettings, acl: AclLists): MicroCoreInfo
  {
    MicroCoreInfo(
      Grouped(s.Rewrites, RewriteKey, RewriteItem),
      Grouped(s.ServerRewrites, RewriteKey, RewriteItem),
      Apply(OneElementLists(s.HeadersStatic), StaticEntries(s, acl)),
      Apply(OneElementLists(s.HeadersStaticOptions), StaticOptionsEntries(s, acl)),
      Apply(OneElementLists(s.HeadersExtraServer), ExtraServerEntries(s)),
      Apply(OneElementLists(s.HeadersExtraServerOptions), ExtraServerOptionsEntries(s)),
      Apply(map[], SpecialEntries(acl)),
      Apply(map[], SpecialOptionsEntries(acl)),
      Apply(map[], [OriginEntry(acl)]),
      TrimSpace(s.HostHeader))
  }

  /**
   * Each header map of the server info is the user's headers, as one-element lists,
   * overlaid with the entries the settings call for; the special maps start empty.
   */
  lemma InfoOfOverlays(s: HostSettings, acl: AclLists)
    ensures Overlaid(InfoOf(s, acl).HeadersStatic, OneElementLists(s.HeadersStatic), StaticEntries(s, acl))
    ensures Overlaid(InfoOf(s, acl).HeadersStaticOptions, OneElementLists(s.HeadersStaticOptions), StaticOptionsEntries(s, acl))
    ensures Overlaid(InfoOf(s, acl).HeadersExtraServer, OneElementLists(s.HeadersExtraServer), ExtraServerEntries(s))
    ensures Overlaid(InfoOf(s, acl).HeadersExtraServerOptions, OneElementLists(s.HeadersExtraServerOptions), ExtraServerOptionsEntries(s))
    ensures Overlaid(InfoOf(s, acl).HeadersSpecial, map[], SpecialEntries(acl))
    ensures Overlaid(InfoOf(s, acl).HeadersSpecialOptions, map[], SpecialOptionsEntries(acl))
    ensures Overlaid(InfoOf(s, acl).HeadersSpecialStatic, map[], [OriginEntry(acl)])
  {
    ApplyOverlays(OneElementLists(s.HeadersStatic), StaticEntries(s, acl));
    ApplyOverlays(OneElementLists(s.HeadersStaticOptions), StaticOptionsEntries(s, acl));
    ApplyOverlays(OneElementLists(s.HeadersExtraServer), ExtraServerEntries(s));
    ApplyOverlays(OneElementLists(s.HeadersExtraServerOptions), ExtraServerOptionsEntries(s));
    ApplyOverlays(map[], SpecialEntries(acl));
    ApplyOverlays(map[], SpecialOptionsEntries(acl));
    ApplyOverlays(map[], [OriginEntry(acl)]);
  }

  // ---------------------------------------------------------- host servers

  /** A configured server; prepareMicroCoreInfo rewrites two of its fields in place. */
  class DvHostServer {
    var Hosts: string
    var AccessControlMaxAge: string
    var AccessControlAllowCredentials: string
    var CacheControl: string
    var HostHeader: string
    var AccessControlAllowOrigin: string
    var AccessControlAllowMethod: string
    var AccessControlAllowHeaders: string
    var AccessControlExposeHeaders: string
    var Rewrites: seq<DvRewrite>
    var ServerRewrites: seq<DvRewrite>
    var HeadersStatic: map<string, string>
    var HeadersStaticOptions: map<string, string>
    var HeadersExtraServer: map<string, string>
    var HeadersExtraServerOptions: map<string, string>

    function Settings(): HostSettings
      reads this
    {
      HostSettings(Hosts, AccessControlMaxAge, AccessControlAllowCredentials, CacheControl, HostHeader,
        AccessControlAllowOrigin, AccessControlAllowMethod, AccessControlAllowHeaders, AccessControlExposeHeaders,
        Rewrites, ServerRewrites, HeadersStatic, HeadersStaticOptions, HeadersExtraServer, HeadersExtraServerOptions)
    }

    /** A server holding the given settings (also the copy a `range` loop makes of a slice element). */
    constructor (s: HostSettings)
      ensures Settings() == s
    {
      Hosts, AccessControlMaxAge, AccessControlAllowCredentials := s.Hosts, s.AccessControlMaxAge, s.AccessControlAllowCredentials;
      CacheControl, HostHeader := s.CacheControl, s.HostHeader;
      AccessControlAllowOrigin, AccessControlAllowMethod := s.AccessControlAllowOrigin, s.AccessControlAllowMethod;
      AccessControlAllowHeaders, AccessControlExposeHeaders := s.AccessControlAllowHeaders, s.AccessControlExposeHeaders;
      Rewrites, ServerRewrites := s.Rewrites, s.ServerRewrites;
      HeadersStatic, HeadersStaticOptions := s.HeadersStatic, s.HeadersStaticOptions;
      HeadersExtraServer, HeadersExtraServerOptions := s.HeadersExtraServer, s.HeadersExtraServerOptions;
    }
  }

  /** The CORS settings normalised in place, as the first lines of prepareMicroCoreInfo do. */
  method NormalizeSettings(server: DvHostServer)
    modifies server`AccessControlMaxAge, server`AccessControlAllowCredentials
    ensures server.AccessControlMaxAge == NormalMaxAge(old(server.AccessControlMaxAge))
    ensures server.AccessControlAllowCredentials == NormalCredentials(old(server.AccessControlAllowCredentials))
  {
    server.AccessControlMaxAge := TrimSpace(server.AccessControlMaxAge);
    if server.AccessControlMaxAge != "" {
      if !AtoiAccepts(server.AccessControlMaxAge) {
        server.AccessControlMaxAge := "";
      }
    }
    assert server.AccessControlMaxAge == NormalMaxAge(old(server.AccessControlMaxAge));
    server.AccessControlAllowCredentials := TrimSpace(server.AccessControlAllowCredentials);
    if server.AccessControlAllowCredentials != "" {
      if server.AccessControlAllowCredentials == "false" {
        server.AccessControlAllowCredentials := "";
      } else if server.AccessControlAllowCredentials != "true" {
        server.AccessControlAllowCredentials := "";
      }
    }
    assert server.AccessControlAllowCredentials == NormalCredentials(old(server.AccessControlAllowCredentials));
  }

  /** The base of a header map: the user's headers as one-element lists. */
  method UserHeaders(smap: map<string, string>) returns (r: Headers)
    ensures r == OneElementLists(smap)
  {
    r := PrepareMapOfStringArrays(smap);
  }

  /*
   * prepareMicroCoreInfo writes its headers setting by setting, each setting into
   * the maps it concerns; a conditional write `if cond { m[name] = value }` is
   * Put(m, Entry(name, cond, value)). Writes to different maps do not interact, so
   * the builders below each fill one map, with its writes in the order of the source.
   */

  /** HeadersStatic: credentials, cache control, exposed headers. */
  method FillStatic(s: HostSettings, credentials: string, acl: AclLists) returns (h: Headers)
    requires credentials == NormalCredentials(s.AccessControlAllowCredentials)
    ensures h == Apply(OneElementLists(s.HeadersStatic), StaticEntries(s, acl))
  {
    h := UserHeaders(s.HeadersStatic);
    var credentialsEntry := Entry(CredentialsHeader, credentials != "", ["true"]);
    h := Put(h, credentialsEntry);
    var cacheControl := TrimSpace(s.CacheControl);
    var cacheEntry := Entry(CacheControlHeader, cacheControl != "", [cacheControl]);
    h := Put(h, cacheEntry);
    var exposeEntry := Entry(ExposeHeadersHeader, acl.Expose.Kind >= 0, [acl.Expose.Plain]);
    h := Put(h, exposeEntry);
    Apply3(OneElementLists(s.HeadersStatic), credentialsEntry, cacheEntry, exposeEntry);
  }

  /** HeadersStaticOptions: max age, credentials, allowed headers, and an empty allowed-methods list. */
  method FillStaticOptions(s: HostSettings, maxAge: string, credentials: string, acl: AclLists) returns (h: Headers)
    requires maxAge == NormalMaxAge(s.AccessControlMaxAge)
    requires credentials == NormalCredentials(s.AccessControlAllowCredentials)
    ensures h == Apply(OneElementLists(s.HeadersStaticOptions), StaticOptionsEntries(s, acl))
  {
    h := UserHeaders(s.HeadersStaticOptions);
    var maxAgeEntry := Entry(MaxAgeHeader, maxAge != "", [maxAge]);
    h := Put(h, maxAgeEntry);
    var credentialsEntry := Entry(CredentialsHeader, credentials != "", ["true"]);
    h := Put(h, credentialsEntry);
    var allowHeadersEntry := Entry(AllowHeadersHeader, acl.Headers.Kind >= 0, [acl.Headers.Plain]);
    h := Put(h, allowHeadersEntry);
    var allowMethodsEntry := Entry(AllowMethodsHeader, acl.Methods.Kind >= 0, []);
    h := Put(h, allowMethodsEntry);
    Apply4(OneElementLists(s.HeadersStaticOptions), maxAgeEntry, credentialsEntry, allowHeadersEntry, allowMethodsEntry);
  }

  /** HeadersExtraServer: credentials and cache control. */
  method FillExtraServer(s: HostSettings, credentials: string) returns (h: Headers)
    requires credentials == NormalCredentials(s.AccessControlAllowCredentials)
    ensures h == Apply(OneElementLists(s.HeadersExtraServer), ExtraServerEntries(s))
  {
    h := UserHeaders(s.HeadersExtraServer);
    var credentialsEntry := Entry(CredentialsHeader, credentials != "", ["true"]);
    h := Put(h, credentialsEntry);
    var cacheControl := TrimSpace(s.CacheControl);
    var cacheEntry := Entry(CacheControlHeader, cacheControl != "", [cacheControl]);
    h := Put(h, cacheEntry);
    Apply2(OneElementLists(s.HeadersExtraServer), credentialsEntry, cacheEntry);
  }

  /** HeadersExtraServerOptions: max age and credentials. */
  method FillExtraServerOptions(s: HostSettings, maxAge: string, credentials: string) returns (h: Headers)
    requires maxAge == NormalMaxAge(s.AccessControlMaxAge)
    requires credentials == NormalCredentials(s.AccessControlAllowCredentials)
    ensures h == Apply(OneElementLists(s.HeadersExtraServerOptions), ExtraServerOptionsEntries(s))
  {
    h := UserHeaders(s.HeadersExtraServerOptions);
    var maxAgeEntry := Entry(MaxAgeHeader, maxAge != "", [maxAge]);
    h := Put(h, maxAgeEntry);
    var credentialsEntry := Entry(CredentialsHeader, credentials != "", ["true"]);
    h := Put(h, credentialsEntry);
    Apply2(OneElementLists(s.HeadersExtraServerOptions), maxAgeEntry, credentialsEntry);
  }

  /** The three maps of access lists: exposed headers, allowed headers and methods, and the origin list in all three. */
  method FillSpecial(acl: AclLists)
    returns (special: map<string, AccessList>, specialOptions: map<string, AccessList>, specialStatic: map<string, AccessList>)
    ensures special == Apply(map[], SpecialEntries(acl))
    ensures specialOptions == Apply(map[], SpecialOptionsEntries(acl))
    ensures specialStatic == Apply(map[], [OriginEntry(acl)])
  {
    special, specialOptions, specialStatic := map[], map[], map[];
    var exposeEntry := Entry(ExposeHeadersHeader, acl.Expose.Kind >= 0, acl.Expose);
    special := Put(special, exposeEntry);
    var allowHeadersEntry := Entry(AllowHeadersHeader, acl.Headers.Kind >= 0, acl.Headers);
    specialOptions := Put(specialOptions, allowHeadersEntry);
    var allowMethodsEntry := Entry(AllowMethodsHeader, acl.Methods.Kind >= 0, acl.Methods);
    specialOptions := Put(specialOptions, allowMethodsEntry);
    var allowOrigin := MarkOrigin(acl.Origin);
    var originEntry := Entry(AllowOriginHeader, allowOrigin.Kind >= 0, allowOrigin);
    special := Put(special, originEntry);
    specialOptions := Put(specialOptions, originEntry);
    specialStatic := Put(specialStatic, originEntry);
    Apply2(map[], exposeEntry, originEntry);
    Apply3(map[], allowHeadersEntry, allowMethodsEntry, originEntry);
    Apply1(map[], originEntry);
  }

  /** Everything prepareMicroCoreInfo computes after normalising, from the normalised max age and credentials. */
  method FillInfo(s: HostSettings, maxAge: string, credentials: string, acl: AclLists) returns (info: MicroCoreInfo)
    requires maxAge == NormalMaxAge(s.AccessControlMaxAge)
    requires credentials == NormalCredentials(s.AccessControlAllowCredentials)
    ensures info == InfoOf(s, acl)
  {
    var baseRewrite := PrepareComRewriteMap(s.Rewrites);
    var serverRewrite := PrepareComRewriteMap(s.ServerRewrites);
    var headersStatic := FillStatic(s, credentials, acl);
    var headersStaticOptions := FillStaticOptions(s, maxAge, credentials, acl);
    var headersExtraServer := FillExtraServer(s, credentials);
    var headersExtraServerOptions := FillExtraServerOptions(s, maxAge, credentials);
    var special, specialOptions, specialStatic := FillSpecial(acl);
    info := MicroCoreInfo(baseRewrite, serverRewrite, headersStatic, headersStaticOptions,
      headersExtraServer, headersExtraServerOptions, special, specialOptions, specialStatic,
      TrimSpace(s.HostHeader));
  }

  /** The kind of a present origin list set to say whether `*` is allowed. */
  method MarkOrigin(a: AccessList) returns (r: AccessList)
    ensures r == OriginList(a)
  {
    r := a;
    if r.Kind >= 0 {
      r := r.(Kind := HeadersSetOrigin);
      if "*" in r.Imap {
        r := r.(Kind := HeadersSetOriginAlways);
      }
    }
  }

  /** prepareMicroCoreInfo: normalises the server's settings in place and derives its server info. */
  method PrepareMicroCoreInfo(server: DvHostServer, lists: string -> AccessList) returns (info: MicroCoreInfo)
    modifies server`AccessControlMaxAge, server`AccessControlAllowCredentials
    ensures server.AccessControlMaxAge == NormalMaxAge(old(server.AccessControlMaxAge))
    ensures server.AccessControlAllowCredentials == NormalCredentials(old(server.AccessControlAllowCredentials))
    ensures info == ServerInfo(old(server.Settings()), lists)
  {
    var given := server.Settings();
    NormalizeSettings(server);
    var acl := AclLists(lists(server.AccessControlAllowOrigin), lists(server.AccessControlAllowMethod),
      lists(server.AccessControlAllowHeaders), lists(server.AccessControlExposeHeaders));
    info := FillInfo(given, server.AccessControlMaxAge, server.AccessControlAllowCredentials, acl);
  }

  /** The host names of a server: its trimmed Hosts split on single spaces. */
  function HostsOf(s: HostSettings): (hosts: seq<string>)
    ensures |hosts| >= 1
  {
    Split(TrimSpace(s.Hosts), ' ')
  }

  /** A server is omitted exactly when its Hosts setting is blank. */
  lemma OmittedIffBlank(s: HostSettings)
    ensures Omitted(HostsOf(s)) <==> AllSpace(s.Hosts)
  {
    var t := TrimSpace(s.Hosts);
    SplitHead(t, ' ');
    if |t| > 0 {
      assert !IsSpace(t[0]);
    }
  }

  /** The info a server is registered with. */
  function ServerInfo(s: HostSettings, lists: string -> AccessList): MicroCoreInfo {
    InfoOf(s, ListsOf(s, lists))
  }

  /** One pass of the registration loop: an omitted server is skipped, otherwise its copy is prepared and its hosts added. */
  method RegisterServer(m: map<string, MicroCoreInfo>, s: HostSettings, lists: string -> AccessList)
    returns (r: map<string, MicroCoreInfo>)
    ensures r == if Omitted(HostsOf(s)) then m else AddHosts(m, HostsOf(s), ServerInfo(s, lists))
  {
    var hosts := Split(TrimSpace(s.Hosts), ' ');
    if |hosts| == 0 || hosts[0] == "" {
      return m;
    }
    var c := new DvHostServer(s);
    var serverInfo := PrepareMicroCoreInfo(c, lists);
    r := RegisterHosts(m, hosts, serverInfo);
  }

  /** ServerInfo as a function of the settings alone, for a given `lists`. */
  function InfoFn(lists: string -> AccessList): (f: HostSettings -> MicroCoreInfo)
    ensures forall s :: f(s) == ServerInfo(s, lists)
  {
    s => ServerInfo(s, lists)
  }

  /**
   * The registration loop of ProcessBaseFolder over the host servers (a slice of
   * values, each copied by the loop): each server that is not omitted has its copy
   * prepared, and each of its hosts not claimed before is mapped to that copy's info.
   */
  method RegisterHostServers(hostServers: seq<HostSettings>, lists: string -> AccessList)
    returns (hostServerInfo: map<string, MicroCoreInfo>)
    ensures hostServerInfo == Claimed(hostServers, HostsOf, InfoFn(lists))
  {
    hostServerInfo := map[];
    for i := 0 to |hostServers|
      invariant hostServerInfo == Claimed(hostServers[..i], HostsOf, InfoFn(lists))
    {
      ClaimedStep(hostServers, HostsOf, InfoFn(lists), i);
      hostServerInfo := RegisterServer(hostServerInfo, hostServers[i], lists);
    }
    assert hostServers[..|hostServers|] == hostServers;
  }

  /** A host is in the host map of ProcessBaseFolder exactly when some host server claims it. */
  lemma HostRegisteredIffClaimed(hostServers: seq<HostSettings>, lists: string -> AccessList, host: string)
    ensures host in Claimed(hostServers, HostsOf, InfoFn(lists))
      <==> exists j :: 0 <= j < |hostServers| && Claims(HostsOf, hostServers[j], host)
  {
    ClaimedHosts(hostServers, HostsOf, InfoFn(lists), host);
  }

  /**
   * First wins, for the host map of ProcessBaseFolder: a host is registered exactly
   * when some host server claims it, and then it is served with the info of the
   * first one that does.
   */
  lemma HostServedByFirstClaimant(hostServers: seq<HostSettings>, lists: string -> AccessList, host: string, j: nat)
    requires j < |hostServers| && Claims(HostsOf, hostServers[j], host)
    requires forall i :: 0 <= i < j ==> !Claims(HostsOf, hostServers[i], host)
    ensures var m := Claimed(hostServers, HostsOf, InfoFn(lists));
      host in m && m[host] == ServerInfo(hostServers[j], lists)
  {
    ClaimedFirstWins(hostServers, HostsOf, InfoFn(lists), host, j);
  }

  /** What ProcessBaseFolder hands to the default handler: the default server's info and the host map. */
  datatype ServerSetup = ServerSetup(DefaultInfo: MicroCoreInfo, HostInfo: map<string, MicroCoreInfo>)

  /**
   * ProcessBaseFolder: nothing happens without a default server and host servers; a nil
   * default server beside host servers is dereferenced by the source, so it is excluded.
   */
  method ProcessBaseFolder(server: DvHostServer?, hostServers: seq<HostSettings>, lists: string -> AccessList)
    returns (setup: Option<ServerSetup>)
    requires server != null || |hostServers| == 0
    modifies server
    ensures server == null <==> setup.None?
    ensures server != null ==> server.Settings() == old(server.Settings()).(
      AccessControlMaxAge := NormalMaxAge(old(server.AccessControlMaxAge)),
      AccessControlAllowCredentials := NormalCredentials(old(server.AccessControlAllowCredentials)))
    ensures server != null ==> setup.value.DefaultInfo == ServerInfo(old(server.Settings()), lists)
    ensures setup.Some? ==> setup.value.HostInfo == Claimed(hostServers, HostsOf, InfoFn(lists))
  {
    if server != null || |hostServers| > 0 {
      var defaultServerInfo := PrepareMicroCoreInfo(server, lists);
      assert server.Settings() == old(server.Settings()).(
        AccessControlMaxAge := server.AccessControlMaxAge,
        AccessControlAllowCredentials := server.AccessControlAllowCredentials);
      var hostServerInfo := RegisterHostServers(hostServers, lists);
      setup := Some(ServerSetup(defaultServerInfo, hostServerInfo));
    } else {
      setup := None;
    }
  }
}
