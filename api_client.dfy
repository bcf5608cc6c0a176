/**
 * The API client: the base url assembled from protocol, host and port,
 * the rewriting of a route path into an API request url, the envelope a
 * request resolves to, and `toHtml`.
 *
 * The HTTP call is the parameter `server`, which maps a request url to what
 * the HTTP library resolves or rejects with; the Markdown renderer is the
 * parameter `marked`.
 */
module ApiClient {
  import opened Outcomes
  import opened Resources

  // ---------------------------------------------------------------------
  // Base url

  /** The protocol, host and port settings, each possibly unset. */
  datatype Endpoint = Endpoint(protocol: Option<string>, host: Option<string>, port: Option<string>)

  /** Each build setting wins when truthy; otherwise the environment's is used. */
  function Resolve(build: Endpoint, env: Endpoint): (r: Endpoint)
    ensures Truthy(r.protocol) <==> Truthy(build.protocol) || Truthy(env.protocol)
    ensures Truthy(r.host) <==> Truthy(build.host) || Truthy(env.host)
    ensures Truthy(r.port) <==> Truthy(build.port) || Truthy(env.port)
    ensures Truthy(build.protocol) ==> r.protocol == build.protocol
    ensures Truthy(build.host) ==> r.host == build.host
    ensures Truthy(build.port) ==> r.port == build.port
    ensures !Truthy(build.protocol) ==> r.protocol == env.protocol
    ensures !Truthy(build.host) ==> r.host == env.host
    ensures !Truthy(build.port) ==> r.port == env.port
  {
    Endpoint(
      if Truthy(build.protocol) then build.protocol else env.protocol,
      if Truthy(build.host) then build.host else env.host,
      if Truthy(build.port) then build.port else env.port)
  }

  /** How many characters `protocol:` takes in the base url: none when unset. */
  function ProtocolLength(e: Endpoint): nat
  {
    if Truthy(e.protocol) then |e.protocol.value| + 1 else 0
  }

  /** `protocol:`, then `//host`, then `:port`, each only when set. */
  function BaseUrl(e: Endpoint): (r: string)
    ensures r == "" <==> !Truthy(e.protocol) && !Truthy(e.host) && !Truthy(e.port)
    ensures Truthy(e.protocol) ==> |r| > |e.protocol.value| && r[..|e.protocol.value| + 1] == e.protocol.value + ":"
    ensures !Truthy(e.protocol) && Truthy(e.host) ==> |r| >= |e.host.value| + 2 && r[..|e.host.value| + 2] == "//" + e.host.value
    ensures Truthy(e.port) ==> |r| > |e.port.value| && r[|r| - |e.port.value| - 1..] == ":" + e.port.value
    ensures !Truthy(e.port) && Truthy(e.host) ==> |r| >= |e.host.value| + 2 && r[|r| - |e.host.value| - 2..] == "//" + e.host.value
    ensures |r| == ProtocolLength(e) + (if Truthy(e.host) then |e.host.value| + 2 else 0) + (if Truthy(e.port) then |e.port.value| + 1 else 0)
    ensures Truthy(e.host) ==>
      (|r| >= ProtocolLength(e) + |e.host.value| + 2
       && r[ProtocolLength(e)..ProtocolLength(e) + |e.host.value| + 2] == "//" + e.host.value)
  {
    var p := if Truthy(e.protocol) then e.protocol.value + ":" else "";
    var h := if Truthy(e.host) then "//" + e.host.value else "";
    var q := if Truthy(e.port) then ":" + e.port.value else "";
    assert (p + h + q)[..|p|] == p;
    assert (p + h + q)[|p|..|p| + |h|] == h;
    assert (p + h + q)[|p + h + q| - |q|..] == q;
    assert !Truthy(e.port) ==> (p + h + q)[|p + h + q| - |h|..] == h;
    p + h + q
  }

  // ---------------------------------------------------------------------
  // Slashes

  /** No '/' directly followed by another '/'. */
  predicate NoDoubleSlash(s: string)
  {
    forall i, j :: 0 <= i < |s| && 0 <= j < |s| && j == i + 1 ==> !(s[i] == '/' && s[j] == '/')
  }

  /** `s` with every '/' taken out. */
  function WithoutSlashes(s: string): string
  {
    if s == [] then [] else (if s[0] == '/' then [] else [s[0]]) + WithoutSlashes(s[1..])
  }

  /**
   * `s.replace(/\/+$/, '')`: drops the run of '/' at the end. The result is
   * the longest prefix of `s` that is followed only by slashes and does not
   * itself end with one.
   */
  function StripTrailingSlashes(s: string): (r: string)
    ensures |r| <= |s| && r == s[..|r|]
    ensures forall i :: |r| <= i < |s| ==> s[i] == '/'
    ensures r == [] || r[|r| - 1] != '/'
  {
    if s != [] && s[|s| - 1] == '/' then StripTrailingSlashes(s[..|s| - 1]) else s
  }

  /**
   * `s.replace(/\/+/g, '/')`: every run of slashes becomes one. The first
   * and last characters stay; see CollapseLeavesNoDoubleSlash,
   * CollapseOnlyRemovesSlashes and CollapseKeepsClean for the rest.
   */
  function CollapseSlashes(s: string): (r: string)
    ensures |s| > 0 ==> |r| > 0 && r[0] == s[0] && r[|r| - 1] == s[|s| - 1]
  {
    if |s| <= 1 then s
    else if s[0] == '/' && s[1] == '/' then CollapseSlashes(s[1..])
    else [s[0]] + CollapseSlashes(s[1..])
  }

  /** After collapsing no '/' is followed by another. */
  lemma {:induction false} CollapseLeavesNoDoubleSlash(s: string)
    ensures NoDoubleSlash(CollapseSlashes(s))
  {
    if |s| > 1 {
      CollapseLeavesNoDoubleSlash(s[1..]);
      if !(s[0] == '/' && s[1] == '/') {
        NoDoubleSlashConcat([s[0]], CollapseSlashes(s[1..]));
      }
    }
  }

  /** Collapsing removes slashes and nothing else. */
  lemma {:induction false} CollapseOnlyRemovesSlashes(s: string)
    ensures WithoutSlashes(CollapseSlashes(s)) == WithoutSlashes(s)
  {
    if |s| > 1 {
      CollapseOnlyRemovesSlashes(s[1..]);
      if !(s[0] == '/' && s[1] == '/') {
        assert ([s[0]] + CollapseSlashes(s[1..]))[1..] == CollapseSlashes(s[1..]);
      }
    }
  }

  /** A string without a double slash is left as it is. */
  lemma {:induction false} CollapseKeepsClean(s: string)
    requires NoDoubleSlash(s)
    ensures CollapseSlashes(s) == s
  {
    if |s| > 1 {
      assert !(s[0] == '/' && s[1] == '/');
      assert NoDoubleSlash(s[1..]) by {
        forall i | 0 <= i < |s[1..]| - 1 ensures !(s[1..][i] == '/' && s[1..][i + 1] == '/') {
          assert s[1..][i] == s[i + 1] && s[1..][i + 1] == s[i + 2];
        }
      }
      CollapseKeepsClean(s[1..]);
      assert s == [s[0]] + s[1..];
    }
  }

  lemma NoDoubleSlashConcat(a: string, b: string)
    requires NoDoubleSlash(a) && NoDoubleSlash(b)
    requires a == [] || b == [] || a[|a| - 1] != '/' || b[0] != '/'
    ensures NoDoubleSlash(a + b)
  {
    var s := a + b;
    forall i | 0 <= i < |s| - 1 ensures !(s[i] == '/' && s[i + 1] == '/') {
      if i + 1 < |a| {
        assert s[i] == a[i] && s[i + 1] == a[i + 1];
      } else if i >= |a| {
        assert s[i] == b[i - |a|] && s[i + 1] == b[i - |a| + 1];
      }
    }
  }

  lemma NoSlashIsClean(b: string)
    requires '/' !in b
    ensures NoDoubleSlash(b)
  {
    forall i | 0 <= i < |b| - 1 ensures b[i] != '/' {
      assert b[i] in b;
    }
  }

  /** One step of collapsing: a character not starting a "//" is kept. */
  lemma CollapseCons(c: char, t: string)
    requires |t| > 0 && !(c == '/' && t[0] == '/')
    ensures CollapseSlashes([c] + t) == [c] + CollapseSlashes(t)
  {
    assert ([c] + t)[1..] == t;
  }

  /** One step of collapsing: the first '/' of a "//" is dropped. */
  lemma CollapseConsSlash(t: string)
    requires |t| > 0 && t[0] == '/'
    ensures CollapseSlashes(['/'] + t) == CollapseSlashes(t)
  {
    assert (['/'] + t)[1..] == t;
  }

  /** A run of slashes collapses like a single '/': "//" anywhere counts as "/". */
  lemma {:induction false} CollapseDoubleSlash(a: string, b: string)
    ensures CollapseSlashes(a + "//" + b) == CollapseSlashes(a + "/" + b)
  {
    if a == [] {
      assert a + "//" + b == ['/'] + ("/" + b);
      assert a + "/" + b == "/" + b;
      CollapseConsSlash("/" + b);
    } else {
      var t2, t1 := a[1..] + "//" + b, a[1..] + "/" + b;
      assert a + "//" + b == [a[0]] + t2;
      assert a + "/" + b == [a[0]] + t1;
      assert t2[0] == t1[0];
      CollapseDoubleSlash(a[1..], b);
      if a[0] == '/' && t1[0] == '/' {
        CollapseConsSlash(t2);
        CollapseConsSlash(t1);
      } else {
        CollapseCons(a[0], t2);
        CollapseCons(a[0], t1);
      }
    }
  }

  /** Appending slash-free text to one character collapses nothing. */
  lemma CollapseAppendOne(c: char, b: string)
    requires '/' !in b && |b| > 0
    ensures CollapseSlashes([c] + b) == [c] + b
  {
    NoSlashIsClean(b);
    CollapseKeepsClean(b);
    assert b[0] in b;
    CollapseCons(c, b);
  }

  /** Appending slash-free text commutes with collapsing. */
  lemma {:induction false} CollapseAppend(a: string, b: string)
    requires '/' !in b
    ensures CollapseSlashes(a + b) == CollapseSlashes(a) + b
  {
    if |a| == 0 {
      NoSlashIsClean(b);
      CollapseKeepsClean(b);
      assert a + b == b;
    } else if |b| == 0 {
      assert a + b == a;
    } else if |a| == 1 {
      CollapseAppendOne(a[0], b);
      assert a == [a[0]];
    } else {
      var t := a[1..];
      CollapseAppend(t, b);
      CollapseAppendStep(a, b);
    }
  }

  lemma CollapseAppendStep(a: string, b: string)
    requires |a| > 1 && CollapseSlashes(a[1..] + b) == CollapseSlashes(a[1..]) + b
    ensures CollapseSlashes(a + b) == CollapseSlashes(a) + b
  {
    var t := a[1..];
    assert a == [a[0]] + t;
    assert a + b == [a[0]] + (t + b);
    if a[0] == '/' && t[0] == '/' {
      CollapseAppendDrop(t, b);
    } else {
      CollapseAppendKeep(a[0], t, b);
    }
  }

  lemma CollapseAppendDrop(t: string, b: string)
    requires |t| > 0 && t[0] == '/' && CollapseSlashes(t + b) == CollapseSlashes(t) + b
    ensures CollapseSlashes(['/'] + (t + b)) == CollapseSlashes(['/'] + t) + b
  {
    CollapseConsSlash(t + b);
    CollapseConsSlash(t);
  }

  lemma CollapseAppendKeep(c: char, t: string, b: string)
    requires |t| > 0 && !(c == '/' && t[0] == '/') && CollapseSlashes(t + b) == CollapseSlashes(t) + b
    ensures CollapseSlashes([c] + (t + b)) == CollapseSlashes([c] + t) + b
  {
    var u := t + b;
    assert u[0] == t[0];
    CollapseCons(c, u);
    CollapseCons(c, t);
    var ct := CollapseSlashes(t);
    calc {
      CollapseSlashes([c] + u);
      [c] + CollapseSlashes(u);
      [c] + (ct + b);
      { ConsAppend(c, ct, b); }
      ([c] + ct) + b;
      CollapseSlashes([c] + t) + b;
    }
  }

  lemma ConsAppend(c: char, x: string, y: string)
    ensures [c] + (x + y) == ([c] + x) + y
  {
  }

  // ---------------------------------------------------------------------
  // encodeURI

  /** The characters `encodeURI` leaves alone. */
  predicate Unescaped(c: char)
  {
    ('a' <= c <= 'z') || ('A' <= c <= 'Z') || ('0' <= c <= '9') || c in "-_.!~*'();/?:@&=+$,#"
  }

  function HexDigit(n: nat): (c: char)
    requires n < 16
    ensures Unescaped(c) && c != '/'
  {
    "0123456789ABCDEF"[n]
  }

  /** The UTF-8 encoding of a code point. */
  function Utf8(cp: nat): (r: seq<nat>)
    requires cp < 0x11_0000
    ensures 1 <= |r| <= 4
    ensures forall i :: 0 <= i < |r| ==> r[i] < 256
  {
    if cp < 0x80 then [cp]
    else if cp < 0x800 then [0xC0 + cp / 64, 0x80 + cp % 64]
    else if cp < 0x1_0000 then [0xE0 + cp / 4096, 0x80 + (cp / 64) % 64, 0x80 + cp % 64]
    else [0xF0 + cp / 262144, 0x80 + (cp / 4096) % 64, 0x80 + (cp / 64) % 64, 0x80 + cp % 64]
  }

  /** `%XY` per byte, upper-case hex. */
  function PercentEncode(bytes: seq<nat>): (r: string)
    requires forall i :: 0 <= i < |bytes| ==> bytes[i] < 256
    ensures |r| == 3 * |bytes|
    ensures |r| > 0 ==> r[0] == '%'
    ensures forall i :: 0 <= i < |r| ==> r[i] == '%' || (Unescaped(r[i]) && r[i] != '/')
  {
    if bytes == [] then ""
    else
      var rest := PercentEncode(bytes[1..]);
      var r := ['%', HexDigit(bytes[0] / 16), HexDigit(bytes[0] % 16)] + rest;
      assert forall i :: 3 <= i < |r| ==> r[i] == rest[i - 3];
      r
  }

  /** What `encodeURI` makes of one character. */
  function EncodeChar(c: char): (r: string)
    ensures |r| > 0
    ensures Unescaped(c) ==> r == [c]
    ensures forall i :: 0 <= i < |r| ==> r[i] == '%' || Unescaped(r[i])
    ensures r[0] == '/' <==> c == '/'
    ensures r[|r| - 1] == '/' <==> c == '/'
  {
    if Unescaped(c) then [c] else PercentEncode(Utf8(c as nat))
  }

  /** Every character is '%' or one `encodeURI` leaves alone. */
  predicate Encoded(r: string)
  {
    forall i :: 0 <= i < |r| ==> r[i] == '%' || Unescaped(r[i])
  }

  lemma EncodedConcat(a: string, b: string)
    requires Encoded(a) && Encoded(b)
    ensures Encoded(a + b)
  {
    var r := a + b;
    forall i | 0 <= i < |r| ensures r[i] == '%' || Unescaped(r[i]) {
      if i < |a| { assert r[i] == a[i]; } else { assert r[i] == b[i - |a|]; }
    }
  }

  /**
   * `encodeURI`: characters outside the unescaped set become the percent
   * escapes of their UTF-8 bytes, so every output character is unescaped or
   * '%'.
   */
  function EncodeUri(s: string): (r: string)
    ensures Encoded(r)
    ensures |s| == 0 <==> |r| == 0
  {
    if s == [] then ""
    else
      var head := EncodeChar(s[0]);
      var rest := EncodeUri(s[1..]);
      EncodedConcat(head, rest);
      head + rest
  }

  /** Encoding neither adds nor removes a '/' at either end. */
  lemma {:induction false} EncodeUriEnds(s: string)
    requires |s| > 0
    ensures EncodeUri(s)[0] == '/' <==> s[0] == '/'
    ensures EncodeUri(s)[|EncodeUri(s)| - 1] == '/' <==> s[|s| - 1] == '/'
  {
    var head := EncodeChar(s[0]);
    var rest := EncodeUri(s[1..]);
    assert EncodeUri(s) == head + rest;
    if |s| > 1 {
      EncodeUriEnds(s[1..]);
      assert s[1..][|s[1..]| - 1] == s[|s| - 1];
    }
  }

  /** A string of unescaped characters is returned as it is. */
  lemma {:induction false} EncodeUriKeepsUnescaped(s: string)
    requires forall i :: 0 <= i < |s| ==> Unescaped(s[i])
    ensures EncodeUri(s) == s
  {
    if s != [] {
      assert forall i :: 0 <= i < |s[1..]| ==> s[1..][i] == s[i + 1];
      EncodeUriKeepsUnescaped(s[1..]);
      assert s == [s[0]] + s[1..];
    }
  }

  // ---------------------------------------------------------------------
  // Request url

  /** The route path rewritten for the resource type, before stripping and encoding. */
  function Rewrite(path: string, kind: string): string
  {
    if kind == "page" then "/api/page" + (if path == "/" then "/index" else path)
    else if kind == "data" then "/api" + path
    else path
  }

  /**
   * A page gets `/api/page` in front, data `/api`, any other type nothing;
   * the route path itself is kept, except that the root page is asked for
   * as `/index`.
   */
  lemma RewriteShape(path: string, kind: string)
    ensures var r := Rewrite(path, kind);
      && (kind == "page" ==> |r| >= 9 && r[..9] == "/api/page")
      && (kind == "data" ==> |r| >= 4 && r[..4] == "/api")
      && (kind != "page" && kind != "data" ==> r == path)
      && (!(kind == "page" && path == "/") ==> |r| >= |path| && r[|r| - |path|..] == path)
      && (kind == "page" && path == "/" ==> r[9..] == "/index")
      && (kind == "page" && path != "/" ==> |r| == 9 + |path|)
      && (kind == "data" ==> |r| == 4 + |path|)
  {
  }

  /**
   * What `fetchApi` appends to the base url: the rewritten, stripped and
   * encoded path between '/' and '.json', with runs of slashes collapsed.
   */
  function ApiPath(path: string, kind: string): (r: string)
    ensures |r| >= 6 && r[0] == '/' && r[|r| - 5..] == ".json"
    ensures NoDoubleSlash(r)
  {
    var x := "/" + EncodeUri(StripTrailingSlashes(Rewrite(path, kind)));
    CollapseAppend(x, ".json");
    CollapseLeavesNoDoubleSlash(x + ".json");
    assert '/' !in ".json";
    CollapseSlashes(x + ".json")
  }

  /** The url `fetchApi` requests. */
  function RequestUrl(base: string, path: string, kind: string): string
  {
    base + ApiPath(path, kind)
  }

  /** The base url, then a path that starts with '/', ends with `.json` and has no "//". */
  lemma RequestUrlShape(base: string, path: string, kind: string)
    ensures var r := RequestUrl(base, path, kind);
      && |r| >= |base| + 6 && r[..|base|] == base
      && r[|base|] == '/' && r[|r| - 5..] == ".json"
      && NoDoubleSlash(r[|base|..])
  {
    var r := RequestUrl(base, path, kind);
    assert r[|base|..] == ApiPath(path, kind);
  }

  /** A well-formed route path: absolute, no trailing or doubled slash, nothing to escape. */
  predicate CleanPath(p: string)
  {
    && |p| > 0 && p[0] == '/' && p[|p| - 1] != '/'
    && NoDoubleSlash(p)
    && forall i :: 0 <= i < |p| ==> Unescaped(p[i])
  }

  /** A clean rewritten path is requested as `<path>.json`. */
  lemma CleanApiPath(path: string, kind: string)
    requires CleanPath(Rewrite(path, kind))
    ensures ApiPath(path, kind) == Rewrite(path, kind) + ".json"
  {
    var q := Rewrite(path, kind);
    assert StripTrailingSlashes(q) == q;
    EncodeUriKeepsUnescaped(q);
    var x := "/" + q;
    assert '/' !in ".json";
    CollapseAppend(x, ".json");
    assert x[0] == '/' && x[1] == '/' && x[1..] == q;
    CollapseKeepsClean(q);
    assert CollapseSlashes(x) == q;
  }

  lemma CleanPrefixed(prefix: string, p: string)
    requires CleanPath(prefix) && CleanPath(p)
    ensures CleanPath(prefix + p)
  {
    NoDoubleSlashConcat(prefix, p);
    var s := prefix + p;
    forall i | 0 <= i < |s| ensures Unescaped(s[i]) {
      if i < |prefix| { assert s[i] == prefix[i]; } else { assert s[i] == p[i - |prefix|]; }
    }
  }

  /** The prefix of page requests is itself a clean path. */
  lemma PagePrefixClean()
    ensures CleanPath("/api/page")
  {
    assert "/api/page" == ['/', 'a', 'p', 'i', '/', 'p', 'a', 'g', 'e'];
  }

  /** The prefix of data requests is itself a clean path. */
  lemma DataPrefixClean()
    ensures CleanPath("/api")
  {
    assert "/api" == ['/', 'a', 'p', 'i'];
  }

  /** `/about` as a page is requested at `<base>/api/page/about.json`. */
  lemma PageRequest(base: string, p: string)
    requires CleanPath(p)
    ensures RequestUrl(base, p, "page") == base + "/api/page" + p + ".json"
  {
    var q := "/api/page";
    PagePrefixClean();
    CleanPrefixed(q, p);
    assert Rewrite(p, "page") == q + p;
    CleanApiPath(p, "page");
  }

  /** Data is requested under `/api`. */
  lemma DataRequest(base: string, p: string)
    requires CleanPath(p)
    ensures RequestUrl(base, p, "data") == base + "/api" + p + ".json"
  {
    var q := "/api";
    DataPrefixClean();
    CleanPrefixed(q, p);
    assert Rewrite(p, "data") == q + p;
    CleanApiPath(p, "data");
  }

  lemma RootApiPath(root: string, kind: string)
    requires root == "/" && kind == "page"
    ensures ApiPath(root, kind) == "/api/page/index" + ".json"
  {
    var q := "/api/page/index";
    assert Rewrite(root, kind) == q;
    assert CleanPath(q);
    CleanApiPath(root, kind);
  }

  /** The root path as a page is requested at `<base>/api/page/index.json`. */
  lemma RootPageRequest(base: string, root: string)
    requires root == "/"
    ensures RequestUrl(base, root, "page") == base + "/api/page/index.json"
  {
    RootApiPath(root, "page");
    assert "/api/page/index" + ".json" == "/api/page/index.json";
  }

  /** Any other type leaves the path unprefixed. */
  lemma OtherRequest(base: string, p: string, kind: string)
    requires kind != "page" && kind != "data" && CleanPath(p)
    ensures RequestUrl(base, p, kind) == base + p + ".json"
  {
    CleanApiPath(p, kind);
  }

  lemma Append3(x: string, y: string, z: string)
    ensures x + (y + z) == (x + y) + z
  {
  }

  /** Rewriting commutes with a trailing '/', except for the root page. */
  lemma RewriteAppendSlash(p: string, kind: string)
    requires p != "" && (kind == "page" ==> p != "/")
    ensures Rewrite(p + "/", kind) == Rewrite(p, kind) + "/"
  {
    if kind == "page" {
      assert p + "/" != "/" by { assert |p + "/"| == |p| + 1 > 1; }
      Append3("/api/page", p, "/");
    } else if kind == "data" {
      Append3("/api", p, "/");
    }
  }

  lemma StripAppendedSlash(q: string)
    ensures StripTrailingSlashes(q + "/") == StripTrailingSlashes(q)
  {
    assert (q + "/")[..|q + "/"| - 1] == q;
  }

  /** A trailing slash on the route path makes no difference to the request. */
  lemma TrailingSlashIgnored(base: string, p: string, kind: string)
    requires p != "" && (kind == "page" ==> p != "/")
    ensures RequestUrl(base, p + "/", kind) == RequestUrl(base, p, kind)
  {
    RewriteAppendSlash(p, kind);
    StripAppendedSlash(Rewrite(p, kind));
  }

  // ---------------------------------------------------------------------
  // The request and its envelope

  /** What the HTTP library resolves with. */
  datatype HttpResponse = HttpResponse(data: Body, status: int)

  /** What it rejects with: `err.response.status` when there is one. */
  datatype HttpError = HttpError(status: Option<int>)

  datatype HttpOutcome = Resolved(response: HttpResponse) | Rejected(err: HttpError)

  /**
   * The envelope `{res, data, status, error}` `fetchApi` resolves to;
   * `error` is `None` for the `false` of a successful request.
   */
  datatype ApiResponse = ApiResponse(res: Option<HttpResponse>, data: Body, status: int, error: Option<HttpError>)

  /**
   * A rejection with a (truthy) status becomes `{res: undefined, data: {},
   * status, error}`; a success passes the response's data and status
   * through; a rejection without a status reads `.data` of `undefined`
   * and throws.
   */
  function Envelope(outcome: HttpOutcome): (r: Result<ApiResponse, string>)
    ensures r.Failure? <==> outcome.Rejected? && (outcome.err.status.None? || outcome.err.status.value == 0)
    ensures r.Success? && outcome.Rejected? ==>
      r.value == ApiResponse(None, Other({}), outcome.err.status.value, Some(outcome.err))
    ensures r.Success? && outcome.Resolved? ==>
      r.value.data == outcome.response.data && r.value.status == outcome.response.status
      && r.value.error.None? && r.value.res == Some(outcome.response)
  {
    match outcome
    case Rejected(err) =>
      if err.status.Some? && err.status.value != 0 then Success(ApiResponse(None, Other({}), err.status.value, Some(err)))
      else Failure("TypeError: cannot read properties of undefined (reading 'data')")
    case Resolved(response) => Success(ApiResponse(Some(response), response.data, response.status, None))
  }

  /**
   * `fetchApi(path, type)` against the server `server`: it throws iff the
   * request is rejected without a status; a rejection with one gives `{}`
   * and that status; a success passes the served body and status through.
   */
  function FetchApi(base: string, path: string, kind: string, server: string -> HttpOutcome): (r: Result<ApiResponse, string>)
    ensures var o := server(RequestUrl(base, path, kind));
      && (r.Failure? <==> o.Rejected? && (o.err.status.None? || o.err.status.value == 0))
      && (r.Success? && o.Rejected? ==> r.value.data == Other({}) && r.value.status == o.err.status.value && r.value.error == Some(o.err))
      && (r.Success? && o.Resolved? ==> r.value.data == o.response.data && r.value.status == o.response.status && r.value.error.None?)
  {
    Envelope(server(RequestUrl(base, path, kind)))
  }

  // ---------------------------------------------------------------------
  // toHtml

  /** The first argument of `toHtml`: falsy, a string, a page object, or another truthy value. */
  datatype HtmlSource = Falsy | Text(s: string) | PageObject(page: Page) | OtherValue

  function AsciiLower(c: char): char
  {
    if 'A' <= c <= 'Z' then (c as int + 32) as char else c
  }

  function Lowered(s: string): (r: string)
    ensures |r| == |s| && forall i :: 0 <= i < |s| ==> r[i] == AsciiLower(s[i])
  {
    if s == [] then [] else [AsciiLower(s[0])] + Lowered(s[1..])
  }

  /** `a` equals the lower-case word `w` ignoring ASCII case. */
  predicate MatchesIgnoringCase(a: string, w: string)
  {
    |a| == |w| && forall i :: 0 <= i < |a| ==> AsciiLower(a[i]) == w[i]
  }

  lemma {:induction false} MatchesIffLowered(a: string, w: string)
    ensures MatchesIgnoringCase(a, w) <==> Lowered(a) == w
  {
    if MatchesIgnoringCase(a, w) {
      assert Lowered(a) == w;
    }
  }

  lemma DotPrefixed(x: string)
    ensures "." + x == ".md" <==> x == "md"
    ensures "." + x == ".markdown" <==> x == "markdown"
    ensures "." + x != "md" && "." + x != "markdown"
  {
    assert ("." + x)[1..] == x;
    assert ("." + x)[0] == '.' && "md"[0] == 'm' && "markdown"[0] == 'm';
  }

  /** `/^\.?(md|markdown)$/i` */
  predicate IsMarkdownExt(e: string)
    ensures IsMarkdownExt(e) <==> Lowered(e) in {"md", "markdown", ".md", ".markdown"}
  {
    var dotted := |e| > 0 && e[0] == '.';
    var rest := if dotted then e[1..] else e;
    MatchesIffLowered(rest, "md");
    MatchesIffLowered(rest, "markdown");
    if dotted then
      assert e == "." + rest;
      assert Lowered(e) == "." + Lowered(rest) by { assert Lowered(e)[1..] == Lowered(rest); }
      DotPrefixed(Lowered(rest));
      MatchesIgnoringCase(rest, "md") || MatchesIgnoringCase(rest, "markdown")
    else
      assert |e| > 0 ==> Lowered(e)[0] != '.';
      assert ".md"[0] == '.' && ".markdown"[0] == '.';
      MatchesIgnoringCase(rest, "md") || MatchesIgnoringCase(rest, "markdown")
  }

  /** The content `toHtml` works on: a string argument, or a page object's `data`. */
  function SourceData(src: HtmlSource): Option<string>
  {
    match src
    case Text(s) => Some(s)
    case PageObject(p) => p.data
    case _ => None
  }

  /** The extension in force: the `ext` argument, else the page object's own. */
  function EffectiveExt(src: HtmlSource, ext: Option<string>): Option<string>
  {
    if src.PageObject? && !Truthy(ext) then src.page.ext else ext
  }

  /**
   * `toHtml(page, ext)`: `''` for a falsy argument or missing content;
   * content with a Markdown extension goes through `marked`; any other
   * content is returned unchanged.
   */
  function ToHtml(src: HtmlSource, ext: Option<string>, marked: string -> string): (r: string)
    ensures src.Falsy? || !Truthy(SourceData(src)) ==> r == ""
    ensures Truthy(SourceData(src)) && Truthy(EffectiveExt(src, ext)) && IsMarkdownExt(EffectiveExt(src, ext).value)
      ==> r == marked(SourceData(src).value)
    ensures Truthy(SourceData(src)) && !(Truthy(EffectiveExt(src, ext)) && IsMarkdownExt(EffectiveExt(src, ext).value))
      ==> r == SourceData(src).value
  {
    if src.Falsy? || src == Text("") then ""
    else
      var data := SourceData(src);
      var e := EffectiveExt(src, ext);
      if !Truthy(e) || !Truthy(data) then (if Truthy(data) then data.value else "")
      else if IsMarkdownExt(e.value) then marked(data.value)
      else data.value
  }

  /** A truthy `ext` argument overrides whatever extension the page carries. */
  lemma ExplicitExtWins(p: Page, q: Page, ext: Option<string>, marked: string -> string)
    requires Truthy(ext) && p.data == q.data
    ensures ToHtml(PageObject(p), ext, marked) == ToHtml(PageObject(q), ext, marked)
  {
  }

  /** Without a Markdown extension `toHtml` is idempotent on its own output. */
  lemma ToHtmlIdempotent(src: HtmlSource, ext: Option<string>, marked: string -> string)
    requires !(Truthy(ext) && IsMarkdownExt(ext.value))
    ensures ToHtml(Text(ToHtml(src, ext, marked)), ext, marked) == ToHtml(src, ext, marked)
  {
  }
}
