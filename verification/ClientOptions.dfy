/** finalizeOptions: options are applied to a private client and transport, never to the
    package-wide defaults. */
module ClientOptions {
  import opened Prelude

  const TLS_12: int := 0x0303

  datatype TlsSettings = TlsSettings(minVersion: int, skipVerify: bool, roots: Option<int>, certificates: seq<int>)

  datatype TlsMod = SkipVerify | RootCAs(pool: int) | ClientCertificate(cert: int)

  function Applied(s: TlsSettings, mods: seq<TlsMod>): TlsSettings {
    if mods == [] then s else AppliedOne(Applied(s, mods[..|mods| - 1]), mods[|mods| - 1])
  }

  function AppliedOne(s: TlsSettings, m: TlsMod): TlsSettings {
    match m
    case SkipVerify => s.(skipVerify := true)
    case RootCAs(pool) => s.(roots := Some(pool))
    case ClientCertificate(cert) => s.(certificates := s.certificates + [cert])
  }

  /** &tls.Config{MinVersion: tls.VersionTLS12} */
  const FRESH_SETTINGS := TlsSettings(TLS_12, false, None, [])

  /** A fresh configuration demands TLS 1.2 and verifies certificates. */
  lemma FreshSettingsAre()
    ensures FRESH_SETTINGS.minVersion == 771 && !FRESH_SETTINGS.skipVerify
    ensures FRESH_SETTINGS.roots.None? && FRESH_SETTINGS.certificates == []
  {}

  /** What the options make of a configuration: verification is skipped exactly when it was
      before or some option says so; the root pool is that of the last option that names one;
      the client certificates are added in the order of their options; the minimum version
      stays. */
  lemma {:induction false} OptionsMean(s: TlsSettings, mods: seq<TlsMod>)
    ensures var t := Applied(s, mods);
            && t.minVersion == s.minVersion
            && (t.skipVerify <==> s.skipVerify || SkipVerify in mods)
            && ((forall m | m in mods :: !m.RootCAs?) ==> t.roots == s.roots)
            && (forall k | 0 <= k < |mods| && mods[k].RootCAs? && (forall n | k < n < |mods| :: !mods[n].RootCAs?) ::
                  t.roots == Some(mods[k].pool))
            && t.certificates == s.certificates + Certificates(mods)
  {
    if mods != [] {
      var n := |mods| - 1;
      var front := mods[..n];
      OptionsMean(s, front);
      assert mods == front + [mods[n]];
      CertificatesOfAppend(front, mods[n]);
      assert forall k | 0 <= k < n :: front[k] == mods[k];
    }
  }

  function Certificates(mods: seq<TlsMod>): seq<int> {
    if mods == [] then []
    else (if mods[0].ClientCertificate? then [mods[0].cert] else []) + Certificates(mods[1..])
  }

  lemma {:induction false} CertificatesOfAppend(mods: seq<TlsMod>, m: TlsMod)
    ensures Certificates(mods + [m]) == Certificates(mods) + if m.ClientCertificate? then [m.cert] else []
  {
    if mods == [] {
      assert (mods + [m])[1..] == [];
    } else {
      CertificatesOfAppend(mods[1..], m);
      assert (mods + [m])[1..] == mods[1..] + [m];
    }
  }

  class TlsConfig {
    var settings: TlsSettings

    constructor (settings: TlsSettings)
      ensures this.settings == settings
    {
      this.settings := settings;
    }
  }

  /** *http.Transport: its TLSClientConfig and its Proxy function. */
  class HttpTransport {
    var tls: TlsConfig?
    var proxy: Option<int>

    constructor (tls: TlsConfig?, proxy: Option<int>)
      ensures this.tls == tls && this.proxy == proxy
    {
      this.tls, this.proxy := tls, proxy;
    }

    /** Clone copies the TLS configuration too. */
    method Clone() returns (c: HttpTransport)
      ensures fresh(c) && c.proxy == proxy && (c.tls == null <==> tls == null)
      ensures tls != null ==> fresh(c.tls) && c.tls.settings == tls.settings
    {
      var t: TlsConfig? := null;
      if tls != null {
        t := new TlsConfig(tls.settings);
      }
      c := new HttpTransport(t, proxy);
    }
  }

  /** An http.RoundTripper: nil, an *http.Transport (possibly a nil one), the retry wrapper
      over another, or a type the library does not know. */
  datatype RoundTripper =
    | Nil
    | Http(transport: HttpTransport?)
    | Retrying(base: RoundTripper, policy: int)
    | Custom(id: int)

  class HttpClient {
    var transport: RoundTripper
    var timeout: int

    constructor (transport: RoundTripper)
      ensures this.transport == transport && timeout == 0
    {
      this.transport, timeout := transport, 0;
    }
  }

  /** http.DefaultClient and http.DefaultTransport. */
  datatype Globals = Globals(defaultClient: HttpClient, defaultTransport: RoundTripper)

  function Unwrapped(rt: RoundTripper): RoundTripper {
    if rt.Retrying? then Unwrapped(rt.base) else rt
  }

  /** base under the retry wrappers of the given policies, the last one outermost. */
  function Wrapped(base: RoundTripper, policies: seq<int>): RoundTripper {
    if policies == [] then base else Retrying(Wrapped(base, policies[..|policies| - 1]), policies[|policies| - 1])
  }

  /** However many retry wrappers there are, what is unwrapped is what they were put around. */
  lemma {:induction false} UnwrapsAll(base: RoundTripper, policies: seq<int>)
    requires !base.Retrying?
    ensures Unwrapped(Wrapped(base, policies)) == base
  {
    if policies != [] {
      UnwrapsAll(base, policies[..|policies| - 1]);
    }
  }

  class Client {
    const globals: Globals
    const tlsMods: seq<TlsMod>
    const timeout: int
    const proxyFunc: Option<int>
    const retryPolicy: Option<int>
    var httpClient: HttpClient

    /** NewClient up to finalizeOptions: without a client of the caller's own, the default one. */
    constructor (globals: Globals, supplied: HttpClient?, tlsMods: seq<TlsMod>, timeout: int,
                 proxyFunc: Option<int>, retryPolicy: Option<int>)
      ensures this.globals == globals && this.tlsMods == tlsMods && this.timeout == timeout
      ensures this.proxyFunc == proxyFunc && this.retryPolicy == retryPolicy
      ensures httpClient == if supplied == null then globals.defaultClient else supplied
    {
      this.globals, this.tlsMods, this.timeout := globals, tlsMods, timeout;
      this.proxyFunc, this.retryPolicy := proxyFunc, retryPolicy;
      httpClient := if supplied == null then globals.defaultClient else supplied;
    }

    ghost predicate Own()
      reads this
    {
      httpClient != globals.defaultClient
    }

    /** The objects behind a transport that the options may write to. */
    static ghost function TransportObjects(rt: RoundTripper): set<object>
      reads if rt.Http? && rt.transport != null then {rt.transport} else {}
    {
      if rt.Http? && rt.transport != null then
        {rt.transport} + (if rt.transport.tls != null then {rt.transport.tls} else {})
      else {}
    }

    /** What the caller handed over with a client of their own; nothing otherwise. */
    ghost function Supplied(): set<object>
      reads this, httpClient, if httpClient.transport.Http? && httpClient.transport.transport != null
                              then {httpClient.transport.transport} else {}
    {
      if Own() then {httpClient} + TransportObjects(httpClient.transport) else {}
    }

    /** The TLS configuration of the client's own requests. */
    function RequestTLS(): TlsConfig?
      reads this, httpClient, RequestTransport()
    {
      if RequestTransport() != null then RequestTransport().tls else null
    }

    /** The transport behind every retry wrapper, if the library knows its type. */
    function RequestTransport(): HttpTransport?
      reads this, httpClient
    {
      var rt := Unwrapped(httpClient.transport);
      if rt.Http? then rt.transport else null
    }

    method EnsureOwnHTTPClient()
      modifies this`httpClient
      ensures Own()
      ensures old(Own()) ==> httpClient == old(httpClient)
      ensures !old(Own()) ==> fresh(httpClient) && httpClient.transport == Nil && httpClient.timeout == 0
    {
      if httpClient == globals.defaultClient {
        httpClient := new HttpClient(Nil);
      }
    }

    /** The transport to write to, or null when there is none the library knows how to write. */
    method EnsureTransport() returns (t: HttpTransport?)
      modifies this`httpClient, if Own() then {httpClient} else {}
      ensures Own() && (old(Own()) ==> httpClient == old(httpClient)) && (!old(Own()) ==> fresh(httpClient))
      ensures httpClient.timeout == if old(Own()) then old(httpClient.timeout) else 0
      ensures var before := if old(Own()) then old(httpClient.transport) else Nil;
              if before.Nil? && globals.defaultTransport.Http? && globals.defaultTransport.transport != null then
                var dt := globals.defaultTransport.transport;
                && t != null && fresh(t) && httpClient.transport == Http(t) && t.proxy == dt.proxy
                && (t.tls == null <==> dt.tls == null)
                && (t.tls != null ==> fresh(t.tls) && t.tls.settings == dt.tls.settings)
              else
                httpClient.transport == before && t == if before.Http? then before.transport else null
    {
      EnsureOwnHTTPClient();
      if httpClient.transport.Nil? {
        // a nil *http.Transport as default would make Clone panic; it is left alone here
        if !globals.defaultTransport.Http? || globals.defaultTransport.transport == null {
          return null;
        }
        var clone := globals.defaultTransport.transport.Clone();
        httpClient.transport := Http(clone);
      }
      t := if httpClient.transport.Http? then httpClient.transport.transport else null;
    }

    /** The transport the options work on: that of the caller's client, or a nil one. */
    ghost function Before(): RoundTripper
      reads this, httpClient
    {
      if Own() then httpClient.transport else Nil
    }

    /** The settings that TLS options start from; None when there is no transport to configure. */
    ghost function BaseSettings(): Option<TlsSettings>
      reads this, httpClient, TransportObjects(httpClient.transport), TransportObjects(globals.defaultTransport)
    {
      var rt := if Before().Nil? then globals.defaultTransport else Before();
      if !rt.Http? || rt.transport == null then None
      else Some(if rt.transport.tls == null then FRESH_SETTINGS else rt.transport.tls.settings)
    }

    method EnsureTLSConfig() returns (c: TlsConfig?)
      modifies this`httpClient, Supplied()
      ensures Own() && (old(Own()) ==> httpClient == old(httpClient)) && (!old(Own()) ==> fresh(httpClient))
      ensures httpClient.timeout == if old(Own()) then old(httpClient.timeout) else 0
      ensures c == null <==> old(BaseSettings()).None?
      ensures c != null ==>
                && c.settings == old(BaseSettings()).value
                && httpClient.transport.Http? && httpClient.transport.transport != null
                && httpClient.transport.transport.tls == c
                && (fresh(c) || c in old(Supplied()))
                && (fresh(httpClient.transport.transport) || httpClient.transport.transport in old(Supplied()))
      ensures c == null ==> httpClient.transport == old(Before())
    {
      var t := EnsureTransport();
      if t == null {
        return null;
      }
      if t.tls == null {
        t.tls := new TlsConfig(FRESH_SETTINGS);
      }
      c := t.tls;
    }

    method InstallRetryWrapper()
      modifies this`httpClient, if Own() then {httpClient} else {}
      ensures retryPolicy.None? ==> httpClient == old(httpClient) && httpClient.transport == old(httpClient.transport)
      ensures httpClient == old(httpClient) || httpClient.timeout == 0
      ensures httpClient == old(httpClient) ==> httpClient.timeout == old(httpClient.timeout)
      ensures retryPolicy.Some? ==>
                && Own() && (old(Own()) ==> httpClient == old(httpClient)) && (!old(Own()) ==> fresh(httpClient))
                && httpClient.transport == Retrying(if old(Before()).Nil? then globals.defaultTransport else old(Before()), retryPolicy.value)
      ensures old(httpClient.transport.Http?) && old(Own()) ==>
                Unwrapped(httpClient.transport) == old(httpClient.transport)
    {
      if retryPolicy.None? {
        return;
      }
      EnsureOwnHTTPClient();
      var base := httpClient.transport;
      if base.Nil? {
        base := globals.defaultTransport;
      }
      httpClient.transport := Retrying(base, retryPolicy.value);
    }

    /** The transport is the client's own *http.Transport and has a TLS configuration. */
    ghost predicate Configured()
      reads this, httpClient, TransportObjects(httpClient.transport)
    {
      Own() && httpClient.transport.Http? && httpClient.transport.transport != null && httpClient.transport.transport.tls != null
    }

    method ApplyTLS()
      modifies this`httpClient, Supplied()
      ensures if old(Own()) then httpClient == old(httpClient) else httpClient == globals.defaultClient || fresh(httpClient)
      ensures httpClient.timeout == if httpClient == old(httpClient) then old(httpClient.timeout) else 0
      ensures fresh(Supplied() - old(Supplied()))
      ensures old(BaseSettings()).None? || tlsMods == [] ==> Before() == old(Before()) && BaseSettings() == old(BaseSettings())
      ensures old(BaseSettings()).Some? && tlsMods != [] ==>
                Configured() && BaseSettings() == Some(Applied(old(BaseSettings()).value, tlsMods))
    {
      if |tlsMods| > 0 {
        var tc := EnsureTLSConfig();
        if tc != null {
          ApplyMods(tc);
        }
      }
    }

    method ApplyTimeout()
      modifies this`httpClient, if Own() then {httpClient} else {}
      ensures if old(Own()) then httpClient == old(httpClient) else httpClient == globals.defaultClient || fresh(httpClient)
      ensures httpClient.timeout == if timeout > 0 then timeout else old(httpClient.timeout)
      ensures if timeout > 0 then Own() else httpClient == old(httpClient)
      ensures Before() == old(Before())
    {
      if timeout > 0 {
        EnsureOwnHTTPClient();
        httpClient.timeout := timeout;
      }
    }

    method ApplyProxy()
      modifies this`httpClient, if Own() then {httpClient} else {}
      modifies if Own() && httpClient.transport.Http? && httpClient.transport.transport != null
               then {httpClient.transport.transport} else {}
      ensures if old(Own()) then httpClient == old(httpClient) else httpClient == globals.defaultClient || fresh(httpClient)
      ensures httpClient.timeout == if httpClient == old(httpClient) then old(httpClient.timeout) else 0
      ensures proxyFunc.None? || old(BaseSettings()).None? ==> Before() == old(Before())
      ensures proxyFunc.Some? && old(BaseSettings()).Some? ==>
                && Own() && httpClient.transport.Http? && httpClient.transport.transport != null
                && httpClient.transport.transport.proxy == proxyFunc
      ensures old(Configured()) ==> Before() == old(Before()) && Configured() && httpClient.transport.transport.tls == old(httpClient.transport.transport.tls)
    {
      if proxyFunc.Some? {
        var t := EnsureTransport();
        if t != null {
          t.proxy := proxyFunc;
        }
      }
    }

    /** Applies the deferred options. Nothing outside the caller's own client is written to;
        so when the caller supplied none, or the default one, the defaults stay as they are. */
    method FinalizeOptions()
      modifies this`httpClient, Supplied()
      ensures !old(Own()) ==> unchanged(globals.defaultClient) && (httpClient == globals.defaultClient || fresh(httpClient))
      ensures !old(Own()) && globals.defaultTransport.Http? && globals.defaultTransport.transport != null ==>
                && unchanged(globals.defaultTransport.transport)
                && (globals.defaultTransport.transport.tls != null ==> unchanged(globals.defaultTransport.transport.tls))
      ensures tlsMods != [] && old(BaseSettings()).Some? ==>
                RequestTLS() != null && RequestTLS().settings == Applied(old(BaseSettings()).value, tlsMods)
      ensures proxyFunc.Some? && old(BaseSettings()).Some? ==>
                RequestTransport() != null && RequestTransport().proxy == proxyFunc
      ensures timeout > 0 ==> httpClient.timeout == timeout
      ensures timeout <= 0 ==> httpClient.timeout == if httpClient == old(httpClient) then old(httpClient.timeout) else 0
      ensures retryPolicy.Some? ==> httpClient.transport.Retrying? && httpClient.transport.policy == retryPolicy.value
      ensures old(BaseSettings()).None? || (tlsMods == [] && proxyFunc.None?) ==>
                Before() == if retryPolicy.None? then old(Before())
                            else Retrying(if old(Before()).Nil? then globals.defaultTransport else old(Before()), retryPolicy.value)
    {
      hide Unwrapped, Applied;
      ApplyTLS();
      ApplyTimeout();
      assert BaseSettings().Some? <==> old(BaseSettings()).Some?;
      ApplyProxy();
      InstallRetryWrapper();
    }

    method ApplyMods(tc: TlsConfig)
      modifies tc
      ensures tc.settings == Applied(old(tc.settings), tlsMods)
    {
      for n := 0 to |tlsMods|
        invariant tc.settings == Applied(old(tc.settings), tlsMods[..n])
      {
        assert tlsMods[..n + 1][..n] == tlsMods[..n];
        match tlsMods[n] {
          case SkipVerify => tc.settings := tc.settings.(skipVerify := true);
          case RootCAs(pool) => tc.settings := tc.settings.(roots := Some(pool));
          case ClientCertificate(cert) => tc.settings := tc.settings.(certificates := tc.settings.certificates + [cert]);
        }
      }
      assert tlsMods[..|tlsMods|] == tlsMods;
    }

    /** websocketTLSConfig: the configuration behind every retry wrapper. */
    method WebsocketTLSConfig() returns (c: TlsConfig?)
      ensures c == RequestTLS()
    {
      var rt := httpClient.transport;
      while rt.Retrying?
        invariant Unwrapped(rt) == Unwrapped(httpClient.transport)
        decreases rt
      {
        rt := rt.base;
      }
      c := if rt.Http? && rt.transport != null then rt.transport.tls else null;
    }
  }
}
