/** What the manifest digest material of an adapter binds, and what it does not depend on. */
module ManifestDigest {
  import opened Text
  import opened Octets
  import opened Ordering
  import opened DigestMaterial

  datatype Redirect = Deny | SameOrigin(maxHops: nat)
  datatype ClientAuth = ClientAuth(certificateRef: string, privateKeyRef: string)
  datatype HttpConfig = HttpConfig(
    endpoint: string, endpointOrigin: string, allowedOrigins: seq<string>, trustRoots: seq<string>, redirect: Redirect,
    clientAuth: Option<ClientAuth>)

  datatype RunAs = Current | Unix(uid: nat, gid: nat) | Windows(account: string)
  datatype Restart = Restart(mode: string, maxAttempts: nat, backoffMs: nat)

  /** `AdapterHandle`, as far as the digest reads it; the server transport is in its canonical spelling. */
  datatype Handle = Handle(
    id: string, version: string, transport: string, sourcePath: string, command: Option<string>, args: seq<string>,
    endpoint: Option<string>, mcpTransport: string, httpConfigInvalid: bool, httpConfig: Option<HttpConfig>,
    headers: seq<Pair>, mcpCommand: Option<string>, mcpArgs: seq<string>, skillRunnerCommand: Option<string>,
    skillRunnerArgs: seq<string>, skillName: Option<string>, capabilities: seq<string>, credentialEnv: seq<string>,
    restart: Restart, runAs: RunAs, vaultSecrets: seq<Pair>)

  /** The printed hash of a value that must not appear itself. */
  type Hash = string -> string

  function OrEmpty(v: Option<string>): string { if v.Some? then v.value else "" }

  function Hashed(hash: Hash, values: seq<string>): seq<string> {
    seq(|values|, i requires 0 <= i < |values| => hash(values[i]))
  }

  function HashedValues(hash: Hash, pairs: seq<Pair>): seq<Pair> {
    seq(|pairs|, i requires 0 <= i < |pairs| => (pairs[i].0, hash(pairs[i].1)))
  }

  // ---------------------------------------------------------------- what is bound

  datatype BoundHttp = BoundHttp(
    endpointDigest: string, endpointOrigin: string, allowedOrigins: seq<string>, trustRootDigests: seq<string>,
    redirect: Redirect, clientAuth: Option<ClientAuth>)

  /** The fields the digest speaks about: absent is empty, secrets are hashed, sets are sorted. */
  datatype Bound = Bound(
    id: string, version: string, transport: string, sourcePath: string, command: string, args: seq<string>,
    endpoint: string, mcpTransport: string, httpConfigInvalid: bool, http: Option<BoundHttp>,
    headers: seq<Pair>, mcpCommand: string, mcpArgs: seq<string>, skillRunnerCommand: string,
    skillRunnerArgs: seq<string>, skillName: string, capabilities: seq<string>, credentialEnv: seq<string>,
    restart: Restart, runAs: RunAs, vaultSecrets: seq<Pair>)

  function BoundHttpOf(hash: Hash, c: HttpConfig): BoundHttp {
    BoundHttp(hash(c.endpoint), c.endpointOrigin, c.allowedOrigins, Hashed(hash, c.trustRoots), c.redirect,
              if c.clientAuth.None? then None
              else Some(ClientAuth(hash(c.clientAuth.value.certificateRef), hash(c.clientAuth.value.privateKeyRef))))
  }

  function BoundOf(hash: Hash, h: Handle): Bound {
    Bound(h.id, h.version, h.transport, h.sourcePath, OrEmpty(h.command), h.args, OrEmpty(h.endpoint), h.mcpTransport,
          h.httpConfigInvalid, if h.httpConfig.None? then None else Some(BoundHttpOf(hash, h.httpConfig.value)),
          HashedValues(hash, h.headers), OrEmpty(h.mcpCommand), h.mcpArgs, OrEmpty(h.skillRunnerCommand),
              h.skillRunnerArgs,
          OrEmpty(h.skillName), Sort(StringLe, h.capabilities), Sort(StringLe, h.credentialEnv), h.restart, h.runAs,
          Sort(PairLe, h.vaultSecrets))
  }

  // ---------------------------------------------------------------- the components, in the order they are pushed

  function IdentityPart(b: Bound): seq<string> {
    Field("format", "eva.adapter.manifest.v4") + (Field("id", b.id) + (Field("version", b.version)
    + (Field("transport", b.transport) + (Field("source_path", b.sourcePath) + Field("command", b.command)))))
  }

  function CallPart(b: Bound): seq<string> {
    Collection("arg", b.args) + (Field("endpoint", b.endpoint) + (Field("mcp_server_transport", b.mcpTransport)
    + Field("mcp_http_config_invalid", if b.httpConfigInvalid then "true" else "false")))
  }

  function RedirectMode(r: Redirect): string { if r.Deny? then "deny" else "same_origin" }
  function RedirectHops(r: Redirect): string { if r.Deny? then "0" else Decimal(r.maxHops) }

  function AuthPart(a: Option<ClientAuth>): seq<string> {
    if a.None? then Field("mcp_client_auth", "none")
    else
      Field("mcp_client_auth", "configured") + (Field("mcp_client_cert_ref_digest", a.value.certificateRef)
      + Field("mcp_client_key_ref_digest", a.value.privateKeyRef))
  }

  function RedirectPart(c: BoundHttp): seq<string> {
    Field("mcp_redirect_mode", RedirectMode(c.redirect)) + (Field("mcp_redirect_max_hops", RedirectHops(c.redirect))
    + AuthPart(c.clientAuth))
  }

  function HttpPart(http: Option<BoundHttp>): seq<string> {
    if http.None? then []
    else
      var c := http.value;
      Field("mcp_endpoint_digest", c.endpointDigest) + (Field("mcp_endpoint_origin", c.endpointOrigin)
      + (Collection("mcp_allowed_origin", c.allowedOrigins) + (Collection("mcp_trust_root_digest", c.trustRootDigests)
      + RedirectPart(c))))
  }

  function CommandPart(b: Bound): seq<string> {
    Pairs("mcp_header_count", "mcp_header_name", "mcp_header_value_digest",
        b.headers) + (Field("mcp_command", b.mcpCommand)
    + (Collection("mcp_arg", b.mcpArgs) + (Field("skill_runner_command", b.skillRunnerCommand)
    + (Collection("skill_runner_arg", b.skillRunnerArgs) + Field("skill_name", b.skillName)))))
  }

  function PolicyPart(b: Bound): seq<string> {
    Collection("capability", b.capabilities) + (Collection("credential_env", b.credentialEnv)
    + (Field("restart_mode", b.restart.mode) + (Field("restart_max_attempts", Decimal(b.restart.maxAttempts))
    + Field("restart_backoff_ms", Decimal(b.restart.backoffMs)))))
  }

  function RunAsPart(r: RunAs): seq<string> {
    match r
    case Current => Field("run_as_kind", "current")
    case Unix(uid, gid) => Field("run_as_kind", "unix") + (Field("run_as_uid", Decimal(uid))
        + Field("run_as_gid", Decimal(gid)))
    case Windows(account) => Field("run_as_kind", "windows") + Field("run_as_account", account)
  }

  function Components(b: Bound): seq<string> {
    IdentityPart(b) + (CallPart(b) + (HttpPart(b.http) + (CommandPart(b) + (PolicyPart(b) + (RunAsPart(b.runAs)
    + Pairs("vault_secret_count", "vault_env", "vault_ref", b.vaultSecrets))))))
  }

  /** The material that `manifest_digest` hashes. */
  function ManifestMaterial(encode: Encode, hash: Hash, h: Handle): Bytes {
    Material(encode, Components(BoundOf(hash, h)))
  }

  // ---------------------------------------------------------------- each part can be cut off

  lemma IdentitySplits(a: Bound, b: Bound, r: seq<string>, s: seq<string>)
    requires IdentityPart(a) + r == IdentityPart(b) + s
    ensures a.id == b.id && a.version == b.version && a.transport == b.transport && a.sourcePath == b.sourcePath
    ensures a.command == b.command && r == s
  {
    var x, y := IdentityPart(a) + r, IdentityPart(b) + s;
    assert x[3] == a.id && y[3] == b.id && x[5] == a.version && y[5] == b.version && x[7] == a.transport
        && y[7] == b.transport;
    assert x[9] == a.sourcePath && y[9] == b.sourcePath && x[11] == a.command && y[11] == b.command;
    assert r == x[12..] && s == y[12..];
  }

  lemma FlagInjective(a: bool, b: bool)
    requires (if a then "true" else "false") == (if b then "true" else "false")
    ensures a == b
  {
    assert "true"[0] == 't' && "false"[0] == 'f';
  }

  lemma CallSplits(a: Bound, b: Bound, r: seq<string>, s: seq<string>)
    requires CallPart(a) + r == CallPart(b) + s
    ensures a.args == b.args && a.endpoint == b.endpoint && a.mcpTransport == b.mcpTransport
    ensures a.httpConfigInvalid == b.httpConfigInvalid && r == s
  {
    hide Collection, Field;
    var va, vb := if a.httpConfigInvalid then "true" else "false", if b.httpConfigInvalid then "true" else "false";
    var f := "mcp_http_config_invalid";
    var a3, b3 := Field(f, va) + r, Field(f, vb) + s;
    var a2, b2 := Field("mcp_server_transport", a.mcpTransport) + a3,
        Field("mcp_server_transport", b.mcpTransport) + b3;
    var a1, b1 := Field("endpoint", a.endpoint) + a2, Field("endpoint", b.endpoint) + b2;
    assert CallPart(a) + r == Collection("arg", a.args) + a1 && CallPart(b) + s == Collection("arg", b.args) + b1;
    CollectionSplits("arg", a.args, b.args, a1, b1);
    FieldSplits("endpoint", a.endpoint, b.endpoint, a2, b2);
    FieldSplits("mcp_server_transport", a.mcpTransport, b.mcpTransport, a3, b3);
    FieldSplits(f, va, vb, r, s);
    FlagInjective(a.httpConfigInvalid, b.httpConfigInvalid);
  }

  lemma AuthSplits(a: Option<ClientAuth>, b: Option<ClientAuth>, r: seq<string>, s: seq<string>)
    requires AuthPart(a) + r == AuthPart(b) + s
    ensures a == b && r == s
  {
    var x, y := AuthPart(a) + r, AuthPart(b) + s;
    assert x[1] == y[1];
    assert |"none"| != |"configured"|;
    if a.Some? {
      assert x[3] == a.value.certificateRef && y[3] == b.value.certificateRef;
      assert x[5] == a.value.privateKeyRef && y[5] == b.value.privateKeyRef;
      assert r == x[6..] && s == y[6..];
    } else {
      assert r == x[2..] && s == y[2..];
    }
  }

  lemma RedirectInjective(a: Redirect, b: Redirect)
    requires RedirectMode(a) == RedirectMode(b) && RedirectHops(a) == RedirectHops(b)
    ensures a == b
  {
    assert |"deny"| != |"same_origin"|;
    if a.SameOrigin? { DecimalInjective(a.maxHops, b.maxHops); }
  }

  lemma RedirectSplits(a: BoundHttp, b: BoundHttp, r: seq<string>, s: seq<string>)
    requires RedirectPart(a) + r == RedirectPart(b) + s
    ensures a.redirect == b.redirect && a.clientAuth == b.clientAuth && r == s
  {
    hide Field, AuthPart, RedirectMode, RedirectHops;
    var a2, b2 := AuthPart(a.clientAuth) + r, AuthPart(b.clientAuth) + s;
    var a1, b1 := Field("mcp_redirect_max_hops", RedirectHops(a.redirect)) + a2,
        Field("mcp_redirect_max_hops", RedirectHops(b.redirect)) + b2;
    assert RedirectPart(a) + r == Field("mcp_redirect_mode", RedirectMode(a.redirect)) + a1;
    assert RedirectPart(b) + s == Field("mcp_redirect_mode", RedirectMode(b.redirect)) + b1;
    FieldSplits("mcp_redirect_mode", RedirectMode(a.redirect), RedirectMode(b.redirect), a1, b1);
    FieldSplits("mcp_redirect_max_hops", RedirectHops(a.redirect), RedirectHops(b.redirect), a2, b2);
    RedirectInjective(a.redirect, b.redirect);
    AuthSplits(a.clientAuth, b.clientAuth, r, s);
  }

  lemma HttpFieldsSplit(a: BoundHttp, b: BoundHttp, r: seq<string>, s: seq<string>)
    requires HttpPart(Some(a)) + r == HttpPart(Some(b)) + s
    ensures a == b && r == s
  {
    hide Collection, Field, RedirectPart;
    var a4, b4 := RedirectPart(a) + r, RedirectPart(b) + s;
    var a3, b3 := Collection("mcp_trust_root_digest", a.trustRootDigests) + a4,
        Collection("mcp_trust_root_digest", b.trustRootDigests) + b4;
    var a2, b2 := Collection("mcp_allowed_origin", a.allowedOrigins) + a3,
        Collection("mcp_allowed_origin", b.allowedOrigins) + b3;
    var a1, b1 := Field("mcp_endpoint_origin", a.endpointOrigin) + a2,
        Field("mcp_endpoint_origin", b.endpointOrigin) + b2;
    assert HttpPart(Some(a)) + r == Field("mcp_endpoint_digest", a.endpointDigest) + a1;
    assert HttpPart(Some(b)) + s == Field("mcp_endpoint_digest", b.endpointDigest) + b1;
    FieldSplits("mcp_endpoint_digest", a.endpointDigest, b.endpointDigest, a1, b1);
    FieldSplits("mcp_endpoint_origin", a.endpointOrigin, b.endpointOrigin, a2, b2);
    CollectionSplits("mcp_allowed_origin", a.allowedOrigins, b.allowedOrigins, a3, b3);
    CollectionSplits("mcp_trust_root_digest", a.trustRootDigests, b.trustRootDigests, a4, b4);
    RedirectSplits(a, b, r, s);
  }

  /** Whether there is a configuration shows in the first component: what follows starts with the header count. */
  lemma HttpSplits(a: Option<BoundHttp>, b: Option<BoundHttp>, r: seq<string>, s: seq<string>)
    requires HttpPart(a) + r == HttpPart(b) + s
    requires |r| > 0 && |s| > 0 && r[0] == "mcp_header_count" && s[0] == "mcp_header_count"
    ensures a == b && r == s
  {
    hide Collection, RedirectPart;
    var x, y := HttpPart(a) + r, HttpPart(b) + s;
    assert |"mcp_endpoint_digest"| != |"mcp_header_count"|;
    assert a.Some? ==> x[0] == "mcp_endpoint_digest";
    assert b.Some? ==> y[0] == "mcp_endpoint_digest";
    assert a.None? ==> x == r;
    assert b.None? ==> y == s;
    if a.Some? && b.Some? { HttpFieldsSplit(a.value, b.value, r, s); }
  }

  lemma CommandStarts(b: Bound, r: seq<string>)
    ensures |CommandPart(b) + r| > 0 && (CommandPart(b) + r)[0] == "mcp_header_count"
  {
    hide Collection, Decimal, PairItems;
  }

  lemma CommandSplits(a: Bound, b: Bound, r: seq<string>, s: seq<string>)
    requires CommandPart(a) + r == CommandPart(b) + s
    ensures a.headers == b.headers && a.mcpCommand == b.mcpCommand && a.mcpArgs == b.mcpArgs
    ensures a.skillRunnerCommand == b.skillRunnerCommand && a.skillRunnerArgs == b.skillRunnerArgs
    ensures a.skillName == b.skillName && r == s
  {
    hide Collection, Field, Pairs;
    var a5, b5 := Field("skill_name", a.skillName) + r, Field("skill_name", b.skillName) + s;
    var a4, b4 := Collection("skill_runner_arg", a.skillRunnerArgs) + a5,
        Collection("skill_runner_arg", b.skillRunnerArgs) + b5;
    var a3, b3 := Field("skill_runner_command", a.skillRunnerCommand) + a4,
        Field("skill_runner_command", b.skillRunnerCommand) + b4;
    var a2, b2 := Collection("mcp_arg", a.mcpArgs) + a3, Collection("mcp_arg", b.mcpArgs) + b3;
    var a1, b1 := Field("mcp_command", a.mcpCommand) + a2, Field("mcp_command", b.mcpCommand) + b2;
    assert CommandPart(a) + r == Pairs("mcp_header_count", "mcp_header_name", "mcp_header_value_digest",
        a.headers) + a1;
    assert CommandPart(b) + s == Pairs("mcp_header_count", "mcp_header_name", "mcp_header_value_digest",
        b.headers) + b1;
    PairsSplit("mcp_header_count", "mcp_header_name", "mcp_header_value_digest", a.headers, b.headers, a1, b1);
    FieldSplits("mcp_command", a.mcpCommand, b.mcpCommand, a2, b2);
    CollectionSplits("mcp_arg", a.mcpArgs, b.mcpArgs, a3, b3);
    FieldSplits("skill_runner_command", a.skillRunnerCommand, b.skillRunnerCommand, a4, b4);
    CollectionSplits("skill_runner_arg", a.skillRunnerArgs, b.skillRunnerArgs, a5, b5);
    FieldSplits("skill_name", a.skillName, b.skillName, r, s);
  }

  lemma PolicySplits(a: Bound, b: Bound, r: seq<string>, s: seq<string>)
    requires PolicyPart(a) + r == PolicyPart(b) + s
    ensures a.capabilities == b.capabilities && a.credentialEnv == b.credentialEnv && a.restart == b.restart && r == s
  {
    hide Collection, Field, Decimal;
    var p, q := a.restart, b.restart;
    var a4, b4 := Field("restart_backoff_ms", Decimal(p.backoffMs)) + r,
        Field("restart_backoff_ms", Decimal(q.backoffMs)) + s;
    var a3, b3 := Field("restart_max_attempts", Decimal(p.maxAttempts)) + a4,
        Field("restart_max_attempts", Decimal(q.maxAttempts)) + b4;
    var a2, b2 := Field("restart_mode", p.mode) + a3, Field("restart_mode", q.mode) + b3;
    var a1, b1 := Collection("credential_env", a.credentialEnv) + a2,
        Collection("credential_env", b.credentialEnv) + b2;
    assert PolicyPart(a) + r == Collection("capability", a.capabilities) + a1;
    assert PolicyPart(b) + s == Collection("capability", b.capabilities) + b1;
    CollectionSplits("capability", a.capabilities, b.capabilities, a1, b1);
    CollectionSplits("credential_env", a.credentialEnv, b.credentialEnv, a2, b2);
    FieldSplits("restart_mode", p.mode, q.mode, a3, b3);
    FieldSplits("restart_max_attempts", Decimal(p.maxAttempts), Decimal(q.maxAttempts), a4, b4);
    FieldSplits("restart_backoff_ms", Decimal(p.backoffMs), Decimal(q.backoffMs), r, s);
    DecimalInjective(p.maxAttempts, q.maxAttempts);
    DecimalInjective(p.backoffMs, q.backoffMs);
  }

  lemma RunAsSplits(a: RunAs, b: RunAs, r: seq<string>, s: seq<string>)
    requires RunAsPart(a) + r == RunAsPart(b) + s
    ensures a == b && r == s
  {
    hide Decimal;
    var x, y := RunAsPart(a) + r, RunAsPart(b) + s;
    assert x[1] == y[1];
    assert "current"[0] == 'c' && "unix"[0] == 'u' && "windows"[0] == 'w';
    match a
    case Current =>
      assert r == x[2..] && s == y[2..];
    case Unix(uid, gid) =>
      assert x[3] == Decimal(uid) && y[3] == Decimal(b.uid) && x[5] == Decimal(gid) && y[5] == Decimal(b.gid);
      DecimalInjective(uid, b.uid);
      DecimalInjective(gid, b.gid);
      assert r == x[6..] && s == y[6..];
    case Windows(account) =>
      assert x[3] == account && y[3] == b.account;
      assert r == x[4..] && s == y[4..];
  }

  /** Equal components mean equal bound fields, argument boundaries included. */
  lemma ComponentsInjective(a: Bound, b: Bound)
    requires Components(a) == Components(b)
    ensures a == b
  {
    hide IdentityPart, CallPart, HttpPart, CommandPart, PolicyPart, RunAsPart, Pairs;
    var va := Pairs("vault_secret_count", "vault_env", "vault_ref", a.vaultSecrets);
    var vb := Pairs("vault_secret_count", "vault_env", "vault_ref", b.vaultSecrets);
    var a5, b5 := RunAsPart(a.runAs) + va, RunAsPart(b.runAs) + vb;
    var a4, b4 := PolicyPart(a) + a5, PolicyPart(b) + b5;
    var a3, b3 := CommandPart(a) + a4, CommandPart(b) + b4;
    var a2, b2 := HttpPart(a.http) + a3, HttpPart(b.http) + b3;
    var a1, b1 := CallPart(a) + a2, CallPart(b) + b2;
    IdentitySplits(a, b, a1, b1);
    CallSplits(a, b, a2, b2);
    CommandStarts(a, a4);
    CommandStarts(b, b4);
    HttpSplits(a.http, b.http, a3, b3);
    CommandSplits(a, b, a4, b4);
    PolicySplits(a, b, a5, b5);
    RunAsSplits(a.runAs, b.runAs, va, vb);
    assert va + [] == va && vb + [] == vb;
    PairsSplit("vault_secret_count", "vault_env", "vault_ref", a.vaultSecrets, b.vaultSecrets, [], []);
  }

  // ---------------------------------------------------------------- main results

  /** An absent text and an empty one are the same to the digest. */
  predicate SameText(a: Option<string>, b: Option<string>) {
    a == b || (a in {None, Some("")} && b in {None, Some("")})
  }

  predicate SameHashes(hash: Hash, a: seq<string>, b: seq<string>) {
    |a| == |b| && forall i :: 0 <= i < |a| ==> hash(a[i]) == hash(b[i])
  }

  predicate SameHeaders(hash: Hash, a: seq<Pair>, b: seq<Pair>) {
    |a| == |b| && forall i :: 0 <= i < |a| ==> a[i].0 == b[i].0 && hash(a[i].1) == hash(b[i].1)
  }

  predicate SameAuth(hash: Hash, a: ClientAuth, b: ClientAuth) {
    hash(a.certificateRef) == hash(b.certificateRef) && hash(a.privateKeyRef) == hash(b.privateKeyRef)
  }

  predicate SameHttp(hash: Hash, a: HttpConfig, b: HttpConfig) {
    && hash(a.endpoint) == hash(b.endpoint) && a.endpointOrigin == b.endpointOrigin
    && a.allowedOrigins == b.allowedOrigins && SameHashes(hash, a.trustRoots, b.trustRoots) && a.redirect == b.redirect
    && a.clientAuth.Some? == b.clientAuth.Some?
    && (a.clientAuth.Some? ==> SameAuth(hash, a.clientAuth.value, b.clientAuth.value))
  }

  /** Two handles agree on every field: endpoints, keys and header values by their hashes, the sets in any order. */
  predicate SameManifest(hash: Hash, a: Handle, b: Handle) {
    && a.id == b.id && a.version == b.version && a.transport == b.transport && a.sourcePath == b.sourcePath
    && SameText(a.command, b.command) && a.args == b.args && SameText(a.endpoint, b.endpoint)
    && a.mcpTransport == b.mcpTransport && a.httpConfigInvalid == b.httpConfigInvalid
    && a.httpConfig.Some? == b.httpConfig.Some?
    && (a.httpConfig.Some? ==> SameHttp(hash, a.httpConfig.value, b.httpConfig.value))
    && SameHeaders(hash, a.headers, b.headers)
    && SameText(a.mcpCommand, b.mcpCommand) && a.mcpArgs == b.mcpArgs
    && SameText(a.skillRunnerCommand, b.skillRunnerCommand) && a.skillRunnerArgs == b.skillRunnerArgs
    && SameText(a.skillName, b.skillName)
    && multiset(a.capabilities) == multiset(b.capabilities) && multiset(a.credentialEnv) == multiset(b.credentialEnv)
    && a.restart == b.restart && a.runAs == b.runAs
    && multiset(a.vaultSecrets) == multiset(b.vaultSecrets)
  }

  lemma HashesMeaning(hash: Hash, a: seq<string>, b: seq<string>)
    ensures Hashed(hash, a) == Hashed(hash, b) <==> SameHashes(hash, a, b)
  {
    var x, y := Hashed(hash, a), Hashed(hash, b);
    assert forall i :: 0 <= i < |a| ==> x[i] == hash(a[i]);
    assert forall i :: 0 <= i < |b| ==> y[i] == hash(b[i]);
    if x == y { assert |a| == |x| == |y| == |b|; }
  }

  lemma HeadersMeaning(hash: Hash, a: seq<Pair>, b: seq<Pair>)
    ensures HashedValues(hash, a) == HashedValues(hash, b) <==> SameHeaders(hash, a, b)
  {
    var x, y := HashedValues(hash, a), HashedValues(hash, b);
    assert forall i :: 0 <= i < |a| ==> x[i] == (a[i].0, hash(a[i].1));
    assert forall i :: 0 <= i < |b| ==> y[i] == (b[i].0, hash(b[i].1));
    if x == y {
      assert |a| == |x| == |y| == |b|;
      assert forall i :: 0 <= i < |a| ==> x[i] == y[i];
    }
  }

  lemma HttpMeaning(hash: Hash, a: HttpConfig, b: HttpConfig)
    ensures BoundHttpOf(hash, a) == BoundHttpOf(hash, b) <==> SameHttp(hash, a, b)
  {
    hide Hashed, SameHashes;
    HashesMeaning(hash, a.trustRoots, b.trustRoots);
  }

  lemma SortMeaning<T(!new)>(le: (T, T) -> bool, a: seq<T>, b: seq<T>)
    requires TotalOrder(le)
    ensures Sort(le, a) == Sort(le, b) <==> multiset(a) == multiset(b)
  {
    hide TotalOrder, Sort;
    SortSorts(le, a);
    SortSorts(le, b);
    if multiset(a) == multiset(b) { SortOfPermutation(le, a, b); }
  }

  lemma BoundMeaning(hash: Hash, a: Handle, b: Handle)
    ensures BoundOf(hash, a) == BoundOf(hash, b) <==> SameManifest(hash, a, b)
  {
    hide BoundHttpOf, SameHttp, HashedValues, SameHeaders, Sort, StringLe, PairLe, TotalOrder;
    StringOrder();
    PairOrder();
    SortMeaning(StringLe, a.capabilities, b.capabilities);
    SortMeaning(StringLe, a.credentialEnv, b.credentialEnv);
    SortMeaning(PairLe, a.vaultSecrets, b.vaultSecrets);
    HeadersMeaning(hash, a.headers, b.headers);
    if a.httpConfig.Some? && b.httpConfig.Some? { HttpMeaning(hash, a.httpConfig.value, b.httpConfig.value); }
  }

  /** Two manifests have the same digest material exactly when they agree on every field. */
  lemma MaterialBindsManifest(encode: Encode, hash: Hash, a: Handle, b: Handle)
    requires Faithful(encode)
    requires Short(encode, Components(BoundOf(hash, a))) && Short(encode, Components(BoundOf(hash, b)))
    ensures ManifestMaterial(encode, hash, a) == ManifestMaterial(encode, hash, b) <==> SameManifest(hash, a, b)
  {
    hide Components, Material, BoundOf, SameManifest;
    var x, y := BoundOf(hash, a), BoundOf(hash, b);
    BoundMeaning(hash, a, b);
    if Material(encode, Components(x)) == Material(encode, Components(y)) {
      MaterialInjective(encode, Components(x), Components(y));
      ComponentsInjective(x, y);
    }
  }

  /** The order of capabilities, credential names and vault secrets does not matter. */
  lemma MaterialIgnoresOrder(
    encode: Encode, hash: Hash, h: Handle, capabilities: seq<string>, credentialEnv: seq<string>,
        vaultSecrets: seq<Pair>)
    requires multiset(capabilities) == multiset(h.capabilities) && multiset(credentialEnv) == multiset(h.credentialEnv)
    requires multiset(vaultSecrets) == multiset(h.vaultSecrets)
    ensures var g := h.(capabilities := capabilities, credentialEnv := credentialEnv, vaultSecrets := vaultSecrets);
            ManifestMaterial(encode, hash, g) == ManifestMaterial(encode, hash, h)
  {
    hide Components, Material, Sort, TotalOrder, StringLe, PairLe;
    StringOrder();
    PairOrder();
    SortOfPermutation(StringLe, capabilities, h.capabilities);
    SortOfPermutation(StringLe, credentialEnv, h.credentialEnv);
    SortOfPermutation(PairLe, vaultSecrets, h.vaultSecrets);
  }
}
