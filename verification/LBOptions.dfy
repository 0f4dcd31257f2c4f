/** The options of `create lb` and the rules between them that are checked
    before a request is built. */
module LBOptions {
  import opened Text
  import opened BandTriples
  import opened Endpoints

  datatype AuthOptions = AuthOptions(apiKeyAuth: string, jwtProfile: string)

  datatype EppOptions = EppOptions(endpoint: string, failureMode: string, timeoutMs: int)

  /** A band triple is None when its flag was not given. */
  datatype BandOptions = BandOptions(
    wakePolicy: string, shedQueue: string, tenantWake: string, llmdHeaders: string, defaultReservation: string,
    weights: Option<BandTriple>, minSharePct: Option<BandTriple>, waitMs: Option<BandTriple>,
    queuePct: Option<BandTriple>, criticalReservePct: nat, defaultMaxTokens: nat)

  datatype FcOptions = FcOptions(
    maxQueueDepth: nat, maxQueueWaitMs: nat, maxQueueWaitMsSet: bool, mode: string,
    maxOutstanding: nat, epMaxInflight: nat, prefillMaxInflight: nat, decodeMaxInflight: nat,
    telemetryStaleMs: nat, adaptive: string, exposeHeaders: string, warmupMs: nat, ttftTargetMs: nat,
    tenantMaxSharePct: nat, bands: BandOptions)

  datatype L7Options = L7Options(
    modelName: string, pathPrefix: string, pathMatchMode: string, sessionHeader: string, traceType: string,
    sockMapMode: string, sse: bool, maxStreamSec: int, keepaliveSec: int, cbEnable: bool)

  datatype ChwblOptions = ChwblOptions(level: int, flags: int, loadFactor: int, replication: int, cacheSalt: bool)

  datatype PdOptions = PdOptions(
    disagg: bool, cacheAware: bool, sessionTtl: int, cacheThreshold: int, balanceAbs: int, bootstrapPort: int,
    prefillTimeout: int)

  datatype KvOptions = KvOptions(
    exactMode: int, blockSize: int, hashAlgo: string, zmqPort: int, warmup: int, engine: string, dpRanks: int)

  datatype HstsOptions = HstsOptions(maxAge: nat, subdomains: bool, preload: bool)

  datatype MtlsOptions = MtlsOptions(certMode: string, caPath: string, requireCN: bool, cnPattern: string, crlPath: string)

  datatype BackendTls = BackendTls(
    caCertId: string, clientCertId: string, serverName: string,
    retiredVerify: bool, retiredCAPath: string, retiredCertPath: string, retiredKeyPath: string)

  datatype Options = Options(
    externalIP: string, tcp: seq<string>, udp: seq<string>, sctp: seq<string>, icmp: bool,
    mode: string, select: string, security: string, attach: bool, detach: bool,
    endpoints: seq<string>, epRoles: seq<string>, nixlPorts: seq<int>, secIPs: seq<string>, sources: seq<string>,
    auth: AuthOptions, epp: EppOptions, fc: FcOptions, l7: L7Options, chwbl: ChwblOptions, pd: PdOptions,
    kv: KvOptions, hsts: HstsOptions, mtls: MtlsOptions, backendTls: BackendTls)

  /** Refused names the flag the message is about. */
  datatype Verdict = Accepted | Refused(flag: string)
  {
    /** The first refusal of two checks made in order. */
    function Then(next: Verdict): Verdict { if Accepted? then next else this }
  }

  function Check(ok: bool, flag: string): Verdict { if ok then Accepted else Refused(flag) }

  // ----- enumerations -----

  function SelectToNum(sel: string): int {
    if sel == "hash" then 1
    else if sel == "priority" then 2
    else if sel == "persist" then 3
    else if sel == "lc" then 4
    else if sel == "n2" then 5
    else if sel == "n3" then 6
    else if sel == "chwbl" then 8
    else if sel == "gpuaware" then 9
    else if sel == "wrr-hash" || sel == "chwbl-wrr" then 10
    else 0
  }

  function ModeToNum(mode: string): int {
    if mode == "onearm" then 1
    else if mode == "fullnat" then 2
    else if mode == "dsr" then 3
    else if mode == "fullproxy" then 4
    else if mode == "hostonearm" then 5
    else 0
  }

  function SecStringToNum(sec: string): int {
    if sec == "https" || sec == "tls" then 1
    else if sec == "e2ehttps" || sec == "e2etls" then 2
    else 0
  }

  /** The numbers of the words; any other word is 0. */
  lemma NumbersExactly(word: string)
    ensures SelectToNum(word) in {0, 1, 2, 3, 4, 5, 6, 8, 9, 10}
    ensures SelectToNum(word) == 1 <==> word == "hash"
    ensures SelectToNum(word) == 2 <==> word == "priority"
    ensures SelectToNum(word) == 3 <==> word == "persist"
    ensures SelectToNum(word) == 4 <==> word == "lc"
    ensures SelectToNum(word) == 5 <==> word == "n2"
    ensures SelectToNum(word) == 6 <==> word == "n3"
    ensures SelectToNum(word) == 8 <==> word == "chwbl"
    ensures SelectToNum(word) == 9 <==> word == "gpuaware"
    ensures SelectToNum(word) == 10 <==> word in {"wrr-hash", "chwbl-wrr"}
    ensures ModeToNum(word) in {0, 1, 2, 3, 4, 5}
    ensures ModeToNum(word) == 1 <==> word == "onearm"
    ensures ModeToNum(word) == 2 <==> word == "fullnat"
    ensures ModeToNum(word) == 3 <==> word == "dsr"
    ensures ModeToNum(word) == 4 <==> word == "fullproxy"
    ensures ModeToNum(word) == 5 <==> word == "hostonearm"
    ensures SecStringToNum(word) in {0, 1, 2}
    ensures SecStringToNum(word) == 1 <==> word in {"https", "tls"}
    ensures SecStringToNum(word) == 2 <==> word in {"e2ehttps", "e2etls"}
  {
  }

  function Enum(value: string, allowed: seq<string>, flag: string): Verdict {
    Check(value == "" || value in allowed, flag)
  }

  // ----- the checks every rule gets -----

  function ValidateAuth(a: AuthOptions): Verdict {
    if a.apiKeyAuth != "" && a.apiKeyAuth !in ["disabled", "required", "jwt", "apikey-or-jwt"] then Refused("--api-key-auth")
    else if a.apiKeyAuth == "jwt" || a.apiKeyAuth == "apikey-or-jwt" then
      Check(TrimSpace(a.jwtProfile) != "" && ByteLen(a.jwtProfile) <= 63, "--jwt-auth-profile")
    else Check(a.jwtProfile == "", "--jwt-auth-profile")
  }

  function ValidateEpp(e: EppOptions, disagg: bool): Verdict {
    Enum(e.failureMode, ["FailOpen", "FailClose"], "--epp-failure-mode")
    .Then(Check(0 <= e.timeoutMs <= 600000, "--epp-timeout-ms"))
    .Then(Check(ByteLen(e.endpoint) <= 255, "--epp-endpoint"))
    .Then(Check(!(e.endpoint != "" && disagg && e.failureMode != "FailOpen"), "--epp-endpoint"))
  }

  function TripleWithin(t: Option<BandTriple>, ceiling: nat, flag: string): Verdict {
    Check(t.None? || (t.value.critical <= ceiling && t.value.standard <= ceiling && t.value.sheddable <= ceiling), flag)
  }

  function ValidateBands(b: BandOptions): Verdict {
    Enum(b.wakePolicy, ["strict", "weighted", "inherit"], "--fc-wake-policy")
    .Then(Enum(b.shedQueue, ["on", "off", "inherit"], "--fc-shed-queue"))
    .Then(Enum(b.tenantWake, ["fifo", "rr", "inherit"], "--fc-tenant-wake"))
    .Then(Enum(b.llmdHeaders, ["on", "off", "inherit"], "--fc-llmd-headers"))
    .Then(Enum(b.defaultReservation, ["on", "off", "inherit"], "--ai-default-reservation"))
    .Then(TripleWithin(b.weights, 62, "--fc-band-weights"))
    .Then(TripleWithin(b.minSharePct, 100, "--fc-band-min-share-pct"))
    .Then(TripleWithin(b.waitMs, 3600000, "--fc-band-wait-ms"))
    .Then(TripleWithin(b.queuePct, 100, "--fc-band-queue-pct"))
    .Then(Check(b.criticalReservePct <= 100, "--fc-critical-reserve-pct"))
    .Then(Check(b.defaultMaxTokens <= 100000000, "--ai-default-max-tokens"))
  }

  function ValidateFcQueue(f: FcOptions): Verdict {
    Check(f.maxQueueDepth <= 65536, "--fc-max-queue-depth")
    .Then(Check(f.maxQueueWaitMs <= 3600000, "--fc-max-queue-wait-ms"))
    .Then(Check(!(f.maxQueueDepth > 0 && f.maxQueueWaitMsSet && f.maxQueueWaitMs == 0), "--fc-max-queue-wait-ms"))
    .Then(Enum(f.mode, ["off", "observe", "enforce", "inherit"], "--fc-mode"))
    .Then(Check(f.maxOutstanding <= 100000, "--fc-max-outstanding"))
    .Then(Check(f.epMaxInflight <= 100000, "--fc-ep-max-inflight"))
    .Then(Check(f.prefillMaxInflight <= 100000, "--fc-prefill-max-inflight"))
    .Then(Check(f.decodeMaxInflight <= 100000, "--fc-decode-max-inflight"))
    .Then(Check(f.telemetryStaleMs <= 3600000, "--fc-telemetry-stale-ms"))
    .Then(Enum(f.adaptive, ["on", "off", "inherit"], "--fc-adaptive"))
    .Then(Enum(f.exposeHeaders, ["on", "off", "inherit"], "--fc-expose-headers"))
    .Then(Check(f.warmupMs <= 3600000, "--fc-warmup-ms"))
    .Then(Check(f.ttftTargetMs <= 3600000, "--fc-ttft-target-ms"))
    .Then(Check(f.tenantMaxSharePct <= 100, "--fc-tenant-max-share-pct"))
    .Then(ValidateBands(f.bands))
  }

  predicate BackendTlsRequested(b: BackendTls) {
    b.caCertId != "" || b.clientCertId != "" || b.serverName != ""
  }

  function ValidateBackendTls(o: Options): Verdict {
    Check(o.backendTls.retiredCAPath == "", "--mtls-backend-ca-path")
    .Then(Check(o.backendTls.retiredCertPath == "" && o.backendTls.retiredKeyPath == "", "--mtls-backend-cert-path"))
    .Then(Check(!o.backendTls.retiredVerify, "--mtls-backend-verify-server"))
    .Then(Check(BackendTlsRequested(o.backendTls) ==> ModeToNum(o.mode) == 4 && SecStringToNum(o.security) == 2,
                "--backend-ca-cert-id"))
  }

  function ValidateFront(o: Options): Verdict {
    ValidateAuth(o.auth)
    .Then(ValidateEpp(o.epp, o.pd.disagg))
    .Then(Enum(o.l7.sockMapMode, ["off", "request", "response", "both"], "--sockmap-mode"))
    .Then(ValidateFcQueue(o.fc))
    .Then(ValidateBackendTls(o))
  }

  // ----- what the front checks accept -----

  /** A mode of API-key checking goes with a JWT profile exactly when it reads one. */
  predicate AuthFits(a: AuthOptions) {
    if a.apiKeyAuth in {"jwt", "apikey-or-jwt"} then
      ByteLen(a.jwtProfile) <= 63 && exists c :: c in a.jwtProfile && !IsSpace(c)
    else a.apiKeyAuth in {"", "disabled", "required"} && a.jwtProfile == ""
  }

  /** With split prefill and decode an endpoint picker may only fail open. */
  predicate EppFits(e: EppOptions, disagg: bool) {
    && e.failureMode in {"", "FailOpen", "FailClose"}
    && 0 <= e.timeoutMs <= 600000 && ByteLen(e.endpoint) <= 255
    && (disagg ==> e.endpoint == "" || e.failureMode == "FailOpen")
  }

  predicate Switch(s: string) { s in {"", "on", "off", "inherit"} }

  predicate AllAtMost(t: Option<BandTriple>, ceiling: nat) {
    t.Some? ==> t.value.critical <= ceiling && t.value.standard <= ceiling && t.value.sheddable <= ceiling
  }

  predicate BandsFit(b: BandOptions) {
    && b.wakePolicy in {"", "strict", "weighted", "inherit"} && b.tenantWake in {"", "fifo", "rr", "inherit"}
    && Switch(b.shedQueue) && Switch(b.llmdHeaders) && Switch(b.defaultReservation)
    && AllAtMost(b.weights, 62) && AllAtMost(b.minSharePct, 100)
    && AllAtMost(b.waitMs, 3600000) && AllAtMost(b.queuePct, 100)
    && b.criticalReservePct <= 100 && b.defaultMaxTokens <= 100000000
  }

  /** A queue of its own needs a wait, and every number has its bound. */
  predicate FcFits(f: FcOptions) {
    && f.maxQueueDepth <= 65536 && f.maxQueueWaitMs <= 3600000
    && (f.maxQueueDepth == 0 || f.maxQueueWaitMs > 0 || !f.maxQueueWaitMsSet)
    && f.mode in {"", "off", "observe", "enforce", "inherit"} && Switch(f.adaptive) && Switch(f.exposeHeaders)
    && f.maxOutstanding <= 100000 && f.epMaxInflight <= 100000
    && f.prefillMaxInflight <= 100000 && f.decodeMaxInflight <= 100000
    && f.telemetryStaleMs <= 3600000 && f.warmupMs <= 3600000 && f.ttftTargetMs <= 3600000
    && f.tenantMaxSharePct <= 100
    && BandsFit(f.bands)
  }

  /** No retired flag; and identities for the backends only where a full proxy
      encrypts towards them. */
  predicate TlsFits(o: Options) {
    var b := o.backendTls;
    && !b.retiredVerify && b.retiredCAPath == "" && b.retiredCertPath == "" && b.retiredKeyPath == ""
    && (b.caCertId != "" || b.clientCertId != "" || b.serverName != "" ==>
          o.mode == "fullproxy" && o.security in {"e2ehttps", "e2etls"})
  }

  lemma EnumExactly(value: string, allowed: seq<string>, flag: string)
    ensures Enum(value, allowed, flag).Accepted? <==> value == "" || value in allowed
  {
  }

  lemma AuthAcceptedExactly(a: AuthOptions)
    ensures ValidateAuth(a).Accepted? <==> AuthFits(a)
  {
    NotBlank(a.jwtProfile);
    hide TrimSpace, ByteLen;
  }

  /** A text is not blank exactly when some character is no white space. */
  lemma NotBlank(s: string)
    ensures TrimSpace(s) != "" <==> exists c :: c in s && !IsSpace(c)
  {
    var a, b := TrimSpaceCuts(s);
    var t := TrimSpace(s);
    if t != "" {
      assert t[0] in s;
    }
    hide TrimSpace, IsSpace;
    assert forall c :: c in s ==> c in a || c in t || c in b;
  }

  lemma BandsAcceptedExactly(b: BandOptions)
    ensures ValidateBands(b).Accepted? <==> BandsFit(b)
  {
  }

  lemma FcAcceptedExactly(f: FcOptions)
    ensures ValidateFcQueue(f).Accepted? <==> FcFits(f)
  {
    BandsAcceptedExactly(f.bands);
    hide ValidateBands, BandsFit;
  }

  /** The front checks accept exactly what fits, field by field. */
  lemma FrontAcceptedExactly(o: Options)
    ensures ValidateFront(o).Accepted? <==>
      && AuthFits(o.auth) && EppFits(o.epp, o.pd.disagg)
      && o.l7.sockMapMode in {"", "off", "request", "response", "both"}
      && FcFits(o.fc) && TlsFits(o)
  {
    AuthAcceptedExactly(o.auth);
    FcAcceptedExactly(o.fc);
    hide ValidateAuth, AuthFits, ValidateFcQueue, FcFits, ByteLen;
  }

  // ----- which rules need a full proxy -----

  predicate MtlsFrontendRequested(m: MtlsOptions) {
    m.certMode != "" || m.caPath != "" || m.requireCN || m.cnPattern != "" || m.crlPath != ""
  }

  predicate AIRequested(o: Options) {
    || o.l7.modelName != "" || o.l7.pathPrefix != "" || o.l7.pathMatchMode != "" || o.l7.sessionHeader != ""
    || o.l7.traceType != "" || o.l7.sockMapMode != "" || o.l7.sse
    || o.auth.apiKeyAuth != "" || o.auth.jwtProfile != ""
    || o.l7.maxStreamSec != 0 || o.l7.keepaliveSec != 0 || o.l7.cbEnable
    || o.epp.endpoint != ""
    || o.chwbl.level != 0 || o.chwbl.flags != 0 || o.chwbl.loadFactor != 0 || o.chwbl.replication != 0 || o.chwbl.cacheSalt
    || o.pd.disagg || o.pd.cacheAware || o.pd.sessionTtl != 0 || o.pd.cacheThreshold != 0 || o.pd.balanceAbs != 0
    || o.pd.bootstrapPort != 0 || o.pd.prefillTimeout != 0
    || o.kv.exactMode != 0 || o.kv.blockSize != 0 || o.kv.hashAlgo != "" || o.kv.zmqPort != 0 || o.kv.warmup != 0
    || o.kv.engine != "" || o.kv.dpRanks != 0
    || |o.epRoles| > 0 || |o.nixlPorts| > 0
    || o.hsts.maxAge != 0 || o.hsts.subdomains || o.hsts.preload
    || MtlsFrontendRequested(o.mtls) || BackendTlsRequested(o.backendTls)
    || SelectToNum(o.select) in {8, 9, 10}
  }

  const NO_L7: L7Options := L7Options("", "", "", "", "", "", false, 0, 0, false)
  const NO_AUTH: AuthOptions := AuthOptions("", "")
  const NO_CHWBL: ChwblOptions := ChwblOptions(0, 0, 0, 0, false)
  const NO_PD: PdOptions := PdOptions(false, false, 0, 0, 0, 0, 0)
  const NO_KV: KvOptions := KvOptions(0, 0, "", 0, 0, "", 0)
  const NO_HSTS: HstsOptions := HstsOptions(0, false, false)
  const NO_MTLS: MtlsOptions := MtlsOptions("", "", false, "", "")

  /** Nothing of the inference gateway is asked for exactly when every such option
      is at its default and the selection is one of the plain ones. */
  lemma NotRequestedExactly(o: Options)
    ensures !AIRequested(o) <==>
      && o.l7 == NO_L7 && o.auth == NO_AUTH && o.epp.endpoint == "" && o.chwbl == NO_CHWBL
      && o.pd == NO_PD && o.kv == NO_KV && o.epRoles == [] && o.nixlPorts == []
      && o.hsts == NO_HSTS && o.mtls == NO_MTLS
      && o.backendTls.caCertId == "" && o.backendTls.clientCertId == "" && o.backendTls.serverName == ""
      && o.select !in {"chwbl", "gpuaware", "wrr-hash", "chwbl-wrr"}
  {
  }

  // ----- prefill/decode and KV-cache rules -----

  function Engine(kv: KvOptions): string { if kv.engine == "" then "vllm" else kv.engine }

  predicate HashAllowed(hash: string, engine: string) {
    || (engine == "vllm" && (hash == "sha256_cbor" || hash == "xxhash_cbor"))
    || (engine == "sglang" && hash == "sha256_sglang")
    || (engine == "trtllm" && hash == "blockhash_trtllm")
  }

  function ValidateKvFields(kv: KvOptions, disagg: bool): Verdict {
    Check(Engine(kv) in ["vllm", "sglang", "trtllm", "llamacpp"], "--kv-engine-type")
    .Then(Check(0 <= kv.dpRanks <= 8, "--kv-dp-ranks"))
    .Then(Check(0 <= kv.zmqPort <= 65535, "--kv-zmq-port"))
    .Then(Check(kv.blockSize >= 0 && kv.warmup >= 0, "--kv-block-size"))
    .Then(Check(kv.exactMode in {0, 1, 3}, "--kv-exact-mode"))
    .Then(Check(!(kv.exactMode == 1 && !disagg), "--kv-exact-mode"))
    .Then(Check(!(kv.exactMode == 3 && disagg), "--kv-exact-mode"))
    .Then(Check(kv.exactMode != 0 && kv.dpRanks > 0 ==>
                  (if kv.zmqPort == 0 then 5557 else kv.zmqPort) + kv.dpRanks - 1 <= 65535, "--kv-zmq-port"))
    .Then(Check(kv.hashAlgo == "" || HashAllowed(kv.hashAlgo, Engine(kv)), "--kv-hash-algo"))
  }

  function ValidatePdFields(pd: PdOptions, engine: string): Verdict {
    Check(0 <= pd.bootstrapPort <= 65535, "--pd-bootstrap-port")
    .Then(Check(pd.bootstrapPort != 0 ==> pd.disagg && engine == "sglang", "--pd-bootstrap-port"))
    .Then(Check(0 <= pd.prefillTimeout <= 3600, "--pd-prefill-timeout"))
    .Then(Check(pd.prefillTimeout != 0 ==> pd.disagg, "--pd-prefill-timeout"))
  }

  predicate HasRole(roles: seq<string>, n: int) {
    exists i :: 0 <= i < |roles| && EpRoleToNum(roles[i]) == Some(n)
  }

  predicate RolesKnown(roles: seq<string>) {
    forall i :: 0 <= i < |roles| ==> EpRoleToNum(roles[i]).Some?
  }

  function ValidateRoles(roles: seq<string>): Verdict {
    Check(RolesKnown(roles), "--ep-role").Then(Check(HasRole(roles, PREFILL) && HasRole(roles, DECODE), "--pd-disagg"))
  }

  function ValidateEngine(kv: KvOptions, disagg: bool): Verdict {
    if Engine(kv) == "trtllm" then
      Check(kv.zmqPort == 0 || kv.zmqPort == 5557, "--kv-zmq-port").Then(Check(kv.dpRanks <= 1, "--kv-dp-ranks"))
    else if Engine(kv) == "llamacpp" then
      Check(kv.exactMode == 0, "--kv-exact-mode")
      .Then(Check(!disagg, "--pd-disagg"))
      .Then(Check(kv.zmqPort == 0 || kv.zmqPort == 5557, "--kv-zmq-port"))
      .Then(Check(kv.dpRanks <= 1, "--kv-dp-ranks"))
      .Then(Check(kv.blockSize == 0 || kv.blockSize == 16, "--kv-block-size"))
    else Accepted
  }

  function ValidateKvEngine(o: Options): Verdict {
    ValidateKvFields(o.kv, o.pd.disagg)
    .Then(ValidatePdFields(o.pd, Engine(o.kv)))
    .Then(if o.pd.disagg then ValidateRoles(o.epRoles) else Accepted)
    .Then(ValidateEngine(o.kv, o.pd.disagg))
  }

  /** What an engine can do. */
  datatype Profile = Profile(
    hashes: set<string>, maxRanks: nat, anyZmqPort: bool, anyBlockSize: bool, exact: bool, splits: bool)

  const PROFILES: map<string, Profile> := map[
    "vllm" := Profile({"sha256_cbor", "xxhash_cbor"}, 8, true, true, true, true),
    "sglang" := Profile({"sha256_sglang"}, 8, true, true, true, true),
    "trtllm" := Profile({"blockhash_trtllm"}, 1, false, true, true, true),
    "llamacpp" := Profile({}, 1, false, false, false, false)]

  function ZmqBase(kv: KvOptions): int { if kv.zmqPort == 0 then 5557 else kv.zmqPort }

  function ZmqPortOf(kv: KvOptions, rank: nat): int { ZmqBase(kv) + rank }

  /** Every rank of an exact rule publishes on a port of its own. */
  predicate RanksFit(kv: KvOptions) {
    kv.exactMode != 0 ==> forall rank: nat :: rank < kv.dpRanks ==> ZmqPortOf(kv, rank) < 0x1_0000
  }

  predicate KvFits(kv: KvOptions, disagg: bool, p: Profile) {
    && 0 <= kv.dpRanks <= p.maxRanks
    && 0 <= kv.zmqPort < 0x1_0000 && (p.anyZmqPort || ZmqBase(kv) == 5557)
    && kv.blockSize >= 0 && (p.anyBlockSize || kv.blockSize in {0, 16})
    && kv.warmup >= 0
    && (kv.exactMode == 0 || (p.exact && kv.exactMode == if disagg then 1 else 3))
    && RanksFit(kv)
    && (kv.hashAlgo == "" || kv.hashAlgo in p.hashes)
  }

  predicate PdFits(o: Options, p: Profile) {
    if !o.pd.disagg then o.pd.bootstrapPort == 0 && o.pd.prefillTimeout == 0
    else
      && p.splits && 0 <= o.pd.prefillTimeout <= 3600
      && (o.pd.bootstrapPort == 0 || (0 < o.pd.bootstrapPort < 0x1_0000 && Engine(o.kv) == "sglang"))
      && RolesKnown(o.epRoles) && HasRole(o.epRoles, PREFILL) && HasRole(o.epRoles, DECODE)
  }

  lemma RanksFitExactly(kv: KvOptions)
    requires 0 <= kv.zmqPort < 0x1_0000
    ensures RanksFit(kv) <==> (kv.exactMode != 0 && kv.dpRanks > 0 ==> ZmqBase(kv) + kv.dpRanks - 1 <= 65535)
  {
    if kv.dpRanks > 0 {
      assert ZmqPortOf(kv, kv.dpRanks - 1) == ZmqBase(kv) + kv.dpRanks - 1;
    }
  }

  lemma HashAllowedExactly(hash: string, engine: string)
    requires engine in PROFILES
    ensures HashAllowed(hash, engine) <==> hash in PROFILES[engine].hashes
  {
  }

  /** The scattered P/D and KV checks accept exactly what fits the engine's
      profile: every rank has a port, the exact mode is the one of the split. */
  lemma KvAcceptedExactly(o: Options)
    ensures ValidateKvEngine(o).Accepted? <==>
      && Engine(o.kv) in PROFILES
      && KvFits(o.kv, o.pd.disagg, PROFILES[Engine(o.kv)])
      && PdFits(o, PROFILES[Engine(o.kv)])
  {
    var engine := Engine(o.kv);
    assert engine in ["vllm", "sglang", "trtllm", "llamacpp"] <==> engine in PROFILES;
    if engine in PROFILES {
      HashAllowedExactly(o.kv.hashAlgo, engine);
    }
    hide RolesKnown, HasRole, RanksFit, HashAllowed, Engine;
    if 0 <= o.kv.zmqPort < 0x1_0000 {
      RanksFitExactly(o.kv);
    }
  }

  /** The scan of the roles, with its two accumulators. */
  method ScanRoles(roles: seq<string>) returns (v: Verdict)
    ensures v == ValidateRoles(roles)
  {
    hide EpRoleToNum;
    var hasPrefill, hasDecode := false, false;
    for i := 0 to |roles|
      invariant forall j :: 0 <= j < i ==> EpRoleToNum(roles[j]).Some?
      invariant hasPrefill <==> exists j :: 0 <= j < i && EpRoleToNum(roles[j]) == Some(PREFILL)
      invariant hasDecode <==> exists j :: 0 <= j < i && EpRoleToNum(roles[j]) == Some(DECODE)
    {
      var value := EpRoleToNum(roles[i]);
      if value.None? {
        return Refused("--ep-role");
      }
      hasPrefill := hasPrefill || value.value == PREFILL;
      hasDecode := hasDecode || value.value == DECODE;
    }
    v := Check(hasPrefill && hasDecode, "--pd-disagg");
  }

  // ----- the whole validation -----

  /** With the early exit for a rule that asks for nothing of the inference gateway. */
  method ValidateLBAIOptions(o: Options) returns (v: Verdict)
    ensures v == Validate(o)
  {
    hide ValidateAuth, ValidateEpp, ValidateFcQueue, ValidateBackendTls, Enum, AIRequested, ValidateKvFields,
      ValidatePdFields, ValidateEngine, ValidateRoles, ModeToNum;
    v := ValidateFront(o);
    if v.Refused? || !AIRequested(o) {
      return;
    }
    if ModeToNum(o.mode) != 4 {
      return Refused("--mode");
    }
    if o.pd.cacheAware && !o.pd.disagg {
      return Refused("--pd-cache-aware");
    }
    v := ValidateKvFields(o.kv, o.pd.disagg).Then(ValidatePdFields(o.pd, Engine(o.kv)));
    if v.Refused? {
      return;
    }
    if o.pd.disagg {
      v := ScanRoles(o.epRoles);
      if v.Refused? {
        return;
      }
    }
    v := ValidateEngine(o.kv, o.pd.disagg);
  }

  function Validate(o: Options): Verdict {
    var front := ValidateFront(o);
    if front.Refused? || !AIRequested(o) then front
    else
      Check(ModeToNum(o.mode) == 4, "--mode")
      .Then(Check(o.pd.cacheAware ==> o.pd.disagg, "--pd-cache-aware"))
      .Then(ValidateKvEngine(o))
  }

  /** The same rules without the early exit: all of them, always. */
  function ValidateInFull(o: Options): Verdict {
    ValidateFront(o)
    .Then(Check(AIRequested(o) ==> ModeToNum(o.mode) == 4, "--mode"))
    .Then(Check(o.pd.cacheAware ==> o.pd.disagg, "--pd-cache-aware"))
    .Then(ValidateKvEngine(o))
  }

  /** Without any option that needs a full proxy the later rules hold by themselves. */
  lemma NothingRequested(o: Options)
    requires !AIRequested(o)
    ensures !o.pd.cacheAware && !o.pd.disagg && ValidateKvEngine(o).Accepted?
  {
    hide HashAllowed, SelectToNum, MtlsFrontendRequested, BackendTlsRequested;
  }

  /** The early exit loses nothing: the verdict, and the flag a refusal names,
      are those of all the rules in order. */
  lemma EarlyExitLosesNothing(o: Options)
    ensures Validate(o) == ValidateInFull(o)
  {
    if !AIRequested(o) {
      NothingRequested(o);
    }
    hide ValidateFront, ValidateKvEngine, AIRequested, ModeToNum;
  }

  lemma AcceptedMeans(o: Options)
    ensures Validate(o).Accepted? <==>
      && ValidateFront(o).Accepted?
      && (AIRequested(o) ==> ModeToNum(o.mode) == 4)
      && (o.pd.cacheAware ==> o.pd.disagg)
      && ValidateKvEngine(o).Accepted?
  {
    EarlyExitLosesNothing(o);
    hide ValidateFront, ValidateKvEngine, AIRequested, ModeToNum;
  }

  /** An accepted --pd-disagg has a role list of known roles with a prefill and a
      decode in it, a full proxy and an engine that can split the two. */
  lemma DisaggHasBothRoles(o: Options)
    requires Validate(o).Accepted? && o.pd.disagg
    ensures RolesKnown(o.epRoles) && HasRole(o.epRoles, PREFILL) && HasRole(o.epRoles, DECODE)
    ensures ModeToNum(o.mode) == 4 && Engine(o.kv) != "llamacpp"
  {
    AcceptedMeans(o);
    assert AIRequested(o);
    hide ValidateFront, AIRequested, ModeToNum, ValidateKvFields, ValidatePdFields, RolesKnown, HasRole;
  }
}
