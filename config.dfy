/** The parts of the gateway's configuration that the modelled components
    read (`src/config/mod.rs`). Fields no modelled component reads (listen
    address, timeouts, descriptions) are not part of this model. */
module Config {
  import opened Wrappers
  import opened Bytes
  import opened Ints

  /** How an upstream service is given tools (`FcMode`, default `Inject`). */
  datatype FcMode = Inject | Native | Auto

  datatype ServerConfig = ServerConfig(
    httpPoolMaxIdlePerHost: nat,
    runtimeWorkerThreads: Option<nat>,
    runtimeMaxBlockingThreads: Option<nat>,
    runtimeThreadStackSizeKb: Option<nat>,
    tcpReusePortListenerCount: Option<nat>,
    modelsCacheTtlSecs: u64,
    basePath: bytes)

  datatype UpstreamServiceConfig = UpstreamServiceConfig(
    name: bytes,
    provider: bytes,
    baseUrl: bytes,
    apiKey: bytes,
    models: seq<bytes>,
    fcMode: FcMode,
    apiVersion: Option<bytes>,
    proxy: Option<bytes>,
    proxyStream: Option<bytes>,
    proxyNonStream: Option<bytes>)

  datatype FeaturesConfig = FeaturesConfig(
    enableFunctionCalling: bool,
    logLevel: bytes,
    convertDeveloperToSystem: bool,
    enableFcErrorRetry: bool,
    fcErrorRetryMaxAttempts: u32,
    promptTemplate: Option<bytes>,
    fcErrorRetryPromptTemplate: Option<bytes>)

  datatype AppConfig = AppConfig(
    server: ServerConfig,
    upstreamServices: seq<UpstreamServiceConfig>,
    allowedKeys: seq<bytes>,
    features: FeaturesConfig)
}
