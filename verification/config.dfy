/** The frontend configuration: the settings record, its built-in fallback, the data-source
    selection rule and the browser-safe projection of the settings. */
module Config {
  import opened Wrappers

  datatype Environment = Development | Production | Staging

  /** `data.source` as configured: `"auto" | "local" | "api"`. */
  datatype SourceSetting = Auto | LocalSetting | ApiSetting

  /** Where product data comes from once the setting is resolved. */
  datatype DataSource = Local | Api

  datatype AppInfo = AppInfo(name: string, version: string, description: string, environment: Environment)

  datatype ApiUrls = ApiUrls(
    documentationUrl: string,
    backendVersionUrl: string,
    baseUrl: string,
    searchUrl: string,
    historyUrl: string)

  datatype DataSettings = DataSettings(source: SourceSetting, timeout: int, retryAttempts: int, cacheDuration: int)

  datatype Theme = Theme(primaryColor: string, headerHeight: string, mobileHeaderHeight: string)

  datatype Features = Features(qrScanner: bool, searchHistory: bool, offlineMode: bool)

  datatype LinkSettings = LinkSettings(supportUrl: string, privacyUrl: string, termsUrl: string)

  datatype AppConfig = AppConfig(
    app: AppInfo,
    api: ApiUrls,
    data: DataSettings,
    theme: Theme,
    features: Features,
    links: LinkSettings)

  /** The API section a browser may see: everything but the backend version URL. */
  datatype ClientApi = ClientApi(documentationUrl: string, baseUrl: string, searchUrl: string, historyUrl: string)

  datatype ClientConfig = ClientConfig(
    app: AppInfo,
    api: ClientApi,
    data: DataSettings,
    theme: Theme,
    features: Features,
    links: LinkSettings)

  /** The settings used in the browser, or when the server cannot read its YAML file. */
  function Fallback(): AppConfig {
    AppConfig(
      AppInfo("PharmaLink Explorer", "v1.2.3",
        "Digitale Informationen für die pharmazeutische Lieferkette", Development),
      ApiUrls("/api-docs", "/api/version", "/api/v1", "/api/v1/search", "/api/v1/history"),
      DataSettings(Auto, 10000, 3, 300000),
      Theme("emerald", "20", "16"),
      Features(false, false, false),
      LinkSettings("https://vercel.com/help", "#", "#"))
  }

  /** `getConfig()`: the YAML file's contents when the server could load it (`loaded`), the
      fallback otherwise. Reading the file is the caller's business. */
  function GetConfig(loaded: Option<AppConfig>): (r: AppConfig)
    ensures loaded.Some? ==> r == loaded.value
    ensures loaded.None? ==> r.data.source == Auto && r.app.environment == Development
  {
    loaded.GetOr(Fallback())
  }

  /** `getConfig()` with its module-level `config` variable (`memo`): the first answer is kept
      and returned by every later call, whatever the file then holds. */
  function GetConfigOnce(memo: Option<AppConfig>, loaded: Option<AppConfig>): (r: (AppConfig, Option<AppConfig>))
    ensures r.1 == Some(r.0)
    ensures memo.Some? ==> r.0 == memo.value && r.1 == memo
    ensures memo.None? ==> r.0 == GetConfig(loaded)
  {
    match memo
    case Some(cfg) => (cfg, memo)
    case None =>
      var cfg := loaded.GetOr(Fallback());
      (cfg, Some(cfg))
  }

  /** Once answered, `getConfig()` keeps answering the same, whatever is loaded later. */
  lemma {:induction false} GetConfigKeepsFirstAnswer(memo: Option<AppConfig>, first: Option<AppConfig>, later: Option<AppConfig>)
    ensures var (answer, kept) := GetConfigOnce(memo, first);
      GetConfigOnce(kept, later) == (answer, kept)
  {
  }

  /** `getDataSource()`: an explicit setting wins; `auto` means local data during development. */
  function GetDataSource(cfg: AppConfig): (r: DataSource)
    ensures r == Local <==>
      cfg.data.source == LocalSetting || (cfg.data.source == Auto && cfg.app.environment == Development)
    ensures r == Api <==>
      cfg.data.source == ApiSetting || (cfg.data.source == Auto && cfg.app.environment != Development)
  {
    match cfg.data.source
    case LocalSetting => Local
    case ApiSetting => Api
    case Auto => if cfg.app.environment == Development then Local else Api
  }

  /** `getClientConfig()`: every section copied, the API section without its version URL. */
  function GetClientConfig(cfg: AppConfig): (r: ClientConfig)
    ensures Restore(r, cfg.api.backendVersionUrl) == cfg
  {
    ClientConfig(
      cfg.app,
      ClientApi(cfg.api.documentationUrl, cfg.api.baseUrl, cfg.api.searchUrl, cfg.api.historyUrl),
      cfg.data, cfg.theme, cfg.features, cfg.links)
  }

  /** The full settings a client view came from, given the one URL it leaves out. */
  function Restore(c: ClientConfig, backendVersionUrl: string): AppConfig {
    AppConfig(
      c.app,
      ApiUrls(c.api.documentationUrl, backendVersionUrl, c.api.baseUrl, c.api.searchUrl, c.api.historyUrl),
      c.data, c.theme, c.features, c.links)
  }

  /** The client view is the whole configuration except the backend version URL: two settings
      records have the same client view exactly when they agree everywhere else. */
  lemma ClientConfigOmitsOnlyVersionUrl(a: AppConfig, b: AppConfig)
    ensures GetClientConfig(a) == GetClientConfig(b) <==>
      a == b.(api := b.api.(backendVersionUrl := a.api.backendVersionUrl))
  {
    if GetClientConfig(a) == GetClientConfig(b) {
      assert Restore(GetClientConfig(a), a.api.backendVersionUrl) == a;
      assert Restore(GetClientConfig(b), a.api.backendVersionUrl)
        == b.(api := b.api.(backendVersionUrl := a.api.backendVersionUrl));
    }
  }

  /** Without a readable settings file the frontend reads local demo data. */
  lemma FallbackUsesLocalData(loaded: Option<AppConfig>)
    requires loaded.None?
    ensures GetDataSource(GetConfig(loaded)) == Local
  {
  }
}
