/** Per-config settings of `workOnConfig` (dump.js): every option is the
    config's own value if it is neither `null` nor `undefined`, else the
    shared `defaults` value, else a literal. `BASE_URL` and `AUTH_HEADER`
    have no literal and may stay undefined. */
module Config {
  import opened Wrappers

  const DefaultCqlSingle: string := "label = \"offline-copy\""
  const DefaultCqlTree: string := "label = \"offline-copy-tree\""
  const DefaultOutputDir: string := "./output"
  const DefaultRetentionDays: int := 10
  const DefaultConcurrency: int := 2

  /** One entry of `configs`, or the `defaults` object; `None` stands for
      an absent, `null` or `undefined` option. */
  datatype SourceConfig = SourceConfig(
    baseUrl: Option<string>,
    authHeader: Option<string>,
    cqlSingle: Option<string>,
    cqlTree: Option<string>,
    outputDir: Option<string>,
    retentionDays: Option<int>,
    concurrency: Option<int>)

  /** The values a run works with. */
  datatype Settings = Settings(
    baseUrl: Option<string>,
    authHeader: Option<string>,
    cqlSingle: string,
    cqlTree: string,
    outputDir: string,
    retentionDays: int,
    concurrency: int)

  /** A config that sets every option. */
  predicate Complete(c: SourceConfig) {
    && c.baseUrl.Some? && c.authHeader.Some? && c.cqlSingle.Some? && c.cqlTree.Some?
    && c.outputDir.Some? && c.retentionDays.Some? && c.concurrency.Some?
  }

  /** The config with no option set. */
  const Unset := SourceConfig(None, None, None, None, None, None, None)

  /** The `??` chains against a defaults object that exists. */
  function Coalesce(c: SourceConfig, d: SourceConfig): Settings {
    Settings(
      c.baseUrl.OrElse(d.baseUrl),
      c.authHeader.OrElse(d.authHeader),
      c.cqlSingle.OrElse(d.cqlSingle).GetOr(DefaultCqlSingle),
      c.cqlTree.OrElse(d.cqlTree).GetOr(DefaultCqlTree),
      c.outputDir.OrElse(d.outputDir).GetOr(DefaultOutputDir),
      c.retentionDays.OrElse(d.retentionDays).GetOr(DefaultRetentionDays),
      c.concurrency.OrElse(d.concurrency).GetOr(DefaultConcurrency))
  }

  /** The first held value of `own`, `shared`, else `literal`. */
  ghost predicate FirstOf<T>(result: T, own: Option<T>, shared: Option<T>, literal: T) {
    if own.Some? then result == own.value
    else if shared.Some? then result == shared.value
    else result == literal
  }

  /** Resolution of one config. `defaults` is `None` when the file has no
      `defaults` object: reading an option of it then throws, which happens
      exactly when the config leaves some option unset, since `??` only
      evaluates its right side for a nullish left side. The throw leaves
      `main` and ends the whole run, later configs included. */
  function Resolve(c: SourceConfig, defaults: Option<SourceConfig>): (r: Option<Settings>)
    ensures r.Some? <==> defaults.Some? || Complete(c)
    ensures r.Some? ==>
      var d := defaults.GetOr(Unset);
      && (if c.baseUrl.Some? then r.value.baseUrl == c.baseUrl else r.value.baseUrl == d.baseUrl)
      && (if c.authHeader.Some? then r.value.authHeader == c.authHeader else r.value.authHeader == d.authHeader)
      && FirstOf(r.value.cqlSingle, c.cqlSingle, d.cqlSingle, DefaultCqlSingle)
      && FirstOf(r.value.cqlTree, c.cqlTree, d.cqlTree, DefaultCqlTree)
      && FirstOf(r.value.outputDir, c.outputDir, d.outputDir, DefaultOutputDir)
      && FirstOf(r.value.retentionDays, c.retentionDays, d.retentionDays, DefaultRetentionDays)
      && FirstOf(r.value.concurrency, c.concurrency, d.concurrency, DefaultConcurrency)
  {
    match defaults
    case Some(d) => Some(Coalesce(c, d))
    case None => if Complete(c) then Some(Coalesce(c, Unset)) else None
  }

  /** The settings written back as a config. */
  function AsConfig(s: Settings): SourceConfig {
    SourceConfig(s.baseUrl, s.authHeader, Some(s.cqlSingle), Some(s.cqlTree), Some(s.outputDir),
                 Some(s.retentionDays), Some(s.concurrency))
  }

  /** A config that spells out resolved settings resolves to them again,
      whatever the defaults: a per-config value always wins, including a
      falsy one such as 0 days or an empty query. */
  lemma ResolveRoundTrip(s: Settings, defaults: Option<SourceConfig>)
    requires s.baseUrl.Some? && s.authHeader.Some?
    ensures Resolve(AsConfig(s), defaults) == Some(s)
  {
  }

  /** With nothing configured anywhere, the literal fallbacks apply and the
      base URL and credential stay undefined. */
  lemma LiteralFallbacks()
    ensures Resolve(Unset, Some(Unset))
            == Some(Settings(None, None, DefaultCqlSingle, DefaultCqlTree, DefaultOutputDir,
                             DefaultRetentionDays, DefaultConcurrency))
  {
  }
}
