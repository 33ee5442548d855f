/** The per-request locale configuration: the requested locale is kept when
    the routing supports it and replaced by the routing's default otherwise,
    and the message table of the resulting locale is loaded. The routing and
    the message tables are parameters. */
module Request {
  import opened Wrappers

  /** The supported locales and the default one. */
  datatype Routing = Routing(locales: seq<string>, defaultLocale: string)

  /** The locale and messages handed to the internationalisation library. */
  datatype Config<M> = Config(locale: string, messages: M)

  /** validLocale: a requested locale that is truthy (present and non-empty)
      and supported, else the default. */
  function ValidLocale(locale: Option<string>, routing: Routing): (r: string)
    ensures locale.Some? && locale.value != "" && locale.value in routing.locales ==> r == locale.value
    ensures locale.None? || locale.value == "" || locale.value !in routing.locales ==> r == routing.defaultLocale
    ensures r in routing.locales || r == routing.defaultLocale
  {
    if locale.Some? && locale.value != "" && locale.value in routing.locales then locale.value
    else routing.defaultLocale
  }

  /** The request configuration: the messages of the validated locale,
      looked up in `catalog`. */
  function RequestConfig<M>(locale: Option<string>, routing: Routing, catalog: string -> M): (c: Config<M>)
    ensures locale.Some? && locale.value != "" && locale.value in routing.locales ==>
      c == Config(locale.value, catalog(locale.value))
    ensures locale.None? || locale.value == "" || locale.value !in routing.locales ==>
      c == Config(routing.defaultLocale, catalog(routing.defaultLocale))
  {
    var validLocale := ValidLocale(locale, routing);
    Config(validLocale, catalog(validLocale))
  }

  /** With a supported default, the result is always supported. */
  lemma FallbackSupported(locale: Option<string>, routing: Routing)
    requires routing.defaultLocale in routing.locales
    ensures ValidLocale(locale, routing) in routing.locales
  {
  }

  /** The fallback applied to its own result changes nothing. */
  lemma FallbackIdempotent(locale: Option<string>, routing: Routing)
    ensures ValidLocale(Some(ValidLocale(locale, routing)), routing) == ValidLocale(locale, routing)
  {
  }
}
