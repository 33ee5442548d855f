/** The locale and path handling of the site header: which locale the current
    pathname names, the path without its locale prefix, the language-switch
    link and the navigation links. The browser's `window` is a parameter:
    `None` stands for server-side rendering, where there is no window. */
module Header {
  import opened Wrappers

  /** The two locales the site is served in. */
  datatype Locale = Zh | En

  /** The URL segment that names a locale. */
  function Code(l: Locale): string {
    match l
    case Zh => "zh"
    case En => "en"
  }

  /** "/zh" or "/en": the prefix of every page of a locale. */
  function Prefix(l: Locale): (p: string)
    ensures |p| == 3 && p[0] == '/'
    ensures p[1..] == Code(l)
  {
    "/" + Code(l)
  }

  /** The pattern ^\/(zh|en) of the header, read character by character:
      the locale whose prefix opens the path. The alternatives differ in their
      first letter, so trying zh before en never changes which one matches. */
  function MatchPrefix(path: string): (m: Option<Locale>)
    ensures forall l :: m == Some(l) <==> Prefix(l) <= path
  {
    if |path| >= 3 && path[0] == '/' && path[1] == 'z' && path[2] == 'h' then Some(Zh)
    else if |path| >= 3 && path[0] == '/' && path[1] == 'e' && path[2] == 'n' then Some(En)
    else None
  }

  /** The pattern ^\/(zh|en)(\/|$): the locale prefix must be followed by a
      '/' or end the path. */
  function MatchSegment(path: string): (m: Option<Locale>)
    ensures forall l :: m == Some(l) <==> Prefix(l) <= path && (|path| == 3 || path[3] == '/')
  {
    match MatchPrefix(path)
    case Some(l) => if |path| == 3 || path[3] == '/' then Some(l) else None
    case None => None
  }

  /** getCurrentLocale: the locale named by the first path segment, zh when
      there is no window or the path does not start with such a segment. */
  function CurrentLocale(pathname: Option<string>): (l: Locale)
    ensures pathname.None? ==> l == Zh
    ensures l == En <==>
      pathname.Some? && Prefix(En) <= pathname.value && (|pathname.value| == 3 || pathname.value[3] == '/')
  {
    match pathname
    case None => Zh
    case Some(path) =>
      match MatchSegment(path)
      case Some(l) => l
      case None => Zh
  }

  /** path.replace(/^\/(zh|en)/, ''): drop one leading "/zh" or "/en",
      whatever follows it. */
  function StripPrefix(path: string): (s: string)
    ensures MatchPrefix(path).Some? ==> path == Prefix(MatchPrefix(path).value) + s
    ensures MatchPrefix(path).None? ==> s == path
  {
    if MatchPrefix(path).Some? then path[3..] else path
  }

  /** getCurrentPath: the path without its locale prefix, "/" when there is
      no window or nothing is left. */
  function CurrentPath(pathname: Option<string>): (p: string)
    ensures p != ""
    ensures pathname.None? ==> p == "/"
    ensures forall l :: pathname.Some? && Prefix(l) <= pathname.value ==>
      p == if |pathname.value| == 3 then "/" else pathname.value[3..]
    ensures pathname.Some? && MatchPrefix(pathname.value).None? ==>
      p == if pathname.value == "" then "/" else pathname.value
  {
    match pathname
    case None => "/"
    case Some(path) =>
      var s := StripPrefix(path);
      if s == "" then "/" else s
  }

  /** The locale the language switch offers. */
  function SwitchLocale(l: Locale): (o: Locale)
    ensures o != l
  {
    if l == Zh then En else Zh
  }

  /** A browser path (empty or starting with '/') on which the two patterns
      agree: a locale prefix, if there is one, ends its segment. */
  predicate SegmentAligned(path: string) {
    (path == "" || path[0] == '/') && (MatchPrefix(path).Some? ==> MatchSegment(path).Some?)
  }

  /** The href of the language switch: the current path under the other
      locale's prefix. Followed, it reads as the other locale and the same
      page; only where a locale prefix is glued to more text, as in
      "/english", does it still read as zh. */
  function SwitchLocalePath(pathname: Option<string>): (q: string)
    ensures Prefix(SwitchLocale(CurrentLocale(pathname))) <= q
    ensures |q| == 3 + |CurrentPath(pathname)|
    ensures CurrentPath(Some(q)) == CurrentPath(pathname)
    ensures pathname.None? || SegmentAligned(pathname.value) ==>
      CurrentLocale(Some(q)) == SwitchLocale(CurrentLocale(pathname))
    ensures pathname.Some? && MatchPrefix(pathname.value).Some? && MatchSegment(pathname.value).None? ==>
      CurrentLocale(Some(q)) == Zh
  {
    Prefix(SwitchLocale(CurrentLocale(pathname))) + CurrentPath(pathname)
  }

  /** One entry of the navigation bar: a translation key and its link. */
  datatype NavItem = NavItem(key: string, href: string)

  /** The navigation bar: home, about, services and contact, all inside the
      current locale. */
  function NavItems(l: Locale): (items: seq<NavItem>)
    ensures |items| == 4
    ensures items[0].key == "home" && items[1].key == "about"
    ensures items[2].key == "services" && items[3].key == "contact"
    ensures items[0].href == Prefix(l)
    ensures forall i :: 0 <= i < |items| ==> Prefix(l) <= items[i].href
  {
    var p := Prefix(l);
    [NavItem("home", p), NavItem("about", p + "/about"),
     NavItem("services", p + "/services"), NavItem("contact", p + "/contact")]
  }

  /** Switching locale twice comes back to where it started. */
  lemma SwitchLocaleInvolution(l: Locale)
    ensures SwitchLocale(SwitchLocale(l)) == l
  {
  }

  /** "/english" has no locale segment, so it is read as zh, yet its prefix
      "/en" is still stripped, and its switch link is the path itself. */
  lemma GluedPrefixExample()
    ensures CurrentLocale(Some("/english")) == Zh
    ensures CurrentPath(Some("/english")) == "glish"
    ensures SwitchLocalePath(Some("/english")) == "/english"
  {
  }

  /** Sample paths with a locale segment and without one; "/zh" strips to "/". */
  lemma PathExamples()
    ensures CurrentLocale(Some("/en/about")) == En && CurrentPath(Some("/en/about")) == "/about"
    ensures CurrentPath(Some("/zh")) == "/" && SwitchLocalePath(Some("/zh")) == "/en/"
    ensures CurrentPath(Some("/about")) == "/about" && SwitchLocalePath(Some("/about")) == "/en/about"
  {
  }

  /** Every navigation link stays in the current locale and names the page
      its key says. */
  lemma NavItemsStayInLocale(l: Locale)
    ensures forall i :: 0 <= i < 4 ==> CurrentLocale(Some(NavItems(l)[i].href)) == l
    ensures CurrentPath(Some(NavItems(l)[0].href)) == "/"
    ensures CurrentPath(Some(NavItems(l)[1].href)) == "/about"
    ensures CurrentPath(Some(NavItems(l)[2].href)) == "/services"
    ensures CurrentPath(Some(NavItems(l)[3].href)) == "/contact"
  {
  }
}
