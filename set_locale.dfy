/** The `SetLocale` middleware: the locale of a request is the one in its
    route, which must be supported; a route without one falls back to the
    user's language, and then to Arabic. */
module SetLocale {
  import opened Wrappers
  import opened PhpText

  const SupportedLocales: seq<string> := ["ar", "en"]
  const DefaultLocale: string := "ar"

  /** The application whose locale `App::setLocale` sets. */
  class Application {
    var locale: string

    constructor (locale: string)
      ensures this.locale == locale
    {
      this.locale := locale;
    }
  }

  /** The locale a request runs in, or `None` when its route names a locale
      that is not supported. `routeLocale` is the route's `locale` parameter
      and `userLanguage` the signed-in user's language, when there are
      any. */
  function ResolveLocale(routeLocale: Option<string>, userLanguage: Option<string>): (r: Option<string>)
    ensures r.Some? ==> r.value in SupportedLocales
    ensures r.None? <==> routeLocale.Some? && !IsFalsy(routeLocale.value) && routeLocale.value !in SupportedLocales
    ensures routeLocale.Some? && routeLocale.value in SupportedLocales ==> r == routeLocale
    ensures routeLocale.None? || IsFalsy(routeLocale.value) ==>
      (userLanguage.Some? && userLanguage.value in SupportedLocales ==> r == userLanguage) &&
      (!(userLanguage.Some? && userLanguage.value in SupportedLocales) ==> r == Some(DefaultLocale))
  {
    if routeLocale.None? || IsFalsy(routeLocale.value) then
      var user := userLanguage.GetOr("");
      Some(if !IsFalsy(user) && user in SupportedLocales then user else DefaultLocale)
    else if routeLocale.value in SupportedLocales then routeLocale
    else None
  }

  /** The user's language only matters when the route names no locale. */
  lemma RouteLocaleWins(routeLocale: string, language1: Option<string>, language2: Option<string>)
    requires !IsFalsy(routeLocale)
    ensures ResolveLocale(Some(routeLocale), language1) == ResolveLocale(Some(routeLocale), language2)
  {
  }

  datatype Outcome = Next | NotFound

  /** `handle`: the request goes on in the resolved locale, or is answered
      with 404 and the locale is left as it was. */
  method Handle(app: Application, routeLocale: Option<string>, userLanguage: Option<string>) returns (r: Outcome)
    modifies app
    ensures r == NotFound <==> ResolveLocale(routeLocale, userLanguage).None?
    ensures r == Next ==> app.locale == ResolveLocale(routeLocale, userLanguage).value
    ensures r == NotFound ==> app.locale == old(app.locale)
    ensures old(app.locale) in SupportedLocales ==> app.locale in SupportedLocales
  {
    var locale := routeLocale;
    if locale.None? || IsFalsy(locale.value) {
      var userLocale := userLanguage;
      var chosen := if userLocale.Some? && !IsFalsy(userLocale.value) && userLocale.value in SupportedLocales
        then userLocale.value else DefaultLocale;
      app.locale := chosen;
      return Next;
    }
    if locale.value !in SupportedLocales {
      return NotFound;
    }
    app.locale := locale.value;
    r := Next;
  }
}
