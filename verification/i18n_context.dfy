/** The client-side copy of the translation function. */
module I18nContext {
  import opened Wrappers
  import Translations

  /** `t(locale, key, params)` of the client context: the same lookup in the shared table and
      the same placeholder pass, so it agrees with the server function for every locale,
      key and parameters. */
  function T(locale: Translations.Locale, key: Translations.Key,
             params: Option<map<string, Translations.Param>>): (r: string)
    ensures r == Translations.T(locale, key, params)
  {
    var translation := Translations.Template(locale, key);
    if params.None? then translation else Translations.Interpolate(translation, params.value)
  }

  /** Without parameters the raw template comes back; a missing or empty parameter keeps its
      placeholder. */
  lemma ClientPlaceholders(locale: Translations.Locale, key: Translations.Key, name: string, rest: string,
                           params: map<string, Translations.Param>)
    requires Translations.IsWord(name)
    requires name !in params || Translations.ParamText(params[name]) == ""
    ensures T(locale, key, None) == Translations.Template(locale, key)
    ensures Translations.Interpolate("{" + name + "}" + rest, params) ==
            "{" + name + "}" + Translations.Interpolate(rest, params)
  {
    Translations.MissingParamKept(name, rest, params);
  }
}
