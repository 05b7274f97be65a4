/**
 * The theme catalogue: the themes a tenant may choose, by code.
 */
module ThemeCatalog {
  import opened Wrappers
  import JavaStrings

  datatype ThemeDefinition = ThemeDefinition(code: string, displayName: string, description: string)

  /** Some catalogue entry has exactly this code. */
  function AnyHasCode(themes: seq<ThemeDefinition>, code: string): (r: bool)
    ensures r <==> exists i :: 0 <= i < |themes| && themes[i].code == code
  {
    if themes == [] then false else themes[0].code == code || AnyHasCode(themes[1..], code)
  }

  /**
   * isValidTheme: a null or blank code is never valid, even if the catalogue
   * lists one; any other code is valid exactly when some entry has it.
   */
  function IsValidTheme(themes: seq<ThemeDefinition>, code: Option<string>): (r: bool)
    ensures r <==> code.Some? && JavaStrings.HasText(code.value)
                   && exists i :: 0 <= i < |themes| && themes[i].code == code.value
  {
    if code.None? || JavaStrings.IsBlank(code.value) then false else AnyHasCode(themes, code.value)
  }
}

/**
 * The theme resource check: whether a theme has its own template for a view,
 * asked of the resource loader once per (theme, view) and remembered, the
 * negative answers included.
 */
module ThemeResources {
  import JavaStrings

  const KeySeparator := ':'

  /** The memo key of a (theme, view) pair. */
  function MemoKey(theme: string, view: string): (k: string)
    ensures |k| == |theme| + 1 + |view|
    ensures k[..|theme|] == theme && k[|theme|] == KeySeparator && k[|theme| + 1..] == view
  {
    JavaStrings.Joined(theme, KeySeparator, view)
  }

  /** The template location of a view within a theme. */
  function TemplatePath(theme: string, view: string): string {
    "classpath:/templates/themes/" + theme + "/" + view + ".html"
  }

  /** A theme name without the key separator. */
  predicate PlainTheme(theme: string) {
    forall i :: 0 <= i < |theme| ==> theme[i] != KeySeparator
  }

  /**
   * For theme names without the separator the key determines the pair: the
   * first separator in the key ends the theme name, whatever the view holds.
   */
  lemma MemoKeyInjective(theme1: string, view1: string, theme2: string, view2: string)
    requires PlainTheme(theme1) && PlainTheme(theme2)
    requires MemoKey(theme1, view1) == MemoKey(theme2, view2)
    ensures theme1 == theme2 && view1 == view2
  {
    JavaStrings.JoinedInjectiveLeft(theme1, view1, theme2, view2, KeySeparator);
  }

  /** A separator in a theme name lets two different templates share one memo entry. */
  lemma SeparatorInThemeCollides()
    ensures MemoKey("a:b", "c") == MemoKey("a", "b:c")
    ensures TemplatePath("a:b", "c") != TemplatePath("a", "b:c")
  {
    assert MemoKey("a:b", "c") == "a:b:c";
    assert MemoKey("a", "b:c") == "a:b:c";
    assert TemplatePath("a:b", "c")[29] == ':';
    assert TemplatePath("a", "b:c")[29] == '/';
  }

  class ThemeResourceResolver {
    /** The memo: key to "the template exists". */
    var memo: map<string, bool>
    /** How often the resource loader was asked. */
    var loads: nat

    constructor ()
      ensures memo == map[] && loads == 0
    {
      memo := map[];
      loads := 0;
    }

    /**
     * Every remembered answer for a plain theme name is the loader's answer
     * for that pair's template.
     */
    ghost predicate Faithful(resourceExists: string -> bool)
      reads this
    {
      forall theme, view :: PlainTheme(theme) && MemoKey(theme, view) in memo ==>
        memo[MemoKey(theme, view)] == resourceExists(TemplatePath(theme, view))
    }

    /**
     * checkThemeResourceExists: a remembered answer is returned without
     * asking the loader; otherwise the loader is asked for the template and
     * its answer, true or false, is remembered.
     */
    method CheckThemeResourceExists(theme: string, view: string, resourceExists: string -> bool)
      returns (found: bool)
      modifies this
      ensures MemoKey(theme, view) in old(memo) ==>
        found == old(memo)[MemoKey(theme, view)] && memo == old(memo) && loads == old(loads)
      ensures MemoKey(theme, view) !in old(memo) ==>
        found == resourceExists(TemplatePath(theme, view))
        && memo == old(memo)[MemoKey(theme, view) := found] && loads == old(loads) + 1
    {
      var key := MemoKey(theme, view);
      if key in memo {
        return memo[key];
      }
      loads := loads + 1;
      found := resourceExists(TemplatePath(theme, view));
      memo := memo[key := found];
    }

    /**
     * With plain theme names and a loader whose answers do not change, the
     * memo never gives a wrong answer and stays faithful.
     */
    method CheckFaithfully(theme: string, view: string, resourceExists: string -> bool)
      returns (found: bool)
      requires PlainTheme(theme) && Faithful(resourceExists)
      modifies this
      ensures found == resourceExists(TemplatePath(theme, view))
      ensures Faithful(resourceExists)
    {
      found := CheckThemeResourceExists(theme, view, resourceExists);
      forall t, v | PlainTheme(t) && MemoKey(t, v) in memo
        ensures memo[MemoKey(t, v)] == resourceExists(TemplatePath(t, v))
      {
        if MemoKey(t, v) == MemoKey(theme, view) {
          MemoKeyInjective(t, v, theme, view);
        }
      }
    }

    /** Two checks of the same pair ask the loader at most once and agree. */
    method CheckTwice(theme: string, view: string, resourceExists: string -> bool)
      returns (first: bool, second: bool)
      modifies this
      ensures first == second
      ensures loads <= old(loads) + 1
      ensures MemoKey(theme, view) !in old(memo) ==> first == resourceExists(TemplatePath(theme, view))
    {
      first := CheckThemeResourceExists(theme, view, resourceExists);
      second := CheckThemeResourceExists(theme, view, resourceExists);
    }
  }
}

/**
 * The theme view interceptor: after the handler, a plain view name is
 * rewritten to the tenant theme's own template when that template exists,
 * and the model gets the theme name.
 */
module ThemeViews {
  import opened Wrappers
  import JavaStrings
  import TenantThread
  import opened ThemeResources

  const ThemePrefix := "themes/"
  const CurrentThemeKey := "currentTheme"

  /** The view of a ModelAndView: none, a name, or a view object (which has no name). */
  datatype ViewRef = NoView | Named(name: string) | ViewObject

  /** A model-and-view whose view name and model the interceptor updates. */
  class ModelAndView {
    var view: ViewRef
    var model: map<string, string>

    constructor (view: ViewRef)
      ensures this.view == view && model == map[]
    {
      this.view := view;
      model := map[];
    }
  }

  /** The view name the interceptor may theme: a name that is neither a redirect nor a forward. */
  function ThemableName(view: ViewRef): (r: Option<string>)
    ensures r.Some? <==> view.Named? && !JavaStrings.StartsWith(view.name, "redirect:")
                         && !JavaStrings.StartsWith(view.name, "forward:")
    ensures r.Some? ==> r.value == view.name
  {
    match view {
      case Named(name) =>
        if JavaStrings.StartsWith(name, "redirect:") || JavaStrings.StartsWith(name, "forward:") then None
        else Some(name)
      case _ => None
    }
  }

  /** The themed view name. */
  function ThemedView(theme: string, view: string): string {
    ThemePrefix + theme + "/" + view
  }

  /** What the resolver answers from this memo for a pair. */
  function Answer(memo: map<string, bool>, theme: string, view: string, resourceExists: string -> bool): bool {
    if MemoKey(theme, view) in memo then memo[MemoKey(theme, view)] else resourceExists(TemplatePath(theme, view))
  }

  class ThemeViewInterceptor {
    const resolver: ThemeResourceResolver

    constructor (resolver: ThemeResourceResolver)
      ensures this.resolver == resolver
    {
      this.resolver := resolver;
    }

    /**
     * postHandle: nothing happens without a model-and-view, without a
     * themable view name, or without a tenant; otherwise the view becomes the
     * theme's template when that exists (and stays as it was when not), and the
     * model's "currentTheme" is the theme name.
     */
    method PostHandle(mav: ModelAndView?, tenant: TenantThread.TenantContext, resourceExists: string -> bool)
      modifies mav, resolver
      ensures mav == null || ThemableName(old(mav.view)).None? || tenant.tenant.None? ==>
        (mav != null ==> mav.view == old(mav.view) && mav.model == old(mav.model))
        && resolver.memo == old(resolver.memo)
      ensures mav != null && ThemableName(old(mav.view)).Some? && tenant.tenant.Some? ==>
        var theme := tenant.tenant.value.themeName;
        var name := ThemableName(old(mav.view)).value;
        mav.view == (if Answer(old(resolver.memo), theme, name, resourceExists)
                     then Named(ThemedView(theme, name)) else old(mav.view))
        && mav.model == old(mav.model)[CurrentThemeKey := theme]
        && resolver.memo == old(resolver.memo)[MemoKey(theme, name) := Answer(old(resolver.memo), theme, name, resourceExists)]
    {
      if mav == null || mav.view.NoView? {
        return;
      }
      var originalView := ThemableName(mav.view);
      if originalView.None? {
        return;
      }
      var info := tenant.GetTenant();
      if info.None? {
        return;
      }
      var themeName := info.value.themeName;
      var present := resolver.CheckThemeResourceExists(themeName, originalView.value, resourceExists);
      if present {
        mav.view := Named(ThemedView(themeName, originalView.value));
      }
      mav.model := mav.model[CurrentThemeKey := themeName];
    }
  }

  /** A themed view is still themable, and its name names the theme's folder. */
  lemma ThemedViewIsPlainName(theme: string, view: string)
    ensures JavaStrings.StartsWith(ThemedView(theme, view), ThemePrefix)
    ensures ThemableName(Named(ThemedView(theme, view))) == Some(ThemedView(theme, view))
  {
    var v := ThemedView(theme, view);
    assert v[0] == 't';
    assert !JavaStrings.StartsWith(v, "redirect:") by { assert "redirect:"[0] != v[0]; }
    assert !JavaStrings.StartsWith(v, "forward:") by { assert "forward:"[0] != v[0]; }
  }
}
