/**
 * The read-only accessors of StyleguideConfigurationManager over the loaded
 * configuration: each tolerates a missing setting by returning a default.
 */
module ConfigurationAccessors {
  import opened Wrappers
  import opened PhpArrays
  import opened AssetSanitizer
  import opened ConfigurationLoader

  const Features := Name("Features")
  const Fluid := Name("Fluid")
  const Branding := Name("Branding")

  /** A setting a `string` getter returns without a TypeError: a string, or missing. */
  predicate StringOrMissing(v: Value) {
    v.Null? || v.Str?
  }

  /** A setting an `array` getter returns without a TypeError: an array, or missing. */
  predicate ArrayOrMissing(v: Value) {
    v.Null? || v.Arr?
  }

  /** `$setting ?? $default` for a string getter. */
  function StringSetting(v: Value, default: string): (r: string)
    requires StringOrMissing(v)
    ensures v.Null? ==> r == default
    ensures v.Str? ==> r == v.s
  {
    Coalesce(v, Str(default)).s
  }

  /** `$setting ?? []` for an array getter. */
  function ArraySetting(v: Value): (r: seq<Entry>)
    requires ArrayOrMissing(v)
    ensures v.Null? ==> r == []
    ensures v.Arr? ==> r == v.entries
  {
    Coalesce(v, Arr([])).entries
  }

  /** isFeatureEnabled: `!empty($configuration['Features'][$feature])`. */
  function IsFeatureEnabled(c: seq<Entry>, feature: string): (r: bool)
    ensures Get(c, Features).None? ==> !r
    ensures r <==> Get(c, Features).Some? && Get(c, Features).value.Arr? &&
                   Get(Get(c, Features).value.entries, Name(feature)).Some? &&
                   Truthy(Get(Get(c, Features).value.entries, Name(feature)).value)
  {
    Truthy(At(At(Arr(c), Features), Name(feature)))
  }

  /** getComponentContext: the configured context, `|` when there is none. */
  function ComponentContext(c: seq<Entry>): (r: string)
    requires StringOrMissing(At(Arr(c), Name("ComponentContext")))
    ensures Get(c, Name("ComponentContext")).None? ==> r == "|"
    ensures Get(c, Name("ComponentContext")) == Some(Null) ==> r == "|"
    ensures Get(c, Name("ComponentContext")).Some? && Get(c, Name("ComponentContext")).value.Str? ==>
              r == Get(c, Name("ComponentContext")).value.s
  {
    StringSetting(At(Arr(c), Name("ComponentContext")), "|")
  }

  /** `$configuration['ComponentAssets']['Global'][$kind]`. */
  function GlobalAsset(c: seq<Entry>, kind: Key): Value {
    At(At(At(Arr(c), ComponentAssets), Global), kind)
  }

  /** `$configuration['ComponentAssets']['Packages'][$namespace][$kind]`. */
  function PackageAsset(c: seq<Entry>, namespace: string, kind: Key): Value {
    At(At(At(At(Arr(c), ComponentAssets), Packages), Name(namespace)), kind)
  }

  /** getGlobalCss. */
  function GlobalCss(c: seq<Entry>): (r: seq<Entry>)
    requires ArrayOrMissing(GlobalAsset(c, Css))
    ensures GlobalAsset(c, Css).Null? ==> r == []
    ensures GlobalAsset(c, Css).Arr? ==> r == GlobalAsset(c, Css).entries
  {
    ArraySetting(GlobalAsset(c, Css))
  }

  /** getGlobalJavascript. */
  function GlobalJavascript(c: seq<Entry>): (r: seq<Entry>)
    requires ArrayOrMissing(GlobalAsset(c, Javascript))
    ensures GlobalAsset(c, Javascript).Null? ==> r == []
    ensures GlobalAsset(c, Javascript).Arr? ==> r == GlobalAsset(c, Javascript).entries
  {
    ArraySetting(GlobalAsset(c, Javascript))
  }

  /** getCssForPackage, for the package with the given namespace. */
  function CssForPackage(c: seq<Entry>, namespace: string): (r: seq<Entry>)
    requires ArrayOrMissing(PackageAsset(c, namespace, Css))
    ensures PackageAsset(c, namespace, Css).Null? ==> r == []
    ensures PackageAsset(c, namespace, Css).Arr? ==> r == PackageAsset(c, namespace, Css).entries
  {
    ArraySetting(PackageAsset(c, namespace, Css))
  }

  /** getJavascriptForPackage, for the package with the given namespace. */
  function JavascriptForPackage(c: seq<Entry>, namespace: string): (r: seq<Entry>)
    requires ArrayOrMissing(PackageAsset(c, namespace, Javascript))
    ensures PackageAsset(c, namespace, Javascript).Null? ==> r == []
    ensures PackageAsset(c, namespace, Javascript).Arr? ==> r == PackageAsset(c, namespace, Javascript).entries
  {
    ArraySetting(PackageAsset(c, namespace, Javascript))
  }

  /** getResponsiveBreakpoints. */
  function Breakpoints(c: seq<Entry>): (r: seq<Entry>)
    requires ArrayOrMissing(At(Arr(c), ResponsiveBreakpoints))
    ensures At(Arr(c), ResponsiveBreakpoints).Null? ==> r == []
    ensures Get(c, ResponsiveBreakpoints).None? ==> r == []
    ensures At(Arr(c), ResponsiveBreakpoints).Arr? ==> r == At(Arr(c), ResponsiveBreakpoints).entries
  {
    ArraySetting(At(Arr(c), ResponsiveBreakpoints))
  }

  /** The three kinds of Fluid root paths the styleguide templates are looked up in. */
  datatype RootPathKind = TemplateRoots | PartialRoots | LayoutRoots

  /** The setting under `Fluid` that holds the root paths of the given kind. */
  function RootPathSetting(kind: RootPathKind): Key {
    match kind
    case TemplateRoots => Name("TemplateRootPaths")
    case PartialRoots => Name("PartialRootPaths")
    case LayoutRoots => Name("LayoutRootPaths")
  }

  /** getTemplateRootPaths, getPartialRootPaths and getLayoutRootPaths. */
  function RootPaths(c: seq<Entry>, kind: RootPathKind): (r: seq<Entry>)
    requires ArrayOrMissing(At(At(Arr(c), Fluid), RootPathSetting(kind)))
    ensures Get(c, Fluid).None? ==> r == []
    ensures At(At(Arr(c), Fluid), RootPathSetting(kind)).Null? ==> r == []
    ensures At(At(Arr(c), Fluid), RootPathSetting(kind)).Arr? ==>
              r == At(At(Arr(c), Fluid), RootPathSetting(kind)).entries
  {
    ArraySetting(At(At(Arr(c), Fluid), RootPathSetting(kind)))
  }

  /** `$configuration['Branding'][$name]`. */
  function BrandingSetting(c: seq<Entry>, name: string): Value {
    At(At(Arr(c), Branding), Name(name))
  }

  /**
   * getBrandingLogo: an empty logo setting is returned as it is; otherwise the
   * logo is resolved to an absolute path and loses as many leading characters
   * as the document root has (substr of PHP 8: nothing is left when the path
   * is shorter).
   */
  function BrandingLogo(c: seq<Entry>, absFileName: string -> string, documentRoot: string): (r: string)
    requires StringOrMissing(BrandingSetting(c, "Logo"))
    ensures Get(c, Branding).None? ==> r == ""
    ensures BrandingSetting(c, "Logo").Null? ==> r == ""
    ensures BrandingSetting(c, "Logo").Str? && !Truthy(BrandingSetting(c, "Logo")) ==>
              r == BrandingSetting(c, "Logo").s
    ensures BrandingSetting(c, "Logo").Str? && Truthy(BrandingSetting(c, "Logo")) ==>
              var path := absFileName(BrandingSetting(c, "Logo").s);
              && |r| == (if |documentRoot| <= |path| then |path| - |documentRoot| else 0)
              && r == path[|path| - |r|..]
              && (documentRoot <= path ==> documentRoot + r == path)
  {
    var logo := StringSetting(BrandingSetting(c, "Logo"), "");
    if Truthy(Str(logo)) then
      var path := absFileName(logo);
      if |documentRoot| <= |path| then path[|documentRoot|..] else ""
    else
      logo
  }

  /** The two areas of the styleguide page whose background colour is configurable. */
  datatype BackgroundArea = Body | Header

  /** The Branding setting that holds the background of the given area. */
  function BackgroundSetting(area: BackgroundArea): string {
    match area
    case Body => "BodyBackground"
    case Header => "HeaderBackground"
  }

  /** getBrandingBodyBackground and getBrandingHeaderBackground. */
  function BrandingBackground(c: seq<Entry>, area: BackgroundArea): (r: string)
    requires StringOrMissing(BrandingSetting(c, BackgroundSetting(area)))
    ensures Get(c, Branding).None? ==> r == ""
    ensures BrandingSetting(c, BackgroundSetting(area)).Null? ==> r == ""
    ensures BrandingSetting(c, BackgroundSetting(area)).Str? ==> r == BrandingSetting(c, BackgroundSetting(area)).s
  {
    StringSetting(BrandingSetting(c, BackgroundSetting(area)), "")
  }

  /** After post-processing, a global asset setting holds the sanitised form of what the merged configuration held. */
  lemma LoadedGlobalAsset(c: seq<Entry>, host: Host, kind: Key)
    requires PostProcessable(c)
    requires kind == Css || kind == Javascript
    ensures SectionWellTyped(At(At(Arr(c), ComponentAssets), Global))
    ensures GlobalAsset(PostProcess(c, host), kind) == Arr(Sanitize(Coalesce(GlobalAsset(c, kind), Arr([])), host))
  {
  }

  /**
   * After post-processing, the asset settings of a package that has a section
   * hold the sanitised form of what the merged configuration held; a package
   * without a section still has none.
   */
  lemma LoadedPackageAsset(c: seq<Entry>, host: Host, namespace: string, kind: Key)
    requires PostProcessable(c)
    requires kind == Css || kind == Javascript
    ensures SectionWellTyped(At(At(At(Arr(c), ComponentAssets), Packages), Name(namespace)))
    ensures Get(PackageTableOf(c), Name(namespace)).None? ==>
              PackageAsset(PostProcess(c, host), namespace, kind).Null?
    ensures Get(PackageTableOf(c), Name(namespace)).Some? ==>
              PackageAsset(PostProcess(c, host), namespace, kind) ==
              Arr(Sanitize(Coalesce(PackageAsset(c, namespace, kind), Arr([])), host))
  {
    var r := PostProcess(c, host);
    var packages := At(Arr(AssetsOf(c)), Packages);
    SanitizedPackageTable(c, host);
    assert At(At(Arr(r), ComponentAssets), Packages) == At(Arr(AssetsOf(r)), Packages);
    assert At(At(Arr(c), ComponentAssets), Packages) == packages;
    if packages.Arr? {
      var table := packages.entries;
      var table' := SanitizePackageTable(table, host);
      assert At(Arr(AssetsOf(r)), Packages) == Arr(table');
      var k := Name(namespace);
      if Get(table, k).Some? {
        GetMember(table, k);
        var section := Get(table, k).value;
        assert SectionWellTyped(section);
        assert Get(table', k) == Some(Arr(SanitizeSection(section, host)));
      } else {
        GetKeys(table, k);
        GetKeys(table', k);
      }
    } else {
      assert At(Arr(AssetsOf(r)), Packages) == packages;
    }
  }

  /** After post-processing, the breakpoint getter returns exactly the truthy breakpoints. */
  lemma LoadedBreakpoints(c: seq<Entry>, host: Host)
    requires PostProcessable(c)
    ensures ArrayOrMissing(At(Arr(PostProcess(c, host)), ResponsiveBreakpoints))
    ensures Breakpoints(PostProcess(c, host)) == FilterTruthy(Table(At(Arr(c), ResponsiveBreakpoints)))
  {
  }

  /**
   * The asset getters on the loaded configuration return the sanitised lists
   * of the merged configuration, and an empty list where it has none.
   */
  lemma LoadedAssetGetters(c: seq<Entry>, host: Host, namespace: string)
    requires PostProcessable(c)
    ensures SectionWellTyped(At(At(Arr(c), ComponentAssets), Global))
    ensures SectionWellTyped(At(At(At(Arr(c), ComponentAssets), Packages), Name(namespace)))
    ensures ArrayOrMissing(GlobalAsset(PostProcess(c, host), Css))
    ensures ArrayOrMissing(GlobalAsset(PostProcess(c, host), Javascript))
    ensures ArrayOrMissing(PackageAsset(PostProcess(c, host), namespace, Css))
    ensures ArrayOrMissing(PackageAsset(PostProcess(c, host), namespace, Javascript))
    ensures GlobalCss(PostProcess(c, host)) == Sanitize(Coalesce(GlobalAsset(c, Css), Arr([])), host)
    ensures GlobalJavascript(PostProcess(c, host)) == Sanitize(Coalesce(GlobalAsset(c, Javascript), Arr([])), host)
    ensures CssForPackage(PostProcess(c, host), namespace) ==
            (if Get(PackageTableOf(c), Name(namespace)).None? then []
             else Sanitize(Coalesce(PackageAsset(c, namespace, Css), Arr([])), host))
    ensures JavascriptForPackage(PostProcess(c, host), namespace) ==
            (if Get(PackageTableOf(c), Name(namespace)).None? then []
             else Sanitize(Coalesce(PackageAsset(c, namespace, Javascript), Arr([])), host))
  {
    LoadedGlobalAsset(c, host, Css);
    LoadedGlobalAsset(c, host, Javascript);
    LoadedPackageAsset(c, host, namespace, Css);
    LoadedPackageAsset(c, host, namespace, Javascript);
  }
}
