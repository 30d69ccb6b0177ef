/**
 * loadConfiguration of StyleguideConfigurationManager: fold the override
 * documents of the active packages over the extension's own defaults, then
 * sanitise the asset lists and drop the empty responsive breakpoints.
 */
module ConfigurationLoader {
  import opened Wrappers
  import opened PhpArrays
  import opened AssetSanitizer

  /** The package whose configuration file is the base document. */
  const StyleguidePackageKey := "fluid_styleguide"

  /** The top-level key every configuration document wraps its settings in. */
  const RootKey := Name("FluidStyleguide")

  const ComponentAssets := Name("ComponentAssets")
  const Global := Name("Global")
  const Packages := Name("Packages")
  const Css := Name("Css")
  const Javascript := Name("Javascript")
  const ResponsiveBreakpoints := Name("ResponsiveBreakpoints")

  /**
   * An active package: its key, and the parsed document of its
   * Configuration/Yaml/FluidStyleguide.yaml when that file exists.
   */
  datatype Package = Package(key: string, overrideDocument: Option<seq<Entry>>)

  /** ArrayUtility::mergeRecursiveWithOverrule, left uninterpreted: (accumulated, override) to merged. */
  type Merge = (seq<Entry>, seq<Entry>) -> seq<Entry>

  /** The base document carries its settings as an array under the root key. */
  predicate BaseWellFormed(doc: seq<Entry>) {
    Get(doc, RootKey).Some? && Get(doc, RootKey).value.Arr?
  }

  function BaseConfiguration(doc: seq<Entry>): seq<Entry>
    requires BaseWellFormed(doc)
  {
    Get(doc, RootKey).value.entries
  }

  /** The package's override is applied: it is not the styleguide itself and ships the file. */
  predicate Applies(p: Package) {
    p.key != StyleguidePackageKey && p.overrideDocument.Some?
  }

  /** An override document whose root setting the merge accepts: absent, null or an array. */
  predicate OverrideWellTyped(doc: seq<Entry>) {
    Nestable(Get(doc, RootKey).GetOr(Null))
  }

  predicate PackagesWellTyped(ps: seq<Package>) {
    forall i :: 0 <= i < |ps| && Applies(ps[i]) ==> OverrideWellTyped(ps[i].overrideDocument.value)
  }

  /** `$document['FluidStyleguide'] ?? []`. */
  function OverrideLayer(doc: seq<Entry>): (r: seq<Entry>)
    requires OverrideWellTyped(doc)
    ensures Get(doc, RootKey).None? ==> r == []
    ensures Get(doc, RootKey) == Some(Null) ==> r == []
    ensures Get(doc, RootKey).Some? && Get(doc, RootKey).value.Arr? ==> r == Get(doc, RootKey).value.entries
  {
    Table(Coalesce(At(Arr(doc), RootKey), Arr([])))
  }

  /** The override layers, in active-package order, of the packages that apply. */
  function Layers(ps: seq<Package>): seq<seq<Entry>>
    requires PackagesWellTyped(ps)
  {
    if ps == [] then []
    else
      assert PackagesWellTyped(ps[1..]) by {
        forall i | 0 <= i < |ps[1..]| && Applies(ps[1..][i])
          ensures OverrideWellTyped(ps[1..][i].overrideDocument.value)
        {
          assert ps[1..][i] == ps[i + 1];
        }
      }
      (if Applies(ps[0]) then [OverrideLayer(ps[0].overrideDocument.value)] else []) + Layers(ps[1..])
  }

  /** Merge the layers over the configuration, first layer first. */
  function ApplyLayers(config: seq<Entry>, layers: seq<seq<Entry>>, merge: Merge): seq<Entry>
    decreases |layers|
  {
    if layers == [] then config else ApplyLayers(merge(config, layers[0]), layers[1..], merge)
  }

  /** The configuration before post-processing: every applying override merged over the base. */
  function Merged(base: seq<Entry>, ps: seq<Package>, merge: Merge): seq<Entry>
    requires PackagesWellTyped(ps)
  {
    ApplyLayers(base, Layers(ps), merge)
  }

  lemma {:induction false} LayersAppend(a: seq<Package>, b: seq<Package>)
    requires PackagesWellTyped(a) && PackagesWellTyped(b)
    ensures PackagesWellTyped(a + b)
    ensures Layers(a + b) == Layers(a) + Layers(b)
  {
    assert PackagesWellTyped(a + b) by {
      forall i | 0 <= i < |a + b| && Applies((a + b)[i])
        ensures OverrideWellTyped((a + b)[i].overrideDocument.value)
      {
        if i < |a| { assert (a + b)[i] == a[i]; } else { assert (a + b)[i] == b[i - |a|]; }
      }
    }
    if a != [] {
      assert (a + b)[1..] == a[1..] + b;
      assert PackagesWellTyped(a[1..]) by {
        forall i | 0 <= i < |a[1..]| && Applies(a[1..][i])
          ensures OverrideWellTyped(a[1..][i].overrideDocument.value)
        {
          assert a[1..][i] == a[i + 1];
        }
      }
      LayersAppend(a[1..], b);
      var head := if Applies(a[0]) then [OverrideLayer(a[0].overrideDocument.value)] else [];
      assert (a + b)[0] == a[0];
      assert Layers(a + b) == head + Layers(a[1..] + b);
      assert Layers(a) == head + Layers(a[1..]);
    } else {
      assert a + b == b;
    }
  }

  lemma {:induction false} ApplyLayersAppend(config: seq<Entry>, xs: seq<seq<Entry>>, ys: seq<seq<Entry>>, merge: Merge)
    ensures ApplyLayers(config, xs + ys, merge) == ApplyLayers(ApplyLayers(config, xs, merge), ys, merge)
    decreases |xs|
  {
    if xs != [] {
      assert xs + ys != [];
      assert (xs + ys)[0] == xs[0];
      assert (xs + ys)[1..] == xs[1..] + ys;
      var next := merge(config, xs[0]);
      ApplyLayersAppend(next, xs[1..], ys, merge);
      assert ApplyLayers(config, xs + ys, merge) == ApplyLayers(next, xs[1..] + ys, merge);
      assert ApplyLayers(config, xs, merge) == ApplyLayers(next, xs[1..], merge);
    } else {
      assert xs + ys == ys;
    }
  }

  /** Packages are applied in order: the later packages merge over what the earlier ones produced. */
  lemma MergedAppend(base: seq<Entry>, a: seq<Package>, b: seq<Package>, merge: Merge)
    requires PackagesWellTyped(a) && PackagesWellTyped(b)
    ensures PackagesWellTyped(a + b)
    ensures Merged(base, a + b, merge) == Merged(Merged(base, a, merge), b, merge)
  {
    LayersAppend(a, b);
    ApplyLayersAppend(base, Layers(a), Layers(b), merge);
  }

  /** With no package that applies, the merged configuration is the base configuration. */
  lemma {:induction false} MergedWithoutOverrides(base: seq<Entry>, ps: seq<Package>, merge: Merge)
    requires forall i :: 0 <= i < |ps| ==> !Applies(ps[i])
    ensures PackagesWellTyped(ps)
    ensures Merged(base, ps, merge) == base
  {
    if ps != [] {
      MergedWithoutOverrides(base, ps[1..], merge);
      assert !Applies(ps[0]);
      assert Layers(ps) == [] + Layers(ps[1..]);
      assert Layers(ps) == Layers(ps[1..]);
    }
  }

  /** One package merges its layer if it applies and leaves the configuration alone otherwise. */
  lemma MergedOne(config: seq<Entry>, p: Package, merge: Merge)
    requires Applies(p) ==> OverrideWellTyped(p.overrideDocument.value)
    ensures PackagesWellTyped([p])
    ensures Applies(p) ==> Merged(config, [p], merge) == merge(config, OverrideLayer(p.overrideDocument.value))
    ensures !Applies(p) ==> Merged(config, [p], merge) == config
  {
    assert [p][0] == p;
    assert [p][1..] == [];
    assert Layers([p]) == (if Applies(p) then [OverrideLayer(p.overrideDocument.value)] else []) + Layers([]);
    if Applies(p) {
      var layer := OverrideLayer(p.overrideDocument.value);
      assert Layers([p]) == [layer];
      assert [layer][1..] == [];
      assert ApplyLayers(config, [layer], merge) == ApplyLayers(merge(config, layer), [], merge);
    }
  }

  /**
   * A package that does not apply -- the styleguide itself, or one without an
   * override file -- contributes nothing wherever it stands.
   */
  lemma MergedSkipsPackage(base: seq<Entry>, a: seq<Package>, p: Package, b: seq<Package>, merge: Merge)
    requires PackagesWellTyped(a) && PackagesWellTyped(b)
    requires p.key == StyleguidePackageKey || p.overrideDocument.None?
    ensures PackagesWellTyped(a + [p] + b) && PackagesWellTyped(a + b)
    ensures Merged(base, a + [p] + b, merge) == Merged(base, a + b, merge)
  {
    MergedOne(Merged(base, a, merge), p, merge);
    MergedAppend(base, a, [p], merge);
    MergedAppend(base, a + [p], b, merge);
    MergedAppend(base, a, b, merge);
  }

  /** A package that applies merges its layer over the result of the packages before it. */
  lemma MergedAppliesPackage(base: seq<Entry>, a: seq<Package>, p: Package, b: seq<Package>, merge: Merge)
    requires PackagesWellTyped(a) && PackagesWellTyped(b)
    requires Applies(p) && OverrideWellTyped(p.overrideDocument.value)
    ensures PackagesWellTyped(a + [p] + b)
    ensures Merged(base, a + [p] + b, merge) ==
            Merged(merge(Merged(base, a, merge), OverrideLayer(p.overrideDocument.value)), b, merge)
  {
    assert PackagesWellTyped([p]);
    MergedOne(Merged(base, a, merge), p, merge);
    MergedAppend(base, a, [p], merge);
    MergedAppend(base, a + [p], b, merge);
  }

  /** Asset section (Global, or one package's) whose Css and Javascript settings sanitise without error. */
  predicate SectionWellTyped(v: Value) {
    && Nestable(v)
    && AssetsWellTyped(Coalesce(At(v, Css), Arr([])))
    && AssetsWellTyped(Coalesce(At(v, Javascript), Arr([])))
  }

  /** The two assignments for one asset section: Css, then Javascript, each sanitised. */
  function SanitizeSection(v: Value, host: Host): (r: seq<Entry>)
    requires SectionWellTyped(v)
    ensures Get(r, Css) == Some(Arr(Sanitize(Coalesce(At(v, Css), Arr([])), host)))
    ensures Get(r, Javascript) == Some(Arr(Sanitize(Coalesce(At(v, Javascript), Arr([])), host)))
    ensures forall k :: k != Css && k != Javascript ==> Get(r, k) == Get(Table(v), k)
    ensures Keys(Table(v)) <= Keys(r)
    ensures UniqueKeys(Table(v)) ==> UniqueKeys(r)
  {
    var t := Table(v);
    var css := Arr(Sanitize(Coalesce(At(Arr(t), Css), Arr([])), host));
    var withCss := Put(t, Css, css);
    var javascript := Arr(Sanitize(Coalesce(At(Arr(withCss), Javascript), Arr([])), host));
    PutKeysPrefix(t, Css, css);
    PutKeysPrefix(withCss, Javascript, javascript);
    PutUnique(t, Css, css);
    PutUnique(withCss, Javascript, javascript);
    Put(withCss, Javascript, javascript)
  }

  /** Every entry of a package asset table is a section that sanitises. */
  predicate SectionsWellTyped(ps: seq<Entry>) {
    forall i :: 0 <= i < |ps| ==> SectionWellTyped(ps[i].value)
  }

  /** The package asset table: every package entry has its section sanitised, keys and order kept. */
  function SanitizePackageTable(ps: seq<Entry>, host: Host): (r: seq<Entry>)
    requires SectionsWellTyped(ps)
    ensures Keys(r) == Keys(ps)
    ensures forall k :: Get(ps, k).Some? && SectionWellTyped(Get(ps, k).value) ==>
              Get(r, k) == Some(Arr(SanitizeSection(Get(ps, k).value, host)))
  {
    if ps == [] then []
    else
      var rest := SanitizePackageTable(ps[1..], host);
      var e := Entry(ps[0].key, Arr(SanitizeSection(ps[0].value, host)));
      KeysCons(ps[0], ps[1..]);
      KeysCons(e, rest);
      GetCons(ps[0], ps[1..]);
      GetCons(e, rest);
      [e] + rest
  }

  /** `$configuration['ComponentAssets']`, as a table. */
  function AssetsOf(c: seq<Entry>): seq<Entry> {
    Table(At(Arr(c), ComponentAssets))
  }

  /** `$configuration['ComponentAssets']['Packages']`, as a table. */
  function PackageTableOf(c: seq<Entry>): seq<Entry> {
    Table(At(Arr(AssetsOf(c)), Packages))
  }

  /**
   * A ComponentAssets table the sanitising step of loadConfiguration processes
   * without an error: the global section sanitises, and every package section
   * sanitises. A `Packages` setting that is not an array is not iterated (PHP
   * warns and skips the loop); only an object would be, over its properties.
   */
  predicate AssetTableWellTyped(assets: seq<Entry>) {
    && SectionWellTyped(At(Arr(assets), Global))
    && !At(Arr(assets), Packages).Uri?
    && SectionsWellTyped(Table(At(Arr(assets), Packages)))
  }

  /**
   * The merged configuration has the shape post-processing needs to run
   * without an error: `ComponentAssets` can be written into, its sections
   * sanitise, and `ResponsiveBreakpoints` is an array for `array_filter`.
   */
  predicate PostProcessable(c: seq<Entry>) {
    && Nestable(At(Arr(c), ComponentAssets))
    && AssetTableWellTyped(AssetsOf(c))
    && At(Arr(c), ResponsiveBreakpoints).Arr?
  }

  /**
   * What the by-reference loop over `Packages` leaves there: the sanitised
   * package table for an array, and otherwise the setting as it was, a missing
   * one created as null by the by-reference fetch.
   */
  function SanitizedPackages(packages: Value, host: Host): (r: Value)
    requires !packages.Uri? && SectionsWellTyped(Table(packages))
    ensures packages.Arr? ==> r.Arr? && Keys(r.entries) == Keys(packages.entries)
    ensures packages.Arr? ==> forall k :: Get(packages.entries, k).Some? && SectionWellTyped(Get(packages.entries, k).value) ==>
              Get(r.entries, k) == Some(Arr(SanitizeSection(Get(packages.entries, k).value, host)))
    ensures !packages.Arr? ==> r == packages
  {
    if packages.Arr? then Arr(SanitizePackageTable(packages.entries, host)) else packages
  }

  /** The ComponentAssets table with the global section and every package's section sanitised. */
  function SanitizeAssetTable(assets: seq<Entry>, host: Host): (r: seq<Entry>)
    requires AssetTableWellTyped(assets)
    ensures Keys(assets) <= Keys(r)
    ensures forall k :: k != Global && k != Packages ==> Get(r, k) == Get(assets, k)
    ensures Get(r, Global) == Some(Arr(SanitizeSection(At(Arr(assets), Global), host)))
    ensures At(Arr(assets), Packages).Arr? ==>
              Get(r, Packages) == Some(Arr(SanitizePackageTable(At(Arr(assets), Packages).entries, host)))
    ensures !At(Arr(assets), Packages).Arr? ==> Get(r, Packages) == Some(At(Arr(assets), Packages))
  {
    var global := Arr(SanitizeSection(At(Arr(assets), Global), host));
    var withGlobal := Put(assets, Global, global);
    var table := SanitizedPackages(At(Arr(assets), Packages), host);
    var r := Put(withGlobal, Packages, table);
    assert Get(r, Global) == Get(withGlobal, Global) == Some(global);
    PutKeysPrefix(assets, Global, global);
    PutKeysPrefix(withGlobal, Packages, table);
    r
  }

  /**
   * The sanitising step of loadConfiguration: the global asset section and
   * every package's section are sanitised; a missing `ComponentAssets` is
   * created at the end.
   */
  function SanitizeAssets(c: seq<Entry>, host: Host): (r: seq<Entry>)
    requires PostProcessable(c)
    ensures ComponentAssets in Keys(c) ==> Keys(r) == Keys(c)
    ensures ComponentAssets !in Keys(c) ==> Keys(r) == Keys(c) + [ComponentAssets]
    ensures forall k :: k != ComponentAssets ==> Get(r, k) == Get(c, k)
    ensures At(Arr(r), ComponentAssets).Arr?
    ensures AssetsOf(r) == SanitizeAssetTable(AssetsOf(c), host)
    ensures UniqueKeys(c) ==> UniqueKeys(r)
  {
    var assets := Arr(SanitizeAssetTable(AssetsOf(c), host));
    PutKeys(c, ComponentAssets, assets);
    PutUnique(c, ComponentAssets, assets);
    Put(c, ComponentAssets, assets)
  }

  /** `array_filter` without a callback: the truthy entries, keys and order kept. */
  function FilterTruthy(es: seq<Entry>): (r: seq<Entry>)
    ensures IsSubsequence(r, es)
    ensures forall e :: e in r ==> Truthy(e.value)
    ensures forall i :: 0 <= i < |es| && Truthy(es[i].value) ==> es[i] in r
  {
    if es == [] then []
    else if Truthy(es[0].value) then [es[0]] + FilterTruthy(es[1..])
    else FilterTruthy(es[1..])
  }

  /** The `array_filter` step of loadConfiguration: the breakpoints keep their truthy entries; nothing else changes. */
  function FilterBreakpoints(c: seq<Entry>): (r: seq<Entry>)
    requires At(Arr(c), ResponsiveBreakpoints).Arr?
    ensures Keys(r) == Keys(c)
    ensures forall k :: k != ResponsiveBreakpoints ==> Get(r, k) == Get(c, k)
    ensures Get(r, ResponsiveBreakpoints) == Some(Arr(FilterTruthy(Table(At(Arr(c), ResponsiveBreakpoints)))))
    ensures UniqueKeys(c) ==> UniqueKeys(r)
  {
    var filtered := Arr(FilterTruthy(Table(At(Arr(c), ResponsiveBreakpoints))));
    GetKeys(c, ResponsiveBreakpoints);
    PutKeys(c, ResponsiveBreakpoints, filtered);
    PutUnique(c, ResponsiveBreakpoints, filtered);
    Put(c, ResponsiveBreakpoints, filtered)
  }

  /** Post-processing leaves the package table as SanitizePackageTable makes it. */
  lemma SanitizedPackageTable(c: seq<Entry>, host: Host)
    requires PostProcessable(c)
    ensures At(Arr(AssetsOf(c)), Packages).Arr? ==>
              At(Arr(SanitizeAssetTable(AssetsOf(c), host)), Packages) ==
              Arr(SanitizePackageTable(PackageTableOf(c), host))
    ensures !At(Arr(AssetsOf(c)), Packages).Arr? ==>
              At(Arr(SanitizeAssetTable(AssetsOf(c), host)), Packages) == At(Arr(AssetsOf(c)), Packages)
  {
  }

  /** The post-processing loadConfiguration runs after the fold. */
  function PostProcess(c: seq<Entry>, host: Host): (r: seq<Entry>)
    requires PostProcessable(c)
    ensures ComponentAssets in Keys(c) ==> Keys(r) == Keys(c)
    ensures ComponentAssets !in Keys(c) ==> Keys(r) == Keys(c) + [ComponentAssets]
    ensures UniqueKeys(c) ==> UniqueKeys(r)
    ensures forall k :: k != ComponentAssets && k != ResponsiveBreakpoints ==> Get(r, k) == Get(c, k)
    ensures Get(r, ResponsiveBreakpoints) == Some(Arr(FilterTruthy(Table(At(Arr(c), ResponsiveBreakpoints)))))
    ensures At(Arr(r), ComponentAssets).Arr?
    ensures AssetsOf(r) == SanitizeAssetTable(AssetsOf(c), host)
  {
    var sanitized := SanitizeAssets(c, host);
    assert At(Arr(sanitized), ResponsiveBreakpoints) == At(Arr(c), ResponsiveBreakpoints);
    var r := FilterBreakpoints(sanitized);
    assert Get(r, ComponentAssets) == Get(sanitized, ComponentAssets);
    r
  }

  /** The override loop of loadConfiguration: start from the base settings and merge every applying override in order. */
  method FoldOverrides(base: seq<Entry>, packages: seq<Package>, merge: Merge) returns (configuration: seq<Entry>)
    requires PackagesWellTyped(packages)
    ensures configuration == Merged(base, packages, merge)
  {
    configuration := base;
    var i := 0;
    while i < |packages|
      invariant 0 <= i <= |packages|
      invariant PackagesWellTyped(packages[..i])
      invariant configuration == Merged(base, packages[..i], merge)
    {
      var p := packages[i];
      assert packages[..i + 1] == packages[..i] + [p];
      MergedOne(configuration, p, merge);
      MergedAppend(base, packages[..i], [p], merge);
      if p.key != StyleguidePackageKey {
        if p.overrideDocument.Some? {
          configuration := merge(configuration, OverrideLayer(p.overrideDocument.value));
        }
      }
      i := i + 1;
    }
    assert packages[..i] == packages;
  }

  /**
   * loadConfiguration: start from the base document's settings, merge the
   * override of every applying package in order, then post-process.
   */
  method LoadConfiguration(baseDocument: seq<Entry>, packages: seq<Package>, merge: Merge, host: Host)
    returns (configuration: seq<Entry>)
    requires BaseWellFormed(baseDocument)
    requires PackagesWellTyped(packages)
    requires PostProcessable(Merged(BaseConfiguration(baseDocument), packages, merge))
    ensures configuration == PostProcess(Merged(BaseConfiguration(baseDocument), packages, merge), host)
  {
    var merged := FoldOverrides(BaseConfiguration(baseDocument), packages, merge);
    configuration := PostProcess(merged, host);
  }
}
