# Fluid Styleguide configuration manager, modelled in Dafny

This project models `StyleguideConfigurationManager`, the class of the
Fluid Styleguide TYPO3 extension that assembles the styleguide's settings.
`loadConfiguration` reads the extension's own `FluidStyleguide.yaml`. It then
merges the `FluidStyleguide` settings of every other active package that
ships the same file. Last, it post-processes the result: CSS and JavaScript
asset lists become site URLs, and empty responsive breakpoints are dropped.
The getters read single settings and fall back to defaults.

The YAML loader and the package manager are replaced by their results: the
model starts from the parsed base document and the list of active packages,
each with its parsed override document when it has one. The other host calls
are parameters of the model: `ArrayUtility::mergeRecursiveWithOverrule`,
`GeneralUtility::getFileAbsFileName`, `PathUtility::stripPathSitePrefix`,
`parse_url`, the current site's base URI and the document root. What remains
is the class's own decision logic over PHP arrays, written as pure functions.

Files:

- `wrappers.dfy` (`Wrappers`): `Option`.
- `php_arrays.dfy` (`PhpArrays`): the PHP array as an ordered table of
  `Entry(key, value)`. It covers lookup (`Get`), assignment (`Put`, which
  keeps an existing key in place and appends a new one), the `isset`/`??`
  reading (`At`, `Coalesce`) and PHP truthiness (`Truthy`).
- `asset_sanitizer.dfy` (`AssetSanitizer`): `isRemoteUri` and
  `sanitizeComponentAssets`.
- `configuration_loader.dfy` (`ConfigurationLoader`): the override fold and
  the post-processing of `loadConfiguration`.
- `configuration_accessors.dfy` (`ConfigurationAccessors`): the getters, and
  lemmas about the getters on a post-processed configuration.

Behaviour of the code that the model keeps:

- A missing `ComponentAssets` is created by the assignments of lines 64-69.
- A missing or non-array `ComponentAssets.Packages` is not an error. PHP 8
  warns that line 70's `foreach` has nothing to iterate and skips the loop.
  The by-reference fetch leaves a missing `Packages` behind as null, and a
  scalar one unchanged (`SanitizedPackages`).
- `ResponsiveBreakpoints` has no default at line 75: `array_filter` of
  anything but an array is a TypeError, so the model requires an array there.
- A local asset is resolved twice. Lines 169 and 173 both call
  `getFileAbsFileName`, and the URL path is built from the second result.
- `getBrandingLogo` does not check that the document root is a prefix of the
  resolved path. It drops as many leading characters as the document root
  has.
- A logo setting of `"0"` is falsy in PHP, so it is returned unchanged.

## Model

| member | source | states |
|---|---|---|
| AssetSanitizer.IsRemoteUri | Classes/Service/StyleguideConfigurationManager.php:189-193 | a URI is remote exactly when parse_url finds a scheme that spells `http` or `https` in any mix of letter case; `ftp` and scheme-less paths are local |
| AssetSanitizer.SanitizeList | Classes/Service/StyleguideConfigurationManager.php:166-180 | the sanitised list never has more entries than the input, and its keys are the input's keys with some left out, in their original order (no renumbering) |
| AssetSanitizer.SanitizeListEntry | Classes/Service/StyleguideConfigurationManager.php:166-177 | in a list with distinct keys: a remote entry is found unchanged under its key; an entry that is not remote and resolves to a falsy path is gone; one that resolves is, under its key, the site base URI with path base path + stripSitePrefix(resolve(resolve(entry))) |
| AssetSanitizer.SanitizeListUnique | Classes/Service/StyleguideConfigurationManager.php:166-180 | a sanitised asset array still has distinct keys |
| AssetSanitizer.Sanitize | Classes/Service/StyleguideConfigurationManager.php:157-180 | a string setting is sanitised like the one-element list holding it at key 0, with its three outcomes spelled out; a setting that is neither string nor array gives the empty list; an array is sanitised entry by entry as `SanitizeList` does, giving a list no longer than it, with its keys in order |
| ConfigurationLoader.OverrideLayer | Classes/Service/StyleguideConfigurationManager.php:58 | an override document without the `FluidStyleguide` key, or with null there, contributes the empty array; otherwise its array under that key |
| ConfigurationLoader.MergedWithoutOverrides | Classes/Service/StyleguideConfigurationManager.php:44-61 | when no package applies, the configuration before post-processing equals the base document's `FluidStyleguide` settings |
| ConfigurationLoader.MergedOne | Classes/Service/StyleguideConfigurationManager.php:48-60 | one package merges its override layer onto the configuration if it applies and otherwise leaves it unchanged |
| ConfigurationLoader.MergedAppend | Classes/Service/StyleguideConfigurationManager.php:47-61 | packages are applied in active-package order: folding a + b is folding b over the result of folding a |
| ConfigurationLoader.MergedSkipsPackage | Classes/Service/StyleguideConfigurationManager.php:49-55 | the `fluid_styleguide` package, and any package without an override file, changes nothing wherever it stands in the package list |
| ConfigurationLoader.MergedAppliesPackage | Classes/Service/StyleguideConfigurationManager.php:54-59 | any other package with an override file merges its layer over the result of the packages before it, and the packages after it merge over that |
| ConfigurationLoader.FoldOverrides | Classes/Service/StyleguideConfigurationManager.php:44-61 | the loop over the active packages computes the filtered, ordered fold of override layers over the base settings |
| ConfigurationLoader.SanitizeSection | Classes/Service/StyleguideConfigurationManager.php:64-72 | an asset section (the global one or a package's) gets its `Css` and `Javascript` settings replaced by their sanitised lists, a missing setting counting as the empty list; every other key keeps its value, the existing keys keep their order, and distinct keys stay distinct |
| ConfigurationLoader.SanitizePackageTable | Classes/Service/StyleguideConfigurationManager.php:70-73 | the package table keeps its keys in order, and every package namespace maps to its sanitised section |
| ConfigurationLoader.SanitizedPackages | Classes/Service/StyleguideConfigurationManager.php:70-73 | an array `Packages` setting becomes a table with the same keys in the same order, each namespace holding its sanitised section; any other setting is left as it is, and a missing one becomes null |
| ConfigurationLoader.SanitizeAssetTable | Classes/Service/StyleguideConfigurationManager.php:64-73 | in `ComponentAssets`, `Global` becomes the sanitised global section and an array `Packages` the sanitised package table; a non-array `Packages` keeps its value, a missing one is null; other keys keep their values and existing keys their order |
| ConfigurationLoader.SanitizeAssets | Classes/Service/StyleguideConfigurationManager.php:64-73 | the asset step changes only `ComponentAssets` and leaves it an array; it keeps the configuration's keys and their order, appends `ComponentAssets` when it was missing, and keeps keys distinct |
| ConfigurationLoader.FilterTruthy | Classes/Service/StyleguideConfigurationManager.php:75 | `array_filter` keeps exactly the truthy entries: its result is a subsequence of the input, every kept value is truthy, and every truthy input entry is kept |
| ConfigurationLoader.FilterBreakpoints | Classes/Service/StyleguideConfigurationManager.php:75 | `ResponsiveBreakpoints` becomes its truthy entries with keys and order preserved; nothing else in the configuration changes and the key order is unchanged |
| ConfigurationLoader.PostProcess | Classes/Service/StyleguideConfigurationManager.php:63-75 | post-processing keeps the configuration's keys in order (appending `ComponentAssets` when it was missing) and keeps them distinct, changes nothing outside `ComponentAssets` and `ResponsiveBreakpoints`, filters the breakpoints and sanitises the asset table |
| ConfigurationLoader.LoadConfiguration | Classes/Service/StyleguideConfigurationManager.php:42-76 | loading yields the post-processed fold of the applying overrides, in package order, over the base settings |
| ConfigurationAccessors.IsFeatureEnabled | Classes/Service/StyleguideConfigurationManager.php:83-86 | a feature is enabled exactly when `Features` is an array holding the feature with a truthy value; a missing `Features` or feature, or an empty value, gives false |
| ConfigurationAccessors.ComponentContext | Classes/Service/StyleguideConfigurationManager.php:88-91 | the configured context string, and `|` when the setting is missing or null |
| ConfigurationAccessors.GlobalCss | Classes/Service/StyleguideConfigurationManager.php:93-96 | the global CSS list, and `[]` when it is missing |
| ConfigurationAccessors.GlobalJavascript | Classes/Service/StyleguideConfigurationManager.php:98-101 | the global JavaScript list, and `[]` when it is missing |
| ConfigurationAccessors.CssForPackage | Classes/Service/StyleguideConfigurationManager.php:103-106 | the CSS list of the package namespace, and `[]` when it is missing |
| ConfigurationAccessors.JavascriptForPackage | Classes/Service/StyleguideConfigurationManager.php:108-111 | the JavaScript list of the package namespace, and `[]` when it is missing |
| ConfigurationAccessors.Breakpoints | Classes/Service/StyleguideConfigurationManager.php:113-116 | the breakpoint array, and `[]` when it is missing or null |
| ConfigurationAccessors.RootPaths | Classes/Service/StyleguideConfigurationManager.php:118-131 | the Fluid template, partial or layout root paths, and `[]` when `Fluid` or the setting is missing |
| ConfigurationAccessors.BrandingLogo | Classes/Service/StyleguideConfigurationManager.php:133-145 | `''` when no logo is configured; a falsy logo string comes back as it is; otherwise the resolved path without its first `|documentRoot|` characters, which is exactly the path after the document root when the root is a prefix of it |
| ConfigurationAccessors.BrandingBackground | Classes/Service/StyleguideConfigurationManager.php:147-155 | the configured body or header background, and `''` when it or the whole Branding table is missing |
| ConfigurationAccessors.LoadedGlobalAsset | Classes/Service/StyleguideConfigurationManager.php:64-69 | after loading, the global `Css` and `Javascript` settings hold the sanitised form of the merged settings |
| ConfigurationAccessors.LoadedPackageAsset | Classes/Service/StyleguideConfigurationManager.php:70-73 | after loading, a package namespace present in the merged table holds its sanitised `Css` and `Javascript`, and an absent one is still absent |
| ConfigurationAccessors.LoadedBreakpoints | Classes/Service/StyleguideConfigurationManager.php:113-116 | after loading, the breakpoint getter returns exactly the truthy merged breakpoints |
| ConfigurationAccessors.LoadedAssetGetters | Classes/Service/StyleguideConfigurationManager.php:93-111 | after loading, the four asset getters are defined and return the sanitised merged lists, with `[]` for a package without a section |

## Left out

- `getFeatures` returns the `Features` array unchanged. It has nothing to state beyond the lookup and is not modelled.
- The constructor and the stored `$mergedConfiguration` are not modelled. `LoadConfiguration` returns the configuration instead of assigning it, so a reload is just another call.
- `ArrayUtility::mergeRecursiveWithOverrule` is foreign code. It is the uninterpreted `Merge` parameter, so nothing is claimed about key sets, list replacement, or its `__UNSET` and flag behaviour.
- YAML loading, `file_exists` and `PackageManager::getActivePackages` are I/O. The input is the parsed base document plus the active packages in order. Each package is its key and the parsed override document, if the file exists.
- `getFileAbsFileName`, `stripPathSitePrefix`, the site's base URI from `$GLOBALS['TYPO3_REQUEST']`, `getIndpEnv('TYPO3_DOCUMENT_ROOT')` and the scheme `parse_url` returns are host state or foreign code. They are parameters: the `Host` fields and the `documentRoot` argument.
- PSR-7 `withPath` is modelled as replacing the `path` field of a `Url` record. Its validation and percent-encoding of the path are foreign code.
- `strtolower` is modelled on ASCII letters only, as PHP 8.2 and later define it. `substr` past the end of the string gives `""`, as in PHP 8.
- A PHP string is modelled as its sequence of bytes, one Dafny `char` per byte. So `strlen` and `substr` in `getBrandingLogo` count bytes, and a multi-byte document root is measured in bytes, as PHP does.
- Runtime errors the class does not handle are preconditions, not modelled failures. `BaseWellFormed` covers a missing base `FluidStyleguide` array. `OverrideWellTyped` covers an override root that is neither array nor null, which the merge's `array` parameter rejects. `PostProcessable` covers a missing or non-array `ResponsiveBreakpoints`, which `array_filter` rejects. It covers a `ComponentAssets`, `Global` or package section that is neither array nor null, since writing into it fails. A `false` there is turned into an array with a deprecation notice, and the model excludes that case too. It covers an object under `Packages`, which `foreach` would iterate over its properties; a YAML document cannot hold one. It also covers asset lists with non-string entries (a TypeError under `strict_types`). The getters' `StringOrMissing` and `ArrayOrMissing` cover a setting of the wrong kind for the declared return type.
- Lines 64-69 assign the global `Css` and `Javascript` settings in two separate statements. The model does both in one `SanitizeSection` step. The two assignments write different keys, so the result is the same.
- Floating-point YAML values are not among the modelled value kinds.
- PHP's conversion of numeric-string keys to integer keys is not modelled, and neither is indexing into a string with a string offset. Settings are looked up by name only.
- `ConfigurationLoader.SanitizePackageTable`: its per-namespace clause is guarded by the section being well typed. The precondition already guarantees that for every entry, so the clause states the full property.
