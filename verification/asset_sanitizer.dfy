/**
 * Asset sanitisation of StyleguideConfigurationManager: a CSS or JavaScript
 * asset setting (one string or a list of strings) becomes a list whose remote
 * entries are untouched, whose resolvable local entries are rewritten to URLs
 * below the site's base URI, and whose unresolvable entries are gone.
 */
module AssetSanitizer {
  import opened Wrappers
  import opened PhpArrays

  /** The host services sanitisation consults; all of them are foreign code here. */
  datatype Host = Host(
    siteBase: Url,                      // base URI of the site of the current request
    absFileName: string -> string,      // GeneralUtility::getFileAbsFileName; "" when unresolvable
    stripSitePrefix: string -> string,  // PathUtility::stripPathSitePrefix
    schemeOf: string -> Option<string>) // the scheme parse_url finds, if any

  /** strtolower on one character: ASCII letters only. */
  function LowerChar(c: char): char {
    if 'A' <= c <= 'Z' then (c as int + 32) as char else c
  }

  function UpperChar(c: char): char {
    if 'a' <= c <= 'z' then (c as int - 32) as char else c
  }

  /** strtolower. */
  function Lower(s: string): string {
    seq(|s|, i requires 0 <= i < |s| => LowerChar(s[i]))
  }

  /** `s` spells the lower-case `word`, each letter in either case. */
  predicate SpellsIgnoringCase(s: string, word: string) {
    |s| == |word| && forall i :: 0 <= i < |s| ==> s[i] == word[i] || s[i] == UpperChar(word[i])
  }

  lemma LowerEqualsWord(s: string, word: string)
    requires forall i :: 0 <= i < |word| ==> 'a' <= word[i] <= 'z'
    ensures Lower(s) == word <==> SpellsIgnoringCase(s, word)
  {
  }

  /** isRemoteUri: the URI names a scheme that is http or https in any letter case. */
  function IsRemoteUri(uri: string, host: Host): (r: bool)
    ensures r <==> host.schemeOf(uri).Some? &&
                   (SpellsIgnoringCase(host.schemeOf(uri).value, "http") ||
                    SpellsIgnoringCase(host.schemeOf(uri).value, "https"))
  {
    match host.schemeOf(uri)
    case None => false
    case Some(scheme) =>
      LowerEqualsWord(scheme, "http");
      LowerEqualsWord(scheme, "https");
      Truthy(Str(scheme)) && (Lower(scheme) == "http" || Lower(scheme) == "https")
  }

  /** The site URL a resolvable local asset is rewritten to. */
  function LocalAssetUrl(asset: string, host: Host): Url {
    var absolute := host.absFileName(asset);
    host.siteBase.(path := host.siteBase.path + host.stripSitePrefix(host.absFileName(absolute)))
  }

  /** What happens to one asset entry: kept, rewritten under its key, or dropped (None). */
  function SanitizeEntry(e: Entry, host: Host): Option<Entry>
    requires e.value.Str?
  {
    if IsRemoteUri(e.value.s, host) then Some(e)
    else if Truthy(Str(host.absFileName(e.value.s))) then Some(Entry(e.key, Uri(LocalAssetUrl(e.value.s, host))))
    else None
  }

  predicate AllStrings(es: seq<Entry>) {
    forall i :: 0 <= i < |es| ==> es[i].value.Str?
  }

  /** The loop over an asset array: dropped entries are unset, nothing is renumbered. */
  function SanitizeList(es: seq<Entry>, host: Host): (r: seq<Entry>)
    requires AllStrings(es)
    ensures |r| <= |es|
    ensures IsSubsequence(Keys(r), Keys(es))
  {
    if es == [] then []
    else
      var rest := SanitizeList(es[1..], host);
      KeysCons(es[0], es[1..]);
      match SanitizeEntry(es[0], host)
      case Some(e) =>
        KeysCons(e, rest);
        [e] + rest
      case None =>
        rest
  }

  /** Each entry of a string list with distinct keys ends up as its own fate says. */
  lemma {:induction false} SanitizeListEntry(es: seq<Entry>, host: Host, i: int)
    requires AllStrings(es) && UniqueKeys(es)
    requires 0 <= i < |es|
    ensures var r := SanitizeList(es, host); var s := es[i].value.s; var k := es[i].key;
      && (IsRemoteUri(s, host) ==> Get(r, k) == Some(Str(s)))
      && (!IsRemoteUri(s, host) && !Truthy(Str(host.absFileName(s))) ==> Get(r, k) == None)
      && (!IsRemoteUri(s, host) && Truthy(Str(host.absFileName(s))) ==>
            Get(r, k) == Some(Uri(host.siteBase.(path := host.siteBase.path +
                                  host.stripSitePrefix(host.absFileName(host.absFileName(s)))))))
  {
    var rest := SanitizeList(es[1..], host);
    assert UniqueKeys(es[1..]);
    if i == 0 {
      if SanitizeEntry(es[0], host).None? {
        KeysCons(es[0], es[1..]);
        SubsequenceMembers(Keys(rest), Keys(es[1..]));
        assert es[0].key !in Keys(es[1..]);
        GetKeys(rest, es[0].key);
      }
    } else {
      SanitizeListEntry(es[1..], host, i - 1);
      assert es[0].key != es[i].key;
    }
  }

  /** Asset lists of an array stay arrays: keys stay distinct. */
  lemma {:induction false} SanitizeListUnique(es: seq<Entry>, host: Host)
    requires AllStrings(es) && UniqueKeys(es)
    ensures UniqueKeys(SanitizeList(es, host))
  {
    if es != [] {
      var rest := SanitizeList(es[1..], host);
      assert UniqueKeys(es[1..]);
      SanitizeListUnique(es[1..], host);
      match SanitizeEntry(es[0], host)
      case Some(e) =>
        KeysCons(es[0], es[1..]);
        SubsequenceMembers(Keys(rest), Keys(es[1..]));
        assert e.key !in Keys(rest);
        assert forall j :: 0 <= j < |rest| ==> rest[j].key in Keys(rest);
      case None =>
    }
  }

  /** Asset settings sanitizeComponentAssets accepts without a TypeError. */
  predicate AssetsWellTyped(v: Value) {
    v.Arr? ==> AllStrings(v.entries)
  }

  /** sanitizeComponentAssets. */
  function Sanitize(v: Value, host: Host): (r: seq<Entry>)
    requires AssetsWellTyped(v)
    ensures v.Str? ==> r == SanitizeList([Entry(Index(0), v)], host)
    ensures v.Str? && IsRemoteUri(v.s, host) ==> r == [Entry(Index(0), v)]
    ensures v.Str? && !IsRemoteUri(v.s, host) && Truthy(Str(host.absFileName(v.s))) ==>
              r == [Entry(Index(0), Uri(LocalAssetUrl(v.s, host)))]
    ensures v.Str? && !IsRemoteUri(v.s, host) && !Truthy(Str(host.absFileName(v.s))) ==> r == []
    ensures !v.Str? && !v.Arr? ==> r == []
    ensures v.Arr? ==> r == SanitizeList(v.entries, host)
    ensures v.Arr? ==> |r| <= |v.entries| && IsSubsequence(Keys(r), Keys(v.entries))
  {
    match v
    case Str(_) => SanitizeList([Entry(Index(0), v)], host)
    case Arr(es) => SanitizeList(es, host)
    case _ => []
  }
}
