/**
 * The provider registry and the identification of a source: which provider
 * a URL or embed code belongs to, and the video id it carries. Shared by
 * both revisions of Multiplayer, which ship the same three default providers.
 */
module Providers {
  import opened PhpValues
  import opened PhpArrays

  /**
   * How a provider's 'map' translates one generic option: a string is a
   * plain rename; an array with 'param' (and maybe 'prefix') is a rename
   * with an optional value prefix; an array without 'param', such as the
   * list `array('byline', 'portrait')`, is kept apart as `Names`.
   */
  datatype Spec =
    | Rename(name: string)
    | Structured(param: Option<string>, prefix: Option<string>)
    | Names(names: seq<string>)

  /** A registry entry: the 'id' pattern, the 'player' URL template and the 'map'. */
  datatype Provider = Provider(id: string, player: string, paramMap: Dict<Spec>)

  /** Providers by name, in the order they are tried. */
  type Registry = Dict<Provider>

  /**
   * `preg_match($pattern, $source, $matches)` read together with
   * `$matches['id']`: the captured id when the pattern matches, None otherwise.
   */
  type Matcher = (string, string) -> Option<string>

  /** The generic option names of lib/Multiplayer, all defaulting to null. */
  function GenericParams(): Dict<Value> {
    RawDict(
      ["autoPlay", "showInfos", "showBranding", "showRelated",
       "backgroundColor", "foregroundColor", "highlightColor", "start"],
      map["autoPlay" := Null, "showInfos" := Null, "showBranding" := Null,
          "showRelated" := Null, "backgroundColor" := Null,
          "foregroundColor" := Null, "highlightColor" := Null, "start" := Null])
  }

  /** The generic option names of lib/fg/Multiplayer: the same without 'start'. */
  function FgGenericParams(): Dict<Value> {
    RawDict(
      ["autoPlay", "showInfos", "showBranding", "showRelated",
       "backgroundColor", "foregroundColor", "highlightColor"],
      map["autoPlay" := Null, "showInfos" := Null, "showBranding" := Null,
          "showRelated" := Null, "backgroundColor" := Null,
          "foregroundColor" := Null, "highlightColor" := Null])
  }

  function DailymotionMap(): Dict<Spec> {
    RawDict(
      ["autoPlay", "showInfos", "showBranding", "showRelated",
       "backgroundColor", "foregroundColor", "highlightColor"],
      map["autoPlay" := Rename("autoplay"),
          "showInfos" := Rename("info"),
          "showBranding" := Rename("logo"),
          "showRelated" := Rename("related"),
          "backgroundColor" := Structured(Some("background"), Some("#")),
          "foregroundColor" := Structured(Some("foreground"), Some("#")),
          "highlightColor" := Structured(Some("highlight"), Some("#"))])
  }

  function VimeoMap(): Dict<Spec> {
    RawDict(
      ["autoPlay", "showInfos", "highlightColor"],
      map["autoPlay" := Rename("autoplay"),
          "showInfos" := Names(["byline", "portrait"]),
          "highlightColor" := Rename("color")])
  }

  function YoutubeMap(): Dict<Spec> {
    RawDict(
      ["autoPlay", "showInfos", "showRelated"],
      map["autoPlay" := Rename("autoplay"),
          "showInfos" := Rename("showinfo"),
          "showRelated" := Rename("rel")])
  }

  /** The built-in providers, in the order they are tried. */
  function DefaultProviders(): Registry {
    var dailymotion := Provider(
      "#dailymotion\\.com/(?:embed/)?video/(?<id>[a-z0-9]+)#i",
      "http://www.dailymotion.com/embed/video/%s",
      DailymotionMap());
    var vimeo := Provider(
      "#vimeo\\.com/(?:video/)?(?<id>[0-9]+)#i",
      "http://player.vimeo.com/video/%s",
      VimeoMap());
    var youtube := Provider(
      "#(?:v=|v/|embed/|youtu\\.be/)(?<id>[a-z0-9_-]+)#i",
      "http://www.youtube-nocookie.com/embed/%s",
      YoutubeMap());
    var r := RawDict(["dailymotion", "vimeo", "youtube"],
                     map["dailymotion" := dailymotion, "vimeo" := vimeo, "youtube" := youtube]);
    assert Distinct(r.keys);
    r
  }

  /** The 'id' pattern of the provider at position i. */
  function PatternAt(reg: Registry, i: nat): string
    requires i < |reg.keys|
  {
    reg.vals[reg.keys[i]].id
  }

  predicate MatchesAt(reg: Registry, i: nat, source: string, matcher: Matcher)
    requires i < |reg.keys|
  {
    matcher(PatternAt(reg, i), source).Some?
  }

  /** Provider i is the first one, from position `from` on, whose pattern matches. */
  predicate FirstMatchFrom(reg: Registry, from: nat, i: nat, source: string, matcher: Matcher)
    requires from <= i < |reg.keys|
  {
    && MatchesAt(reg, i, source, matcher)
    && forall j :: from <= j < i ==> !MatchesAt(reg, j, source, matcher)
  }

  /** The name of provider i paired with the id its pattern captures. */
  function FoundAt(reg: Registry, i: nat, source: string, matcher: Matcher): (string, string)
    requires i < |reg.keys| && MatchesAt(reg, i, source, matcher)
  {
    (reg.keys[i], matcher(PatternAt(reg, i), source).value)
  }

  /** The scan of the registry from position `from` on. */
  function IdentifyFrom(reg: Registry, source: string, matcher: Matcher, from: nat): Option<(string, string)>
    requires from <= |reg.keys|
    decreases |reg.keys| - from
  {
    if from == |reg.keys| then None
    else if MatchesAt(reg, from, source, matcher) then Some(FoundAt(reg, from, source, matcher))
    else IdentifyFrom(reg, source, matcher, from + 1)
  }

  lemma {:induction false} IdentifyFromSpec(reg: Registry, source: string, matcher: Matcher, from: nat)
    requires from <= |reg.keys|
    ensures var r := IdentifyFrom(reg, source, matcher, from);
      && (r.None? <==> forall i :: from <= i < |reg.keys| ==> !MatchesAt(reg, i, source, matcher))
      && (forall i :: from <= i < |reg.keys| && FirstMatchFrom(reg, from, i, source, matcher) ==>
            r == Some(FoundAt(reg, i, source, matcher)))
      && (r.Some? ==>
            exists i :: from <= i < |reg.keys| && FirstMatchFrom(reg, from, i, source, matcher) &&
                        r == Some(FoundAt(reg, i, source, matcher)))
    decreases |reg.keys| - from
  {
    if from < |reg.keys| && !MatchesAt(reg, from, source, matcher) {
      IdentifyFromSpec(reg, source, matcher, from + 1);
    }
  }

  /**
   * Identification of a source: the first provider, in registry order, whose
   * pattern matches, with the id it captures; None (PHP's `array(false,
   * false)`) when no pattern matches.
   */
  function Identify(reg: Registry, source: string, matcher: Matcher): (r: Option<(string, string)>)
    ensures r.Some? ==> r.value.0 in reg.vals
  {
    IdentifySpec(reg, source, matcher);
    IdentifyFrom(reg, source, matcher, 0)
  }

  /**
   * Identification finds nothing exactly when no pattern matches; otherwise
   * it names the first provider whose pattern matches, with that pattern's
   * capture, so the providers after it are never consulted.
   */
  lemma IdentifySpec(reg: Registry, source: string, matcher: Matcher)
    ensures var r := IdentifyFrom(reg, source, matcher, 0);
      && (r.None? <==> forall i :: 0 <= i < |reg.keys| ==> !MatchesAt(reg, i, source, matcher))
      && (forall i :: 0 <= i < |reg.keys| && FirstMatchFrom(reg, 0, i, source, matcher) ==>
            r == Some(FoundAt(reg, i, source, matcher)))
      && (r.Some? ==>
            exists i :: 0 <= i < |reg.keys| && FirstMatchFrom(reg, 0, i, source, matcher) &&
                        r == Some(FoundAt(reg, i, source, matcher)))
  {
    IdentifyFromSpec(reg, source, matcher, 0);
  }

  /**
   * Providers added by name after the defaults are tried only when no
   * default (nor an override of one, which keeps the default's position)
   * matches the source.
   */
  lemma AddedProvidersTriedLast(defaults: Registry, overrides: Registry, source: string, matcher: Matcher)
    requires Identify(Merge(defaults, overrides), source, matcher).Some?
    requires Identify(Merge(defaults, overrides), source, matcher).value.0 !in defaults.vals
    ensures forall i :: 0 <= i < |defaults.keys| ==> !MatchesAt(Merge(defaults, overrides), i, source, matcher)
  {
    var reg := Merge(defaults, overrides);
    var r := Identify(reg, source, matcher);
    IdentifySpec(reg, source, matcher);
    var i :| 0 <= i < |reg.keys| && FirstMatchFrom(reg, 0, i, source, matcher) && r == Some(FoundAt(reg, i, source, matcher));
    assert i >= |defaults.keys|;
  }
}
