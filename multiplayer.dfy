/**
 * lib/Multiplayer/Multiplayer.php: the `Multiplayer` class of the
 * `Multiplayer` namespace. Its registry is the defaults merged by provider
 * name with the caller's providers; the wrapper is an argument of `Html`.
 */
module Multiplayer {
  import opened PhpValues
  import opened PhpArrays
  import opened Providers
  import opened ParamMapping
  import opened Assembly

  class Multiplayer {
    /** `$_params`: the generic option names, each defaulting to null. */
    var genericParams: Dict<Value>
    /** `$_providers`: the registry, in the order providers are tried. */
    var providers: Registry

    /**
     * `array_merge($this->_providers, $providers)`: an override replaces a
     * default of the same name whole, in the default's position; new
     * providers come after dailymotion, vimeo and youtube, in the caller's order.
     */
    constructor(overrides: Registry)
      ensures genericParams == GenericParams()
      ensures providers.keys == DefaultProviders().keys + Filter(overrides.keys, DefaultProviders().vals.Keys)
      ensures providers.vals == DefaultProviders().vals + overrides.vals
    {
      genericParams := GenericParams();
      providers := Merge(DefaultProviders(), overrides);
    }

    /** `_providerInfos($source)`: the first provider whose pattern matches, with the id it captures. */
    method ProviderInfos(source: string, matcher: Matcher) returns (found: Option<(string, string)>)
      ensures found == Identify(providers, source, matcher)
    {
      var i := 0;
      while i < |providers.keys|
        invariant 0 <= i <= |providers.keys|
        invariant forall j :: 0 <= j < i ==> !MatchesAt(providers, j, source, matcher)
      {
        var name := providers.keys[i];
        var id := matcher(providers.vals[name].id, source);
        if id.Some? {
          assert FirstMatchFrom(providers, 0, i, source, matcher);
          IdentifySpec(providers, source, matcher);
          return Some((name, id.value));
        }
        i := i + 1;
      }
      IdentifySpec(providers, source, matcher);
      return None;
    }

    /** `_mappedParams($map, $params)`: the translated parameters, then the extras merged over them. */
    method MappedParams(paramMap: Dict<Spec>, params: Dict<Value>) returns (mapped: Dict<Value>)
      ensures mapped == Mapped(paramMap, params, genericParams.vals.Keys)
    {
      mapped := Empty();
      var i := 0;
      while i < |paramMap.keys|
        invariant 0 <= i <= |paramMap.keys|
        invariant TranslateFrom(mapped, paramMap, i, params) == Translate(paramMap, params)
      {
        var generic := paramMap.keys[i];
        var specific := paramMap.vals[generic];
        TranslateFromUnfold(mapped, paramMap, i, params);
        i := i + 1;
        var value := Lookup(params, generic);
        if IsEmpty(value) {
          StepSkips(mapped, generic, specific, params);
          continue;
        }
        var param: string;
        match specific {
          case Rename(name) =>
            param := name;
          case Structured(p, prefix) =>
            if p.None? || IsEmpty(Str(p.value)) {
              StepSkips(mapped, generic, specific, params);
              continue;
            }
            param := p.value;
            if Truthy(value) && prefix.Some? {
              value := Str(prefix.value + ToPhpString(value));
            }
          case Names(_) =>
            StepSkips(mapped, generic, specific, params);
            continue;
        }
        StepWrites(mapped, generic, specific, params, param);
        mapped := Put(mapped, param, value);
      }
      var extra := DiffKey(params, genericParams.vals.Keys);
      if Size(extra) > 0 {
        mapped := Merge(mapped, extra);
      }
    }

    /**
     * `html($source, $params, $wrapper)`: the source unchanged when no
     * provider identifies it, else the wrapper around the player URL.
     */
    method Html(source: string, options: Dict<Value>, wrapper: string, matcher: Matcher, encode: QueryEncoder)
      returns (html: string)
      ensures html == Embed(providers, genericParams, source, options, wrapper, matcher, encode)
      ensures Identify(providers, source, matcher).None? ==> html == source
    {
      var params := Union(options, genericParams);
      html := source;
      var info := ProviderInfos(source, matcher);
      if info.Some? {
        var (provider, videoId) := info.value;
        EmbedMatched(providers, genericParams, source, options, wrapper, matcher, encode, provider, videoId);
        var entry := providers.vals[provider];
        params := MappedParams(entry.paramMap, params);
        var url := PlayerUrl(entry.player, videoId, params, encode);
        html := Format(wrapper, url);
      }
    }
  }

  /** No entry of `m` names `k` as the parameter it writes. */
  predicate NeverTargets(m: Dict<Spec>, k: string) {
    forall i :: 0 <= i < |m.keys| ==> Target(SpecAt(m, i)) != Some(k)
  }

  lemma DailymotionNeverTargetsStart()
    ensures NeverTargets(DailymotionMap(), "start")
  {
    var m := DailymotionMap();
    DailymotionRenames();
    DailymotionColors();
    forall i | 0 <= i < |m.keys| ensures Target(SpecAt(m, i)) != Some("start") {
      assert i == 0 || i == 1 || i == 2 || i == 3 || i == 4 || i == 5 || i == 6;
    }
  }

  lemma VimeoNeverTargetsStart()
    ensures NeverTargets(VimeoMap(), "start")
  {
    var m := VimeoMap();
    assert forall k :: k in m.vals ==> Target(m.vals[k]) != Some("start");
    forall i | 0 <= i < |m.keys| ensures Target(SpecAt(m, i)) != Some("start") {
      assert m.keys[i] in m.vals;
    }
  }

  lemma YoutubeNeverTargetsStart()
    ensures NeverTargets(YoutubeMap(), "start")
  {
    var m := YoutubeMap();
    assert forall k :: k in m.vals ==> Target(m.vals[k]) != Some("start");
    forall i | 0 <= i < |m.keys| ensures Target(SpecAt(m, i)) != Some("start") {
      assert m.keys[i] in m.vals;
    }
  }

  /** None of the built-in maps translates any option into a parameter named "start". */
  lemma DefaultMapsNeverTargetStart(name: string)
    requires name in DefaultProviders().vals
    ensures NeverTargets(DefaultProviders().vals[name].paramMap, "start")
  {
    DailymotionNeverTargetsStart();
    VimeoNeverTargetsStart();
    YoutubeNeverTargetsStart();
  }

  /**
   * 'start' is one of this revision's generic names, yet no built-in map
   * translates it: whatever the caller passes as 'start', the parameters
   * sent to dailymotion, vimeo or youtube never hold a 'start' entry.
   */
  lemma StartNeverSent(name: string, options: Dict<Value>)
    requires name in DefaultProviders().vals
    ensures "start" !in Mapped(DefaultProviders().vals[name].paramMap, Union(options, GenericParams()),
                               GenericParams().vals.Keys).vals
  {
    var m := DefaultProviders().vals[name].paramMap;
    var p := Union(options, GenericParams());
    DefaultMapsNeverTargetStart(name);
    MappedKeys(m, p, GenericParams().vals.Keys, "start");
    assert "start" in GenericParams().vals.Keys;
  }
}
