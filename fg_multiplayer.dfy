/**
 * lib/fg/Multiplayer/Multiplayer.php: the `Multiplayer` class of the
 * `fg\Multiplayer` namespace. All of its configuration sits in one options
 * array (the wrapper, the generic parameters and the providers), which the
 * constructor merges shallowly with the caller's.
 */
module FgMultiplayer {
  import opened PhpValues
  import opened PhpArrays
  import opened Providers
  import opened ParamMapping
  import opened Assembly

  /** `$_options`: the wrapper, the generic parameters and the registry. */
  datatype Options = Options(wrapper: string, params: Dict<Value>, providers: Registry)

  /** The constructor's argument: which of the three options the caller supplies, and with what. */
  datatype Overrides = Overrides(wrapper: Option<string>, params: Option<Dict<Value>>, providers: Option<Registry>)

  /** The options a `Multiplayer` has when the caller supplies none. */
  function DefaultOptions(): Options {
    Options(IframeWrapper, FgGenericParams(), DefaultProviders())
  }

  function OrElse<T>(supplied: Option<T>, default: T): T {
    if supplied.Some? then supplied.value else default
  }

  /** `array_merge($this->_options, $options)`: a supplied option replaces the default whole. */
  function MergeOptions(defaults: Options, o: Overrides): Options {
    Options(OrElse(o.wrapper, defaults.wrapper), OrElse(o.params, defaults.params),
            OrElse(o.providers, defaults.providers))
  }

  class Multiplayer {
    var options: Options

    /**
     * The merge is one level deep: supplying 'providers' drops dailymotion,
     * vimeo and youtube unless the caller lists them again, and supplying
     * 'params' replaces the whole list of generic names.
     */
    constructor(overrides: Overrides)
      ensures options == MergeOptions(DefaultOptions(), overrides)
      ensures overrides.wrapper.None? ==> options.wrapper == IframeWrapper
      ensures overrides.params.None? ==> options.params == FgGenericParams()
      ensures overrides.providers.None? ==> options.providers == DefaultProviders()
      ensures overrides.providers.Some? ==> options.providers == overrides.providers.value
    {
      options := MergeOptions(DefaultOptions(), overrides);
    }

    /** `_providerInfos($source)`: the first provider whose pattern matches, with the id it captures. */
    method ProviderInfos(source: string, matcher: Matcher) returns (found: Option<(string, string)>)
      ensures found == Identify(options.providers, source, matcher)
    {
      var providers := options.providers;
      var i := 0;
      while i < |providers.keys|
        invariant 0 <= i <= |providers.keys|
        invariant forall j :: 0 <= j < i ==> !MatchesAt(providers, j, source, matcher)
      {
        var name := providers.keys[i];
        var id := matcher(providers.vals[name].id, source);
        if id.Some? {
          assert FirstMatchFrom(providers, 0, i, source, matcher);
          IdentifySpec(providers, source, matcher);
          return Some((name, id.value));
        }
        i := i + 1;
      }
      IdentifySpec(providers, source, matcher);
      return None;
    }

    /** `_mappedParams($map, $params)`: the extras are the options not among `$_options['params']`. */
    method MappedParams(paramMap: Dict<Spec>, params: Dict<Value>) returns (mapped: Dict<Value>)
      ensures mapped == Mapped(paramMap, params, options.params.vals.Keys)
    {
      mapped := Empty();
      var i := 0;
      while i < |paramMap.keys|
        invariant 0 <= i <= |paramMap.keys|
        invariant TranslateFrom(mapped, paramMap, i, params) == Translate(paramMap, params)
      {
        var generic := paramMap.keys[i];
        var specific := paramMap.vals[generic];
        TranslateFromUnfold(mapped, paramMap, i, params);
        i := i + 1;
        var value := Lookup(params, generic);
        if IsEmpty(value) {
          StepSkips(mapped, generic, specific, params);
          continue;
        }
        var param: string;
        match specific {
          case Rename(name) =>
            param := name;
          case Structured(p, prefix) =>
            if p.None? || IsEmpty(Str(p.value)) {
              StepSkips(mapped, generic, specific, params);
              continue;
            }
            param := p.value;
            if Truthy(value) && prefix.Some? {
              value := Str(prefix.value + ToPhpString(value));
            }
          case Names(_) =>
            StepSkips(mapped, generic, specific, params);
            continue;
        }
        StepWrites(mapped, generic, specific, params, param);
        mapped := Put(mapped, param, value);
      }
      var extra := DiffKey(params, options.params.vals.Keys);
      if Size(extra) > 0 {
        mapped := Merge(mapped, extra);
      }
    }

    /**
     * `html($source, $params)`: as in lib/Multiplayer, with the wrapper
     * taken from the options instead of an argument.
     */
    method Html(source: string, params: Dict<Value>, matcher: Matcher, encode: QueryEncoder)
      returns (html: string)
      ensures html == Embed(options.providers, options.params, source, params, options.wrapper, matcher, encode)
      ensures Identify(options.providers, source, matcher).None? ==> html == source
    {
      var config := options;
      var merged := Union(params, config.params);
      html := source;
      var info := ProviderInfos(source, matcher);
      if info.Some? {
        var (provider, videoId) := info.value;
        EmbedMatched(config.providers, config.params, source, params, config.wrapper, matcher, encode,
                     provider, videoId);
        var entry := config.providers.vals[provider];
        merged := MappedParams(entry.paramMap, merged);
        var url := PlayerUrl(entry.player, videoId, merged, encode);
        html := Format(config.wrapper, url);
      }
    }
  }

  /**
   * 'start' is not a generic name in this revision: a caller's 'start'
   * reaches every provider untranslated, with the caller's value, after
   * the translated parameters.
   */
  lemma StartForwarded(m: Dict<Spec>, params: Dict<Value>)
    requires "start" in params.vals
    ensures Get(Mapped(m, Union(params, FgGenericParams()), FgGenericParams().vals.Keys), "start") ==
              Some(params.vals["start"])
  {
    assert "start" !in FgGenericParams().vals;
    ExtraForwarded(m, params, FgGenericParams(), "start");
  }

  /**
   * Because the merge is shallow, 'params' supplied to the constructor
   * replaces the generic names: a generic name the caller left out of it
   * is then an extra, sent under its generic name with its raw value.
   */
  lemma OmittedGenericForwarded(o: Overrides, m: Dict<Spec>, params: Dict<Value>, k: string)
    requires o.params.Some? && k !in o.params.value.vals
    requires k in params.vals
    ensures var generics := MergeOptions(DefaultOptions(), o).params;
            Get(Mapped(m, Union(params, generics), generics.vals.Keys), k) == Some(params.vals[k])
  {
    ExtraForwarded(m, params, o.params.value, k);
  }
}
