/**
 * The `service` provider of tests/Multiplayer/MultiplayerTest.php, added to
 * lib/Multiplayer's registry, and what `html()` then produces for its
 * sources with the wrapper "%s". The test names the player template 'url';
 * the class reads 'player', so here it is given under 'player'.
 */
module ServiceExamples {
  import opened PhpValues
  import opened PhpArrays
  import opened Providers
  import opened ParamMapping
  import opened Assembly

  const ServicePattern: string := "#service\\.com/video/(?<id>[0-9]+)#i"
  const Source: string := "service.com/video/42"

  function ServiceMap(): Dict<Spec> {
    RawDict(
      ["autoPlay", "showInfos", "highlightColor"],
      map["autoPlay" := Rename("play"),
          "showInfos" := Names(["title", "author"]),
          "highlightColor" := Rename("color")])
  }

  function Services(): Registry {
    RawDict(["service"], map["service" := Provider(ServicePattern, "http://service.com/player/%s", ServiceMap())])
  }

  /** The registry of `new Multiplayer($services)`. */
  function Registered(): Registry {
    Merge(DefaultProviders(), Services())
  }

  /** A matcher under which none of the default patterns matches the source, and the service pattern captures 42. */
  predicate ServiceOnly(matcher: Matcher) {
    && (forall j :: 0 <= j < |DefaultProviders().keys| ==> !MatchesAt(DefaultProviders(), j, Source, matcher))
    && matcher(ServicePattern, Source) == Some("42")
  }

  lemma DefaultNames()
    ensures DefaultProviders().keys == ["dailymotion", "vimeo", "youtube"]
    ensures "service" !in DefaultProviders().vals
  {
  }

  /**
   * A provider added under a new name is found, with its capture, when no
   * provider before it matches.
   */
  lemma AddedProviderFound(defaults: Registry, name: string, provider: Provider, source: string,
                           matcher: Matcher, id: string)
    requires name !in defaults.vals
    requires forall j :: 0 <= j < |defaults.keys| ==> !MatchesAt(defaults, j, source, matcher)
    requires matcher(provider.id, source) == Some(id)
    ensures Identify(Merge(defaults, RawDict([name], map[name := provider])), source, matcher) == Some((name, id))
  {
    var added: Registry := RawDict([name], map[name := provider]);
    var reg := Merge(defaults, added);
    var n := |defaults.keys|;
    assert Filter([name], defaults.vals.Keys) == [name] + Filter([], defaults.vals.Keys);
    assert reg.keys == defaults.keys + [name];
    forall j | 0 <= j < n ensures !MatchesAt(reg, j, source, matcher) {
      assert reg.keys[j] == defaults.keys[j] && defaults.keys[j] in defaults.vals;
      assert !MatchesAt(defaults, j, source, matcher);
      assert PatternAt(reg, j) == PatternAt(defaults, j);
    }
    assert PatternAt(reg, n) == provider.id;
    assert FirstMatchFrom(reg, 0, n, source, matcher);
    IdentifySpec(reg, source, matcher);
  }

  lemma ServiceIdentified(matcher: Matcher)
    requires ServiceOnly(matcher)
    ensures Identify(Registered(), Source, matcher) == Some(("service", "42"))
  {
    DefaultNames();
    AddedProviderFound(DefaultProviders(), "service", Services().vals["service"], Source, matcher, "42");
  }

  lemma ServiceEntry()
    ensures "service" in Registered().vals
    ensures Registered().vals["service"].player == "http://service.com/player/" + "%s" + ""
    ensures Registered().vals["service"].paramMap == ServiceMap()
  {
    var provider := Services().vals["service"];
    assert Registered().vals["service"] == provider;
    assert provider.player == "http://service.com/player/%s";
  }

  /** The pieces of the templates, for `EmbedShape`. */
  lemma ServiceStrings(query: string)
    ensures "%s" == "" + "%s" + ""
    ensures NoPercent("http://service.com/player/") && NoPercent("")
    ensures "" + "http://service.com/player/" + "42" + "" + query + "" == "http://service.com/player/42" + query
  {
  }

  /** The embed code of the source with the wrapper "%s": the player URL itself. */
  lemma ServiceEmbed(matcher: Matcher, encode: QueryEncoder, options: Dict<Value>)
    requires ServiceOnly(matcher)
    ensures Embed(Registered(), GenericParams(), Source, options, "%s", matcher, encode) ==
              "http://service.com/player/42" + Query(ServiceParams(options), encode)
  {
    var reg := Registered();
    var query := Query(ServiceParams(options), encode);
    ServiceIdentified(matcher);
    ServiceEntry();
    ServiceStrings(query);
    EmbedShape(reg, GenericParams(), Source, options, "%s", matcher, encode,
               "service", "42", "http://service.com/player/", "", "", "");
  }

  /** The parameters `html()` sends to the service for the caller's options. */
  function ServiceParams(options: Dict<Value>): Dict<Value> {
    Mapped(ServiceMap(), Union(options, GenericParams()), GenericParams().vals.Keys)
  }

  lemma GenericsNull()
    ensures forall k :: k in GenericParams().vals ==> GenericParams().vals[k] == Null
  {
  }

  /** The null defaults make no difference to what the service receives. */
  lemma ServiceParamsOfOptions(options: Dict<Value>)
    ensures ServiceParams(options) == Mapped(ServiceMap(), options, GenericParams().vals.Keys)
  {
    GenericsNull();
    NullDefaultsInvisible(ServiceMap(), options, GenericParams());
  }

  /** With autoPlay and highlightColor empty, the service's map writes nothing; its showInfos list never does. */
  lemma ServiceTranslatesNothing(p: Dict<Value>)
    requires IsEmpty(Lookup(p, "autoPlay")) && IsEmpty(Lookup(p, "highlightColor"))
    ensures Translate(ServiceMap(), p) == Empty()
  {
    var m := ServiceMap();
    var e: Dict<Value> := Empty();
    assert GenericAt(m, 0) == "autoPlay" && GenericAt(m, 1) == "showInfos" && GenericAt(m, 2) == "highlightColor";
    assert SpecAt(m, 1) == Names(["title", "author"]);
    TranslateFromUnfold(e, m, 0, p);
    assert Step(e, GenericAt(m, 0), SpecAt(m, 0), p) == e;
    TranslateFromUnfold(e, m, 1, p);
    assert Step(e, GenericAt(m, 1), SpecAt(m, 1), p) == e;
    TranslateFromUnfold(e, m, 2, p);
    assert Step(e, GenericAt(m, 2), SpecAt(m, 2), p) == e;
  }

  /** autoPlay set to true, highlightColor empty: the service receives `play` = true. */
  lemma ServiceTranslatesAutoPlay(p: Dict<Value>)
    requires Lookup(p, "autoPlay") == Bool(true) && IsEmpty(Lookup(p, "highlightColor"))
    ensures Translate(ServiceMap(), p) == RawDict(["play"], map["play" := Bool(true)])
  {
    var m := ServiceMap();
    var e: Dict<Value> := Empty();
    var one := Put(e, "play", Bool(true));
    assert GenericAt(m, 0) == "autoPlay" && GenericAt(m, 1) == "showInfos" && GenericAt(m, 2) == "highlightColor";
    assert SpecAt(m, 0) == Rename("play") && SpecAt(m, 1) == Names(["title", "author"]);
    TranslateFromUnfold(e, m, 0, p);
    assert Step(e, GenericAt(m, 0), SpecAt(m, 0), p) == one;
    TranslateFromUnfold(one, m, 1, p);
    assert Step(one, GenericAt(m, 1), SpecAt(m, 1), p) == one;
    TranslateFromUnfold(one, m, 2, p);
    assert Step(one, GenericAt(m, 2), SpecAt(m, 2), p) == one;
  }

  /** When every option of the caller's is generic, there are no extras and the translation is the output. */
  lemma NoExtras(m: Dict<Spec>, options: Dict<Value>)
    requires forall k :: k in options.vals ==> k in GenericParams().vals
    ensures Mapped(m, options, GenericParams().vals.Keys) == Translate(m, options)
  {
    FilterAll(options.keys, GenericParams().vals.Keys);
  }

  function FooBar(): Dict<Value> {
    RawDict(["foo"], map["foo" := Str("bar")])
  }

  function AutoPlayOn(): Dict<Value> {
    RawDict(["autoPlay"], map["autoPlay" := Bool(true)])
  }

  function PlayOn(): Dict<Value> {
    RawDict(["play"], map["play" := Bool(true)])
  }

  function ShowInfosOn(): Dict<Value> {
    RawDict(["showInfos"], map["showInfos" := Bool(true)])
  }

  lemma ParamsOfNoOptions()
    ensures ServiceParams(Empty()) == Empty()
  {
    ServiceParamsOfOptions(Empty());
    ServiceTranslatesNothing(Empty());
    NoExtras(ServiceMap(), Empty());
  }

  lemma FooBarIsExtra()
    ensures DiffKey(FooBar(), GenericParams().vals.Keys) == FooBar()
  {
    var g := GenericParams().vals.Keys;
    assert "foo" !in g;
    assert Filter(["foo"], g) == ["foo"] + Filter([], g);
  }

  lemma ParamsOfExtra()
    ensures ServiceParams(FooBar()) == FooBar()
  {
    var p := FooBar();
    var g := GenericParams().vals.Keys;
    ServiceParamsOfOptions(p);
    assert Lookup(p, "autoPlay") == Null && Lookup(p, "highlightColor") == Null;
    ServiceTranslatesNothing(p);
    FooBarIsExtra();
    MappedOnlyExtras(ServiceMap(), p, g);
  }

  lemma ParamsOfAutoPlay()
    ensures ServiceParams(AutoPlayOn()) == PlayOn()
  {
    var p := AutoPlayOn();
    ServiceParamsOfOptions(p);
    assert Lookup(p, "autoPlay") == Bool(true) && Lookup(p, "highlightColor") == Null;
    ServiceTranslatesAutoPlay(p);
    assert "autoPlay" in GenericParams().vals;
    NoExtras(ServiceMap(), p);
  }

  lemma ParamsOfShowInfos()
    ensures ServiceParams(ShowInfosOn()) == Empty()
  {
    var p := ShowInfosOn();
    ServiceParamsOfOptions(p);
    assert Lookup(p, "autoPlay") == Null && Lookup(p, "highlightColor") == Null;
    ServiceTranslatesNothing(p);
    assert "showInfos" in GenericParams().vals;
    NoExtras(ServiceMap(), p);
  }

  lemma ServiceUrl(encode: QueryEncoder, params: Dict<Value>)
    ensures Size(params) == 0 ==> "http://service.com/player/42" + Query(params, encode) == "http://service.com/player/42"
    ensures Size(params) > 0 ==>
              "http://service.com/player/42" + Query(params, encode) == "http://service.com/player/42?" + encode(params)
  {
    if Size(params) == 0 {
      assert Query(params, encode) == "";
    } else {
      assert Query(params, encode) == "?" + encode(params);
    }
  }

  /** `testHtml`: no options give the bare player URL. */
  lemma ServiceHtmlNoOptions(matcher: Matcher, encode: QueryEncoder)
    requires ServiceOnly(matcher)
    ensures Embed(Registered(), GenericParams(), Source, Empty(), "%s", matcher, encode) == "http://service.com/player/42"
  {
    ServiceEmbed(matcher, encode, Empty());
    ParamsOfNoOptions();
    ServiceUrl(encode, Empty());
  }

  /** `testHtmlWithParam`: an option that is not generic is sent as it is. */
  lemma ServiceHtmlExtra(matcher: Matcher, encode: QueryEncoder)
    requires ServiceOnly(matcher)
    ensures Embed(Registered(), GenericParams(), Source, FooBar(), "%s", matcher, encode) ==
              "http://service.com/player/42?" + encode(FooBar())
  {
    ServiceEmbed(matcher, encode, FooBar());
    ParamsOfExtra();
    ServiceUrl(encode, FooBar());
  }

  /** `testHtmlWithMappedParam`, first case: autoPlay is sent as the service's `play`. */
  lemma ServiceHtmlAutoPlay(matcher: Matcher, encode: QueryEncoder)
    requires ServiceOnly(matcher)
    ensures Embed(Registered(), GenericParams(), Source, AutoPlayOn(), "%s", matcher, encode) ==
              "http://service.com/player/42?" + encode(PlayOn())
  {
    ServiceEmbed(matcher, encode, AutoPlayOn());
    ParamsOfAutoPlay();
    ServiceUrl(encode, PlayOn());
  }

  /**
   * `testHtmlWithMappedParam`, second case: the list spec of showInfos
   * sends nothing, so the URL has no query (the test expects
   * `?title=1&author=1`, which this code does not produce).
   */
  lemma ServiceHtmlShowInfos(matcher: Matcher, encode: QueryEncoder)
    requires ServiceOnly(matcher)
    ensures Embed(Registered(), GenericParams(), Source, ShowInfosOn(), "%s", matcher, encode) ==
              "http://service.com/player/42"
  {
    ServiceEmbed(matcher, encode, ShowInfosOn());
    ParamsOfShowInfos();
    ServiceUrl(encode, Empty());
  }
}
