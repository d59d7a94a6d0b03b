/**
 * Assembly of the embed code (`html()` in both revisions): the player URL
 * from its template, the id and the translated parameters, wrapped in the
 * HTML template.
 */
module Assembly {
  import opened PhpValues
  import opened PhpArrays
  import opened Providers
  import opened ParamMapping

  /** `http_build_query($params)`: percent-encoding and value rendering belong to PHP. */
  type QueryEncoder = Dict<Value> -> string

  /** The default wrapper of both revisions, an iframe around the player URL. */
  const IframeWrapper: string :=
    "<iframe src=\"%s\" frameborder=\"0\" webkitAllowFullScreen mozallowfullscreen allowFullScreen></iframe>"

  predicate NoPercent(s: string) {
    '%' !in s
  }

  /**
   * `sprintf($template, $arg)` for templates whose one directive is `%s`:
   * the first "%s" is replaced by `arg`, the rest is copied.
   */
  function Format(template: string, arg: string): string
    decreases |template|
  {
    if |template| < 2 then template
    else if template[0] == '%' && template[1] == 's' then arg + template[2..]
    else [template[0]] + Format(template[1..], arg)
  }

  /**
   * A template `before %s after` whose only `%` is the slot's, the one
   * shape on which `sprintf` with a single argument succeeds and `Format`
   * agrees with it, receives `arg` in the slot.
   */
  lemma {:induction false} FormatSlot(before: string, after: string, arg: string)
    requires NoPercent(before) && NoPercent(after)
    ensures Format(before + "%s" + after, arg) == before + arg + after
  {
    var t := before + "%s" + after;
    if before == [] {
      assert t[0] == '%' && t[1] == 's' && t[2..] == after;
    } else {
      assert t[0] == before[0] != '%';
      assert t[1..] == before[1..] + "%s" + after;
      FormatSlot(before[1..], after, arg);
    }
  }

  /** The player URL, itself made from a single-slot template, put into a single-slot wrapper. */
  lemma NestedSlots(wb: string, wa: string, pb: string, pa: string, id: string, query: string)
    requires NoPercent(wb) && NoPercent(wa) && NoPercent(pb) && NoPercent(pa)
    ensures Format(wb + "%s" + wa, Format(pb + "%s" + pa, id) + query) == wb + pb + id + pa + query + wa
  {
    FormatSlot(pb, pa, id);
    FormatSlot(wb, wa, pb + id + pa + query);
    assert wb + (pb + id + pa + query) + wa == wb + pb + id + pa + query + wa;
  }

  /** The query suffix: "?" and the encoded parameters, or nothing when there are none. */
  function Query(params: Dict<Value>, encode: QueryEncoder): string {
    if Size(params) > 0 then "?" + encode(params) else ""
  }

  /** The player URL as `html()` builds it: the id in the player template, then `?` and the query when there are parameters. */
  method PlayerUrl(player: string, videoId: string, params: Dict<Value>, encode: QueryEncoder)
    returns (url: string)
    ensures url == Format(player, videoId) + Query(params, encode)
  {
    url := Format(player, videoId);
    if Size(params) > 0 {
      url := url + "?" + encode(params);
    }
  }

  /**
   * The embed code for `source`: the source itself when no provider
   * identifies it; otherwise the wrapper around the player URL, which is
   * the provider's template with the id, followed by the query of the
   * options as `_mappedParams` translates them once `$params += $generics`
   * has filled in the generic keys.
   */
  function Embed(reg: Registry, generics: Dict<Value>, source: string, options: Dict<Value>,
                 wrapper: string, matcher: Matcher, encode: QueryEncoder): (r: string)
    ensures Identify(reg, source, matcher).None? ==> r == source
  {
    match Identify(reg, source, matcher)
    case None => source
    case Some((name, id)) =>
      var provider := reg.vals[name];
      var params := Mapped(provider.paramMap, Union(options, generics), generics.vals.Keys);
      Format(wrapper, Format(provider.player, id) + Query(params, encode))
  }

  /** The embed code of a matched source, in terms of the provider found. */
  lemma EmbedMatched(reg: Registry, generics: Dict<Value>, source: string, options: Dict<Value>,
                     wrapper: string, matcher: Matcher, encode: QueryEncoder, name: string, id: string)
    requires Identify(reg, source, matcher) == Some((name, id))
    ensures name in reg.vals
    ensures Embed(reg, generics, source, options, wrapper, matcher, encode) ==
              Format(wrapper, Format(reg.vals[name].player, id) +
                              Query(Mapped(reg.vals[name].paramMap, Union(options, generics), generics.vals.Keys), encode))
  {
  }

  /**
   * With single-slot templates, a matched source gives exactly the
   * wrapper's text around the player URL, the id in the player's slot,
   * and the query exactly when the translated parameters are non-empty.
   */
  lemma EmbedShape(reg: Registry, generics: Dict<Value>, source: string, options: Dict<Value>,
                   wrapper: string, matcher: Matcher, encode: QueryEncoder,
                   name: string, id: string, pb: string, pa: string, wb: string, wa: string)
    requires Identify(reg, source, matcher) == Some((name, id))
    requires reg.vals[name].player == pb + "%s" + pa && NoPercent(pb) && NoPercent(pa)
    requires wrapper == wb + "%s" + wa && NoPercent(wb) && NoPercent(wa)
    ensures Embed(reg, generics, source, options, wrapper, matcher, encode) ==
              wb + pb + id + pa +
              Query(Mapped(reg.vals[name].paramMap, Union(options, generics), generics.vals.Keys), encode) +
              wa
  {
    var params := Mapped(reg.vals[name].paramMap, Union(options, generics), generics.vals.Keys);
    var url := Format(reg.vals[name].player, id) + Query(params, encode);
    assert Embed(reg, generics, source, options, wrapper, matcher, encode) == Format(wrapper, url);
    NestedSlots(wb, wa, pb, pa, id, Query(params, encode));
  }
}
