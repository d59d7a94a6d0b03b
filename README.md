# Multiplayer, modelled in Dafny

Multiplayer turns a video reference into an HTML embed code. The reference is a URL or an existing embed snippet. The work has three steps:

- It finds the provider whose `id` pattern matches the reference: dailymotion, vimeo, youtube, or one the caller registered.
- It translates the caller's generic options into that provider's own query parameters. The generic options are `autoPlay`, `showInfos`, `showBranding`, `showRelated`, `backgroundColor`, `foregroundColor` and `highlightColor`, plus `start` in one revision.
- It puts the id into the provider's player URL template, appends the query, and puts the URL into a wrapper template (an iframe by default).

The repository ships the class in two revisions, and both are modelled:

- `lib/Multiplayer/Multiplayer.php`:
  - the constructor merges caller providers into the registry by name;
  - `html()` takes the wrapper as an argument;
  - `start` is one of the generic names.
- `lib/fg/Multiplayer/Multiplayer.php`:
  - one options array holds the wrapper, the generic names and the providers;
  - the constructor merges it shallowly with the caller's;
  - `start` is not a generic name.

Files:

- `values.dfy` (`PhpValues`): PHP scalars, `empty()`, and string conversion.
- `arrays.dfy` (`PhpArrays`): PHP ordered arrays with string keys, as `Dict<V>`. A `Dict` is the keys in insertion order, no key twice, plus a map from each key to its value. The file also holds `$a[$k] = $v`, `$a + $b`, `array_merge` and `array_diff_key`.
- `providers.dfy` (`Providers`):
  - the default registry;
  - the spec shapes of a parameter map: a rename string; an array with optional `param` and `prefix`; a list of names;
  - identification, as a specification function with its properties.
- `mapping.dfy` (`ParamMapping`): `_mappedParams` as a specification. It has the loop as a fold (`TranslateFrom`), the extras merge (`Mapped`), and what they output, key by key and in order.
- `assembly.dfy` (`Assembly`): `sprintf` with one `%s`, the query suffix, and the whole embed code as a function (`Embed`).
- `multiplayer.dfy` (`Multiplayer`) and `fg_multiplayer.dfy` (`FgMultiplayer`): the two classes. Their fields are updated by the constructor. Their methods `ProviderInfos`, `MappedParams` and `Html` are loops and step-by-step updates, each proved equal to the specification functions above.
- `examples.dfy` (`ServiceExamples`): the `service` provider of `tests/Multiplayer/MultiplayerTest.php` and what `html()` returns for each of its cases.

Two pieces are foreign and appear as function-valued parameters:

- `preg_match` together with `$matches['id']` is a `Matcher`: pattern and subject in, the captured id or nothing out.
- `http_build_query` is a `QueryEncoder`.

## Model

| member | source | states |
|---|---|---|
| PhpValues.EmptyIffStringEmpty | lib/Multiplayer/Multiplayer.php:218-219 | a scalar is PHP-empty exactly when its string form is, so a prefixed value is built from a non-empty string exactly when the value is truthy |
| PhpArrays.PutGet | lib/Multiplayer/Multiplayer.php:225 | after `$mapped[$param] = $value` the key reads the new value, every other key reads as before, and the size grows by one only for a new key |
| PhpArrays.UnionGet | lib/Multiplayer/Multiplayer.php:142 | `$params += $defaults` reads a key from the caller's array when it has it, else from the defaults |
| PhpArrays.MergeGet | lib/Multiplayer/Multiplayer.php:126 | `array_merge` reads a key from the right operand when it has it, else from the left |
| PhpArrays.DiffKeyGet | lib/Multiplayer/Multiplayer.php:230 | `array_diff_key` keeps exactly the entries whose key is not dropped |
| PhpArrays.MergeIntoEmpty | lib/Multiplayer/Multiplayer.php:233 | merging extras into an empty translation gives the extras unchanged |
| PhpArrays.FilterSpec | lib/Multiplayer/Multiplayer.php:230 | filtering a key list keeps exactly the keys outside the dropped set, without repeating any |
| Providers.IdentifySpec | lib/Multiplayer/Multiplayer.php:178-187 | identification finds nothing iff no pattern matches; otherwise it returns the first provider in registry order whose pattern matches, with its capture |
| Providers.Identify | lib/Multiplayer/Multiplayer.php:180-186 | an identified provider is in the registry |
| Providers.AddedProvidersTriedLast | lib/Multiplayer/Multiplayer.php:124-127 | a provider added under a new name is found only when none of the defaults' positions matches |
| ParamMapping.MappedKeys | lib/Multiplayer/Multiplayer.php:198-237 | the output has a key iff it is an extra (a non-generic option) or some map entry writes it; an entry writes only when its option is not PHP-empty and its spec names a non-empty param |
| ParamMapping.MappedValues | lib/Multiplayer/Multiplayer.php:204-234 | an extra keeps the caller's value, also over a translated key; any other key holds the value its last writer gives it, prefixed where the spec says so |
| ParamMapping.MappedGet | lib/Multiplayer/Multiplayer.php:230-234 | one key of the output reads the caller's value for an extra, else the translation's |
| ParamMapping.MappedOrder | lib/Multiplayer/Multiplayer.php:225-233 | the output lists the translated keys first, then the extras the translation did not write, in the caller's order |
| ParamMapping.TranslateFromPrefix | lib/Multiplayer/Multiplayer.php:225 | the translation loop only appends keys: the keys already written keep their places |
| ParamMapping.TranslateOrder | lib/Multiplayer/Multiplayer.php:204-226 | a parameter first written by an earlier map entry comes before one first written by a later entry; writing an existing key again does not move it |
| ParamMapping.WrittenValueTruthy | lib/Multiplayer/Multiplayer.php:205-225 | every translated value is non-empty, and a prefixed value is the prefix followed by the option's string form, which is neither "" nor "0" |
| ParamMapping.ExtraForwarded | lib/Multiplayer/Multiplayer.php:230-234 | after `$params += $generics`, a caller option that is not generic comes out unchanged whatever the map |
| ParamMapping.MappedOnlyExtras | lib/Multiplayer/Multiplayer.php:230-234 | when the map writes nothing, the output is exactly the extras |
| ParamMapping.NullDefaultsInvisible | lib/Multiplayer/Multiplayer.php:142 | with null defaults, `+=` changes no value `_mappedParams` reads and leaves its output unchanged |
| ParamMapping.TranslateFromKeys | lib/Multiplayer/Multiplayer.php:204-226 | the loop's result has a key iff the starting array has it or an entry still to run writes it |
| ParamMapping.TranslateFromValue | lib/Multiplayer/Multiplayer.php:204-226 | the loop leaves a key nobody writes as it was, and gives a written key its last writer's value |
| ParamMapping.DailymotionBackgroundColor | lib/Multiplayer/Multiplayer.php:81-84 | a non-empty dailymotion `backgroundColor` c is translated to `background` = "#" + c (a caller option `background` would then override it as an extra) |
| ParamMapping.VimeoShowInfosInert | lib/Multiplayer/Multiplayer.php:100 | vimeo's list spec for `showInfos` writes nothing: the translation holds at most `autoplay` and `color` |
| Assembly.FormatSlot | lib/Multiplayer/Multiplayer.php:153-156 | `sprintf` on a template whose only `%` is its one `%s` puts the argument in the slot |
| Assembly.PlayerUrl | lib/Multiplayer/Multiplayer.php:153-160 | the URL is the template with the id, then `?` and the query exactly when the parameters are non-empty |
| Assembly.EmbedShape | lib/Multiplayer/Multiplayer.php:153-162 | with templates whose only `%` is their one `%s`, the embed code is exactly wrapper-before, player-before, id, player-after, query, wrapper-after |
| Multiplayer.Multiplayer.constructor | lib/Multiplayer/Multiplayer.php:124-127 | defaults keep their positions and take an override's value; new providers follow in the caller's order |
| Multiplayer.Multiplayer.ProviderInfos | lib/Multiplayer/Multiplayer.php:178-187 | the scan's result is the identification function's result |
| Multiplayer.Multiplayer.MappedParams | lib/Multiplayer/Multiplayer.php:198-237 | the loop and the extras merge compute `Mapped` with the class's generic names |
| Multiplayer.Multiplayer.Html | lib/Multiplayer/Multiplayer.php:140-166 | the result is `Embed`; an unidentified source comes back unchanged |
| Multiplayer.DefaultMapsNeverTargetStart | lib/Multiplayer/Multiplayer.php:72-113 | no built-in map names `start` as a target |
| Multiplayer.StartNeverSent | lib/Multiplayer/Multiplayer.php:45-54 | `start` is generic but untranslated, so dailymotion, vimeo and youtube never receive a `start` parameter |
| FgMultiplayer.Multiplayer.constructor | lib/fg/Multiplayer/Multiplayer.php:105-108 | each supplied option replaces the default whole; an omitted one keeps the default |
| FgMultiplayer.Multiplayer.ProviderInfos | lib/fg/Multiplayer/Multiplayer.php:158-167 | the scan's result is the identification function's result over `$_options['providers']` |
| FgMultiplayer.Multiplayer.MappedParams | lib/fg/Multiplayer/Multiplayer.php:178-217 | computes `Mapped` with `$_options['params']` as the generic names |
| FgMultiplayer.Multiplayer.Html | lib/fg/Multiplayer/Multiplayer.php:120-146 | the result is `Embed` with the configured wrapper; an unidentified source comes back unchanged |
| FgMultiplayer.StartForwarded | lib/fg/Multiplayer/Multiplayer.php:43-51 | `start` is not generic here, so the caller's `start` reaches every provider with the caller's value |
| FgMultiplayer.OmittedGenericForwarded | lib/fg/Multiplayer/Multiplayer.php:105-108 | after a shallow `params` override, a generic name left out of it is forwarded raw as an extra |
| ServiceExamples.AddedProviderFound | lib/Multiplayer/Multiplayer.php:180-186 | a provider appended under a new name is found, with its capture, when no earlier pattern matches |
| ServiceExamples.ServiceHtmlNoOptions | tests/Multiplayer/MultiplayerTest.php:54-58 | no options give `http://service.com/player/42` |
| ServiceExamples.ServiceHtmlExtra | tests/Multiplayer/MultiplayerTest.php:66-70 | `foo` = `bar` is sent as it is: the URL plus `?` and the encoding of that one entry |
| ServiceExamples.ServiceHtmlAutoPlay | tests/Multiplayer/MultiplayerTest.php:78-82 | `autoPlay` = true is sent as `play` = true |
| ServiceExamples.ServiceHtmlShowInfos | tests/Multiplayer/MultiplayerTest.php:84-87 | `showInfos` = true sends nothing, so the URL has no query; the test's `?title=1&author=1` is not what this code produces |

## Left out

- Regular expressions: `preg_match` and the default patterns' languages are not modelled. A `Matcher` parameter returns the `id` capture or nothing. A match without an `id` group, which PHP reports as an undefined index, is not modelled.
- `http_build_query`: percent-encoding, the rendering of `true` as `1`, and the skipping of nulls belong to the `QueryEncoder` parameter. The model states only when its output is appended.
- `sprintf`: only the first `%s` of a template is replaced. Other directives (`%%`, `%d`, positional arguments) are not interpreted. `FormatSlot`, `NestedSlots` and `EmbedShape` require templates whose only `%` is their one `%s`, the shape on which `sprintf` and `Format` agree; on other templates `Format` is not PHP's `sprintf` (for "%s|%s" PHP fails for lack of a second argument, `Format` leaves the second directive in place).
- Integer keys: `array_merge`'s renumbering and PHP's coercion of numeric string keys are not modelled. Keys are strings.
- Values: option values are scalars (null, booleans, integers, strings). Arrays, floats and objects as option values are not modelled.
- Spec values: a spec's `param` and `prefix` are strings.
- A provider named `"0"` or `""`: PHP treats either name as false in `if ( $provider )` (lib/Multiplayer/Multiplayer.php:147, lib/fg/Multiplayer/Multiplayer.php:127), so such a provider is matched but not used. The model treats every identified name as found.
- Malformed specs and providers: a spec or provider missing `param`, `player` or `map` makes PHP raise undefined-index notices. The model only represents well-formed ones, and a spec array without `param` reads as unset.
- Default arguments: the defaults of the PHP signatures (no overrides, no options, the iframe wrapper) are ordinary arguments here. `IframeWrapper` is the default wrapper's text.
- Other top-level keys: in `lib/fg`, top-level option keys other than `wrapper`, `params` and `providers` are merged by PHP and never read, so they are not represented.
- Fan-out: both revisions drop a list spec such as vimeo's `array('byline', 'portrait')`, because it has no `param`. No list entry is ever written, and the model follows the code. A fan-out, where each listed name receives the value, belongs to a later revision of the project, as do the test file's `url` key and its expected `?title=1&author=1`. `ServiceHtmlShowInfos` states what this code returns for that test.
- Empty options: the code skips every PHP-empty option (null, false, 0, "", "0"), not only unset ones, and the model does the same.
