/**
 * The frontend slider script: for every slider element on the page, read its
 * `data-swiper` configuration and derive the Swiper options. The JSON text is
 * taken as already parsed; a missing attribute is the empty configuration.
 */
module FrontendSlider {
  import opened Js
  import opened SliderDefaults
  import FrontendUtils

  /** The Swiper modules, in the order the frontend passes them. */
  const FrontendModules: Value := Arr([Str("Navigation"), Str("Pagination"), Str("Autoplay"), Str("Keyboard")])

  /** The parsed configuration of one element: `JSON.parse(el.dataset?.swiper ?? "{}")`. */
  function ConfigOf(dataSwiper: Option<map<string, Value>>): (config: map<string, Value>)
    ensures dataSwiper.None? ==> config == map[]
    ensures dataSwiper.Some? ==> config == dataSwiper.value
  {
    if dataSwiper.Some? then dataSwiper.value else map[]
  }

  /** The value the frontend gives option `k` for an element configured by `config`. */
  function FrontendValue(config: map<string, Value>, k: OptionKey): Value {
    match k
    case Modules => FrontendModules
    case Loop => Bool(true)
    case SlidesPerView =>
      if Get(config, "sliderStyle") == Str("style3") then Get(config, "slidesPerView") else Num(1)
    case SpaceBetween => Num(20)
    case Speed => Coalesce(Get(config, "speed"), Num(500))
    case Autoplay => if IsTruthy(Get(config, "autoplay")) then AutoplayEvery5s else Bool(false)
    case Navigation => Coalesce(Get(config, "arrows"), Bool(true))
    case Pagination => Coalesce(Get(config, "pagination"), Bool(false))
    case Keyboard => KeyboardEnabled
    case GrabCursor => Bool(false)
    case SimulateTouch => Bool(false)
    case CreateElements => Coalesce(Get(config, "arrows"), Bool(false))
    case Other(_) => Undefined
  }

  /** The options object handed to `new Swiper(el, …)`. */
  function SwiperOptions(config: map<string, Value>): (o: Options)
    ensures o.Keys == OptionKeys
    ensures o[SlidesPerView] ==
      (if Get(config, "sliderStyle") == Str("style3") then Get(config, "slidesPerView") else Num(1))
    ensures Get(config, "speed").Undefined? || Get(config, "speed").Null? ==> o[Speed] == Num(500)
    ensures !Get(config, "speed").Undefined? && !Get(config, "speed").Null? ==> o[Speed] == config["speed"]
  {
    map k | k in OptionKeys :: FrontendValue(config, k)
  }

  /** Autoplay is the fixed 5000 ms object exactly when `autoplay` is truthy, and `false` otherwise. */
  lemma AutoplayOption(config: map<string, Value>)
    ensures IsTruthy(Get(config, "autoplay")) <==> SwiperOptions(config)[Autoplay] == AutoplayEvery5s
    ensures !IsTruthy(Get(config, "autoplay")) <==> SwiperOptions(config)[Autoplay] == Bool(false)
  {
  }

  /**
   * Navigation and the arrow elements follow `arrows`, pagination follows
   * `pagination`; each falls back to its default only when the key is
   * undefined or null.
   */
  lemma ControlOptions(config: map<string, Value>)
    ensures SwiperOptions(config)[Navigation] == Coalesce(Get(config, "arrows"), Bool(true))
    ensures SwiperOptions(config)[Pagination] == Coalesce(Get(config, "pagination"), Bool(false))
    ensures SwiperOptions(config)[CreateElements] == Coalesce(Get(config, "arrows"), Bool(false))
  {
  }

  /**
   * The script's effect: no Swiper when the page has no slider element,
   * otherwise one Swiper per element, in document order, each with the
   * options its own configuration gives.
   */
  function InitSliders(elements: seq<Option<map<string, Value>>>): (swipers: seq<Options>)
    ensures |swipers| == |elements|
    ensures forall i :: 0 <= i < |elements| ==> swipers[i] == SwiperOptions(ConfigOf(elements[i]))
  {
    if |elements| == 0 then []
    else seq(|elements|, i requires 0 <= i < |elements| => SwiperOptions(ConfigOf(elements[i])))
  }

  /**
   * The script as written: return early when `$$` found no slider element;
   * otherwise copy the matches with `toArray`, walk the copy with `each`,
   * and build one Swiper per callback from the element it receives.
   */
  method RunSliderScript(elements: seq<Option<map<string, Value>>>) returns (swipers: seq<Options>)
    ensures swipers == InitSliders(elements)
  {
    if |elements| == 0 {
      return [];
    }
    var found := FrontendUtils.ArrayLike(|elements|, (i: nat) => if i < |elements| then elements[i] else None);
    var arr := FrontendUtils.ToArray(found);
    var calls := FrontendUtils.Each(FrontendUtils.ArrayColl(arr));
    swipers := seq(|calls|, i requires 0 <= i < |calls| => SwiperOptions(ConfigOf(calls[i].value)));
  }

  /** The fixed options take the same values whatever the configuration. */
  lemma FixedOptions(config: map<string, Value>)
    ensures SwiperOptions(config)[Modules] == FrontendModules
    ensures SwiperOptions(config)[Loop] == Bool(true)
    ensures SwiperOptions(config)[SpaceBetween] == Num(20)
    ensures SwiperOptions(config)[Keyboard] == KeyboardEnabled
    ensures SwiperOptions(config)[GrabCursor] == Bool(false)
    ensures SwiperOptions(config)[SimulateTouch] == Bool(false)
  {
  }

  /**
   * `??` keeps an explicit `false`: turning the arrows off turns navigation
   * and the arrow elements off, where `||` would have turned navigation back on.
   */
  lemma ExplicitFalseKept(config: map<string, Value>)
    requires Get(config, "arrows") == Bool(false)
    ensures SwiperOptions(config)[Navigation] == Bool(false)
    ensures SwiperOptions(config)[CreateElements] == Bool(false)
  {
  }

  /**
   * Without `arrows` the frontend shows navigation but creates no arrow
   * elements: the two options follow the same key with different defaults.
   */
  lemma ArrowsDefaultsDiverge(config: map<string, Value>)
    requires "arrows" !in config
    ensures SwiperOptions(config)[Navigation] != SwiperOptions(config)[CreateElements]
  {
  }

  /** The options the frontend and the editor's defaults disagree on when no configuration is given. */
  const Differing: set<OptionKey> := {Modules, Autoplay, Pagination, CreateElements}

  /**
   * An element without `data-swiper` gets the editor's defaults for every
   * option outside `Differing`, and the same option keys.
   */
  lemma EmptyConfigSharesEditorDefaults()
    ensures SwiperOptions(ConfigOf(None)).Keys == DefaultOptions.Keys
    ensures forall k :: k in SwiperOptions(ConfigOf(None)) && k !in Differing ==>
      SwiperOptions(ConfigOf(None))[k] == DefaultOptions[k]
  {
    forall k | k in OptionKeys && k !in Differing
      ensures FrontendValue(map[], k) == DefaultValue(k)
    {
      match k
      case Loop =>
      case SlidesPerView =>
      case SpaceBetween =>
      case Speed =>
      case Navigation =>
      case Keyboard =>
      case GrabCursor =>
      case SimulateTouch =>
      case _ =>
    }
  }

  /**
   * Without configuration the frontend turns autoplay, pagination and the
   * arrow elements off where the editor's defaults turn them on.
   */
  lemma EmptyConfigDiffersFromEditorDefaults()
    ensures SwiperOptions(map[])[Autoplay] == Bool(false) && IsTruthy(DefaultOptions[Autoplay])
    ensures SwiperOptions(map[])[Pagination] == Bool(false) && DefaultOptions[Pagination] == Bool(true)
    ensures SwiperOptions(map[])[CreateElements] == Bool(false) && DefaultOptions[CreateElements] == Bool(true)
  {
  }

  /**
   * Both scripts load the same four Swiper modules; the editor lists them
   * rotated by two places, so the two lists differ as arrays.
   */
  lemma ModulesRotated()
    ensures DefaultOptions[Modules].items == FrontendModules.items[2..] + FrontendModules.items[..2]
    ensures FrontendModules != DefaultOptions[Modules]
    ensures multiset(FrontendModules.items) == multiset(DefaultOptions[Modules].items)
  {
    var f := FrontendModules.items;
    var d := DefaultOptions[Modules].items;
    assert d == f[2..] + f[..2] by {
      assert DefaultOptions[Modules] == DefaultValue(Modules);
    }
    RotationKeepsElements(f, 2);
    assert f[0] != d[0] by {
      assert |f[0].s| == 10 && |d[0].s| == 8;
    }
  }

  /** Rotating a list keeps its elements. */
  lemma RotationKeepsElements<T>(xs: seq<T>, n: nat)
    requires n <= |xs|
    ensures multiset(xs[n..] + xs[..n]) == multiset(xs)
  {
    assert xs == xs[..n] + xs[n..];
  }

}
