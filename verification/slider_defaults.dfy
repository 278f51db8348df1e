/**
 * The editor slider's `initSlider`: the Swiper parameters are the default
 * options with the caller's options spread over them. Options are JavaScript
 * objects, modelled as maps from option name to value; Swiper's modules are
 * named by strings.
 */
module SliderDefaults {
  import opened Js

  /** The names of Swiper options: those the block sets, and any other. */
  datatype OptionName =
    | Modules | Loop | SlidesPerView | SpaceBetween | Speed | Autoplay
    | Navigation | Pagination | Keyboard | GrabCursor | SimulateTouch | CreateElements
    | Other(name: string)

  /** The property names of the twelve options the block sets. */
  const KnownNames: set<string> := {
    "modules", "loop", "slidesPerView", "spaceBetween", "speed", "autoplay",
    "navigation", "pagination", "keyboard", "grabCursor", "simulateTouch", "createElements"
  }

  /**
   * An option key. `Other` never carries one of the twelve known names, so
   * every property has exactly one key and a caller's `loop` is `Loop`.
   */
  type OptionKey = k: OptionName | !k.Other? || UnknownName(k.name) witness Modules

  /** A property name that is not one of the twelve. */
  predicate UnknownName(name: string) {
    name !in KnownNames
  }

  /** The key of the object property named `name`. */
  function KeyOf(name: string): (k: OptionKey)
    ensures k.Other? <==> name !in KnownNames
    ensures k.Other? ==> k.name == name
  {
    if name == "modules" then Modules
    else if name == "loop" then Loop
    else if name == "slidesPerView" then SlidesPerView
    else if name == "spaceBetween" then SpaceBetween
    else if name == "speed" then Speed
    else if name == "autoplay" then Autoplay
    else if name == "navigation" then Navigation
    else if name == "pagination" then Pagination
    else if name == "keyboard" then Keyboard
    else if name == "grabCursor" then GrabCursor
    else if name == "simulateTouch" then SimulateTouch
    else if name == "createElements" then CreateElements
    else Other(name)
  }

  /** Distinct property names have distinct keys. */
  lemma KeyOfInjective(n1: string, n2: string)
    ensures KeyOf(n1) == KeyOf(n2) ==> n1 == n2
  {
  }

  /** A Swiper options object. */
  type Options = map<OptionKey, Value>

  /** The option keys `DEFAULT_OPTIONS` sets. */
  const OptionKeys: set<OptionKey> := {
    Modules, Loop, SlidesPerView, SpaceBetween, Speed, Autoplay, Navigation,
    Pagination, Keyboard, GrabCursor, SimulateTouch, CreateElements
  }

  /** The default autoplay object: advance every 5000 ms. */
  const AutoplayEvery5s: Value := Obj(map["delay" := Num(5000)])

  /** The keyboard object that turns keyboard control on. */
  const KeyboardEnabled: Value := Obj(map["enabled" := Bool(true)])

  /** The value `DEFAULT_OPTIONS` gives each of its keys. */
  function DefaultValue(k: OptionKey): Value {
    match k
    case Modules => Arr([Str("Autoplay"), Str("Keyboard"), Str("Navigation"), Str("Pagination")])
    case Loop => Bool(true)
    case SlidesPerView => Num(1)
    case SpaceBetween => Num(20)
    case Speed => Num(500)
    case Autoplay => AutoplayEvery5s
    case Navigation => Bool(true)
    case Pagination => Bool(true)
    case Keyboard => KeyboardEnabled
    case GrabCursor => Bool(false)
    case SimulateTouch => Bool(false)
    case CreateElements => Bool(true)
    case Other(_) => Undefined
  }

  /** `DEFAULT_OPTIONS`. */
  const DefaultOptions: Options := map k | k in OptionKeys :: DefaultValue(k)

  /**
   * `{ ...DEFAULT_OPTIONS, ...(options ?? {}) }`: `None` stands for an
   * undefined or null `options`. Every own property of `options` wins,
   * including one whose value is `undefined`.
   */
  function Params(options: Option<Options>): (p: Options)
    ensures p.Keys == DefaultOptions.Keys + (if options.Some? then options.value.Keys else {})
    ensures options.Some? ==> forall k :: k in options.value ==> p[k] == options.value[k]
    ensures forall k :: k in DefaultOptions && (options.None? || k !in options.value) ==>
      p[k] == DefaultOptions[k]
  {
    var spread := if options.Some? then options.value else map[];
    DefaultOptions + spread
  }

  /** A caller's `{ loop: false }` turns looping off: the spread overrides the default under the same key. */
  lemma CallerLoopOverrides()
    ensures Params(Some(map[KeyOf("loop") := Bool(false)]))[Loop] == Bool(false)
    ensures Params(Some(map[KeyOf("loop") := Bool(false)])).Keys == DefaultOptions.Keys
  {
    assert KeyOf("loop") == Loop;
  }

  /** With no options the parameters are exactly the defaults. */
  lemma NoOptionsGivesDefaults()
    ensures Params(None) == DefaultOptions
    ensures Params(Some(map[])) == DefaultOptions
  {
  }

  /**
   * The merge is shallow: overriding `autoplay` replaces the whole object, so
   * the default delay is lost when the caller gives `{ autoplay: {} }`.
   */
  lemma ShallowMerge(inner: map<string, Value>)
    ensures Params(Some(map[Autoplay := Obj(inner)]))[Autoplay] == Obj(inner)
    ensures "delay" !in inner ==>
      Get(Params(Some(map[Autoplay := Obj(inner)]))[Autoplay].fields, "delay") == Undefined
  {
  }

  /** Spreading `over` onto `base` and then `later` onto the result is spreading `over + later` once. */
  lemma SpreadTwice(base: Options, over: Options, later: Options)
    ensures base + (base + over + later) == base + (over + later)
  {
    var lhs := base + (base + over + later);
    var rhs := base + (over + later);
    assert lhs.Keys == rhs.Keys;
    forall k | k in lhs
      ensures lhs[k] == rhs[k]
    {
    }
  }

  /** Spreading twice is the same as spreading the later options over the earlier ones. */
  lemma ParamsOfParams(o1: Options, o2: Options)
    ensures Params(Some(Params(Some(o1)) + o2)) == Params(Some(o1 + o2))
  {
    SpreadTwice(DefaultOptions, o1, o2);
  }

  /** The defaults turn navigation, pagination and the arrow elements on, with a 5000 ms autoplay. */
  lemma DefaultsEnableControls()
    ensures IsTruthy(DefaultOptions[Navigation])
    ensures IsTruthy(DefaultOptions[Pagination])
    ensures IsTruthy(DefaultOptions[CreateElements])
    ensures DefaultOptions[Autoplay] == AutoplayEvery5s
    ensures Get(DefaultOptions[Autoplay].fields, "delay") == Num(5000)
    ensures |DefaultOptions[Modules].items| == 4
  {
  }
}
