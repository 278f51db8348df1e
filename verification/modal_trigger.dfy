/**
 * The reusable modal trigger component: a switch over the trigger type that
 * draws a text, icon, image or button trigger whose click calls `onOpen`,
 * inside a wrapper classed by the type.
 */
module ModalTrigger {
  import opened Js
  import opened ModalAttrs

  /** The component's props; `kind` is the `type` prop. */
  datatype Props = Props(
    triggerText: string,
    kind: string,
    icon: Option<string>,
    imageUrl: Option<string>,
    imageAltText: Option<string>,
    buttonIcon: Option<ButtonIcon>,
    buttonIconPosition: Option<string>,
    buttonText: Option<string>,
    size: Option<string>,
    buttonStyle: Option<string>)

  /** The callback a trigger's click invokes. */
  datatype Action = OnOpen

  /** The element the switch returns. */
  datatype Trigger =
    | TextEl(value: string, onClick: Action)
    | IconEl(name: Option<string>, onClick: Action)
    | ImageEl(src: string, alt: Option<string>, onClick: Action)
    | ButtonEl(classes: seq<string>, iconBefore: bool, text: string, iconAfter: bool,
               iconName: Option<string>, onClick: Action)

  /** The rendered component: wrapper classes and the trigger inside. */
  datatype Rendered = Rendered(wrapperClasses: seq<string>, trigger: Trigger)

  /** `"" !== buttonIcon?.icon && buttonIcon?.enable && "before" === position`, with optional chaining. */
  predicate BeforeGate(p: Props) {
    var icon := if p.buttonIcon.Some? then p.buttonIcon.value.icon else None;
    var enable := if p.buttonIcon.Some? then p.buttonIcon.value.enable else None;
    icon != Some("") && IsTrue(enable) && p.buttonIconPosition == Some("before")
  }

  /** `buttonIcon && "" !== buttonIcon.icon && buttonIcon.enable && "after" === position`. */
  predicate AfterGate(p: Props) {
    IconShown(p.buttonIcon, p.buttonIconPosition, "after")
  }

  /** `cn("blockart-button", size && is-<size>, buttonStyle && is-style-<style>)`. */
  function TriggerButtonClasses(size: Option<string>, buttonStyle: Option<string>): (cls: seq<string>)
    ensures |cls| == 1 + (if Truthy(size) then 1 else 0) + (if Truthy(buttonStyle) then 1 else 0)
    ensures cls[0] == "blockart-button"
    ensures Truthy(size) ==> cls[1] == "is-" + size.value
    ensures Truthy(buttonStyle) ==> cls[|cls| - 1] == "is-style-" + buttonStyle.value
  {
    ["blockart-button"]
    + (if Truthy(size) then ["is-" + size.value] else [])
    + (if Truthy(buttonStyle) then ["is-style-" + buttonStyle.value] else [])
  }

  /** The `Trigger` switch. */
  function TriggerFor(p: Props): (t: Trigger)
    ensures t.onClick == OnOpen
    ensures p.kind == "text" <==> t.TextEl?
    ensures p.kind == "icon" <==> t.IconEl?
    ensures p.kind == "image" <==> t.ImageEl?
    ensures p.kind !in {"text", "icon", "image"} <==> t.ButtonEl?
    ensures t.ImageEl? ==> t.src == (if p.imageUrl.None? then PlaceholderImage else p.imageUrl.value)
    ensures t.ButtonEl? ==>
      && t.text == (if p.buttonText.Some? then p.buttonText.value else "")
      && !(t.iconBefore && t.iconAfter)
  {
    if p.kind == "text" then TextEl(p.triggerText, OnOpen)
    else if p.kind == "icon" then IconEl(p.icon, OnOpen)
    else if p.kind == "image" then
      ImageEl(if p.imageUrl.None? then PlaceholderImage else p.imageUrl.value, p.imageAltText, OnOpen)
    else
      var name := if p.buttonIcon.Some? then p.buttonIcon.value.icon else None;
      ButtonEl(TriggerButtonClasses(p.size, p.buttonStyle), BeforeGate(p),
               if p.buttonText.Some? then p.buttonText.value else "", AfterGate(p), name, OnOpen)
  }

  /** The component: the wrapper is always classed by the trigger type. */
  function Render(p: Props): (r: Rendered)
    ensures r.wrapperClasses == ["blockart-modal-trigger", "blockart-modal-trigger-" + p.kind]
    ensures r.trigger == TriggerFor(p)
  {
    Rendered(["blockart-modal-trigger", "blockart-modal-trigger-" + p.kind], TriggerFor(p))
  }

  /**
   * The component's icon gates are the block's: the icon goes before the label
   * iff it is present, non-empty, enabled and positioned "before" (likewise
   * after), whether or not `buttonIcon` itself is set.
   */
  lemma GatesMatchBlockRule(p: Props)
    ensures BeforeGate(p) <==> IconShown(p.buttonIcon, p.buttonIconPosition, "before")
    ensures AfterGate(p) <==> IconShown(p.buttonIcon, p.buttonIconPosition, "after")
    ensures Render(p).trigger.ButtonEl? ==>
              Placement(p.buttonIcon, p.buttonIconPosition).BeforeLabel? == Render(p).trigger.iconBefore
              && Placement(p.buttonIcon, p.buttonIconPosition).AfterLabel? == Render(p).trigger.iconAfter
  {
  }

  /**
   * Unlike the block, the component adds `is-<size>` for every style: the
   * two class rules agree exactly when the style is filled or outline.
   */
  lemma SizeClassIgnoresStyle(size: Option<string>, style: Option<string>)
    requires Truthy(size)
    ensures "is-" + size.value == TriggerButtonClasses(size, style)[1]
    ensures SizeClassApplies(size, style) <==> style == Some("filled") || style == Some("outline")
    ensures !SizeClassApplies(size, style) ==>
              |ButtonClasses(size, style)| < |TriggerButtonClasses(size, style)|
  {
  }
}
