/**
 * The modal block's attributes and the values the editor view and the saved
 * markup both derive from them: the trigger variant, the image URL, the
 * button classes, the button-icon placement and the close affordance.
 */
module ModalAttrs {
  import opened Js

  /** The bundled placeholder asset shown in the editor for a missing image. */
  const PlaceholderImage: string := "images/placeholder.png"

  /** One entry of `image.sizes`; its `url` may itself be missing. */
  datatype SizeEntry = SizeEntry(url: Option<string>)

  /** The `image` / `iconImage` attribute objects. */
  datatype ImageAttr = ImageAttr(
    url: Option<string>,
    alt: Option<string>,
    sizes: Option<map<string, SizeEntry>>)

  /** The `buttonIcon` attribute object. */
  datatype ButtonIcon = ButtonIcon(icon: Option<string>, enable: Option<bool>)

  /** The attributes of one modal block instance (`None` = attribute unset). */
  datatype Attributes = Attributes(
    clientId: string,
    modalTrigger: Option<string>,
    triggerText: Option<string>,
    icon: Option<string>,
    iconImage: Option<ImageAttr>,
    image: Option<ImageAttr>,
    imageSize: Option<string>,
    buttonText: Option<string>,
    buttonIcon: Option<ButtonIcon>,
    size: Option<string>,
    style: Option<string>,
    tButtonIconPosition: Option<string>,
    closeIconPosition: Option<string>,
    closeIcon: Option<string>,
    typographyClass: Option<string>,
    escPress: bool,
    overlayClick: bool)

  /** The four trigger variants the block knows. */
  datatype TriggerKind = TextTrigger | IconTrigger | ImageTrigger | ButtonTrigger

  /** The variant a `modalTrigger` value selects; any other value selects none. */
  function KindOf(modalTrigger: Option<string>): (k: Option<TriggerKind>)
    ensures k == Some(TextTrigger) <==> modalTrigger == Some("text")
    ensures k == Some(IconTrigger) <==> modalTrigger == Some("icon")
    ensures k == Some(ImageTrigger) <==> modalTrigger == Some("image")
    ensures k == Some(ButtonTrigger) <==> modalTrigger == Some("button")
  {
    if modalTrigger == Some("text") then Some(TextTrigger)
    else if modalTrigger == Some("icon") then Some(IconTrigger)
    else if modalTrigger == Some("image") then Some(ImageTrigger)
    else if modalTrigger == Some("button") then Some(ButtonTrigger)
    else None
  }

  /** The id shared by the saved popup and every saved trigger. */
  function PopupId(clientId: string): (id: string)
    ensures |id| == |"mzb-modal-"| + |clientId|
    ensures id[..|"mzb-modal-"|] == "mzb-modal-" && id[|"mzb-modal-"|..] == clientId
  {
    "mzb-modal-" + clientId
  }

  /** Property key used for `sizes[imageSize]`: an unset size reads key "undefined". */
  function SizeKey(imageSize: Option<string>): string {
    if imageSize.Some? then imageSize.value else "undefined"
  }

  /**
   * The image URL both renderers compute. It starts as "", becomes `image.url`
   * when that is truthy, and is then replaced by `sizes[imageSize].url` when
   * that entry exists (even when the entry's own `url` is unset).
   */
  function ImageUrl(image: Option<ImageAttr>, imageSize: Option<string>): (url: Option<string>)
    ensures image.None? || !Truthy(image.value.url) ==> url == Some("")
    ensures image.Some? && Truthy(image.value.url) && image.value.sizes.Some?
            && SizeKey(imageSize) in image.value.sizes.value
            ==> url == image.value.sizes.value[SizeKey(imageSize)].url
    ensures image.Some? && Truthy(image.value.url)
            && (image.value.sizes.None? || SizeKey(imageSize) !in image.value.sizes.value)
            ==> url == image.value.url
  {
    if image.Some? && Truthy(image.value.url) then
      var sizes := image.value.sizes;
      var key := SizeKey(imageSize);
      if sizes.Some? && key in sizes.value then sizes.value[key].url
      else image.value.url
    else Some("")
  }

  /** `x ? x : ""` on an optional alt text. */
  function AltOrEmpty(img: Option<ImageAttr>): (alt: string)
    ensures img.Some? && Truthy(img.value.alt) ==> alt == img.value.alt.value
    ensures !(img.Some? && Truthy(img.value.alt)) ==> alt == ""
  {
    if img.Some? && Truthy(img.value.alt) then img.value.alt.value else ""
  }

  /** `size && ("filled" === style || "outline" === style)`. */
  predicate SizeClassApplies(size: Option<string>, style: Option<string>) {
    Truthy(size) && (style == Some("filled") || style == Some("outline"))
  }

  /**
   * The button's class list: always `mzb-button-link`; `is-<size>` only for a
   * filled or outline style; `is-style-<style>` whenever a style is set.
   */
  function ButtonClasses(size: Option<string>, style: Option<string>): (cls: seq<string>)
    ensures |cls| == 1 + (if SizeClassApplies(size, style) then 1 else 0)
                       + (if Truthy(style) then 1 else 0)
    ensures cls[0] == "mzb-button-link"
    ensures SizeClassApplies(size, style) ==> cls[1] == "is-" + size.value
    ensures Truthy(style) ==> cls[|cls| - 1] == "is-style-" + style.value
  {
    var sizeClass := if SizeClassApplies(size, style) then ["is-" + size.value] else [];
    var styleClass := if Truthy(style) then ["is-style-" + style.value] else [];
    ["mzb-button-link"] + sizeClass + styleClass
  }

  /** Where the button icon is drawn, relative to the label. */
  datatype IconPlacement = NoIcon | BeforeLabel(name: Option<string>) | AfterLabel(name: Option<string>)

  /** The editor's and save's gate `buttonIcon && "" !== buttonIcon.icon && buttonIcon.enable && pos === which`. */
  predicate IconShown(buttonIcon: Option<ButtonIcon>, position: Option<string>, which: string) {
    && buttonIcon.Some?
    && buttonIcon.value.icon != Some("")
    && IsTrue(buttonIcon.value.enable)
    && position == Some(which)
  }

  /** The icon placement: before the label, after it, or not at all. */
  function Placement(buttonIcon: Option<ButtonIcon>, position: Option<string>): (p: IconPlacement)
    ensures p.BeforeLabel? <==> IconShown(buttonIcon, position, "before")
    ensures p.AfterLabel? <==> IconShown(buttonIcon, position, "after")
    ensures !p.NoIcon? ==> p.name == buttonIcon.value.icon
  {
    if IconShown(buttonIcon, position, "before") then BeforeLabel(buttonIcon.value.icon)
    else if IconShown(buttonIcon, position, "after") then AfterLabel(buttonIcon.value.icon)
    else NoIcon
  }

  /** An `<Icon>` element, as `"" !== name && <Icon name={name || {}} />` renders it. */
  datatype IconElem = NoGlyph | Glyph(name: string) | EmptyGlyph

  function IconFor(name: Option<string>): (e: IconElem)
    ensures e.NoGlyph? <==> name == Some("")
    ensures e.Glyph? <==> Truthy(name)
    ensures e.Glyph? ==> e.name == name.value
  {
    if name == Some("") then NoGlyph
    else if name.Some? then Glyph(name.value)
    else EmptyGlyph
  }

  /** The four close-icon positions that produce a close element. */
  predicate HasCloseAffordance(closeIconPosition: Option<string>) {
    closeIconPosition in {Some("window-top-left"), Some("window-top-right"),
                          Some("popup-top-left"), Some("popup-top-right")}
  }

  /** `cn(base, typography?._className)`: the typography class is appended only when truthy. */
  function WithTypography(base: seq<string>, typographyClass: Option<string>): (cls: seq<string>)
    ensures |cls| == |base| + (if Truthy(typographyClass) then 1 else 0)
    ensures cls[..|base|] == base
    ensures Truthy(typographyClass) ==> cls[|base|] == typographyClass.value
  {
    if Truthy(typographyClass) then base + [typographyClass.value] else base
  }
}
