/**
 * The modal block's editor component: what it renders for a set of
 * attributes and an open/closed state, and the two-state visibility machine
 * its click and key handlers drive.
 */
module ModalEdit {
  import opened Js
  import opened ModalAttrs

  /** The editor's visibility state (`isModalOpen`). */
  datatype Visibility = Closed | Open

  /** `useState(false)`: every editor instance starts closed. */
  function Initial(): (s: Visibility)
    ensures s == Closed && s != Open
  {
    Closed
  }

  /** One trigger variant as the editor draws it. */
  datatype TriggerView =
    | TextView(classes: seq<string>, text: Option<string>)
    | IconView(classes: seq<string>, glyph: IconElem)
    | ImageView(classes: seq<string>, src: string, alt: string)
    | ButtonView(classes: seq<string>, buttonClasses: seq<string>,
                 placement: IconPlacement, text: Option<string>)

  /** The close affordance inside the popup. */
  datatype CloseView = CloseView(classes: seq<string>, glyph: IconElem)

  /** Everything the editor view decides from the attributes and the state. */
  datatype EditorView = EditorView(
    wrapperClasses: seq<string>,
    escData: string,
    overlayData: string,
    triggers: seq<TriggerView>,
    popupClasses: seq<string>,
    close: Option<CloseView>)

  /** The image trigger's source: the computed URL when truthy, else the placeholder. */
  function EditorImageSrc(a: Attributes): (src: string)
    ensures src != ""
    ensures Truthy(ImageUrl(a.image, a.imageSize)) ==> src == ImageUrl(a.image, a.imageSize).value
    ensures !Truthy(ImageUrl(a.image, a.imageSize)) ==> src == PlaceholderImage
  {
    var url := ImageUrl(a.image, a.imageSize);
    if Truthy(url) then url.value else PlaceholderImage
  }

  /** The editor's alt text comes from `image.alt`, defaulting to "". */
  function EditorImageAlt(a: Attributes): (alt: string)
    ensures a.image.Some? && Truthy(a.image.value.alt) ==> alt == a.image.value.alt.value
    ensures !(a.image.Some? && Truthy(a.image.value.alt)) ==> alt == ""
  {
    AltOrEmpty(a.image)
  }

  /** The four independent `modalTrigger === ...` branches of the editor view, in source order. */
  function EditorTriggers(a: Attributes): seq<TriggerView> {
    var triggerClasses := WithTypography(["mzb-modal-trigger"], a.typographyClass);
    var buttonWrapper :=
      WithTypography(["mzb-button", "mzb-button-wrapper", "mzb-modal-trigger"], a.typographyClass);
    (if a.modalTrigger == Some("text") then [TextView(triggerClasses, a.triggerText)] else [])
    + (if a.modalTrigger == Some("icon") then [IconView(triggerClasses, IconFor(a.icon))] else [])
    + (if a.modalTrigger == Some("image")
       then [ImageView(triggerClasses, EditorImageSrc(a), EditorImageAlt(a))] else [])
    + (if a.modalTrigger == Some("button")
       then [ButtonView(buttonWrapper, ButtonClasses(a.size, a.style),
                        Placement(a.buttonIcon, a.tButtonIconPosition), a.buttonText)]
       else [])
  }

  /** The close element, present only for the four named positions. */
  function EditorClose(a: Attributes): (c: Option<CloseView>)
    ensures c.Some? <==> HasCloseAffordance(a.closeIconPosition)
    ensures c.Some? ==>
      && c.value.classes == ["mzb-modal-popup-close", a.closeIconPosition.value]
      && c.value.glyph == IconFor(a.closeIcon)
  {
    if HasCloseAffordance(a.closeIconPosition) then
      Some(CloseView(["mzb-modal-popup-close", a.closeIconPosition.value], IconFor(a.closeIcon)))
    else None
  }

  /** The editor view for attributes `a`, device type `device` (already lower-cased) and state `s`. */
  function View(a: Attributes, device: string, s: Visibility): (v: EditorView)
    ensures ("modal-open" in v.wrapperClasses) <==> s == Open
    ensures ("active" in v.popupClasses) <==> s == Open
    ensures PopupId(a.clientId) in v.wrapperClasses
    ensures v.escData == (if a.escPress then "enable" else "disable")
    ensures v.overlayData == (if a.overlayClick then "enable" else "disable")
    ensures v.close.Some? <==> HasCloseAffordance(a.closeIconPosition)
  {
    var open := if s == Open then ["modal-open"] else [];
    var active := if s == Open then ["active"] else [];
    // No prefixed class can be "modal-open" or "active": their second (or first) characters differ.
    assert ("mzb-editor-preview-mode-" + device)[1] == 'z' && ("mzb-modal-" + a.clientId)[1] == 'z';
    assert ("mzb-block-" + a.clientId)[0] == 'm';
    EditorView(
      ["mzb-editor-preview-mode-" + device, "mzb-modal-" + a.clientId, "mzb-modal-wrapper"] + open,
      if a.escPress then "enable" else "disable",
      if a.overlayClick then "enable" else "disable",
      EditorTriggers(a),
      ["mzb-modal-popup", "mzb-block-" + a.clientId] + active,
      EditorClose(a))
  }

  /** The editor draws exactly one trigger for each of the four variants and none otherwise. */
  lemma EditorTriggerMatchesKind(a: Attributes)
    ensures |EditorTriggers(a)| == (if KindOf(a.modalTrigger).Some? then 1 else 0)
    ensures KindOf(a.modalTrigger) == Some(TextTrigger) ==> EditorTriggers(a)[0].TextView?
    ensures KindOf(a.modalTrigger) == Some(IconTrigger) ==> EditorTriggers(a)[0].IconView?
    ensures KindOf(a.modalTrigger) == Some(ImageTrigger) ==> EditorTriggers(a)[0].ImageView?
    ensures KindOf(a.modalTrigger) == Some(ButtonTrigger) ==> EditorTriggers(a)[0].ButtonView?
  {
  }

  /** The image trigger never shows an empty source, and falls back to the placeholder. */
  lemma EditorImageFallback(a: Attributes)
    requires a.modalTrigger == Some("image")
    ensures EditorTriggers(a) == [ImageView(WithTypography(["mzb-modal-trigger"], a.typographyClass),
                                            EditorImageSrc(a), EditorImageAlt(a))]
    ensures EditorTriggers(a)[0].src != ""
    ensures a.image.None? ==> EditorTriggers(a)[0].src == PlaceholderImage
    ensures a.image.Some? && a.image.value.url == Some("") ==> EditorTriggers(a)[0].src == PlaceholderImage
  {
  }

  /** The button trigger draws its icon on at most one side, and only when present and enabled. */
  lemma EditorButtonIcon(a: Attributes)
    requires a.modalTrigger == Some("button")
    ensures var p := EditorTriggers(a)[0].placement;
      && (p.BeforeLabel? <==> a.buttonIcon.Some? && a.buttonIcon.value.icon != Some("")
                              && IsTrue(a.buttonIcon.value.enable) && a.tButtonIconPosition == Some("before"))
      && (p.AfterLabel? <==> a.buttonIcon.Some? && a.buttonIcon.value.icon != Some("")
                             && IsTrue(a.buttonIcon.value.enable) && a.tButtonIconPosition == Some("after"))
  {
    assert EditorTriggers(a)[0] == ButtonView(
      WithTypography(["mzb-button", "mzb-button-wrapper", "mzb-modal-trigger"], a.typographyClass),
      ButtonClasses(a.size, a.style), Placement(a.buttonIcon, a.tButtonIconPosition), a.buttonText);
  }

  // ---------------------------------------------------------------------------
  // The visibility machine
  // ---------------------------------------------------------------------------

  /** The events that reach the editor's handlers. */
  datatype Event =
    | TriggerClick                          // click on the rendered trigger
    | CloseClick                            // click on the close element
    | KeyDown(key: string)                  // document keydown
    | DocumentClick(targetClasses: seq<string>) // document click, with the target's class list

  /** An event that sets the state to Open under attributes `a`. */
  predicate Opens(a: Attributes, e: Event) {
    e.TriggerClick? && KindOf(a.modalTrigger).Some?
  }

  /** An event that sets the state to Closed under attributes `a`. */
  predicate Closes(a: Attributes, e: Event) {
    match e
    case TriggerClick => false
    case CloseClick => HasCloseAffordance(a.closeIconPosition)
    case KeyDown(k) => a.escPress && k == "Escape"
    case DocumentClick(cls) => a.overlayClick && "mzb-modal-popup" in cls
  }

  /**
   * One transition. A click on a trigger or close element that the view does
   * not draw cannot happen, so it is modelled as leaving the state alone.
   */
  function Step(a: Attributes, s: Visibility, e: Event): (r: Visibility)
    ensures e.TriggerClick? && KindOf(a.modalTrigger).Some? ==> r == Open
    ensures e.CloseClick? && HasCloseAffordance(a.closeIconPosition) ==> r == Closed
    ensures e.KeyDown? ==> (r == Closed <==> s == Closed || (a.escPress && e.key == "Escape"))
    ensures e.DocumentClick? ==>
      (r == Closed <==> s == Closed || (a.overlayClick && "mzb-modal-popup" in e.targetClasses))
    ensures !Opens(a, e) && !Closes(a, e) ==> r == s
  {
    match e
    case TriggerClick => if KindOf(a.modalTrigger).Some? then Open else s
    case CloseClick => if HasCloseAffordance(a.closeIconPosition) then Closed else s
    case KeyDown(k) => if a.escPress && k == "Escape" then Closed else s
    case DocumentClick(cls) => if a.overlayClick && "mzb-modal-popup" in cls then Closed else s
  }

  /** The state after feeding the events, oldest first, starting from `s`. */
  function Run(a: Attributes, s: Visibility, events: seq<Event>): Visibility
    decreases |events|
  {
    if |events| == 0 then s
    else Step(a, Run(a, s, events[..|events| - 1]), events[|events| - 1])
  }

  /** No event from index `from` on closes the modal. */
  predicate NoCloseFrom(a: Attributes, events: seq<Event>, from: int) {
    forall j :: 0 <= j < |events| && from <= j ==> !Closes(a, events[j])
  }

  /**
   * After any trace the modal is open exactly when some opening event is
   * followed by no closing one, or it started open and nothing closed it.
   */
  lemma {:induction false} RunOpenIff(a: Attributes, s: Visibility, events: seq<Event>)
    ensures Run(a, s, events) == Open <==>
      (exists i :: 0 <= i < |events| && Opens(a, events[i]) && NoCloseFrom(a, events, i + 1))
      || (s == Open && NoCloseFrom(a, events, 0))
    decreases |events|
  {
    if |events| > 0 {
      var n := |events| - 1;
      var prefix := events[..n];
      var e := events[n];
      RunOpenIff(a, s, prefix);
      assert forall j :: 0 <= j < n ==> prefix[j] == events[j];
      if Opens(a, e) {
        assert NoCloseFrom(a, events, n + 1);
      } else if Closes(a, e) {
        assert !NoCloseFrom(a, events, 0);
        forall i | 0 <= i < |events| && Opens(a, events[i])
          ensures !NoCloseFrom(a, events, i + 1)
        {
          assert i != n;
        }
      } else {
        if exists i :: 0 <= i < n && Opens(a, prefix[i]) && NoCloseFrom(a, prefix, i + 1) {
          var i :| 0 <= i < n && Opens(a, prefix[i]) && NoCloseFrom(a, prefix, i + 1);
          assert NoCloseFrom(a, events, i + 1);
        }
        if exists i :: 0 <= i < |events| && Opens(a, events[i]) && NoCloseFrom(a, events, i + 1) {
          var i :| 0 <= i < |events| && Opens(a, events[i]) && NoCloseFrom(a, events, i + 1);
          assert i != n;
          assert Opens(a, prefix[i]) && NoCloseFrom(a, prefix, i + 1);
        }
      }
    }
  }

  /** From the initial state, a trace without a trigger click never opens the modal. */
  lemma StaysClosedWithoutTrigger(a: Attributes, events: seq<Event>)
    requires forall i :: 0 <= i < |events| ==> !events[i].TriggerClick?
    ensures Run(a, Initial(), events) == Closed
  {
    RunOpenIff(a, Initial(), events);
  }

  /** Whatever the policy flags, a trigger click as the last event leaves the modal open. */
  lemma TriggerClickAlwaysOpens(a: Attributes, events: seq<Event>)
    requires KindOf(a.modalTrigger).Some?
    ensures Run(a, Initial(), events + [TriggerClick]) == Open
  {
    assert (events + [TriggerClick])[..|events|] == events;
  }

  /** With `escPress` off, no number of Escape presses closes an open modal. */
  lemma EscapeIgnoredWhenDisabled(a: Attributes, n: nat)
    requires !a.escPress
    ensures Run(a, Open, seq(n, _ => KeyDown("Escape"))) == Open
  {
    var events := seq(n, _ => KeyDown("Escape"));
    RunOpenIff(a, Open, events);
    assert NoCloseFrom(a, events, 0);
  }
}
