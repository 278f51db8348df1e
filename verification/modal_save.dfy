/**
 * The modal block's persisted markup. Saving produces a static tree with no
 * script state: every trigger names the popup through
 * `data-micromodal-trigger`, the popup carries that value as its `id`, and
 * elements marked `data-micromodal-close` close it once the frontend modal
 * library binds to the page.
 */
module ModalSave {
  import opened Js
  import opened ModalAttrs
  import ModalEdit

  /** An attribute value: a string, or a bare boolean attribute. */
  datatype AttrValue = Text(s: string) | Flag

  /** A node of the saved markup. Editor components appear as leaves. */
  datatype Node =
    | Element(tag: string, classes: seq<string>, attrs: map<string, AttrValue>, children: seq<Node>)
    | RichTextContent(tag: string, className: Option<string>, value: Option<string>)
    | IconNode(name: Option<string>, frontendIcon: bool)
    | InnerBlocksContent

  const TriggerAttr: string := "data-micromodal-trigger"
  const CloseAttr: string := "data-micromodal-close"

  /** The three attribute names the pairing lemmas track are distinct. */
  lemma AttrNamesDistinct()
    ensures TriggerAttr != "id" && CloseAttr != "id" && TriggerAttr != CloseAttr
  {
    assert |TriggerAttr| == 23 && |CloseAttr| == 21 && |"id"| == 2;
  }

  /** The values attribute `key` takes across the tree, in document order. */
  function AttrValues(n: Node, key: string): seq<AttrValue>
    decreases n, 1
  {
    match n
    case Element(_, _, attrs, children) =>
      (if key in attrs then [attrs[key]] else []) + AttrValuesIn(children, key)
    case _ => []
  }

  function AttrValuesIn(ns: seq<Node>, key: string): seq<AttrValue>
    decreases ns, 0
  {
    if |ns| == 0 then [] else AttrValues(ns[0], key) + AttrValuesIn(ns[1..], key)
  }

  lemma {:induction false} AttrValuesInAppend(xs: seq<Node>, ys: seq<Node>, key: string)
    ensures AttrValuesIn(xs + ys, key) == AttrValuesIn(xs, key) + AttrValuesIn(ys, key)
    decreases |xs|
  {
    if |xs| > 0 {
      assert (xs + ys)[1..] == xs[1..] + ys;
      AttrValuesInAppend(xs[1..], ys, key);
    } else {
      assert xs + ys == ys;
    }
  }

  lemma AttrValuesInSingle(n: Node, key: string)
    ensures AttrValuesIn([n], key) == AttrValues(n, key)
  {
    assert [n][1..] == [];
  }

  /** An `<Icon name={name || {}} />` guarded by `"" !== name`. */
  function IconChildren(name: Option<string>): seq<Node> {
    match IconFor(name)
    case NoGlyph => []
    case Glyph(g) => [IconNode(Some(g), false)]
    case EmptyGlyph => [IconNode(None, false)]
  }

  /** The `<img>` of the image trigger: `src` is left out when the URL is undefined. */
  function SavedImage(a: Attributes): (n: Node)
    ensures n.Element? && n.tag == "img" && n.children == []
    ensures "src" in n.attrs <==> ImageUrl(a.image, a.imageSize).Some?
    ensures "src" in n.attrs ==> n.attrs["src"] == Text(ImageUrl(a.image, a.imageSize).value)
    ensures "alt" in n.attrs && n.attrs["alt"] == Text(AltOrEmpty(a.iconImage))
    ensures n.attrs.Keys <= {"src", "alt"}
  {
    var url := ImageUrl(a.image, a.imageSize);
    var alt := map["alt" := Text(AltOrEmpty(a.iconImage))];
    Element("img", [], if url.Some? then alt["src" := Text(url.value)] else alt, [])
  }

  /** The saved image carries none of the tracked attributes. */
  lemma SavedImageHasNoTrackedAttrs(a: Attributes, key: string)
    requires key == TriggerAttr || key == "id" || key == CloseAttr
    ensures AttrValues(SavedImage(a), key) == []
  {
    assert |key| != 3;
    assert key !in SavedImage(a).attrs;
  }

  /** The button's children: optional icon, text, optional icon. */
  function ButtonChildren(a: Attributes): (ns: seq<Node>)
    ensures var p := Placement(a.buttonIcon, a.tButtonIconPosition);
      && |ns| == (if p.NoIcon? then 1 else 2)
      && ns[if p.BeforeLabel? then 1 else 0] == RichTextContent("span", Some("mzb-inline-editing"), a.buttonText)
      && (p.BeforeLabel? ==> ns[0] == Element("span", ["mzb-button-icon"], map[], [IconNode(p.name, true)]))
      && (p.AfterLabel? ==> ns[1] == Element("span", ["mzb-button-icon"], map[], [IconNode(p.name, true)]))
  {
    var p := Placement(a.buttonIcon, a.tButtonIconPosition);
    var icon := if p.NoIcon? then [] else [Element("span", ["mzb-button-icon"], map[], [IconNode(p.name, true)])];
    (if p.BeforeLabel? then icon else [])
    + [RichTextContent("span", Some("mzb-inline-editing"), a.buttonText)]
    + (if p.AfterLabel? then icon else [])
  }

  /** The four independent `modalTrigger === ...` branches, in source order. */
  function SavedTriggers(a: Attributes): seq<Node> {
    var id := map[TriggerAttr := Text(PopupId(a.clientId))];
    var cls := WithTypography(["mzb-modal-trigger"], a.typographyClass);
    (if a.modalTrigger == Some("text")
     then [Element("div", cls, id, [RichTextContent("span", None, a.triggerText)])] else [])
    + (if a.modalTrigger == Some("icon") then [Element("div", cls, id, IconChildren(a.icon))] else [])
    + (if a.modalTrigger == Some("image") then [Element("div", cls, id, [SavedImage(a)])] else [])
    + (if a.modalTrigger == Some("button")
       then [Element("div",
                     WithTypography(["mzb-button", "mzb-button-wrapper", "mzb-modal-trigger"], a.typographyClass),
                     map[],
                     [Element("button", ButtonClasses(a.size, a.style), id, ButtonChildren(a))])]
       else [])
  }

  /** The close element, emitted only for the four named positions. */
  function SavedClose(a: Attributes): seq<Node> {
    if HasCloseAffordance(a.closeIconPosition) then
      [Element("div", ["mzb-modal-popup-close", a.closeIconPosition.value],
               map[CloseAttr := Flag], IconChildren(a.closeIcon))]
    else []
  }

  /** The popup's wrap: the inner-blocks content, then the close element if any. */
  function SavedWrap(a: Attributes): Node {
    Element("div", ["mzb-modal-popup-wrap"], map[],
            [Element("div", ["mzb-modal-popup-content"], map[], [InnerBlocksContent])] + SavedClose(a))
  }

  /** The popup container, always marked active and hidden until the frontend opens it. */
  function SavedPopup(a: Attributes): (n: Node)
    ensures n.Element? && n.classes == ["mzb-modal-popup", "active"]
    ensures n.attrs == map["id" := Text(PopupId(a.clientId)), "aria-hidden" := Text("true")]
    ensures |n.children| == 1 && n.children[0].Element? && n.children[0].attrs == map[CloseAttr := Flag]
  {
    Element("div", ["mzb-modal-popup", "active"],
            map["id" := Text(PopupId(a.clientId)), "aria-hidden" := Text("true")],
            [Element("div", ["mzb-modal-overlay"], map[CloseAttr := Flag], [SavedWrap(a)])])
  }

  /** The whole saved tree. */
  function Save(a: Attributes): (n: Node)
    ensures n.Element? && n.tag == "div"
    ensures n.classes == ["mzb-modal-wrapper", PopupId(a.clientId)]
    ensures n.children == SavedTriggers(a) + [SavedPopup(a)]
  {
    Element("div", ["mzb-modal-wrapper", "mzb-modal-" + a.clientId], map[], SavedTriggers(a) + [SavedPopup(a)])
  }

  /** The wrapper itself carries no attributes: its values are the triggers' then the popup's. */
  lemma SaveValues(a: Attributes, key: string)
    ensures AttrValues(Save(a), key) == AttrValuesIn(SavedTriggers(a), key) + AttrValues(SavedPopup(a), key)
  {
    AttrValuesInAppend(SavedTriggers(a), [SavedPopup(a)], key);
    AttrValuesInSingle(SavedPopup(a), key);
  }

  lemma ButtonChildrenHaveNoIds(a: Attributes, key: string)
    requires key == TriggerAttr || key == "id" || key == CloseAttr
    ensures AttrValuesIn(ButtonChildren(a), key) == []
  {
    var p := Placement(a.buttonIcon, a.tButtonIconPosition);
    var icon := if p.NoIcon? then [] else [Element("span", ["mzb-button-icon"], map[], [IconNode(p.name, true)])];
    var text := [RichTextContent("span", Some("mzb-inline-editing"), a.buttonText)];
    var before := if p.BeforeLabel? then icon else [];
    var after := if p.AfterLabel? then icon else [];
    AttrValuesInAppend(before + text, after, key);
    AttrValuesInAppend(before, text, key);
    if !p.NoIcon? {
      AttrValuesInSingle(icon[0], key);
      AttrValuesInSingle(IconNode(p.name, true), key);
    }
    AttrValuesInSingle(text[0], key);
  }

  lemma IconChildrenHaveNoAttrs(name: Option<string>, key: string)
    ensures AttrValuesIn(IconChildren(name), key) == []
  {
    if IconChildren(name) != [] {
      AttrValuesInSingle(IconChildren(name)[0], key);
    }
  }

  /** Trigger attribute values across the saved triggers: one per variant, naming the popup. */
  lemma SavedTriggersValues(a: Attributes, key: string)
    requires key == TriggerAttr || key == "id" || key == CloseAttr
    ensures AttrValuesIn(SavedTriggers(a), key)
         == (if key == TriggerAttr && KindOf(a.modalTrigger).Some? then [Text(PopupId(a.clientId))] else [])
  {
    AttrNamesDistinct();
    var pid := Text(PopupId(a.clientId));
    var id := map[TriggerAttr := pid];
    var cls := WithTypography(["mzb-modal-trigger"], a.typographyClass);
    var t1 := if a.modalTrigger == Some("text")
      then [Element("div", cls, id, [RichTextContent("span", None, a.triggerText)])] else [];
    var t2 := if a.modalTrigger == Some("icon") then [Element("div", cls, id, IconChildren(a.icon))] else [];
    var t3 := if a.modalTrigger == Some("image") then [Element("div", cls, id, [SavedImage(a)])] else [];
    var button := Element("button", ButtonClasses(a.size, a.style), id, ButtonChildren(a));
    var t4 := if a.modalTrigger == Some("button")
      then [Element("div",
                    WithTypography(["mzb-button", "mzb-button-wrapper", "mzb-modal-trigger"], a.typographyClass),
                    map[], [button])]
      else [];
    assert SavedTriggers(a) == t1 + t2 + t3 + t4;
    AttrValuesInAppend(t1 + t2 + t3, t4, key);
    AttrValuesInAppend(t1 + t2, t3, key);
    AttrValuesInAppend(t1, t2, key);
    var own := if key == TriggerAttr then [pid] else [];
    assert t1 != [] ==> AttrValuesIn(t1, key) == own by {
      if t1 != [] {
        AttrValuesInSingle(t1[0], key);
        AttrValuesInSingle(RichTextContent("span", None, a.triggerText), key);
      }
    }
    assert t2 != [] ==> AttrValuesIn(t2, key) == own by {
      if t2 != [] {
        AttrValuesInSingle(t2[0], key);
        IconChildrenHaveNoAttrs(a.icon, key);
      }
    }
    assert t3 != [] ==> AttrValuesIn(t3, key) == own by {
      if t3 != [] {
        AttrValuesInSingle(t3[0], key);
        AttrValuesInSingle(SavedImage(a), key);
        SavedImageHasNoTrackedAttrs(a, key);
      }
    }
    assert t4 != [] ==> AttrValuesIn(t4, key) == own by {
      if t4 != [] {
        AttrValuesInSingle(t4[0], key);
        AttrValuesInSingle(button, key);
        ButtonChildrenHaveNoIds(a, key);
      }
    }
  }

  /** Inside the wrap, only the close element carries a tracked attribute. */
  lemma SavedWrapValues(a: Attributes, key: string)
    requires key == TriggerAttr || key == "id" || key == CloseAttr
    ensures AttrValues(SavedWrap(a), key)
         == (if key == CloseAttr && HasCloseAffordance(a.closeIconPosition) then [Flag] else [])
  {
    AttrNamesDistinct();
    var content := Element("div", ["mzb-modal-popup-content"], map[], [InnerBlocksContent]);
    AttrValuesInAppend([content], SavedClose(a), key);
    AttrValuesInSingle(content, key);
    AttrValuesInSingle(InnerBlocksContent, key);
    if SavedClose(a) != [] {
      AttrValuesInSingle(SavedClose(a)[0], key);
      IconChildrenHaveNoAttrs(a.closeIcon, key);
    }
  }

  /** The attribute values inside the popup: its id, and one close marker per close element. */
  lemma SavedPopupValues(a: Attributes)
    ensures AttrValues(SavedPopup(a), TriggerAttr) == []
    ensures AttrValues(SavedPopup(a), "id") == [Text(PopupId(a.clientId))]
    ensures AttrValues(SavedPopup(a), CloseAttr)
         == [Flag] + (if HasCloseAffordance(a.closeIconPosition) then [Flag] else [])
  {
    AttrNamesDistinct();
    var overlay := Element("div", ["mzb-modal-overlay"], map[CloseAttr := Flag], [SavedWrap(a)]);
    assert AttrValues(SavedPopup(a), TriggerAttr) == [] by {
      SavedWrapValues(a, TriggerAttr);
      AttrValuesInSingle(SavedWrap(a), TriggerAttr);
      AttrValuesInSingle(overlay, TriggerAttr);
    }
    assert AttrValues(SavedPopup(a), "id") == [Text(PopupId(a.clientId))] by {
      SavedWrapValues(a, "id");
      AttrValuesInSingle(SavedWrap(a), "id");
      AttrValuesInSingle(overlay, "id");
    }
    SavedWrapValues(a, CloseAttr);
    AttrValuesInSingle(SavedWrap(a), CloseAttr);
    AttrValuesInSingle(overlay, CloseAttr);
  }

  /**
   * Pairing: the saved tree carries exactly one `id`, the popup's, and every
   * `data-micromodal-trigger` names it. Each of the four variants emits
   * exactly one trigger; any other `modalTrigger` value emits none.
   */
  lemma TriggersPointAtPopup(a: Attributes)
    ensures AttrValues(Save(a), "id") == [Text(PopupId(a.clientId))]
    ensures AttrValues(Save(a), TriggerAttr)
         == (if KindOf(a.modalTrigger).Some? then [Text(PopupId(a.clientId))] else [])
    ensures forall i :: 0 <= i < |AttrValues(Save(a), TriggerAttr)| ==>
              AttrValues(Save(a), TriggerAttr)[i] == AttrValues(Save(a), "id")[0]
  {
    var pid := Text(PopupId(a.clientId));
    SavedPopupValues(a);
    assert AttrValues(Save(a), "id") == [pid] by {
      SaveValues(a, "id");
      SavedTriggersValues(a, "id");
    }
    assert AttrValues(Save(a), TriggerAttr) == (if KindOf(a.modalTrigger).Some? then [pid] else []) by {
      SaveValues(a, TriggerAttr);
      SavedTriggersValues(a, TriggerAttr);
    }
  }

  /** The overlay always closes; a close element adds a second close marker iff its position is named. */
  lemma CloseMarkers(a: Attributes)
    ensures |AttrValues(Save(a), CloseAttr)| == if HasCloseAffordance(a.closeIconPosition) then 2 else 1
    ensures |SavedClose(a)| == (if HasCloseAffordance(a.closeIconPosition) then 1 else 0)
  {
    SaveValues(a, CloseAttr);
    SavedTriggersValues(a, CloseAttr);
    SavedPopupValues(a);
  }

  /** The image trigger's saved `<img>`: the editor's URL rule without the placeholder, alt from `iconImage`. */
  lemma SavedImageTrigger(a: Attributes)
    requires a.modalTrigger == Some("image")
    ensures SavedTriggers(a) == [Element("div", WithTypography(["mzb-modal-trigger"], a.typographyClass),
                                         map[TriggerAttr := Text(PopupId(a.clientId))], [SavedImage(a)])]
    ensures Truthy(ImageUrl(a.image, a.imageSize)) ==>
              SavedImage(a).attrs["src"] == Text(ModalEdit.EditorImageSrc(a))
    ensures !Truthy(ImageUrl(a.image, a.imageSize)) ==>
              ("src" !in SavedImage(a).attrs || SavedImage(a).attrs["src"] == Text(""))
              && ModalEdit.EditorImageSrc(a) == PlaceholderImage
    ensures a.image.None? ==> SavedImage(a).attrs["src"] == Text("")
  {
  }

  /**
   * The editor and the saved markup agree: the saved triggers name the popup
   * id the editor's wrapper is keyed by, and the button carries the same
   * classes and the same icon placement in both.
   */
  lemma EditAndSaveAgree(a: Attributes, device: string, s: ModalEdit.Visibility)
    ensures PopupId(a.clientId) in ModalEdit.View(a, device, s).wrapperClasses
    ensures forall i :: 0 <= i < |AttrValues(Save(a), TriggerAttr)| ==>
              AttrValues(Save(a), TriggerAttr)[i] == Text(PopupId(a.clientId))
    ensures a.modalTrigger == Some("button") ==>
      && var saved := SavedTriggers(a)[0].children[0];
      && var edited := ModalEdit.EditorTriggers(a)[0];
      && saved.Element? && saved.tag == "button" && edited.ButtonView?
      && saved.classes == edited.buttonClasses
      && saved.children == ButtonChildren(a)
      && edited.placement == Placement(a.buttonIcon, a.tButtonIconPosition)
  {
    TriggersPointAtPopup(a);
  }

  /**
   * The editor draws a close element exactly when the saved markup has one,
   * with the same classes; in the editor a click on it always closes, and
   * without it a close click changes nothing.
   */
  lemma CloseAgrees(a: Attributes, s: ModalEdit.Visibility)
    ensures ModalEdit.EditorClose(a).Some? <==> SavedClose(a) != []
    ensures ModalEdit.EditorClose(a).Some? ==>
      && SavedClose(a)[0].classes == ModalEdit.EditorClose(a).value.classes
      && SavedClose(a)[0].attrs == map[CloseAttr := Flag]
      && ModalEdit.Step(a, s, ModalEdit.CloseClick) == ModalEdit.Closed
    ensures ModalEdit.EditorClose(a).None? ==> ModalEdit.Step(a, s, ModalEdit.CloseClick) == s
  {
  }

  /**
   * The editor's image alt reads `image` while the saved one reads
   * `iconImage`: they agree exactly when both attributes give the same alt
   * text, so two different truthy alts give different markup.
   */
  lemma AltSources(a: Attributes)
    ensures SavedImage(a).attrs["alt"] == Text(ModalEdit.EditorImageAlt(a))
        <==> AltOrEmpty(a.iconImage) == AltOrEmpty(a.image)
    ensures a.image.Some? && a.iconImage.Some? && Truthy(a.image.value.alt) && Truthy(a.iconImage.value.alt)
         && a.image.value.alt != a.iconImage.value.alt
         ==> SavedImage(a).attrs["alt"] != Text(ModalEdit.EditorImageAlt(a))
  {
  }
}
