/**
 * The document listeners of the modal editor's effect. Each effect run
 * creates a fresh Escape handler and a fresh overlay-click handler that
 * capture the `escPress` / `overlayClick` values of that render, attaches
 * both to the document, and its cleanup detaches exactly those two. The
 * effect re-runs only when one of the two flags changes.
 */
module ModalListeners {

  /** A document listener callback; handlers of one effect run share a run number. */
  datatype Handler =
    | Foreign(id: nat)                            // a listener some other code attached
    | EscHandler(run: nat, escPress: bool)
    | OverlayHandler(run: nat, overlayClick: bool)

  /** A registration `document.addEventListener(eventType, handler)`. */
  datatype Listener = Listener(eventType: string, handler: Handler)

  /** The two listeners effect run `run` attaches. */
  function EffectListeners(run: nat, escPress: bool, overlayClick: bool): (ls: set<Listener>)
    ensures |ls| == 2
    ensures Listener("keydown", EscHandler(run, escPress)) in ls
    ensures Listener("click", OverlayHandler(run, overlayClick)) in ls
  {
    var ls := {Listener("keydown", EscHandler(run, escPress)),
               Listener("click", OverlayHandler(run, overlayClick))};
    assert |ls| == 2;
    ls
  }

  /** The effect body: attach both listeners. */
  function Install(reg: set<Listener>, run: nat, escPress: bool, overlayClick: bool): (r: set<Listener>)
    ensures reg <= r
    ensures r - reg <= EffectListeners(run, escPress, overlayClick)
    ensures EffectListeners(run, escPress, overlayClick) <= r
  {
    reg + EffectListeners(run, escPress, overlayClick)
  }

  /** The effect cleanup: detach the two listeners the same run attached. */
  function Cleanup(reg: set<Listener>, run: nat, escPress: bool, overlayClick: bool): (r: set<Listener>)
    ensures r <= reg
    ensures r !! EffectListeners(run, escPress, overlayClick)
    ensures reg - r <= EffectListeners(run, escPress, overlayClick)
  {
    reg - EffectListeners(run, escPress, overlayClick)
  }

  /** Cleanup undoes the effect: the document's listener set is as it was before. */
  lemma CleanupUndoesInstall(reg: set<Listener>, run: nat, escPress: bool, overlayClick: bool)
    requires reg !! EffectListeners(run, escPress, overlayClick)
    ensures Cleanup(Install(reg, run, escPress, overlayClick), run, escPress, overlayClick) == reg
    ensures |Install(reg, run, escPress, overlayClick)| == |reg| + 2
  {
  }

  /** The component's hook state: whether it is mounted, and the current effect run. */
  datatype Hook = Hook(mounted: bool, run: nat, escPress: bool, overlayClick: bool)

  /** Lifecycle events: mount, a re-render with (possibly new) flags, unmount. */
  datatype Lifecycle = Mount(escPress: bool, overlayClick: bool)
                     | Rerender(escPress: bool, overlayClick: bool)
                     | Unmount

  /** The listeners this instance currently owns. */
  function Owned(h: Hook): set<Listener> {
    if h.mounted then EffectListeners(h.run, h.escPress, h.overlayClick) else {}
  }

  /** Listeners that belong to other code. */
  predicate AllForeign(others: set<Listener>) {
    forall l :: l in others ==> l.handler.Foreign?
  }

  /** One lifecycle step over the hook and the document's listener set. */
  function LifeStep(h: Hook, reg: set<Listener>, ev: Lifecycle): (r: (Hook, set<Listener>))
    ensures r.0.mounted == (if ev.Unmount? then false else if ev.Mount? then true else h.mounted)
  {
    match ev
    case Mount(esc, ov) =>
      if h.mounted then (h, reg)
      else
        var h' := Hook(true, h.run + 1, esc, ov);
        (h', Install(reg, h'.run, esc, ov))
    case Rerender(esc, ov) =>
      if !h.mounted || (esc == h.escPress && ov == h.overlayClick) then (h, reg)
      else
        var h' := Hook(true, h.run + 1, esc, ov);
        (h', Install(Cleanup(reg, h.run, h.escPress, h.overlayClick), h'.run, esc, ov))
    case Unmount =>
      if !h.mounted then (h, reg)
      else (h.(mounted := false), Cleanup(reg, h.run, h.escPress, h.overlayClick))
  }

  /** The hook and listener set after a lifecycle trace, oldest event first. */
  function Life(h: Hook, reg: set<Listener>, events: seq<Lifecycle>): (Hook, set<Listener>)
    decreases |events|
  {
    if |events| == 0 then (h, reg)
    else
      var p := Life(h, reg, events[..|events| - 1]);
      LifeStep(p.0, p.1, events[|events| - 1])
  }

  /** Other code's listeners never collide with the instance's own. */
  lemma OwnedDisjoint(h: Hook, others: set<Listener>)
    requires AllForeign(others)
    ensures others !! Owned(h)
    ensures |others + Owned(h)| == |others| + (if h.mounted then 2 else 0)
    ensures forall l :: l in others + Owned(h) && l.handler.EscHandler? ==> l.handler.escPress == h.escPress
    ensures forall l :: l in others + Owned(h) && l.handler.OverlayHandler? ==> l.handler.overlayClick == h.overlayClick
  {
  }

  /** One lifecycle step keeps the document at "others plus what the instance owns". */
  lemma StepKeepsOwnership(h: Hook, others: set<Listener>, ev: Lifecycle)
    requires AllForeign(others)
    ensures var (h', reg') := LifeStep(h, others + Owned(h), ev); reg' == others + Owned(h')
  {
    OwnedDisjoint(h, others);
    var reg := others + Owned(h);
    match ev
    case Mount(_, _) =>
    case Rerender(esc, ov) =>
      if h.mounted && (esc != h.escPress || ov != h.overlayClick) {
        assert Cleanup(reg, h.run, h.escPress, h.overlayClick) == others;
      }
    case Unmount =>
      if h.mounted {
        assert Cleanup(reg, h.run, h.escPress, h.overlayClick) == others;
      }
  }

  /**
   * Whatever the lifecycle, the document holds the other code's listeners plus
   * exactly this instance's current two (none once unmounted): no listener
   * leaks, and the registered handlers see the current flags.
   */
  lemma {:induction false} LifeKeepsListeners(others: set<Listener>, events: seq<Lifecycle>)
    requires AllForeign(others)
    ensures var (h, reg) := Life(Hook(false, 0, false, false), others, events);
      && reg == others + Owned(h)
      && |reg| == |others| + (if h.mounted then 2 else 0)
      && (!h.mounted ==> reg == others)
      && (forall l :: l in reg && l.handler.EscHandler? ==> l.handler.escPress == h.escPress)
      && (forall l :: l in reg && l.handler.OverlayHandler? ==> l.handler.overlayClick == h.overlayClick)
    decreases |events|
  {
    var (h, reg) := Life(Hook(false, 0, false, false), others, events);
    if |events| > 0 {
      var p := Life(Hook(false, 0, false, false), others, events[..|events| - 1]);
      LifeKeepsListeners(others, events[..|events| - 1]);
      StepKeepsOwnership(p.0, others, events[|events| - 1]);
    }
    OwnedDisjoint(h, others);
  }

  /** Mounting then unmounting leaves the document's listener set as it was. */
  lemma MountUnmountRestores(others: set<Listener>, escPress: bool, overlayClick: bool)
    requires AllForeign(others)
    ensures Life(Hook(false, 0, false, false), others, [Mount(escPress, overlayClick), Unmount]).1 == others
  {
    LifeKeepsListeners(others, [Mount(escPress, overlayClick), Unmount]);
  }
}
