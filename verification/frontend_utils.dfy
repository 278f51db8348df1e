/**
 * The frontend helper library: cookie lookup, sibling elements, array-like
 * conversion and iteration, listener attachment and the DOM-ready decision.
 * Elements are opaque identities and listener registrations are sets; the
 * DOM itself is not modelled.
 */
module FrontendUtils {
  import opened Js

  // ---------------------------------------------------------------------------
  // getCookie
  // ---------------------------------------------------------------------------

  /** A trimmed cookie segment that names `name`. */
  predicate Names(segment: string, name: string) {
    StartsWith(Trim(segment), name + "=")
  }

  /** The value part of a segment that names `name`. */
  function ValueAfter(segment: string, name: string): string
    requires Names(segment, name)
  {
    Trim(segment)[|name| + 1..]
  }

  /**
   * `getCookie(name)` over `document.cookie`: split on ";", trim each
   * segment, and return what follows `name=` in the first segment that
   * starts with it; null (`None`) when none does.
   */
  method GetCookie(cookie: string, name: string) returns (r: Option<string>)
    ensures var segs := Split(cookie, ';');
      r.None? <==> forall i :: 0 <= i < |segs| ==> !Names(segs[i], name)
    ensures var segs := Split(cookie, ';');
      r.Some? ==> exists i :: 0 <= i < |segs| && Names(segs[i], name)
                            && (forall k :: 0 <= k < i ==> !Names(segs[k], name))
                            && r.value == ValueAfter(segs[i], name)
  {
    var cookies := Split(cookie, ';');
    var i := 0;
    while i < |cookies|
      invariant 0 <= i <= |cookies|
      invariant forall k :: 0 <= k < i ==> !Names(cookies[k], name)
    {
      if Names(cookies[i], name) {
        assert cookies == Split(cookie, ';');
        assert 0 <= i < |cookies| && Names(cookies[i], name);
        return Some(ValueAfter(cookies[i], name));
      }
      i := i + 1;
    }
    return None;
  }

  /**
   * Because "=" is appended to the name, a name never matches a longer (or
   * shorter) cookie name it merely prefixes: "user" does not read "username=x".
   */
  lemma NoPrefixConfusion(name: string, other: string, value: string)
    requires name != other
    requires '=' !in name && '=' !in other
    ensures !StartsWith(other + "=" + value, name + "=")
  {
    var seg := other + "=" + value;
    var key := name + "=";
    if |name| < |other| {
      assert seg[|name|] == other[|name|] && other[|name|] in other;
      assert key[|name|] == '=';
    } else if |name| > |other| {
      assert seg[|other|] == '=';
      assert key[|other|] == name[|other|] && name[|other|] in name;
    } else {
      assert seg[..|other|] == other;
      assert key[..|name|] == name;
    }
  }

  // ---------------------------------------------------------------------------
  // siblings
  // ---------------------------------------------------------------------------

  /** An element identity. */
  type Elem = nat

  /** The part of the DOM `siblings` reads: each element's parent and each parent's children. */
  datatype Dom = Dom(parent: map<Elem, Elem>, children: map<Elem, seq<Elem>>)

  /** `siblings`' argument: an element, or a selector already resolved by `$` (maybe to nothing). */
  datatype ElementOrSelector = AnElement(e: Elem) | ASelector(resolved: Option<Elem>)

  /** `xs.filter(x => x !== e)`. */
  function Without(xs: seq<Elem>, e: Elem): (r: seq<Elem>)
    ensures forall x :: x in r <==> x in xs && x != e
    ensures |r| <= |xs|
    decreases |xs|
  {
    if |xs| == 0 then []
    else
      var init := Without(xs[..|xs| - 1], e);
      var last := xs[|xs| - 1];
      assert forall x :: x in xs <==> x in xs[..|xs| - 1] || x == last;
      if last == e then init else init + [last]
  }

  /** Filtering keeps the order: it distributes over concatenation. */
  lemma {:induction false} WithoutAppend(xs: seq<Elem>, ys: seq<Elem>, e: Elem)
    ensures Without(xs + ys, e) == Without(xs, e) + Without(ys, e)
    decreases |ys|
  {
    if |ys| == 0 {
      assert xs + ys == xs;
    } else {
      var n := |ys| - 1;
      WithoutAppend(xs, ys[..n], e);
      assert (xs + ys)[..|xs + ys| - 1] == xs + ys[..n];
      assert (xs + ys)[|xs + ys| - 1] == ys[n];
    }
  }

  /** `siblings(elementOrSelector)`. */
  function Siblings(dom: Dom, target: ElementOrSelector): (r: seq<Elem>)
    ensures var el := if target.AnElement? then Some(target.e) else target.resolved;
      && (el.None? || el.value !in dom.parent ==> r == [])
      && (el.Some? && el.value in dom.parent && dom.parent[el.value] in dom.children ==>
            forall x :: x in r <==> x in dom.children[dom.parent[el.value]] && x != el.value)
      && (el.Some? && el.value in dom.parent && dom.parent[el.value] !in dom.children ==> r == [])
      && (el.Some? ==> el.value !in r)
  {
    var el := if target.AnElement? then Some(target.e) else target.resolved;
    if el.None? || el.value !in dom.parent then []
    else
      var p := dom.parent[el.value];
      var kids := if p in dom.children then dom.children[p] else [];
      Without(kids, el.value)
  }

  // ---------------------------------------------------------------------------
  // toArray and each
  // ---------------------------------------------------------------------------

  /** An array-like object: a length and an indexed getter. */
  datatype ArrayLike<T> = ArrayLike(length: nat, item: nat -> T)

  /** `Array.prototype.slice.call(arrayLike)`: copy indices 0 .. length - 1 in order. */
  method ToArray<T>(a: ArrayLike<T>) returns (r: seq<T>)
    ensures |r| == a.length
    ensures forall i :: 0 <= i < a.length ==> r[i] == a.item(i)
  {
    r := [];
    var i := 0;
    while i < a.length
      invariant 0 <= i <= a.length
      invariant |r| == i
      invariant forall k :: 0 <= k < i ==> r[k] == a.item(k)
    {
      r := r + [a.item(i)];
      i := i + 1;
    }
  }

  /** What `each` iterates: an array, or a plain object's entries in `for...in` order. */
  datatype Collection<T> = ArrayColl(items: seq<T>) | ObjectColl(entries: seq<(string, T)>)

  /** The second argument the callback receives. */
  datatype Key = Index(i: nat) | Prop(name: string)

  /** One callback invocation. */
  datatype Call<T> = Call(value: T, key: Key)

  /**
   * `each(collection, callback)`: the sequence of callback invocations. An
   * array is walked once per index in increasing order; an object once per
   * enumerated key.
   */
  method Each<T>(c: Collection<T>) returns (calls: seq<Call<T>>)
    ensures c.ArrayColl? ==> (
      && |calls| == |c.items|
      && forall i :: 0 <= i < |c.items| ==> calls[i] == Call(c.items[i], Index(i)))
    ensures c.ObjectColl? ==> (
      && |calls| == |c.entries|
      && forall i :: 0 <= i < |c.entries| ==> calls[i] == Call(c.entries[i].1, Prop(c.entries[i].0)))
  {
    calls := [];
    match c {
      case ArrayColl(items) =>
        var i := 0;
        while i < |items|
          invariant 0 <= i <= |items|
          invariant |calls| == i
          invariant forall k :: 0 <= k < i ==> calls[k] == Call(items[k], Index(k))
        {
          calls := calls + [Call(items[i], Index(i))];
          i := i + 1;
        }
      case ObjectColl(entries) =>
        var i := 0;
        while i < |entries|
          invariant 0 <= i <= |entries|
          invariant |calls| == i
          invariant forall k :: 0 <= k < i ==> calls[k] == Call(entries[k].1, Prop(entries[k].0))
        {
          calls := calls + [Call(entries[i].1, Prop(entries[i].0))];
          i := i + 1;
        }
    }
  }

  // ---------------------------------------------------------------------------
  // on
  // ---------------------------------------------------------------------------

  /** A registration `element.addEventListener(event, callback, { capture })`. */
  datatype Binding = Binding(elem: Elem, event: string, callback: nat, capture: bool)

  /** `on`'s target: null, one element, or an array of elements. */
  datatype Target = NoTarget | OneElement(e: Elem) | Elements(es: seq<Elem>)

  /** `options`: absent, a boolean, or an object whose `capture` may be unset. */
  datatype ListenerOptions = NoOptions | UseCapture(b: bool) | OptionsObject(capture: Option<bool>)

  /** The capture flag the browser derives from `options`. */
  function CaptureOf(o: ListenerOptions): bool {
    match o
    case NoOptions => false
    case UseCapture(b) => b
    case OptionsObject(c) => IsTrue(c)
  }

  /**
   * `on(event, target, callback, options)` over the set of registrations:
   * nothing for null, one binding for an element, one per element for an
   * array. Registering an identical binding twice has no effect, as in the DOM.
   */
  function On(reg: set<Binding>, event: string, target: Target, callback: nat, options: ListenerOptions)
    : (r: set<Binding>)
    ensures target.NoTarget? ==> r == reg
    ensures reg <= r
    ensures target.OneElement? ==> r == reg + {Binding(target.e, event, callback, CaptureOf(options))}
    ensures target.Elements? ==>
      && (forall i :: 0 <= i < |target.es| ==>
            Binding(target.es[i], event, callback, CaptureOf(options)) in r)
      && (forall b :: b in r - reg ==>
            b.elem in target.es && b.event == event && b.callback == callback
            && b.capture == CaptureOf(options))
  {
    match target
    case NoTarget => reg
    case OneElement(e) => reg + {Binding(e, event, callback, CaptureOf(options))}
    case Elements(es) => reg + set e | e in es :: Binding(e, event, callback, CaptureOf(options))
  }

  /**
   * The array path of `on`: `each` walks the array in index order and
   * attaches the listener to one element at a time.
   */
  function OnEach(reg: set<Binding>, event: string, es: seq<Elem>, callback: nat, options: ListenerOptions)
    : set<Binding>
    decreases |es|
  {
    if |es| == 0 then reg
    else OnEach(On(reg, event, OneElement(es[0]), callback, options), event, es[1..], callback, options)
  }

  /** Attaching to an array at once is the same as attaching to its elements one by one, in order. */
  lemma {:induction false} OnArrayIsEach(reg: set<Binding>, event: string, es: seq<Elem>, callback: nat,
                                         options: ListenerOptions)
    ensures On(reg, event, Elements(es), callback, options) == OnEach(reg, event, es, callback, options)
    decreases |es|
  {
    var c := CaptureOf(options);
    if |es| == 0 {
      assert (set e | e in es :: Binding(e, event, callback, c)) == {};
    } else {
      var first := On(reg, event, OneElement(es[0]), callback, options);
      OnArrayIsEach(first, event, es[1..], callback, options);
      assert forall e :: e in es <==> e == es[0] || e in es[1..] by {
        assert es == [es[0]] + es[1..];
      }
      assert (set e | e in es :: Binding(e, event, callback, c))
          == {Binding(es[0], event, callback, c)} + (set e | e in es[1..] :: Binding(e, event, callback, c));
    }
  }

  /** Registering the same listener a second time changes nothing, whatever the target. */
  lemma OnTwiceIsOnce(reg: set<Binding>, event: string, target: Target, callback: nat, options: ListenerOptions)
    ensures var once := On(reg, event, target, callback, options);
      On(once, event, target, callback, options) == once
  {
  }

  // ---------------------------------------------------------------------------
  // domReady
  // ---------------------------------------------------------------------------

  /** A document-level registration of a callback. */
  datatype DocListener = DocListener(event: string, callback: nat)

  /**
   * `domReady(callback)`: run the callback now when the document is
   * "complete" or "interactive", otherwise defer it to DOMContentLoaded.
   * Returns whether it ran now and the document's listeners afterwards.
   */
  function DomReady(readyState: string, listeners: set<DocListener>, callback: nat)
    : (r: (bool, set<DocListener>))
    ensures r.0 <==> readyState == "complete" || readyState == "interactive"
    ensures r.0 ==> r.1 == listeners
    ensures !r.0 ==> r.1 == listeners + {DocListener("DOMContentLoaded", callback)}
  {
    if readyState == "complete" || readyState == "interactive" then (true, listeners)
    else (false, listeners + {DocListener("DOMContentLoaded", callback)})
  }

  /** The callback is either run now or left waiting for DOMContentLoaded, never both. */
  lemma DomReadyExactlyOnce(readyState: string, listeners: set<DocListener>, callback: nat)
    requires DocListener("DOMContentLoaded", callback) !in listeners
    ensures var (ran, after) := DomReady(readyState, listeners, callback);
      ran != (DocListener("DOMContentLoaded", callback) in after)
    ensures readyState == "loading" ==> !DomReady(readyState, listeners, callback).0
  {
  }
}
