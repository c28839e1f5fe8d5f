/** The window-visibility store: a plain record from window name to "is shown". */
module WindowStoreModel {

  type WindowName = string

  /** The names every plain record inherits from `Object.prototype`. Reading one that the record
      does not hold itself yields a function, or for `__proto__` the prototype object: truthy. */
  const Inherited: set<WindowName> := {
    "constructor", "hasOwnProperty", "isPrototypeOf", "propertyIsEnumerable", "toLocaleString",
    "toString", "valueOf", "__defineGetter__", "__defineSetter__", "__lookupGetter__",
    "__lookupSetter__", "__proto__"
  }

  /** The inherited accessor that sets a record's prototype: assigning `true` through it is
      ignored, so the record never holds an entry of that name. */
  const ProtoKey: WindowName := "__proto__"

  /** What `ws[win]` is truthy for: the record's own entry when it holds one, otherwise whether the
      name is inherited. */
  predicate IsShown(ws: map<WindowName, bool>, win: WindowName) {
    if win in ws then ws[win] else win in Inherited
  }

  /** The record after `ws[win] = true`. */
  function ShowResult(ws: map<WindowName, bool>, win: WindowName): map<WindowName, bool> {
    if win == ProtoKey then ws else ws[win := true]
  }

  class WindowStore {
    /** The store's current value, starting as the empty record. */
    var windows: map<WindowName, bool>

    /** The record holds no entry named like the prototype accessor. */
    ghost predicate Valid()
      reads this
    {
      ProtoKey !in windows
    }

    constructor ()
      ensures Valid()
      ensures windows == map[]
    {
      windows := map[];
    }

    /** Re-publishes the current value; the record itself is unchanged. */
    method Refresh()
      modifies this
      ensures windows == old(windows)
    {
      windows := windows;
    }

    /** Whether window `win` is shown; reading it changes nothing. */
    method Shown(win: WindowName) returns (r: bool)
      ensures r <==> IsShown(windows, win)
      ensures win !in windows ==> (r <==> win in Inherited)
    {
      var read := if win in windows then windows[win] else win in Inherited;
      if read {
        return true;
      }
      return false;
    }

    /** Marks `win` as shown; every other window keeps its entry. */
    method Show(win: WindowName)
      requires Valid()
      modifies this
      ensures Valid()
      ensures windows == ShowResult(old(windows), win)
      ensures IsShown(windows, win)
      ensures forall w :: w != win ==> (w in windows <==> w in old(windows))
      ensures forall w :: w != win && w in windows ==> windows[w] == old(windows)[w]
    {
      if win == ProtoKey {
        return;
      }
      windows := windows[win := true];
    }

    /** Deletes the record's own entry for `win`; an inherited name stays shown. Every other window
        keeps its entry. */
    method Hide(win: WindowName)
      requires Valid()
      modifies this
      ensures Valid()
      ensures windows == old(windows) - {win}
      ensures IsShown(windows, win) <==> win in Inherited
      ensures forall w :: w != win ==> (w in windows <==> w in old(windows))
      ensures forall w :: w != win && w in windows ==> windows[w] == old(windows)[w]
    {
      windows := windows - {win};
    }
  }

  /** Showing a window twice leaves the same record as showing it once. */
  lemma ShowIdempotent(ws: map<WindowName, bool>, win: WindowName)
    ensures ShowResult(ShowResult(ws, win), win) == ShowResult(ws, win)
  {
  }

  /** Hiding a window that has no entry leaves the record as it was. */
  lemma HideAbsentIsNoOp(ws: map<WindowName, bool>, win: WindowName)
    requires win !in ws
    ensures ws - {win} == ws
  {
  }

  /** Showing and hiding one window never changes whether another is shown. */
  lemma ShowHideIsolated(ws: map<WindowName, bool>, win: WindowName, other: WindowName)
    requires other != win
    ensures IsShown(ShowResult(ws, win), other) == IsShown(ws, other)
    ensures IsShown(ws - {win}, other) == IsShown(ws, other)
  {
  }

  /** On a fresh store, inherited names read as shown and nothing else does; hiding one of them
      does not change that. */
  lemma FreshStoreShowsInherited(win: WindowName)
    ensures IsShown(map[], win) <==> win in Inherited
    ensures IsShown(map[] - {win}, win) <==> win in Inherited
    ensures IsShown(map[], "toString") && !IsShown(map[], "chat")
  {
  }
}
