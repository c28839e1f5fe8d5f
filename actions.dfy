/** The key-binding action registry: held keys, registered action-definition tables, and the
    handlers bound to action names, fired in binding order when a key is released. */
module KeyActions {
  import opened Wrappers
  import Seqs

  type Key = string
  type ActionName = string

  /** The identity (`Object.is`) of a handler function. */
  type HandlerId = nat

  /** The identity of a registered definition table. */
  type DefinitionsId = nat

  /** One element of an action's key list: a single key, or a chord of keys held together. */
  datatype KeyOrChord = Single(key: Key) | Chord(chord: seq<Key>)

  /** One action of a definition table with its key list, in the table's entry order. */
  datatype Entry = Entry(name: ActionName, keys: seq<KeyOrChord>)

  /** A definition table (a record from action name to key list) and its object identity. */
  datatype ActionDefinitions = ActionDefinitions(id: DefinitionsId, entries: seq<Entry>)

  /** A handler and the set of action names it is bound to. */
  datatype Binding = Binding(handler: HandlerId, actions: set<ActionName>)

  /** What an event carries as `keys`: a key list, or (for a single-key match) the bare key. */
  datatype EventKeys = KeyList(list: seq<KeyOrChord>) | BareKey(key: Key)

  /** The event a handler receives; `data` is the key of the keyboard event, when there is one. */
  datatype ActionEvent = ActionEvent(which: ActionName, keys: EventKeys, data: Option<Key>)

  /** One call of a handler with an event. */
  datatype Call = Call(handler: HandlerId, event: ActionEvent)

  /** The handlers' behaviour: `handle(h, e)` is false exactly when handler `h`, given `e`,
      returns `false`. */
  type Handle = (HandlerId, ActionEvent) -> bool

  // ----- binding -----

  function ToSet(actions: seq<ActionName>): set<ActionName> {
    set a | a in actions
  }

  lemma ToSetSnoc(actions: seq<ActionName>, i: nat)
    requires i < |actions|
    ensures ToSet(actions[..i + 1]) == ToSet(actions[..i]) + {actions[i]}
  {
    assert actions[..i + 1] == actions[..i] + [actions[i]];
  }

  /** No handler is listed twice. */
  predicate UniqueHandlers(hs: seq<Binding>) {
    forall i, j :: 0 <= i < j < |hs| ==> hs[i].handler != hs[j].handler
  }

  /** `findIndex(v => Object.is(v[0], handler))`. */
  function HandlerIndex(hs: seq<Binding>, h: HandlerId): Option<nat> {
    Seqs.FindIndex(hs, (b: Binding) => b.handler == h)
  }

  predicate IsBound(hs: seq<Binding>, h: HandlerId) {
    exists i :: 0 <= i < |hs| && hs[i].handler == h
  }

  /** The action names handler `h` is bound to; none when it is not listed. */
  function ActionsOf(hs: seq<Binding>, h: HandlerId): set<ActionName> {
    match HandlerIndex(hs, h)
    case None => {}
    case Some(i) => hs[i].actions
  }

  /** The handler list after `bind(actions, h)`. */
  function BindResult(hs: seq<Binding>, actions: seq<ActionName>, h: HandlerId): seq<Binding> {
    match HandlerIndex(hs, h)
    case None => hs + [Binding(h, ToSet(actions))]
    case Some(i) => hs[i := Binding(h, hs[i].actions + ToSet(actions))]
  }

  /** The handler list after `unbind(actions, h)`. */
  function UnbindResult(hs: seq<Binding>, actions: seq<ActionName>, h: HandlerId): seq<Binding> {
    match HandlerIndex(hs, h)
    case None => hs
    case Some(i) =>
      var left := hs[i].actions - ToSet(actions);
      if left == {} then hs[..i] + hs[i + 1..] else hs[i := Binding(h, left)]
  }

  lemma ActionsOfAt(hs: seq<Binding>, i: nat)
    requires UniqueHandlers(hs) && i < |hs|
    ensures HandlerIndex(hs, hs[i].handler) == Some(i)
    ensures ActionsOf(hs, hs[i].handler) == hs[i].actions
  {
  }

  lemma ActionsOfUnbound(hs: seq<Binding>, h: HandlerId)
    requires !IsBound(hs, h)
    ensures HandlerIndex(hs, h).None? && ActionsOf(hs, h) == {}
  {
  }

  /** Whether a binding belongs to a handler other than `h`. */
  function OtherThan(h: HandlerId): Binding -> bool {
    (x: Binding) => x.handler != h
  }

  /** Replacing or removing `h`'s own entry leaves the other handlers' entries, in order. */
  lemma FilterAround(hs: seq<Binding>, i: nat, b: Binding, h: HandlerId)
    requires i < |hs| && hs[i].handler == h && b.handler == h
    ensures Seqs.Filter(hs[i := b], OtherThan(h)) == Seqs.Filter(hs, OtherThan(h))
    ensures Seqs.Filter(hs[..i] + hs[i + 1..], OtherThan(h)) == Seqs.Filter(hs, OtherThan(h))
  {
    var keep := OtherThan(h);
    assert hs == hs[..i] + [hs[i]] + hs[i + 1..];
    assert hs[i := b] == hs[..i] + [b] + hs[i + 1..];
    Seqs.FilterSkip(hs[..i], hs[i], hs[i + 1..], keep);
    Seqs.FilterSkip(hs[..i], b, hs[i + 1..], keep);
  }

  /** `bind` keeps the handlers unique and adds the actions to `h`'s set: a new handler gets
      exactly one entry, at the end, with exactly the given actions; a listed one keeps its place
      and the list keeps its length. No other handler's entry changes, and they keep their order. */
  lemma BindEffect(hs: seq<Binding>, actions: seq<ActionName>, h: HandlerId)
    requires UniqueHandlers(hs)
    ensures UniqueHandlers(BindResult(hs, actions, h))
    ensures ActionsOf(BindResult(hs, actions, h), h) == ActionsOf(hs, h) + ToSet(actions)
    ensures forall g :: g != h ==> ActionsOf(BindResult(hs, actions, h), g) == ActionsOf(hs, g)
    ensures !IsBound(hs, h) ==>
      var r := BindResult(hs, actions, h);
      |r| == |hs| + 1 && r[..|hs|] == hs && r[|hs|] == Binding(h, ToSet(actions))
    ensures IsBound(hs, h) ==>
      var r := BindResult(hs, actions, h);
      |r| == |hs| && forall j :: 0 <= j < |hs| ==> r[j].handler == hs[j].handler && (hs[j].handler != h ==> r[j] == hs[j])
    ensures Seqs.Filter(BindResult(hs, actions, h), OtherThan(h)) == Seqs.Filter(hs, OtherThan(h))
  {
    var r := BindResult(hs, actions, h);
    var keep := OtherThan(h);
    match HandlerIndex(hs, h)
    case None =>
      assert r == hs + [Binding(h, ToSet(actions))];
      assert UniqueHandlers(r);
      ActionsOfUnbound(hs, h);
      ActionsOfAt(r, |hs|);
      forall g | g != h ensures ActionsOf(r, g) == ActionsOf(hs, g) {
        if IsBound(hs, g) {
          var i :| 0 <= i < |hs| && hs[i].handler == g;
          ActionsOfAt(hs, i);
          ActionsOfAt(r, i);
        } else {
          ActionsOfUnbound(hs, g);
          ActionsOfUnbound(r, g);
        }
      }
      Seqs.FilterAppend(hs, [Binding(h, ToSet(actions))], keep);
      assert Seqs.Filter([Binding(h, ToSet(actions))], keep) == [];
    case Some(i) =>
      ActionsOfAt(hs, i);
      ReplaceEntry(hs, i, Binding(h, hs[i].actions + ToSet(actions)));
      FilterAround(hs, i, Binding(h, hs[i].actions + ToSet(actions)), h);
  }

  /** `unbind` of an unlisted handler changes nothing; otherwise it takes the actions out of
      `h`'s set and drops `h`'s entry exactly when the set becomes empty; a kept entry stays in
      place. No other handler's entry changes, and they keep their order. */
  lemma UnbindEffect(hs: seq<Binding>, actions: seq<ActionName>, h: HandlerId)
    requires UniqueHandlers(hs)
    ensures !IsBound(hs, h) ==> UnbindResult(hs, actions, h) == hs
    ensures UniqueHandlers(UnbindResult(hs, actions, h))
    ensures ActionsOf(UnbindResult(hs, actions, h), h) == ActionsOf(hs, h) - ToSet(actions)
    ensures IsBound(UnbindResult(hs, actions, h), h) <==> IsBound(hs, h) && ActionsOf(hs, h) - ToSet(actions) != {}
    ensures forall g :: g != h ==> ActionsOf(UnbindResult(hs, actions, h), g) == ActionsOf(hs, g)
    ensures Seqs.Filter(UnbindResult(hs, actions, h), OtherThan(h)) == Seqs.Filter(hs, OtherThan(h))
    ensures IsBound(UnbindResult(hs, actions, h), h) ==>
      var r := UnbindResult(hs, actions, h);
      |r| == |hs| && forall j :: 0 <= j < |hs| ==> r[j].handler == hs[j].handler && (hs[j].handler != h ==> r[j] == hs[j])
  {
    var r := UnbindResult(hs, actions, h);
    match HandlerIndex(hs, h)
    case None =>
      ActionsOfUnbound(hs, h);
    case Some(i) =>
      ActionsOfAt(hs, i);
      var left := hs[i].actions - ToSet(actions);
      if left == {} {
        DropEntry(hs, i);
        ActionsOfUnbound(r, h);
        FilterAround(hs, i, hs[i], h);
      } else {
        ReplaceEntry(hs, i, Binding(h, left));
        assert r[i].handler == h;
        FilterAround(hs, i, Binding(h, left), h);
      }
  }

  /** Dropping the entry at `i` unlists its handler and leaves every other handler's actions. */
  lemma DropEntry(hs: seq<Binding>, i: nat)
    requires UniqueHandlers(hs) && i < |hs|
    ensures UniqueHandlers(hs[..i] + hs[i + 1..])
    ensures !IsBound(hs[..i] + hs[i + 1..], hs[i].handler)
    ensures forall g :: g != hs[i].handler ==> ActionsOf(hs[..i] + hs[i + 1..], g) == ActionsOf(hs, g)
  {
    var r := hs[..i] + hs[i + 1..];
    assert |r| == |hs| - 1;
    assert forall j :: 0 <= j < i ==> r[j] == hs[j];
    assert forall j :: i <= j < |r| ==> r[j] == hs[j + 1];
    forall a, b | 0 <= a < b < |r| ensures r[a].handler != r[b].handler {
      var a', b' := if a < i then a else a + 1, if b < i then b else b + 1;
      assert r[a] == hs[a'] && r[b] == hs[b'] && a' < b';
    }
    forall j | 0 <= j < |r| ensures r[j].handler != hs[i].handler {
      assert r[j] == hs[if j < i then j else j + 1];
    }
    forall g | g != hs[i].handler ensures ActionsOf(r, g) == ActionsOf(hs, g) {
      if IsBound(hs, g) {
        var k :| 0 <= k < |hs| && hs[k].handler == g;
        ActionsOfAt(hs, k);
        ActionsOfAt(r, if k < i then k else k - 1);
      } else {
        ActionsOfUnbound(hs, g);
        ActionsOfUnbound(r, g);
      }
    }
  }

  /** Replacing the entry at `i` by one for the same handler changes only that handler's actions. */
  lemma ReplaceEntry(hs: seq<Binding>, i: nat, b: Binding)
    requires UniqueHandlers(hs) && i < |hs| && b.handler == hs[i].handler
    ensures UniqueHandlers(hs[i := b])
    ensures ActionsOf(hs[i := b], b.handler) == b.actions
    ensures forall g :: g != b.handler ==> ActionsOf(hs[i := b], g) == ActionsOf(hs, g)
  {
    var r := hs[i := b];
    ActionsOfAt(r, i);
    forall g | g != b.handler ensures ActionsOf(r, g) == ActionsOf(hs, g) {
      if IsBound(hs, g) {
        var k :| 0 <= k < |hs| && hs[k].handler == g;
        ActionsOfAt(hs, k);
        ActionsOfAt(r, k);
      } else {
        ActionsOfUnbound(hs, g);
        ActionsOfUnbound(r, g);
      }
    }
  }

  /** Binding a new handler and then unbinding the same actions restores the handler list. */
  lemma BindThenUnbind(hs: seq<Binding>, actions: seq<ActionName>, h: HandlerId)
    requires UniqueHandlers(hs) && !IsBound(hs, h)
    ensures UnbindResult(BindResult(hs, actions, h), actions, h) == hs
  {
    ActionsOfUnbound(hs, h);
    var r := hs + [Binding(h, ToSet(actions))];
    assert UniqueHandlers(r);
    ActionsOfAt(r, |hs|);
    assert r[..|hs|] + r[|hs| + 1..] == hs;
  }

  // ----- definitions -----

  /** What `unregister(defs)` keeps: every table that is not `defs` itself. */
  function WithoutTable(ds: seq<ActionDefinitions>, id: DefinitionsId): seq<ActionDefinitions> {
    Seqs.Filter(ds, (d: ActionDefinitions) => d.id != id)
  }

  /** `unregister` removes every occurrence of the table and keeps the rest in order. */
  lemma UnregisterEffect(ds: seq<ActionDefinitions>, a: seq<ActionDefinitions>, b: seq<ActionDefinitions>, id: DefinitionsId)
    ensures forall d :: d in WithoutTable(ds, id) <==> d in ds && d.id != id
    ensures WithoutTable(a + b, id) == WithoutTable(a, id) + WithoutTable(b, id)
  {
    forall d ensures d in WithoutTable(ds, id) <==> d in ds && d.id != id {
      Seqs.FilterMembership(ds, (d: ActionDefinitions) => d.id != id, d);
    }
    Seqs.FilterAppend(a, b, (d: ActionDefinitions) => d.id != id);
  }

  /** Registering a table that was not registered and then unregistering it restores the list. */
  lemma RegisterThenUnregister(ds: seq<ActionDefinitions>, defs: ActionDefinitions)
    requires forall d :: d in ds ==> d.id != defs.id
    ensures WithoutTable(ds + [defs], defs.id) == ds
  {
    var keep := (d: ActionDefinitions) => d.id != defs.id;
    Seqs.FilterAppend(ds, [defs], keep);
    Seqs.FilterKeepsAll(ds, keep);
    assert Seqs.Filter([defs], keep) == [];
  }

  // ----- firing -----

  /** The handler calls `trigger` makes: each listed handler whose set holds the action, in list
      order, stopping after the first that returns false. */
  function TriggerCalls(hs: seq<Binding>, e: ActionEvent, handle: Handle): seq<Call>
    decreases |hs|
  {
    if hs == [] then []
    else if e.which in hs[0].actions then
      if handle(hs[0].handler, e) then [Call(hs[0].handler, e)] + TriggerCalls(hs[1..], e, handle)
      else [Call(hs[0].handler, e)]
    else TriggerCalls(hs[1..], e, handle)
  }

  /** The handlers bound to `name`, in list order. */
  function Eligible(hs: seq<Binding>, name: ActionName): seq<HandlerId> {
    var bound := Seqs.Filter(hs, (b: Binding) => name in b.actions);
    seq(|bound|, i requires 0 <= i < |bound| => bound[i].handler)
  }

  /** `trigger` calls a prefix of the handlers bound to the action, in order, with the event;
      every call but the last returned true, and it stops short of the end only after a false. */
  lemma {:induction false} TriggerCallsPrefix(hs: seq<Binding>, e: ActionEvent, handle: Handle)
    ensures var calls, el := TriggerCalls(hs, e, handle), Eligible(hs, e.which);
      && |calls| <= |el|
      && (forall i :: 0 <= i < |calls| ==> calls[i] == Call(el[i], e))
      && (forall i :: 0 <= i < |calls| - 1 ==> handle(el[i], e))
      && (|calls| < |el| ==> |calls| > 0 && !handle(el[|calls| - 1], e))
    decreases |hs|
  {
    if hs != [] {
      TriggerCallsPrefix(hs[1..], e, handle);
      var rest := Eligible(hs[1..], e.which);
      if e.which in hs[0].actions {
        assert Eligible(hs, e.which) == [hs[0].handler] + rest;
      } else {
        assert Eligible(hs, e.which) == rest;
      }
    }
  }

  /** No handler is called twice. */
  predicate DistinctHandlers(calls: seq<Call>) {
    forall i, j :: 0 <= i < j < |calls| ==> calls[i].handler != calls[j].handler
  }

  /** `trigger` calls only handlers bound to the action. */
  lemma {:induction false} TriggerCallsBound(hs: seq<Binding>, e: ActionEvent, handle: Handle)
    ensures forall c :: c in TriggerCalls(hs, e, handle) ==>
      c.event == e && exists k :: 0 <= k < |hs| && hs[k].handler == c.handler && e.which in hs[k].actions
    decreases |hs|
  {
    if hs != [] {
      TriggerCallsBound(hs[1..], e, handle);
      forall c | c in TriggerCalls(hs[1..], e, handle)
        ensures exists k :: 0 <= k < |hs| && hs[k].handler == c.handler && e.which in hs[k].actions
      {
        var k :| 0 <= k < |hs[1..]| && hs[1..][k].handler == c.handler && e.which in hs[1..][k].actions;
        assert hs[k + 1] == hs[1..][k];
      }
    }
  }

  /** With unique handlers, `trigger` calls each handler at most once. */
  lemma {:induction false} TriggerCallsOnce(hs: seq<Binding>, e: ActionEvent, handle: Handle)
    requires UniqueHandlers(hs)
    ensures DistinctHandlers(TriggerCalls(hs, e, handle))
    decreases |hs|
  {
    if hs != [] {
      assert UniqueHandlers(hs[1..]);
      TriggerCallsOnce(hs[1..], e, handle);
      TriggerCallsBound(hs[1..], e, handle);
      var calls, rest := TriggerCalls(hs, e, handle), TriggerCalls(hs[1..], e, handle);
      if e.which in hs[0].actions && handle(hs[0].handler, e) {
        assert calls == [Call(hs[0].handler, e)] + rest;
        forall i, j | 0 <= i < j < |calls| ensures calls[i].handler != calls[j].handler {
          var c := rest[j - 1];
          assert calls[j] == c && c in rest;
          var k :| 0 <= k < |hs[1..]| && hs[1..][k].handler == c.handler && e.which in hs[1..][k].actions;
          assert hs[k + 1].handler == c.handler;
          if i > 0 {
            assert calls[i] == rest[i - 1];
            assert rest[i - 1].handler != rest[j - 1].handler;
          }
        }
      }
    }
  }

  /** Whether a key-list element matches the held keys: a single key when it is held, a chord
      when every one of its keys is held. */
  predicate Held(kc: KeyOrChord, held: set<Key>) {
    match kc
    case Single(k) => k in held
    case Chord(c) => forall k :: k in c ==> k in held
  }

  /** What a match passes on as `keys`: the bare key for a single key, the entry's whole key
      list for a chord. */
  function Payload(kc: KeyOrChord, whole: seq<KeyOrChord>): EventKeys {
    match kc
    case Single(k) => BareKey(k)
    case Chord(_) => KeyList(whole)
  }

  /** The `matches` that `keyup` collects from the elements `prefix` of the key list `whole`. */
  function MatchesOf(prefix: seq<KeyOrChord>, whole: seq<KeyOrChord>, held: set<Key>): seq<EventKeys> {
    if prefix == [] then []
    else
      var last := prefix[|prefix| - 1];
      MatchesOf(prefix[..|prefix| - 1], whole, held) + (if Held(last, held) then [Payload(last, whole)] else [])
  }

  /** Whether a key-list element matches the keys `held`. */
  function HeldIn(held: set<Key>): KeyOrChord -> bool {
    (kc: KeyOrChord) => Held(kc, held)
  }

  /** What each of the elements `kcs` of the key list `whole` passes on when it matches. */
  function Payloads(kcs: seq<KeyOrChord>, whole: seq<KeyOrChord>): seq<EventKeys> {
    seq(|kcs|, i requires 0 <= i < |kcs| => Payload(kcs[i], whole))
  }

  lemma PayloadsAppend(a: seq<KeyOrChord>, b: seq<KeyOrChord>, whole: seq<KeyOrChord>)
    ensures Payloads(a + b, whole) == Payloads(a, whole) + Payloads(b, whole)
  {
    assert forall i :: 0 <= i < |a| ==> (a + b)[i] == a[i];
    assert forall i :: |a| <= i < |a + b| ==> (a + b)[i] == b[i - |a|];
  }

  /** One match per held element of the key list, in key-list order. */
  lemma {:induction false} MatchesAreHeldElements(prefix: seq<KeyOrChord>, whole: seq<KeyOrChord>, held: set<Key>)
    ensures MatchesOf(prefix, whole, held) == Payloads(Seqs.Filter(prefix, HeldIn(held)), whole)
  {
    if prefix != [] {
      var init, last := prefix[..|prefix| - 1], prefix[|prefix| - 1];
      MatchesAreHeldElements(init, whole, held);
      assert prefix == init + [last];
      Seqs.FilterAppend(init, [last], HeldIn(held));
      var hitsInit, hitLast := Seqs.Filter(init, HeldIn(held)), Seqs.Filter([last], HeldIn(held));
      assert [last][1..] == [];
      assert hitLast == if Held(last, held) then [last] else [];
      PayloadsAppend(hitsInit, hitLast, whole);
    }
  }

  /** The calls `keyup` makes for the matches of one action. */
  function CallsForMatches(hs: seq<Binding>, name: ActionName, matches: seq<EventKeys>, data: Option<Key>, handle: Handle): seq<Call> {
    if matches == [] then []
    else
      CallsForMatches(hs, name, matches[..|matches| - 1], data, handle) +
      TriggerCalls(hs, ActionEvent(name, matches[|matches| - 1], data), handle)
  }

  /** The calls `keyup` makes for the entries of one table. */
  function EntriesCalls(hs: seq<Binding>, entries: seq<Entry>, held: set<Key>, data: Option<Key>, handle: Handle): seq<Call> {
    if entries == [] then []
    else
      var last := entries[|entries| - 1];
      EntriesCalls(hs, entries[..|entries| - 1], held, data, handle) +
      CallsForMatches(hs, last.name, MatchesOf(last.keys, last.keys, held), data, handle)
  }

  /** All the calls `keyup` makes: table by table in registration order. */
  function KeyupCalls(hs: seq<Binding>, ds: seq<ActionDefinitions>, held: set<Key>, data: Option<Key>, handle: Handle): seq<Call> {
    if ds == [] then []
    else KeyupCalls(hs, ds[..|ds| - 1], held, data, handle) + EntriesCalls(hs, ds[|ds| - 1].entries, held, data, handle)
  }

  /** Tables fire in registration order: the calls for two lists of tables are those of the first
      followed by those of the second. */
  lemma {:induction false} KeyupCallsAppend(hs: seq<Binding>, a: seq<ActionDefinitions>, b: seq<ActionDefinitions>, held: set<Key>, data: Option<Key>, handle: Handle)
    ensures KeyupCalls(hs, a + b, held, data, handle) == KeyupCalls(hs, a, held, data, handle) + KeyupCalls(hs, b, held, data, handle)
    decreases |b|
  {
    if b == [] {
      assert a + b == a;
    } else {
      var init := b[..|b| - 1];
      assert (a + b)[..|a + b| - 1] == a + init;
      assert (a + b)[|a + b| - 1] == b[|b| - 1];
      KeyupCallsAppend(hs, a, init, held, data, handle);
    }
  }

  /** With no key held, nothing fires, whatever is registered. */
  lemma {:induction false} NothingHeldFiresNothing(hs: seq<Binding>, ds: seq<ActionDefinitions>, data: Option<Key>, handle: Handle)
    requires forall d, e, kc :: d in ds && e in d.entries && kc in e.keys ==> kc.Single? || |kc.chord| > 0
    ensures KeyupCalls(hs, ds, {}, data, handle) == []
  {
    if ds != [] {
      var init := ds[..|ds| - 1];
      assert forall d :: d in init ==> d in ds;
      NothingHeldFiresNothing(hs, init, data, handle);
      var d := ds[|ds| - 1];
      NoEntryFires(hs, d.entries, data, handle);
    }
  }

  lemma {:induction false} NoEntryFires(hs: seq<Binding>, entries: seq<Entry>, data: Option<Key>, handle: Handle)
    requires forall e, kc :: e in entries && kc in e.keys ==> kc.Single? || |kc.chord| > 0
    ensures EntriesCalls(hs, entries, {}, data, handle) == []
  {
    if entries != [] {
      var init := entries[..|entries| - 1];
      assert forall e :: e in init ==> e in entries;
      NoEntryFires(hs, init, data, handle);
      var last := entries[|entries| - 1];
      var hits := Seqs.Filter(last.keys, HeldIn({}));
      MatchesAreHeldElements(last.keys, last.keys, {});
      forall kc | kc in last.keys ensures !Held(kc, {}) {
        if kc.Chord? {
          assert kc.chord[0] in kc.chord;
        }
      }
      if hits != [] {
        assert hits[0] in hits;
        Seqs.FilterMembership(last.keys, HeldIn({}), hits[0]);
      }
    }
  }

  // ----- the registry -----

  class Actions {
    /** The keys currently held down. */
    var keys: set<Key>
    /** The registered definition tables, in registration order. */
    var actionDefinitions: seq<ActionDefinitions>
    /** Each bound handler with its action names, in binding order. */
    var handlers: seq<Binding>

    /** Every handler is bound at most once. */
    ghost predicate Valid()
      reads this
    {
      UniqueHandlers(handlers)
    }

    constructor ()
      ensures Valid()
      ensures keys == {} && actionDefinitions == [] && handlers == []
    {
      keys := {};
      actionDefinitions := [];
      handlers := [];
    }

    /** Appends a definition table. */
    method Register(defs: ActionDefinitions)
      requires Valid()
      modifies this
      ensures Valid()
      ensures actionDefinitions == old(actionDefinitions) + [defs]
      ensures keys == old(keys) && handlers == old(handlers)
    {
      actionDefinitions := actionDefinitions + [defs];
    }

    /** Drops every occurrence of the table `defs` (by identity), keeping the rest in order. */
    method Unregister(defs: ActionDefinitions)
      requires Valid()
      modifies this
      ensures Valid()
      ensures actionDefinitions == WithoutTable(old(actionDefinitions), defs.id)
      ensures keys == old(keys) && handlers == old(handlers)
    {
      actionDefinitions := WithoutTable(actionDefinitions, defs.id);
    }

    /** Binds `handler` to the action names `actions`. */
    method Bind(actions: seq<ActionName>, handler: HandlerId)
      requires Valid()
      modifies this
      ensures Valid()
      ensures handlers == BindResult(old(handlers), actions, handler)
      ensures keys == old(keys) && actionDefinitions == old(actionDefinitions)
    {
      var found := HandlerIndex(handlers, handler);
      if found.None? {
        handlers := handlers + [Binding(handler, ToSet(actions))];
        return;
      }
      var hI := found.value;
      var bound := handlers[hI].actions;
      var i := 0;
      while i < |actions|
        invariant 0 <= i <= |actions|
        invariant unchanged(this)
        invariant bound == handlers[hI].actions + ToSet(actions[..i])
      {
        ToSetSnoc(actions, i);
        bound := bound + {actions[i]};
        i := i + 1;
      }
      assert actions[..i] == actions;
      ReplaceEntry(handlers, hI, Binding(handler, bound));
      handlers := handlers[hI := Binding(handler, bound)];
    }

    /** Unbinds `handler` from the action names `actions`, dropping it once it has none left. */
    method Unbind(actions: seq<ActionName>, handler: HandlerId)
      requires Valid()
      modifies this
      ensures Valid()
      ensures handlers == UnbindResult(old(handlers), actions, handler)
      ensures keys == old(keys) && actionDefinitions == old(actionDefinitions)
    {
      var found := HandlerIndex(handlers, handler);
      if found.None? {
        return;
      }
      var hI := found.value;
      var bound := handlers[hI].actions;
      var i := 0;
      while i < |actions|
        invariant 0 <= i <= |actions|
        invariant unchanged(this)
        invariant bound == handlers[hI].actions - ToSet(actions[..i])
      {
        ToSetSnoc(actions, i);
        bound := bound - {actions[i]};
        i := i + 1;
      }
      assert actions[..i] == actions;
      if bound == {} {
        DropEntry(handlers, hI);
        handlers := handlers[..hI] + handlers[hI + 1..];
      } else {
        ReplaceEntry(handlers, hI, Binding(handler, bound));
        handlers := handlers[hI := Binding(handler, bound)];
      }
    }

    /** Records a pressed key, unless an input element has the focus. */
    method Keydown(key: Key, inputFocused: bool)
      requires Valid()
      modifies this
      ensures Valid()
      ensures keys == if inputFocused then old(keys) else old(keys) + {key}
      ensures actionDefinitions == old(actionDefinitions) && handlers == old(handlers)
    {
      if inputFocused {
        return;
      }
      keys := keys + {key};
    }

    /** The matches of one key list against the held keys (the body of `keyup`'s entry loop). */
    method CollectMatches(list: seq<KeyOrChord>) returns (matches: seq<EventKeys>)
      ensures matches == MatchesOf(list, list, keys)
    {
      matches := [];
      var j := 0;
      while j < |list|
        invariant 0 <= j <= |list|
        invariant matches == MatchesOf(list[..j], list, keys)
      {
        assert list[..j + 1][..j] == list[..j];
        match list[j] {
          case Chord(chord) =>
            var allHeld := true;
            var a := 0;
            while a < |chord|
              invariant 0 <= a <= |chord|
              invariant allHeld <==> forall k :: k in chord[..a] ==> k in keys
            {
              assert chord[..a + 1] == chord[..a] + [chord[a]];
              if chord[a] !in keys {
                allHeld := false;
              }
              a := a + 1;
            }
            assert chord[..a] == chord;
            if allHeld {
              matches := matches + [KeyList(list)];
            }
          case Single(k) =>
            if k in keys {
              matches := matches + [BareKey(k)];
            }
        }
        j := j + 1;
      }
      assert list[..j] == list;
    }

    /** Fires every registered action whose keys match the held keys, then forgets the released key.
        Nothing happens while an input element has the focus. */
    method Keyup(key: Key, inputFocused: bool, handle: Handle) returns (calls: seq<Call>)
      requires Valid()
      modifies this
      ensures Valid()
      ensures inputFocused ==> calls == [] && keys == old(keys)
      ensures !inputFocused ==> keys == old(keys) - {key}
      ensures !inputFocused ==> calls == KeyupCalls(handlers, actionDefinitions, old(keys), Some(key), handle)
      ensures actionDefinitions == old(actionDefinitions) && handlers == old(handlers)
    {
      calls := [];
      if inputFocused {
        return;
      }
      var ds := actionDefinitions;
      var d := 0;
      while d < |ds|
        invariant 0 <= d <= |ds|
        invariant unchanged(this)
        invariant calls == KeyupCalls(handlers, ds[..d], keys, Some(key), handle)
      {
        assert ds[..d + 1][..d] == ds[..d];
        var fired := FireEntries(ds[d].entries, Some(key), handle);
        calls := calls + fired;
        d := d + 1;
      }
      assert ds[..d] == ds;
      keys := keys - {key};
    }

    /** Fires the actions of one definition table, entry by entry (the body of `keyup`'s table loop). */
    method FireEntries(entries: seq<Entry>, data: Option<Key>, handle: Handle) returns (calls: seq<Call>)
      ensures calls == EntriesCalls(handlers, entries, keys, data, handle)
    {
      calls := [];
      var n := 0;
      while n < |entries|
        invariant 0 <= n <= |entries|
        invariant calls == EntriesCalls(handlers, entries[..n], keys, data, handle)
      {
        assert entries[..n + 1][..n] == entries[..n];
        var entry := entries[n];
        var matches := CollectMatches(entry.keys);
        var fired := FireMatches(entry.name, matches, data, handle);
        calls := calls + fired;
        n := n + 1;
      }
      assert entries[..n] == entries;
    }

    /** Triggers the action once per match, in order (the end of `keyup`'s entry loop). */
    method FireMatches(name: ActionName, matches: seq<EventKeys>, data: Option<Key>, handle: Handle) returns (calls: seq<Call>)
      ensures calls == CallsForMatches(handlers, name, matches, data, handle)
    {
      calls := [];
      var m := 0;
      while m < |matches|
        invariant 0 <= m <= |matches|
        invariant calls == CallsForMatches(handlers, name, matches[..m], data, handle)
      {
        assert matches[..m + 1][..m] == matches[..m];
        var fired := Trigger(name, matches[m], data, handle);
        calls := calls + fired;
        m := m + 1;
      }
      assert matches[..m] == matches;
    }

    /** Calls the handlers bound to `actionName` in binding order, until one returns false. */
    method Trigger(actionName: ActionName, eventKeys: EventKeys, data: Option<Key>, handle: Handle) returns (calls: seq<Call>)
      ensures calls == TriggerCalls(handlers, ActionEvent(actionName, eventKeys, data), handle)
    {
      var e := ActionEvent(actionName, eventKeys, data);
      calls := [];
      var i := 0;
      while i < |handlers|
        invariant 0 <= i <= |handlers|
        invariant TriggerCalls(handlers, e, handle) == calls + TriggerCalls(handlers[i..], e, handle)
      {
        assert handlers[i..][1..] == handlers[i + 1..];
        var binding := handlers[i];
        if actionName in binding.actions {
          calls := calls + [Call(binding.handler, e)];
          if !handle(binding.handler, e) {
            return;
          }
        }
        i := i + 1;
      }
    }
  }
}
