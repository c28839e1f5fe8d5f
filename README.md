# Extero frontend bookkeeping, message tags and backend settings, in Dafny

Extero is a peer-to-peer chat and media application. This project models the in-memory parts of its
frontend and two small pure pieces shared with the backend:

- **`Actions`** — the keyboard action registry. It tracks the held keys, a list of action-definition
  tables (action name → key list, where an element is one key or a chord of keys) and an ordered list
  of handlers, each with a set of action names. `keyup` matches the held keys against every table and
  fires `trigger`. `trigger` calls the bound handlers in order until one returns `false`.
- **`fileStore`** — three file-transfer queues: files being assembled, pending sends keyed by
  (uuid, peer) and pending receives deduplicated by uuid. Each queue has add, remove, status update
  and clear-finished operations.
- **`windowStore`, `mediaStore`, `chatStore`** — a window-name → shown map, a media list and an
  append-only chat history.
- **The message vocabulary** — the four `type`-tag guards and the message shapes they stand for.
- **Backend settings** — the default settings, the structural `copy`, and how `from` overlays a
  parsed document on the defaults.

Each Svelte store is a class holding its current value in one field. Handler and definition-table
identity (`Object.is`) are natural-number ids. Whether an input element has the focus is a boolean
parameter. The behaviour of handlers is a function parameter `handle`, and the calls made are
returned as a log. JavaScript values (messages, settings documents) are a JSON-like datatype
(`JsValues.Value`). An object is an ordered list of properties, and reading a property looks up its
first occurrence.

Modules: `Wrappers` (Option/Result), `Seqs` (filter, find-index, update-first with their lemmas),
`KeyActions`, `FileStoreModel`, `WindowStoreModel`, `MediaStoreModel`, `ChatStoreModel`,
`JsValues`, `Api`, `Settings`.

Points where the model spells out what the code does:

- A chord match passes the entry's **whole** key list as `keys`, not the chord (`EventKeys.KeyList`).
  A single-key match passes the bare key (`EventKeys.BareKey`).
- In `addSending`/`addReceiving`, the updater returns nothing at the first duplicate. The store then
  holds `undefined`: `FileStore.value == None`. A later updater on that store that reads a list
  throws a `TypeError`, which the methods report as `threw`. `addSending([])` and `addReceiving([])`
  read nothing and do not throw. Sends before the duplicate were pushed into the old object, which
  is no longer held by the store.
- `refresh` of an undefined file store publishes `{}`, an object with no lists. This is why each
  list in `Files` is an `Option`.
- `addReceiving` deduplicates on uuid alone. `removeReceiving` and `updateReceivingStatus` match on
  uuid and peer.
- The window store is a plain `{}` record, so `ws[win]` also finds the names every object inherits
  from `Object.prototype` (`toString`, `constructor`, ...). Such a name reads as shown while the
  record holds no entry of its own for it. `hide` deletes only an own entry, so it cannot make an
  inherited name unshown. `show('__proto__')` assigns through the prototype accessor, which ignores
  `true`, so the record is unchanged.

## Model

| member | source | states |
|---|---|---|
| KeyActions.Actions.constructor | packages/frontend/src/shared/emitters/actions.ts:15-23 | no keys held, no tables, no handlers |
| KeyActions.Actions.Register | packages/frontend/src/shared/emitters/actions.ts:24-26 | the table is appended; keys and handlers are unchanged |
| KeyActions.Actions.Unregister | packages/frontend/src/shared/emitters/actions.ts:27-29 | the tables become `WithoutTable` of the old list; keys and handlers are unchanged |
| KeyActions.UnregisterEffect | packages/frontend/src/shared/emitters/actions.ts:27-29 | a table survives iff it was registered and is not the argument; the rest keep their order (removal distributes over concatenation) |
| KeyActions.RegisterThenUnregister | packages/frontend/src/shared/emitters/actions.ts:24-29 | registering a new table and then unregistering it restores the list |
| KeyActions.Actions.Bind | packages/frontend/src/shared/emitters/actions.ts:30-39 | handler uniqueness is preserved; the handlers become `BindResult`; keys and tables are unchanged |
| KeyActions.BindEffect | packages/frontend/src/shared/emitters/actions.ts:30-39 | a new handler gets exactly one entry, at the end, with exactly the given actions. A listed handler gains the actions, in the same place, and the length is unchanged. Every other handler's entry and action set is unchanged and they keep their order. Handlers stay unique |
| KeyActions.Actions.Unbind | packages/frontend/src/shared/emitters/actions.ts:40-51 | handler uniqueness is preserved; the handlers become `UnbindResult`; keys and tables are unchanged |
| KeyActions.UnbindEffect | packages/frontend/src/shared/emitters/actions.ts:40-51 | an unknown handler changes nothing. Otherwise the actions are removed from its set, and the handler stays listed iff its set is still non-empty; a kept entry stays in place, so the list keeps its length and order. Other handlers' entries are unchanged and keep their order. Handlers stay unique |
| KeyActions.BindThenUnbind | packages/frontend/src/shared/emitters/actions.ts:30-51 | binding a new handler and then unbinding the same actions restores the handler list |
| KeyActions.Actions.Keydown | packages/frontend/src/shared/emitters/actions.ts:60-65 | the key is added to the held set unless an input has the focus; nothing else changes |
| KeyActions.Actions.CollectMatches | packages/frontend/src/shared/emitters/actions.ts:72-89 | the matches are `MatchesOf` the key list against the held keys |
| KeyActions.MatchesAreHeldElements | packages/frontend/src/shared/emitters/actions.ts:73-89 | one match per held element of the key list, in key-list order: a chord counts only when all its keys are held, a single key when it is held. A chord match carries the whole key list, a single-key match the bare key |
| KeyActions.Actions.FireEntries | packages/frontend/src/shared/emitters/actions.ts:71-93 | the calls for one table are `EntriesCalls`: entry by entry, the matches of its key list, each triggered in order |
| KeyActions.Actions.FireMatches | packages/frontend/src/shared/emitters/actions.ts:90-92 | `trigger` is run once per match, in order, and the calls are concatenated |
| KeyActions.Actions.Keyup | packages/frontend/src/shared/emitters/actions.ts:66-96 | while an input has the focus, nothing fires and the held keys are unchanged. Otherwise the calls are `KeyupCalls` over all tables, computed with the keys held before release, and the held set loses exactly the released key. Tables and handlers are unchanged |
| KeyActions.KeyupCallsAppend | packages/frontend/src/shared/emitters/actions.ts:70-94 | tables fire in registration order: the calls for `a + b` are those for `a` followed by those for `b` |
| KeyActions.NothingHeldFiresNothing | packages/frontend/src/shared/emitters/actions.ts:70-94 | with no key held and no empty chord, `keyup` calls no handler |
| KeyActions.Actions.Trigger | packages/frontend/src/shared/emitters/actions.ts:97-111 | the calls are `TriggerCalls` of the handler list for the event |
| KeyActions.TriggerCallsPrefix | packages/frontend/src/shared/emitters/actions.ts:97-111 | `trigger` calls a prefix of the handlers bound to the action, in list order, each with the event. Every call but the last returned true. If it stops short, the last call returned false |
| KeyActions.TriggerCallsBound | packages/frontend/src/shared/emitters/actions.ts:97-111 | every call carries the triggered event and goes to a listed handler whose set holds the action |
| KeyActions.TriggerCallsOnce | packages/frontend/src/shared/emitters/actions.ts:97-111 | with unique handlers, no handler is called twice |
| FileStoreModel.FileStore.constructor | packages/frontend/src/stores/files.ts:23-27 | three empty lists |
| FileStoreModel.FileStore.AddAssembling | packages/frontend/src/stores/files.ts:33-38 | the file is appended to `assembling`; the other lists are unchanged; the method throws exactly when the store or the list is undefined, and then nothing changes |
| FileStoreModel.FileStore.RemoveAssembling | packages/frontend/src/stores/files.ts:39-44 | `assembling` becomes `AssemblingWithout` the uuid; the other lists are unchanged; same throwing rule |
| FileStoreModel.AssemblingWithoutExact | packages/frontend/src/stores/files.ts:41 | a file survives iff it was present and has another uuid; every survivor keeps its number of occurrences and its order |
| FileStoreModel.FileStore.ClearAssembling | packages/frontend/src/stores/files.ts:45-50 | `assembling` becomes empty; the others are unchanged; it throws only on an undefined store |
| FileStoreModel.FileStore.AddSending | packages/frontend/src/stores/files.ts:51-59 | when `AppendSends` succeeds, the sends are appended. At a duplicate the store becomes undefined, and the other lists are unchanged. It throws when the list is undefined and the batch is non-empty, and then nothing changes. An empty batch changes nothing |
| FileStoreModel.AppendSendsOutcome | packages/frontend/src/stores/files.ts:53-56 | the batch succeeds iff no send duplicates, by (uuid, peer), an existing entry or an earlier send of the batch. It then yields the old list followed by the sends |
| FileStoreModel.AppendSendsKeepsUnique | packages/frontend/src/stores/files.ts:53-56 | a successful batch keeps (uuid, peer) pairs unique |
| FileStoreModel.FileStore.RemoveSending | packages/frontend/src/stores/files.ts:60-65 | `sending` becomes `SendingWithout` (peer, uuid); the other lists are unchanged |
| FileStoreModel.SendingWithoutExact | packages/frontend/src/stores/files.ts:62 | exactly the entries with both that peer and that uuid are dropped; the rest keep their occurrences and order |
| FileStoreModel.FileStore.UpdateSendingStatus | packages/frontend/src/stores/files.ts:66-74 | `sending` becomes `WithSendStatus`; the other lists are unchanged |
| FileStoreModel.SendStatusUpdateIsLocal | packages/frontend/src/stores/files.ts:66-74 | the length is unchanged. Only the first entry matching (uuid, peer) changes, and only its status. With no match the list is unchanged |
| FileStoreModel.FileStore.ClearSent | packages/frontend/src/stores/files.ts:75-80 | `sending` becomes `Unsent`; the other lists are unchanged |
| FileStoreModel.UnsentExact | packages/frontend/src/stores/files.ts:77 | exactly the `sent` entries are dropped, keeping the rest in order |
| FileStoreModel.FileStore.AddReceiving | packages/frontend/src/stores/files.ts:81-89 | like `AddSending`, with `AppendReceives` |
| FileStoreModel.AppendReceivesOutcome | packages/frontend/src/stores/files.ts:83-86 | the batch succeeds iff no receive repeats, by uuid alone, the uuid of an existing entry or an earlier receive of the batch. It then yields the old list followed by the receives |
| FileStoreModel.AppendReceivesKeepsUnique | packages/frontend/src/stores/files.ts:83-86 | a successful batch keeps receive uuids unique |
| FileStoreModel.FileStore.RemoveReceiving | packages/frontend/src/stores/files.ts:90-95 | `receiving` becomes `ReceivingWithout` (peer, uuid); the other lists are unchanged |
| FileStoreModel.ReceivingWithoutExact | packages/frontend/src/stores/files.ts:92 | exactly the entries with both that peer and that uuid are dropped; the rest keep their occurrences and order |
| FileStoreModel.FileStore.UpdateReceivingStatus | packages/frontend/src/stores/files.ts:96-104 | `receiving` becomes `WithReceiveStatus`; the other lists are unchanged |
| FileStoreModel.ReceiveStatusUpdateIsLocal | packages/frontend/src/stores/files.ts:96-104 | the length is unchanged. Only the first entry matching (uuid, peer) changes, and only its status. With no match the list is unchanged |
| FileStoreModel.FileStore.ClearReceived | packages/frontend/src/stores/files.ts:105-110 | `receiving` becomes `Unreceived`; the other lists are unchanged |
| FileStoreModel.UnreceivedExact | packages/frontend/src/stores/files.ts:107 | exactly the `received` entries are dropped, keeping the rest in order |
| FileStoreModel.FileStore.Refresh | packages/frontend/src/stores/files.ts:111-113 | a defined store keeps its contents; an undefined one becomes an object with no lists |
| WindowStoreModel.WindowStore.constructor | packages/frontend/src/stores/windows.ts:7 | the record starts empty |
| WindowStoreModel.WindowStore.Refresh | packages/frontend/src/stores/windows.ts:13-15 | the record is unchanged |
| WindowStoreModel.WindowStore.Shown | packages/frontend/src/stores/windows.ts:16-22 | true iff `ws[win]` is truthy: the record's own entry when it has one, otherwise whether the name is inherited from `Object.prototype` |
| WindowStoreModel.WindowStore.Show | packages/frontend/src/stores/windows.ts:23-27 | the window reads as shown afterwards; the record gains or sets the window's entry, except for `__proto__`; every other key keeps its presence and value |
| WindowStoreModel.WindowStore.Hide | packages/frontend/src/stores/windows.ts:28-32 | the window's own entry is gone; it reads as shown afterwards iff its name is inherited; every other key keeps its presence and value |
| WindowStoreModel.ShowIdempotent | packages/frontend/src/stores/windows.ts:23-27 | showing twice leaves the same record as showing once |
| WindowStoreModel.HideAbsentIsNoOp | packages/frontend/src/stores/windows.ts:28-32 | hiding a window with no own entry leaves the record unchanged |
| WindowStoreModel.ShowHideIsolated | packages/frontend/src/stores/windows.ts:23-32 | showing or hiding one window does not change whether another is shown |
| WindowStoreModel.FreshStoreShowsInherited | packages/frontend/src/stores/windows.ts:7-32 | on a fresh store exactly the inherited names read as shown (`toString` does, `chat` does not), and hiding one of them leaves it shown |
| MediaStoreModel.MediaStore.constructor | packages/frontend/src/stores/media.ts:5 | the list starts empty |
| MediaStoreModel.MediaStore.Push | packages/frontend/src/stores/media.ts:11-17 | the element is appended; the earlier elements are unchanged |
| MediaStoreModel.MediaStore.Remove | packages/frontend/src/stores/media.ts:18-20 | the list becomes `WithoutUuid`; an element stays iff it was present with another uuid |
| MediaStoreModel.RemoveDropsExactlyUuid | packages/frontend/src/stores/media.ts:19 | no remaining element has the uuid; an element remains iff it was present with another uuid |
| MediaStoreModel.RemoveKeepsOrder | packages/frontend/src/stores/media.ts:19 | removal distributes over concatenation, so the survivors keep their order |
| MediaStoreModel.RemoveKeepsOccurrences | packages/frontend/src/stores/media.ts:19 | an element with another uuid keeps its number of occurrences |
| MediaStoreModel.RemoveAbsentIsNoOp | packages/frontend/src/stores/media.ts:19 | removing an absent uuid leaves the list unchanged |
| MediaStoreModel.MediaStore.Refresh | packages/frontend/src/stores/media.ts:21-23 | the list is unchanged |
| ChatStoreModel.ChatStore.constructor | packages/frontend/src/stores/chat.ts:5 | the history starts empty |
| ChatStoreModel.ChatStore.Push | packages/frontend/src/stores/chat.ts:11-15 | the entry becomes the last element; the length grows by one; earlier entries are unchanged |
| ChatStoreModel.ChatStore.Refresh | packages/frontend/src/stores/chat.ts:16-18 | the history is unchanged |
| JsValues.Get | packages/common/src/api.ts:6 | reading a property throws iff the value is `undefined` or `null`. On an object it yields the property's value, or `undefined` when the property is absent |
| Api.TypeIs | packages/common/src/api.ts:5-35 | `o.type === tag` throws iff `o` is `undefined`/`null`, and is true iff `o.type` is the string `tag` |
| Api.IsHelloMessage | packages/common/src/api.ts:5-7 | throws iff `o` is `undefined`/`null`; true iff `o.type` is the string `hello` |
| Api.IsJoinRoomMessage | packages/common/src/api.ts:15-17 | throws iff `o` is `undefined`/`null`; true iff `o.type` is the string `join-room` |
| Api.IsMemberJoinMessage | packages/common/src/api.ts:24-26 | throws iff `o` is `undefined`/`null`; true iff `o.type` is the string `member-join` |
| Api.IsMemberLeftMessage | packages/common/src/api.ts:33-35 | throws iff `o` is `undefined`/`null`; true iff `o.type` is the string `member-left` |
| Api.Encode | packages/common/src/api.ts:1-33 | each message shape is an object with distinct keys whose `type` is that message's tag |
| Api.Decode | packages/common/src/api.ts:1-35 | decoding throws exactly when the guards throw, and finds no message iff all four guards are false. The guard that passes decides the kind, whose tag is `o.type`, and each field is read from `o` (`undefined` when missing) |
| Api.DecodeEncode | packages/common/src/api.ts:1-35 | every message shape, written out with its tag, is recognised as that message with the same fields |
| Api.AtMostOneGuard | packages/common/src/api.ts:2-33 | when one guard holds, the other three are false |
| Api.GuardsSeeOnlyType | packages/common/src/api.ts:5-35 | two values with the same `type` get the same answer from every guard |
| Api.TagAloneSuffices | packages/common/src/api.ts:5-17 | an object with only a `type` tag passes its guard; its missing fields read as `undefined` |
| Api.UnknownTagPassesNoGuard | packages/common/src/api.ts:5-35 | an object whose tag is none of the four decodes to no message |
| JsValues.LookupAssign | packages/backend/src/settings.ts:69-72 | after spreading, a key's value is its last value in the spread source when present there, else its previous value |
| Settings.DefaultSettings | packages/backend/src/settings.ts:21-36 | the defaults have exactly the two top-level sections `http` and `roomManager`, each once |
| Settings.DefaultValues | packages/backend/src/settings.ts:21-36 | http port 3000 and roomManager port 3001, each with the TLS pair `localhost.key`/`localhost.cert` |
| Settings.Copy | packages/backend/src/settings.ts:38-52 | the copy is structurally equal to the source (arrays element by element, objects property by property, everything else unchanged) |
| Settings.Merge | packages/backend/src/settings.ts:69-72 | the merge is shallow (`OverlaidSection`): a top-level key of the document replaces the whole default section with the document's value for it (its last occurrence); any other top-level key keeps its default |
| Settings.HttpSectionWithoutTls | packages/backend/src/settings.ts:69-72 | for every document whose `http` section (its last occurrence) has no `tls`, the merged `http` is exactly that section, so it has no `tls` |
| Settings.MergeEmpty | packages/backend/src/settings.ts:61-72 | merging the empty document yields exactly the defaults |
| Settings.From | packages/backend/src/settings.ts:54-83 | a read error other than ENOENT is re-raised and yields no settings. A missing file yields exactly the defaults, with a write-back iff `create`. A parsed document yields the merge and no write-back |

## Left out

- `hook`/`unhook` (`window.addEventListener`) and the constructor's method binding are DOM wiring. The `document.activeElement` test is the `inputFocused` parameter.
- KeyActions.Actions.Keyup: `data` is the released key, standing for the keyboard event that `keyup` passes to `trigger`.
- KeyActions.Actions.Trigger: handlers are pure. A handler that itself binds, unbinds, registers or presses keys while `trigger` runs is not modelled.
- KeyActions.Actions.Trigger: the inner loop over a handler's `Set` is a membership test. The set holds each name once, so at most one element equals the action.
- KeyActions.Actions.Keyup: a table's action order follows its entry list. JavaScript's rule that integer-like keys come first in `Object.entries` is not modelled. The same holds for `JsValues` objects and the spread in `Settings.Merge`.
- Aliasing: the source keeps registered definition tables and queued send and receive records by reference, so a caller that later mutates one changes what `keyup` matches or what the store holds. The model stores values, so such later mutation is not captured.
- Svelte `writable` internals (subscribers, `set`, `update`, `subscribe`, `get`): each store is a single field. `set`/`update` called from outside with arbitrary values are not modelled.
- `FileStoreModel.PeerFile`, `PeerFileInfo` details, the chat history entry and the media stream are opaque values. Their type declarations live in other packages and are not part of this model.
- Settings.From: the YAML parse and the file read come in as a `ReadOutcome`. The file write and its log line are reported as the `writeBack` flag. A failing write (which makes `from` reject) is not modelled. `from`'s `file` argument and the defaults of its parameters (`'settings.yml'`, `create = true`) are not modelled: `create` is always passed. A parsed document that is not an object spreads its own enumerable properties. An array or string spreads by index, and any other value spreads as nothing.
- Settings.Copy: only structural copying over JSON-like values is modelled. `Date` cloning, property descriptors and prototypes are not. Numbers are integers; floating point is not modelled.
- The room membership broker, the HTTP server, `localStore`, markdown rendering, sounds and the frontend settings store are not part of this model.
