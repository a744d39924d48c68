# Widget meta-state reducer

A Dafny model of Appsmith's widget meta-state reducer
(`app/client/src/reducers/entityReducers/metaReducer.ts`). The meta state maps
each widget id to a schema-less property object holding the widget's transient
runtime state: a selection, a toggle, a filter pane's screen position. The
reducer handles seven actions, and each one is a pure function from the state
and the action's payload to the next state:

- `UPDATE_META_STATE` deep-merges the evaluation engine's updates into the state. It uses lodash `merge`.
- `SET_META_PROP` stores one value at the dotted path `widgetId.propertyName`. It uses lodash `set`.
- `TABLE_PANE_MOVED` marks a table's filter pane as moved and records its position.
- `WIDGET_DELETE` removes a widget's entry.
- `RESET_WIDGET_META` empties a widget's entry but keeps its key.
- `FETCH_PAGE_SUCCESS` and `FETCH_PUBLISHED_PAGE_SUCCESS` reset the state to empty.

Layout:

- `meta_values.dfy` (`MetaValues`) defines the value trees. A `Val` is `Leaf(Scalar)` or `Obj(map<string, Val>)`. It also defines path lookup `Get`, the observation that all the laws are stated with.
- `deep_merge.dfy` (`DeepMerge`) models lodash `merge` over objects and scalars, with its locality, last-writer-wins and idempotence laws.
- `path_set.dfy` (`PathSet`) models lodash `set` with a dotted string path. It covers splitting the string into segments and creating intermediate objects on demand.
- `meta_reducer.dfy` (`MetaReducer`) holds `MetaState`, the payload types, the action datatype, one function per handler, and `Reduce`.
- `meta_laws.dfy` (`MetaLaws`) holds the laws of the transitions. They relate each typed transition to the generic `merge`/`set` on the whole state (`AsVal`), and state how transitions compose.

Immer's `produce` and lodash's `cloneDeep` exist in the source only to get
value semantics. Dafny values are immutable, so the model gets those semantics
without anything standing in for them.

Two details of the handlers shape the model:

- SET_META_PROP joins the widget id and the property name into one dotted string before splitting it (line 41). So a dot inside the widget id splits it too, and the entry written is the id's first segment (`MetaReducer.SetTarget`).
- The reducer has seven handlers. Both page-fetch actions reset the state.

## Model

| member | source | states |
|---|---|---|
| DeepMerge.Merge | app/client/src/reducers/entityReducers/metaReducer.ts:28-30 | A scalar in the source replaces the destination. An object in the source yields an object whose keys are the union of both sides. Destination keys the source lacks keep their values. |
| DeepMerge.MergeProps | app/client/src/reducers/entityReducers/metaReducer.ts:28-30 | Merging two property objects gives the union of their keys. Keys only the destination has keep their values. Each key of the source holds the source value merged into the destination's value, or into an empty object when the destination lacks the key. |
| DeepMerge.MergeIntoNothing | app/client/src/reducers/entityReducers/metaReducer.ts:28-30 | Merging into a missing or scalar destination yields exactly the source. The fresh object lodash allocates ends up as a deep copy. |
| DeepMerge.MergeIdempotent | app/client/src/reducers/entityReducers/metaReducer.ts:28-30 | Merging the same source a second time leaves the result of the first merge unchanged. |
| DeepMerge.PathPositions | app/client/src/reducers/entityReducers/metaReducer.ts:25-31 | Every path has exactly one position relative to the source: not reached by it, present in it, or cut off below one of its scalars. The three laws that follow cover these three cases. |
| DeepMerge.MergeUntouched | app/client/src/reducers/entityReducers/metaReducer.ts:25-31 | A path the source does not reach has the same value after the merge as before. |
| DeepMerge.MergeReached | app/client/src/reducers/entityReducers/metaReducer.ts:28-30 | At a path present in the source, the result holds the source's value merged into what the destination had there. If the destination had nothing there, the source's value is merged into an empty object. |
| DeepMerge.MergeLeafWins | app/client/src/reducers/entityReducers/metaReducer.ts:28-30 | Every scalar leaf of the source is found at its path after the merge (last writer wins). |
| DeepMerge.MergeOverwritten | app/client/src/reducers/entityReducers/metaReducer.ts:28-30 | A path that continues below a scalar of the source no longer exists after the merge. |
| PathSet.SplitPath | app/client/src/reducers/entityReducers/metaReducer.ts:41 | A dotted path string splits into at least one segment, and no segment contains a dot. |
| PathSet.JoinSplit | app/client/src/reducers/entityReducers/metaReducer.ts:41 | Joining the segments with dots gives the original string back. |
| PathSet.SplitDotFree | app/client/src/reducers/entityReducers/metaReducer.ts:41 | A string without dots is one segment. |
| PathSet.SplitConcat | app/client/src/reducers/entityReducers/metaReducer.ts:41 | Splitting `a.b` gives the segments of `a` followed by those of `b`. |
| PathSet.SplitJoin | app/client/src/reducers/entityReducers/metaReducer.ts:41 | Dot-free segments come back unchanged after a join and a split. |
| PathSet.SetPath | app/client/src/reducers/entityReducers/metaReducer.ts:39-43 | The result is an object whose keys are the old keys plus the first path segment. |
| PathSet.SetProps | app/client/src/reducers/entityReducers/metaReducer.ts:39-43 | Setting a path in one widget's properties adds the path's first key. Every other property keeps its value. |
| PathSet.SetPathGet | app/client/src/reducers/entityReducers/metaReducer.ts:39-43 | After the set, the path leads to the new value. |
| PathSet.SetPathCreates | app/client/src/reducers/entityReducers/metaReducer.ts:39-43 | Every proper prefix of the path leads to an object afterwards, whether it was missing or held a scalar before. |
| PathSet.SetPathBelow | app/client/src/reducers/entityReducers/metaReducer.ts:39-43 | Below the set path, the result holds exactly what the new value holds. |
| PathSet.SetPathDiverge | app/client/src/reducers/entityReducers/metaReducer.ts:37-45 | Any path that parts ways with the set path keeps its value. |
| PathSet.SetPathOverwrite | app/client/src/reducers/entityReducers/metaReducer.ts:39-43 | Of two sets of the same path, the later value wins outright. |
| PathSet.SetPathIdempotent | app/client/src/reducers/entityReducers/metaReducer.ts:39-43 | Setting the same value twice gives the same result as setting it once. |
| MetaReducer.ApplyMetaUpdates | app/client/src/reducers/entityReducers/metaReducer.ts:19-32 | The widgets afterwards are those of the state plus those of the updates. Widgets the updates do not mention keep their entries. A mentioned widget's keys are its old keys plus the update's keys. |
| MetaReducer.SetTarget | app/client/src/reducers/entityReducers/metaReducer.ts:41 | The entry a property set writes under is the widget id's prefix up to its first dot, or the whole id when it has no dot. |
| PathSet.SplitFirstSegment | app/client/src/reducers/entityReducers/metaReducer.ts:41 | The first segment of a dotted string is its prefix up to the first dot, or the whole string when it has no dot. |
| MetaReducer.SetMetaProperty | app/client/src/reducers/entityReducers/metaReducer.ts:33-46 | The widgets afterwards are the old ones plus the target widget, so a missing entry is created. Every other widget's entry is unchanged. |
| MetaReducer.MoveTablePane | app/client/src/reducers/entityReducers/metaReducer.ts:47-67 | An absent widget gets exactly `{isMoved: true, position}`. A present widget keeps all its other properties, gets `isMoved` true and has `position` replaced. Every other widget is unchanged. |
| MetaReducer.DeleteWidget | app/client/src/reducers/entityReducers/metaReducer.ts:68-75 | The id is no longer a key and every other entry is unchanged. Deleting an absent id returns the same state. |
| MetaReducer.ResetWidget | app/client/src/reducers/entityReducers/metaReducer.ts:76-94 | A present id keeps its key, now mapped to the empty object, and every other entry is unchanged. An absent id leaves the state as it was. |
| MetaReducer.Reduce | app/client/src/reducers/entityReducers/metaReducer.ts:16-101 | States which widget keys each action adds or removes. Either page-fetch success returns the empty state, whatever the state was before. |
| MetaLaws.ApplyMetaUpdatesIsMerge | app/client/src/reducers/entityReducers/metaReducer.ts:28-30 | The per-widget transition equals lodash `merge` of the whole update payload into the whole state. |
| MetaLaws.ApplyMetaUpdatesLocality | app/client/src/reducers/entityReducers/metaReducer.ts:25-31 | Every path the payload does not reach keeps its value. This covers both unmentioned widgets and unmentioned keys inside a mentioned widget. |
| MetaLaws.ApplyMetaUpdatesLeafWins | app/client/src/reducers/entityReducers/metaReducer.ts:28-30 | Every scalar leaf of the payload holds the payload's value afterwards. |
| MetaLaws.ApplyMetaUpdatesOverwritten | app/client/src/reducers/entityReducers/metaReducer.ts:28-30 | Paths continuing below a scalar of the payload are gone afterwards. |
| MetaLaws.ApplyMetaUpdatesCreates | app/client/src/reducers/entityReducers/metaReducer.ts:28-30 | A widget with no entry receives exactly its part of the payload. |
| MetaLaws.ApplyMetaUpdatesIdempotent | app/client/src/reducers/entityReducers/metaReducer.ts:28-30 | Applying the same payload twice gives the same state as applying it once. |
| MetaLaws.SetMetaPropertyIsSet | app/client/src/reducers/entityReducers/metaReducer.ts:37-45 | The per-widget transition equals lodash `set` of the joined dotted path on the whole state. |
| MetaLaws.SetMetaPropertyGet | app/client/src/reducers/entityReducers/metaReducer.ts:37-45 | Afterwards, the path of widget id then property segments leads to the new value. |
| MetaLaws.SetMetaPropertyCreates | app/client/src/reducers/entityReducers/metaReducer.ts:37-45 | Every intermediate node along the path is an object afterwards, so missing ones have been created. |
| MetaLaws.SetMetaPropertyIsolation | app/client/src/reducers/entityReducers/metaReducer.ts:37-45 | Any path that parts ways with the set path keeps its value, in this widget or in any other. |
| MetaLaws.SetMetaPropertyLastWins | app/client/src/reducers/entityReducers/metaReducer.ts:37-45 | Of two sets of the same property, the later value wins. |
| MetaLaws.SetMetaPropertyShallow | app/client/src/reducers/entityReducers/metaReducer.ts:37-45 | A dot-free id and property name assign one key in the widget's entry, and create the entry when it is missing. |
| MetaLaws.MoveIgnoresPayloadFlag | app/client/src/reducers/entityReducers/metaReducer.ts:53-65 | The payload's `isMoved` field has no effect on the result. |
| MetaLaws.MoveIdempotent | app/client/src/reducers/entityReducers/metaReducer.ts:47-67 | Moving a pane twice to the same position gives the same state as moving it once. |
| MetaLaws.MoveIsTwoSets | app/client/src/reducers/entityReducers/metaReducer.ts:47-67 | A move equals setting `isMoved` to true and then setting `position`, both through SET_META_PROP. |
| MetaLaws.DeleteIdempotent | app/client/src/reducers/entityReducers/metaReducer.ts:72-74 | Deleting twice gives the same state as deleting once. |
| MetaLaws.DeleteThenMove | app/client/src/reducers/entityReducers/metaReducer.ts:53-57 | After a delete, a move rebuilds the entry as exactly `{isMoved: true, position}`. |
| MetaLaws.ResetIdempotent | app/client/src/reducers/entityReducers/metaReducer.ts:80-93 | Resetting twice gives the same state as resetting once. |
| MetaLaws.ResetThenDelete | app/client/src/reducers/entityReducers/metaReducer.ts:76-94 | A reset keeps the key where a delete drops it. A delete after a reset gives the same state as the delete alone. |
| MetaLaws.ReduceAllNoNewKey | app/client/src/reducers/entityReducers/metaReducer.ts:18-101 | Over any sequence of actions, a widget gains an entry only from an action that writes to it. |
| MetaLaws.NoLeakAcrossPageLoad | app/client/src/reducers/entityReducers/metaReducer.ts:95-100 | After either page-fetch success, a widget has an entry only if a later action wrote to it. |
| MetaLaws.SetMoveDeleteScenario | app/client/src/reducers/entityReducers/metaReducer.ts:33-75 | Set `w1.value`, then move `w1`'s pane, then delete `w1`: the states are `{w1: {value}}`, then `{w1: {value, isMoved, position}}`, then `{}`. |

## Left out

- `createReducer`'s dispatch table lives in `utils/AppsmithUtils`, which is not part of this model. The model does not cover unknown action types or an undefined incoming state. The `Action` datatype has only the seven handled kinds.
- Immer's structural sharing is left out. The model uses plain value semantics instead.
- lodash `merge` is modelled over plain objects and scalars only. Arrays, typed arrays, `undefined` sources (lodash skips them where the destination already has the key, and otherwise stores the key with value `undefined`), functions and class instances are not modelled. Neither are lodash's guards on `__proto__` and `constructor` keys.
- lodash `set` is modelled as a split on `.` only. Bracket and quoted-key syntax is not modelled. Numeric segments, which make lodash create arrays, are not modelled. lodash's shortcut is not modelled either: when the whole joined string is already a key of the state, lodash writes under that key as is. Its guards on `__proto__`, `constructor` and `prototype` are left out too.
- The `UPDATE_META_STATE` payload is typed as widget id to property object, the shape the store itself has. A payload entry that is not an object is not modelled.
- Path segments (widget ids and property names) that name `Object.prototype` members are not modelled. RESET_WIDGET_META's `in` test (line 81) also sees inherited members such as `toString`, so for such an absent id the source adds an empty entry. Assigning `__proto__` in TABLE_PANE_MOVED (line 65) sets the prototype instead of adding an entry. In SET_META_PROP (lines 39-43), lodash `set` walking through a non-final segment such as `toString` with no own key finds the inherited member. That member is an object (a function), so `set` stores the shared member as an own key and writes below it. Every other object then sees the write, so `SetMetaProperty`'s isolation of other widgets does not hold for such segments.
- `undefined` is not a modelled property value. SET_META_PROP with an undefined `propertyValue` stores the key with value `undefined`, and the model has no such value.
- JavaScript numbers are modelled as exact reals, so floating-point rounding is not modelled.
- Object key order is not modelled. Dafny maps are unordered, while spread syntax keeps insertion order.
- The pane position is exactly `{left, top}`, as the payload interface declares. Extra runtime fields that `{...position}` would copy are not modelled.
- MetaLaws.SetMetaPropertyGet: stated only for a widget id without dots. For any id, the same follows from MetaLaws.SetMetaPropertyIsSet and PathSet.SetPathGet.
- MetaLaws.MoveIsTwoSets: stated only for a widget id without dots. With a dotted id, SET_META_PROP writes under the id's first segment, while the move writes under the whole id.
- Nothing outside `metaReducer.ts` is modelled. That includes `createReducer` (above), the action payload types in `actions/metaActions`, and unrelated parts of the repository such as widget components, server-side authentication and browser test scripts.
