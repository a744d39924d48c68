/**
 The widget meta-state store: a map from widget id to that widget's property
 object, and the reducer's transitions over it. Every transition is a pure
 function from the current state and the action's payload to the next state.
 */
module MetaReducer {
  import opened MetaValues
  import opened DeepMerge
  import opened PathSet

  type MetaState = map<string, Props>

  /** The state before any action, and after every page load. */
  const InitialState: MetaState := map[]

  /** The whole state seen as one nested object, the way lodash sees it. */
  function AsVal(state: MetaState): (v: Val)
    ensures v.Obj? && v.fields.Keys == state.Keys
    ensures forall w :: w in state ==> v.fields[w] == Obj(state[w])
  {
    Obj(map w | w in state :: Obj(state[w]))
  }

  datatype Position = Position(left: real, top: real)

  /** Payload of TABLE_PANE_MOVED. */
  datatype PanePositionConfig = PanePositionConfig(widgetId: string, isMoved: bool, position: Position)

  /** The position object stored for a moved pane. */
  function PositionVal(p: Position): Val
  {
    Obj(map["left" := Leaf(Num(p.left)), "top" := Leaf(Num(p.top))])
  }

  const MovedFlag: Val := Leaf(Bool(true))

  /** The actions the reducer handles, with their payloads. */
  datatype Action =
    | UpdateMetaState(metaUpdates: MetaState)
    | SetMetaProp(widgetId: string, propertyName: string, propertyValue: Val)
    | TablePaneMoved(config: PanePositionConfig)
    | WidgetDelete(widgetId: string)
    | ResetWidgetMeta(widgetId: string)
    | FetchPageSuccess
    | FetchPublishedPageSuccess

  /** UPDATE_META_STATE: deep-merge the evaluation's updates into the state. */
  function ApplyMetaUpdates(state: MetaState, updates: MetaState): (r: MetaState)
    ensures r.Keys == state.Keys + updates.Keys
    ensures forall w :: w in state && w !in updates ==> r[w] == state[w]
    ensures forall w :: w in updates ==> r[w].Keys == (if w in state then state[w].Keys else {}) + updates[w].Keys
  {
    map w | w in state.Keys + updates.Keys ::
      if w in updates then MergeProps(if w in state then state[w] else map[], updates[w])
      else state[w]
  }

  /** The widget a SET_META_PROP for `widgetId` writes under: the first
      segment of the id once the dotted path is split. */
  function SetTarget(widgetId: string): (w: string)
    ensures '.' !in w
    ensures '.' !in widgetId ==> w == widgetId
    ensures |w| <= |widgetId| && widgetId[..|w|] == w
    ensures w == widgetId || widgetId[|w|] == '.'
  {
    SplitFirstSegment(widgetId);
    assert '.' !in widgetId ==> SplitPath(widgetId) == [widgetId] by {
      if '.' !in widgetId { SplitDotFree(widgetId); }
    }
    SplitPath(widgetId)[0]
  }

  /** SET_META_PROP: store `value` at the dotted path `widgetId.propertyName`. */
  function SetMetaProperty(state: MetaState, widgetId: string, propertyName: string, value: Val): (r: MetaState)
    ensures r.Keys == state.Keys + {SetTarget(widgetId)}
    ensures forall w :: w in state && w != SetTarget(widgetId) ==> r[w] == state[w]
  {
    var path := SplitPath(widgetId + "." + propertyName);
    SplitConcat(widgetId, propertyName);
    var w := path[0];
    state[w := SetProps(if w in state then state[w] else map[], path[1..], value)]
  }

  /** TABLE_PANE_MOVED: flag the widget's pane as moved and record where.
      The payload's own `isMoved` is not consulted. */
  function MoveTablePane(state: MetaState, config: PanePositionConfig): (r: MetaState)
    ensures r.Keys == state.Keys + {config.widgetId}
    ensures forall w :: w in state && w != config.widgetId ==> r[w] == state[w]
    ensures config.widgetId !in state ==>
      r[config.widgetId] == map["isMoved" := MovedFlag, "position" := PositionVal(config.position)]
    ensures config.widgetId in state ==>
      && r[config.widgetId].Keys == state[config.widgetId].Keys + {"isMoved", "position"}
      && forall k :: k in state[config.widgetId] && k != "isMoved" && k != "position" ==>
           r[config.widgetId][k] == state[config.widgetId][k]
    ensures r[config.widgetId]["isMoved"] == MovedFlag
    ensures r[config.widgetId]["position"] == PositionVal(config.position)
  {
    var id := config.widgetId;
    var position := PositionVal(config.position);
    if id !in state then
      state[id := map["isMoved" := MovedFlag, "position" := position]]
    else
      state[id := state[id]["isMoved" := MovedFlag]["position" := position]]
  }

  /** WIDGET_DELETE: drop the widget's entry. */
  function DeleteWidget(state: MetaState, widgetId: string): (r: MetaState)
    ensures r.Keys == state.Keys - {widgetId}
    ensures forall w :: w in r ==> r[w] == state[w]
    ensures widgetId !in state ==> r == state
  {
    state - {widgetId}
  }

  /** RESET_WIDGET_META: empty the widget's entry but keep its key. */
  function ResetWidget(state: MetaState, widgetId: string): (r: MetaState)
    ensures r.Keys == state.Keys
    ensures widgetId in state ==> r[widgetId] == map[]
    ensures forall w :: w in state && w != widgetId ==> r[w] == state[w]
    ensures widgetId !in state ==> r == state
  {
    if widgetId in state then
      var copy := state[widgetId];
      state[widgetId := copy - copy.Keys]
    else state
  }

  /** The reducer: the transition each action selects. */
  function Reduce(state: MetaState, action: Action): (r: MetaState)
    ensures action.UpdateMetaState? ==> r.Keys == state.Keys + action.metaUpdates.Keys
    ensures action.SetMetaProp? ==> r.Keys == state.Keys + {SetTarget(action.widgetId)}
    ensures action.TablePaneMoved? ==> r.Keys == state.Keys + {action.config.widgetId}
    ensures action.WidgetDelete? ==> r.Keys == state.Keys - {action.widgetId}
    ensures action.ResetWidgetMeta? ==> r.Keys == state.Keys
    ensures action.FetchPageSuccess? || action.FetchPublishedPageSuccess? ==> r == map[]
  {
    match action
    case UpdateMetaState(updates) => ApplyMetaUpdates(state, updates)
    case SetMetaProp(id, name, value) => SetMetaProperty(state, id, name, value)
    case TablePaneMoved(config) => MoveTablePane(state, config)
    case WidgetDelete(id) => DeleteWidget(state, id)
    case ResetWidgetMeta(id) => ResetWidget(state, id)
    case FetchPageSuccess => InitialState
    case FetchPublishedPageSuccess => InitialState
  }

  /** The state after dispatching `actions` in order. */
  function ReduceAll(state: MetaState, actions: seq<Action>): MetaState
    decreases |actions|
  {
    if |actions| == 0 then state else ReduceAll(Reduce(state, actions[0]), actions[1..])
  }

  /** Whether `action` can give widget `w` an entry it did not have. */
  predicate Registers(action: Action, w: string)
  {
    match action
    case UpdateMetaState(updates) => w in updates
    case SetMetaProp(id, _, _) => w == SetTarget(id)
    case TablePaneMoved(config) => w == config.widgetId
    case _ => false
  }
}
