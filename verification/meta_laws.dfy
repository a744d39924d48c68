/**
 Laws of the meta-state transitions: how each relates to the generic deep
 merge and path set it is built from, what it leaves alone, and how
 transitions combine.
 */
module MetaLaws {
  import opened MetaValues
  import opened DeepMerge
  import opened PathSet
  import opened MetaReducer

  /** Distinct states are distinct objects. */
  lemma AsValInjective(a: MetaState, b: MetaState)
    requires AsVal(a) == AsVal(b)
    ensures a == b
  {
  }

  // ---------------------------------------------------------------------------
  // UPDATE_META_STATE

  /** The typed transition is lodash `merge` of the updates into the whole state. */
  lemma ApplyMetaUpdatesIsMerge(state: MetaState, updates: MetaState)
    ensures AsVal(ApplyMetaUpdates(state, updates)) == Merge(AsVal(state), AsVal(updates))
  {
  }

  /** Locality: every path the updates do not reach, in a widget they do not
      mention or below a key they do not mention, keeps its value. */
  lemma ApplyMetaUpdatesLocality(state: MetaState, updates: MetaState, path: Path)
    requires Untouched(AsVal(updates), path)
    ensures Get(AsVal(ApplyMetaUpdates(state, updates)), path) == Get(AsVal(state), path)
  {
    ApplyMetaUpdatesIsMerge(state, updates);
    MergeUntouched(AsVal(state), AsVal(updates), path);
  }

  /** Every scalar of the updates is in the state afterwards. */
  lemma ApplyMetaUpdatesLeafWins(state: MetaState, updates: MetaState, path: Path, x: Scalar)
    requires Get(AsVal(updates), path) == Some(Leaf(x))
    ensures Get(AsVal(ApplyMetaUpdates(state, updates)), path) == Some(Leaf(x))
  {
    ApplyMetaUpdatesIsMerge(state, updates);
    MergeLeafWins(AsVal(state), AsVal(updates), path, x);
  }

  /** Paths continuing below a scalar of the updates are gone afterwards. */
  lemma ApplyMetaUpdatesOverwritten(state: MetaState, updates: MetaState, path: Path)
    requires Overwritten(AsVal(updates), path)
    ensures Get(AsVal(ApplyMetaUpdates(state, updates)), path) == None
  {
    ApplyMetaUpdatesIsMerge(state, updates);
    MergeOverwritten(AsVal(state), AsVal(updates), path);
  }

  /** A widget without an entry receives a copy of its update. */
  lemma ApplyMetaUpdatesCreates(state: MetaState, updates: MetaState, w: string)
    requires w in updates && w !in state
    ensures ApplyMetaUpdates(state, updates)[w] == updates[w]
  {
    MergeIntoNothing(Obj(map[]), Obj(updates[w]));
  }

  /** Applying the same updates twice is applying them once. */
  lemma ApplyMetaUpdatesIdempotent(state: MetaState, updates: MetaState)
    ensures ApplyMetaUpdates(ApplyMetaUpdates(state, updates), updates) == ApplyMetaUpdates(state, updates)
  {
    var once := ApplyMetaUpdates(state, updates);
    ApplyMetaUpdatesIsMerge(state, updates);
    ApplyMetaUpdatesIsMerge(once, updates);
    MergeIdempotent(AsVal(state), AsVal(updates));
    AsValInjective(ApplyMetaUpdates(once, updates), once);
  }

  // ---------------------------------------------------------------------------
  // SET_META_PROP

  /** The typed transition is lodash `set` of the dotted path on the whole state. */
  lemma SetMetaPropertyIsSet(state: MetaState, widgetId: string, propertyName: string, value: Val)
    ensures AsVal(SetMetaProperty(state, widgetId, propertyName, value))
         == SetPath(AsVal(state), SplitPath(widgetId + "." + propertyName), value)
  {
    var path := SplitPath(widgetId + "." + propertyName);
    SplitConcat(widgetId, propertyName);
    var l := AsVal(SetMetaProperty(state, widgetId, propertyName, value));
    var r := SetPath(AsVal(state), path, value);
    assert l.fields == r.fields;
  }

  /** After the set, the widget's property path holds the value. */
  lemma SetMetaPropertyGet(state: MetaState, widgetId: string, propertyName: string, value: Val)
    requires '.' !in widgetId
    ensures Get(AsVal(SetMetaProperty(state, widgetId, propertyName, value)), [widgetId] + SplitPath(propertyName))
         == Some(value)
  {
    SplitConcat(widgetId, propertyName);
    SplitDotFree(widgetId);
    SetMetaPropertyIsSet(state, widgetId, propertyName, value);
    SetPathGet(AsVal(state), SplitPath(widgetId + "." + propertyName), value);
  }

  /** Missing or scalar intermediates along the path become objects. */
  lemma SetMetaPropertyCreates(state: MetaState, widgetId: string, propertyName: string, value: Val, i: nat)
    requires i < |SplitPath(widgetId + "." + propertyName)|
    ensures var path := SplitPath(widgetId + "." + propertyName);
      && Get(AsVal(SetMetaProperty(state, widgetId, propertyName, value)), path[..i]).Some?
      && Get(AsVal(SetMetaProperty(state, widgetId, propertyName, value)), path[..i]).value.Obj?
  {
    SetMetaPropertyIsSet(state, widgetId, propertyName, value);
    SetPathCreates(AsVal(state), SplitPath(widgetId + "." + propertyName), value, i);
  }

  /** Isolation: any path parting ways with the set path keeps its value. */
  lemma SetMetaPropertyIsolation(state: MetaState, widgetId: string, propertyName: string, value: Val, q: Path)
    requires Diverge(SplitPath(widgetId + "." + propertyName), q)
    ensures Get(AsVal(SetMetaProperty(state, widgetId, propertyName, value)), q) == Get(AsVal(state), q)
  {
    SetMetaPropertyIsSet(state, widgetId, propertyName, value);
    SetPathDiverge(AsVal(state), SplitPath(widgetId + "." + propertyName), value, q);
  }

  /** Of two sets of the same property, the later one wins outright. */
  lemma SetMetaPropertyLastWins(state: MetaState, widgetId: string, propertyName: string, x: Val, y: Val)
    ensures SetMetaProperty(SetMetaProperty(state, widgetId, propertyName, x), widgetId, propertyName, y)
         == SetMetaProperty(state, widgetId, propertyName, y)
  {
    var path := SplitPath(widgetId + "." + propertyName);
    var once := SetMetaProperty(state, widgetId, propertyName, x);
    SetMetaPropertyIsSet(state, widgetId, propertyName, x);
    SetMetaPropertyIsSet(once, widgetId, propertyName, y);
    SetMetaPropertyIsSet(state, widgetId, propertyName, y);
    SplitConcat(widgetId, propertyName);
    SetPathOverwrite(AsVal(state), path, x, y);
    AsValInjective(SetMetaProperty(once, widgetId, propertyName, y), SetMetaProperty(state, widgetId, propertyName, y));
  }

  // ---------------------------------------------------------------------------
  // TABLE_PANE_MOVED

  /** The payload's `isMoved` has no effect: the flag stored is always true. */
  lemma MoveIgnoresPayloadFlag(state: MetaState, config: PanePositionConfig, flag: bool)
    ensures MoveTablePane(state, config.(isMoved := flag)) == MoveTablePane(state, config)
  {
  }

  /** Moving a pane twice to the same place is moving it once. */
  lemma MoveIdempotent(state: MetaState, config: PanePositionConfig)
    ensures MoveTablePane(MoveTablePane(state, config), config) == MoveTablePane(state, config)
  {
    var id := config.widgetId;
    var once := MoveTablePane(state, config);
    var twice := MoveTablePane(once, config);
    assert twice[id] == once[id];
  }

  /** A plain property name is a single key: the set assigns it in the
      widget's entry, creating the entry when missing. */
  lemma SetMetaPropertyShallow(state: MetaState, widgetId: string, name: string, value: Val)
    requires '.' !in widgetId && '.' !in name
    ensures SetMetaProperty(state, widgetId, name, value)
         == state[widgetId := (if widgetId in state then state[widgetId] else map[])[name := value]]
  {
    SplitDotFree(widgetId);
    SplitDotFree(name);
    SplitConcat(widgetId, name);
    assert SplitPath(widgetId + "." + name) == [widgetId, name];
  }

  /** A move is the two property sets `isMoved` and `position` in a row. */
  lemma MoveIsTwoSets(state: MetaState, config: PanePositionConfig)
    requires '.' !in config.widgetId
    ensures MoveTablePane(state, config)
         == SetMetaProperty(SetMetaProperty(state, config.widgetId, "isMoved", MovedFlag),
                            config.widgetId, "position", PositionVal(config.position))
  {
    var id := config.widgetId;
    var before := if id in state then state[id] else map[];
    var s1 := SetMetaProperty(state, id, "isMoved", MovedFlag);
    SetMetaPropertyShallow(state, id, "isMoved", MovedFlag);
    SetMetaPropertyShallow(s1, id, "position", PositionVal(config.position));
    assert MoveTablePane(state, config)[id] == before["isMoved" := MovedFlag]["position" := PositionVal(config.position)];
  }

  // ---------------------------------------------------------------------------
  // WIDGET_DELETE and RESET_WIDGET_META

  /** Deleting twice is deleting once. */
  lemma DeleteIdempotent(state: MetaState, widgetId: string)
    ensures DeleteWidget(DeleteWidget(state, widgetId), widgetId) == DeleteWidget(state, widgetId)
  {
  }

  /** Nothing survives a delete: a move afterwards builds the entry afresh. */
  lemma DeleteThenMove(state: MetaState, config: PanePositionConfig)
    ensures MoveTablePane(DeleteWidget(state, config.widgetId), config)[config.widgetId]
         == map["isMoved" := MovedFlag, "position" := PositionVal(config.position)]
  {
  }

  /** Resetting twice is resetting once. */
  lemma ResetIdempotent(state: MetaState, widgetId: string)
    ensures ResetWidget(ResetWidget(state, widgetId), widgetId) == ResetWidget(state, widgetId)
  {
  }

  /** Reset and delete differ only in whether the key stays: reset keeps it,
      and a delete after a reset is just a delete. */
  lemma ResetThenDelete(state: MetaState, widgetId: string)
    ensures DeleteWidget(ResetWidget(state, widgetId), widgetId) == DeleteWidget(state, widgetId)
    ensures widgetId in state ==> widgetId in ResetWidget(state, widgetId) && widgetId !in DeleteWidget(state, widgetId)
  {
  }

  // ---------------------------------------------------------------------------
  // Sequences of actions

  /** A widget no action registers does not gain an entry. */
  lemma {:induction false} ReduceAllNoNewKey(state: MetaState, actions: seq<Action>, w: string)
    requires w !in state
    requires forall i :: 0 <= i < |actions| ==> !Registers(actions[i], w)
    ensures w !in ReduceAll(state, actions)
    decreases |actions|
  {
    if |actions| > 0 {
      assert !Registers(actions[0], w);
      forall i | 0 <= i < |actions[1..]|
        ensures !Registers(actions[1..][i], w)
      {
        assert actions[1..][i] == actions[i + 1];
      }
      ReduceAllNoNewKey(Reduce(state, actions[0]), actions[1..], w);
    }
  }

  /** No meta state leaks across a page load: after either page-fetch
      success, a widget has an entry only if a later action gave it one. */
  lemma NoLeakAcrossPageLoad(state: MetaState, load: Action, actions: seq<Action>, w: string)
    requires load.FetchPageSuccess? || load.FetchPublishedPageSuccess?
    requires forall i :: 0 <= i < |actions| ==> !Registers(actions[i], w)
    ensures w !in ReduceAll(state, [load] + actions)
  {
    assert ([load] + actions)[1..] == actions;
    ReduceAllNoNewKey(InitialState, actions, w);
  }

  /** Set a value, move the pane, delete the widget: the entry grows and then
      disappears with nothing left behind. */
  lemma SetMoveDeleteScenario()
    ensures var s1 := SetMetaProperty(InitialState, "w1", "value", Leaf(Str("x")));
      && s1 == map["w1" := map["value" := Leaf(Str("x"))]]
      && var s2 := MoveTablePane(s1, PanePositionConfig("w1", false, Position(10.0, 20.0)));
      && s2 == map["w1" := map["value" := Leaf(Str("x")), "isMoved" := MovedFlag,
                               "position" := PositionVal(Position(10.0, 20.0))]]
      && DeleteWidget(s2, "w1") == InitialState
  {
    SplitDotFree("w1");
    SplitDotFree("value");
    SplitConcat("w1", "value");
    var s1 := SetMetaProperty(InitialState, "w1", "value", Leaf(Str("x")));
    assert s1["w1"] == map["value" := Leaf(Str("x"))];
    var s2 := MoveTablePane(s1, PanePositionConfig("w1", false, Position(10.0, 20.0)));
    assert s2["w1"] == map["value" := Leaf(Str("x")), "isMoved" := MovedFlag,
                           "position" := PositionVal(Position(10.0, 20.0))];
  }
}
