/** The undo/redo depth-limit setting: one mutable number with a getter and a setter. */
module TeConfig {

  const DefaultUndoRedoDepthLimit: int := 20

  /** The module-level cell `undoRedoDepthLimit`. */
  class Config {
    var undoRedoDepthLimit: int

    /** The cell starts at the default, 20. */
    constructor ()
      ensures undoRedoDepthLimit == DefaultUndoRedoDepthLimit
    {
      undoRedoDepthLimit := DefaultUndoRedoDepthLimit;
    }

    /** `getUndoRedoDepthLimit()`: the current value; nothing changes. */
    method GetUndoRedoDepthLimit() returns (limit: int)
      ensures limit == undoRedoDepthLimit
    {
      limit := undoRedoDepthLimit;
    }

    /** `setUndoRedoDepthLimit(newLimit)`: stores the argument as it is, with no clamping
        or validation (zero and negative numbers included). */
    method SetUndoRedoDepthLimit(newLimit: int)
      modifies this
      ensures undoRedoDepthLimit == newLimit
    {
      undoRedoDepthLimit := newLimit;
    }
  }

  /** A fresh cell reads 20; after any sequence of sets the getter returns the last value
      set. */
  method LastSetWins(values: seq<int>) returns (before: int, after: int)
    ensures before == DefaultUndoRedoDepthLimit
    ensures after == if values == [] then DefaultUndoRedoDepthLimit else values[|values| - 1]
  {
    var config := new Config();
    before := config.GetUndoRedoDepthLimit();
    for i := 0 to |values|
      invariant config.undoRedoDepthLimit == if i == 0 then DefaultUndoRedoDepthLimit else values[i - 1]
    {
      config.SetUndoRedoDepthLimit(values[i]);
    }
    after := config.GetUndoRedoDepthLimit();
  }
}
