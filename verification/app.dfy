/** The page-level toolbar dispatch: choosing a toolbar element records the
    selected tool and, for the reset, delete and image elements, acts on the
    shape store and the drawing flags. */
module App {
  import opened Wrappers
  import opened ShapeStore

  datatype ActiveElement = ActiveElement(name: string, value: string, icon: string)

  /** The page's interaction context: the shared store, the highlighted
      toolbar element, the selected tool, the two drawing flags (the page's
      own and the canvas's free-drawing mode), and whether the canvas and
      the hidden image input are mounted (their references are set). */
  datatype Session = Session(
    store: Store,
    activeElement: ActiveElement,
    selectedShape: Option<string>,
    isDrawing: bool,
    isDrawingMode: bool,
    canvasMounted: bool,
    imageInputMounted: bool)

  /** Effects on the canvas and the page that the model does not carry out. */
  datatype Effect = ClearCanvas | OpenImagePicker

  /** The context the page starts with: no element highlighted, no tool,
      the page not drawing. The canvas's own drawing mode is whatever the
      canvas set-up gives it. */
  function InitialSession(store: Store, isDrawingMode: bool, canvasMounted: bool, imageInputMounted: bool): (s: Session)
    ensures s.activeElement == ActiveElement("", "", "") && s.selectedShape.None?
    ensures s.store == store && !s.isDrawing && s.isDrawingMode == isDrawingMode
    ensures s.canvasMounted == canvasMounted && s.imageInputMounted == imageInputMounted
  {
    Session(store, ActiveElement("", "", ""), None, false, isDrawingMode, canvasMounted, imageInputMounted)
  }

  /** Dispatch on the chosen element's value. `defaultNav` is the toolbar's
      default element, and `deletedIds` the ids of the canvas's selected
      objects that the delete helper removes from the store. */
  method HandleActiveElement(s: Session, elem: ActiveElement, defaultNav: ActiveElement, deletedIds: seq<string>)
    returns (r: Session, effects: seq<Effect>)
    ensures r.selectedShape == Some(elem.value)
    ensures r.canvasMounted == s.canvasMounted && r.imageInputMounted == s.imageInputMounted
    ensures elem.value == "reset" ==>
      && r.store == map[] && r.activeElement == defaultNav
      && r.isDrawing == s.isDrawing && r.isDrawingMode == s.isDrawingMode
      && effects == (if s.canvasMounted then [ClearCanvas] else [])
    ensures elem.value == "delete" ==>
      && r.store.Keys == s.store.Keys - (set i | i in deletedIds)
      && (forall k :: k in r.store ==> k in s.store && r.store[k] == s.store[k])
      && r.isDrawing == s.isDrawing && r.isDrawingMode == s.isDrawingMode
      && r.activeElement == defaultNav && effects == []
    ensures elem.value == "image" ==>
      && !r.isDrawing && r.activeElement == elem && r.store == s.store
      && r.isDrawingMode == (s.isDrawingMode && !s.canvasMounted)
      && effects == (if s.imageInputMounted then [OpenImagePicker] else [])
    ensures elem.value !in {"reset", "delete", "image"} ==>
      && r.activeElement == elem && r.store == s.store
      && r.isDrawing == s.isDrawing && r.isDrawingMode == s.isDrawingMode && effects == []
  {
    r := s.(activeElement := elem);
    effects := [];
    if elem.value == "reset" {
      var _, cleared := DeleteAllShapes(r.store);
      r := r.(store := cleared, activeElement := defaultNav);
      if r.canvasMounted {
        effects := [ClearCanvas];
      }
    } else if elem.value == "delete" {
      r := r.(store := DeleteShapes(r.store, deletedIds), activeElement := defaultNav);
    } else if elem.value == "image" {
      if r.imageInputMounted {
        effects := [OpenImagePicker];
      }
      r := r.(isDrawing := false);
      if r.canvasMounted {
        r := r.(isDrawingMode := false);
      }
    }
    r := r.(selectedShape := Some(elem.value));
  }
}
