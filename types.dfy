/**
 * The enumerations the core uses. The C header that declares them (types.h)
 * is not part of this model: the constructors below follow the enumerator
 * names that helpers.h and parse.c mention, and only the source's own
 * comparisons between them are modelled, never their integer values.
 */
module Types {

  /** client_state_t */
  datatype ClientState = Tiled | PseudoTiled | Floating | Fullscreen

  /** stack_layer_t */
  datatype StackLayer = Below | Normal | Above

  /** layout_t */
  datatype Layout = LayoutTiled | LayoutMonocle

  /** direction_t */
  datatype Direction = North | West | South | East

  /** tightness_t */
  datatype Tightness = High | Low

  /** split_type_t */
  datatype SplitType = Horizontal | Vertical

  /** split_mode_t */
  datatype SplitMode = Automatic | Manual

  /** child_polarity_t */
  datatype ChildPolarity = FirstChild | SecondChild

  /** automatic_scheme_t */
  datatype AutoScheme = LongestSide | Alternate | Spiral

  /** cycle_dir_t */
  datatype CycleDir = Next | Prev

  /** circulate_dir_t */
  datatype CirculateDir = Forward | Backward

  /** history_dir_t */
  datatype HistoryDir = Older | Newer

  /** flip_t */
  datatype Flip = FlipHorizontal | FlipVertical

  /** resize_handle_t */
  datatype ResizeHandle = Left | Top | Right | Bottom | TopLeft | TopRight | BottomRight | BottomLeft

  /** pointer_action_t */
  datatype PointerAction = Move | ResizeCorner | ResizeSide | Focus | ActionNone

  /** alter_state_t */
  datatype AlterState = AlterToggle | AlterSet

  /**
   * One event category a subscriber can ask for (one bit of
   * subscriber_mask_t); a mask is a set of them.
   */
  datatype Event =
    | Report
    | MonitorAdd | MonitorRename | MonitorRemove | MonitorSwap | MonitorFocus | MonitorGeometry
    | DesktopAdd | DesktopRename | DesktopRemove | DesktopSwap | DesktopTransfer | DesktopFocus
    | DesktopActivate | DesktopLayout
    | NodeAdd | NodeRemove | NodeSwap | NodeTransfer | NodeFocus | NodePresel | NodeStack
    | NodeActivate | NodeGeometry | NodeState | NodeFlag | NodeLayer
    | PointerActionEvent

  /** The fields of client_t that the core reads. */
  datatype Client = Client(state: ClientState, layer: StackLayer)
}
