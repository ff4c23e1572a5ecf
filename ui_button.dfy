/**
 * `ui_button` of source/blackjack/ui_button.cc: a three-state button whose
 * state is recomputed on every update from the current input sample. The
 * textures and the callbacks' bodies are not modelled; an update reports
 * which callbacks it fires.
 */
module UiButton {
  import opened Vector
  import opened Size
  import opened Rect
  import opened Wrappers
  import opened Mesh

  /** `button_state`. */
  datatype ButtonState = Idle | Hover | Pressed

  /** What `update` reads from the input: the left mouse button and the cursor position. */
  datatype InputSample = InputSample(leftPressed: bool, cursor: Vec2)

  /** The two textures a button can draw. */
  datatype Texture = IdleTexture | HoverTexture

  /**
   * The state an enabled button takes for an input sample: pressed when the
   * left button is down over the hitbox (edges included), hover when the
   * cursor is over it without the left button, idle whenever it is off the
   * hitbox. The previous state plays no part.
   */
  function NextState(hitbox: Rect, input: InputSample): (s: ButtonState)
    ensures s == Pressed <==> input.leftPressed && ContainsPoint(hitbox, input.cursor)
    ensures s == Hover <==> !input.leftPressed && ContainsPoint(hitbox, input.cursor)
    ensures s == Idle <==> !ContainsPoint(hitbox, input.cursor)
  {
    if input.leftPressed && ContainsPoint(hitbox, input.cursor) then Pressed
    else if ContainsPoint(hitbox, input.cursor) then Hover
    else Idle
  }

  /** The hitbox moved so that its first corner is at (x, y), keeping its width and height. */
  function MovedHitbox(hitbox: Rect, pos: Vec3): (r: Rect)
    ensures r.a == [X(pos), Y(pos)]
    ensures Width(r) == Width(hitbox) && Height(r) == Height(hitbox)
  {
    Rect([X(pos), Y(pos)], [X(pos) + Width(hitbox), Y(pos) + Height(hitbox)])
  }

  /** The texture `render` draws, if any. */
  function TextureFor(enable: bool, state: ButtonState): (t: Option<Texture>)
    ensures t == None <==> !enable
    ensures t == Some(IdleTexture) <==> enable && state == Idle
    ensures t == Some(HoverTexture) <==> enable && (state == Hover || state == Pressed)
  {
    if !enable then None
    else match state
      case Idle => Some(IdleTexture)
      case Hover => Some(HoverTexture)
      case Pressed => Some(HoverTexture)
  }

  class UiButton {
    var state: ButtonState
    var hitbox: Rect
    /** The rect both textures are drawn in. */
    var textureRect: Rect
    var enable: bool
    /** The position of the button's transform. */
    var pos: Vec3
    /** Whether `on_click` and `on_hover` hold a callable. */
    var hasOnClick: bool
    var hasOnHover: bool

    /** `ui_button()`: starts idle; the entity fields are given. */
    constructor(enable: bool, pos: Vec3, hitbox: Rect)
      ensures state == Idle && this.enable == enable && this.pos == pos && this.hitbox == hitbox
      ensures !hasOnClick && !hasOnHover
    {
      state := Idle;
      this.enable := enable;
      this.pos := pos;
      this.hitbox := hitbox;
      textureRect := hitbox;
      hasOnClick := false;
      hasOnHover := false;
    }

    /** `get_state()`. */
    function GetState(): ButtonState
      reads this
    {
      state
    }

    /** `set_image(idle, hover)`: the hitbox and texture rect span the idle image's size. */
    method SetImage(idle: Image, hover: Image)
      modifies this
      ensures hitbox == FromSize(Size2(idle.width as real, idle.height as real))
      ensures textureRect == Rect([0.0, 0.0], [idle.width as real, idle.height as real])
      ensures state == old(state) && enable == old(enable) && pos == old(pos)
      ensures hasOnClick == old(hasOnClick) && hasOnHover == old(hasOnHover)
    {
      var w, h := idle.width as real, idle.height as real;
      hitbox := FromSize(Size2(w, h));
      textureRect := Rect([0.0, 0.0], [w, h]);
    }

    /**
     * `update(in)`: a disabled button ignores the input. Otherwise the hitbox
     * follows the transform, the state is recomputed from the input, and
     * `on_click` fires on a press and `on_hover` on a hover.
     */
    method Update(input: InputSample) returns (clicked: bool, hovered: bool)
      modifies this
      ensures !old(enable) ==> state == old(state) && hitbox == old(hitbox) && !clicked && !hovered
      ensures old(enable) ==> hitbox == MovedHitbox(old(hitbox), pos) && state == NextState(hitbox, input)
      ensures clicked <==> enable && hasOnClick && state == Pressed
      ensures hovered <==> enable && hasOnHover && state == Hover
      ensures !(clicked && hovered)
      ensures enable == old(enable) && pos == old(pos) && textureRect == old(textureRect)
      ensures hasOnClick == old(hasOnClick) && hasOnHover == old(hasOnHover)
    {
      if !enable {
        return false, false;
      }
      hitbox := MovedHitbox(hitbox, pos);
      if input.leftPressed && ContainsPoint(hitbox, input.cursor) {
        state := Pressed;
      } else if ContainsPoint(hitbox, input.cursor) {
        state := Hover;
      } else {
        state := Idle;
      }
      clicked := hasOnClick && state == Pressed;
      hovered := hasOnHover && state == Hover;
    }

    /** `render(r)`: the texture drawn for the current state. */
    function Render(): Option<Texture>
      reads this
    {
      TextureFor(enable, state)
    }
  }
}
