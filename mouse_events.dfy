/** The custom normalization of mouse events (lib/proto/utils.go:175-188).
    The default JSON encoding of an `Input.dispatchMouseEvent` request omits
    every optional field that holds its zero value, but the deltas of a
    wheel event cannot be omitted, a constraint the protocol's JSON schema
    does not express; so for a wheel event both deltas are written into the
    encoding even when zero.
    Encodings are modelled as JSON objects, key to value. */
module MouseEvents {
  import opened Wrappers
  import opened Wire

  /** The kinds of mouse event, `InputDispatchMouseEventType`. */
  datatype MouseEventType = MousePressed | MouseReleased | MouseMoved | MouseWheel

  /** The protocol's name for each kind. */
  function TypeName(t: MouseEventType): string {
    match t
    case MousePressed => "mousePressed"
    case MouseReleased => "mouseReleased"
    case MouseMoved => "mouseMoved"
    case MouseWheel => "mouseWheel"
  }

  /** An `Input.dispatchMouseEvent` request: the required kind and position,
      and the optional fields the normalization is about. */
  datatype InputDispatchMouseEvent = InputDispatchMouseEvent(
    Type: MouseEventType,
    X: real,
    Y: real,
    Modifiers: int,
    Button: string,
    ClickCount: int,
    DeltaX: real,
    DeltaY: real)

  /** An optional field under `omitempty`: present only when not zero. */
  function OmitEmpty(obj: Object, key: string, v: Value, isZero: bool): Object {
    if isZero then obj else obj[key := v]
  }

  /** `json.Marshal` of a mouse event: the kind and position always, each
      optional field only when it is not its zero value. */
  function Marshal(e: InputDispatchMouseEvent): (obj: Object)
    ensures "type" in obj && "x" in obj && "y" in obj && obj["type"] == Str(TypeName(e.Type)) && obj["x"] == Num(e.X) && obj["y"] == Num(e.Y)
    ensures obj.Keys <= {"type", "x", "y", "modifiers", "button", "clickCount", "deltaX", "deltaY"}
  {
    var required := map["type" := Str(TypeName(e.Type)), "x" := Num(e.X), "y" := Num(e.Y)];
    var m1 := OmitEmpty(required, "modifiers", Int(e.Modifiers), e.Modifiers == 0);
    var m2 := OmitEmpty(m1, "button", Str(e.Button), e.Button == "");
    var m3 := OmitEmpty(m2, "clickCount", Int(e.ClickCount), e.ClickCount == 0);
    var m4 := OmitEmpty(m3, "deltaX", Num(e.DeltaX), e.DeltaX == 0.0);
    OmitEmpty(m4, "deltaY", Num(e.DeltaY), e.DeltaY == 0.0)
  }

  /** The optional fields other than the deltas are present exactly when
      they are not zero, and then hold the event's values. */
  lemma MarshalOmitsZeroFields(e: InputDispatchMouseEvent)
    ensures var obj := Marshal(e);
            && ("modifiers" in obj <==> e.Modifiers != 0)
            && ("modifiers" in obj ==> obj["modifiers"] == Int(e.Modifiers))
            && ("button" in obj <==> e.Button != "")
            && ("button" in obj ==> obj["button"] == Str(e.Button))
            && ("clickCount" in obj <==> e.ClickCount != 0)
            && ("clickCount" in obj ==> obj["clickCount"] == Int(e.ClickCount))
  {
  }

  /** The deltas are present in the default encoding exactly when they are
      not zero. */
  lemma MarshalOmitsZeroDeltas(e: InputDispatchMouseEvent)
    ensures var obj := Marshal(e);
            && ("deltaX" in obj <==> e.DeltaX != 0.0) && ("deltaX" in obj ==> obj["deltaX"] == Num(e.DeltaX))
            && ("deltaY" in obj <==> e.DeltaY != 0.0) && ("deltaY" in obj ==> obj["deltaY"] == Num(e.DeltaY))
  {
  }

  /** `sjson.SetBytes` on a top-level key of an object: the key is set to the
      value, added if it was absent. */
  function SetKey(obj: Object, key: string, v: Value): Object {
    obj[key := v]
  }

  /** `InputDispatchMouseEvent.Normalize`: the default encoding, and for a wheel
      event both deltas set on top of it. It never fails; the deltas are
      present even when zero, and nothing the default encoding holds is lost
      or changed. */
  function Normalize(e: InputDispatchMouseEvent): (r: Result<Object, Error>)
    ensures r.Success?
    ensures e.Type == MouseWheel ==>
              && "deltaX" in r.value && r.value["deltaX"] == Num(e.DeltaX)
              && "deltaY" in r.value && r.value["deltaY"] == Num(e.DeltaY)
    ensures e.Type != MouseWheel ==> r.value == Marshal(e)
    ensures forall k :: k in Marshal(e) ==> k in r.value && r.value[k] == Marshal(e)[k]
    ensures r.value.Keys == Marshal(e).Keys + (if e.Type == MouseWheel then {"deltaX", "deltaY"} else {})
  {
    var data := Marshal(e);
    if e.Type == MouseWheel then
      Success(SetKey(SetKey(data, "deltaX", Num(e.DeltaX)), "deltaY", Num(e.DeltaY)))
    else
      Success(data)
  }

  /** A wheel event with zero deltas: the default encoding omits both, and
      normalization adds them back as explicit zeros, changing nothing else. */
  lemma WheelZeroDeltaExplicit(e: InputDispatchMouseEvent)
    requires e.Type == MouseWheel && e.DeltaX == 0.0 && e.DeltaY == 0.0
    ensures "deltaX" !in Marshal(e) && "deltaY" !in Marshal(e)
    ensures Normalize(e).value == Marshal(e)["deltaX" := Num(0.0)]["deltaY" := Num(0.0)]
  {
    MarshalOmitsZeroDeltas(e);
    var m := Marshal(e);
    var n := Normalize(e).value;
    assert n.Keys == m.Keys + {"deltaX", "deltaY"};
    forall k | k in n
      ensures n[k] == m["deltaX" := Num(0.0)]["deltaY" := Num(0.0)][k]
    {
    }
  }

  /** Normalizing a wheel event whose deltas are both non-zero changes
      nothing: the default encoding already holds them. */
  lemma WheelNonZeroUnchanged(e: InputDispatchMouseEvent)
    requires e.Type == MouseWheel && e.DeltaX != 0.0 && e.DeltaY != 0.0
    ensures Normalize(e).value == Marshal(e)
  {
    MarshalOmitsZeroDeltas(e);
    var m, n := Marshal(e), Normalize(e).value;
    assert n.Keys == m.Keys;
  }

  /** The custom normalization as the dispatcher sees it: every mouse event
      has one, it never fails, and for a wheel event it carries both deltas. */
  function Hook(e: InputDispatchMouseEvent): (n: Option<Result<Object, Error>>)
    ensures n.Some? && n.value.Success?
    ensures e.Type == MouseWheel ==>
              && "deltaX" in n.value.value && n.value.value["deltaX"] == Num(e.DeltaX)
              && "deltaY" in n.value.value && n.value.value["deltaY"] == Num(e.DeltaY)
  {
    Some(Normalize(e))
  }
}
