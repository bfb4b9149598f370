/** The dynamic JSON value of lib/proto/utils.go:88-137: a raw byte buffer
    together with the read-only view gjson parses from it. Reads of the view
    (paths, arrays, Join) belong to gjson and sjson and are not modelled; what
    is modelled is the buffer: how it is adopted, encoded and replaced. */
module DynamicJson {
  import opened Wrappers
  import opened Wire

  /** The read-only view gjson derives from a buffer. The parser itself is not
      part of this model, so the view is identified by the bytes it was
      parsed from; that is all the invariant "the view is derived from the
      buffer" needs. */
  datatype Parsed = Parsed(source: Bytes)

  /** `gjson.ParseBytes`. */
  function ParseBytes(b: Bytes): Parsed {
    Parsed(b)
  }

  /** A JSON value: the view and the buffer it was parsed from. */
  class JSON {
    var Result: Parsed
    var raw: Bytes

    /** The view is always the one parsed from the buffer. */
    ghost predicate Valid()
      reads this
    {
      Result == ParseBytes(raw)
    }

    /** The zero value `JSON{}`: an empty buffer, whose parse is the zero view. */
    constructor ()
      ensures Valid() && raw == []
    {
      raw := [];
      Result := ParseBytes([]);
    }

    /** `NewJSON` called with a `[]byte`: the bytes are adopted as they are. */
    constructor FromBytes(b: Bytes)
      ensures Valid() && raw == b
    {
      raw := b;
      Result := ParseBytes(b);
    }

    /** `NewJSON` called with any other value: the buffer is that value's
        encoding by `utils.MustToJSONBytes`, a function outside this model. */
    constructor FromValue<V>(val: V, mustToJSONBytes: V -> Bytes)
      ensures Valid() && raw == mustToJSONBytes(val)
    {
      raw := mustToJSONBytes(val);
      Result := ParseBytes(mustToJSONBytes(val));
    }

    /** `UnmarshalJSON`: adopts the bytes as the new buffer and parses them
        again; it never fails. */
    method UnmarshalJSON(b: Bytes) returns (err: Option<Error>)
      modifies this
      ensures Valid() && raw == b && err == None
    {
      raw := b;
      Result := ParseBytes(b);
      err := None;
    }

    /** `MarshalJSON`: the buffer itself, or `null` when it is empty. Its
        error result is always nil and is left out. */
    function MarshalJSON(): (b: Bytes)
      reads this
      ensures |b| > 0
      ensures |raw| > 0 ==> b == raw
      ensures |raw| == 0 ==> b == Null
    {
      if |raw| == 0 then Null else raw
    }

    /** `Set`: patches the encoding of the receiver at `path` with `sjson`'s
        `SetBytes` (a function outside this model, which returns the patched
        bytes and an error) and returns a new value built from the patched
        bytes together with that error. The receiver is a copy, so it is left
        as it was. */
    method Set<V>(path: string, value: V, setBytes: (Bytes, string, V) -> (Bytes, Option<Error>))
      returns (j: JSON, err: Option<Error>)
      ensures fresh(j) && j.Valid()
      ensures var (patched, e) := setBytes(MarshalJSON(), path, value);
              j.raw == patched && err == e
      ensures unchanged(this)
    {
      var b := MarshalJSON();
      var patched, e := setBytes(b, path, value).0, setBytes(b, path, value).1;
      j := new JSON.FromBytes(patched);
      err := e;
    }
  }

  /** `UnmarshalJSON` of some bytes into a JSON value followed by
      `MarshalJSON` of that value: non-empty bytes come back unchanged, and
      empty bytes come back as `null`. */
  method DecodeEncode(b: Bytes) returns (out: Bytes)
    ensures |b| > 0 ==> out == b
    ensures |b| == 0 ==> out == Null
  {
    var j := new JSON();
    var _ := j.UnmarshalJSON(b);
    out := j.MarshalJSON();
  }

  /** Encoding a JSON value with `MarshalJSON` and decoding the result with
      `UnmarshalJSON` into a fresh one gives a
      value with the same encoding; its buffer is the original one unless
      that was empty. */
  method EncodeDecode(j: JSON) returns (k: JSON)
    ensures fresh(k) && k.Valid()
    ensures k.MarshalJSON() == j.MarshalJSON()
    ensures |j.raw| > 0 ==> k.raw == j.raw
  {
    k := new JSON();
    var _ := k.UnmarshalJSON(j.MarshalJSON());
  }
}
