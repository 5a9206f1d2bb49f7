/** What the two stdio codecs share: the JSON text they carry and the outcome
    of decoding a byte stream. */
module Framing {
  import opened Prelude

  /** JSON.stringify with the UTF-8 encoder (None: not serializable) and the
      fatal UTF-8 decoder with JSON.parse (None: either one throws). */
  datatype Json<!V> = Json(stringify: V -> Option<seq<Byte>>, parse: seq<Byte> -> Option<V>) {
    function Stringify(v: V): Option<seq<Byte>> { stringify(v) }

    function Parse(text: seq<Byte>): Option<V> { parse(text) }
  }

  /** JSON text parses back, is never empty, holds no raw line feed and does
      not end in a carriage return. */
  ghost predicate Lawful<V(!new)>(json: Json<V>) {
    forall v :: json.Stringify(v).Some? ==> LawfulText(json, v, json.Stringify(v).value)
  }

  ghost predicate LawfulText<V>(json: Json<V>, v: V, text: seq<Byte>) {
    && json.Parse(text) == Some(v)
    && text != []
    && LF !in text
    && text[|text| - 1] != CR
  }

  /** A stream prefix is refused, or it yields the values of its complete
      frames and leaves the raw bytes of an unfinished frame pending. */
  datatype Decoding<V> = Rejected | Accepted(values: seq<V>, pending: seq<Byte>)

  /** What a stream that has ended decodes to: an unfinished frame is an error. */
  function Finished<V>(d: Decoding<V>): Option<seq<V>> {
    if d.Accepted? && d.pending == [] then Some(d.values) else None
  }
}
