/** JSON as serde represents a request body, and the derived (de)serialisation
    of a `Vec<u8>` field: an array of numbers, one per byte. */
module Serde {
  import opened Prelude

  /** A JSON value. Numbers are integers, so a number serde reads as a float
      (one with a fraction or an exponent, or `-0`) cannot be written: serde
      refuses one in a byte field, and a member the struct does not know is
      skipped whatever number it holds. */
  datatype Value =
    | Null
    | Bool(b: bool)
    | Number(n: int)
    | Str(s: string)
    | Array(items: seq<Value>)
    | Object(members: seq<(string, Value)>)

  /** How `#[derive(Serialize)]` writes a `Vec<u8>`. */
  function EncodeBytes(bs: seq<byte>): (v: Value)
    ensures v.Array? && |v.items| == |bs|
    ensures forall i :: 0 <= i < |bs| ==> v.items[i] == Number(bs[i] as int)
  {
    Array(seq(|bs|, i requires 0 <= i < |bs| => Number(bs[i] as int)))
  }

  /** How `#[derive(Deserialize)]` reads a `Vec<u8>`: an array whose every item is
      an integer from 0 to 255; anything else is an error. */
  function DecodeBytes(v: Value): (r: Option<seq<byte>>)
  {
    match v
    case Array(items) => DecodeItems(items)
    case _ => None
  }

  function DecodeItems(items: seq<Value>): (r: Option<seq<byte>>)
    ensures r.Some? <==> forall i :: 0 <= i < |items| ==> items[i].Number? && 0 <= items[i].n < 256
    ensures r.Some? ==> |r.value| == |items| && forall i :: 0 <= i < |items| ==> r.value[i] as int == items[i].n
  {
    if |items| == 0 then Some([])
    else match items[0]
      case Number(n) =>
        if 0 <= n < 256 then
          match DecodeItems(items[1..])
          case Some(rest) => Some([n as byte] + rest)
          case None => None
        else None
      case _ => None
  }

  lemma BytesRoundTrip(bs: seq<byte>)
    ensures DecodeBytes(EncodeBytes(bs)) == Some(bs)
  {
    var r := DecodeItems(EncodeBytes(bs).items);
    assert r.Some? && r.value == bs;
  }

  /** The values a JSON object gives to `key`, in order. */
  function Occurrences(members: seq<(string, Value)>, key: string): (vs: seq<Value>)
    ensures |vs| <= |members|
  {
    if |members| == 0 then []
    else (if members[0].0 == key then [members[0].1] else []) + Occurrences(members[1..], key)
  }

  /** A field of a derived `Deserialize` struct: it must occur exactly once
      (serde reports a missing field and a duplicate field as errors). */
  function Field(members: seq<(string, Value)>, key: string): (r: Option<Value>)
    ensures r.Some? <==> |Occurrences(members, key)| == 1
  {
    var vs := Occurrences(members, key);
    if |vs| == 1 then Some(vs[0]) else None
  }
}
