/** `encodeId` and `decodeId` (server/utils/encrypt.ts): the public form of a
    database id is the base64 text of its UTF-8 octets. */
module Encrypt {
  import opened Wrappers
  import Utf8
  import Base64

  /** `Buffer.from(id, 'utf-8').toString('base64')`. */
  function EncodeId(id: string): (r: string)
    ensures |r| == 4 * ((|Utf8.Encode(id)| + 2) / 3)
    ensures forall k :: 0 <= k < |r| ==> Base64.InAlphabet(r[k]) || r[k] == Base64.Pad
    ensures r == "" <==> id == ""
  {
    Base64.Encode(Utf8.Encode(id))
  }

  /** `Buffer.from(encodedId, 'base64').toString('utf-8')` on the texts that
      `EncodeId` can produce; `None` on any other text, where Buffer decodes
      leniently (see `DecodeIdAt`). */
  function DecodeId(encodedId: string): (r: Option<string>)
    ensures r.Some? ==> |encodedId| % 4 == 0
    ensures r.Some? ==> (r.value == "" <==> encodedId == "")
  {
    match Base64.Decode(encodedId)
    case None => None
    case Some(octets) => Utf8.Decode(octets)
  }

  /** What `decodeId` returns at run time: the exact decoding where the text is
      the encoding of some id, and otherwise whatever the runtime's lenient
      decoder `lenient` makes of it. */
  function DecodeIdAt(lenient: string -> string, encodedId: string): (r: string)
    ensures DecodeId(encodedId).Some? ==> r == DecodeId(encodedId).value
  {
    match DecodeId(encodedId)
    case Some(id) => id
    case None => lenient(encodedId)
  }

  /** `decodeId(encodeId(s)) == s`. */
  lemma DecodeEncodeId(id: string)
    ensures DecodeId(EncodeId(id)) == Some(id)
  {
    Base64.DecodeEncode(Utf8.Encode(id));
    Utf8.DecodeEncode(id);
  }

  /** The same, whatever the runtime does with malformed text. */
  lemma DecodeAtEncodeId(lenient: string -> string, id: string)
    ensures DecodeIdAt(lenient, EncodeId(id)) == id
  {
    DecodeEncodeId(id);
  }

  /** A text that decodes exactly is the encoding of what it decodes to, so a
      public id has one spelling. */
  lemma EncodeDecodeId(encodedId: string)
    requires DecodeId(encodedId).Some?
    ensures EncodeId(DecodeId(encodedId).value) == encodedId
  {
    var octets := Base64.Decode(encodedId).value;
    Utf8.EncodeDecode(octets);
    Base64.EncodeDecode(encodedId);
  }

  /** Distinct database ids have distinct public ids. */
  lemma EncodeIdInjective(a: string, b: string)
    ensures EncodeId(a) == EncodeId(b) <==> a == b
  {
    if EncodeId(a) == EncodeId(b) {
      DecodeEncodeId(a);
      DecodeEncodeId(b);
    }
  }

  lemma EmptyId()
    ensures EncodeId("") == "" && DecodeId("") == Some("")
  {
  }
}
