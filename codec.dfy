// The JSON text of the columns and files that hold structured values
// (string lists, answers, quiz results). Encoding and decoding belong to
// the JSON library; the model takes them as a parameter and states, in
// `Lawful`, the round trip the library provides.
module Codec {
  import opened Wrappers
  import opened Models

  datatype Codec = Codec(
    encodeStrings: seq<string> -> string,
    decodeStrings: string -> Option<seq<string>>,
    encodeAnswer: string -> string,
    decodeAnswer: string -> Option<string>,
    encodeResults: seq<QuizResult> -> string,
    decodeResults: string -> Option<seq<QuizResult>>)

  /** Decoding what was encoded gives the value back, and the JSON `null`
      is not a list. */
  ghost predicate Lawful(c: Codec)
  {
    && (forall l :: c.decodeStrings(c.encodeStrings(l)) == Some(l))
    && (forall a :: c.decodeAnswer(c.encodeAnswer(a)) == Some(a))
    && (forall r :: c.decodeResults(c.encodeResults(r)) == Some(r))
    && c.decodeStrings("null") == None
  }

  /** The JSON text of an `Option<Vec<String>>`: `null` for None. */
  function EncodeOptStrings(c: Codec, v: Option<seq<string>>): string
  {
    if v.None? then "null" else c.encodeStrings(v.value)
  }

  /** Parsing an `Option<Vec<String>>`: `null` is None; None when the text
      is neither `null` nor a list. */
  function DecodeOptStrings(c: Codec, s: string): Option<Option<seq<string>>>
  {
    if s == "null" then Some(None)
    else if c.decodeStrings(s).Some? then Some(Some(c.decodeStrings(s).value))
    else None
  }

  lemma OptStringsRoundTrip(c: Codec, v: Option<seq<string>>)
    requires Lawful(c)
    ensures DecodeOptStrings(c, EncodeOptStrings(c, v)) == Some(v)
  {
    if v.Some? {
      assert c.decodeStrings(c.encodeStrings(v.value)) == Some(v.value);
    }
  }
}
