/** The stable identity of an aggregate row and its parser. */
module RowIdentity {
  import opened Wrappers
  import opened Text

  datatype Identity = Identity(dimension: string, key: string, scale: nat, currency: string)

  /** The key is length-prefixed, so it may contain any text. */
  function Encode(id: Identity): string {
    id.dimension + ":" + Digits(|id.key|) + ":" + id.key + ":" + Digits(id.scale) + ":" + id.currency
  }

  function TrimColon(s: string): string {
    if s != "" && s[0] == ':' then s[1..] else s
  }

  function Parse(text: string): Option<Identity> {
    var (dimension, afterDimension, found) := Cut(text, ':');
    var (lengthText, rest, foundLength) := Cut(afterDimension, ':');
    var length := ParseInt(lengthText);
    if !found || !foundLength || length.None? || length.value < 0 || length.value >= |rest| then None
    else
      var (scaleText, currency, foundScale) := Cut(TrimColon(rest[length.value..]), ':');
      var scale := ParseDigits(scaleText);
      if !foundScale || scale.None? || scale.value > 255 then None
      else
        var id := Identity(dimension, rest[..length.value], scale.value, currency);
        if Encode(id) == text then Some(id) else None
  }

  /** Parsing reverses encoding for every key, colons included, whenever the dimension has no colon and
  the scale fits in 8 bits. */
  lemma ParseReversesEncode(id: Identity)
    requires Free(id.dimension, ':') && id.scale <= 255 && |id.key| <= INT_MAX
    ensures Parse(Encode(id)) == Some(id)
  {
    var text := Encode(id);
    var length, scale := Digits(|id.key|), Digits(id.scale);
    var tail := scale + [':'] + id.currency;
    var rest := id.key + [':'] + tail;
    var afterDimension := length + [':'] + rest;
    assert text == id.dimension + [':'] + afterDimension;
    CutJoined(id.dimension, afterDimension, ':');
    DigitsAreFree(length, ':');
    CutJoined(length, rest, ':');
    ParseFormatted(|id.key|);
    assert rest[..|id.key|] == id.key && rest[|id.key|..] == [':'] + tail;
    assert TrimColon([':'] + tail) == tail;
    DigitsAreFree(scale, ':');
    CutJoined(scale, id.currency, ':');
    ParseDigitsOf(id.scale);
    hide Cut, ParseInt, ParseDigits, Encode, Digits;
  }

  /** What the parser accepts is exactly an encoding, so an identity text names one row. */
  lemma ParseAcceptsEncodings(text: string)
    ensures Parse(text).Some? ==> Encode(Parse(text).value) == text
    ensures Parse(text).Some? ==> Free(Parse(text).value.dimension, ':') && Parse(text).value.scale <= 255
  {
    CutParts(text, ':');
    hide Cut, Encode;
  }

  /** Different rows have different identities. */
  lemma IdentitiesAreDistinct(a: Identity, b: Identity)
    requires Free(a.dimension, ':') && a.scale <= 255 && |a.key| <= INT_MAX
    requires Free(b.dimension, ':') && b.scale <= 255 && |b.key| <= INT_MAX
    requires Encode(a) == Encode(b)
    ensures a == b
  {
    ParseReversesEncode(a);
    ParseReversesEncode(b);
    hide Parse, Encode;
  }
}
