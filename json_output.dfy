/** The part of Jackson's JsonGenerator the serializers use: the string tokens
    written so far, in order. */
module JsonOutput {

  class JsonGenerator {
    var written: seq<string>

    constructor ()
      ensures written == []
    {
      written := [];
    }

    /** Writes one JSON string token. */
    method WriteString(s: string)
      modifies this
      ensures written == old(written) + [s]
    {
      written := written + [s];
    }
  }
}
