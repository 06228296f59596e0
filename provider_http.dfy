/** What the provider clients see of an HTTP exchange: whether it threw,
    the status code, and the parsed JSON body, down to the one array field
    they read. The exchange itself is a parameter of each client. */
module ProviderHttp {
  import opened Common

  /** A top-level JSON field: not an array, or an array whose elements are
      given by the value `element.get("text").asText()` yields (None: the
      element has no "text" member, so the call fails). */
  datatype JsonField = NotAnArray | Items(texts: seq<Option<string>>)

  /** The body as Jackson reads it: not JSON at all, or its top-level
      fields (a name that is absent reads as null). */
  datatype ParsedBody = Unparsable | Parsed(fields: map<string, JsonField>)

  /** The outcome of `restTemplate.exchange`: an exception (I/O failure, or
      a 4xx/5xx status the default handler turns into one), or a response
      with status and a body that may be null. */
  datatype HttpReply = Threw | Reply(status: int, body: Option<ParsedBody>)

  predicate Is2xx(status: int) {
    200 <= status <= 299
  }

  /** The response check both clients share: a 2xx reply with a body whose
      `field` is a non-empty array yields its first element's text; every
      other outcome, including an exception while reading, yields null. */
  function FirstText(reply: HttpReply, field: string): (r: Str)
    ensures r.Some? <==>
      reply.Reply? && Is2xx(reply.status) && reply.body.Some? && reply.body.value.Parsed?
      && field in reply.body.value.fields && reply.body.value.fields[field].Items?
      && |reply.body.value.fields[field].texts| > 0 && reply.body.value.fields[field].texts[0].Some?
    ensures r.Some? ==> r == reply.body.value.fields[field].texts[0]
  {
    if reply.Threw? || !Is2xx(reply.status) || reply.body.None? then None
    else match reply.body.value
      case Unparsable => None
      case Parsed(fields) =>
        if field !in fields then None
        else match fields[field]
          case NotAnArray => None
          case Items(texts) => if |texts| == 0 then None else texts[0]
  }

  /** Whether `sub` occurs in `s` starting at index `i`. */
  predicate OccursAt(s: string, sub: string, i: int) {
    0 <= i && i + |sub| <= |s| && s[i..i + |sub|] == sub
  }

  /** Whether `sub` occurs in `s`. */
  ghost predicate Contains(s: string, sub: string) {
    exists i :: OccursAt(s, sub, i)
  }
}
