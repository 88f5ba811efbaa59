/**
 * Turning one Gmail message into the flat record the classifier sees:
 * the subject header, the plain-text body (possibly concatenated from several
 * parts), truncated to a bounded length, and the size estimate.
 */
module Normalizer {
  import opened Results

  /** Bodies longer than this many characters are cut (cost control). */
  const MaxContentLength: nat := 500
  /** Appended to a body that was cut. */
  const TruncationMarker: string := "..."
  /** Subject used when no header is named "subject" in any letter case. */
  const DefaultSubject: string := "No Subject"
  const SubjectHeaderName: string := "subject"
  const PlainTextMime: string := "text/plain"

  datatype Header = Header(name: string, value: string)

  /** One part of a multi-part payload; `data` is absent when the part's body carries no data. */
  datatype Part = Part(mimeType: string, data: Option<string>)

  /**
   * A message payload: its headers, its parts when it is multi-part, and the
   * data of its own body (used only when there are no parts).
   */
  datatype Payload = Payload(headers: seq<Header>, parts: Option<seq<Part>>, bodyData: Option<string>)

  datatype Message = Message(payload: Payload, sizeEstimate: nat)

  /** The normalised record handed to the classifier. */
  datatype EmailDetail = EmailDetail(id: string, subject: string, content: string, size: nat)

  /**
   * Base64url decoding followed by UTF-8 decoding of a body's data;
   * None stands for either step raising.
   */
  type Decoder = string -> Option<string>

  function LowerChar(c: char): char
  {
    if 'A' <= c <= 'Z' then (c as int + 32) as char else c
  }

  function Lower(s: string): (r: string)
    ensures |r| == |s|
  {
    seq(|s|, i requires 0 <= i < |s| => LowerChar(s[i]))
  }

  predicate IsSubjectHeader(h: Header)
  {
    Lower(h.name) == SubjectHeaderName
  }

  /** `headers[i]` is the first subject header of `headers`. */
  predicate IsFirstSubject(headers: seq<Header>, i: int)
  {
    0 <= i < |headers| && IsSubjectHeader(headers[i]) &&
    forall j :: 0 <= j < i ==> !IsSubjectHeader(headers[j])
  }

  /** The value of the first header named "subject" in any letter case, else "No Subject". */
  function Subject(headers: seq<Header>): (r: string)
    ensures forall i :: IsFirstSubject(headers, i) ==> r == headers[i].value
    ensures (forall i :: 0 <= i < |headers| ==> !IsSubjectHeader(headers[i])) ==> r == DefaultSubject
  {
    if headers == [] then DefaultSubject
    else if IsSubjectHeader(headers[0]) then headers[0].value
    else
      var r := Subject(headers[1..]);
      assert forall i :: IsFirstSubject(headers, i) ==> IsFirstSubject(headers[1..], i - 1);
      r
  }

  /** A missing data field reads as the empty string. */
  function DataOrEmpty(data: Option<string>): string
  {
    match data
    case None => ""
    case Some(d) => d
  }

  /**
   * The decoded text of the text/plain parts of `parts`, in order; None as
   * soon as one of them fails to decode.
   */
  function PlainText(parts: seq<Part>, decode: Decoder): (r: Option<string>)
    ensures PlainParts(parts) == [] ==> r == Some("")
  {
    if parts == [] then Some("")
    else Extend(PlainText(parts[..|parts| - 1], decode), parts[|parts| - 1], decode)
  }

  /** One step of the loop: a text/plain part appends its decoded data, any other part leaves the text as it is. */
  function Extend(text: Option<string>, part: Part, decode: Decoder): Option<string>
  {
    match text
    case None => None
    case Some(prefix) =>
      if part.mimeType != PlainTextMime then Some(prefix)
      else
        match decode(DataOrEmpty(part.data))
        case None => None
        case Some(more) => Some(prefix + more)
  }

  /** Extending a joined text is extending its second half. */
  lemma JoinExtend(x: Option<string>, y: Option<string>, part: Part, decode: Decoder)
    ensures Extend(Join(x, y), part, decode) == Join(x, Extend(y, part, decode))
  {
    match x
    case None =>
    case Some(s) =>
      match y
      case None =>
      case Some(t) =>
        match decode(DataOrEmpty(part.data))
        case None =>
        case Some(u) => assert s + t + u == s + (t + u);
  }

  /** The parts whose declared MIME type is exactly text/plain, in order. */
  function PlainParts(parts: seq<Part>): (r: seq<Part>)
    ensures |r| <= |parts|
    ensures forall p :: p in r ==> p in parts && p.mimeType == PlainTextMime
  {
    if parts == [] then []
    else
      var last := parts[|parts| - 1];
      PlainParts(parts[..|parts| - 1]) + (if last.mimeType == PlainTextMime then [last] else [])
  }

  /** Joins two optional texts, failing when either fails. */
  function Join(a: Option<string>, b: Option<string>): Option<string>
  {
    match a
    case None => None
    case Some(x) =>
      match b
      case None => None
      case Some(y) => Some(x + y)
  }

  /** The text of `a + b` is the text of `a` followed by the text of `b`. */
  lemma {:induction false} PlainTextAppend(a: seq<Part>, b: seq<Part>, decode: Decoder)
    ensures PlainText(a + b, decode) == Join(PlainText(a, decode), PlainText(b, decode))
    decreases |b|
  {
    if b == [] {
      assert a + b == a;
      match PlainText(a, decode)
      case None =>
      case Some(x) => assert x + "" == x;
    } else {
      var b' := b[..|b| - 1];
      var last := b[|b| - 1];
      assert (a + b)[..|a + b| - 1] == a + b';
      assert (a + b)[|a + b| - 1] == last;
      PlainTextAppend(a, b', decode);
      JoinExtend(PlainText(a, decode), PlainText(b', decode), last, decode);
    }
  }

  /** Once a prefix of the parts fails to decode, the whole body fails. */
  lemma PlainTextFailurePersists(parts: seq<Part>, k: nat, decode: Decoder)
    requires k <= |parts| && PlainText(parts[..k], decode).None?
    ensures PlainText(parts, decode).None?
  {
    assert parts == parts[..k] + parts[k..];
    PlainTextAppend(parts[..k], parts[k..], decode);
  }

  /** Parts of any other MIME type contribute nothing to the body text. */
  lemma {:induction false} PlainTextOnlyPlainParts(parts: seq<Part>, decode: Decoder)
    ensures PlainText(parts, decode) == PlainText(PlainParts(parts), decode)
    decreases |parts|
  {
    if parts != [] {
      var init := parts[..|parts| - 1];
      var last := parts[|parts| - 1];
      PlainTextOnlyPlainParts(init, decode);
      if last.mimeType == PlainTextMime {
        assert PlainParts(parts) == PlainParts(init) + [last];
        assert PlainParts(parts)[..|PlainParts(parts)| - 1] == PlainParts(init);
      } else {
        assert PlainParts(parts) == PlainParts(init);
      }
    }
  }

  /** A single text/plain part contributes its decoded data; one without data contributes the decoding of "". */
  lemma PlainTextSingle(p: Part, decode: Decoder)
    ensures p.mimeType == PlainTextMime ==> PlainText([p], decode) == decode(DataOrEmpty(p.data))
    ensures p.mimeType == PlainTextMime && p.data.None? ==> PlainText([p], decode) == decode("")
    ensures p.mimeType != PlainTextMime ==> PlainText([p], decode) == Some("")
  {
    assert [p][..0] == [];
    match decode(DataOrEmpty(p.data))
    case None =>
    case Some(t) => assert "" + t == t;
  }

  /**
   * A body longer than MaxContentLength is cut to its first MaxContentLength
   * characters followed by TruncationMarker; a shorter one is unchanged.
   */
  function Truncate(content: string): (r: string)
    ensures |content| <= MaxContentLength ==> r == content
    ensures |content| > MaxContentLength ==>
              |r| == MaxContentLength + |TruncationMarker| &&
              r[..MaxContentLength] == content[..MaxContentLength] &&
              r[MaxContentLength..] == TruncationMarker
    ensures |r| <= MaxContentLength + |TruncationMarker|
  {
    if |content| > MaxContentLength then content[..MaxContentLength] + TruncationMarker else content
  }

  /** Truncating an already truncated body changes nothing. */
  lemma TruncateIdempotent(content: string)
    ensures Truncate(Truncate(content)) == Truncate(content)
  {
  }

  /** The body text before truncation: joined text/plain parts, or the payload's own body. */
  function BodyText(payload: Payload, decode: Decoder): (r: Option<string>)
    ensures payload.parts.None? ==> r == decode(DataOrEmpty(payload.bodyData))
    ensures payload.parts.Some? && PlainParts(payload.parts.value) == [] ==> r == Some("")
  {
    match payload.parts
    case Some(parts) => PlainText(parts, decode)
    case None => decode(DataOrEmpty(payload.bodyData))
  }

  /** The record built for message `id`; None when its body does not decode. */
  function Normalize(id: string, msg: Message, decode: Decoder): (r: Option<EmailDetail>)
    ensures r.None? <==> BodyText(msg.payload, decode).None?
    ensures r.Some? ==>
              && r.value.id == id
              && r.value.size == msg.sizeEstimate
              && r.value.subject == Subject(msg.payload.headers)
              && r.value.content == Truncate(BodyText(msg.payload, decode).value)
              && |r.value.content| <= MaxContentLength + |TruncationMarker|
  {
    match BodyText(msg.payload, decode)
    case None => None
    case Some(content) =>
      Some(EmailDetail(id, Subject(msg.payload.headers), Truncate(content), msg.sizeEstimate))
  }

  /** The `content += ...` loop over the parts of a multi-part payload. */
  method ConcatPlainParts(parts: seq<Part>, decode: Decoder) returns (content: Option<string>)
    ensures content == PlainText(parts, decode)
  {
    var acc := "";
    for i := 0 to |parts|
      invariant PlainText(parts[..i], decode) == Some(acc)
    {
      assert parts[..i + 1][..i] == parts[..i];
      if parts[i].mimeType == PlainTextMime {
        var text := decode(DataOrEmpty(parts[i].data));
        if text.None? {
          PlainTextFailurePersists(parts, i + 1, decode);
          return None;
        }
        acc := acc + text.value;
      }
    }
    assert parts[..|parts|] == parts;
    content := Some(acc);
  }

  /** Builds the record for one fetched message, as the body of the fetch loop does. */
  method NormalizeMessage(id: string, msg: Message, decode: Decoder) returns (r: Option<EmailDetail>)
    ensures r == Normalize(id, msg, decode)
  {
    var payload := msg.payload;
    var subject := Subject(payload.headers);
    var content: Option<string>;
    if payload.parts.Some? {
      content := ConcatPlainParts(payload.parts.value, decode);
    } else {
      content := decode(DataOrEmpty(payload.bodyData));
    }
    if content.None? {
      return None;
    }
    r := Some(EmailDetail(id, subject, Truncate(content.value), msg.sizeEstimate));
  }
}
