/** Length-framed identities: the text hashed by `request_input_digest` and by
    `invocation_identity`, and a decoder that recovers everything that was framed.

    A `string` stands for the bytes of a UTF-8 text, one character a byte. */
module Framing {
  import opened Prelude
  import opened Content

  datatype Field = Field(key: string, value: string)

  /** `frame_field` / `frame`: label, byte length of the value, newline, value. */
  function Frame(f: Field): string {
    f.key + "_BYTES:" + Decimal(|f.value|) + "\n" + f.value
  }

  /** The frames joined by single newlines. */
  function Join(fields: seq<Field>): string {
    if fields == [] then ""
    else if |fields| == 1 then Frame(fields[0])
    else Frame(fields[0]) + "\n" + Join(fields[1..])
  }

  // ---- First layer: text to fields ----

  const SUFFIX := "_BYTES"

  /** Reads one frame at the start of `s` and returns it with the text that follows. */
  function LexFrame(s: string): (r: Option<(Field, string)>)
    ensures r.Some? ==> |r.value.1| < |s|
  {
    var colon := IndexOf(s, ':');
    if colon == |s| || colon < |SUFFIX| || s[colon - |SUFFIX|..colon] != SUFFIX then None else
    var afterColon := s[colon + 1..];
    var newline := IndexOf(afterColon, '\n');
    if newline == |afterColon| || !AllDigits(afterColon[..newline]) then None else
    var len := DigitsValue(afterColon[..newline]);
    var body := afterColon[newline + 1..];
    if len > |body| then None
    else Some((Field(s[..colon - |SUFFIX|], body[..len]), body[len..]))
  }

  function Lex(s: string): Option<seq<Field>>
    decreases |s|
  {
    var first :- LexFrame(s);
    if first.1 == "" then Some([first.0])
    else if first.1[0] != '\n' then None
    else
      var others :- Lex(first.1[1..]);
      Some([first.0] + others)
  }

  const LABELS: set<string> := {
    "CONTENTS", "ROLE", "PARTS", "TAG", "TEXT", "THINKING", "SIGNATURE", "MIME", "DATA", "URI",
    "ANNOTATIONS", "FILE_URI", "NAME", "ARGS", "ID", "THOUGHT_SIGNATURE", "RESPONSE", "PAYLOAD",
    "INLINE_DATA_COUNT", "FILE_DATA_COUNT", "INLINE_MIME", "INLINE_DATA", "INLINE_URI",
    "INLINE_ANNOTATIONS", "FILE_MIME", "FILE_ANNOTATIONS" }

  lemma LabelsPlain()
    ensures forall key <- LABELS :: ':' !in key
  {
  }

  predicate PlainLabels(fields: seq<Field>) {
    forall f <- fields :: ':' !in f.key
  }

  /** The length of a frame ends at its newline. */
  lemma LengthEnds(value: string, rest: string)
    ensures var digits := Decimal(|value|);
      var afterColon := digits + "\n" + (value + rest);
      && AllDigits(digits) && DigitsValue(digits) == |value| && digits != []
      && IndexOf(afterColon, '\n') == |digits|
      && afterColon[..|digits|] == digits && afterColon[|digits| + 1..] == value + rest
  {
    var digits := Decimal(|value|);
    DecimalDenotes(|value|);
    assert '\n' !in digits;
    IndexOfFirst(digits, '\n', value + rest);
  }

  /** The label of a frame ends at its first colon. */
  lemma LabelEnds(key: string, afterColon: string)
    requires ':' !in key
    ensures var s := key + SUFFIX + [':'] + afterColon;
      var end := |key| + |SUFFIX|;
      && IndexOf(s, ':') == end && s[..|key|] == key && s[|key|..end] == SUFFIX && s[end + 1..] == afterColon
  {
    IndexOfFirst(key + SUFFIX, ':', afterColon);
  }

  lemma LexFrameOfFrame(f: Field, rest: string)
    requires ':' !in f.key
    ensures LexFrame(Frame(f) + rest) == Some((f, rest))
  {
    var afterColon := Decimal(|f.value|) + "\n" + (f.value + rest);
    assert Frame(f) + rest == f.key + SUFFIX + [':'] + afterColon;
    LabelEnds(f.key, afterColon);
    LengthEnds(f.value, rest);
  }

  lemma LexStep(s: string, f: Field, t: string, others: seq<Field>)
    requires LexFrame(s) == Some((f, "\n" + t)) && Lex(t) == Some(others)
    ensures Lex(s) == Some([f] + others)
  {
    assert ("\n" + t)[1..] == t;
  }

  lemma LexLast(s: string, f: Field)
    requires LexFrame(s) == Some((f, ""))
    ensures Lex(s) == Some([f])
  {
  }

  /** Framed text has exactly one reading as a list of labelled values. */
  lemma {:induction false} LexOfJoin(fields: seq<Field>)
    requires fields != [] && PlainLabels(fields)
    ensures Lex(Join(fields)) == Some(fields)
  {
    var f, others := fields[0], fields[1..];
    assert fields == [f] + others;
    if others == [] {
      LexFrameOfFrame(f, "");
      assert Join(fields) == Frame(f) + "";
      LexLast(Join(fields), f);
      assert fields == [f];
    } else {
      LexOfJoin(others);
      LexFrameOfFrame(f, "\n" + Join(others));
      assert Join(fields) == Frame(f) + ("\n" + Join(others));
      LexStep(Join(fields), f, Join(others), others);
    }
  }

  lemma JoinFront(f: Field, rest: seq<Field>)
    requires rest != []
    ensures Join([f] + rest) == Frame(f) + "\n" + Join(rest)
  {
    assert ([f] + rest)[1..] == rest;
  }

  lemma Regroup(x: string, y: string, z: string)
    ensures x + "\n" + (y + "\n" + z) == (x + "\n" + y) + "\n" + z
  {
  }

  lemma {:induction false} JoinAppend(a: seq<Field>, b: seq<Field>)
    requires a != [] && b != []
    ensures Join(a + b) == Join(a) + "\n" + Join(b)
  {
    var f, others := a[0], a[1..];
    if others == [] {
      assert a == [f];
      JoinFront(f, b);
    } else {
      JoinAppend(others, b);
      JoinFront(f, others);
      JoinFront(f, others + b);
      Regroup(Frame(f), Join(others), Join(b));
      assert a == [f] + others && a + b == [f] + (others + b);
    }
  }

  // ---- Fields of each framed value (JSON values already rendered to text) ----

  function Opt(key: string, v: Option<string>): Field {
    match v
    case Some(text) => Field(key, text)
    case None => Field(key + "_ABSENT", "")
  }

  function HexDigit(d: nat): char
    requires d < 16
  {
    if d < 10 then Digit(d) else 'a' + (d - 10) as char
  }

  function Hex(bytes: seq<byte>): string {
    if bytes == [] then ""
    else [HexDigit(bytes[0] as nat / 16), HexDigit(bytes[0] as nat % 16)] + Hex(bytes[1..])
  }

  function InlineFields(d: InlineData<string>): seq<Field> {
    [ Field("INLINE_MIME", d.mime), Field("INLINE_DATA", Hex(d.data)),
      Opt("INLINE_URI", d.uri), Opt("INLINE_ANNOTATIONS", d.annotations) ]
  }

  function FileFields(d: FileData<string>): seq<Field> {
    [ Field("FILE_MIME", d.mime), Field("FILE_URI", d.uri), Opt("FILE_ANNOTATIONS", d.annotations) ]
  }

  function PartFields(p: Part<string>): seq<Field> {
    match p
    case Text(text) => [Field("TAG", "text"), Field("TEXT", text)]
    case Thinking(thinking, signature) =>
      [Field("TAG", "thinking"), Field("THINKING", thinking), Opt("SIGNATURE", signature)]
    case InlinePart(d) =>
      [ Field("TAG", "inline_data"), Field("MIME", d.mime), Field("DATA", Hex(d.data)),
        Opt("URI", d.uri), Opt("ANNOTATIONS", d.annotations) ]
    case FilePart(d) =>
      [ Field("TAG", "file_data"), Field("MIME", d.mime), Field("FILE_URI", d.uri),
        Opt("ANNOTATIONS", d.annotations) ]
    case FunctionCall(name, args, id, signature) =>
      [ Field("TAG", "function_call"), Field("NAME", name), Field("ARGS", args), Opt("ID", id),
        Opt("THOUGHT_SIGNATURE", signature) ]
    case FunctionResponse(result, id, annotations) =>
      ResponseHead(result, id, annotations) + FlatMap(InlineFields, result.inlineData)
      + [Field("FILE_DATA_COUNT", Decimal(|result.fileData|))] + FlatMap(FileFields, result.fileData)
    case ServerToolCall(call) => [Field("TAG", "server_tool_call"), Field("PAYLOAD", call)]
    case ServerToolResponse(response) =>
      [Field("TAG", "server_tool_response"), Field("PAYLOAD", response)]
    case EmbeddedText(uri, mime, body) =>
      [Field("TAG", "embedded_text"), Field("URI", uri), Opt("MIME", mime), Field("TEXT", body)]
    case EmbeddedBlob(uri, mime, blob) =>
      [ Field("TAG", "embedded_blob"), Field("URI", uri), Opt("MIME", mime),
        Field("DATA", Hex(blob)) ]
  }

  function ResponseHead(result: FunctionResponseData<string>, id: Option<string>,
                        annotations: Option<string>): seq<Field> {
    [ Field("TAG", "function_response"), Field("NAME", result.name),
      Field("RESPONSE", result.response), Opt("ID", id), Opt("ANNOTATIONS", annotations),
      Field("INLINE_DATA_COUNT", Decimal(|result.inlineData|)) ]
  }

  function ContentHead(c: Content<string>): seq<Field> {
    [Field("ROLE", c.role), Field("PARTS", Decimal(|c.parts|))]
  }

  function ContentFields(c: Content<string>): seq<Field> {
    ContentHead(c) + FlatMap(PartFields, c.parts)
  }

  function RequestFields(cs: seq<Content<string>>): seq<Field> {
    [Field("CONTENTS", Decimal(|cs|))] + FlatMap(ContentFields, cs)
  }

  // ---- Second layer: fields back to values ----

  function Get(fs: seq<Field>, i: nat, key: string): Option<string> {
    if i < |fs| && fs[i].key == key then Some(fs[i].value) else None
  }

  function GetOpt(fs: seq<Field>, i: nat, key: string): Option<Option<string>> {
    if i >= |fs| then None
    else if fs[i].key == key then Some(Some(fs[i].value))
    else if fs[i] == Field(key + "_ABSENT", "") then Some(None)
    else None
  }

  function GetCount(fs: seq<Field>, i: nat, key: string): Option<nat> {
    var digits :- Get(fs, i, key);
    if AllDigits(digits) then Some(DigitsValue(digits)) else None
  }

  function HexValue(c: char): Option<nat> {
    if '0' <= c <= '9' then Some((c - '0') as nat)
    else if 'a' <= c <= 'f' then Some((c - 'a') as nat + 10)
    else None
  }

  function UnHex(s: string): Option<seq<byte>> {
    if s == "" then Some([]) else if |s| == 1 then None else
    var high :- HexValue(s[0]);
    var low :- HexValue(s[1]);
    var others :- UnHex(s[2..]);
    Some([(16 * high + low) as byte] + others)
  }

  function GetBytes(fs: seq<Field>, i: nat, key: string): Option<seq<byte>> {
    var hex :- Get(fs, i, key);
    UnHex(hex)
  }

  function TakeInlines(n: nat, fs: seq<Field>): Option<(seq<InlineData<string>>, seq<Field>)> {
    if n == 0 then Some(([], fs)) else
    var mime :- Get(fs, 0, "INLINE_MIME");
    var data :- GetBytes(fs, 1, "INLINE_DATA");
    var uri :- GetOpt(fs, 2, "INLINE_URI");
    var annotations :- GetOpt(fs, 3, "INLINE_ANNOTATIONS");
    var others :- TakeInlines(n - 1, fs[4..]);
    Some(([InlineData(mime, data, uri, annotations)] + others.0, others.1))
  }

  function TakeFiles(n: nat, fs: seq<Field>): Option<(seq<FileData<string>>, seq<Field>)> {
    if n == 0 then Some(([], fs)) else
    var mime :- Get(fs, 0, "FILE_MIME");
    var uri :- Get(fs, 1, "FILE_URI");
    var annotations :- GetOpt(fs, 2, "FILE_ANNOTATIONS");
    var others :- TakeFiles(n - 1, fs[3..]);
    Some(([FileData(mime, uri, annotations)] + others.0, others.1))
  }

  function TakeResponse(fs: seq<Field>): Option<(Part<string>, seq<Field>)> {
    var name :- Get(fs, 1, "NAME");
    var response :- Get(fs, 2, "RESPONSE");
    var id :- GetOpt(fs, 3, "ID");
    var annotations :- GetOpt(fs, 4, "ANNOTATIONS");
    var inlines :- GetCount(fs, 5, "INLINE_DATA_COUNT");
    var inlineData :- TakeInlines(inlines, fs[6..]);
    var files :- GetCount(inlineData.1, 0, "FILE_DATA_COUNT");
    var fileData :- TakeFiles(files, inlineData.1[1..]);
    Some((FunctionResponse(FunctionResponseData(name, response, inlineData.0, fileData.0), id, annotations),
          fileData.1))
  }

  function TakePart(fs: seq<Field>): Option<(Part<string>, seq<Field>)> {
    var tag :- Get(fs, 0, "TAG");
    if tag == "text" then
      var text :- Get(fs, 1, "TEXT");
      Some((Text(text), fs[2..]))
    else if tag == "thinking" then
      var thinking :- Get(fs, 1, "THINKING");
      var signature :- GetOpt(fs, 2, "SIGNATURE");
      Some((Thinking(thinking, signature), fs[3..]))
    else if tag == "inline_data" then
      var mime :- Get(fs, 1, "MIME");
      var data :- GetBytes(fs, 2, "DATA");
      var uri :- GetOpt(fs, 3, "URI");
      var annotations :- GetOpt(fs, 4, "ANNOTATIONS");
      Some((InlinePart(InlineData(mime, data, uri, annotations)), fs[5..]))
    else if tag == "file_data" then
      var mime :- Get(fs, 1, "MIME");
      var uri :- Get(fs, 2, "FILE_URI");
      var annotations :- GetOpt(fs, 3, "ANNOTATIONS");
      Some((FilePart(FileData(mime, uri, annotations)), fs[4..]))
    else if tag == "function_call" then
      var name :- Get(fs, 1, "NAME");
      var args :- Get(fs, 2, "ARGS");
      var id :- GetOpt(fs, 3, "ID");
      var signature :- GetOpt(fs, 4, "THOUGHT_SIGNATURE");
      Some((FunctionCall(name, args, id, signature), fs[5..]))
    else if tag == "function_response" then TakeResponse(fs)
    else if tag == "server_tool_call" then
      var payload :- Get(fs, 1, "PAYLOAD");
      Some((ServerToolCall(payload), fs[2..]))
    else if tag == "server_tool_response" then
      var payload :- Get(fs, 1, "PAYLOAD");
      Some((ServerToolResponse(payload), fs[2..]))
    else if tag == "embedded_text" then
      var uri :- Get(fs, 1, "URI");
      var mime :- GetOpt(fs, 2, "MIME");
      var body :- Get(fs, 3, "TEXT");
      Some((EmbeddedText(uri, mime, body), fs[4..]))
    else if tag == "embedded_blob" then
      var uri :- Get(fs, 1, "URI");
      var mime :- GetOpt(fs, 2, "MIME");
      var blob :- GetBytes(fs, 3, "DATA");
      Some((EmbeddedBlob(uri, mime, blob), fs[4..]))
    else None
  }

  function TakeParts(n: nat, fs: seq<Field>): Option<(seq<Part<string>>, seq<Field>)> {
    if n == 0 then Some(([], fs)) else
    var first :- TakePart(fs);
    var others :- TakeParts(n - 1, first.1);
    Some(([first.0] + others.0, others.1))
  }

  function TakeContents(n: nat, fs: seq<Field>): Option<(seq<Content<string>>, seq<Field>)> {
    if n == 0 then Some(([], fs)) else
    var role :- Get(fs, 0, "ROLE");
    var count :- GetCount(fs, 1, "PARTS");
    var parts :- TakeParts(count, fs[2..]);
    var others :- TakeContents(n - 1, parts.1);
    Some(([Content(role, parts.0)] + others.0, others.1))
  }

  /** Reads a whole framed request; trailing material is an error. */
  function DecodeRequest(text: string): Option<seq<Content<string>>> {
    var fs :- Lex(text);
    var count :- GetCount(fs, 0, "CONTENTS");
    var contents :- TakeContents(count, fs[1..]);
    if contents.1 == [] then Some(contents.0) else None
  }

  // ---- The decoder inverts the framing ----

  lemma {:induction false} UnHexOfHex(bytes: seq<byte>)
    ensures UnHex(Hex(bytes)) == Some(bytes)
  {
    if bytes != [] {
      var b := bytes[0] as nat;
      assert Hex(bytes)[2..] == Hex(bytes[1..]);
      assert HexValue(HexDigit(b / 16)) == Some(b / 16);
      assert HexValue(HexDigit(b % 16)) == Some(b % 16);
      UnHexOfHex(bytes[1..]);
      assert 16 * (b / 16) + b % 16 == b;
      assert bytes == [bytes[0]] + bytes[1..];
    }
  }

  lemma OptRead(fs: seq<Field>, i: nat, key: string, v: Option<string>)
    requires i < |fs| && fs[i] == Opt(key, v)
    ensures GetOpt(fs, i, key) == Some(v)
  {
    assert v.None? ==> |fs[i].key| != |key|;
  }

  lemma {:induction false} InlinesTaken(ds: seq<InlineData<string>>, rest: seq<Field>)
    ensures TakeInlines(|ds|, FlatMap(InlineFields, ds) + rest) == Some((ds, rest))
  {
    if ds != [] {
      var d, tail := ds[0], FlatMap(InlineFields, ds[1..]) + rest;
      var fs := InlineFields(d) + tail;
      assert FlatMap(InlineFields, ds) + rest == fs;
      UnHexOfHex(d.data);
      OptRead(fs, 2, "INLINE_URI", d.uri);
      OptRead(fs, 3, "INLINE_ANNOTATIONS", d.annotations);
      InlinesTaken(ds[1..], rest);
      assert fs[4..] == tail;
      assert ds == [d] + ds[1..];
    } else {
      assert FlatMap(InlineFields, ds) + rest == rest;
    }
  }

  lemma {:induction false} FilesTaken(ds: seq<FileData<string>>, rest: seq<Field>)
    ensures TakeFiles(|ds|, FlatMap(FileFields, ds) + rest) == Some((ds, rest))
  {
    if ds != [] {
      var d, tail := ds[0], FlatMap(FileFields, ds[1..]) + rest;
      var fs := FileFields(d) + tail;
      assert FlatMap(FileFields, ds) + rest == fs;
      OptRead(fs, 2, "FILE_ANNOTATIONS", d.annotations);
      FilesTaken(ds[1..], rest);
      assert fs[3..] == tail;
      assert ds == [d] + ds[1..];
    } else {
      assert FlatMap(FileFields, ds) + rest == rest;
    }
  }

  lemma ResponseTaken(p: Part<string>, rest: seq<Field>)
    requires p.FunctionResponse?
    ensures TakeResponse(PartFields(p) + rest) == Some((p, rest))
  {
    var result := p.result;
    var head := ResponseHead(result, p.id, p.annotations);
    var count := Field("FILE_DATA_COUNT", Decimal(|result.fileData|));
    var afterFiles := FlatMap(FileFields, result.fileData) + rest;
    var afterInlines := [count] + afterFiles;
    var afterHead := FlatMap(InlineFields, result.inlineData) + afterInlines;
    var fs := PartFields(p) + rest;
    assert fs == head + afterHead;
    assert fs[1] == head[1] && fs[2] == head[2] && fs[3] == head[3] && fs[4] == head[4] && fs[5] == head[5];
    OptRead(fs, 3, "ID", p.id);
    OptRead(fs, 4, "ANNOTATIONS", p.annotations);
    DecimalDenotes(|result.inlineData|);
    assert GetCount(fs, 5, "INLINE_DATA_COUNT") == Some(|result.inlineData|);
    assert fs[6..] == afterHead;
    InlinesTaken(result.inlineData, afterInlines);
    DecimalDenotes(|result.fileData|);
    assert GetCount(afterInlines, 0, "FILE_DATA_COUNT") == Some(|result.fileData|);
    assert afterInlines[1..] == afterFiles;
    FilesTaken(result.fileData, rest);
  }

  lemma CallTaken(p: Part<string>, rest: seq<Field>)
    requires p.FunctionCall?
    ensures TakePart(PartFields(p) + rest) == Some((p, rest))
  {
    var fs := PartFields(p) + rest;
    assert fs[|PartFields(p)|..] == rest;
    OptRead(fs, 3, "ID", p.id);
    OptRead(fs, 4, "THOUGHT_SIGNATURE", p.thoughtSignature);
  }

  lemma InlinePartTaken(p: Part<string>, rest: seq<Field>)
    requires p.InlinePart?
    ensures TakePart(PartFields(p) + rest) == Some((p, rest))
  {
    var fs := PartFields(p) + rest;
    assert fs[|PartFields(p)|..] == rest;
    UnHexOfHex(p.inline.data);
    OptRead(fs, 3, "URI", p.inline.uri);
    OptRead(fs, 4, "ANNOTATIONS", p.inline.annotations);
  }

  lemma EmbeddedTaken(p: Part<string>, rest: seq<Field>)
    requires p.EmbeddedText? || p.EmbeddedBlob?
    ensures TakePart(PartFields(p) + rest) == Some((p, rest))
  {
    var fs := PartFields(p) + rest;
    assert fs[|PartFields(p)|..] == rest;
    if p.EmbeddedBlob? {
      UnHexOfHex(p.blob);
    }
    OptRead(fs, 2, "MIME", p.mime);
  }

  lemma FilePartTaken(p: Part<string>, rest: seq<Field>)
    requires p.FilePart?
    ensures TakePart(PartFields(p) + rest) == Some((p, rest))
  {
    var fs := PartFields(p) + rest;
    assert fs[|PartFields(p)|..] == rest;
    OptRead(fs, 3, "ANNOTATIONS", p.file.annotations);
  }

  lemma ThinkingTaken(p: Part<string>, rest: seq<Field>)
    requires p.Thinking?
    ensures TakePart(PartFields(p) + rest) == Some((p, rest))
  {
    var fs := PartFields(p) + rest;
    assert fs[|PartFields(p)|..] == rest;
    OptRead(fs, 2, "SIGNATURE", p.signature);
  }

  lemma ResponsePartTaken(p: Part<string>, rest: seq<Field>)
    requires p.FunctionResponse?
    ensures TakePart(PartFields(p) + rest) == Some((p, rest))
  {
    ResponseTaken(p, rest);
  }

  lemma PlainPartTaken(p: Part<string>, rest: seq<Field>)
    requires p.Text? || p.ServerToolCall? || p.ServerToolResponse?
    ensures TakePart(PartFields(p) + rest) == Some((p, rest))
  {
    assert (PartFields(p) + rest)[|PartFields(p)|..] == rest;
  }

  lemma PartTaken(p: Part<string>, rest: seq<Field>)
    ensures TakePart(PartFields(p) + rest) == Some((p, rest))
  {
    match p {
      case FunctionResponse(_, _, _) => ResponsePartTaken(p, rest);
      case InlinePart(_) => InlinePartTaken(p, rest);
      case FunctionCall(_, _, _, _) => CallTaken(p, rest);
      case Thinking(_, _) => ThinkingTaken(p, rest);
      case FilePart(_) => FilePartTaken(p, rest);
      case EmbeddedText(_, _, _) => EmbeddedTaken(p, rest);
      case EmbeddedBlob(_, _, _) => EmbeddedTaken(p, rest);
      case _ => PlainPartTaken(p, rest);
    }
  }

  /** One part off the front. */
  lemma OnePartTaken(fs: seq<Field>, p: Part<string>, others: seq<Field>, ps: seq<Part<string>>, rest: seq<Field>)
    requires TakePart(fs) == Some((p, others)) && TakeParts(|ps|, others) == Some((ps, rest))
    ensures TakeParts(|ps| + 1, fs) == Some(([p] + ps, rest))
  {
  }

  lemma PartInFront(p: Part<string>, ps: seq<Part<string>>, rest: seq<Field>)
    ensures FlatMap(PartFields, [p] + ps) + rest == PartFields(p) + (FlatMap(PartFields, ps) + rest)
  {
    assert ([p] + ps)[1..] == ps;
  }

  lemma {:induction false} PartsTaken(ps: seq<Part<string>>, rest: seq<Field>)
    ensures TakeParts(|ps|, FlatMap(PartFields, ps) + rest) == Some((ps, rest))
  {
    if ps != [] {
      var p, others := ps[0], ps[1..];
      var tail := FlatMap(PartFields, others) + rest;
      PartTaken(p, tail);
      PartsTaken(others, rest);
      OnePartTaken(PartFields(p) + tail, p, tail, others, rest);
      PartInFront(p, others, rest);
      assert ps == [p] + others;
    } else {
      assert FlatMap(PartFields, ps) + rest == rest;
    }
  }

  /** The head of a content reads back, and leaves the parts to be read. */
  lemma HeadTaken(c: Content<string>, tail: seq<Field>)
    ensures var fs := ContentHead(c) + tail;
      Get(fs, 0, "ROLE") == Some(c.role) && GetCount(fs, 1, "PARTS") == Some(|c.parts|) && fs[2..] == tail
  {
    DecimalDenotes(|c.parts|);
  }

  /** One content off the front. */
  lemma ContentTaken(fs: seq<Field>, c: Content<string>, others: seq<Field>,
                     cs: seq<Content<string>>, rest: seq<Field>)
    requires Get(fs, 0, "ROLE") == Some(c.role) && GetCount(fs, 1, "PARTS") == Some(|c.parts|)
    requires TakeParts(|c.parts|, fs[2..]) == Some((c.parts, others))
    requires TakeContents(|cs|, others) == Some((cs, rest))
    ensures TakeContents(|cs| + 1, fs) == Some(([c] + cs, rest))
  {
  }

  lemma ContentInFront(c: Content<string>, cs: seq<Content<string>>, rest: seq<Field>)
    ensures FlatMap(ContentFields, [c] + cs) + rest ==
      ContentHead(c) + (FlatMap(PartFields, c.parts) + (FlatMap(ContentFields, cs) + rest))
  {
    assert ([c] + cs)[1..] == cs;
  }

  lemma {:induction false} ContentsTaken(cs: seq<Content<string>>, rest: seq<Field>)
    ensures TakeContents(|cs|, FlatMap(ContentFields, cs) + rest) == Some((cs, rest))
  {
    if cs != [] {
      var c := cs[0];
      var others := FlatMap(ContentFields, cs[1..]) + rest;
      var tail := FlatMap(PartFields, c.parts) + others;
      HeadTaken(c, tail);
      PartsTaken(c.parts, others);
      ContentsTaken(cs[1..], rest);
      ContentTaken(ContentHead(c) + tail, c, others, cs[1..], rest);
      ContentInFront(c, cs[1..], rest);
      assert cs == [c] + cs[1..];
    } else {
      assert FlatMap(ContentFields, cs) + rest == rest;
    }
  }

  lemma PlainAppend(a: seq<Field>, b: seq<Field>)
    requires PlainLabels(a) && PlainLabels(b)
    ensures PlainLabels(a + b)
  {
    forall f | f in a + b ensures ':' !in f.key {
      assert f in a || f in b;
    }
  }

  /** A field whose label is one of the fixed ones, possibly marked absent. */
  predicate Known(f: Field) {
    f.key in LABELS || (exists key :: key in LABELS && f.key == key + "_ABSENT")
  }

  lemma KnownPlain(fields: seq<Field>)
    requires forall f <- fields :: Known(f)
    ensures PlainLabels(fields)
  {
    LabelsPlain();
    forall f | f in fields ensures ':' !in f.key {
      assert Known(f);
    }
  }

  lemma OptKnown(key: string, v: Option<string>)
    requires key in LABELS
    ensures Known(Opt(key, v))
  {
  }

  lemma InlinePlain(d: InlineData<string>)
    ensures PlainLabels(InlineFields(d))
  {
    OptKnown("INLINE_URI", d.uri);
    OptKnown("INLINE_ANNOTATIONS", d.annotations);
    KnownPlain(InlineFields(d));
  }

  lemma {:induction false} InlinesPlain(ds: seq<InlineData<string>>)
    ensures PlainLabels(FlatMap(InlineFields, ds))
  {
    if ds != [] {
      InlinePlain(ds[0]);
      InlinesPlain(ds[1..]);
      PlainAppend(InlineFields(ds[0]), FlatMap(InlineFields, ds[1..]));
    }
  }

  lemma {:induction false} FilesPlain(ds: seq<FileData<string>>)
    ensures PlainLabels(FlatMap(FileFields, ds))
  {
    if ds != [] {
      OptKnown("FILE_ANNOTATIONS", ds[0].annotations);
      KnownPlain(FileFields(ds[0]));
      FilesPlain(ds[1..]);
      PlainAppend(FileFields(ds[0]), FlatMap(FileFields, ds[1..]));
    }
  }

  lemma ResponsePlain(p: Part<string>)
    requires p.FunctionResponse?
    ensures PlainLabels(PartFields(p))
  {
    var head := ResponseHead(p.result, p.id, p.annotations);
    var inlines := FlatMap(InlineFields, p.result.inlineData);
    var count := [Field("FILE_DATA_COUNT", Decimal(|p.result.fileData|))];
    OptKnown("ID", p.id);
    OptKnown("ANNOTATIONS", p.annotations);
    KnownPlain(head);
    KnownPlain(count);
    InlinesPlain(p.result.inlineData);
    FilesPlain(p.result.fileData);
    PlainAppend(head, inlines);
    PlainAppend(head + inlines, count);
    PlainAppend(head + inlines + count, FlatMap(FileFields, p.result.fileData));
  }

  lemma PartPlain(p: Part<string>)
    ensures PlainLabels(PartFields(p))
  {
    if p.FunctionResponse? {
      ResponsePlain(p);
    } else {
      match p {
        case Thinking(_, signature) => OptKnown("SIGNATURE", signature);
        case InlinePart(d) => OptKnown("URI", d.uri); OptKnown("ANNOTATIONS", d.annotations);
        case FilePart(d) => OptKnown("ANNOTATIONS", d.annotations);
        case FunctionCall(_, _, id, signature) =>
          OptKnown("ID", id);
          OptKnown("THOUGHT_SIGNATURE", signature);
        case EmbeddedText(_, mime, _) => OptKnown("MIME", mime);
        case EmbeddedBlob(_, mime, _) => OptKnown("MIME", mime);
        case _ =>
      }
      KnownPlain(PartFields(p));
    }
  }

  lemma {:induction false} PartsPlain(ps: seq<Part<string>>)
    ensures PlainLabels(FlatMap(PartFields, ps))
  {
    if ps != [] {
      PartPlain(ps[0]);
      PartsPlain(ps[1..]);
      PlainAppend(PartFields(ps[0]), FlatMap(PartFields, ps[1..]));
    }
  }

  lemma {:induction false} ContentsPlain(cs: seq<Content<string>>)
    ensures PlainLabels(FlatMap(ContentFields, cs))
  {
    if cs != [] {
      KnownPlain(ContentHead(cs[0]));
      PartsPlain(cs[0].parts);
      ContentsPlain(cs[1..]);
      PlainAppend(ContentHead(cs[0]), FlatMap(PartFields, cs[0].parts));
      PlainAppend(ContentFields(cs[0]), FlatMap(ContentFields, cs[1..]));
    }
  }

  /** The decoder recovers the whole ordered conversation from the framed text. */
  lemma DecodeOfRequest(cs: seq<Content<string>>)
    ensures DecodeRequest(Join(RequestFields(cs))) == Some(cs)
  {
    var count := [Field("CONTENTS", Decimal(|cs|))];
    KnownPlain(count);
    ContentsPlain(cs);
    PlainAppend(count, FlatMap(ContentFields, cs));
    LexOfJoin(RequestFields(cs));
    DecimalDenotes(|cs|);
    assert FlatMap(ContentFields, cs) + [] == FlatMap(ContentFields, cs);
    ContentsTaken(cs, []);
    assert RequestFields(cs)[1..] == FlatMap(ContentFields, cs);
  }

  // ---- The text `request_input_digest` builds ----

  function RenderOpt<J>(render: J -> string, v: Option<J>): Option<string> {
    match v
    case None => None
    case Some(j) => Some(render(j))
  }

  function RenderInline<J>(render: J -> string, d: InlineData<J>): InlineData<string> {
    InlineData(d.mime, d.data, d.uri, RenderOpt(render, d.annotations))
  }

  function RenderFile<J>(render: J -> string, d: FileData<J>): FileData<string> {
    FileData(d.mime, d.uri, RenderOpt(render, d.annotations))
  }

  function RenderResult<J>(render: J -> string, r: FunctionResponseData<J>): FunctionResponseData<string> {
    FunctionResponseData(r.name, render(r.response),
      seq(|r.inlineData|, i requires 0 <= i < |r.inlineData| => RenderInline(render, r.inlineData[i])),
      seq(|r.fileData|, i requires 0 <= i < |r.fileData| => RenderFile(render, r.fileData[i])))
  }

  /** The part with each JSON value replaced by its `serde_json::to_string` text. */
  function RenderPart<J>(render: J -> string, p: Part<J>): Part<string> {
    match p
    case Text(text) => Text(text)
    case Thinking(thinking, signature) => Thinking(thinking, signature)
    case InlinePart(d) => InlinePart(RenderInline(render, d))
    case FilePart(d) => FilePart(RenderFile(render, d))
    case FunctionCall(name, args, id, signature) => FunctionCall(name, render(args), id, signature)
    case FunctionResponse(result, id, annotations) =>
      FunctionResponse(RenderResult(render, result), id, RenderOpt(render, annotations))
    case ServerToolCall(call) => ServerToolCall(render(call))
    case ServerToolResponse(response) => ServerToolResponse(render(response))
    case EmbeddedText(uri, mime, body) => EmbeddedText(uri, mime, body)
    case EmbeddedBlob(uri, mime, blob) => EmbeddedBlob(uri, mime, blob)
  }

  function RenderParts<J>(render: J -> string, ps: seq<Part<J>>): seq<Part<string>> {
    seq(|ps|, i requires 0 <= i < |ps| => RenderPart(render, ps[i]))
  }

  function RenderContent<J>(render: J -> string, c: Content<J>): Content<string> {
    Content(c.role, RenderParts(render, c.parts))
  }

  function RenderRequest<J>(render: J -> string, cs: seq<Content<J>>): seq<Content<string>> {
    seq(|cs|, i requires 0 <= i < |cs| => RenderContent(render, cs[i]))
  }

  /** Pushing one more item's frames after the text built so far. */
  lemma PushItem<A>(f: A -> seq<Field>, fields: seq<Field>, done: seq<A>, item: A)
    requires fields != [] && f(item) != []
    ensures Join(fields + FlatMap(f, done + [item]))
         == Join(fields + FlatMap(f, done)) + "\n" + Join(f(item))
  {
    FlatMapSnoc(f, done, item);
    assert fields + (FlatMap(f, done) + f(item)) == fields + FlatMap(f, done) + f(item);
    JoinAppend(fields + FlatMap(f, done), f(item));
  }

  lemma PartFieldsNonEmpty(p: Part<string>)
    ensures PartFields(p) != []
  {
  }

  /** The frames of the parts of one content, pushed onto the text built so far. */
  method PushParts(prefix: string, ghost fields: seq<Field>, parts: seq<Part<string>>)
    returns (framed: string)
    requires fields != [] && prefix == Join(fields)
    ensures framed == Join(fields + FlatMap(PartFields, parts))
  {
    framed := prefix;
    assert fields + [] == fields;
    for j := 0 to |parts|
      invariant framed == Join(fields + FlatMap(PartFields, parts[..j]))
    {
      framed := framed + "\n" + Join(PartFields(parts[j]));
      PartFieldsNonEmpty(parts[j]);
      PushItem(PartFields, fields, parts[..j], parts[j]);
      assert parts[..j + 1] == parts[..j] + [parts[j]];
    }
    assert parts[..|parts|] == parts;
  }

  lemma JoinContent(before: seq<Field>, c: Content<string>)
    requires before != []
    ensures Join(before + ContentHead(c)) ==
      Join(before) + "\n" + (Frame(ContentHead(c)[0]) + "\n" + Frame(ContentHead(c)[1]))
  {
    var head := ContentHead(c);
    assert head == [head[0]] + [head[1]];
    JoinFront(head[0], [head[1]]);
    JoinAppend(before, head);
  }

  lemma HeadThenParts(before: seq<Field>, c: Content<string>)
    ensures before + ContentHead(c) + FlatMap(PartFields, c.parts) == before + ContentFields(c)
  {
  }

  method PushContent(prefix: string, ghost before: seq<Field>, c: Content<string>) returns (framed: string)
    requires before != [] && prefix == Join(before)
    ensures framed == Join(before + ContentFields(c))
  {
    framed := prefix + "\n" + (Frame(Field("ROLE", c.role)) + "\n" + Frame(Field("PARTS", Decimal(|c.parts|))));
    JoinContent(before, c);
    HeadThenParts(before, c);
    framed := PushParts(framed, before + ContentHead(c), c.parts);
  }

  lemma ExtendFlatMap<A, B>(f: A -> seq<B>, prefix: seq<B>, s: seq<A>, i: nat)
    requires i < |s|
    ensures prefix + FlatMap(f, s[..i + 1]) == prefix + FlatMap(f, s[..i]) + f(s[i])
  {
    FlatMapSnoc(f, s[..i], s[i]);
    assert s[..i + 1] == s[..i] + [s[i]];
    assert prefix + (FlatMap(f, s[..i]) + f(s[i])) == prefix + FlatMap(f, s[..i]) + f(s[i]);
  }

  /** `request_input_digest` up to the hash: one pass that pushes the frames of each content
      and of each of its parts. */
  method RequestInputText<J>(render: J -> string, contents: seq<Content<J>>) returns (framed: string)
    ensures framed == Join(RequestFields(RenderRequest(render, contents)))
  {
    var rendered := RenderRequest(render, contents);
    ghost var fields := [Field("CONTENTS", Decimal(|rendered|))];
    framed := Frame(Field("CONTENTS", Decimal(|rendered|)));
    assert fields + [] == fields;
    for i := 0 to |rendered|
      invariant framed == Join(fields + FlatMap(ContentFields, rendered[..i]))
    {
      framed := PushContent(framed, fields + FlatMap(ContentFields, rendered[..i]), rendered[i]);
      ExtendFlatMap(ContentFields, fields, rendered, i);
    }
    assert rendered[..|rendered|] == rendered;
  }

  ghost predicate Injective<J(!new)>(render: J -> string) {
    forall a, b :: render(a) == render(b) ==> a == b
  }

  lemma RenderPartInjective<J(!new)>(render: J -> string, p: Part<J>, q: Part<J>)
    requires Injective(render) && RenderPart(render, p) == RenderPart(render, q)
    ensures p == q
  {
    if p.FunctionResponse? {
      var a, b := p.result, q.result;
      assert RenderResult(render, a) == RenderResult(render, b);
      forall i | 0 <= i < |a.inlineData| ensures a.inlineData[i] == b.inlineData[i] {
        assert RenderResult(render, a).inlineData[i] == RenderResult(render, b).inlineData[i];
      }
      forall i | 0 <= i < |a.fileData| ensures a.fileData[i] == b.fileData[i] {
        assert RenderResult(render, a).fileData[i] == RenderResult(render, b).fileData[i];
      }
      assert a.inlineData == b.inlineData && a.fileData == b.fileData;
    }
  }

  /** Requests with the same framed text are the same request, provided distinct JSON values
      render to distinct texts. */
  lemma FramedTextDeterminesRequest<J(!new)>(render: J -> string, a: seq<Content<J>>, b: seq<Content<J>>)
    requires Injective(render)
    requires Join(RequestFields(RenderRequest(render, a))) == Join(RequestFields(RenderRequest(render, b)))
    ensures a == b
  {
    var ra, rb := RenderRequest(render, a), RenderRequest(render, b);
    DecodeOfRequest(ra);
    DecodeOfRequest(rb);
    assert ra == rb && |a| == |b|;
    forall i | 0 <= i < |a| ensures a[i] == b[i] {
      assert ra[i] == rb[i];
      assert |a[i].parts| == |b[i].parts|;
      forall j | 0 <= j < |a[i].parts| ensures a[i].parts[j] == b[i].parts[j] {
        assert ra[i].parts[j] == rb[i].parts[j];
        RenderPartInjective(render, a[i].parts[j], b[i].parts[j]);
      }
      assert a[i].parts == b[i].parts;
    }
  }

  // ---- Invocation identity ----

  datatype Effort = Low | Medium | XHigh
  datatype Escalation = NoEscalation | Cloud | Hitl | CloudThenHitl

  function EffortText(e: Effort): string {
    match e case Low => "low" case Medium => "medium" case XHigh => "x_high"
  }

  function EscalationText(e: Escalation): string {
    match e
    case NoEscalation => "none" case Cloud => "cloud" case Hitl => "hitl"
    case CloudThenHitl => "cloud_then_hitl"
  }

  /** Everything `invocation_identity` hashes, with the two prompt digests already taken. */
  datatype Invocation = Invocation(
    promptProtocolVersion: string, protocolHash: string, toolSchemaHash: string,
    outputSchemaHash: string, maxOutputBytes: nat, profileName: string, profileVersion: string,
    provider: string, requestedModel: string, resolvedModel: string, tokenizer: string,
    cacheSalt: string, prefixHash: string, dynamicSuffixHash: string, effort: Effort,
    maxOutputTokens: nat, maxRetries: nat, escalation: Escalation, historyHash: Option<string>)

  const INVOCATION_LABELS: seq<string> := [
    "PROMPT_PROTOCOL_VERSION", "PROTOCOL_HASH", "TOOL_SCHEMA_HASH", "OUTPUT_SCHEMA_HASH",
    "MAX_OUTPUT_BYTES", "PROFILE_NAME", "PROFILE_VERSION", "PROVIDER", "REQUESTED_MODEL",
    "RESOLVED_MODEL", "TOKENIZER", "TRUST_DOMAIN_CACHE_SALT", "PREFIX_HASH", "DYNAMIC_SUFFIX_HASH",
    "REASONING_EFFORT", "MAX_OUTPUT_TOKENS", "MAX_RETRIES", "ESCALATION" ]

  function InvocationValues(v: Invocation): (values: seq<string>)
    ensures |values| == |INVOCATION_LABELS|
  {
    [ v.promptProtocolVersion, v.protocolHash, v.toolSchemaHash, v.outputSchemaHash,
      Decimal(v.maxOutputBytes), v.profileName, v.profileVersion, v.provider, v.requestedModel,
      v.resolvedModel, v.tokenizer, v.cacheSalt, v.prefixHash, v.dynamicSuffixHash,
      EffortText(v.effort), Decimal(v.maxOutputTokens), Decimal(v.maxRetries),
      EscalationText(v.escalation) ]
  }

  /** The `i`th frame carries the `i`th label and the `i`th value. */
  function Labelled(keys: seq<string>, values: seq<string>): seq<Field>
    requires |keys| == |values|
  {
    seq(|keys|, i requires 0 <= i < |keys| => Field(keys[i], values[i]))
  }

  function InvocationFields(v: Invocation): seq<Field> {
    Labelled(INVOCATION_LABELS, InvocationValues(v))
  }

  function HistoryField(hash: string): seq<Field> {
    [Field("SESSION_HISTORY_HASH", hash)]
  }

  function InvocationMaterial(v: Invocation): string {
    var material := Join(InvocationFields(v));
    match v.historyHash
    case None => material
    case Some(hash) => material + "\n" + Frame(HistoryField(hash)[0])
  }

  lemma InvocationLabelsPlain()
    ensures forall i :: 0 <= i < |INVOCATION_LABELS| ==> ':' !in INVOCATION_LABELS[i]
    ensures ':' !in "SESSION_HISTORY_HASH"
  {
  }

  function AllFields(v: Invocation): seq<Field> {
    InvocationFields(v) + (if v.historyHash.Some? then HistoryField(v.historyHash.value) else [])
  }

  lemma MaterialLexes(v: Invocation)
    ensures Lex(InvocationMaterial(v)) == Some(AllFields(v))
  {
    var fields := InvocationFields(v);
    InvocationLabelsPlain();
    assert PlainLabels(fields);
    match v.historyHash {
      case None =>
        LexOfJoin(fields);
        assert AllFields(v) == fields;
      case Some(hash) =>
        PlainAppend(fields, HistoryField(hash));
        JoinAppend(fields, HistoryField(hash));
        LexOfJoin(fields + HistoryField(hash));
    }
  }

  lemma SameValues(a: Invocation, b: Invocation)
    requires InvocationValues(a) == InvocationValues(b) && a.historyHash == b.historyHash
    ensures a == b
  {
    var va, vb := InvocationValues(a), InvocationValues(b);
    assert forall i :: 0 <= i < 18 ==> va[i] == vb[i];
    DecimalInjective(a.maxOutputBytes, b.maxOutputBytes);
    DecimalInjective(a.maxOutputTokens, b.maxOutputTokens);
    DecimalInjective(a.maxRetries, b.maxRetries);
  }

  /** The framed material determines every field of an invocation, and whether a session
      history was part of it. */
  lemma MaterialDeterminesInvocation(a: Invocation, b: Invocation)
    requires InvocationMaterial(a) == InvocationMaterial(b)
    ensures a == b
  {
    MaterialLexes(a);
    MaterialLexes(b);
    var fa, fb := AllFields(a), AllFields(b);
    var va, vb := InvocationValues(a), InvocationValues(b);
    var n := |INVOCATION_LABELS|;
    forall i | 0 <= i < n ensures va[i] == vb[i] {
      assert fa[i].value == va[i] && fb[i].value == vb[i];
    }
    assert a.historyHash == b.historyHash by {
      assert |fa| == if a.historyHash.Some? then n + 1 else n;
      assert a.historyHash.Some? ==> fa[n].value == a.historyHash.value;
      assert b.historyHash.Some? ==> fb[n].value == b.historyHash.value;
    }
    SameValues(a, b);
  }
}
