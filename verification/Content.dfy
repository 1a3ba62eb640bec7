/** Conversation contents as exchanged with the model SDK. */
module Content {
  import opened Prelude

  newtype byte = b: int | 0 <= b < 256

  /** `J` is the representation of JSON values: a tree, or the text it renders to. */
  datatype InlineData<J> =
    InlineData(mime: string, data: seq<byte>, uri: Option<string>, annotations: Option<J>)

  datatype FileData<J> = FileData(mime: string, uri: string, annotations: Option<J>)

  datatype FunctionResponseData<J> = FunctionResponseData(
    name: string, response: J, inlineData: seq<InlineData<J>>, fileData: seq<FileData<J>>)

  datatype Part<J> =
    | Text(text: string)
    | Thinking(thinking: string, signature: Option<string>)
    | InlinePart(inline: InlineData<J>)
    | FilePart(file: FileData<J>)
    | FunctionCall(name: string, args: J, id: Option<string>, thoughtSignature: Option<string>)
    | FunctionResponse(result: FunctionResponseData<J>, id: Option<string>, annotations: Option<J>)
    | ServerToolCall(call: J)
    | ServerToolResponse(response: J)
    | EmbeddedText(uri: string, mime: Option<string>, body: string)
    | EmbeddedBlob(uri: string, mime: Option<string>, blob: seq<byte>)

  datatype Content<J> = Content(role: string, parts: seq<Part<J>>)
}
