/** What counts as the end of a loop: the visible text of one model response, in the order of its
    parts, read as a finish message. */
module LoopFinish {
  import opened Prelude
  import opened Json
  import opened LoopStates

  function TextOf(part: Part): string {
    if part.Text? then part.text else ""
  }

  /** The visible text parts, one after the other. */
  function VisibleText(c: Content): string {
    FlatMap(TextOf, c.parts)
  }

  predicate HasText(c: Content) {
    exists i :: 0 <= i < |c.parts| && c.parts[i].Text?
  }

  predicate Speaks(c: Content) {
    c.role == "assistant" || c.role == "model"
  }

  /** The response is a finish message with this output. */
  predicate Finishes(host: Host, c: Content, output: Json) {
    && Speaks(c) && !HasCall(c) && HasText(c)
    && !host.isBlank(VisibleText(c)) && host.parseFinish(VisibleText(c)) == Some(output)
  }

  /** The response asks for tools and says nothing else. */
  predicate AsksForTools(host: Host, c: Content) {
    Speaks(c) && HasCall(c) && (!HasText(c) || host.isBlank(VisibleText(c)))
  }

  /** The response neither finishes nor asks for tools. */
  ghost predicate SaysNeither(host: Host, c: Content) {
    !AsksForTools(host, c) && forall output :: !Finishes(host, c, output)
  }

  lemma {:induction false} ModelTextJoins(parts: seq<Part>)
    ensures ModelText(parts).Some? <==> exists i :: 0 <= i < |parts| && parts[i].Text?
    ensures FlatMap(TextOf, parts) == if ModelText(parts).Some? then ModelText(parts).value else ""
  {
    if parts != [] {
      ModelTextJoins(parts[1..]);
      if i :| 0 <= i < |parts| && parts[i].Text? {
        assert i > 0 ==> parts[1..][i - 1].Text?;
      }
      if i :| 0 <= i < |parts| - 1 && parts[1..][i].Text? {
        assert parts[i + 1].Text?;
      }
    }
  }

  /** A response finishes with an output exactly when its visible text, joined in order, is the
      finish message for it and no part asks for a tool. */
  lemma FinishIff(host: Host, c: Content, output: Json)
    ensures AdmittedFinish(host, c) == Ok(Some(output)) <==> Finishes(host, c, output)
  {
    ModelTextJoins(c.parts);
  }

  /** It goes on without finishing exactly when it asks for tools and nothing visible is said. */
  lemma AsksIff(host: Host, c: Content)
    ensures AdmittedFinish(host, c) == Ok(None) <==> AsksForTools(host, c)
  {
    ModelTextJoins(c.parts);
  }

  /** Everything else is refused. */
  lemma RefusedIff(host: Host, c: Content)
    ensures AdmittedFinish(host, c).Err? <==> SaysNeither(host, c)
  {
    AsksIff(host, c);
    if AdmittedFinish(host, c).Ok? && AdmittedFinish(host, c).value.Some? {
      FinishIff(host, c, AdmittedFinish(host, c).value.value);
    }
    forall output { FinishIff(host, c, output); }
  }
}
