/**
 * `get_gemini_response`: turning what the text-generation service gave back
 * into the one string the bot works with. The service call itself is an input.
 */
module Gemini {
  import opened Wrappers
  import opened Strings

  /** What one call to the generation service produced: the response's parts,
      each with or without a `text` attribute, or an exception rendered as `str(e)`. */
  datatype Outcome = Response(parts: seq<Option<string>>) | Raised(error: string)

  const Fallback: string := "Failed to generate content."
  const ApologyPrefix: string := "Sorry, I couldn't generate that content right now. Error: "

  /** The texts of the parts that have one, in the order of the parts. */
  function PartTexts(parts: seq<Option<string>>): (r: seq<string>)
    ensures |r| <= |parts|
    ensures forall i :: 0 <= i < |r| ==> Some(r[i]) in parts
    ensures (forall i :: 0 <= i < |parts| ==> parts[i].None?) ==> r == []
    ensures (forall i :: 0 <= i < |parts| ==> parts[i].Some?) ==>
              |r| == |parts| && forall i :: 0 <= i < |r| ==> r[i] == parts[i].value
  {
    if parts == [] then []
    else
      var rest := PartTexts(parts[1..]);
      assert forall i :: 0 <= i < |rest| ==> Some(rest[i]) in parts by {
        forall i | 0 <= i < |rest| ensures Some(rest[i]) in parts {
          assert Some(rest[i]) in parts[1..];
        }
      }
      match parts[0]
      case Some(t) => [t] + rest
      case None => rest
  }

  /** Taking texts commutes with concatenating responses: order is kept and
      nothing is invented or reordered. */
  lemma {:induction false} PartTextsAppend(a: seq<Option<string>>, b: seq<Option<string>>)
    ensures PartTexts(a + b) == PartTexts(a) + PartTexts(b)
  {
    if a != [] {
      assert (a + b)[0] == a[0];
      assert (a + b)[1..] == a[1..] + b;
      PartTextsAppend(a[1..], b);
    } else {
      assert a + b == b;
    }
  }

  /** The text `get_gemini_response` returns for a given service outcome. */
  function ResponseText(o: Outcome): (r: string)
  {
    match o
    case Raised(e) => ApologyPrefix + e
    case Response(parts) =>
      if parts != [] then Join(PartTexts(parts), ' ') else Fallback
  }

  /** The two fixed-text paths: an exception becomes the apology carrying the
      error and is never empty; an empty response becomes the fallback. */
  lemma ResponseTextFailures(o: Outcome)
    ensures o.Raised? ==> ResponseText(o) != ""
                          && ResponseText(o)[..|ApologyPrefix|] == ApologyPrefix
                          && ResponseText(o)[|ApologyPrefix|..] == o.error
    ensures o.Response? && o.parts == [] ==> ResponseText(o) == Fallback
  {
  }

  /** The result is the empty string exactly when the response has parts but
      they carry no text at all, or a single empty text. */
  lemma ResponseTextEmpty(o: Outcome)
    ensures ResponseText(o) == "" <==>
              o.Response? && o.parts != [] && PartTexts(o.parts) in {[], [""]}
  {
    if o.Response? && o.parts != [] {
      JoinEmpty(PartTexts(o.parts), ' ');
    }
  }

  /** For a non-empty response, the texts are joined by single spaces in order:
      splitting the result at spaces gives them back when none contains a space. */
  lemma ResponseTextJoinsInOrder(parts: seq<Option<string>>)
    requires PartTexts(parts) != []
    requires forall i :: 0 <= i < |PartTexts(parts)| ==> ' ' !in PartTexts(parts)[i]
    ensures Split(ResponseText(Response(parts)), ' ') == PartTexts(parts)
    ensures |ResponseText(Response(parts))| == TotalLength(PartTexts(parts)) + |PartTexts(parts)| - 1
  {
    SplitJoin(PartTexts(parts), ' ');
  }

  /** Responses compose: the text of two responses' parts taken together is
      the first text, one space, then the second, whatever the texts contain;
      a single part with text gives that text, one without gives "". */
  lemma ResponseTextConcat(a: seq<Option<string>>, b: seq<Option<string>>)
    requires PartTexts(a) != [] && PartTexts(b) != []
    ensures ResponseText(Response(a + b)) == ResponseText(Response(a)) + " " + ResponseText(Response(b))
  {
    PartTextsAppend(a, b);
    JoinAppend(PartTexts(a), PartTexts(b), ' ');
  }

  /** One part: its text, or "" when it has none. */
  lemma ResponseTextSinglePart(p: Option<string>)
    ensures p.Some? ==> ResponseText(Response([p])) == p.value
    ensures p.None? ==> ResponseText(Response([p])) == ""
  {
    assert [p][1..] == [];
  }
}
