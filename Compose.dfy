/** The composition pipeline shared by both bot variants: the payload sent to
    the image model is the fixed instruction, the subject, then at most ten
    style references in stored order; the model's answer is scanned for the
    first part that carries an image, and a raised error is classified as a
    quota error or a generic failure by its text. */
module Compose {

  import opened Wrappers
  import opened Caption

  /** At most this many references go into one request. */
  const MaxReferences: nat := 10

  /** An image the bot hands to the model: a Telegram file id, or a file in
      the styles directory. */
  datatype ImageRef = TelegramFile(fileId: string) | StoredFile(name: string)

  /** One entry of the request's `contents` list. */
  datatype PayloadItem = Instruction | Picture(image: ImageRef)

  /** PNG bytes of a generated image; a PNG file is never empty. */
  type Image = b: seq<bv8> | |b| > 0 witness [0]

  /** What the generation call produces: its response parts, each of which
      may or may not yield an image, or the text of the exception it raised. */
  datatype GenResponse = Answered(parts: seq<Option<Image>>) | Raised(message: string)

  /** Which reply the photo handler sends. */
  datatype PhotoOutcome =
    | Saved(viaCaption: bool, count: nat)  // stored as a reference; count is the new total
    | NoReferences                        // a subject arrived while no reference is stored
    | Generated(image: Image)             // the transformed image is sent back
    | EmptyResult                         // the call succeeded but no part held an image
    | QuotaExceeded                       // the call failed with a rate-limit error
    | GenerationFailed(message: string)   // the call failed otherwise; the text is shown

  /** Stored Telegram file ids as images for the model. */
  function TelegramFiles(ids: seq<string>): (refs: seq<ImageRef>)
    ensures |refs| == |ids|
    ensures forall i :: 0 <= i < |ids| ==> refs[i] == TelegramFile(ids[i])
  {
    seq(|ids|, i requires 0 <= i < |ids| => TelegramFile(ids[i]))
  }

  /** Files of the styles directory as images for the model. */
  function StoredFiles(names: seq<string>): (refs: seq<ImageRef>)
    ensures |refs| == |names|
    ensures forall i :: 0 <= i < |names| ==> refs[i] == StoredFile(names[i])
  {
    seq(|names|, i requires 0 <= i < |names| => StoredFile(names[i]))
  }

  function Min(a: nat, b: nat): nat
  {
    if a <= b then a else b
  }

  /** The images the model sees, in order, skipping the instruction text. */
  function Pictures(items: seq<PayloadItem>): seq<ImageRef>
  {
    if items == [] then []
    else (match items[0] case Instruction => [] case Picture(r) => [r]) + Pictures(items[1..])
  }

  function AsPictures(refs: seq<ImageRef>): (items: seq<PayloadItem>)
    ensures |items| == |refs|
    ensures forall i :: 0 <= i < |refs| ==> items[i] == Picture(refs[i])
  {
    if refs == [] then [] else [Picture(refs[0])] + AsPictures(refs[1..])
  }

  /** `[prompt, subject] + references` */
  function BuildPayload(subject: ImageRef, refs: seq<ImageRef>): seq<PayloadItem>
  {
    [Instruction, Picture(subject)] + AsPictures(refs)
  }

  lemma {:induction false} PicturesOfPictures(refs: seq<ImageRef>)
    ensures Pictures(AsPictures(refs)) == refs
  {
    if refs != [] {
      var items := AsPictures(refs);
      assert items[1..] == AsPictures(refs[1..]);
      PicturesOfPictures(refs[1..]);
    }
  }

  /** The payload opens with the instruction; the model sees the subject as its
      first image and the references after it, in the order given, and nothing
      else. */
  lemma PayloadShape(subject: ImageRef, refs: seq<ImageRef>)
    ensures BuildPayload(subject, refs)[0] == Instruction
    ensures |BuildPayload(subject, refs)| == 2 + |refs|
    ensures Pictures(BuildPayload(subject, refs)) == [subject] + refs
  {
    var p := BuildPayload(subject, refs);
    assert p[1..] == [Picture(subject)] + AsPictures(refs);
    assert ([Picture(subject)] + AsPictures(refs))[1..] == AsPictures(refs);
    PicturesOfPictures(refs);
  }

  /** The cap of main.py: keep the first MaxReferences references and report
      whether any were dropped. */
  function CapReferences(refs: seq<ImageRef>): (r: (seq<ImageRef>, bool))
    ensures r.1 <==> |refs| > MaxReferences
    ensures |r.0| == Min(|refs|, MaxReferences)
    ensures r.0 == refs[..|r.0|]
  {
    if |refs| > MaxReferences then (refs[..MaxReferences], true) else (refs, false)
  }

  /** The download loop of api/index.py: one Telegram file per stored id, for
      the first MaxReferences ids, in stored order. */
  method LoadReferences(ids: seq<string>) returns (loaded: seq<ImageRef>)
    ensures |loaded| == Min(|ids|, MaxReferences)
    ensures forall i :: 0 <= i < |loaded| ==> loaded[i] == TelegramFile(ids[i])
    ensures loaded == TelegramFiles(ids)[..|loaded|]
  {
    var head := ids[..Min(|ids|, MaxReferences)];
    loaded := [];
    for i := 0 to |head|
      invariant |loaded| == i
      invariant forall k :: 0 <= k < i ==> loaded[k] == TelegramFile(head[k])
    {
      loaded := loaded + [TelegramFile(head[i])];
    }
  }

  /** The rate-limit signature looked for in an error's text. */
  predicate IsQuotaError(message: string)
  {
    Contains(message, "429") || Contains(message, "RESOURCE_EXHAUSTED")
  }

  /** The image of the first part that yields one. */
  function FirstImage(parts: seq<Option<Image>>): Option<Image>
  {
    if parts == [] then None
    else if parts[0].Some? then parts[0]
    else FirstImage(parts[1..])
  }

  /** FirstImage returns the earliest image-bearing part, and nothing only
      when no part bears an image. */
  lemma {:induction false} FirstImageIsFirst(parts: seq<Option<Image>>)
    ensures FirstImage(parts).None? <==> forall i :: 0 <= i < |parts| ==> parts[i].None?
    ensures FirstImage(parts).Some? ==>
      exists k :: 0 <= k < |parts| && parts[k] == FirstImage(parts)
        && forall i :: 0 <= i < k ==> parts[i].None?
  {
    if parts != [] && parts[0].None? {
      FirstImageIsFirst(parts[1..]);
      if FirstImage(parts).Some? {
        var k :| 0 <= k < |parts[1..]| && parts[1..][k] == FirstImage(parts[1..])
          && forall i :: 0 <= i < k ==> parts[1..][i].None?;
        assert parts[k + 1] == FirstImage(parts);
        assert forall i :: 0 <= i < k + 1 ==> parts[i].None?;
      }
    } else if parts != [] {
      assert parts[0] == FirstImage(parts);
    }
  }

  /** The reply chosen once the generation call has returned or raised. */
  function ResponseOutcome(response: GenResponse): PhotoOutcome
  {
    match response
    case Raised(message) =>
      if IsQuotaError(message) then QuotaExceeded else GenerationFailed(message)
    case Answered(parts) =>
      match FirstImage(parts)
      case Some(image) => Generated(image)
      case None => EmptyResult
  }

  /** The scan over the response parts, stopping at the first that yields an
      image, followed by the choice of reply. */
  method InterpretResponse(response: GenResponse) returns (outcome: PhotoOutcome)
    ensures outcome == ResponseOutcome(response)
  {
    match response {
      case Raised(message) =>
        if IsQuotaError(message) {
          outcome := QuotaExceeded;
        } else {
          outcome := GenerationFailed(message);
        }
      case Answered(parts) =>
        var generated: Option<Image> := None;
        for i := 0 to |parts|
          invariant FirstImage(parts) == if generated.Some? then generated else FirstImage(parts[i..])
        {
          if parts[i].Some? {
            generated := parts[i];
            break;
          }
          assert parts[i..][1..] == parts[i + 1..];
        }
        if generated.Some? {
          outcome := Generated(generated.value);
        } else {
          outcome := EmptyResult;
        }
    }
  }

  /** Every way a generation call can end, and only those: an image from the
      earliest part that has one; the empty-result reply when no part has
      one; the quota reply exactly when the error text holds "429" or
      "RESOURCE_EXHAUSTED"; otherwise the generic reply with that text. */
  lemma ResponseOutcomeCases(response: GenResponse)
    ensures ResponseOutcome(response).Generated? <==>
      response.Answered? && exists i :: 0 <= i < |response.parts| && response.parts[i].Some?
    ensures ResponseOutcome(response).Generated? ==>
      exists k :: 0 <= k < |response.parts| && response.parts[k] == Some(ResponseOutcome(response).image)
        && forall i :: 0 <= i < k ==> response.parts[i].None?
    ensures ResponseOutcome(response) == EmptyResult <==>
      response.Answered? && forall i :: 0 <= i < |response.parts| ==> response.parts[i].None?
    ensures ResponseOutcome(response) == QuotaExceeded <==>
      response.Raised? && ((exists i :: OccursAt(response.message, "429", i))
                           || (exists i :: OccursAt(response.message, "RESOURCE_EXHAUSTED", i)))
    ensures ResponseOutcome(response).GenerationFailed? <==>
      response.Raised? && !IsQuotaError(response.message)
    ensures ResponseOutcome(response).GenerationFailed? ==>
      ResponseOutcome(response).message == response.message
  {
    match response
    case Answered(parts) =>
      FirstImageIsFirst(parts);
    case Raised(message) =>
      ContainsIff(message, "429");
      ContainsIff(message, "RESOURCE_EXHAUSTED");
  }

  /** A 429 status in the error text gives the quota reply; an unrelated
      error gives the generic reply; a call whose parts hold no image gives the
      empty-result reply. */
  lemma ErrorExamples()
    ensures ResponseOutcome(Raised("429 Too Many Requests")) == QuotaExceeded
    ensures ResponseOutcome(Raised("timeout")) == GenerationFailed("timeout")
    ensures ResponseOutcome(Answered([None, None])) == EmptyResult
  {
    assert OccursAt("429 Too Many Requests", "429", 0);
    ContainsIff("429 Too Many Requests", "429");
    assert !Contains("timeout", "429") by {
      AbsentByFirstChar("timeout", "429");
    }
    assert !Contains("timeout", "RESOURCE_EXHAUSTED");
  }
}
