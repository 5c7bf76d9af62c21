/** The free-form editing panel: a base image, a list of reference images to
    blend in, and the user's instructions, assembled on submit into the
    prompt sent with the images. */
module GeneralPanel {
  import opened Common

  // ---------------------------------------------------------------------
  // The reference list
  // ---------------------------------------------------------------------

  /** `[...prev, img]`: the new reference goes last. */
  function AddReference(refs: seq<UploadedImage>, img: UploadedImage): (r: seq<UploadedImage>)
    ensures |r| == |refs| + 1 && r[..|refs|] == refs && r[|refs|] == img
  {
    refs + [img]
  }

  /** `prev.filter(p => p.id !== id)`. */
  function RemoveReference(refs: seq<UploadedImage>, id: string): (r: seq<UploadedImage>)
    ensures |r| <= |refs|
    ensures forall x :: x in r <==> x in refs && x.id != id
  {
    if refs == [] then []
    else if refs[0].id == id then RemoveReference(refs[1..], id)
    else [refs[0]] + RemoveReference(refs[1..], id)
  }

  /** The ids present in a reference list. */
  ghost predicate HasId(refs: seq<UploadedImage>, id: string)
  {
    exists x :: x in refs && x.id == id
  }

  /** Removal keeps the survivors in their order: it works piecewise on a
      split list. */
  lemma {:induction false} RemoveSplits(a: seq<UploadedImage>, b: seq<UploadedImage>, id: string)
    ensures RemoveReference(a + b, id) == RemoveReference(a, id) + RemoveReference(b, id)
  {
    if a == [] {
      assert a + b == b;
    } else {
      assert (a + b)[0] == a[0] && (a + b)[1..] == a[1..] + b;
      RemoveSplits(a[1..], b, id);
    }
  }

  /** Removing an id that is not in the list changes nothing. */
  lemma {:induction false} RemoveAbsent(refs: seq<UploadedImage>, id: string)
    requires !HasId(refs, id)
    ensures RemoveReference(refs, id) == refs
  {
    if refs != [] {
      assert refs[0] in refs;
      assert !HasId(refs[1..], id) by {
        forall x | x in refs[1..] ensures x.id != id { assert x in refs; }
      }
      RemoveAbsent(refs[1..], id);
      assert refs == [refs[0]] + refs[1..];
    }
  }

  /** Removing twice is removing once. */
  lemma RemoveIdempotent(refs: seq<UploadedImage>, id: string)
    ensures RemoveReference(RemoveReference(refs, id), id) == RemoveReference(refs, id)
  {
  }

  /** Removing the id of a just-added reference with a fresh id undoes the
      addition; removing it from a list that already had it removes both. */
  lemma AddThenRemove(refs: seq<UploadedImage>, img: UploadedImage)
    ensures RemoveReference(AddReference(refs, img), img.id) == RemoveReference(refs, img.id)
    ensures !HasId(refs, img.id) ==> RemoveReference(AddReference(refs, img), img.id) == refs
  {
    RemoveSplits(refs, [img], img.id);
    assert RemoveReference([img], img.id) == [];
    if !HasId(refs, img.id) {
      RemoveAbsent(refs, img.id);
    }
  }

  // ---------------------------------------------------------------------
  // Decimal rendering of the reference count
  // ---------------------------------------------------------------------

  function DigitChar(d: nat): char
    requires d < 10
  {
    "0123456789"[d]
  }

  predicate IsDigit(c: char)
  {
    '0' <= c <= '9'
  }

  /** `${n}` for a non-negative integer: its decimal digits, no leading zero. */
  function NatToDecimal(n: nat): (s: string)
    ensures |s| > 0 && (forall i :: 0 <= i < |s| ==> IsDigit(s[i]))
    ensures |s| > 1 ==> s[0] != '0'
    decreases n
  {
    if n < 10 then [DigitChar(n)]
    else NatToDecimal(n / 10) + [DigitChar(n % 10)]
  }

  /** Reads a string of decimal digits back as a number. */
  function DecimalToNat(s: string): nat
    requires forall i :: 0 <= i < |s| ==> IsDigit(s[i])
  {
    if s == [] then 0
    else
      assert IsDigit(s[|s| - 1]);
      DecimalToNat(s[..|s| - 1]) * 10 + (s[|s| - 1] as int - '0' as int)
  }

  /** The count written into the prompt reads back as the count. */
  lemma {:induction false} DecimalRoundTrip(n: nat)
    ensures DecimalToNat(NatToDecimal(n)) == n
    decreases n
  {
    var s := NatToDecimal(n);
    if n >= 10 {
      DecimalRoundTrip(n / 10);
      assert s[..|s| - 1] == NatToDecimal(n / 10);
    }
  }

  // ---------------------------------------------------------------------
  // The prompt
  // ---------------------------------------------------------------------

  const Preamble: string :=
    "You are an advanced AI image editor.\n    TASK: Edit the provided Base Image according to the instructions.\n    \n    INSTRUCTIONS: "
  const AssetsHead: string :=
    "\n      \n      ADDITIONAL ASSETS:\n      I have provided "
  const AssetsTail: string :=
    " additional image(s) to be used as assets or references.\n      Please incorporate these specific visual elements into the scene as described in the instructions.\n      Match lighting, perspective, and style to make the integration seamless."
  const Closing: string := "\n\nMake the edits seamless and photorealistic."

  /** The ADDITIONAL ASSETS paragraph for `n` references: it states exactly
      that number. */
  function AssetsSection(n: nat): (section: string)
    ensures StatedCount(section) == Some(n)
  {
    var d := NatToDecimal(n);
    var s := AssetsHead + d + AssetsTail;
    assert s[..|AssetsHead|] == AssetsHead;
    assert s[|s| - |AssetsTail|..] == AssetsTail;
    assert s[|AssetsHead|..|s| - |AssetsTail|] == d;
    DecimalRoundTrip(n);
    s
  }

  /** The count an ADDITIONAL ASSETS paragraph states, read back from it. */
  function StatedCount(section: string): (r: Option<nat>)
  {
    if |AssetsHead| + |AssetsTail| < |section|
       && section[..|AssetsHead|] == AssetsHead
       && section[|section| - |AssetsTail|..] == AssetsTail
       && forall i :: |AssetsHead| <= i < |section| - |AssetsTail| ==> IsDigit(section[i])
    then Some(DecimalToNat(section[|AssetsHead|..|section| - |AssetsTail|]))
    else None
  }

  /** What a submission hands on: the prompt, the base image, the references. */
  datatype Submission = Submission(prompt: string, baseImage: UploadedImage, refs: seq<UploadedImage>)

  /** The part of a final prompt between the user's instructions and the
      closing sentence. */
  function MiddleOf(finalPrompt: string, userPrompt: string): string
    requires |Preamble| + |userPrompt| + |Closing| <= |finalPrompt|
  {
    finalPrompt[|Preamble| + |userPrompt|..|finalPrompt| - |Closing|]
  }

  // ---------------------------------------------------------------------
  // The panel's state and handlers
  // ---------------------------------------------------------------------

  class Panel {
    var baseImage: Option<UploadedImage>
    var referenceImages: seq<UploadedImage>
    var prompt: string

    constructor ()
      ensures baseImage == None && referenceImages == [] && prompt == ""
    {
      baseImage := None;
      referenceImages := [];
      prompt := "";
    }

    method HandleAddReference(img: UploadedImage)
      modifies this
      ensures referenceImages == AddReference(old(referenceImages), img)
      ensures baseImage == old(baseImage) && prompt == old(prompt)
    {
      referenceImages := AddReference(referenceImages, img);
    }

    method HandleRemoveReference(id: string)
      modifies this
      ensures referenceImages == RemoveReference(old(referenceImages), id)
      ensures baseImage == old(baseImage) && prompt == old(prompt)
    {
      referenceImages := RemoveReference(referenceImages, id);
    }

    /** The cumulative-edit effect: a new active input becomes the base
        image; an absent one leaves the base image as it was. */
    method ActiveInputChanged(activeInput: Option<UploadedImage>)
      modifies this
      ensures baseImage == (if activeInput.Some? then activeInput else old(baseImage))
      ensures referenceImages == old(referenceImages) && prompt == old(prompt)
    {
      if activeInput.Some? {
        baseImage := activeInput;
      }
    }

    /** Submitting does nothing without a base image. Otherwise the prompt is
        the preamble and the user's instructions, then the ADDITIONAL ASSETS
        paragraph exactly when there are references, then the closing
        sentence; the images go along unchanged. */
    method HandleSubmit() returns (sub: Option<Submission>)
      ensures sub.None? <==> baseImage.None?
      ensures sub.Some? ==> sub.value.baseImage == baseImage.value && sub.value.refs == referenceImages
      ensures sub.Some? ==>
        var p := sub.value.prompt;
        && |Preamble| + |prompt| + |Closing| <= |p|
        && p[..|Preamble| + |prompt|] == Preamble + prompt
        && p[|p| - |Closing|..] == Closing
        && (MiddleOf(p, prompt) == "" <==> referenceImages == [])
        && (referenceImages != [] ==> StatedCount(MiddleOf(p, prompt)) == Some(|referenceImages|))
    {
      if baseImage.None? {
        return None;
      }
      var finalPrompt := Preamble + prompt;
      if |referenceImages| > 0 {
        finalPrompt := finalPrompt + AssetsSection(|referenceImages|);
      }
      ghost var middle := finalPrompt[|Preamble| + |prompt|..];
      finalPrompt := finalPrompt + Closing;
      assert finalPrompt[..|Preamble| + |prompt|] == Preamble + prompt;
      assert finalPrompt[|finalPrompt| - |Closing|..] == Closing;
      assert MiddleOf(finalPrompt, prompt) == middle;
      sub := Some(Submission(finalPrompt, baseImage.value, referenceImages));
    }

    /** The submit button is enabled only with a base image and non-empty
        instructions while no generation is running. */
    function SubmitEnabled(isGenerating: bool): (enabled: bool)
      reads this
      ensures enabled ==> baseImage.Some?
      ensures enabled <==> baseImage.Some? && prompt != "" && !isGenerating
    {
      baseImage.Some? && prompt != "" && !isGenerating
    }
  }
}
