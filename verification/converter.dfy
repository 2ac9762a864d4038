/** `SVGToTGSConverter`: validation of a downloaded SVG and the two-tier
    conversion (the lottie library, else a fixed fallback document). The file
    system and the lottie library are outside the model: what they did is
    given to each function as an outcome. */
module Converter {
  import opened Wrappers
  import opened Text
  import Lottie

  /** `MAX_FILE_SIZE`: 5 MiB. */
  const MaxFileSize := 5 * 1024 * 1024

  /** The downloaded SVG as the validator finds it. */
  datatype StoredFile =
    | Unstatable                                 // `os.path.getsize` raised
    | OnDisk(size: nat, text: Option<string>)   // `text` is None when opening or decoding it as UTF-8 raised

  datatype ValidationError =
    | TooLarge(size: nat)     // "File too large: ..."
    | Unreadable              // "Invalid SVG file: ..."
    | MissingSvgTag           // "Invalid SVG format - missing <svg> tag"
    | ValidationFailed        // "Validation error: ..."

  datatype Validation = Valid | Invalid(error: ValidationError)

  /** `validate_svg_file`: the size is checked first; then the text, lowered
      and stripped, must contain "<svg". */
  function ValidateSvgFile(f: StoredFile): (r: Validation)
    ensures r.Valid? <==>
      f.OnDisk? && f.size <= MaxFileSize && f.text.Some? && Contains(Lower(f.text.value), "<svg")
    ensures f.OnDisk? && f.size > MaxFileSize ==> r == Invalid(TooLarge(f.size))
    ensures f.OnDisk? && f.size <= MaxFileSize && f.text.None? ==> r == Invalid(Unreadable)
    ensures f.Unstatable? ==> r == Invalid(ValidationFailed)
    ensures f.OnDisk? && f.size <= MaxFileSize && f.text.Some? && !Contains(Lower(f.text.value), "<svg") ==>
      r == Invalid(MissingSvgTag)
  {
    match f
    case Unstatable => Invalid(ValidationFailed)
    case OnDisk(size, text) =>
      if size > MaxFileSize then Invalid(TooLarge(size))
      else if text.None? then Invalid(Unreadable)
      else
        StripKeepsOccurrences(Lower(text.value), "<svg");
        if !Contains(Strip(Lower(text.value)), "<svg") then Invalid(MissingSvgTag) else Valid
  }

  /** What the validator accepts, stated without the stripping it does: a
      file on disk within the size limit whose text, lowered, contains "<svg". */
  predicate AcceptableSvg(f: StoredFile) {
    f.OnDisk? && f.size <= MaxFileSize && f.text.Some? && Contains(Lower(f.text.value), "<svg")
  }

  /** What `os.path.exists` and `os.path.getsize` report for the output path. */
  datatype Output = Output(present: bool, size: nat)

  predicate Produced(o: Output) {
    o.present && o.size > 0
  }

  /** What the lottie tier did: the library could not be imported, it raised
      (in `import_svg`, `export_tgs` or the write), or it finished and left
      `out` behind. */
  datatype PrimaryOutcome =
    | LottieUnavailable
    | LottieRaised
    | LottieExported(out: Output)

  /** What writing the fallback file did. */
  datatype FallbackWrite =
    | WriteRaised
    | Written(out: Output)

  datatype Tier = Primary | Fallback

  datatype ConversionError =
    | FallbackRaised      // "Fallback conversion error: ..."
    | FallbackNoOutput    // "Failed to create fallback TGS file"

  datatype Conversion = Converted(tier: Tier) | Failed(error: ConversionError)

  /** The outcome of `_create_fallback_tgs` and the document it dumped, when
      it got as far as writing. */
  datatype FallbackResult = FallbackResult(outcome: Conversion, written: Option<Lottie.Json>)

  /** `_create_fallback_tgs`: the SVG is read (`svgText` is None when that
      raised) but its content is not used; the fixed document is written and
      the file must then exist and be non-empty. */
  function CreateFallbackTgs(svgText: Option<string>, write: FallbackWrite): (r: FallbackResult)
    ensures r.outcome.Converted? <==> svgText.Some? && write.Written? && Produced(write.out)
    ensures r.outcome.Converted? ==> r.outcome.tier == Fallback
    ensures r.written.Some? <==> svgText.Some? && write.Written?
    ensures r.written.Some? ==> r.written.value == Lottie.FallbackDocument()
    ensures r.written.Some? ==> Lottie.IsStickerDocument(r.written.value)
  {
    if svgText.None? then FallbackResult(Failed(FallbackRaised), None)
    else match write
      case WriteRaised => FallbackResult(Failed(FallbackRaised), None)
      case Written(out) =>
        Lottie.FallbackIsSticker();
        FallbackResult(if Produced(out) then Converted(Fallback) else Failed(FallbackNoOutput),
                       Some(Lottie.FallbackDocument()))
  }

  /** The primary tier succeeds only when lottie ran without raising and left
      a non-empty output file. */
  predicate PrimarySucceeded(p: PrimaryOutcome) {
    p.LottieExported? && Produced(p.out)
  }

  /** `convert_svg_to_tgs`: lottie first; if it is unavailable, raises, or
      leaves the output missing or empty, the fallback decides. */
  function ConvertSvgToTgs(primary: PrimaryOutcome, svgText: Option<string>, write: FallbackWrite): (r: Conversion)
    ensures r == Converted(Primary) <==> PrimarySucceeded(primary)
    ensures !PrimarySucceeded(primary) ==> r == CreateFallbackTgs(svgText, write).outcome
    ensures r.Converted? <==>
      PrimarySucceeded(primary) || (svgText.Some? && write.Written? && Produced(write.out))
  {
    match primary
    case LottieUnavailable => CreateFallbackTgs(svgText, write).outcome
    case LottieRaised => CreateFallbackTgs(svgText, write).outcome
    case LottieExported(out) =>
      if !Produced(out) then CreateFallbackTgs(svgText, write).outcome else Converted(Primary)
  }

  /** The fallback output does not depend on what the SVG says: any two
      readable inputs give the same outcome and the same document. */
  lemma FallbackIgnoresContent(a: string, b: string, write: FallbackWrite)
    ensures CreateFallbackTgs(Some(a), write) == CreateFallbackTgs(Some(b), write)
  {
  }

  /** Once an SVG has passed validation its text was readable, so the
      fallback cannot fail on reading it: conversion then fails only when
      lottie failed and the fallback file could not be written or came out
      empty. */
  lemma ValidatedFileConverts(f: StoredFile, primary: PrimaryOutcome, write: FallbackWrite)
    requires ValidateSvgFile(f).Valid?
    ensures f.OnDisk? && f.text.Some?
    ensures ConvertSvgToTgs(primary, f.text, write).Failed? <==>
      !PrimarySucceeded(primary) && !(write.Written? && Produced(write.out))
  {
  }
}
