/** The Lottie JSON document that the fallback tier writes (gzip-compressed)
    as a TGS sticker, and the target parameters both tiers give the animation. */
module Lottie {
  import opened Wrappers

  /** A JSON value as `json.dumps` receives it from a Python literal. Floats
      are kept as their literal text: the model does no arithmetic on them. */
  datatype Json =
    | JInt(n: int)
    | JFloat(literal: string)
    | JStr(s: string)
    | JArr(items: seq<Json>)
    | JObj(members: seq<Member>)

  datatype Member = Member(key: string, value: Json)

  /** The value stored under `key` in an object: the first member with
      that key, if any. */
  function Get(j: Json, key: string): Option<Json> {
    if j.JObj? then LookupFrom(j.members, key, 0) else None
  }

  function LookupFrom(ms: seq<Member>, key: string, i: nat): Option<Json>
    decreases |ms| - i
  {
    if i >= |ms| then None
    else if ms[i].key == key then Some(ms[i].value)
    else LookupFrom(ms, key, i + 1)
  }

  /** Every object in the value has pairwise distinct keys, as every Python
      dict literal dumped by `json.dumps` does. */
  predicate WellFormed(j: Json) {
    match j
    case JInt(_) => true
    case JFloat(_) => true
    case JStr(_) => true
    case JArr(items) => forall i | 0 <= i < |items| :: WellFormed(items[i])
    case JObj(ms) =>
      && (forall i, k | 0 <= i < k < |ms| :: ms[i].key != ms[k].key)
      && (forall i | 0 <= i < |ms| :: WellFormed(ms[i].value))
  }

  /** `{"a": 0, "k": k}`: a property that is not animated. */
  function Static(k: Json): Json {
    JObj([Member("a", JInt(0)), Member("k", k)])
  }

  function Ints(xs: seq<int>): Json {
    JArr(seq(|xs|, i requires 0 <= i < |xs| => JInt(xs[i])))
  }

  /** The target animation parameters: 30 frames per second, frames 0 to 30
      (one second), 512 by 512 pixels. The primary tier sets these on the
      imported animation; the fallback document carries them literally. */
  const FrameRate := 30
  const InPoint := 0
  const OutPoint := 30
  const Width := 512
  const Height := 512

  /** The document `_create_fallback_tgs` dumps: one shape layer holding a
      400 by 400 rounded rectangle (corner radius 10) and a fill. Nothing in it
      comes from the SVG. */
  function FallbackDocument(): Json {
    JObj([
      Member("v", JStr("5.5.2")),
      Member("fr", JInt(FrameRate)),
      Member("ip", JInt(InPoint)),
      Member("op", JInt(OutPoint)),
      Member("w", JInt(Width)),
      Member("h", JInt(Height)),
      Member("nm", JStr("SVG Animation")),
      Member("ddd", JInt(0)),
      Member("assets", JArr([])),
      Member("layers", JArr([FallbackLayer()]))
    ])
  }

  function FallbackLayer(): Json {
    JObj([
      Member("ddd", JInt(0)),
      Member("ind", JInt(1)),
      Member("ty", JInt(4)),
      Member("nm", JStr("SVG Layer")),
      Member("sr", JInt(1)),
      Member("ks", FallbackTransform()),
      Member("ao", JInt(0)),
      Member("shapes", JArr([RectangleShape(), FillShape()])),
      Member("ip", JInt(InPoint)),
      Member("op", JInt(OutPoint)),
      Member("st", JInt(0)),
      Member("bm", JInt(0))
    ])
  }

  /** Full opacity, no rotation, centred at (256, 256), 100% scale. */
  function FallbackTransform(): Json {
    JObj([
      Member("o", Static(JInt(100))),
      Member("r", Static(JInt(0))),
      Member("p", Static(Ints([256, 256, 0]))),
      Member("a", Static(Ints([0, 0, 0]))),
      Member("s", Static(Ints([100, 100, 100])))
    ])
  }

  function RectangleShape(): Json {
    JObj([
      Member("ty", JStr("rc")),
      Member("d", JInt(1)),
      Member("s", Static(Ints([400, 400]))),
      Member("p", Static(Ints([0, 0]))),
      Member("r", Static(JInt(10)))
    ])
  }

  /** The fill colour is the RGBA float literal [0.2, 0.7, 1, 1]. */
  function FillShape(): Json {
    JObj([
      Member("ty", JStr("fl")),
      Member("c", Static(JArr([JFloat("0.2"), JFloat("0.7"), JInt(1), JInt(1)]))),
      Member("o", Static(JInt(100)))
    ])
  }

  /** The structural contract of a Telegram animated sticker document: the
      version string, frame rate, frame bounds and a 512 by 512 canvas, and a
      non-empty list of layers. */
  predicate IsStickerDocument(j: Json) {
    && WellFormed(j)
    && Get(j, "v").Some? && Get(j, "v").value.JStr?
    && Get(j, "fr") == Some(JInt(FrameRate))
    && Get(j, "ip") == Some(JInt(InPoint))
    && Get(j, "op") == Some(JInt(OutPoint))
    && Get(j, "w") == Some(JInt(Width))
    && Get(j, "h") == Some(JInt(Height))
    && Get(j, "layers").Some? && Get(j, "layers").value.JArr?
    && |Get(j, "layers").value.items| > 0
  }

  /** The `ty` of each entry of a `shapes` array. */
  function ShapeKinds(shapes: seq<Json>): seq<Option<Json>> {
    seq(|shapes|, i requires 0 <= i < |shapes| => Get(shapes[i], "ty"))
  }

  /** The fallback document has the target frame rate, frame bounds and
      canvas, version "5.5.2", and exactly one layer. */
  lemma FallbackDocumentHeader()
    ensures Get(FallbackDocument(), "v") == Some(JStr("5.5.2"))
    ensures Get(FallbackDocument(), "fr") == Some(JInt(FrameRate))
    ensures Get(FallbackDocument(), "ip") == Some(JInt(InPoint))
    ensures Get(FallbackDocument(), "op") == Some(JInt(OutPoint))
    ensures Get(FallbackDocument(), "w") == Some(JInt(Width))
    ensures Get(FallbackDocument(), "h") == Some(JInt(Height))
    ensures Get(FallbackDocument(), "layers") == Some(JArr([FallbackLayer()]))
  {
  }

  /** That one layer is a shape layer (type 4) spanning frames 0 to 30 that
      draws one rectangle ("rc") and one fill ("fl"). */
  lemma FallbackLayerShape()
    ensures Get(FallbackLayer(), "ty") == Some(JInt(4))
    ensures Get(FallbackLayer(), "ip") == Some(JInt(InPoint))
    ensures Get(FallbackLayer(), "op") == Some(JInt(OutPoint))
    ensures Get(FallbackLayer(), "shapes").Some? && Get(FallbackLayer(), "shapes").value.JArr?
    ensures ShapeKinds(Get(FallbackLayer(), "shapes").value.items) == [Some(JStr("rc")), Some(JStr("fl"))]
  {
  }

  lemma StaticWellFormed(k: Json)
    requires WellFormed(k)
    ensures WellFormed(Static(k))
  {
    var ms := Static(k).members;
    assert ms[0].key != ms[1].key;
  }

  lemma IntsWellFormed(xs: seq<int>)
    ensures WellFormed(Ints(xs))
  {
  }

  lemma TransformWellFormed()
    ensures WellFormed(FallbackTransform())
  {
    StaticWellFormed(JInt(100));
    StaticWellFormed(JInt(0));
    IntsWellFormed([256, 256, 0]);
    StaticWellFormed(Ints([256, 256, 0]));
    IntsWellFormed([0, 0, 0]);
    StaticWellFormed(Ints([0, 0, 0]));
    IntsWellFormed([100, 100, 100]);
    StaticWellFormed(Ints([100, 100, 100]));
  }

  lemma RectangleWellFormed()
    ensures WellFormed(RectangleShape())
  {
    IntsWellFormed([400, 400]);
    StaticWellFormed(Ints([400, 400]));
    IntsWellFormed([0, 0]);
    StaticWellFormed(Ints([0, 0]));
    StaticWellFormed(JInt(10));
  }

  lemma FillWellFormed()
    ensures WellFormed(FillShape())
  {
    StaticWellFormed(JInt(100));
    StaticWellFormed(JArr([JFloat("0.2"), JFloat("0.7"), JInt(1), JInt(1)]));
  }

  /** The twelve keys of the layer object are pairwise distinct. */
  lemma LayerKeysDistinct()
    ensures forall i, k | 0 <= i < k < |FallbackLayer().members| ::
      FallbackLayer().members[i].key != FallbackLayer().members[k].key
  {
  }

  lemma LayerWellFormed()
    ensures WellFormed(FallbackLayer())
  {
    TransformWellFormed();
    RectangleWellFormed();
    FillWellFormed();
    LayerKeysDistinct();
    var ms := FallbackLayer().members;
    assert WellFormed(JArr([RectangleShape(), FillShape()]));
    assert forall i | 0 <= i < |ms| :: WellFormed(ms[i].value);
  }

  /** No object in the fallback document repeats a key. */
  lemma FallbackWellFormed()
    ensures WellFormed(FallbackDocument())
  {
    LayerWellFormed();
  }

  /** Hence the fallback output is a valid sticker document. */
  lemma FallbackIsSticker()
    ensures IsStickerDocument(FallbackDocument())
  {
    FallbackDocumentHeader();
    FallbackWellFormed();
  }
}
