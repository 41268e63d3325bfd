/**
 * The composition's props schema (`CompositionProps`), its default props and
 * the composition's dimension, frame-rate and duration constants.
 */
module Constants {
  import opened Js

  const CompName := "MyComp"
  const DurationInFrames: nat := 200
  const VideoWidth: nat := 1280
  const VideoHeight: nat := 720
  const VideoFps: nat := 30

  datatype Kind = StringKind | NumberKind

  /** A schema entry: the kind a value must have, and whether `undefined` is accepted. */
  datatype Field = Field(kind: Kind, optional: bool)

  /** The keys `CompositionProps` declares. */
  datatype PropKey = Title | VideoSrc | Rotation | Scale | Width | Height | Duration | Fps | S3Bucket | S3Key {

    /** The property name in the props object. */
    function Name(): string {
      match this
      case Title => "title"
      case VideoSrc => "videoSrc"
      case Rotation => "rotation"
      case Scale => "scale"
      case Width => "width"
      case Height => "height"
      case Duration => "durationInFrames"
      case Fps => "fps"
      case S3Bucket => "s3Bucket"
      case S3Key => "s3Key"
    }

    /** `CompositionProps`: the schema entry of each key. */
    function Spec(): Field {
      match this
      case Title => Field(StringKind, false)
      case VideoSrc => Field(StringKind, true)
      case Rotation => Field(NumberKind, true)
      case Scale => Field(NumberKind, true)
      case Width => Field(NumberKind, true)
      case Height => Field(NumberKind, true)
      case Duration => Field(NumberKind, true)
      case Fps => Field(NumberKind, true)
      case S3Bucket => Field(StringKind, true)
      case S3Key => Field(StringKind, true)
    }
  }

  predicate HasKind(v: Value, k: Kind) {
    match k
    case StringKind => v.Str?
    case NumberKind => v.Number?
  }

  /** `z.string()` / `z.number()`, with `.optional()` also admitting `undefined`. */
  predicate Conforms(v: Value, f: Field) {
    (f.optional && v == Undefined) || HasKind(v, f.kind)
  }

  /**
   * A record passes `CompositionProps` when each declared key holds a value of
   * its kind. Keys the schema does not declare are not constrained here.
   */
  predicate IsCompositionProps(r: Record) {
    forall key: PropKey :: Conforms(Get(r, key.Name()), key.Spec())
  }

  /** `defaultMyCompProps`; `videoSrc` is written out with the value `undefined`. */
  const DefaultProps: Record := map[
    "title" := Str("Welcome to Remotion with Next.js!"),
    "videoSrc" := Undefined,
    "rotation" := Number(5.0),
    "scale" := Number(0.95)
  ]

  /** Optional keys of a given kind: absent/undefined, or a value of that kind. */
  predicate OptionalString(r: Record, key: string) {
    Get(r, key) == Undefined || Get(r, key).Str?
  }

  predicate OptionalNumber(r: Record, key: string) {
    Get(r, key) == Undefined || Get(r, key).Number?
  }

  /** The schema spelled out key by key: `title` is a required string, every other key is optional with its declared kind. */
  lemma SchemaCharacterized(r: Record)
    ensures IsCompositionProps(r) <==>
      && Get(r, "title").Str?
      && OptionalString(r, "videoSrc")
      && OptionalNumber(r, "rotation")
      && OptionalNumber(r, "scale")
      && OptionalNumber(r, "width")
      && OptionalNumber(r, "height")
      && OptionalNumber(r, "durationInFrames")
      && OptionalNumber(r, "fps")
      && OptionalString(r, "s3Bucket")
      && OptionalString(r, "s3Key")
  {
    assert Title.Name() == "title" && VideoSrc.Name() == "videoSrc";
    assert Rotation.Name() == "rotation" && Scale.Name() == "scale";
    assert Width.Name() == "width" && Height.Name() == "height";
    assert Duration.Name() == "durationInFrames" && Fps.Name() == "fps";
    assert S3Bucket.Name() == "s3Bucket" && S3Key.Name() == "s3Key";
  }

  /** A record without a string `title` never validates, whatever its other keys hold. */
  lemma TitleRequired(r: Record)
    requires !Get(r, "title").Str?
    ensures !IsCompositionProps(r)
  {
    assert Title.Name() == "title";
  }

  /** The defaults satisfy the schema and leave every optional override and the storage fields undefined. */
  lemma DefaultPropsValid()
    ensures IsCompositionProps(DefaultProps)
    ensures Get(DefaultProps, "title") == Str("Welcome to Remotion with Next.js!")
    ensures Get(DefaultProps, "rotation") == Number(5.0) && Get(DefaultProps, "scale") == Number(0.95)
    ensures forall key :: key in {"videoSrc", "width", "height", "durationInFrames", "fps", "s3Bucket", "s3Key"} ==>
      !Defined(DefaultProps, key)
  {
    SchemaCharacterized(DefaultProps);
  }
}
