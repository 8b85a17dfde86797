/** The image load specification (dimensions, format, pixel layout) and its
    builder: setters that mutate the builder's fields, and build(), which
    validates the dimensions and applies the display-density cap. */
module ImageLoadSpecs {
  import opened Wrappers

  /** ImageLoadSpec.Format. The builder stores a nullable reference; None is
      the null format, which no enhancer branch matches. */
  datatype Format = JPEG | PNG | WEBP

  /** android.graphics.Bitmap.Config: the pixel layout is passed through untouched. */
  datatype PixelConfig = ALPHA_8 | RGB_565 | ARGB_4444 | ARGB_8888

  /** The immutable value build() produces. */
  datatype ImageLoadSpec = ImageLoadSpec(width: int, height: int, format: Option<Format>, pixelConfig: PixelConfig)

  /** The IllegalArgumentExceptions the builder throws. */
  datatype SpecError = DimensionsUnset | DimensionsMixed | MaxDensityTooLow

  const DefaultWidth: int := -1
  const DefaultHeight: int := -1
  const DefaultMaxDensity: real := 1.5
  const MinMaxDensity: real := 0.5

  /** The dimension shapes a spec may have: unbound (0 x 0) or both positive. */
  predicate WellShaped(width: int, height: int) {
    (width == 0 && height == 0) || (width > 0 && height > 0)
  }

  /** The factor the requested dimensions are multiplied by: the cap over the
      display density when the display is denser than the cap, else 1. */
  function DensityAdjustment(maxDensity: real, density: real): (adj: real)
    requires maxDensity > MinMaxDensity
    ensures 0.0 < adj <= 1.0
    ensures adj < 1.0 <==> density > maxDensity
  {
    if density > maxDensity then maxDensity / density else 1.0
  }

  /** The (int) cast of a non-negative float product, idealised over the reals. */
  function Scale(dim: int, adj: real): int {
    (dim as real * adj).Floor
  }

  lemma ScaleBounds(dim: int, adj: real)
    requires dim >= 0 && 0.0 < adj <= 1.0
    ensures 0 <= Scale(dim, adj) <= dim
  {
    var x := dim as real * adj;
    assert 0.0 <= x by {
      assert 0.0 <= dim as real;
    }
    assert x <= dim as real by {
      assert dim as real * adj <= dim as real * 1.0;
    }
  }

  /** build() as the source computes it: reject unset or mixed dimensions,
      otherwise multiply both by the density adjustment and cast down. It
      succeeds exactly on the two valid shapes; the spec it builds never
      exceeds the request and keeps the format and pixel layout. */
  function BuildSpecAsWritten(width: int, height: int, maxDensity: real, format: Option<Format>,
                              pixelConfig: PixelConfig, density: real): (r: Result<ImageLoadSpec, SpecError>)
    requires maxDensity > MinMaxDensity
    ensures r.Success? <==> WellShaped(width, height)
    ensures (width < 0 || height < 0) <==> r == Failure(DimensionsUnset)
    ensures width >= 0 && height >= 0 && !WellShaped(width, height) <==> r == Failure(DimensionsMixed)
    ensures r.Success? ==> && 0 <= r.value.width <= width && 0 <= r.value.height <= height
                           && r.value.format == format && r.value.pixelConfig == pixelConfig
  {
    if width < 0 || height < 0 then Failure(DimensionsUnset)
    else if (width == 0 && height > 0) || (height == 0 && width > 0) then Failure(DimensionsMixed)
    else
      var adj := DensityAdjustment(maxDensity, density);
      ScaleBounds(width, adj);
      ScaleBounds(height, adj);
      Success(ImageLoadSpec(Scale(width, adj), Scale(height, adj), format, pixelConfig))
  }

  /** Scaling as evidently intended: a positive dimension never scales down to 0. */
  function ScaleBounded(dim: int, adj: real): int {
    var s := Scale(dim, adj);
    if dim > 0 && s < 1 then 1 else s
  }

  /** build() as evidently intended: the same checks and scaling, with a
      floor of one pixel for a positive dimension. */
  function BuildSpec(width: int, height: int, maxDensity: real, format: Option<Format>,
                     pixelConfig: PixelConfig, density: real): (r: Result<ImageLoadSpec, SpecError>)
    requires maxDensity > MinMaxDensity
  {
    if width < 0 || height < 0 then Failure(DimensionsUnset)
    else if (width == 0 && height > 0) || (height == 0 && width > 0) then Failure(DimensionsMixed)
    else
      var adj := DensityAdjustment(maxDensity, density);
      Success(ImageLoadSpec(ScaleBounded(width, adj), ScaleBounded(height, adj), format, pixelConfig))
  }

  /** build() succeeds exactly on the unbound and the both-positive shapes,
      and says which check failed otherwise. */
  lemma BuildAcceptsExactlyWellShaped(width: int, height: int, maxDensity: real, format: Option<Format>,
                                      pixelConfig: PixelConfig, density: real)
    requires maxDensity > MinMaxDensity
    ensures BuildSpecAsWritten(width, height, maxDensity, format, pixelConfig, density).Success?
            <==> WellShaped(width, height)
    ensures width < 0 || height < 0 ==>
              BuildSpecAsWritten(width, height, maxDensity, format, pixelConfig, density) == Failure(DimensionsUnset)
    ensures width >= 0 && height >= 0 && !WellShaped(width, height) ==>
              BuildSpecAsWritten(width, height, maxDensity, format, pixelConfig, density) == Failure(DimensionsMixed)
  {
  }

  /** A display no denser than the cap leaves the requested dimensions as they are. */
  lemma BuildKeepsDimensionsUpToCap(width: int, height: int, maxDensity: real, format: Option<Format>,
                                    pixelConfig: PixelConfig, density: real)
    requires maxDensity > MinMaxDensity && density <= maxDensity
    requires WellShaped(width, height)
    ensures BuildSpecAsWritten(width, height, maxDensity, format, pixelConfig, density)
         == Success(ImageLoadSpec(width, height, format, pixelConfig))
  {
  }

  /** Above the cap the source's build gives each dimension exactly
      floor(dim * cap / density), 0 included, never more than requested. */
  lemma BuildScalesAboveCap(width: int, height: int, maxDensity: real, format: Option<Format>,
                            pixelConfig: PixelConfig, density: real)
    requires maxDensity > MinMaxDensity && density > maxDensity
    requires WellShaped(width, height)
    ensures var r := BuildSpecAsWritten(width, height, maxDensity, format, pixelConfig, density);
            && r.Success?
            && r.value.format == format && r.value.pixelConfig == pixelConfig
            && r.value.width == (width as real * (maxDensity / density)).Floor
            && r.value.height == (height as real * (maxDensity / density)).Floor
            && 0 <= r.value.width <= width && 0 <= r.value.height <= height
  {
  }

  /** Above the cap the corrected build takes the same floor, raised to one
      pixel where the source's would reach 0 from a positive dimension. */
  lemma CorrectedBuildScalesAboveCap(width: int, height: int, maxDensity: real, format: Option<Format>,
                                     pixelConfig: PixelConfig, density: real)
    requires maxDensity > MinMaxDensity && density > maxDensity
    requires WellShaped(width, height)
    ensures var r := BuildSpec(width, height, maxDensity, format, pixelConfig, density);
            var w := (width as real * (maxDensity / density)).Floor;
            var h := (height as real * (maxDensity / density)).Floor;
            && r.Success?
            && r.value.format == format && r.value.pixelConfig == pixelConfig
            && r.value.width == (if width > 0 && w < 1 then 1 else w)
            && r.value.height == (if height > 0 && h < 1 then 1 else h)
            && WellShaped(r.value.width, r.value.height)
            && r.value.width <= width && r.value.height <= height
  {
    var adj := maxDensity / density;
    assert DensityAdjustment(maxDensity, density) == adj;
    ScaleBounds(width, adj);
    ScaleBounds(height, adj);
    assert BuildSpec(width, height, maxDensity, format, pixelConfig, density)
        == Success(ImageLoadSpec(ScaleBounded(width, adj), ScaleBounded(height, adj), format, pixelConfig));
  }

  /** Every spec the corrected build produces has a valid shape and fits in the request. */
  lemma BuiltSpecIsWellShaped(width: int, height: int, maxDensity: real, format: Option<Format>,
                              pixelConfig: PixelConfig, density: real)
    requires maxDensity > MinMaxDensity
    requires WellShaped(width, height)
    ensures var r := BuildSpec(width, height, maxDensity, format, pixelConfig, density);
            && r.Success?
            && WellShaped(r.value.width, r.value.height) && r.value.width <= width && r.value.height <= height
  {
    var adj := DensityAdjustment(maxDensity, density);
    ScaleBounds(width, adj);
    ScaleBounds(height, adj);
  }

  /** The one-pixel floor changes nothing unless the source's own scaling
      took a positive dimension down to 0. */
  lemma BuildAgreesWithAsWritten(width: int, height: int, maxDensity: real, format: Option<Format>,
                                 pixelConfig: PixelConfig, density: real)
    requires maxDensity > MinMaxDensity
    ensures var w := BuildSpecAsWritten(width, height, maxDensity, format, pixelConfig, density);
            (w.Success? ==> (width > 0 ==> w.value.width > 0) && (height > 0 ==> w.value.height > 0)) ==>
              BuildSpec(width, height, maxDensity, format, pixelConfig, density) == w
  {
    var adj := DensityAdjustment(maxDensity, density);
    if width >= 0 && height >= 0 {
      ScaleBounds(width, adj);
      ScaleBounds(height, adj);
      assert Scale(width, adj) >= 0 && Scale(height, adj) >= 0;
    }
  }

  /** The source's build(): on a display of density 3.0 with the default cap
      1.5, a 1 x 2 request is halved to 0 x 1, a zero width beside a positive
      height, and a bounded 1 x 1 request becomes the unbound 0 x 0. */
  lemma AsWrittenBuildsMixedSpec()
    ensures BuildSpecAsWritten(1, 2, DefaultMaxDensity, Some(JPEG), ARGB_8888, 3.0)
         == Success(ImageLoadSpec(0, 1, Some(JPEG), ARGB_8888))
    ensures !WellShaped(0, 1)
    ensures BuildSpecAsWritten(1, 1, DefaultMaxDensity, Some(JPEG), ARGB_8888, 3.0)
         == Success(ImageLoadSpec(0, 0, Some(JPEG), ARGB_8888))
    ensures BuildSpec(1, 1, DefaultMaxDensity, Some(JPEG), ARGB_8888, 3.0)
         == Success(ImageLoadSpec(1, 1, Some(JPEG), ARGB_8888))
  {
    assert DensityAdjustment(DefaultMaxDensity, 3.0) == 0.5;
    assert (1 as real * 0.5).Floor == 0;
    assert (2 as real * 0.5).Floor == 1;
  }

  /** Density 2.0 with cap 1.5 turns 200 x 200 into 150 x 150; density 1.0 leaves it. */
  lemma DensityScalingExamples()
    ensures BuildSpecAsWritten(200, 200, DefaultMaxDensity, Some(JPEG), ARGB_8888, 2.0)
         == Success(ImageLoadSpec(150, 150, Some(JPEG), ARGB_8888))
    ensures BuildSpecAsWritten(200, 200, DefaultMaxDensity, Some(JPEG), ARGB_8888, 1.0)
         == Success(ImageLoadSpec(200, 200, Some(JPEG), ARGB_8888))
  {
    assert DensityAdjustment(DefaultMaxDensity, 2.0) == 0.75;
    assert (200 as real * 0.75).Floor == 150;
  }

  /** A builder whose dimensions were never set cannot build, whatever the display. */
  lemma UnsetDimensionsDoNotBuild(maxDensity: real, format: Option<Format>, pixelConfig: PixelConfig, density: real)
    requires maxDensity > MinMaxDensity
    ensures BuildSpecAsWritten(DefaultWidth, DefaultHeight, maxDensity, format, pixelConfig, density)
         == Failure(DimensionsUnset)
  {
  }

  /** ImageLoadSpecBuilder: every setter mutates its own fields only and
      returns the builder itself, so calls can be chained. */
  class ImageLoadSpecBuilder {
    var width: int
    var height: int
    var maxDensity: real
    var format: Option<Format>
    var pixelConfig: PixelConfig

    /** setMaxDensity refuses every cap at or below 0.5. */
    ghost predicate Valid()
      reads this
    {
      maxDensity > MinMaxDensity
    }

    constructor ()
      ensures Valid()
      ensures width == DefaultWidth && height == DefaultHeight && maxDensity == DefaultMaxDensity
      ensures format == Some(JPEG) && pixelConfig == ARGB_8888
    {
      width, height := DefaultWidth, DefaultHeight;
      maxDensity := DefaultMaxDensity;
      format := Some(JPEG);
      pixelConfig := ARGB_8888;
    }

    method SetFormat(format: Option<Format>) returns (self: ImageLoadSpecBuilder)
      modifies this`format
      ensures self == this && this.format == format
    {
      this.format := format;
      self := this;
    }

    method SetPixelConfig(pixelConfig: PixelConfig) returns (self: ImageLoadSpecBuilder)
      modifies this`pixelConfig
      ensures self == this && this.pixelConfig == pixelConfig
    {
      this.pixelConfig := pixelConfig;
      self := this;
    }

    method SetUnboundDimension() returns (self: ImageLoadSpecBuilder)
      modifies this`width, this`height
      ensures self == this && width == 0 && height == 0
    {
      width, height := 0, 0;
      self := this;
    }

    /** Square dimensions. */
    method SetDimension(size: int) returns (self: ImageLoadSpecBuilder)
      modifies this`width, this`height
      ensures self == this && width == size && height == size
    {
      width, height := size, size;
      self := this;
    }

    method SetDimensions(width: int, height: int) returns (self: ImageLoadSpecBuilder)
      modifies this`width, this`height
      ensures self == this && this.width == width && this.height == height
    {
      this.width, this.height := width, height;
      self := this;
    }

    method SetWidth(width: int) returns (self: ImageLoadSpecBuilder)
      modifies this`width
      ensures self == this && this.width == width
    {
      this.width := width;
      self := this;
    }

    method SetHeight(height: int) returns (self: ImageLoadSpecBuilder)
      modifies this`height
      ensures self == this && this.height == height
    {
      this.height := height;
      self := this;
    }

    /** A cap at or below 0.5 is an invalid argument and leaves the stored cap. */
    method SetMaxDensity(maxDensity: real) returns (r: Result<ImageLoadSpecBuilder, SpecError>)
      requires Valid()
      modifies this`maxDensity
      ensures Valid()
      ensures maxDensity <= MinMaxDensity ==> r == Failure(MaxDensityTooLow) && this.maxDensity == old(this.maxDensity)
      ensures maxDensity > MinMaxDensity ==> r == Success(this) && this.maxDensity == maxDensity
    {
      if maxDensity <= MinMaxDensity {
        return Failure(MaxDensityTooLow);
      }
      this.maxDensity := maxDensity;
      r := Success(this);
    }

    /** build() on the builder's current fields, for a display of the given
        density: the two dimension checks, then each dimension times the
        density adjustment, cast down. */
    function Build(density: real): (r: Result<ImageLoadSpec, SpecError>)
      reads this
      requires Valid()
      ensures r.Success? <==> WellShaped(width, height)
      ensures (width < 0 || height < 0) <==> r == Failure(DimensionsUnset)
      ensures width >= 0 && height >= 0 && !WellShaped(width, height) <==> r == Failure(DimensionsMixed)
      ensures r.Success? ==>
                && 0 <= r.value.width <= width && 0 <= r.value.height <= height
                && r.value.width == (width as real * DensityAdjustment(maxDensity, density)).Floor
                && r.value.height == (height as real * DensityAdjustment(maxDensity, density)).Floor
                && r.value.format == format && r.value.pixelConfig == pixelConfig
    {
      BuildSpecAsWritten(width, height, maxDensity, format, pixelConfig, density)
    }
  }
}
