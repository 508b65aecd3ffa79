/**
 * The PFS cosmology target selection: three per-object boolean stages
 * (quality, star-galaxy separation, colour box), their conjunction, and the
 * construction of the canonical records from a raw HSC table.
 *
 * Every stage is vectorised in the original: it maps a table of objects to
 * a boolean mask of the same length whose entry k depends on object k only.
 * Here a table is a `seq<Object>` and a mask a `seq<bool>`.
 */
module Cuts {
  import opened Photometry

  // Keyword defaults of isCosmology and color_cut.
  const DefaultStarGalaxyCut: real := -0.15
  const DefaultMagnitudeCut: real := 22.5
  const DefaultGRCut: real := 0.15
  const DefaultColorSlope: real := 2.0
  const DefaultColorYint: real := -0.15

  /** The g - r threshold of the blue branch, written as a literal in color_cut. */
  const BlueGRLimit: real := 0.15

  // ---------------------------------------------------------------------
  // Per-object tests

  /** Magnitude-dependent ceiling on the g-band magnitude error (strict). */
  predicate PassesQuality(o: Object)
  {
    o.err.g < o.mag.g * 0.05 - 1.1
  }

  /** Extended source: cmodel minus PSF magnitude strictly below `cut`. */
  predicate IsExtended(iCmodel: real, iPsf: real, cut: real)
  {
    iCmodel - iPsf < cut
  }

  /**
   * The colour box as coded: a floor on the g-band magnitude, then either the
   * blue branch (g - r below the literal 0.15) or the red branch, a diagonal
   * cut in (g - r, i - y). The `gRCut` argument takes no part.
   */
  predicate InColorBox(o: Object, magnitudeCut: real, gRCut: real, colorSlope: real, colorYint: real)
  {
    o.mag.g > magnitudeCut &&
    (o.mag.g - o.mag.r < BlueGRLimit ||
     o.mag.i - o.mag.y > colorSlope * (o.mag.g - o.mag.r) - colorYint)
  }

  /** Elementwise `&` of two masks of equal length. */
  function And(a: seq<bool>, b: seq<bool>): seq<bool>
    requires |a| == |b|
  {
    seq(|a|, k requires 0 <= k < |a| => a[k] && b[k])
  }

  // ---------------------------------------------------------------------
  // The vectorised stages

  /** quality_cuts: the g-band error bound, object by object. */
  function QualityCuts(objects: seq<Object>): (m: seq<bool>)
    ensures |m| == |objects|
    ensures forall k :: 0 <= k < |objects| ==> m[k] == PassesQuality(objects[k])
  {
    seq(|objects|, k requires 0 <= k < |objects| =>
      objects[k].err.g < objects[k].mag.g * 0.05 - 1.1)
  }

  /**
   * star_galaxy: takes the two i-band magnitude columns. The model takes
   * columns of equal length; numpy's broadcasting of a scalar or a length-1
   * column is left out.
   */
  function StarGalaxy(iCmodel: seq<real>, iPsf: seq<real>, cut: real): (m: seq<bool>)
    requires |iCmodel| == |iPsf|
    ensures |m| == |iCmodel|
    ensures forall k :: 0 <= k < |iCmodel| ==> m[k] == IsExtended(iCmodel[k], iPsf[k], cut)
  {
    seq(|iCmodel|, k requires 0 <= k < |iCmodel| => iCmodel[k] - iPsf[k] < cut)
  }

  /**
   * color_cut: a faint-magnitude mask on G_MAG, narrowed in place (`&=`) by
   * the two-branch colour mask.
   */
  function ColorCut(objects: seq<Object>, magnitudeCut: real, gRCut: real,
                    colorSlope: real, colorYint: real): (m: seq<bool>)
    ensures |m| == |objects|
    ensures forall k :: 0 <= k < |objects| ==>
      m[k] == InColorBox(objects[k], magnitudeCut, gRCut, colorSlope, colorYint)
  {
    var faint := seq(|objects|, k requires 0 <= k < |objects| => objects[k].mag.g > magnitudeCut);
    var colour := seq(|objects|, k requires 0 <= k < |objects| =>
      var gr := objects[k].mag.g - objects[k].mag.r;
      gr < BlueGRLimit || objects[k].mag.i - objects[k].mag.y > colorSlope * gr - colorYint);
    And(faint, colour)
  }

  /** The I_MEAS_CMODEL_MAG column of a table. */
  function ICmodelColumn(objects: seq<Object>): (c: seq<real>)
    ensures |c| == |objects|
  {
    seq(|objects|, k requires 0 <= k < |objects| => objects[k].iMeasCmodelMag)
  }

  /** The I_MEAS_PSF_MAG column of a table. */
  function IPsfColumn(objects: seq<Object>): (c: seq<real>)
    ensures |c| == |objects|
  {
    seq(|objects|, k requires 0 <= k < |objects| => objects[k].iMeasPsfMag)
  }

  /**
   * isCosmology. Two things are modelled as the code has them:
   *  - only `magnitudeCut` is forwarded to color_cut, which therefore runs
   *    with its own defaults for g_r_cut, color_slope and color_yint;
   *  - the original calls `star_galaxy(objects, cut=...)`, which does not
   *    match star_galaxy's signature `(i_cmodel, i_psf, cut)`; the model
   *    feeds it the I_MEAS_CMODEL_MAG and I_MEAS_PSF_MAG columns.
   */
  function IsCosmology(objects: seq<Object>, starGalaxyCut: real, magnitudeCut: real,
                       gRCut: real, colorSlope: real, colorYint: real): (m: seq<bool>)
    ensures |m| == |objects|
    ensures forall k :: 0 <= k < |objects| ==>
      m[k] == (PassesQuality(objects[k]) &&
               IsExtended(objects[k].iMeasCmodelMag, objects[k].iMeasPsfMag, starGalaxyCut) &&
               InColorBox(objects[k], magnitudeCut, DefaultGRCut, DefaultColorSlope, DefaultColorYint))
  {
    var isQuality := QualityCuts(objects);
    var isGalaxy := StarGalaxy(ICmodelColumn(objects), IPsfColumn(objects), starGalaxyCut);
    var isColor := ColorCut(objects, magnitudeCut, DefaultGRCut, DefaultColorSlope, DefaultColorYint);
    And(And(isQuality, isGalaxy), isColor)
  }

  // ---------------------------------------------------------------------
  // Properties of the stages

  /** Bright objects with a large g-band error fail: at G_MAG = 20 the ceiling is -0.1. */
  lemma QualityRejectsExample(o: Object)
    requires o.mag.g == 20.0 && o.err.g == 0.5
    ensures QualityCuts([o]) == [false]
  {
  }

  /** The error ceiling only loosens towards fainter magnitudes and smaller errors. */
  lemma QualityMonotone(o: Object, p: Object)
    requires PassesQuality(o)
    requires p.mag.g >= o.mag.g && p.err.g <= o.err.g
    ensures PassesQuality(p)
  {
  }

  /** The star-galaxy test is strict: a difference equal to (or above) the cut is rejected. */
  lemma StarGalaxyStrict(iCmodel: seq<real>, iPsf: seq<real>, cut: real, k: int)
    requires |iCmodel| == |iPsf| && 0 <= k < |iCmodel|
    requires iCmodel[k] - iPsf[k] >= cut
    ensures !StarGalaxy(iCmodel, iPsf, cut)[k]
  {
  }

  /** Boundary case with the default cut: i_cmodel - i_psf == -0.15 is a point source. */
  lemma StarGalaxyBoundaryExample()
    ensures StarGalaxy([21.85], [22.0], DefaultStarGalaxyCut) == [false]
  {
  }

  /** Objects no fainter than the floor in G_MAG are rejected whatever their colours. */
  lemma ColorCutFaintFloor(objects: seq<Object>, magnitudeCut: real, gRCut: real,
                           colorSlope: real, colorYint: real, k: int)
    requires 0 <= k < |objects| && objects[k].mag.g <= magnitudeCut
    ensures !ColorCut(objects, magnitudeCut, gRCut, colorSlope, colorYint)[k]
  {
  }

  /** Blue branch: past the floor and with g - r < 0.15, accepted whatever I_MAG and Y_MAG are. */
  lemma ColorCutBlueBranch(objects: seq<Object>, magnitudeCut: real, gRCut: real,
                           colorSlope: real, colorYint: real, k: int)
    requires 0 <= k < |objects|
    requires objects[k].mag.g > magnitudeCut && objects[k].mag.g - objects[k].mag.r < 0.15
    ensures ColorCut(objects, magnitudeCut, gRCut, colorSlope, colorYint)[k]
  {
  }

  /** Red branch: past the floor and with g - r >= 0.15, accepted iff i - y clears the diagonal. */
  lemma ColorCutRedBranch(objects: seq<Object>, magnitudeCut: real, gRCut: real,
                          colorSlope: real, colorYint: real, k: int)
    requires 0 <= k < |objects|
    requires objects[k].mag.g > magnitudeCut && objects[k].mag.g - objects[k].mag.r >= 0.15
    ensures ColorCut(objects, magnitudeCut, gRCut, colorSlope, colorYint)[k] <==>
      objects[k].mag.i - objects[k].mag.y > colorSlope * (objects[k].mag.g - objects[k].mag.r) - colorYint
  {
  }

  /** The `g_r_cut` argument of color_cut has no effect on its mask. */
  lemma ColorCutIgnoresGRCut(objects: seq<Object>, magnitudeCut: real, gRCut1: real, gRCut2: real,
                             colorSlope: real, colorYint: real)
    ensures ColorCut(objects, magnitudeCut, gRCut1, colorSlope, colorYint) ==
            ColorCut(objects, magnitudeCut, gRCut2, colorSlope, colorYint)
  {
  }

  /**
   * isCosmology with every keyword at its default, the form the command-line
   * driver uses, written out as plain comparisons on each object.
   */
  lemma IsCosmologyDefaults(objects: seq<Object>, k: int)
    requires 0 <= k < |objects|
    ensures var o := objects[k];
      IsCosmology(objects, DefaultStarGalaxyCut, DefaultMagnitudeCut,
                  DefaultGRCut, DefaultColorSlope, DefaultColorYint)[k] <==>
        && o.err.g < 0.05 * o.mag.g - 1.1
        && o.iMeasCmodelMag - o.iMeasPsfMag < -0.15
        && o.mag.g > 22.5
        && (o.mag.g - o.mag.r < 0.15 || o.mag.i - o.mag.y > 2.0 * (o.mag.g - o.mag.r) + 0.15)
  {
  }

  /** An object that fails any one stage is not a target. */
  lemma IsCosmologyRejectsOnAnyStage(objects: seq<Object>, starGalaxyCut: real, magnitudeCut: real,
                                     gRCut: real, colorSlope: real, colorYint: real, k: int)
    requires 0 <= k < |objects|
    requires !QualityCuts(objects)[k] ||
             !StarGalaxy(ICmodelColumn(objects), IPsfColumn(objects), starGalaxyCut)[k] ||
             !ColorCut(objects, magnitudeCut, DefaultGRCut, DefaultColorSlope, DefaultColorYint)[k]
    ensures !IsCosmology(objects, starGalaxyCut, magnitudeCut, gRCut, colorSlope, colorYint)[k]
  {
  }

  /**
   * Only `starGalaxyCut` and `magnitudeCut` reach the stages: isCosmology's
   * own g_r_cut, color_slope and color_yint are never forwarded.
   */
  lemma IsCosmologyIgnoresColorArguments(objects: seq<Object>, starGalaxyCut: real, magnitudeCut: real,
                                         gRCut1: real, colorSlope1: real, colorYint1: real,
                                         gRCut2: real, colorSlope2: real, colorYint2: real)
    ensures IsCosmology(objects, starGalaxyCut, magnitudeCut, gRCut1, colorSlope1, colorYint1) ==
            IsCosmology(objects, starGalaxyCut, magnitudeCut, gRCut2, colorSlope2, colorYint2)
  {
  }

  /**
   * The selection is object by object, so a catalogue split into parts (for
   * instance one per tract) can be selected part by part.
   */
  lemma {:induction false} IsCosmologySplits(a: seq<Object>, b: seq<Object>, starGalaxyCut: real,
                                             magnitudeCut: real, gRCut: real, colorSlope: real,
                                             colorYint: real)
    ensures IsCosmology(a + b, starGalaxyCut, magnitudeCut, gRCut, colorSlope, colorYint) ==
            IsCosmology(a, starGalaxyCut, magnitudeCut, gRCut, colorSlope, colorYint) +
            IsCosmology(b, starGalaxyCut, magnitudeCut, gRCut, colorSlope, colorYint)
  {
    var whole := IsCosmology(a + b, starGalaxyCut, magnitudeCut, gRCut, colorSlope, colorYint);
    var parts := IsCosmology(a, starGalaxyCut, magnitudeCut, gRCut, colorSlope, colorYint) +
                 IsCosmology(b, starGalaxyCut, magnitudeCut, gRCut, colorSlope, colorYint);
    forall k | 0 <= k < |a + b| ensures whole[k] == parts[k] {
      if k < |a| {
        assert (a + b)[k] == a[k];
      } else {
        assert (a + b)[k] == b[k - |a|];
      }
    }
  }

  /**
   * Records in which I_MEAS_CMODEL_MAG equals I_MEAS_PSF_MAG (as PrepareHsc
   * leaves them: both zero) are never extended for a non-positive cut such as
   * the default -0.15, so isCosmology selects none of them.
   */
  lemma IsCosmologyRejectsUnmeasured(objects: seq<Object>, starGalaxyCut: real, magnitudeCut: real,
                                     gRCut: real, colorSlope: real, colorYint: real)
    requires forall k :: 0 <= k < |objects| ==> objects[k].iMeasCmodelMag == objects[k].iMeasPsfMag
    requires starGalaxyCut <= 0.0
    ensures forall k :: 0 <= k < |objects| ==>
      !IsCosmology(objects, starGalaxyCut, magnitudeCut, gRCut, colorSlope, colorYint)[k]
  {
  }

  // ---------------------------------------------------------------------
  // Record construction

  /**
   * _prepare_hsc: allocates a zero-filled record per input row, rejects any
   * dust model other than 'default', then fills the declared fields: each
   * band magnitude is the cmodel magnitude minus its absorption, the errors,
   * the id and the i-band coordinates are copied. The original also writes a
   * field I_PSF_MAG that its dtype does not declare; that write is not
   * modelled. The measured i-band magnitudes are never written (their
   * assignments are commented out) and keep the zero they were allocated with.
   */
  method PrepareHsc(hsc: seq<HscRow>, dustExtinction: string := "default") returns (r: Result<seq<Object>>)
    ensures r.Ok? <==> dustExtinction == "default"
    ensures r.Ok? ==> |r.value| == |hsc|
    ensures r.Ok? ==> forall k :: 0 <= k < |hsc| ==>
      && r.value[k].mag == Sub(hsc[k].cmodelMag, hsc[k].absorption)
      && r.value[k].err == hsc[k].cmodelMagErr
      && r.value[k].objId == hsc[k].objectId
      && r.value[k].ra == hsc[k].iRa
      && r.value[k].dec == hsc[k].iDec
      && r.value[k].iMeasCmodelMag == 0.0
      && r.value[k].iMeasPsfMag == 0.0
  {
    var objects := new Object[|hsc|](_ => ZeroObject);
    if dustExtinction != "default" {
      return Err(NotImplementedError);
    }
    var k := 0;
    while k < |hsc|
      invariant 0 <= k <= |hsc| == objects.Length
      invariant forall j :: 0 <= j < k ==>
        objects[j] == ZeroObject.(mag := Sub(hsc[j].cmodelMag, hsc[j].absorption),
                                  err := hsc[j].cmodelMagErr,
                                  objId := hsc[j].objectId, ra := hsc[j].iRa, dec := hsc[j].iDec)
      invariant forall j :: k <= j < |hsc| ==> objects[j] == ZeroObject
    {
      objects[k] := objects[k].(mag := Sub(hsc[k].cmodelMag, hsc[k].absorption),
                                err := hsc[k].cmodelMagErr,
                                objId := hsc[k].objectId, ra := hsc[k].iRa, dec := hsc[k].iDec);
      k := k + 1;
    }
    r := Ok(objects[..]);
  }
}
