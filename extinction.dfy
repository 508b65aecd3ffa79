/**
 * Galactic extinction and photometric zero-point correction of the raw
 * HSC cmodel magnitudes.
 *
 * The zero-point lookup keyed by (tract, patch) is an unfinished stub in
 * the original (it returns a name it never defines), so the model takes
 * the lookup as a parameter and assumes nothing about its contents beyond
 * its shape: five offsets, indexed 0 .. 4 for g, r, i, z, y.
 */
module Extinction {
  import opened Photometry

  /** Per-band zero-point offsets, index 0 .. 4 for g, r, i, z, y. */
  type Offsets = s: seq<real> | |s| == 5 witness [0.0, 0.0, 0.0, 0.0, 0.0]

  /** The zero-point table: (tract, patch) -> offsets. */
  type ZeropointLookup = (int, int) -> Offsets

  /** The result tuple: corrected g, r, i, z and y magnitude columns, in that order. */
  type Columns = (seq<real>, seq<real>, seq<real>, seq<real>, seq<real>)

  function OffsetsAsGrizy(off: Offsets): Grizy
  {
    Grizy(off[0], off[1], off[2], off[3], off[4])
  }

  /** The SFD98 correction of one row: raw minus absorption minus zero-point offset. */
  function CorrectRow(row: HscRow, zeropoint: ZeropointLookup): Grizy
  {
    Sub(Sub(row.cmodelMag, row.absorption), OffsetsAsGrizy(zeropoint(row.tract, row.patch)))
  }

  /** Splits a table of per-row band values into its five band columns. */
  function Transpose(rows: seq<Grizy>): Columns
  {
    (seq(|rows|, k requires 0 <= k < |rows| => rows[k].g),
     seq(|rows|, k requires 0 <= k < |rows| => rows[k].r),
     seq(|rows|, k requires 0 <= k < |rows| => rows[k].i),
     seq(|rows|, k requires 0 <= k < |rows| => rows[k].z),
     seq(|rows|, k requires 0 <= k < |rows| => rows[k].y))
  }

  /**
   * _extinction_correct. Method 'sfd98' subtracts, band by band, the
   * catalogue absorption `a_<band>` and the zero-point offset looked up for
   * the row's (tract, patch); any other method raises NotImplementedError.
   * The method defaults to 'sfd98', as in the original; the zero-point
   * lookup, which the original performs itself, comes first as a parameter.
   */
  function ExtinctionCorrect(hsc: seq<HscRow>, zeropoint: ZeropointLookup, correction: string := "sfd98")
    : (r: Result<Columns>)
    ensures r.Ok? <==> correction == "sfd98"
    ensures r.Err? ==> r.error == NotImplementedError
    ensures r.Ok? ==>
      |r.value.0| == |hsc| && |r.value.1| == |hsc| && |r.value.2| == |hsc| &&
      |r.value.3| == |hsc| && |r.value.4| == |hsc|
    ensures r.Ok? ==> forall k :: 0 <= k < |hsc| ==>
      var off := zeropoint(hsc[k].tract, hsc[k].patch);
      && r.value.0[k] == hsc[k].cmodelMag.g - hsc[k].absorption.g - off[0]
      && r.value.1[k] == hsc[k].cmodelMag.r - hsc[k].absorption.r - off[1]
      && r.value.2[k] == hsc[k].cmodelMag.i - hsc[k].absorption.i - off[2]
      && r.value.3[k] == hsc[k].cmodelMag.z - hsc[k].absorption.z - off[3]
      && r.value.4[k] == hsc[k].cmodelMag.y - hsc[k].absorption.y - off[4]
  {
    if correction == "sfd98" then
      Ok(Transpose(seq(|hsc|, k requires 0 <= k < |hsc| => CorrectRow(hsc[k], zeropoint))))
    else
      Err(NotImplementedError)
  }

  /** Row k of the corrected columns, gathered back into one value per band. */
  function RowOf(c: Columns, k: int): Grizy
    requires 0 <= k < |c.0| && k < |c.1| && k < |c.2| && k < |c.3| && k < |c.4|
  {
    Grizy(c.0[k], c.1[k], c.2[k], c.3[k], c.4[k])
  }

  /**
   * The correction of an object depends only on its own raw magnitudes,
   * absorptions and (tract, patch): two rows that agree on these are
   * corrected alike, wherever they sit in the table.
   */
  lemma SameKeySameCorrection(hsc: seq<HscRow>, zeropoint: ZeropointLookup, k: int, l: int)
    requires 0 <= k < |hsc| && 0 <= l < |hsc|
    requires hsc[k].tract == hsc[l].tract && hsc[k].patch == hsc[l].patch
    requires hsc[k].cmodelMag == hsc[l].cmodelMag && hsc[k].absorption == hsc[l].absorption
    ensures ExtinctionCorrect(hsc, zeropoint).Ok?
    ensures RowOf(ExtinctionCorrect(hsc, zeropoint).value, k) ==
            RowOf(ExtinctionCorrect(hsc, zeropoint).value, l)
  {
  }

  /**
   * Where the looked-up offsets are all zero, the SFD98 correction is the
   * plain dust correction that record construction applies (cmodel magnitude
   * minus absorption).
   */
  lemma ZeroOffsetsGiveDustCorrection(hsc: seq<HscRow>, zeropoint: ZeropointLookup, k: int)
    requires 0 <= k < |hsc|
    requires zeropoint(hsc[k].tract, hsc[k].patch) == [0.0, 0.0, 0.0, 0.0, 0.0]
    ensures ExtinctionCorrect(hsc, zeropoint).Ok?
    ensures RowOf(ExtinctionCorrect(hsc, zeropoint).value, k) ==
            Sub(hsc[k].cmodelMag, hsc[k].absorption)
  {
  }

  /**
   * A worked case: offsets (0.01, 0.02, 0.0, -0.01, 0.0) for (tract 0, patch 0),
   * raw g = 23.0 and a_g = 0.05 give a corrected g of 22.94.
   */
  lemma ZeropointExample(row: HscRow, zeropoint: ZeropointLookup)
    requires row.tract == 0 && row.patch == 0
    requires zeropoint(0, 0) == [0.01, 0.02, 0.0, -0.01, 0.0]
    requires row.cmodelMag.g == 23.0 && row.absorption.g == 0.05
    ensures ExtinctionCorrect([row], zeropoint).Ok?
    ensures ExtinctionCorrect([row], zeropoint).value.0 == [22.94]
  {
  }
}
