/**
 * Records shared by the target-selection pipeline: the raw HSC photometry
 * row that is read from a tract file, and the canonical per-object record
 * that the selection cuts work on. Magnitudes are modelled as exact reals.
 */
module Photometry {

  /** One value per HSC broad band, in the pipeline's fixed order g, r, i, z, y. */
  datatype Grizy = Grizy(g: real, r: real, i: real, z: real, y: real)

  /** Band-by-band difference `a - b`. */
  function Sub(a: Grizy, b: Grizy): Grizy
  {
    Grizy(a.g - b.g, a.r - b.r, a.i - b.i, a.z - b.z, a.y - b.y)
  }

  /**
   * One row of a raw HSC tract table, restricted to the columns the core
   * reads: `object_id`, `i_ra`, `i_dec`, `tract`, `patch`, the five
   * `*_cmodel_mag` and `*_cmodel_mag_err` columns, the five absorptions
   * `a_g` .. `a_y`, and `i_psf_mag`. Nothing in the model reads `iPsfMag`:
   * it is kept only to mirror the column that record construction reads for
   * its write of an undeclared field, which is not modelled.
   */
  datatype HscRow = HscRow(
    objectId: int,
    iRa: real,
    iDec: real,
    tract: int,
    patch: int,
    cmodelMag: Grizy,
    cmodelMagErr: Grizy,
    absorption: Grizy,
    iPsfMag: real)

  /**
   * The canonical per-object record, one field per entry of the structured
   * dtype: OBJID, RA, DEC, G_MAG .. Y_MAG (`mag`), G_ERR .. Y_ERR (`err`),
   * I_MEAS_CMODEL_MAG and I_MEAS_PSF_MAG.
   */
  datatype Object = Object(
    objId: int,
    ra: real,
    dec: real,
    mag: Grizy,
    err: Grizy,
    iMeasCmodelMag: real,
    iMeasPsfMag: real)

  /** The record that a zero-filled structured array holds in every slot. */
  const ZeroObject: Object :=
    Object(0, 0.0, 0.0, Grizy(0.0, 0.0, 0.0, 0.0, 0.0), Grizy(0.0, 0.0, 0.0, 0.0, 0.0), 0.0, 0.0)

  /** The only exception the core raises on purpose. */
  datatype Error = NotImplementedError

  datatype Result<T> = Ok(value: T) | Err(error: Error)
}
