# pfstarget target selection — a Dafny model

This project models the arithmetic core of `pfstarget`, the selector of PFS
cosmology targets from HSC imaging catalogues:

- **Record construction** (`_prepare_hsc`): one canonical record per row of a
  raw HSC tract table. Each band magnitude is the cmodel magnitude minus the
  catalogue's dust absorption `a_<band>`. The errors, the object id and the
  i-band coordinates are copied across.
- **Selection cuts**: the magnitude-dependent g-band error bound
  (`quality_cuts`), the cmodel − PSF star/galaxy test (`star_galaxy`), the
  faint floor plus two-branch colour box (`color_cut`), and their elementwise
  conjunction (`isCosmology`). A catalogue is a `seq<Object>` and a mask a
  `seq<bool>` of the same length. Entry k depends on object k only.
- **Extinction and zero-point correction** (`_extinction_correct`): for method
  `sfd98`, each band is raw − absorption − the zero-point offset looked up for
  the object's (tract, patch). Any other method raises `NotImplementedError`.
- **`chunkNList`** from the HSC release query client: it cuts a list into
  `num` contiguous batches by stepping an accumulator `last` by `len / num`.
  `src/sql/hscReleaseQuery.py` and `bin/hsc/sql/hscReleaseQuery.py` hold
  identical copies, and one model serves both.

Magnitudes are exact `real`s. The `NotImplementedError` that the core raises
on purpose becomes the `Err` case of a `Result`; the other exceptions are
listed under "## Left out". Keyword defaults (`dust_extinction='default'`,
`method='sfd98'`) are default-valued parameters. Files: `photometry.dfy` (shared records), `cuts.dfy`,
`extinction.dfy` and `release_query.dfy`.

Points where the code is modelled as written:

- `color_cut` puts its faint floor on `G_MAG` (cuts.py:45). Its red branch
  compares `I_MAG − Y_MAG` (cuts.py:49). Its blue branch uses the literal 0.15
  and ignores the `g_r_cut` argument (cuts.py:48).
- `isCosmology` forwards only `magnitude_cut` to `color_cut` (cuts.py:35). Its
  own `g_r_cut`, `color_slope` and `color_yint` therefore have no effect.
- `isCosmology` calls `star_galaxy(objects, cut=...)` (cuts.py:32). That call
  does not match the signature `star_galaxy(i_cmodel, i_psf, cut)`
  (cuts.py:66). The model passes the `I_MEAS_CMODEL_MAG` and `I_MEAS_PSF_MAG`
  columns.
- `_prepare_hsc` writes a field `I_PSF_MAG` that its dtype does not declare
  (cuts.py:139 against 87-102). The model fills only the declared fields. The
  two measured i-band magnitudes are never written, because their assignments
  are commented out (cuts.py:142-143). They keep the zero of `np.zeros`. As a
  result, `Cuts.IsCosmologyRejectsUnmeasured` shows that, with a
  non-positive star/galaxy cut such as the default, no record built this way
  is selected.
- `_get_zeropoint_correct` is a stub that returns an undefined name
  (extinction.py:61). As written, every `sfd98` call would therefore fail. The
  model takes the lookup as a parameter `(tract, patch) -> Offsets` (five
  reals, g..y at indices 0..4) and assumes nothing about its contents.

The selection in this code is narrow: `quality_cuts` has only the g-band
error bound (cuts.py:59), `star_galaxy` has no validity flags (cuts.py:74),
`color_cut` has no bright ceiling (cuts.py:45), there is no bright-object
masking stage, and a missing zero-point offset has no defined value
(extinction.py:54-61). The model has exactly these stages and no others.

## Model

| member | source | states |
|---|---|---|
| `Cuts.QualityCuts` | src/pfstarget/cuts.py:54-63 | one mask entry per object; entry k holds iff object k's G_ERR < 0.05·G_MAG − 1.1 (strict) |
| `Cuts.QualityRejectsExample` | src/pfstarget/cuts.py:59 | G_MAG = 20, G_ERR = 0.5 fails, since the ceiling there is −0.1 |
| `Cuts.QualityMonotone` | src/pfstarget/cuts.py:59 | the error ceiling loosens with fainter magnitude: a passing object stays passing when made fainter or given a smaller error |
| `Cuts.StarGalaxy` | src/pfstarget/cuts.py:66-74 | one entry per pair of equal-length i-band columns; entry k holds iff i_cmodel[k] − i_psf[k] < cut |
| `Cuts.StarGalaxyStrict` | src/pfstarget/cuts.py:74 | a difference at or above the cut is rejected |
| `Cuts.StarGalaxyBoundaryExample` | src/pfstarget/cuts.py:66-74 | with the default cut −0.15, a difference of exactly −0.15 is rejected |
| `Cuts.ColorCut` | src/pfstarget/cuts.py:40-51 | one entry per object; entry k holds iff G_MAG > magnitude_cut and (G−R < 0.15 or I−Y > color_slope·(G−R) − color_yint) |
| `Cuts.ColorCutFaintFloor` | src/pfstarget/cuts.py:44-45 | an object with G_MAG ≤ magnitude_cut is rejected whatever its colours |
| `Cuts.ColorCutBlueBranch` | src/pfstarget/cuts.py:45-48 | past the floor with G−R < 0.15, an object is accepted whatever I_MAG and Y_MAG are |
| `Cuts.ColorCutRedBranch` | src/pfstarget/cuts.py:45-50 | past the floor with G−R ≥ 0.15, an object is accepted iff I−Y > color_slope·(G−R) − color_yint |
| `Cuts.ColorCutIgnoresGRCut` | src/pfstarget/cuts.py:40-50 | the mask is the same for every value of g_r_cut |
| `Cuts.IsCosmology` | src/pfstarget/cuts.py:11-37 | one entry per object; entry k is the AND of the quality test, the star/galaxy test on the measured i-band magnitudes with star_galaxy_cut, and the colour box with magnitude_cut and color_cut's defaults |
| `Cuts.IsCosmologyDefaults` | src/pfstarget/cuts.py:11-12 | with every keyword left at its default (as the command-line driver calls it), entry k holds iff G_ERR < 0.05·G_MAG − 1.1, I_MEAS_CMODEL_MAG − I_MEAS_PSF_MAG < −0.15, G_MAG > 22.5, and (G−R < 0.15 or I−Y > 2·(G−R) + 0.15) |
| `Cuts.IsCosmologyRejectsOnAnyStage` | src/pfstarget/cuts.py:28-37 | an object that fails any one of the three stage masks is not selected |
| `Cuts.IsCosmologyIgnoresColorArguments` | src/pfstarget/cuts.py:11-35 | the selection does not depend on isCosmology's g_r_cut, color_slope or color_yint |
| `Cuts.IsCosmologySplits` | src/pfstarget/cuts.py:29-37 | selecting a concatenated catalogue gives the concatenation of the parts' selections |
| `Cuts.IsCosmologyRejectsUnmeasured` | src/pfstarget/cuts.py:138-143 | records whose measured cmodel and PSF i magnitudes are equal (both left at zero) are never selected when star_galaxy_cut ≤ 0 |
| `Cuts.PrepareHsc` | src/pfstarget/cuts.py:77-150 | succeeds iff dust_extinction is 'default', else NotImplementedError; on success, one record per row, with magnitudes = cmodel − absorption band by band, errors, id, RA and Dec copied, and measured i magnitudes zero |
| `Extinction.ExtinctionCorrect` | src/pfstarget/extinction.py:8-51 | succeeds iff method is 'sfd98', else NotImplementedError; on success, five columns in g, r, i, z, y order, one entry per row, with band b = cmodel_b − a_b − offset[b] for the row's (tract, patch), b = 0..4 |
| `Extinction.SameKeySameCorrection` | src/pfstarget/extinction.py:38-45 | two rows with equal tract, patch, raw magnitudes and absorptions get equal corrected magnitudes |
| `Extinction.ZeroOffsetsGiveDustCorrection` | src/pfstarget/extinction.py:41-45 | with all-zero offsets, the correction is cmodel − absorption, the same correction record construction applies |
| `Extinction.ZeropointExample` | src/pfstarget/extinction.py:41 | offsets (0.01, 0.02, 0, −0.01, 0), raw g 23.0 and a_g 0.05 give a corrected g of 22.94 |
| `HscReleaseQuery.ChunkNList` | src/sql/hscReleaseQuery.py:21-28 | for num > 0: an empty list gives []; otherwise exactly num chunks; chunk k is s[⌊k·len/num⌋ .. ⌊(k+1)·len/num⌋]; the chunks concatenated are s; the loop terminates |
| `HscReleaseQuery.ChunkSizes` | src/sql/hscReleaseQuery.py:22-27 | every chunk holds ⌊len/num⌋ or ⌈len/num⌉ items |
| `HscReleaseQuery.ChunksAbut` | bin/hsc/sql/hscReleaseQuery.py:26-27 | chunk k ends where chunk k+1 starts; the two together are one contiguous slice of s |
| `HscReleaseQuery.AccumulatorBelowLength` | bin/hsc/sql/hscReleaseQuery.py:25 | after j steps the loop test last < len holds iff len > 0 and j < num, so the loop runs num times on a non-empty list and never on an empty one |
| `HscReleaseQuery.StepAtAccumulator` | bin/hsc/sql/hscReleaseQuery.py:26-27 | at step j < num, the slice s[int(last):int(last+avg)] is chunk j, and last + avg is the accumulator of step j+1 |
| `HscReleaseQuery.FloorOfQuotient` | bin/hsc/sql/hscReleaseQuery.py:22-26 | int() of the real quotient a / n is the integer quotient ⌊a/n⌋ |

## Left out

- HscReleaseQuery.ChunkNList: the accumulator is an exact real, not a double. With floating-point rounding, `last` can fall just short of `len` after `num` steps, so the loop runs once more. That extra chunk starts at `int(last) <= len - 1` and ends at `int(last + avg) >= len`, so it is never empty: it holds the trailing item(s), and an earlier chunk is left short. For len = 1 and num = 10, ten steps of 0.1 reach 0.9999999999999999, the first ten chunks are all empty, and an 11th chunk `s[0:1]` holds the item. The exact chunk count and bounds stated here hold only for exact arithmetic. Under rounding the chunks still abut and cover the list, but that is not proved here.
- HscReleaseQuery.ChunkNList: `num` is a positive natural. A zero count raises ZeroDivisionError in the original. A negative count loops forever on a non-empty list. A float count is not modelled.
- Floating point in the cuts and the correction: f4 storage precision, NaN magnitudes and NaN comparison semantics are not modelled. Magnitudes are exact reals.
- The write of the undeclared field `I_PSF_MAG` (src/pfstarget/cuts.py:139) is not modelled. In numpy it raises on a missing field name. The model fills the declared fields only.
- Cuts.StarGalaxy: takes two i-band columns of equal length. numpy's broadcasting of a scalar or a length-1 column against a longer one is not modelled.
- The `TypeError` that `isCosmology`'s `star_galaxy(objects, cut=...)` call raises against the three-argument signature is not modelled. The model feeds it the measured i-band magnitude columns instead.
- The contents of the zero-point table (`_get_zeropoint_correct`, src/pfstarget/extinction.py:54-61) are not modelled, because the original has none. The `NameError` that the stub raises is not modelled either. The lookup is a parameter.
- The sky-map dust correction is only a stub in the original (src/pfstarget/cuts.py:121-122, src/pfstarget/extinction.py:48-49). Only its `NotImplementedError` is modelled.
- The rest of the release query client is not part of this model: argument parsing, directory creation, FITS and CSV I/O, HTTP job submission, status polling with back-off, download and deletion. All of it is network and file I/O.
- The command-line driver `bin/select_targets.py` (file discovery, table reads and writes, concatenation of the selected rows) is not part of this model. Its default `--dust desi` reaches the `NotImplementedError` branch that `Cuts.PrepareHsc` models.
- `healpixelize` in `src/pfstarget/util.py` is not part of this model. It is a thin wrapper over healpy's `ang2pix` with spherical-angle conversion and a histogram.
