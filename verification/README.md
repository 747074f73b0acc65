# RTK host-side projection set-up, 4D scheduling and SimpleRTK bookkeeping in Dafny

This project models the deterministic logic of RTK (the Reconstruction
Toolkit for cone-beam CT) around its GPU kernels, and a few pieces of
SimpleRTK (its simplified wrapper layer). It proves properties of that model:

- **CUDA forward projection, host side** (`cuda_forward_projection.dfy`,
  module `CudaForwardProjection`). For every requested projection it
  computes the volume clipping box in index space and the 4×4
  detector-index to volume-index matrix. That matrix is built from the
  requested-region translation, the stack's index-to-physical matrix, the
  geometry's projection-to-fixed matrix, the volume's physical-to-index
  matrix (shifted half a voxel in the CUDA texture corner convention) and
  the buffered-index translation. It also computes the source position in
  volume indices and the projection's slice in the flat buffers. The matrix
  algebra is over `real` (`matrix4.dfy`, module `Matrix4`).
- **4D phase scheduler** (`warp_projection_stack.dfy`, module
  `WarpProjectionStack`). This is `GenerateData` of the warped
  projection-stack-to-4D filter. It walks the phase-sorting permutation,
  skips projections outside the stack, and hands the volume series on from
  one splat update to the next. It also sets the extract region, the MVF
  frame and the splat projection of every update.
- **Elekta Synergy lookup table** (`elekta_synergy_lut.dfy`). This is the
  constructor's fill of the table, with `log` as a parameter.
- **SimpleRTK process object** (`process_object.dfy`, module
  `SrtkProcessObject`). This is the list of (event, command, ITK observer
  tag) records, the sentinel tag `ULONG_MAX`, and the active ITK process
  with its observers. It covers registration, removal, deletion callbacks
  and progress.
- **SimpleRTK interpolator selection** (`create_interpolator.dfy`). The
  enumeration value, the spacing and the basic-pixel flag map to an
  interpolator descriptor, or to null.
- **SimpleRTK series reader** (`image_series_reader.dfy`). This is the
  dimension and pixel-type decision of `Execute`, plus the file-name
  accessors.

`results.dfy`, `image_region.dfy` and `sequences.dfy` hold shared helpers:
the `Result`/`Option` types, index regions, and the index sequence `Iota`.

`WarpProjectionStack.GenerateData` never checks that the phase signal has
one entry per projection of the stack
(rtkWarpProjectionStackToFourDImageFilter.hxx:109-162). It runs one
iteration per signal value whatever the stack size, and skips the
projections outside the stack. The model does the same.

The source position is mapped by the corner-shifted physical-to-index
matrix only, and the clipping box starts at the buffered index plus 0.5. So
both are in the volume's absolute index frame. The composed matrix ends with
the buffered-index translation, so it lands in the buffer-relative frame.
The two frames coincide when the volume's buffered index is zero. The kernel
that combines them is not part of this model, so the model records this
without judging it.

## Model

| member | source | states |
|---|---|---|
| Matrix4.ApplyMul | code/rtkCudaForwardProjectionImageFilter.hxx:121-126 | applying a matrix product to a point equals applying its factors from right to left |
| CudaForwardProjection.NewFilter | code/rtkCudaForwardProjectionImageFilter.hxx:40-41 | a new forward projector steps one unit along the ray and samples through CUDA textures |
| CudaForwardProjection.VolumeBox | code/rtkCudaForwardProjectionImageFilter.hxx:67-71 | on each axis the box starts at the buffered index plus 0.5 and is `size - 1` long |
| CudaForwardProjection.BoxHoldsBufferedVoxelCentres | code/rtkCudaForwardProjectionImageFilter.hxx:61-71 | an integer `k` has its corner-convention centre `k + 0.5` inside the box exactly when `k` is a buffered voxel index on that axis |
| CudaForwardProjection.IndexTranslations | code/rtkCudaForwardProjectionImageFilter.hxx:103-110 | the detector translation adds the output requested index to a point; the volume translation subtracts the buffered index and undoes a translation by it |
| CudaForwardProjection.CornerShift | code/rtkCudaForwardProjectionImageFilter.hxx:111-116 | with textures on, exactly the three translation entries (rows 0-2 of column 3) of the physical-to-index matrix grow by 0.5 and every other entry is kept; with textures off no entry changes; an affine matrix stays affine |
| CudaForwardProjection.CornerShiftIsHalfVoxelTranslation | code/rtkCudaForwardProjectionImageFilter.hxx:111-116 | on an affine matrix the corner shift equals translating by half a voxel after the matrix |
| CudaForwardProjection.CornerShiftMovesPoints | code/rtkCudaForwardProjectionImageFilter.hxx:111-116 | the shifted matrix maps every point half a voxel (times its homogeneous coordinate) further on each axis |
| CudaForwardProjection.ProjectionMatrixOrder | code/rtkCudaForwardProjectionImageFilter.hxx:119-126 | the composed matrix maps a detector index through the requested-region translation, the stack index-to-physical matrix, the geometry matrix, the volume physical-to-index matrix and the buffered-index translation, in that order |
| CudaForwardProjection.ProjectionMatrix | code/rtkCudaForwardProjectionImageFilter.hxx:119-126 | when the volume's physical-to-index matrix, the projection-to-fixed matrix and the stack's index-to-physical matrix are affine, so is the composed matrix: it keeps every point's homogeneous coordinate |
| Matrix4.Product | code/rtkCudaForwardProjectionImageFilter.hxx:121-126 | a product of a chain of affine factors is affine |
| Matrix4.ProductOfFive | code/rtkCudaForwardProjectionImageFilter.hxx:121-126 | the five-factor chain multiplies out left to right, as the source's chain of `*` does |
| Matrix4.MulAffine | code/rtkCudaForwardProjectionImageFilter.hxx:121-126 | the product of two affine matrices is affine |
| CudaForwardProjection.CornerConventionOffset | code/rtkCudaForwardProjectionImageFilter.hxx:111-126 | switching textures on moves every mapped detector point by exactly half a voxel per volume axis, scaled by its homogeneous coordinate |
| CudaForwardProjection.SourceCornerOffset | code/rtkCudaForwardProjectionImageFilter.hxx:132-133 | switching textures on moves the source position by `0.5 * w` per axis, so by +0.5 for a source with homogeneous coordinate 1 |
| CudaForwardProjection.SourcePosition | code/rtkCudaForwardProjectionImageFilter.hxx:133 | with an affine physical-to-index matrix the mapped source keeps the geometry source's homogeneous coordinate |
| CudaForwardProjection.SliceStart | code/rtkCudaForwardProjectionImageFilter.hxx:135-141 | the first buffered projection starts at element 0, and no projection at or after it gets a negative offset |
| CudaForwardProjection.SlicesContiguous | code/rtkCudaForwardProjectionImageFilter.hxx:135-141 | projection `i + 1`'s slice starts one projection's worth of pixels after projection `i`'s |
| CudaForwardProjection.SlicesDisjoint | code/rtkCudaForwardProjectionImageFilter.hxx:135-141 | distinct projections get disjoint slices of the flat buffers |
| CudaForwardProjection.SliceStartAsWritten | code/rtkCudaForwardProjectionImageFilter.hxx:135-141 | the offset as the source computes it, in 32-bit unsigned arithmetic, is always below 2^32 |
| CudaForwardProjection.SliceStartAsWrittenAgrees | code/rtkCudaForwardProjectionImageFilter.hxx:135-141 | below 2^32 elements the source's 32-bit offset equals the intended one |
| CudaForwardProjection.SliceStartAsWrittenWraps | code/rtkCudaForwardProjectionImageFilter.hxx:135-141 | with a 2048×2048 detector, projection 1024's 32-bit offset wraps to 0, the slice of projection 0 |
| CudaForwardProjection.GPUGenerateData | code/rtkCudaForwardProjectionImageFilter.hxx:50-149 | every requested projection is visited exactly once, in increasing order, and each gets its own matrix, source position and slice, both as the source's 32-bit pointer offset and as the full-width slice start; the box comes from the volume's buffered region |
| CudaForwardProjection.ConsecutiveProjections | code/rtkCudaForwardProjectionImageFilter.hxx:95 | calls made for consecutive projection numbers visit strictly increasing projections, exactly the range from the first on |
| WarpProjectionStack.InStackOrder | code/rtkWarpProjectionStackToFourDImageFilter.hxx:132-136 | every projection the loop processes comes from the permutation and lies in the stack |
| WarpProjectionStack.GenerateData | code/rtkWarpProjectionStackToFourDImageFilter.hxx:109-162 | the updates run over the permutation's in-stack entries in permutation order; the first reads the filter's input and each later one the previous update's output; each extracts a one-thick slab at its own projection and sets the MVF frame and splat projection to it; the "first processed" flag ends true exactly when some update ran; the projection-number field, assigned before the range test, ends at the last permutation entry, or keeps its old value for an empty signal |
| WarpProjectionStack.InStackOrderCounts | code/rtkWarpProjectionStackToFourDImageFilter.hxx:132-136 | an in-stack projection is processed as often as it occurs in the permutation; an out-of-stack one is never processed |
| WarpProjectionStack.EveryStackProjectionOnce | code/rtkWarpProjectionStackToFourDImageFilter.hxx:124-136 | with a sorting permutation, every in-stack projection below the signal length is processed exactly once, and no other projection is |
| WarpProjectionStack.PermutationInvariance | code/rtkWarpProjectionStackToFourDImageFilter.hxx:124-136 | phase order and index order process the same projections the same number of times |
| WarpProjectionStack.InStackOrderSorted | code/rtkWarpProjectionStackToFourDImageFilter.hxx:132-136 | skipping out-of-stack projections keeps the rest in phase order |
| WarpProjectionStack.ProcessedInPhaseOrder | code/rtkWarpProjectionStackToFourDImageFilter.hxx:124-135 | with a sorting permutation, the processed projections come in non-decreasing signal value |
| WarpProjectionStack.NothingInStack | code/rtkWarpProjectionStackToFourDImageFilter.hxx:129-136 | nothing is processed exactly when no permutation entry lies in the stack |
| ElektaSynergyLut.LutSize | itkElektaSynergyLutImageFilter.h:56-58 | the table has one entry per value of the input pixel type, from its minimum to its maximum |
| ElektaSynergyLut.Entry | itkElektaSynergyLutImageFilter.h:61-77 | entry `i` on `1..size-2` is `log(size) - log(size - i)`; the first and the last entry take entry 1's value `log(size) - log(size - 1)` |
| ElektaSynergyLut.BuildLut | itkElektaSynergyLutImageFilter.h:53-78 | the table has `max - min + 1` entries; entry `i` on `1..size-2` is `log(size) - log(size - i)`; the first and last entries both equal entry 1; every entry is written once, except the last, which is written twice |
| ElektaSynergyLut.EntriesOrdered | itkElektaSynergyLutImageFilter.h:61-78 | with an increasing `log`, the entries up to the second-to-last never decrease and no entry is negative |
| SrtkProcessObject.GetITKEventObject | utilities/SimpleRTK/Code/Common/src/srtkProcessObject.cxx:430-455 | the nine known events map to ITK event objects; any other value throws |
| SrtkProcessObject.EventObjectRoundTrip | utilities/SimpleRTK/Code/Common/src/srtkProcessObject.cxx:430-455 | the event mapping is a bijection between the known events and the nine ITK event objects |
| SrtkProcessObject.NewProcessObject | utilities/SimpleRTK/Code/Common/src/srtkProcessObject.cxx:103-109 | a new process object has no commands, no active process, progress 0 and the global default thread count |
| SrtkProcessObject.NewProcessObjectValid | utilities/SimpleRTK/Code/Common/src/srtkProcessObject.cxx:103-109 | a new process object satisfies the bookkeeping invariant |
| SrtkProcessObject.AddObserverToActiveProcessObject | utilities/SimpleRTK/Code/Common/src/srtkProcessObject.cxx:514-531 | it succeeds exactly when the record has the sentinel tag and a known event; the record then takes the process's next tag, which now holds an adaptor for its event and command |
| SrtkProcessObject.RemoveObserverFromActiveProcessObject | utilities/SimpleRTK/Code/Common/src/srtkProcessObject.cxx:533-543 | a tagged record's tag is reset and only its observer leaves the active process: the other observers, the tag counter and the progress are unchanged, as are the other records and the object's own fields; a record with the sentinel tag leaves everything unchanged |
| SrtkProcessObject.RemoveObserverIdempotent | utilities/SimpleRTK/Code/Common/src/srtkProcessObject.cxx:533-543 | removing a record's observer twice is the same as removing it once |
| SrtkProcessObject.AddThenRemoveObserver | utilities/SimpleRTK/Code/Common/src/srtkProcessObject.cxx:514-543 | registering a record and then removing it restores the records and the process's observers |
| SrtkProcessObject.AddObserverKeepsValid | utilities/SimpleRTK/Code/Common/src/srtkProcessObject.cxx:514-531 | registration keeps every tagged record registered under a distinct tag |
| SrtkProcessObject.RemoveObserverKeepsValid | utilities/SimpleRTK/Code/Common/src/srtkProcessObject.cxx:533-543 | removal keeps every tagged record registered under a distinct tag |
| SrtkProcessObject.AddCommand | utilities/SimpleRTK/Code/Common/src/srtkProcessObject.cxx:292-310 | exactly one record for the event and command is appended; without an active process it has the sentinel tag; with one, on success it gets the process's next tag and is registered with it; the call returns 0 and throws only for an unknown event while a process is active |
| SrtkProcessObject.AddCommandKeepsValid | utilities/SimpleRTK/Code/Common/src/srtkProcessObject.cxx:292-310 | adding a command keeps the bookkeeping invariant, whether or not it throws |
| SrtkProcessObject.HasCommand | utilities/SimpleRTK/Code/Common/src/srtkProcessObject.cxx:341-353 | true exactly when some record is for the event |
| SrtkProcessObject.WithoutCounts | utilities/SimpleRTK/Code/Common/src/srtkProcessObject.cxx:491-512 | dropping a command's records removes every record for it and keeps each other record as often as it occurred |
| SrtkProcessObject.Without | utilities/SimpleRTK/Code/Common/src/srtkProcessObject.cxx:495-511 | no record for the deleted command is left, and the list never grows |
| SrtkProcessObject.WithoutUnchanged | utilities/SimpleRTK/Code/Common/src/srtkProcessObject.cxx:495-511 | a list with no record for the command is left as it is |
| SrtkProcessObject.WithoutSubset | utilities/SimpleRTK/Code/Common/src/srtkProcessObject.cxx:495-511 | every record left was in the list and is not for the command; distinct tags stay distinct |
| SrtkProcessObject.OnCommandDelete | utilities/SimpleRTK/Code/Common/src/srtkProcessObject.cxx:491-512 | the records left are those not for the deleted command, in their original order; the tagged records of the deleted command are unregistered from the active process and nothing else about it changes; the bookkeeping invariant is kept |
| SrtkProcessObject.OnCommandDeleteKeepsValid | utilities/SimpleRTK/Code/Common/src/srtkProcessObject.cxx:491-512 | dropping a command's records and unregistering their tags keeps every remaining tagged record registered under a distinct tag |
| SrtkProcessObject.RemoveAllCommands | utilities/SimpleRTK/Code/Common/src/srtkProcessObject.cxx:313-338 | the list ends empty; while a process is active exactly the records' tags leave it and nothing else about it changes; the bookkeeping invariant is kept; each distinct command is notified exactly once |
| SrtkProcessObject.GetProgress | utilities/SimpleRTK/Code/Common/src/srtkProcessObject.cxx:356-363 | the active process's progress while one runs, else the stored measurement |
| SrtkProcessObject.GetActiveProcess | utilities/SimpleRTK/Code/Common/src/srtkProcessObject.cxx:458-465 | returns the active process, and throws exactly when there is none |
| SrtkProcessObject.OnActiveProcessDelete | utilities/SimpleRTK/Code/Common/src/srtkProcessObject.cxx:468-488 | the process is forgotten, the saved progress is its progress (0 if none), and every record keeps its event and command with the sentinel tag |
| SrtkProcessObject.ProgressSurvivesDeletion | utilities/SimpleRTK/Code/Common/src/srtkProcessObject.cxx:468-488 | the progress reported after the active process dies is the progress it had; the state after deletion satisfies the invariant |
| SrtkProcessObject.RegisterFrom | utilities/SimpleRTK/Code/Common/src/srtkProcessObject.cxx:392-397 | registering records in order succeeds exactly when each remaining record has the sentinel tag and a known event; the list keeps its length |
| SrtkProcessObject.RegisterFromFrame | utilities/SimpleRTK/Code/Common/src/srtkProcessObject.cxx:392-397 | registration keeps the process's existing observers, progress and thread count, keeps its tags below the counter, and leaves earlier records alone |
| SrtkProcessObject.RegisterFromKeepsValid | utilities/SimpleRTK/Code/Common/src/srtkProcessObject.cxx:392-397 | registration keeps the bookkeeping invariant |
| SrtkProcessObject.RegisterFromRegisters | utilities/SimpleRTK/Code/Common/src/srtkProcessObject.cxx:392-397 | on success every record from the starting one on is tagged and registered with the active process |
| SrtkProcessObject.PreUpdate | utilities/SimpleRTK/Code/Common/src/srtkProcessObject.cxx:375-411 | on success the process is active with the object's thread count and the deletion callback, keeps its own observers and progress, and every record is registered under a distinct tag; otherwise the active process is cleared; success happens exactly when every record is untagged and has a known event |
| SrtkCreateInterpolator.ConditionalCreateInterpolator | utilities/SimpleRTK/Code/BasicFilters/src/srtkCreateInterpolator.hxx:36-48 | the interpolator is built for basic pixel types and null otherwise |
| SrtkCreateInterpolator.CreateInterpolator | utilities/SimpleRTK/Code/BasicFilters/src/srtkCreateInterpolator.hxx:50-146 | nearest-neighbour and linear are always built; B-spline only for basic images; Gaussian has sigma 0.8·spacing and alpha 4; label Gaussian has sigma = spacing and alpha 1; windowed sinc has radius 5 and zero-flux Neumann boundaries; unknown values give null |
| SrtkCreateInterpolator.CreateInterpolatorKind | utilities/SimpleRTK/Code/BasicFilters/src/srtkCreateInterpolator.hxx:64-144 | an interpolator is built exactly for a known value whose pixel-type condition holds, and its kind (window included) is the one asked for |
| SrtkCreateInterpolator.GaussianReachesFurther | utilities/SimpleRTK/Code/BasicFilters/src/srtkCreateInterpolator.hxx:81-110 | the Gaussian kernel reaches sigma times alpha, 0.8 · 4 = 3.2 spacings, on every axis, the label Gaussian kernel 1 spacing: 3.2 times as far |
| SrtkImageSeriesReader.FileNamesRoundTrip | utilities/SimpleRTK/Code/IO/src/srtkImageSeriesReader.cxx:100-109 | the names read back are exactly the names last set; setting the current names changes nothing |
| SrtkImageSeriesReader.SetFileNames | utilities/SimpleRTK/Code/IO/src/srtkImageSeriesReader.cxx:100-104 | the reader then holds, and `GetFileNames` returns, exactly the names given |
| SrtkImageSeriesReader.Execute | utilities/SimpleRTK/Code/IO/src/srtkImageSeriesReader.cxx:111-145 | the series is read exactly when a reader is registered for its pixel type and series dimension; any series dimension other than 2 or 3 is an error reporting the file's own dimension; otherwise an unregistered pixel type is an error; a series that is read has the series dimension of the first file |
| SrtkImageSeriesReader.SeriesDimensionCases | utilities/SimpleRTK/Code/IO/src/srtkImageSeriesReader.cxx:119-134 | 1D files make a 2D series; 2D files and single-slice 3D files make a 3D series |
| SrtkImageSeriesReader.SeriesDimension | utilities/SimpleRTK/Code/IO/src/srtkImageSeriesReader.cxx:119-129 | a series has one more dimension than its first file, except that a 3D file one slice thick along axis 2 makes a 3D series |
| SrtkImageSeriesReader.ReadImage | utilities/SimpleRTK/Code/IO/src/srtkImageSeriesReader.cxx:36-40 | reading a list of names reads exactly those files, in the series dimension of the first |

## Left out

- The CUDA kernel `CUDA_forward_project` and the ray marching. Also the casts to single precision of the matrix, the box and the spacing, and the copies of the projection and volume sizes passed to the kernel. The model stops at the double-precision matrix over `real`.
- How the volume's physical-to-index matrix and the stack's index-to-physical matrix come from image metadata. They are inputs.
- CudaForwardProjection.GPUGenerateData: the kernel call records the source's 32-bit pointer offset and the full-width slice start side by side; the pointer arithmetic on `pin` and `pout` is not modelled. It requires the visited projections `iFirstProj .. iFirstProj + nProj - 1` to have geometry entries. This excludes a negative first index, which the source would convert to `unsigned int`. The 32-bit wrap of `iFirstProj + nProj` is not modelled.
- Reading the phase signal from a file in `SetSignalFilename` is file I/O. The signal is a given sequence.
- `GetSortingPermutation` is not part of this model. Its promise (a permutation of the signal's indices, sorted by phase) is the predicate `IsSortingPermutation`, assumed by the lemmas that need it.
- MVF interpolation, warped back-projection, the splat update itself, `DisconnectPipeline`, `GraftOutput` and the `ReleaseData` calls are ITK pipeline plumbing. An update is an opaque step that produces the next volume series. The scheduler's constructor and its displacement-field accessors are left out too.
- The numeric values of `log` in the lookup table. It is a parameter, and increasing only where a lemma assumes so. The conversions to the output pixel type are left out.
- ElektaSynergyLut.LutSize: computes `max - min + 1` in unbounded integers. The source's arithmetic in the pixel type's own width is not modelled; for 16-bit pixels the two agree. The `LutImageFilter` base class that applies the table is not part of this model.
- SrtkProcessObject: `ToString`, debug flags and printing, the global defaults (threads, tolerances, warnings), `Abort`, and the `SimpleAdaptorCommand` adapter are left out. So is the ITK side of `AddObserver`/`RemoveObserver`: the ITK process is a map from tags to observers. Tags come from a counter assumed never to reach the sentinel.
- The `srtk::Command` side of the registration (`AddProcessObject`/`RemoveProcessObject`, in srtkCommand.cxx) is not part of this model. `RemoveAllCommands` reports the commands it would notify.
- SrtkProcessObject.RemoveAllCommands: reports each distinct command once, in first-occurrence order. The source sorts the records by command address and notifies in that order.
- The initial tag of a new record (set by the `EventCommand` constructor, whose header is not part of this model) is taken to be the sentinel. This is what `AddCommand`'s registration check relies on.
- The destructor's call to `RemoveAllCommands` is covered by `RemoveAllCommands` itself.
- The interpolators' own behaviour (ITK classes). Only the descriptor chosen and its parameters are modelled.
- The GDCM series enumeration (`GetGDCMSeriesFileNames`, `GetGDCMSeriesIDs`), reading ImageIO metadata, the actual series read in `ExecuteInternal`, and `ToString`. The first file's pixel type, dimension and size along axis 2 are inputs. The set of non-label pixel types is a parameter.
- The cast filter, the single-file reader, the reader base, the series writer headers, the test helpers, the Varian HNC header and the quadric drawing constructor. They have no logic to model.

## Findings

| source | as written | input that shows it | evidently intended | confidence | as-written member | corrected member |
|---|---|---|---|---|---|---|
| code/rtkCudaForwardProjectionImageFilter.hxx:135-141 | `nPixelsPerProj * projectionOffset` multiplies an `unsigned int` by an `int`, so the slice offset added to the buffer pointers is taken modulo 2^32 | output buffered region of 2048×2048 pixels per projection starting at projection 0; projection 1024 should start at element 2^32, but its offset wraps to 0, the slice of projection 0 | a full-width offset `nPixelsPerProj·(iProj − bufferedIndex[2])`, which gives distinct projections disjoint slices | medium, not executed | CudaForwardProjection.SliceStartAsWrittenWraps | CudaForwardProjection.SlicesDisjoint |
