/** The decision `ImageSeriesReader::Execute` makes before reading: the
    dimension of the image a series of files makes and whether a reader is
    registered for it and the pixel type, plus the file-name accessors.
    What ImageIO reports about the first file is a parameter. */
module SrtkImageSeriesReader {

  datatype PixelId = UnknownPixel | PixelType(code: int)

  /** What ImageIO reports about the first file of the series. */
  datatype FileInfo = FileInfo(pixelType: PixelId, dimension: nat, sizeAlongAxis2: nat)

  datatype SeriesReader = SeriesReader(fileNames: seq<string>)

  function SetFileNames(reader: SeriesReader, fileNames: seq<string>): (r: SeriesReader)
    ensures r.fileNames == fileNames && GetFileNames(r) == fileNames
  {
    reader.(fileNames := fileNames)
  }

  function GetFileNames(reader: SeriesReader): seq<string> {
    reader.fileNames
  }

  /** The names read back are the names last set. */
  lemma FileNamesRoundTrip(reader: SeriesReader, a: seq<string>, b: seq<string>)
    ensures GetFileNames(SetFileNames(reader, a)) == a
    ensures SetFileNames(SetFileNames(reader, a), b) == SetFileNames(reader, b)
    ensures SetFileNames(reader, GetFileNames(reader)) == reader
  {
  }

  /** Readers are registered for the non-label pixel types (`nonLabel`, by
      code) in dimensions 2 and 3 only. */
  predicate HasMemberFunction(nonLabel: set<int>, t: PixelId, dimension: nat) {
    t.PixelType? && t.code in nonLabel && (dimension == 2 || dimension == 3)
  }

  /** One more dimension than a file, except that a 3D file one slice thick
      along axis 2 makes a 3D series. */
  function SeriesDimension(info: FileInfo): (d: nat)
    ensures info.dimension == 3 && info.sizeAlongAxis2 == 1 ==> d == 3
    ensures !(info.dimension == 3 && info.sizeAlongAxis2 == 1) ==> d == info.dimension + 1
    ensures d >= 1
  {
    var dimension := info.dimension + 1;
    if dimension == 4 && info.sizeAlongAxis2 == 1 then 3 else dimension
  }

  datatype ExecuteOutcome =
    | ReadSeries(pixelType: PixelId, dimension: nat, fileNames: seq<string>)
    | UnsupportedDimension(reported: int)
    | UnsupportedPixelType(pixelType: PixelId)

  function Execute(reader: SeriesReader, first: FileInfo, nonLabel: set<int>): (r: ExecuteOutcome)
    requires |reader.fileNames| > 0
    ensures r.ReadSeries? ==> HasMemberFunction(nonLabel, r.pixelType, r.dimension)
    ensures r.ReadSeries? ==> r.pixelType == first.pixelType && r.fileNames == reader.fileNames
    ensures r.ReadSeries? ==> r.dimension == SeriesDimension(first)
    ensures r.ReadSeries? <==> HasMemberFunction(nonLabel, first.pixelType, SeriesDimension(first))
    ensures r.UnsupportedDimension? <==> SeriesDimension(first) != 2 && SeriesDimension(first) != 3
    ensures r.UnsupportedDimension? ==> r.reported == first.dimension
  {
    var dimension := SeriesDimension(first);
    if dimension != 2 && dimension != 3 then
      UnsupportedDimension(dimension - 1)
    else if !HasMemberFunction(nonLabel, first.pixelType, dimension) then
      UnsupportedPixelType(first.pixelType)
    else
      ReadSeries(first.pixelType, dimension, reader.fileNames)
  }

  /** The files a series can be read from: 1D files make 2D images, 2D files
      and single-slice 3D files make 3D images, nothing else is supported. */
  lemma SeriesDimensionCases(info: FileInfo)
    ensures SeriesDimension(info) == 2 <==> info.dimension == 1
    ensures SeriesDimension(info) == 3 <==> info.dimension == 2 || (info.dimension == 3 && info.sizeAlongAxis2 == 1)
  {
  }

  /** `ReadImage`: a fresh reader given the file names, then executed. */
  function ReadImage(fileNames: seq<string>, first: FileInfo, nonLabel: set<int>): (r: ExecuteOutcome)
    requires |fileNames| > 0
    ensures r.ReadSeries? ==> r.fileNames == fileNames && r.dimension == SeriesDimension(first)
  {
    Execute(SetFileNames(SeriesReader([]), fileNames), first, nonLabel)
  }
}
