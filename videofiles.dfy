/** VideoFiles.cs: the names of the files one recording produces — the
    numbered `.ts` captures, then the `.concat` list, the muxed `.mp4` and
    the published `.mp4`. */
module Segments {
  import opened Common

  /** The fields VideoFiles.cs sets on a file record. A record built without
      a number keeps the integer default 0. */
  datatype VideoFileInfo = VideoFileInfo(baseFileName: string, exten: string, fileNumber: int, baseFilePath: string)

  /** The capture records expected after adding one file per path, in order. */
  function Captures(fileName: string, paths: seq<string>): (list: seq<VideoFileInfo>)
    ensures |list| == |paths|
    ensures forall i :: 0 <= i < |list| ==> list[i].fileNumber == i && list[i].baseFilePath == paths[i]
    ensures forall i :: 0 <= i < |list| ==> list[i].baseFileName == fileName && list[i].exten == ".ts"
  {
    seq(|paths|, i requires 0 <= i < |paths| => VideoFileInfo(fileName, ".ts", i, paths[i]))
  }

  /** Adding one more path extends the expected list by one record whose
      number is the old count. */
  lemma CapturesSnoc(fileName: string, paths: seq<string>, path: string)
    ensures Captures(fileName, paths + [path]) == Captures(fileName, paths) + [VideoFileInfo(fileName, ".ts", |paths|, path)]
  {
    var l := Captures(fileName, paths + [path]);
    var r := Captures(fileName, paths) + [VideoFileInfo(fileName, ".ts", |paths|, path)];
    assert |l| == |r|;
    forall i | 0 <= i < |l| ensures l[i] == r[i] {
      if i < |paths| {
        assert l[i] == VideoFileInfo(fileName, ".ts", i, paths[i]);
      }
    }
  }

  class VideoFiles {
    var fileName: string
    var fileCaptureList: seq<VideoFileInfo>
    var concatFile: Option<VideoFileInfo>
    var muxedFile: Option<VideoFileInfo>
    var publishedfile: Option<VideoFileInfo>
    var numberOfFiles: int
    /** The base paths passed to `AddCaptureFile` so far. */
    ghost var paths: seq<string>

    /** The count is the list's length and the list is exactly the records
        of the paths added so far. */
    ghost predicate Valid()
      reads this
    {
      numberOfFiles == |fileCaptureList| && fileCaptureList == Captures(fileName, paths)
    }

    /** The constructor: no capture files yet, no other files named. */
    constructor (fileName: string)
      ensures Valid()
      ensures this.fileName == fileName && fileCaptureList == [] && numberOfFiles == 0 && paths == []
      ensures concatFile == None && muxedFile == None && publishedfile == None
    {
      this.fileName := fileName;
      numberOfFiles := 0;
      fileCaptureList := [];
      concatFile := None;
      muxedFile := None;
      publishedfile := None;
      paths := [];
    }

    /** `CheckForDup`: when the file already exists on disk it is moved
      aside under a randomized name (the move and `renamed` are inputs); the
      new record is assigned to the local parameter only, so nothing of
      this object changes and the caller keeps the original record. */
    method CheckForDup(fileInfo: VideoFileInfo, fileExists: bool, renamed: VideoFileInfo)
      ensures unchanged(this)
    {
      var local := fileInfo;
      if fileExists {
        local := renamed;
      }
    }

    /** `AddCaptureFile`: appends and returns a `.ts` record numbered with
        the count before the call, and counts it; the duplicate check does
        not alter the record that is stored. */
    method AddCaptureFile(baseFilePath: string, fileExists: bool, renamed: VideoFileInfo) returns (fileInfo: VideoFileInfo)
      requires Valid()
      modifies this
      ensures Valid()
      ensures fileInfo == VideoFileInfo(fileName, ".ts", old(numberOfFiles), baseFilePath)
      ensures fileCaptureList == old(fileCaptureList) + [fileInfo]
      ensures numberOfFiles == old(numberOfFiles) + 1 && paths == old(paths) + [baseFilePath]
      ensures fileName == old(fileName) && concatFile == old(concatFile)
      ensures muxedFile == old(muxedFile) && publishedfile == old(publishedfile)
    {
      fileInfo := VideoFileInfo(fileName, ".ts", numberOfFiles, baseFilePath);
      numberOfFiles := numberOfFiles + 1;
      CheckForDup(fileInfo, fileExists, renamed);
      CapturesSnoc(fileName, paths, baseFilePath);
      fileCaptureList := fileCaptureList + [fileInfo];
      paths := paths + [baseFilePath];
    }

    /** `SetConcatFile`: names the `.concat` list file. */
    method SetConcatFile(baseFilePath: string, fileExists: bool, renamed: VideoFileInfo)
      modifies this
      ensures concatFile == Some(VideoFileInfo(fileName, ".concat", 0, baseFilePath))
      ensures fileName == old(fileName) && fileCaptureList == old(fileCaptureList) && numberOfFiles == old(numberOfFiles)
      ensures paths == old(paths) && muxedFile == old(muxedFile) && publishedfile == old(publishedfile)
    {
      concatFile := Some(VideoFileInfo(fileName, ".concat", 0, baseFilePath));
      CheckForDup(concatFile.value, fileExists, renamed);
    }

    /** `SetMuxedFile`: names the muxed `.mp4` file. */
    method SetMuxedFile(baseFilePath: string, fileExists: bool, renamed: VideoFileInfo)
      modifies this
      ensures muxedFile == Some(VideoFileInfo(fileName, ".mp4", 0, baseFilePath))
      ensures fileName == old(fileName) && fileCaptureList == old(fileCaptureList) && numberOfFiles == old(numberOfFiles)
      ensures paths == old(paths) && concatFile == old(concatFile) && publishedfile == old(publishedfile)
    {
      muxedFile := Some(VideoFileInfo(fileName, ".mp4", 0, baseFilePath));
      CheckForDup(muxedFile.value, fileExists, renamed);
    }

    /** `SetPublishedFile`: names the published `.mp4` file. */
    method SetPublishedFile(baseFilePath: string, fileExists: bool, renamed: VideoFileInfo)
      modifies this
      ensures publishedfile == Some(VideoFileInfo(fileName, ".mp4", 0, baseFilePath))
      ensures fileName == old(fileName) && fileCaptureList == old(fileCaptureList) && numberOfFiles == old(numberOfFiles)
      ensures paths == old(paths) && concatFile == old(concatFile) && muxedFile == old(muxedFile)
    {
      publishedfile := Some(VideoFileInfo(fileName, ".mp4", 0, baseFilePath));
      CheckForDup(publishedfile.value, fileExists, renamed);
    }
  }
}
