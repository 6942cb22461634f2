/** Names of the objects the create handlers put in the storage bucket:
    `${Date.now()}.${fileExt}`, where `fileExt` is `file.name.split(".").pop()`. */
module ObjectNames {
  import opened JsText

  /** The one bucket both handlers upload to. */
  const BucketName: string := "skillplus"

  /** `file.name.split(".").pop()`: a dotless suffix of the name, all of it when it has no dot. */
  function FileExtension(fileName: string): (r: string)
    ensures '.' !in r && |r| <= |fileName| && r == fileName[|fileName| - |r|..]
    ensures '.' !in fileName ==> r == fileName
  {
    var r := LastSegment(fileName);
    if '.' in fileName then r else LastSegmentOfDotless(fileName); r
  }

  /** `${now}.${fileExt}`, `now` being the clock in milliseconds: it starts with a digit and
      ends with a dot followed by the extension. */
  function TimestampedName(now: nat, fileName: string): (r: string)
    ensures |r| >= 2 && IsDigit(r[0])
    ensures var e := FileExtension(fileName);
            |r| > |e| && r[|r| - |e|..] == e && r[|r| - |e| - 1] == '.'
  {
    var d, e := DecimalString(now), FileExtension(fileName);
    var r := d + "." + e;
    assert r[0] == d[0];
    assert r[|r| - |e|..] == e;
    r
  }

  /** The path of a mentor photo: `mentors/${now}.${fileExt}`, under the `mentors/` folder. */
  function MentorPhotoPath(now: nat, fileName: string): (r: string)
    ensures |r| > 8 && r[..8] == "mentors/" && IsDigit(r[8])
  {
    var t := TimestampedName(now, fileName);
    assert ("mentors/" + t)[8] == t[0];
    "mentors/" + t
  }

  /** The name keeps the file's extension: the text after its last dot is the extension
      of the uploaded file, or the whole file name when that has no dot. */
  lemma TimestampedNameExtension(now: nat, fileName: string)
    ensures LastSegment(TimestampedName(now, fileName)) == FileExtension(fileName)
    ensures '.' !in fileName ==> FileExtension(fileName) == fileName
  {
    LastSegmentAfterDot(DecimalString(now), FileExtension(fileName));
    if '.' !in fileName {
      LastSegmentOfDotless(fileName);
    }
  }

  /** The name determines both the clock value and the extension: uploads made at
      different clock values never ask for the same object name. */
  lemma TimestampedNameInjective(m: nat, a: string, n: nat, b: string)
    requires TimestampedName(m, a) == TimestampedName(n, b)
    ensures m == n && FileExtension(a) == FileExtension(b)
  {
    SplitAtFirstDot(DecimalString(m), FileExtension(a), DecimalString(n), FileExtension(b));
    DecimalStringInjective(m, n);
  }

  /** A mentor photo path never names a course thumbnail: the one starts with `m`, the
      other with a digit. */
  lemma MentorPathIsNoThumbnailName(now: nat, fileName: string, now': nat, fileName': string)
    ensures MentorPhotoPath(now, fileName) != TimestampedName(now', fileName')
  {
    assert MentorPhotoPath(now, fileName)[0] == 'm';
    assert TimestampedName(now', fileName')[0] == DecimalString(now')[0];
  }

  /** Two mentor photo paths are equal only for the same clock value and extension. */
  lemma MentorPhotoPathInjective(m: nat, a: string, n: nat, b: string)
    requires MentorPhotoPath(m, a) == MentorPhotoPath(n, b)
    ensures m == n && FileExtension(a) == FileExtension(b)
  {
    var p := "mentors/";
    assert TimestampedName(m, a) == MentorPhotoPath(m, a)[|p|..];
    assert TimestampedName(n, b) == MentorPhotoPath(n, b)[|p|..];
    TimestampedNameInjective(m, a, n, b);
  }
}
