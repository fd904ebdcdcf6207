/** `parseTorrentInfo` and the `TorrentInfo` record it builds from the raw
    bytes of a `.torrent` file. */
module TorrentMetadata {
  import opened Outcomes
  import opened SwiftText
  import opened Metainfo

  /** `TorrentInfo`: the torrent's name, the sum of its file lengths and the
      number of files. */
  datatype TorrentInfo = TorrentInfo(name: string, totalSize: int, fileCount: nat)

  /** The text of the `files` key of a multi-file info dictionary. */
  const FilesPattern: string := "5:files"

  /** `TorrentInfo.fileCountText`: `1 file`, or the count and `files`. */
  function FileCountText(fileCount: nat): (text: string)
    ensures text == "1 file" <==> fileCount == 1
  {
    if fileCount == 1 then "1 file" else DecimalString(fileCount) + " files"
  }

  /** The text is the count's digits and the right noun, so the count can be
      read back from it. */
  lemma FileCountTextReadsBack(fileCount: nat)
    ensures var text := FileCountText(fileCount);
      var noun := if fileCount == 1 then " file" else " files";
      |noun| < |text| && text[|text| - |noun|..] == noun &&
      AllDigits(text[..|text| - |noun|]) && DigitsValue(text[..|text| - |noun|]) == fileCount &&
      (|text| - |noun| == 1 || text[0] != '0')
  {
    var text := FileCountText(fileCount);
    if fileCount == 1 {
      assert text[..1] == [DigitChar(1)];
    } else {
      assert text[..|text| - 6] == DecimalString(fileCount);
    }
  }

  /** Different counts give different texts. */
  lemma FileCountTextInjective(a: nat, b: nat)
    requires FileCountText(a) == FileCountText(b)
    ensures a == b
  {
    FileCountTextReadsBack(a);
    FileCountTextReadsBack(b);
  }

  /** `parseTorrentInfo`: `nil` without a name; the multi-file scan when
      `5:files` occurs anywhere in the data; otherwise the single-file
      `length` with one file, or `nil` when that does not parse. It traps
      where the name reader traps (a negative declared length) and where the
      multi-file scan traps (an overflowing sum), and nowhere else. */
  function TorrentInfoOf(data: string): (r: Run<Option<TorrentInfo>>)
    ensures ParseBencodeString(data, "name") == Returned(None) ==> r == Returned(None)
    ensures r.Returned? && r.value.Some? ==> ParseBencodeString(data, "name") == Returned(Some(r.value.value.name))
    ensures r.Trapped? <==>
      ParseBencodeString(data, "name").Trapped? ||
      (ParseBencodeString(data, "name").Returned? && ParseBencodeString(data, "name").value.Some? &&
       FirstMatch(FilesPattern, data).Some? && MultiFileTotals(data).Trapped?)
  {
    match ParseBencodeString(data, "name")
    case Trapped => Trapped
    case Returned(None) => Returned(None)
    case Returned(Some(name)) =>
      if FirstMatch(FilesPattern, data).Some? then
        match MultiFileTotals(data)
        case Trapped => Trapped
        case Returned(totals) => Returned(Some(TorrentInfo(name, totals.totalSize, totals.fileCount)))
      else
        match ParseBencodeInteger(data, "length")
        case None => Returned(None)
        case Some(length) => Returned(Some(TorrentInfo(name, length, 1)))
  }

  /** `parseTorrentInfo` with the name read as its documentation describes
      it: a name that cannot be read, a negative declared length included,
      gives `nil`, so only an overflowing multi-file sum can trap. Wherever
      the name reader does not trap it agrees with `TorrentInfoOf`. */
  function TorrentInfoOfChecked(data: string): (r: Run<Option<TorrentInfo>>)
    ensures r.Trapped? ==> FirstMatch(FilesPattern, data).Some? && MultiFileTotals(data).Trapped?
    ensures ParseBencodeStringChecked(data, "name").None? ==> r == Returned(None)
    ensures ParseBencodeString(data, "name").Returned? ==> r == TorrentInfoOf(data)
  {
    match ParseBencodeStringChecked(data, "name")
    case None => Returned(None)
    case Some(name) => TorrentInfoOf(data)
  }

  /** The data `4:name-1:` declares a negative name length: the source
      traps, the checked reading gives `nil`. */
  lemma NegativeNameLengthTraps()
    ensures TorrentInfoOf("4:name-1:") == Trapped
    ensures TorrentInfoOfChecked("4:name-1:") == Returned(None)
  {
    NegativeLengthTraps();
  }

  /** A `TorrentInfo` always holds a 64-bit total, and either one file or no
      more files than an eleventh of the data. */
  lemma TorrentInfoBounds(data: string)
    ensures var r := TorrentInfoOf(data);
      r.Returned? && r.value.Some? ==>
        InInt64(r.value.value.totalSize) &&
        (r.value.value.fileCount == 1 || (|LengthPattern| + 2) * r.value.value.fileCount <= |data| + 1)
  {
    MultiFileTotalsBounds(data);
  }

  /** `5:files` anywhere in the data, even inside another value such as the
      `pieces` hashes, sends the parse down the multi-file path. */
  lemma FilesAnywhereMeansMultiFile(data: string, i: nat, name: string)
    requires MatchAt(FilesPattern, data, i)
    requires ParseBencodeString(data, "name") == Returned(Some(name))
    ensures TorrentInfoOf(data) ==
      match MultiFileTotals(data)
      case Trapped => Trapped
      case Returned(totals) => Returned(Some(TorrentInfo(name, totals.totalSize, totals.fileCount)))
  {
    FirstMatchIsLeast(FilesPattern, data);
  }

  /** The single-file key `6:lengthi` is the scanner's length pattern. */
  lemma LengthKeyPattern()
    ensures KeyPattern("length") + "i" == LengthPattern
  {
    assert DecimalString(6) == "6";
  }

  /** Without `5:files`, the first `6:lengthi` followed by a text `t`
      without `e` and then `e` gives a one-file torrent of size `Int64(t)`,
      or no `TorrentInfo` when `t` does not parse. */
  lemma SingleFileInfo(prefix: string, t: string, suffix: string, name: string)
    requires forall k :: 0 <= k < |t| ==> t[k] != 'e'
    requires forall i :: 0 <= i < |prefix| ==>
      !MatchAt(LengthPattern, prefix + LengthPattern + t + "e" + suffix, i)
    requires forall i :: !MatchAt(FilesPattern, prefix + LengthPattern + t + "e" + suffix, i)
    requires ParseBencodeString(prefix + LengthPattern + t + "e" + suffix, "name") == Returned(Some(name))
    ensures TorrentInfoOf(prefix + LengthPattern + t + "e" + suffix) ==
      match ParseInt64(t)
      case None => Returned(None)
      case Some(n) => Returned(Some(TorrentInfo(name, n, 1)))
  {
    var data := prefix + LengthPattern + t + "e" + suffix;
    LengthKeyPattern();
    FirstMatchIsLeast(FilesPattern, data);
    ParseBencodeIntegerAt(prefix, "length", t, suffix);
  }

  /** A files list whose entries hold any text without `e`, separated by
      text free of `6:lengthi`, with a readable name and `5:files`
      somewhere, gives the sum and the number of the entries whose text
      `Int64(_:)` accepts, or traps when a running sum overflows. */
  lemma MultiFileInfo(fillers: seq<string>, texts: seq<string>, name: string)
    requires |fillers| == |texts| + 1
    requires forall filler :: filler in fillers ==> LengthKeyFree(filler)
    requires forall t :: t in texts ==> LacksE(t)
    requires ParseBencodeString(FilesText(fillers, texts), "name") == Returned(Some(name))
    requires FirstMatch(FilesPattern, FilesText(fillers, texts)).Some?
    ensures var lengths := ParsedLengths(texts);
      TorrentInfoOf(FilesText(fillers, texts)) ==
        if AddLengths(lengths, 0, 0).Trapped? then Trapped
        else Returned(Some(TorrentInfo(name, Sum(lengths), |lengths|)))
  {
    MultiFileLengths(fillers, texts);
  }

  /** Without `5:files` and without a readable `length`, there is no
      `TorrentInfo`, unless reading the name already trapped. */
  lemma SingleFileNeedsLength(data: string)
    requires forall i :: !MatchAt(FilesPattern, data, i)
    requires ParseBencodeInteger(data, "length").None?
    ensures TorrentInfoOf(data) == if ParseBencodeString(data, "name").Trapped? then Trapped else Returned(None)
  {
    FirstMatchIsLeast(FilesPattern, data);
  }
}
