/** `FilePriority`, the download priority of one file of a torrent, and
    the label the macOS file list shows for it. */
module FilePriorities {
  import opened Outcomes

  datatype FilePriority = Low | Normal | High {

    /** The enum's `Int` raw value. */
    function RawValue(): int {
      match this
      case Low => -1
      case Normal => 0
      case High => 1
    }

    /** `displayText`. */
    function DisplayText(): string {
      match this
      case Low => "Low"
      case Normal => "Normal"
      case High => "High"
    }
  }

  /** `FilePriority(rawValue:)`: a priority for -1, 0 and 1, `nil` for any
      other integer. */
  function FromRawValue(raw: int): (p: Option<FilePriority>)
    ensures p.Some? <==> raw in {-1, 0, 1}
    ensures p.Some? ==> p.value.RawValue() == raw
  {
    if raw == -1 then Some(Low)
    else if raw == 0 then Some(Normal)
    else if raw == 1 then Some(High)
    else None
  }

  /** Reading a priority's raw value back gives the same priority. */
  lemma RawValueRoundTrip(p: FilePriority)
    ensures FromRawValue(p.RawValue()) == Some(p)
  {
  }

  /** The three display texts are different. */
  lemma DisplayTextDistinct(p: FilePriority, q: FilePriority)
    ensures p.DisplayText() == q.DisplayText() <==> p == q
  {
    if p != q {
      assert p.DisplayText()[0] != q.DisplayText()[0];
    }
  }

  /** The file list's priority label: `Skip` for a file that is not wanted,
      otherwise the priority's text, an unknown raw value counting as
      normal. */
  function PriorityLabel(rawPriority: int, wanted: bool): (text: string)
    ensures text == "Skip" <==> !wanted
    ensures wanted && rawPriority !in {-1, 0, 1} ==> text == "Normal"
    ensures wanted ==> exists p: FilePriority :: text == p.DisplayText()
  {
    var priority := match FromRawValue(rawPriority)
      case Some(p) => p
      case None => Normal;
    if wanted then priority.DisplayText() else "Skip"
  }

  /** A wanted file's label names the priority its raw value stands for. */
  lemma PriorityLabelOfWanted(p: FilePriority)
    ensures PriorityLabel(p.RawValue(), true) == p.DisplayText()
  {
  }
}
