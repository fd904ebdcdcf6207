/** The torrent metainfo scanner: byte-pattern searches over the raw
    `.torrent` data that pull out the name, the total size and the number of
    files. It does not decode bencoding; it looks for the first place where
    the text of a key appears. The data is ISO Latin-1 text, one character
    per byte, so a byte offset and a character offset are the same. */
module Metainfo {
  import opened Outcomes
  import opened SwiftText

  /** `pattern` occurs in `data` starting at index `i`. */
  ghost predicate MatchAt(pattern: string, data: string, i: int) {
    0 <= i && i + |pattern| <= |data| && data[i..i + |pattern|] == pattern
  }

  function FirstMatchFrom(pattern: string, data: string, from: nat): (r: Option<nat>)
    ensures r.Some? ==> from <= r.value && r.value + |pattern| <= |data|
    decreases |data| - from
  {
    if from + |pattern| > |data| then None
    else if data[from..from + |pattern|] == pattern then Some(from)
    else FirstMatchFrom(pattern, data, from + 1)
  }

  /** The first occurrence of `pattern` in `data`, or `nil`. It is what
      `String.range(of:)`, `firstIndex(of:)` and the scanner's own
      `findPattern` compute; `FirstMatchIsLeast` says which index it is. */
  function FirstMatch(pattern: string, data: string): (r: Option<nat>)
    ensures r.Some? ==> r.value + |pattern| <= |data|
    ensures |pattern| > |data| ==> r.None?
  {
    FirstMatchFrom(pattern, data, 0)
  }

  lemma {:induction false} FirstMatchFromIsLeast(pattern: string, data: string, from: nat)
    ensures var r := FirstMatchFrom(pattern, data, from);
      (r.Some? ==> MatchAt(pattern, data, r.value)) &&
      forall i :: from <= i && (r.None? || i < r.value) ==> !MatchAt(pattern, data, i)
    decreases |data| - from
  {
    if from + |pattern| <= |data| && data[from..from + |pattern|] != pattern {
      FirstMatchFromIsLeast(pattern, data, from + 1);
    }
  }

  /** The search finds the least index where the pattern occurs, and finds
      nothing exactly when it occurs nowhere. */
  lemma FirstMatchIsLeast(pattern: string, data: string)
    ensures var r := FirstMatch(pattern, data);
      (r.Some? ==> MatchAt(pattern, data, r.value)) &&
      (r.Some? ==> forall i :: 0 <= i < r.value ==> !MatchAt(pattern, data, i)) &&
      (r.None? <==> forall i :: !MatchAt(pattern, data, i))
  {
    FirstMatchFromIsLeast(pattern, data, 0);
  }

  /** The first match is the least matching index. */
  lemma FirstMatchAt(pattern: string, data: string, i: nat)
    requires MatchAt(pattern, data, i)
    requires forall k :: 0 <= k < i ==> !MatchAt(pattern, data, k)
    ensures FirstMatch(pattern, data) == Some(i)
  {
    FirstMatchIsLeast(pattern, data);
  }

  /** `findPattern`: the naive search with a `found` flag, as the source writes it. */
  method FindPattern(pattern: string, data: string) returns (r: Option<nat>)
    ensures r == FirstMatch(pattern, data)
  {
    if |pattern| > |data| {
      return None;
    }
    for i := 0 to |data| - |pattern| + 1
      invariant forall k :: 0 <= k < i ==> !MatchAt(pattern, data, k)
    {
      var found := true;
      ghost var mismatch := 0;
      for j := 0 to |pattern|
        invariant found
        invariant forall k :: 0 <= k < j ==> data[i + k] == pattern[k]
      {
        if data[i + j] != pattern[j] {
          found := false;
          mismatch := j;
          break;
        }
      }
      if found {
        assert data[i..i + |pattern|] == pattern;
        FirstMatchAt(pattern, data, i);
        return Some(i);
      }
      assert data[i..i + |pattern|][mismatch] != pattern[mismatch];
    }
    FirstMatchIsLeast(pattern, data);
    return None;
  }

  /** `"\(key.count):\(key)"`, the text a bencoded dictionary key starts with. */
  function KeyPattern(key: string): string {
    DecimalString(|key|) + ":" + key
  }

  /** What `parseBencodeString` does with the text after the key: read up
      to the first colon as a length, then take that many characters after
      the colon. A negative length passes the "enough characters" guard and
      then traps when the range of the value is formed. */
  function ReadStringValue(afterKey: string): (r: Run<Option<string>>)
    ensures r.Returned? && r.value.Some? ==> |r.value.value| < |afterKey|
  {
    match FirstMatch(":", afterKey)
    case None => Returned(None)
    case Some(colonIndex) =>
      match ParseInt64(afterKey[..colonIndex])
      case None => Returned(None)
      case Some(length) =>
        var valueStart := colonIndex + 1;
        if |afterKey| - valueStart < length then Returned(None)
        else if length < 0 then Trapped
        else Returned(Some(afterKey[valueStart..valueStart + length]))
  }

  /** `parseBencodeString`: the value after the first occurrence of the key. */
  function ParseBencodeString(data: string, key: string): (r: Run<Option<string>>)
    ensures FirstMatch(KeyPattern(key), data).None? ==> r == Returned(None)
    ensures r.Returned? && r.value.Some? ==> |r.value.value| < |data|
  {
    var keyPattern := KeyPattern(key);
    match FirstMatch(keyPattern, data)
    case None => Returned(None)
    case Some(at) => ReadStringValue(data[at + |keyPattern|..])
  }

  /** What `parseBencodeInteger` does with the text after the key and `i`:
      parse the text up to the first `e` as a 64-bit integer. */
  function ReadIntegerValue(afterKey: string): (r: Option<int>)
    ensures r.Some? ==> InInt64(r.value)
  {
    match FirstMatch("e", afterKey)
    case None => None
    case Some(eIndex) => ParseInt64(afterKey[..eIndex])
  }

  /** `parseBencodeInteger`: the integer after the first occurrence of the
      key followed by `i`. */
  function ParseBencodeInteger(data: string, key: string): (r: Option<int>)
    ensures r.Some? ==> InInt64(r.value)
    ensures FirstMatch(KeyPattern(key) + "i", data).None? ==> r == None
  {
    var keyPattern := KeyPattern(key) + "i";
    match FirstMatch(keyPattern, data)
    case None => None
    case Some(at) => ReadIntegerValue(data[at + |keyPattern|..])
  }

  /** A single-character pattern matches exactly where that character is. */
  lemma MatchAtChar(c: char, data: string, i: nat)
    requires i < |data|
    ensures MatchAt([c], data, i) <==> data[i] == c
  {
    assert data[i..i + 1] == [data[i]];
  }

  /** A pattern placed after a prefix where it does not occur is found
      there, and what follows it is the rest. */
  lemma FirstMatchAfter(prefix: string, pattern: string, tail: string)
    requires forall i :: 0 <= i < |prefix| ==> !MatchAt(pattern, prefix + pattern + tail, i)
    ensures FirstMatch(pattern, prefix + pattern + tail) == Some(|prefix|)
    ensures (prefix + pattern + tail)[|prefix| + |pattern|..] == tail
  {
    var data := prefix + pattern + tail;
    assert data[|prefix|..|prefix| + |pattern|] == pattern;
    FirstMatchAt(pattern, data, |prefix|);
  }

  /** Text that `Int64(_:)` accepts holds only a sign and digits, so no
      other character `c` occurs in it. */
  lemma IntegerTextLacks(t: string, c: char)
    requires ParseInt64(t).Some?
    requires !IsDigit(c) && c != '-' && c != '+'
    ensures forall k :: 0 <= k < |t| ==> t[k] != c
  {
    ParseInt64Accepts(t);
  }

  /** The first `c` after text holding no `c` is the one placed there. */
  lemma FirstMatchAfterText(t: string, c: char, rest: string)
    requires forall k :: 0 <= k < |t| ==> t[k] != c
    ensures FirstMatch([c], t + [c] + rest) == Some(|t|)
    ensures (t + [c] + rest)[..|t|] == t
  {
    var data := t + [c] + rest;
    forall k | 0 <= k < |t|
      ensures !MatchAt([c], data, k)
    {
      MatchAtChar(c, data, k);
    }
    MatchAtChar(c, data, |t|);
    FirstMatchAt([c], data, |t|);
  }

  /** A text without `c` holds no match of `[c]`, so the search finds none. */
  lemma FirstMatchAbsent(c: char, data: string)
    requires forall k :: 0 <= k < |data| ==> data[k] != c
    ensures FirstMatch([c], data) == None
  {
    forall k | 0 <= k
      ensures !MatchAt([c], data, k)
    {
      if k < |data| {
        MatchAtChar(c, data, k);
      }
    }
    FirstMatchIsLeast([c], data);
  }

  /** With no colon after the key, there is no length and the value is `nil`. */
  lemma ReadStringValueNoColon(afterKey: string)
    requires forall k :: 0 <= k < |afterKey| ==> afterKey[k] != ':'
    ensures ReadStringValue(afterKey) == Returned(None)
  {
    FirstMatchAbsent(':', afterKey);
  }

  /** After the key, a text `t` without a colon, the colon and `rest`: `nil`
      when `Int(t)` is `nil` (so `05` and `+5` count as 5, `5x` as nothing);
      otherwise a length no longer than `rest` yields the first that many
      characters of `rest`, a longer one yields `nil`, and a negative one
      traps. */
  lemma ReadStringValueAt(t: string, rest: string)
    requires forall k :: 0 <= k < |t| ==> t[k] != ':'
    ensures ReadStringValue(t + ":" + rest) ==
      match ParseInt64(t)
      case None => Returned(None)
      case Some(n) =>
        if |rest| < n then Returned(None)
        else if n < 0 then Trapped
        else Returned(Some(rest[..n]))
  {
    var afterKey := t + ":" + rest;
    FirstMatchAfterText(t, ':', rest);
    if ParseInt64(t).Some? {
      var n := ParseInt64(t).value;
      if 0 <= n <= |rest| {
        assert afterKey[|t| + 1..|t| + 1 + n] == rest[..n];
      }
    }
  }

  /** Where the key occurs first in `data` and no colon follows it, the
      value is `nil`. */
  lemma ParseBencodeStringNoColon(prefix: string, key: string, tail: string)
    requires forall k :: 0 <= k < |tail| ==> tail[k] != ':'
    requires forall i :: 0 <= i < |prefix| ==> !MatchAt(KeyPattern(key), prefix + KeyPattern(key) + tail, i)
    ensures ParseBencodeString(prefix + KeyPattern(key) + tail, key) == Returned(None)
  {
    FirstMatchAfter(prefix, KeyPattern(key), tail);
    ReadStringValueNoColon(tail);
  }

  /** Where the key occurs first in `data`, followed by a text `t` without a
      colon, the colon and `rest`, the value is read from `Int(t)` and
      `rest` as `ReadStringValueAt` says. */
  lemma ParseBencodeStringAt(prefix: string, key: string, t: string, rest: string)
    requires forall k :: 0 <= k < |t| ==> t[k] != ':'
    requires forall i :: 0 <= i < |prefix| ==>
      !MatchAt(KeyPattern(key), prefix + KeyPattern(key) + t + ":" + rest, i)
    ensures ParseBencodeString(prefix + KeyPattern(key) + t + ":" + rest, key) ==
      match ParseInt64(t)
      case None => Returned(None)
      case Some(n) =>
        if |rest| < n then Returned(None)
        else if n < 0 then Trapped
        else Returned(Some(rest[..n]))
  {
    var afterKey := t + ":" + rest;
    assert prefix + KeyPattern(key) + t + ":" + rest == prefix + KeyPattern(key) + afterKey;
    FirstMatchAfter(prefix, KeyPattern(key), afterKey);
    ReadStringValueAt(t, rest);
  }

  /** A negative declared length makes `parseBencodeString` trap instead of
      returning `nil`: `4:name-1:` is such an input. */
  lemma NegativeLengthTraps()
    ensures ParseBencodeString("4:name-1:", "name") == Trapped
  {
    assert KeyPattern("name") == "4:name" by {
      assert DecimalString(4) == "4";
    }
    ParseSignedDecimal(-1);
    IntegerTextLacks(SignedDecimal(-1), ':');
    assert "4:name-1:" == "" + KeyPattern("name") + SignedDecimal(-1) + ":" + "";
    ParseBencodeStringAt("", "name", SignedDecimal(-1), "");
  }

  /** `parseBencodeString` as its documentation describes it: `nil` when the
      text cannot be parsed, a negative length included, and no trap. */
  function ParseBencodeStringChecked(data: string, key: string): (r: Option<string>)
    ensures ParseBencodeString(data, key).Returned? ==> r == ParseBencodeString(data, key).value
    ensures FirstMatch(KeyPattern(key), data).None? ==> r == None
  {
    match ParseBencodeString(data, key)
    case Trapped => None
    case Returned(value) => value
  }

  /** The checked reading yields the declared number of characters exactly
      when `Int(t)` reads a length between zero and what is left. */
  lemma ParseBencodeStringCheckedAt(prefix: string, key: string, t: string, rest: string)
    requires forall k :: 0 <= k < |t| ==> t[k] != ':'
    requires forall i :: 0 <= i < |prefix| ==>
      !MatchAt(KeyPattern(key), prefix + KeyPattern(key) + t + ":" + rest, i)
    ensures ParseBencodeStringChecked(prefix + KeyPattern(key) + t + ":" + rest, key) ==
      match ParseInt64(t)
      case None => None
      case Some(n) => if 0 <= n <= |rest| then Some(rest[..n]) else None
  {
    ParseBencodeStringAt(prefix, key, t, rest);
  }

  /** After the key and `i`, a text `t` without `e`, then `e`: the integer
      read is `Int64(t)`, so `007` reads as 7 and `7x` as `nil`. */
  lemma ReadIntegerValueAt(t: string, suffix: string)
    requires forall k :: 0 <= k < |t| ==> t[k] != 'e'
    ensures ReadIntegerValue(t + "e" + suffix) == ParseInt64(t)
  {
    FirstMatchAfterText(t, 'e', suffix);
  }

  /** Where the key followed by `i` occurs first in `data`, followed by a
      text `t` without `e` and then `e`, the integer read is `Int64(t)`. */
  lemma ParseBencodeIntegerAt(prefix: string, key: string, t: string, suffix: string)
    requires forall k :: 0 <= k < |t| ==> t[k] != 'e'
    requires forall i :: 0 <= i < |prefix| ==>
      !MatchAt(KeyPattern(key) + "i", prefix + (KeyPattern(key) + "i") + t + "e" + suffix, i)
    ensures ParseBencodeInteger(prefix + (KeyPattern(key) + "i") + t + "e" + suffix, key) == ParseInt64(t)
  {
    var afterKey := t + "e" + suffix;
    assert prefix + (KeyPattern(key) + "i") + t + "e" + suffix == prefix + (KeyPattern(key) + "i") + afterKey;
    FirstMatchAfter(prefix, KeyPattern(key) + "i", afterKey);
    ReadIntegerValueAt(t, suffix);
  }

  /** An integer with no `e` after it anywhere reads as `nil`. */
  lemma ParseBencodeIntegerUnterminated(prefix: string, key: string, tail: string)
    requires forall k :: 0 <= k < |tail| ==> tail[k] != 'e'
    requires forall i :: 0 <= i < |prefix| ==>
      !MatchAt(KeyPattern(key) + "i", prefix + KeyPattern(key) + "i" + tail, i)
    ensures ParseBencodeInteger(prefix + KeyPattern(key) + "i" + tail, key) == None
  {
    var keyPattern := KeyPattern(key) + "i";
    assert prefix + KeyPattern(key) + "i" + tail == prefix + keyPattern + tail;
    FirstMatchAfter(prefix, keyPattern, tail);
    FirstMatchAbsent('e', tail);
  }

  const LengthPattern: string := "6:lengthi"

  datatype Totals = Totals(totalSize: int, fileCount: nat)

  /** The first `e` at or after `from`, or the end of the data: where the
      inner loop of `parseMultiFileTorrent` stops. */
  function EndOfInteger(bytes: string, from: nat): (end: nat)
    requires from <= |bytes|
    ensures from <= end <= |bytes|
    ensures end < |bytes| ==> bytes[end] == 'e'
    decreases |bytes| - from
  {
    if from == |bytes| || bytes[from] == 'e' then from else EndOfInteger(bytes, from + 1)
  }

  /** One turn of the loop of `parseMultiFileTorrent`: no further
      `6:lengthi`, or an entry whose digits do not parse (skipped), or one
      whose digits parse to `length`; `next` is where the search resumes,
      just after the `e`. */
  datatype Step = Done | Skip(next: nat) | Add(next: nat, length: int)

  function StepAt(bytes: string, searchIndex: nat): (step: Step)
    requires searchIndex < |bytes|
    ensures !step.Done? ==> searchIndex < step.next <= |bytes| + 1
    ensures step.Add? ==> searchIndex + |LengthPattern| + 2 <= step.next <= |bytes|
  {
    match FirstMatch(LengthPattern, bytes[searchIndex..])
    case None => Done
    case Some(lengthIndex) =>
      var actualIndex := searchIndex + lengthIndex + |LengthPattern|;
      var endIndex := EndOfInteger(bytes, actualIndex);
      var parsed := if endIndex < |bytes| then ParseInt64(bytes[actualIndex..endIndex]) else None;
      match parsed
      case None => Skip(endIndex + 1)
      case Some(length) => Add(endIndex + 1, length)
  }

  /** The loop of `parseMultiFileTorrent` from `searchIndex` on, with the
      running sum and count; an Int64 overflow of the sum traps. */
  function ScanFrom(bytes: string, searchIndex: nat, totalSize: int, fileCount: nat): Run<Totals>
    decreases |bytes| + 1 - searchIndex, 1
  {
    if searchIndex >= |bytes| then Returned(Totals(totalSize, fileCount))
    else ScanStep(bytes, searchIndex, StepAt(bytes, searchIndex), totalSize, fileCount)
  }

  /** The rest of the scan once the turn at `searchIndex` has produced `step`. */
  function ScanStep(bytes: string, searchIndex: nat, step: Step, totalSize: int, fileCount: nat): Run<Totals>
    requires searchIndex <= |bytes|
    requires !step.Done? ==> searchIndex < step.next <= |bytes| + 1
    decreases |bytes| + 1 - searchIndex, 0
  {
    match step
    case Done => Returned(Totals(totalSize, fileCount))
    case Skip(next) => ScanFrom(bytes, next, totalSize, fileCount)
    case Add(next, length) =>
      if !InInt64(totalSize + length) then Trapped
      else ScanFrom(bytes, next, totalSize + length, fileCount + 1)
  }

  /** There is no `e` between `from` and `EndOfInteger`. */
  lemma {:induction false} EndOfIntegerSkipsNoE(bytes: string, from: nat)
    requires from <= |bytes|
    ensures forall k :: from <= k < EndOfInteger(bytes, from) ==> bytes[k] != 'e'
    decreases |bytes| - from
  {
    if from < |bytes| && bytes[from] != 'e' {
      EndOfIntegerSkipsNoE(bytes, from + 1);
    }
  }

  /** The inner loop's stopping point is the one `EndOfInteger` names. */
  lemma {:induction false} EndOfIntegerIsFirstE(bytes: string, from: nat, end: nat)
    requires from <= end <= |bytes|
    requires forall k :: from <= k < end ==> bytes[k] != 'e'
    requires end < |bytes| ==> bytes[end] == 'e'
    ensures EndOfInteger(bytes, from) == end
    decreases end - from
  {
    if from < end {
      EndOfIntegerIsFirstE(bytes, from + 1, end);
    }
  }

  /** The inner `while` of `parseMultiFileTorrent`: advance to the next `e`. */
  method SkipToE(bytes: string, from: nat) returns (end: nat)
    requires from <= |bytes|
    ensures end == EndOfInteger(bytes, from)
  {
    end := from;
    while end < |bytes| && bytes[end] != 'e'
      invariant from <= end <= |bytes|
      invariant forall k :: from <= k < end ==> bytes[k] != 'e'
    {
      end := end + 1;
    }
    EndOfIntegerIsFirstE(bytes, from, end);
  }

  /** What `parseMultiFileTorrent` returns: the scan from (0, 0) at index 0. */
  function MultiFileTotals(bytes: string): Run<Totals> {
    ScanFrom(bytes, 0, 0, 0)
  }

  /** A sum the scan returns fits in 64 bits, the count only grows, and every
      file counted used up at least eleven bytes (`6:lengthi`, a digit, `e`). */
  lemma {:induction false} ScanFromBounds(bytes: string, searchIndex: nat, totalSize: int, fileCount: nat)
    requires searchIndex <= |bytes| + 1
    requires InInt64(totalSize)
    ensures var r := ScanFrom(bytes, searchIndex, totalSize, fileCount);
      r.Returned? ==>
        InInt64(r.value.totalSize) && fileCount <= r.value.fileCount &&
        searchIndex + (|LengthPattern| + 2) * (r.value.fileCount - fileCount) <= |bytes| + 1
    decreases |bytes| + 1 - searchIndex, 1
  {
    if searchIndex < |bytes| {
      ScanStepBounds(bytes, searchIndex, StepAt(bytes, searchIndex), totalSize, fileCount);
    }
  }

  /** The same bounds for the rest of the scan after one turn. */
  lemma {:induction false} ScanStepBounds(bytes: string, searchIndex: nat, step: Step, totalSize: int, fileCount: nat)
    requires searchIndex <= |bytes|
    requires !step.Done? ==> searchIndex < step.next <= |bytes| + 1
    requires step.Add? ==> searchIndex + |LengthPattern| + 2 <= step.next
    requires InInt64(totalSize)
    ensures var r := ScanStep(bytes, searchIndex, step, totalSize, fileCount);
      r.Returned? ==>
        InInt64(r.value.totalSize) && fileCount <= r.value.fileCount &&
        searchIndex + (|LengthPattern| + 2) * (r.value.fileCount - fileCount) <= |bytes| + 1
    decreases |bytes| + 1 - searchIndex, 0
  {
    match step
    case Done =>
    case Skip(next) =>
      ScanFromBounds(bytes, next, totalSize, fileCount);
    case Add(next, length) =>
      if InInt64(totalSize + length) {
        ScanFromBounds(bytes, next, totalSize + length, fileCount + 1);
      }
  }

  /** `parseMultiFileTorrent`'s total fits in an `Int64` whenever it returns,
      and it never counts more files than an eleventh of the data. */
  lemma MultiFileTotalsBounds(bytes: string)
    ensures var r := MultiFileTotals(bytes);
      r.Returned? ==> InInt64(r.value.totalSize) && (|LengthPattern| + 2) * r.value.fileCount <= |bytes| + 1
  {
    ScanFromBounds(bytes, 0, 0, 0);
  }

  /** The text of one file's length in a `files` list: `6:lengthi`, the
      integer's text as written, then `e`. */
  function LengthEntry(t: string): string {
    LengthPattern + t + "e"
  }

  /** `t` holds no `e`, so the inner loop runs through all of it. */
  ghost predicate LacksE(t: string) {
    forall k :: 0 <= k < |t| ==> t[k] != 'e'
  }

  /** The lengths the loop adds up for entries with texts `texts`: the value
      of each text `Int64(_:)` accepts, in order; the other entries are
      skipped. */
  function ParsedLengths(texts: seq<string>): (r: seq<int>)
    ensures |r| <= |texts|
    ensures forall i :: 0 <= i < |r| ==> InInt64(r[i])
  {
    if |texts| == 0 then []
    else
      match ParseInt64(texts[0])
      case None => ParsedLengths(texts[1..])
      case Some(n) => [n] + ParsedLengths(texts[1..])
  }

  function Sum(lengths: seq<int>): int {
    if |lengths| == 0 then 0 else lengths[0] + Sum(lengths[1..])
  }

  /** Adding lengths one at a time into an `Int64` running total, trapping at
      the first overflow, and counting them. */
  function AddLengths(lengths: seq<int>, totalSize: int, fileCount: nat): (r: Run<Totals>)
    ensures r.Returned? ==> r.value == Totals(totalSize + Sum(lengths), fileCount + |lengths|)
  {
    if |lengths| == 0 then Returned(Totals(totalSize, fileCount))
    else if !InInt64(totalSize + lengths[0]) then Trapped
    else AddLengths(lengths[1..], totalSize + lengths[0], fileCount + 1)
  }

  lemma SumOfPrefix(lengths: seq<int>, k: nat)
    requires 0 < k <= |lengths|
    ensures Sum(lengths[..k]) == lengths[0] + Sum(lengths[1..][..k - 1])
  {
    assert lengths[..k][1..] == lengths[1..][..k - 1];
  }

  /** The running total traps exactly when some prefix sum leaves the
      64-bit range. */
  lemma {:induction false} AddLengthsTraps(lengths: seq<int>, totalSize: int, fileCount: nat)
    ensures AddLengths(lengths, totalSize, fileCount).Returned? <==>
      forall k :: 0 < k <= |lengths| ==> InInt64(totalSize + Sum(lengths[..k]))
    decreases |lengths|
  {
    if |lengths| > 0 {
      var rest := lengths[1..];
      var next := totalSize + lengths[0];
      AddLengthsTraps(rest, next, fileCount + 1);
      forall k | 0 < k <= |lengths|
        ensures totalSize + Sum(lengths[..k]) == next + Sum(rest[..k - 1])
      {
        SumOfPrefix(lengths, k);
      }
      assert rest[..0] == [];
      if forall k :: 0 < k <= |lengths| ==> InInt64(totalSize + Sum(lengths[..k])) {
        assert InInt64(totalSize + Sum(lengths[..1]));
        forall k | 0 < k <= |rest|
          ensures InInt64(next + Sum(rest[..k]))
        {
          assert InInt64(totalSize + Sum(lengths[..k + 1]));
        }
      }
    }
  }

  /** A piece of a slice that equals `part` equals the same piece of `part`. */
  lemma SliceOfPart(bytes: string, start: nat, part: string, i: nat, j: nat)
    requires start + |part| <= |bytes| && bytes[start..start + |part|] == part
    requires i <= j <= |part|
    ensures bytes[start + i..start + j] == part[i..j]
  {
    forall k | 0 <= k < j - i
      ensures bytes[start + i..start + j][k] == part[i..j][k]
    {
      assert bytes[start + i + k] == bytes[start..start + |part|][i + k];
    }
  }

  /** A length entry with text `t` sits at `start`: `6:lengthi`, `t`, then
      `e`. */
  ghost predicate EntryAt(bytes: string, start: nat, t: string) {
    var from := start + |LengthPattern|;
    var end := from + |t|;
    end < |bytes| && bytes[start..from] == LengthPattern && bytes[from..end] == t && bytes[end] == 'e'
  }

  /** The text of an entry, found in the data, is an entry there. */
  lemma EntryTextAt(bytes: string, start: nat, t: string)
    requires start + |LengthEntry(t)| <= |bytes|
    requires bytes[start..start + |LengthEntry(t)|] == LengthEntry(t)
    ensures EntryAt(bytes, start, t) && MatchAt(LengthPattern, bytes, start)
  {
    var entry := LengthEntry(t);
    var end := start + |LengthPattern| + |t|;
    assert entry[..|LengthPattern|] == LengthPattern;
    assert entry[|LengthPattern|..|LengthPattern| + |t|] == t;
    SliceOfPart(bytes, start, entry, 0, |LengthPattern|);
    SliceOfPart(bytes, start, entry, |LengthPattern|, |LengthPattern| + |t|);
    assert bytes[end] == entry[end - start];
  }

  /** The inner loop stops at the entry's closing `e`. */
  lemma EntryEnd(bytes: string, start: nat, t: string)
    requires EntryAt(bytes, start, t) && LacksE(t)
    ensures EndOfInteger(bytes, start + |LengthPattern|) == start + |LengthPattern| + |t|
  {
    var from := start + |LengthPattern|;
    var end := from + |t|;
    forall k | from <= k < end
      ensures bytes[k] != 'e'
    {
      assert bytes[k] == bytes[from..end][k - from];
    }
    EndOfIntegerIsFirstE(bytes, from, end);
  }

  /** `pattern` occurs in a suffix of `bytes` where it occurs in `bytes`. */
  lemma MatchInSuffix(pattern: string, bytes: string, start: nat, i: nat)
    requires start <= |bytes|
    ensures MatchAt(pattern, bytes[start..], i) <==> MatchAt(pattern, bytes, start + i)
  {
    if start + i + |pattern| <= |bytes| {
      assert bytes[start..][i..i + |pattern|] == bytes[start + i..start + i + |pattern|];
    }
  }

  lemma PatternCharAt(bytes: string, i: nat, k: nat)
    requires MatchAt(LengthPattern, bytes, i) && k < |LengthPattern|
    ensures bytes[i + k] == LengthPattern[k]
  {
    assert bytes[i + k] == bytes[i..i + |LengthPattern|][k];
  }

  /** Two occurrences of `6:lengthi` never overlap: its `6` occurs nowhere
      else in it. */
  lemma LengthPatternNoOverlap(bytes: string, i: nat, j: nat)
    requires MatchAt(LengthPattern, bytes, i) && MatchAt(LengthPattern, bytes, j)
    requires i < j
    ensures i + |LengthPattern| <= j
  {
    if j < i + |LengthPattern| {
      PatternCharAt(bytes, i, j - i);
      PatternCharAt(bytes, j, 0);
    }
  }

  /** No `6:lengthi` starts at an index from `from` up to, not including, `to`. */
  ghost predicate NoLengthKeyBetween(bytes: string, from: nat, to: nat) {
    forall i :: from <= i < to ==> !MatchAt(LengthPattern, bytes, i)
  }

  /** `6:lengthi` occurs nowhere in `text`. */
  ghost predicate LengthKeyFree(text: string) {
    forall i :: !MatchAt(LengthPattern, text, i)
  }

  /** The first `6:lengthi` at or after `start` is the one at `at` when
      none begins in between. */
  lemma FirstLengthKey(bytes: string, start: nat, at: nat)
    requires start <= at && NoLengthKeyBetween(bytes, start, at)
    requires MatchAt(LengthPattern, bytes, at)
    ensures FirstMatch(LengthPattern, bytes[start..]) == Some(at - start)
  {
    forall k | 0 <= k < at - start
      ensures !MatchAt(LengthPattern, bytes[start..], k)
    {
      MatchInSuffix(LengthPattern, bytes, start, k);
    }
    MatchInSuffix(LengthPattern, bytes, start, at - start);
    FirstMatchAt(LengthPattern, bytes[start..], at - start);
  }

  /** A turn of the loop whose search from `start` finds the `6:lengthi`
      of an entry with text `t` resumes just after the entry's `e`. It
      counts `Int64(t)` when that parses, and skips the entry otherwise. */
  lemma StepAtEntry(bytes: string, start: nat, at: nat, t: string)
    requires LacksE(t)
    requires start <= at && EntryAt(bytes, at, t)
    requires NoLengthKeyBetween(bytes, start, at)
    ensures start < |bytes|
    ensures ParseInt64(t).None? ==> StepAt(bytes, start) == Skip(at + |LengthEntry(t)|)
    ensures ParseInt64(t).Some? ==> StepAt(bytes, start) == Add(at + |LengthEntry(t)|, ParseInt64(t).value)
  {
    FirstLengthKey(bytes, start, at);
    EntryEnd(bytes, at, t);
  }

  /** A `files` list as the scanner sees it: `fillers[0]`, the entry with
      text `texts[0]`, `fillers[1]`, and so on, ending with the last filler.
      The fillers stand for everything else in the data: the text before the
      list, each file's `path` list and other keys, the text after it. */
  function FilesText(fillers: seq<string>, texts: seq<string>): string
    requires |fillers| == |texts| + 1
    decreases |texts|
  {
    if |texts| == 0 then fillers[0]
    else fillers[0] + LengthEntry(texts[0]) + FilesText(fillers[1..], texts[1..])
  }

  /** Text holding a non-empty files list starts with the first filler and
      the first entry, followed by the rest of the list. */
  lemma {:induction false} FilesTextSplit(bytes: string, start: nat, fillers: seq<string>, texts: seq<string>)
    requires |fillers| == |texts| + 1 && |texts| > 0
    requires start <= |bytes| && bytes[start..] == FilesText(fillers, texts)
    ensures var at := start + |fillers[0]|;
      at + |LengthEntry(texts[0])| <= |bytes| &&
      bytes[start..at] == fillers[0] &&
      bytes[at..at + |LengthEntry(texts[0])|] == LengthEntry(texts[0]) &&
      bytes[at + |LengthEntry(texts[0])|..] == FilesText(fillers[1..], texts[1..])
  {
    var filler, entry := fillers[0], LengthEntry(texts[0]);
    var rest := FilesText(fillers[1..], texts[1..]);
    assert bytes[start..] == filler + entry + rest;
    assert bytes[start..][..|filler|] == filler;
    assert bytes[start..][|filler|..|filler| + |entry|] == entry;
    assert bytes[start..][|filler| + |entry|..] == rest;
  }

  /** A filler free of `6:lengthi`, found in the data, holds no
      `6:lengthi` that ends inside it. */
  lemma FillerHasNoKey(bytes: string, start: nat, filler: string)
    requires start + |filler| <= |bytes| && bytes[start..start + |filler|] == filler
    requires LengthKeyFree(filler)
    ensures forall i :: start <= i && i + |LengthPattern| <= start + |filler| ==> !MatchAt(LengthPattern, bytes, i)
  {
    forall i | start <= i && i + |LengthPattern| <= start + |filler|
      ensures !MatchAt(LengthPattern, bytes, i)
    {
      SliceOfPart(bytes, start, filler, i - start, i - start + |LengthPattern|);
      assert !MatchAt(LengthPattern, filler, i - start);
    }
  }

  /** No `6:lengthi` begins in a filler followed by one: not inside the
      filler, and not running on into the one after it, because two
      occurrences never overlap. */
  lemma FillerBeforeKey(bytes: string, start: nat, filler: string)
    requires start + |filler| <= |bytes| && bytes[start..start + |filler|] == filler
    requires LengthKeyFree(filler)
    requires MatchAt(LengthPattern, bytes, start + |filler|)
    ensures NoLengthKeyBetween(bytes, start, start + |filler|)
  {
    var at := start + |filler|;
    FillerHasNoKey(bytes, start, filler);
    forall i | start <= i < at
      ensures !MatchAt(LengthPattern, bytes, i)
    {
      if at < i + |LengthPattern| && MatchAt(LengthPattern, bytes, i) {
        LengthPatternNoOverlap(bytes, i, at);
      }
    }
  }

  /** No `6:lengthi` begins in the filler that ends the data. */
  lemma FillerAtEnd(bytes: string, start: nat, filler: string)
    requires start <= |bytes| && bytes[start..] == filler && LengthKeyFree(filler)
    ensures start + |filler| == |bytes| && FirstMatch(LengthPattern, bytes[start..]).None?
  {
    assert bytes[start..start + |filler|] == filler;
    FillerHasNoKey(bytes, start, filler);
    forall k | 0 <= k
      ensures !MatchAt(LengthPattern, bytes[start..], k)
    {
      MatchInSuffix(LengthPattern, bytes, start, k);
    }
    FirstMatchIsLeast(LengthPattern, bytes[start..]);
  }

  /** The first filler and entry of a files list, found in the data, are a
      stretch free of `6:lengthi` and an entry. */
  lemma FillerThenEntry(bytes: string, start: nat, filler: string, t: string)
    requires start + |filler| + |LengthEntry(t)| <= |bytes|
    requires bytes[start..start + |filler|] == filler && LengthKeyFree(filler)
    requires bytes[start + |filler|..start + |filler| + |LengthEntry(t)|] == LengthEntry(t)
    ensures EntryAt(bytes, start + |filler|, t)
    ensures NoLengthKeyBetween(bytes, start, start + |filler|)
  {
    EntryTextAt(bytes, start + |filler|, t);
    FillerBeforeKey(bytes, start, filler);
  }

  /** The turn that reads an entry with text `t` and resumes at `next`:
      it counts `Int64(t)`, or skips the entry when that is `nil`. */
  function EntryStep(t: string, next: nat): Step {
    match ParseInt64(t)
    case None => Skip(next)
    case Some(n) => Add(next, n)
  }

  /** From `start`, the turns of the loop read exactly the entries with
      texts `texts`, one entry per turn, and then the loop stops: at the end
      of the data, or with no further `6:lengthi`. */
  ghost predicate StepsAt(bytes: string, start: nat, texts: seq<string>)
    decreases |texts|
  {
    if |texts| == 0 then start >= |bytes| || StepAt(bytes, start).Done?
    else
      start < |bytes| && !StepAt(bytes, start).Done? &&
      StepAt(bytes, start) == EntryStep(texts[0], StepAt(bytes, start).next) &&
      StepsAt(bytes, StepAt(bytes, start).next, texts[1..])
  }

  /** A turn that reads the entry `texts[0]` followed by turns that read the
      rest. */
  lemma StepsAtCons(bytes: string, start: nat, next: nat, texts: seq<string>)
    requires |texts| > 0 && start < |bytes|
    requires StepAt(bytes, start) == EntryStep(texts[0], next)
    requires StepsAt(bytes, next, texts[1..])
    ensures StepsAt(bytes, start, texts)
  {
  }

  /** A turn that reads an entry adds its length to the running total, or
      traps, or skips it. */
  lemma ScanFromEntry(bytes: string, start: nat, next: nat, t: string, totalSize: int, fileCount: nat)
    requires start < |bytes|
    requires StepAt(bytes, start) == EntryStep(t, next)
    ensures ScanFrom(bytes, start, totalSize, fileCount) ==
      match ParseInt64(t)
      case None => ScanFrom(bytes, next, totalSize, fileCount)
      case Some(n) => if InInt64(totalSize + n) then ScanFrom(bytes, next, totalSize + n, fileCount + 1) else Trapped
  {
  }

  /** With only the last filler left, the loop reads nothing more. */
  lemma FilesTextEnd(bytes: string, start: nat, fillers: seq<string>)
    requires |fillers| == 1 && LengthKeyFree(fillers[0])
    requires start <= |bytes| && bytes[start..] == FilesText(fillers, [])
    ensures StepsAt(bytes, start, [])
  {
    FillerAtEnd(bytes, start, fillers[0]);
  }

  /** The first turn over a files list reads its first entry and resumes
      where the rest of the list begins. */
  lemma {:induction false} FilesTextTurn(bytes: string, start: nat, fillers: seq<string>, texts: seq<string>)
    requires |fillers| == |texts| + 1 && |texts| > 0 && LacksE(texts[0])
    requires LengthKeyFree(fillers[0])
    requires start <= |bytes| && bytes[start..] == FilesText(fillers, texts)
    ensures var next := start + |fillers[0]| + |LengthEntry(texts[0])|;
      start < |bytes| && StepAt(bytes, start) == EntryStep(texts[0], next) &&
      next <= |bytes| && bytes[next..] == FilesText(fillers[1..], texts[1..])
  {
    FilesTextSplit(bytes, start, fillers, texts);
    FillerThenEntry(bytes, start, fillers[0], texts[0]);
    StepAtEntry(bytes, start, start + |fillers[0]|, texts[0]);
  }

  /** The entries of a files list whose fillers are free of `6:lengthi` are
      read one per turn, and the loop stops after the last one. */
  lemma {:induction false} FilesTextSteps(bytes: string, start: nat, fillers: seq<string>, texts: seq<string>)
    requires |fillers| == |texts| + 1
    requires forall filler :: filler in fillers ==> LengthKeyFree(filler)
    requires forall t :: t in texts ==> LacksE(t)
    requires start <= |bytes| && bytes[start..] == FilesText(fillers, texts)
    ensures StepsAt(bytes, start, texts)
    decreases |texts|
  {
    if |texts| == 0 {
      assert texts == [];
      FilesTextEnd(bytes, start, fillers);
    } else {
      var next := start + |fillers[0]| + |LengthEntry(texts[0])|;
      FilesTextTurn(bytes, start, fillers, texts);
      assert forall filler :: filler in fillers[1..] ==> filler in fillers;
      assert forall t :: t in texts[1..] ==> t in texts;
      FilesTextSteps(bytes, next, fillers[1..], texts[1..]);
      StepsAtCons(bytes, start, next, texts);
    }
  }

  /** A scan whose turns read the entries `texts` returns what adding up
      their parsed lengths returns. */
  lemma {:induction false} ScanSteps(bytes: string, start: nat, texts: seq<string>, totalSize: int, fileCount: nat)
    requires StepsAt(bytes, start, texts)
    ensures ScanFrom(bytes, start, totalSize, fileCount) == AddLengths(ParsedLengths(texts), totalSize, fileCount)
    decreases |texts|
  {
    if |texts| > 0 {
      var next := StepAt(bytes, start).next;
      ScanFromEntry(bytes, start, next, texts[0], totalSize, fileCount);
      match ParseInt64(texts[0])
      case None =>
        ScanSteps(bytes, next, texts[1..], totalSize, fileCount);
      case Some(n) =>
        var lengths := ParsedLengths(texts);
        assert lengths == [n] + ParsedLengths(texts[1..]);
        if InInt64(totalSize + n) {
          ScanSteps(bytes, next, texts[1..], totalSize + n, fileCount + 1);
          assert lengths[1..] == ParsedLengths(texts[1..]);
        }
    }
  }

  /** A files list whose entries hold any text without `e`, separated by
      any text free of `6:lengthi`, is summed and counted over exactly the
      entries whose text `Int64(_:)` accepts (`007` and `+5` among them),
      skipping the others, unless a running total overflows. */
  lemma MultiFileLengths(fillers: seq<string>, texts: seq<string>)
    requires |fillers| == |texts| + 1
    requires forall filler :: filler in fillers ==> LengthKeyFree(filler)
    requires forall t :: t in texts ==> LacksE(t)
    ensures MultiFileTotals(FilesText(fillers, texts)) == AddLengths(ParsedLengths(texts), 0, 0)
  {
    var bytes := FilesText(fillers, texts);
    FilesTextSteps(bytes, 0, fillers, texts);
    ScanSteps(bytes, 0, texts, 0, 0);
  }

  /** `Int64(_:)` accepts `007` as 7 and `+5` as 5, and rejects `x`. */
  lemma ExampleLengthsParse()
    ensures ParsedLengths(["007", "x", "+5"]) == [7, 5]
  {
    assert "007"[..2] == "00" && "00"[..1] == "0" && "0"[..0] == "";
    assert ParseInt64("007") == Some(7);
    assert ParseInt64("x") == None;
    assert ParseInt64("+5") == Some(5);
    var texts := ["007", "x", "+5"];
    assert texts[1..] == ["x", "+5"] && texts[1..][1..] == ["+5"] && texts[1..][1..][1..] == [];
  }

  /** Entries `007`, `x` and `+5` with nothing between them: the first and
      the last are counted, the middle one is skipped. */
  lemma MultiFileSkipsUnparsed()
    ensures MultiFileTotals(FilesText(["", "", "", ""], ["007", "x", "+5"])) == Returned(Totals(12, 2))
  {
    var texts := ["007", "x", "+5"];
    ExampleLengthsParse();
    assert forall t :: t in texts ==> LacksE(t);
    MultiFileLengths(["", "", "", ""], texts);
    assert [7, 5][1..] == [5];
  }

  /** The pieces of a tail made of a filler, `6:lengthi` and a text. */
  lemma TailParts(bytes: string, start: nat, filler: string, t: string)
    requires start <= |bytes| && bytes[start..] == filler + LengthPattern + t
    ensures var from := start + |filler| + |LengthPattern|;
      |bytes| == from + |t| &&
      bytes[start..start + |filler|] == filler &&
      MatchAt(LengthPattern, bytes, start + |filler|) &&
      bytes[from..] == t
  {
    var at := start + |filler|;
    var from := at + |LengthPattern|;
    assert bytes[start..start + |filler|] == bytes[start..][..|filler|];
    assert bytes[at..from] == bytes[start..][|filler|..|filler| + |LengthPattern|];
    assert bytes[from..] == bytes[start..][|filler| + |LengthPattern|..];
  }

  /** With no `e` from `from` on, the inner loop runs to the end. */
  lemma EndOfIntegerAtEnd(bytes: string, from: nat)
    requires from <= |bytes| && LacksE(bytes[from..])
    ensures EndOfInteger(bytes, from) == |bytes|
  {
    forall k | from <= k < |bytes|
      ensures bytes[k] != 'e'
    {
      assert bytes[k] == bytes[from..][k - from];
    }
    EndOfIntegerIsFirstE(bytes, from, |bytes|);
  }

  /** Data that ends, after text free of `6:lengthi`, in a `6:lengthi`
      with no `e` after it: the inner loop runs off the end, the entry is
      not counted, and the loop stops with the totals it had. */
  lemma UnterminatedTail(bytes: string, start: nat, filler: string, t: string, totalSize: int, fileCount: nat)
    requires start <= |bytes| && bytes[start..] == filler + LengthPattern + t
    requires LengthKeyFree(filler) && LacksE(t)
    ensures ScanFrom(bytes, start, totalSize, fileCount) == Returned(Totals(totalSize, fileCount))
  {
    var at := start + |filler|;
    TailParts(bytes, start, filler, t);
    FillerBeforeKey(bytes, start, filler);
    FirstLengthKey(bytes, start, at);
    EndOfIntegerAtEnd(bytes, at + |LengthPattern|);
    assert StepAt(bytes, start) == Skip(|bytes| + 1);
    assert ScanFrom(bytes, |bytes| + 1, totalSize, fileCount) == Returned(Totals(totalSize, fileCount));
  }

  /** Data that is only such a tail counts no file at all. */
  lemma MultiFileUnterminated(filler: string, t: string)
    requires LengthKeyFree(filler) && LacksE(t)
    ensures MultiFileTotals(filler + LengthPattern + t) == Returned(Totals(0, 0))
  {
    var bytes := filler + LengthPattern + t;
    assert bytes[0..] == bytes;
    UnterminatedTail(bytes, 0, filler, t, 0, 0);
  }

  /** Two files whose lengths fit in 64 bits but whose sum does not (say
      `Int64.max` and `1`) make `+=` overflow, whatever surrounds them. */
  lemma MultiFileOverflowTraps(fillers: seq<string>, first: int, second: int)
    requires |fillers| == 3
    requires forall filler :: filler in fillers ==> LengthKeyFree(filler)
    requires InInt64(first) && InInt64(second) && !InInt64(first + second)
    ensures MultiFileTotals(FilesText(fillers, [SignedDecimal(first), SignedDecimal(second)])) == Trapped
  {
    var texts := [SignedDecimal(first), SignedDecimal(second)];
    DecimalTextsParse(first, second);
    MultiFileLengths(fillers, texts);
  }

  /** The decimal texts of two 64-bit lengths are entry texts that parse
      back to those lengths. */
  lemma DecimalTextsParse(first: int, second: int)
    requires InInt64(first) && InInt64(second)
    ensures var texts := [SignedDecimal(first), SignedDecimal(second)];
      (forall t :: t in texts ==> LacksE(t)) && ParsedLengths(texts) == [first, second]
  {
    var texts := [SignedDecimal(first), SignedDecimal(second)];
    SignedDecimalChars(first);
    SignedDecimalChars(second);
    ParseSignedDecimal(first);
    ParseSignedDecimal(second);
    assert texts[1..] == [SignedDecimal(second)];
  }

  /** How many times `6:lengthi` occurs at or after `from`. */
  function LengthKeysFrom(bytes: string, from: nat): nat
    decreases |bytes| - from
  {
    if from + |LengthPattern| > |bytes| then 0
    else (if bytes[from..from + |LengthPattern|] == LengthPattern then 1 else 0) + LengthKeysFrom(bytes, from + 1)
  }

  lemma {:induction false} LengthKeysDrop(bytes: string, from: nat, to: nat)
    requires from <= to
    ensures LengthKeysFrom(bytes, to) <= LengthKeysFrom(bytes, from)
    decreases (to as int) - from
  {
    if from < to {
      LengthKeysDrop(bytes, from + 1, to);
    }
  }

  /** Passing an occurrence of `6:lengthi` leaves at least one fewer ahead. */
  lemma LengthKeysPast(bytes: string, from: nat, at: nat, to: nat)
    requires from <= at < to && MatchAt(LengthPattern, bytes, at)
    ensures LengthKeysFrom(bytes, to) + 1 <= LengthKeysFrom(bytes, from)
  {
    LengthKeysDrop(bytes, from, at);
    LengthKeysDrop(bytes, at + 1, to);
  }

  /** A turn that does not end the loop found a `6:lengthi` at or after
      where it searched and resumes after it. */
  lemma StepAtFindsKey(bytes: string, searchIndex: nat) returns (at: nat)
    requires searchIndex < |bytes| && !StepAt(bytes, searchIndex).Done?
    ensures searchIndex <= at < StepAt(bytes, searchIndex).next && MatchAt(LengthPattern, bytes, at)
  {
    var lengthIndex := FirstMatch(LengthPattern, bytes[searchIndex..]).value;
    FirstMatchIsLeast(LengthPattern, bytes[searchIndex..]);
    MatchInSuffix(LengthPattern, bytes, searchIndex, lengthIndex);
    at := searchIndex + lengthIndex;
  }

  /** The scan counts no more files than there are occurrences of
      `6:lengthi` from where it starts. */
  lemma {:induction false} ScanFromCount(bytes: string, searchIndex: nat, totalSize: int, fileCount: nat)
    ensures var r := ScanFrom(bytes, searchIndex, totalSize, fileCount);
      r.Returned? ==> r.value.fileCount <= fileCount + LengthKeysFrom(bytes, searchIndex)
    decreases |bytes| + 1 - searchIndex
  {
    if searchIndex < |bytes| {
      var step := StepAt(bytes, searchIndex);
      if !step.Done? {
        var at := StepAtFindsKey(bytes, searchIndex);
        LengthKeysPast(bytes, searchIndex, at, step.next);
        if step.Skip? {
          ScanFromCount(bytes, step.next, totalSize, fileCount);
        } else if InInt64(totalSize + step.length) {
          ScanFromCount(bytes, step.next, totalSize + step.length, fileCount + 1);
        }
      }
    }
  }

  /** `parseMultiFileTorrent` counts at most one file per occurrence of
      `6:lengthi` in the data. */
  lemma MultiFileCountBound(bytes: string)
    ensures var r := MultiFileTotals(bytes);
      r.Returned? ==> r.value.fileCount <= LengthKeysFrom(bytes, 0)
  {
    ScanFromCount(bytes, 0, 0, 0);
  }

  /** One turn of `parseMultiFileTorrent`'s loop: search for `6:lengthi`
      from `searchIndex`, run the inner loop to the next `e` and parse the
      digits in between. */
  method NextStep(bytes: string, searchIndex: nat) returns (step: Step)
    requires searchIndex < |bytes|
    ensures step == StepAt(bytes, searchIndex)
  {
    var lengthIndex := FindPattern(LengthPattern, bytes[searchIndex..]);
    if lengthIndex.None? {
      return Done;
    }
    var actualIndex := searchIndex + lengthIndex.value + |LengthPattern|;
    var endIndex := SkipToE(bytes, actualIndex);
    if endIndex < |bytes| {
      var length := ParseInt64(bytes[actualIndex..endIndex]);
      if length.Some? {
        return Add(endIndex + 1, length.value);
      }
    }
    return Skip(endIndex + 1);
  }

  /** `parseMultiFileTorrent`, with its `while` loops. */
  method ParseMultiFileTorrent(bytes: string) returns (r: Run<Totals>)
    ensures r == MultiFileTotals(bytes)
  {
    var totalSize: int := 0;
    var fileCount: nat := 0;
    var searchIndex: nat := 0;
    while searchIndex < |bytes|
      invariant ScanFrom(bytes, searchIndex, totalSize, fileCount) == MultiFileTotals(bytes)
      decreases |bytes| + 1 - searchIndex
    {
      var step := NextStep(bytes, searchIndex);
      match step
      case Done =>
        break;
      case Skip(next) =>
        searchIndex := next;
      case Add(next, length) =>
        if !InInt64(totalSize + length) {
          return Trapped;
        }
        totalSize := totalSize + length;
        fileCount := fileCount + 1;
        searchIndex := next;
    }
    r := Returned(Totals(totalSize, fileCount));
  }
}
