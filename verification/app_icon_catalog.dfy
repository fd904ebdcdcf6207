/** The iOS app icon catalog: the shipped icon choices and the order in
    which the icon picker presents them. */
module AppIcons {
  import opened Outcomes
  import opened Orders
  import opened SwiftText
  import opened StableSort

  /** `AppIconPresentation`: the alternate-icon key (`nil` for the primary
      icon), a title, a preview asset and an ordering hint. */
  datatype AppIconPresentation = AppIconPresentation(key: Option<string>, title: string, previewAssetName: string, order: int)

  /** `AppIconCatalog.entries`, the shipped choices. */
  const Entries: seq<AppIconPresentation> := [
    AppIconPresentation(None, "Byte-sized Dreams", "AppIconPreview-Default", 0),
    AppIconPresentation(Some("BitDreamAppIconPink"), "Blue Clouds", "AppIconPreview-Blue", 10),
    AppIconPresentation(Some("BitDreamAppIconPinkBg"), "Pink Sky", "AppIconPreview-PinkBG", 20),
    AppIconPresentation(Some("BitDreamAppIconPixelyClouds"), "Cloudy Day", "AppIconPreview-PixelyClouds", 30),
    AppIconPresentation(Some("AppIcon-OG"), "The O.G.", "AppIconPreview-OG", 40)
  ]

  /** The default used when no entry has a `nil` key; its order is `Int.min`. */
  const FallbackDefault: AppIconPresentation :=
    AppIconPresentation(None, "Default", "AppIconPreview-Default", Int64Min)

  /** `entries.first(where: { $0.key == nil })`. */
  function FirstDefault(entries: seq<AppIconPresentation>): (r: Option<AppIconPresentation>)
    ensures r.Some? ==> r.value in entries && r.value.key.None?
    ensures r.None? ==> forall i :: 0 <= i < |entries| ==> entries[i].key.Some?
  {
    if |entries| == 0 then None
    else if entries[0].key.None? then Some(entries[0])
    else FirstDefault(entries[1..])
  }

  /** The default found is the first entry with a `nil` key. */
  lemma {:induction false} FirstDefaultIsFirst(entries: seq<AppIconPresentation>)
    ensures var r := FirstDefault(entries);
      r.Some? ==> exists i :: (0 <= i < |entries| && entries[i] == r.value &&
        forall j :: 0 <= j < i ==> entries[j].key.Some?)
  {
    if |entries| > 0 && entries[0].key.Some? {
      FirstDefaultIsFirst(entries[1..]);
      var r := FirstDefault(entries);
      if r.Some? {
        var i :| 0 <= i < |entries[1..]| && entries[1..][i] == r.value &&
          forall j :: 0 <= j < i ==> entries[1..][j].key.Some?;
        assert entries[i + 1] == r.value;
        forall j | 0 <= j < i + 1
          ensures entries[j].key.Some?
        {
          if j > 0 {
            assert entries[j] == entries[1..][j - 1];
          }
        }
      }
    }
  }

  /** The default the picker shows: the first `nil`-key entry, or the fallback. */
  function DefaultOf(entries: seq<AppIconPresentation>): (d: AppIconPresentation)
    ensures d.key.None?
  {
    match FirstDefault(entries)
    case Some(def) => def
    case None => FallbackDefault
  }

  /** `entries.filter { $0.key != nil }`. */
  function Alternates(entries: seq<AppIconPresentation>): (r: seq<AppIconPresentation>)
    ensures |r| <= |entries|
    ensures forall i :: 0 <= i < |r| ==> r[i].key.Some?
  {
    if |entries| == 0 then []
    else if entries[0].key.Some? then [entries[0]] + Alternates(entries[1..])
    else Alternates(entries[1..])
  }

  /** Every entry with a key is kept as often as it occurs, and every
      entry without one is dropped. */
  lemma {:induction false} AlternatesCount(entries: seq<AppIconPresentation>, e: AppIconPresentation)
    ensures multiset(Alternates(entries))[e] == if e.key.Some? then multiset(entries)[e] else 0
  {
    if |entries| > 0 {
      var rest := entries[1..];
      AlternatesCount(rest, e);
      assert entries == [entries[0]] + rest;
      assert multiset(entries) == multiset{entries[0]} + multiset(rest);
      if entries[0].key.Some? {
        assert multiset(Alternates(entries)) == multiset{entries[0]} + multiset(Alternates(rest));
      } else {
        assert Alternates(entries) == Alternates(rest);
      }
    }
  }

  /** The list `presentations()` assembles before sorting: the default,
      then the alternates as defined. */
  function Assembled(entries: seq<AppIconPresentation>): seq<AppIconPresentation> {
    [DefaultOf(entries)] + Alternates(entries)
  }

  /** The closure `presentations()` sorts with: lower order first; on equal
      orders a `nil` key first, two keys by `String <`, two `nil` keys
      neither way. */
  function IconPrecedes(lhs: AppIconPresentation, rhs: AppIconPresentation): bool {
    if lhs.order != rhs.order then lhs.order < rhs.order
    else match (lhs.key, rhs.key)
      case (None, None) => false
      case (None, _) => true
      case (_, None) => false
      case (Some(l), Some(r)) => StrLess(l, r)
  }

  lemma IconPrecedesTransitive(a: AppIconPresentation, b: AppIconPresentation, c: AppIconPresentation)
    requires IconPrecedes(a, b) && IconPrecedes(b, c)
    ensures IconPrecedes(a, c)
  {
    if a.order == b.order == c.order && a.key.Some? {
      StrLessTransitive(a.key.value, b.key.value, c.key.value);
    }
  }

  lemma IconPrecedesIncomparable(a: AppIconPresentation, b: AppIconPresentation, c: AppIconPresentation)
    requires IconPrecedes(a, c)
    ensures IconPrecedes(a, b) || IconPrecedes(b, c)
  {
    if a.order == b.order == c.order && a.key.Some? && b.key.Some? {
      var l, m, r := a.key.value, b.key.value, c.key.value;
      if m != l && !StrLess(l, m) {
        StrLessConnected(l, m);
        StrLessTransitive(m, l, r);
      }
    }
  }

  /** The closure is a strict weak order, as `sorted(by:)` requires; two
      icons tie exactly when they have the same order and the same key. */
  lemma IconPrecedesIsStrictWeak()
    ensures StrictWeakOrder(IconPrecedes)
  {
    forall a: AppIconPresentation
      ensures !IconPrecedes(a, a)
    {
      if a.key.Some? {
        StrLessIrreflexive(a.key.value);
      }
    }
    forall a, b, c | IconPrecedes(a, b) && IconPrecedes(b, c)
      ensures IconPrecedes(a, c)
    {
      IconPrecedesTransitive(a, b, c);
    }
    forall a, b, c | IconPrecedes(a, c)
      ensures IconPrecedes(a, b) || IconPrecedes(b, c)
    {
      IconPrecedesIncomparable(a, b, c);
    }
  }

  /** `presentations()` for a given list of entries. */
  function PresentationsOf(entries: seq<AppIconPresentation>): seq<AppIconPresentation> {
    SortBy(Assembled(entries), IconPrecedes)
  }

  /** `presentations()`: append the default, append the alternates, sort. */
  method Presentations(entries: seq<AppIconPresentation>) returns (r: seq<AppIconPresentation>)
    ensures r == PresentationsOf(entries)
  {
    var result: seq<AppIconPresentation> := [];
    var def := FirstDefault(entries);
    if def.Some? {
      result := result + [def.value];
    } else {
      result := result + [FallbackDefault];
    }
    result := result + Alternates(entries);
    r := SortBy(result, IconPrecedes);
  }

  /** The result holds the default once and every keyed entry as often as
      it is defined, and nothing else: later `nil`-key entries are dropped. */
  lemma PresentationsContents(entries: seq<AppIconPresentation>, e: AppIconPresentation)
    ensures |PresentationsOf(entries)| == 1 + |Alternates(entries)|
    ensures multiset(PresentationsOf(entries))[e] ==
      if e.key.Some? then multiset(entries)[e]
      else if e == DefaultOf(entries) then 1
      else 0
  {
    AlternatesCount(entries, e);
    assert multiset(Assembled(entries)) == multiset{DefaultOf(entries)} + multiset(Alternates(entries));
  }

  /** The result is sorted by order; on equal orders the `nil` key comes
      first and keys follow `String <`. */
  lemma PresentationsSorted(entries: seq<AppIconPresentation>)
    ensures var r := PresentationsOf(entries);
      forall i, j :: 0 <= i < j < |r| ==>
        r[i].order <= r[j].order &&
        (r[i].order == r[j].order && r[j].key.None? ==> r[i].key.None?) &&
        (r[i].order == r[j].order && r[i].key.Some? && r[j].key.Some? ==> !StrLess(r[j].key.value, r[i].key.value))
  {
    IconPrecedesIsStrictWeak();
    SortByIsSorted(Assembled(entries), IconPrecedes);
  }

  /** When no alternate is ordered before it, the default is shown first. */
  lemma DefaultShownFirst(entries: seq<AppIconPresentation>)
    requires forall e :: e in Alternates(entries) ==> DefaultOf(entries).order <= e.order
    ensures PresentationsOf(entries)[0] == DefaultOf(entries)
  {
    var r := PresentationsOf(entries);
    var def, first := DefaultOf(entries), PresentationsOf(entries)[0];
    PresentationsContents(entries, def);
    PresentationsContents(entries, first);
    assert first in multiset(r);
    PresentationsSorted(entries);
    AlternatesCount(entries, first);
  }

  /** Without a `nil`-key entry, the fallback (order `Int.min`) comes first. */
  lemma FallbackShownFirst(entries: seq<AppIconPresentation>)
    requires forall i :: 0 <= i < |entries| ==> entries[i].key.Some? && InInt64(entries[i].order)
    ensures PresentationsOf(entries)[0] == FallbackDefault
  {
    forall e | e in Alternates(entries)
      ensures Int64Min <= e.order
    {
      AlternatesCount(entries, e);
      assert e in multiset(entries);
    }
    DefaultShownFirst(entries);
  }

  /** With the shipped entries the picker shows them exactly as defined. */
  lemma ShippedPresentations()
    ensures PresentationsOf(Entries) == Entries
  {
    assert FirstDefault(Entries) == Some(Entries[0]);
    assert Alternates(Entries) == Entries[1..];
    assert Assembled(Entries) == Entries;
    ShippedSorted();
    SortBySortedIsIdentity(Entries, IconPrecedes);
  }

  /** The shipped orders increase strictly, so the entries are sorted. */
  lemma ShippedSorted()
    ensures Sorted(Entries, IconPrecedes)
  {
    forall i, j | 0 <= i < j < |Entries|
      ensures Entries[i].order < Entries[j].order
    {
    }
  }
}
