/** `sortTorrents`: the torrent list ordered by the property the user picked. */
module TorrentSort {
  import opened Orders
  import opened StableSort
  import opened SwiftText
  import opened SortDescriptors

  /** A torrent's computed status, known by its `rawValue`. */
  datatype StatusCalc = StatusCalc(rawValue: string)

  const Complete := StatusCalc("Complete")
  const Seeding := StatusCalc("Seeding")
  const Paused := StatusCalc("Paused")
  const Stalled := StatusCalc("Stalled")

  /** The fields of a torrent that sorting reads; `addedDate` is a point in time. */
  datatype Torrent = Torrent(name: string, addedDate: int, statusCalc: StatusCalc, eta: int, sizeWhenDone: int)

  datatype SortProperty = Name | Size | Status | DateAdded | Eta

  function NameOf(t: Torrent): string { t.name }
  function AddedDateOf(t: Torrent): int { t.addedDate }
  function StatusRawValueOf(t: Torrent): string { t.statusCalc.rawValue }
  function SizeOf(t: Torrent): int { t.sizeWhenDone }

  const NameKey: SortDescriptor<Torrent> := KeyPath(NameOf, StrLess)
  const AddedDateKey: SortDescriptor<Torrent> := KeyPath(AddedDateOf, IntLess)
  const StatusKey: SortDescriptor<Torrent> := KeyPath(StatusRawValueOf, StrLess)
  const SizeKey: SortDescriptor<Torrent> := KeyPath(SizeOf, IntLess)

  /** `getPriority`, the rank the remaining-time sort compares first. */
  function EtaRank(t: Torrent): (r: int)
    ensures 0 <= r <= 5
    ensures r == 5 <==> t.statusCalc == Complete
    ensures t.statusCalc == Seeding ==> r == 4
    ensures t.statusCalc == Paused ==> r == 3
    ensures t.statusCalc == Stalled ==> r == 2
    ensures r >= 2 <==> t.statusCalc in {Complete, Seeding, Paused, Stalled}
    ensures r == 1 <==> t.statusCalc !in {Complete, Seeding, Paused, Stalled} && t.eta <= 0
  {
    if t.statusCalc == Complete then 5
    else if t.statusCalc == Seeding then 4
    else if t.statusCalc == Paused then 3
    else if t.statusCalc == Stalled then 2
    else if t.eta <= 0 then 1
    else 0
  }

  /** The closure of the remaining-time sort: rank first, then `eta`, both in
      the requested direction. */
  function EtaPrecedes(ascending: bool): (Torrent, Torrent) -> bool {
    (a: Torrent, b: Torrent) =>
      var priorityA := EtaRank(a);
      var priorityB := EtaRank(b);
      if priorityA != priorityB then
        (if ascending then priorityA < priorityB else priorityA > priorityB)
      else
        (if ascending then a.eta < b.eta else a.eta > b.eta)
  }

  function SortTorrents(torrents: seq<Torrent>, property: SortProperty, order: SortOrder): (r: seq<Torrent>)
    ensures multiset(r) == multiset(torrents)
  {
    var sortedList := SortedUsing(torrents, [NameKey], Ascending);
    match property
    case Name =>
      if order == Ascending then SortedUsing(torrents, [NameKey], Ascending)
      else SortedUsing(torrents, [NameKey], Descending)
    case DateAdded =>
      if order == Ascending then SortedUsing(sortedList, [AddedDateKey], Ascending)
      else SortedUsing(sortedList, [AddedDateKey], Descending)
    case Status =>
      if order == Ascending then SortedUsing(sortedList, [StatusKey], Ascending)
      else SortedUsing(sortedList, [StatusKey], Descending)
    case Eta =>
      SortBy(sortedList, EtaPrecedes(order == Ascending))
    case Size =>
      if order == Ascending then SortedUsing(sortedList, [SizeKey], Ascending)
      else SortedUsing(sortedList, [SizeKey], Descending)
  }

  /** `a` may be listed before `b`: the selected key is in the requested
      direction, and for every property but the name, equal keys leave the
      names ascending. */
  ghost predicate InOrder(a: Torrent, b: Torrent, property: SortProperty, order: SortOrder) {
    var up := order == Ascending;
    var namesUp := !StrLess(b.name, a.name);
    match property
    case Name => if up then namesUp else !StrLess(a.name, b.name)
    case DateAdded =>
      (if up then a.addedDate < b.addedDate else a.addedDate > b.addedDate)
      || (a.addedDate == b.addedDate && namesUp)
    case Status =>
      (if up then StrLess(a.statusCalc.rawValue, b.statusCalc.rawValue) else StrLess(b.statusCalc.rawValue, a.statusCalc.rawValue))
      || (a.statusCalc == b.statusCalc && namesUp)
    case Size =>
      (if up then a.sizeWhenDone < b.sizeWhenDone else a.sizeWhenDone > b.sizeWhenDone)
      || (a.sizeWhenDone == b.sizeWhenDone && namesUp)
    case Eta =>
      (if up then EtaRank(a) < EtaRank(b) else EtaRank(a) > EtaRank(b))
      || (EtaRank(a) == EtaRank(b) && (if up then a.eta < b.eta else a.eta > b.eta))
      || (EtaRank(a) == EtaRank(b) && a.eta == b.eta && namesUp)
  }

  /** The remaining-time closure is a strict weak order. */
  lemma EtaPrecedesIsStrictWeak(ascending: bool)
    ensures StrictWeakOrder(EtaPrecedes(ascending))
  {
  }

  /** The list every non-name sort starts from is in ascending name order. */
  lemma NameSortedList(torrents: seq<Torrent>)
    ensures Sorted(SortedUsing(torrents, [NameKey], Ascending), Precedes([NameKey], Ascending))
    ensures forall a, b :: Precedes([NameKey], Ascending)(a, b) == StrLess(a.name, b.name)
  {
    StrLessIsStrictTotalOrder();
    SingleKeyPathIsStrictWeak(NameOf, StrLess, Ascending);
    SortByIsSorted(torrents, Precedes([NameKey], Ascending));
    forall a, b ensures Precedes([NameKey], Ascending)(a, b) == StrLess(a.name, b.name) {
      SingleKeyPath(NameOf, StrLess, Ascending, a, b);
    }
  }

  /** The list every non-name sort starts from, and facts every case uses. */
  lemma SortSetup(torrents: seq<Torrent>)
    ensures StrictTotalOrder(StrLess) && StrictTotalOrder(IntLess)
    ensures Sorted(SortedUsing(torrents, [NameKey], Ascending), Precedes([NameKey], Ascending))
    ensures forall a, b :: Precedes([NameKey], Ascending)(a, b) == StrLess(a.name, b.name)
  {
    StrLessIsStrictTotalOrder();
    IntLessIsStrictTotalOrder();
    NameSortedList(torrents);
  }

  lemma SortByNameIsOrdered(torrents: seq<Torrent>, order: SortOrder)
    ensures var r := SortTorrents(torrents, Name, order);
      forall i, j :: 0 <= i < j < |r| ==> InOrder(r[i], r[j], Name, order)
  {
    var r := SortTorrents(torrents, Name, order);
    StrLessIsStrictTotalOrder();
    var never := (a: Torrent, b: Torrent) => false;
    SortedUsingKeyPath(torrents, NameOf, StrLess, order, never);
    forall i, j | 0 <= i < j < |r| ensures InOrder(r[i], r[j], Name, order) {
      StrLessIrreflexive(r[i].name);
      if r[i].name != r[j].name {
        StrLessConnected(r[i].name, r[j].name);
      }
    }
  }

  lemma SortByDateAddedIsOrdered(torrents: seq<Torrent>, order: SortOrder)
    ensures var r := SortTorrents(torrents, DateAdded, order);
      forall i, j :: 0 <= i < j < |r| ==> InOrder(r[i], r[j], DateAdded, order)
  {
    SortSetup(torrents);
    SortedUsingKeyPath(SortedUsing(torrents, [NameKey], Ascending), AddedDateOf, IntLess, order, Precedes([NameKey], Ascending));
  }

  lemma SortByStatusIsOrdered(torrents: seq<Torrent>, order: SortOrder)
    ensures var r := SortTorrents(torrents, Status, order);
      forall i, j :: 0 <= i < j < |r| ==> InOrder(r[i], r[j], Status, order)
  {
    var r := SortTorrents(torrents, Status, order);
    SortSetup(torrents);
    SortedUsingKeyPath(SortedUsing(torrents, [NameKey], Ascending), StatusRawValueOf, StrLess, order, Precedes([NameKey], Ascending));
    forall i, j | 0 <= i < j < |r| ensures InOrder(r[i], r[j], Status, order) {
      assert r[i].statusCalc.rawValue == r[j].statusCalc.rawValue ==> r[i].statusCalc == r[j].statusCalc;
    }
  }

  lemma SortBySizeIsOrdered(torrents: seq<Torrent>, order: SortOrder)
    ensures var r := SortTorrents(torrents, Size, order);
      forall i, j :: 0 <= i < j < |r| ==> InOrder(r[i], r[j], Size, order)
  {
    SortSetup(torrents);
    SortedUsingKeyPath(SortedUsing(torrents, [NameKey], Ascending), SizeOf, IntLess, order, Precedes([NameKey], Ascending));
  }

  lemma EtaBeforeIsInOrder(a: Torrent, b: Torrent, order: SortOrder)
    requires Before(a, b, EtaPrecedes(order == Ascending), Precedes([NameKey], Ascending))
    ensures InOrder(a, b, Eta, order)
  {
    StrLessIsStrictTotalOrder();
    SingleKeyPath(NameOf, StrLess, Ascending, b, a);
  }

  lemma SortByEtaIsOrdered(torrents: seq<Torrent>, order: SortOrder)
    ensures var r := SortTorrents(torrents, Eta, order);
      forall i, j :: 0 <= i < j < |r| ==> InOrder(r[i], r[j], Eta, order)
  {
    var r := SortTorrents(torrents, Eta, order);
    var byName := Precedes([NameKey], Ascending);
    var p := EtaPrecedes(order == Ascending);
    NameSortedList(torrents);
    EtaPrecedesIsStrictWeak(order == Ascending);
    SortByIsStable(SortedUsing(torrents, [NameKey], Ascending), p, byName);
    forall i, j | 0 <= i < j < |r| ensures InOrder(r[i], r[j], Eta, order) {
      EtaBeforeIsInOrder(r[i], r[j], order);
    }
  }

  /** `sortTorrents` orders by the selected key in the selected direction,
      and (for all but the name sort) breaks ties by ascending name. */
  lemma SortTorrentsIsOrdered(torrents: seq<Torrent>, property: SortProperty, order: SortOrder)
    ensures var r := SortTorrents(torrents, property, order);
      forall i, j :: 0 <= i < j < |r| ==> InOrder(r[i], r[j], property, order)
  {
    match property
    case Name => SortByNameIsOrdered(torrents, order);
    case DateAdded => SortByDateAddedIsOrdered(torrents, order);
    case Status => SortByStatusIsOrdered(torrents, order);
    case Size => SortBySizeIsOrdered(torrents, order);
    case Eta => SortByEtaIsOrdered(torrents, order);
  }
}
