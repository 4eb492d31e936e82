/** How a list of files is currently sorted, the opposite sort of each, and
    the comparator that sorts a list the opposite way. */
module FileListSortType {
  import opened Outcomes
  import FC = FileComparator

  datatype FileListSortType = AscendingName | DescendingName | AscendingType | DescendingType

  /** The field a sort is by, and its direction, read off the constant's
      name. */
  function SortField(t: FileListSortType): FC.Field
  {
    match t
    case AscendingName => FC.Name
    case DescendingName => FC.Name
    case AscendingType => FC.Type
    case DescendingType => FC.Type
  }

  predicate IsAscending(t: FileListSortType)
  {
    t == AscendingName || t == AscendingType
  }

  /** The complements table of the static initializer. */
  const Complements: map<FileListSortType, FileListSortType> :=
    map[AscendingName := DescendingName, DescendingName := AscendingName,
        AscendingType := DescendingType, DescendingType := AscendingType]

  /** The options of the comparators in the complementComparators table of
      the static initializer. */
  const ComplementComparators: map<FileListSortType, FC.Options> :=
    map[AscendingName := FC.Options(Some(FC.Name), true, false, false),
        DescendingName := FC.Options(Some(FC.Name), true, false, true),
        AscendingType := FC.Options(Some(FC.Type), true, false, false),
        DescendingType := FC.Options(Some(FC.Type), true, false, true)]

  /** Both tables have an entry for every constant. */
  lemma TablesTotal(t: FileListSortType)
    ensures t in Complements && t in ComplementComparators
  {
  }

  /** isNameType. */
  predicate IsNameType(t: FileListSortType)
  {
    t == AscendingName || t == DescendingName
  }

  /** isTypeType. */
  predicate IsTypeType(t: FileListSortType)
  {
    t == AscendingType || t == DescendingType
  }

  /** Every sort is by name or by type, never both, as its field says. */
  lemma NameOrType(t: FileListSortType)
    ensures IsNameType(t) != IsTypeType(t)
    ensures IsNameType(t) <==> SortField(t) == FC.Name
    ensures IsTypeType(t) <==> SortField(t) == FC.Type
  {
  }

  /** getComplement: the same field in the other direction. */
  function GetComplement(t: FileListSortType): (r: FileListSortType)
    ensures SortField(r) == SortField(t) && IsAscending(r) == !IsAscending(t)
  {
    TablesTotal(t);
    Complements[t]
  }

  /** Taking the complement twice gives the sort back. */
  lemma ComplementInvolution(t: FileListSortType)
    ensures GetComplement(GetComplement(t)) == t
    ensures GetComplement(t) != t
  {
  }

  /** getComplementComparator: the options of the comparator stored for the
      sort. */
  function GetComplementComparator(t: FileListSortType): FC.Options
  {
    TablesTotal(t);
    ComplementComparators[t]
  }

  /** The comparator of a sort's complement sorts by the complement's field
      in the complement's direction, ignoring case and keeping directories
      apart. */
  lemma ComplementComparatorSortsAsComplement(t: FileListSortType)
    ensures var o := GetComplementComparator(t); var c := GetComplement(t);
      o.field == Some(SortField(c)) && o.ascending == IsAscending(c)
      && !o.caseSensitive && o.directorySensitive
  {
  }

  /** So for two files it reverses the order of the same comparator
      pointed the way the sort itself goes. */
  lemma {:induction false} ComplementComparatorReverses(t: FileListSortType, file1: Option<FC.File>, file2: Option<FC.File>)
    requires file1.Some? && file2.Some?
    ensures var o := GetComplementComparator(t);
      FC.Ordering(o, file1, file2) == -FC.Ordering(o.(ascending := IsAscending(t)), file1, file2)
  {
    var o := GetComplementComparator(t);
    ComplementComparatorSortsAsComplement(t);
    FC.DescendingReverses(o, file1, file2);
    FC.DescendingReverses(o, file2, file1);
    FC.OrderingAntisymmetric(o.(ascending := true), file1, file2);
  }

  /** The static initializer's comparator for a sort: the factory for its
      field, then descending() for an ascending sort or ascending() for a
      descending one, then caseInsensitive(). */
  method NewComplementComparator(t: FileListSortType) returns (c: FC.FileComparator)
    ensures fresh(c) && c.Value() == GetComplementComparator(t)
  {
    match t {
      case AscendingName =>
        c := FC.FileComparator.Name();
        c := c.Descending();
        c := c.CaseInsensitive();
      case DescendingName =>
        c := FC.FileComparator.Name();
        c := c.Ascending();
        c := c.CaseInsensitive();
      case AscendingType =>
        c := FC.FileComparator.Type();
        c := c.Descending();
        c := c.CaseInsensitive();
      case DescendingType =>
        c := FC.FileComparator.Type();
        c := c.Ascending();
        c := c.CaseInsensitive();
    }
  }
}
