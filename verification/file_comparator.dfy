/** The comparator the file lists are sorted with: by whole file name or by
    extension, with directories kept apart from files, with or without case,
    ascending or descending. A null file is None. */
module FileComparator {
  import opened Outcomes
  import Text

  datatype Field = Name | Type

  /** A java.io.File as the comparator sees it. */
  datatype File = File(name: string, isDirectory: bool)

  /** The state of a comparator: its field (null until a factory sets it)
      and its three flags. */
  datatype Options = Options(field: Option<Field>, directorySensitive: bool, caseSensitive: bool, ascending: bool)

  /** What a file is compared by: its whole name, or the last piece of its
      name split at the dots when there is more than one piece; the empty
      text for a null file or a name with no extension. */
  function FileText(field: Field, file: Option<File>): string
  {
    if file.None? then ""
    else match field
      case Name => file.value.name
      case Type =>
        match Text.LastSegment(file.value.name)
        case Some(extension) => extension
        case None => ""
  }

  /** The text of a file, in both fields: the name itself; the text after
      the last dot, whatever precedes it; nothing for a name with no dot. */
  lemma FileTextOfName(stem: string, extension: string, isDirectory: bool)
    requires extension != "" && Text.NoneOf(extension, {'.'})
    ensures FileText(Name, Some(File(stem + "." + extension, isDirectory))) == stem + "." + extension
    ensures FileText(Type, Some(File(stem + "." + extension, isDirectory))) == extension
    ensures Text.NoneOf(stem, {'.'}) ==> FileText(Type, Some(File(stem, isDirectory))) == ""
    ensures FileText(Name, None) == "" && FileText(Type, None) == ""
  {
    Text.LastSegmentAfterDot(stem, extension);
    if Text.NoneOf(stem, {'.'}) {
      Text.LastSegmentNoDot(stem);
    }
  }

  /** directoryCompare: a directory before a file, and a tie when both or
      neither are directories. */
  function DirectoryCompare(file1: File, file2: File): (r: int)
    ensures r == 0 <==> file1.isDirectory == file2.isDirectory
    ensures r < 0 <==> file1.isDirectory && !file2.isDirectory
    ensures r > 0 <==> !file1.isDirectory && file2.isDirectory
  {
    if file1.isDirectory == file2.isDirectory then 0
    else if file1.isDirectory then -1
    else 1
  }

  /** A compare that does not dereference a null file: only a directory
      sensitive comparator with a field looks at the files themselves. */
  predicate CanCompare(o: Options, file1: Option<File>, file2: Option<File>)
  {
    o.field.Some? && o.directorySensitive ==> file1.Some? && file2.Some?
  }

  /** The directory part of compare: zero when the comparator mixes files
      and directories, otherwise directoryCompare in the sort's direction. */
  function DirectoryOrder(o: Options, file1: Option<File>, file2: Option<File>): int
    requires o.field.Some? && CanCompare(o, file1, file2)
  {
    if !o.directorySensitive then 0
    else if o.ascending then DirectoryCompare(file1.value, file2.value)
    else DirectoryCompare(file2.value, file1.value)
  }

  /** The text part of compare as intended: compareTo or compareToIgnoreCase,
      with the arguments swapped for a descending sort. */
  function TextOrder(o: Options, text1: string, text2: string): int
  {
    if o.caseSensitive then
      (if o.ascending then Text.CompareTo(text1, text2) else Text.CompareTo(text2, text1))
    else
      (if o.ascending then Text.CompareToIgnoreCase(text1, text2) else Text.CompareToIgnoreCase(text2, text1))
  }

  /** The text part of compare as written: the descending case-sensitive
      branch compares the second text with itself. */
  function TextOrderAsWritten(o: Options, text1: string, text2: string): int
  {
    if o.caseSensitive then
      (if o.ascending then Text.CompareTo(text1, text2) else Text.CompareTo(text2, text2))
    else
      (if o.ascending then Text.CompareToIgnoreCase(text1, text2) else Text.CompareToIgnoreCase(text2, text1))
  }

  /** compare as intended: 0 without a field; otherwise the directory part
      when it is not a tie, and the text part when it is. */
  function Ordering(o: Options, file1: Option<File>, file2: Option<File>): int
    requires CanCompare(o, file1, file2)
  {
    if o.field.None? then 0
    else
      var dirComp := DirectoryOrder(o, file1, file2);
      if dirComp != 0 then dirComp
      else TextOrder(o, FileText(o.field.value, file1), FileText(o.field.value, file2))
  }

  /** compare as written. */
  function OrderingAsWritten(o: Options, file1: Option<File>, file2: Option<File>): int
    requires CanCompare(o, file1, file2)
  {
    if o.field.None? then 0
    else
      var dirComp := DirectoryOrder(o, file1, file2);
      if dirComp != 0 then dirComp
      else TextOrderAsWritten(o, FileText(o.field.value, file1), FileText(o.field.value, file2))
  }

  /** A comparator with no field treats every pair as equal. */
  lemma UnsetFieldTiesAll(o: Options, file1: Option<File>, file2: Option<File>)
    requires o.field.None?
    ensures CanCompare(o, file1, file2)
    ensures Ordering(o, file1, file2) == 0 && OrderingAsWritten(o, file1, file2) == 0
  {
  }

  /** With directory sensitivity a directory sorts before a file in an
      ascending sort and after it in a descending one, whatever the names. */
  lemma DirectoriesApart(o: Options, dir: File, file: File)
    requires o.field.Some? && o.directorySensitive && dir.isDirectory && !file.isDirectory
    ensures o.ascending ==> Ordering(o, Some(dir), Some(file)) < 0 && Ordering(o, Some(file), Some(dir)) > 0
    ensures !o.ascending ==> Ordering(o, Some(dir), Some(file)) > 0 && Ordering(o, Some(file), Some(dir)) < 0
    ensures OrderingAsWritten(o, Some(dir), Some(file)) == Ordering(o, Some(dir), Some(file))
  {
  }

  /** When the directory part ties (both directories, both files, or a
      comparator that mixes them) the texts decide: compareTo ascending,
      compareToIgnoreCase with the arguments in sort order, and compareTo
      with swapped arguments descending. */
  lemma TextDecidesOnTie(o: Options, file1: Option<File>, file2: Option<File>)
    requires o.field.Some? && CanCompare(o, file1, file2)
    requires o.directorySensitive ==> file1.value.isDirectory == file2.value.isDirectory
    ensures var t1, t2 := FileText(o.field.value, file1), FileText(o.field.value, file2);
      Ordering(o, file1, file2)
      == if o.caseSensitive && o.ascending then Text.CompareTo(t1, t2)
         else if o.caseSensitive then Text.CompareTo(t2, t1)
         else if o.ascending then Text.CompareTo(Text.Lower(t1), Text.Lower(t2))
         else Text.CompareTo(Text.Lower(t2), Text.Lower(t1))
  {
  }

  /** Swapping the files negates the result. */
  lemma {:induction false} OrderingAntisymmetric(o: Options, file1: Option<File>, file2: Option<File>)
    requires CanCompare(o, file1, file2)
    ensures CanCompare(o, file2, file1)
    ensures Ordering(o, file1, file2) == -Ordering(o, file2, file1)
  {
    if o.field.Some? {
      var t1, t2 := FileText(o.field.value, file1), FileText(o.field.value, file2);
      Text.CompareToAntisymmetric(t1, t2);
      Text.CompareToAntisymmetric(Text.Lower(t1), Text.Lower(t2));
    }
  }

  /** A descending comparator orders as the ascending one with the files
      swapped. */
  lemma {:induction false} DescendingReverses(o: Options, file1: Option<File>, file2: Option<File>)
    requires CanCompare(o, file1, file2)
    ensures CanCompare(o.(ascending := false), file1, file2)
    ensures Ordering(o.(ascending := false), file1, file2) == Ordering(o.(ascending := true), file2, file1)
  {
  }

  /** Ordering is transitive: it is a sort order. */
  lemma {:induction false} OrderingTransitive(o: Options, file1: Option<File>, file2: Option<File>, file3: Option<File>)
    requires CanCompare(o, file1, file2) && CanCompare(o, file2, file3)
    requires Ordering(o, file1, file2) < 0 && Ordering(o, file2, file3) < 0
    ensures CanCompare(o, file1, file3) && Ordering(o, file1, file3) < 0
  {
    var f := o.field.value;
    var t1, t2, t3 := FileText(f, file1), FileText(f, file2), FileText(f, file3);
    if DirectoryOrder(o, file1, file2) == 0 && DirectoryOrder(o, file2, file3) == 0 {
      if o.caseSensitive && o.ascending {
        Text.CompareToTransitive(t1, t2, t3);
      } else if o.caseSensitive {
        Text.CompareToTransitive(t3, t2, t1);
      } else if o.ascending {
        Text.CompareToTransitive(Text.Lower(t1), Text.Lower(t2), Text.Lower(t3));
      } else {
        Text.CompareToTransitive(Text.Lower(t3), Text.Lower(t2), Text.Lower(t1));
      }
    }
  }

  /** As written, a descending case-sensitive comparator finds every two
      entries with the same directory-ness equal. */
  lemma AsWrittenDescendingTies(o: Options, file1: Option<File>, file2: Option<File>)
    requires o.field.Some? && o.caseSensitive && !o.ascending && CanCompare(o, file1, file2)
    requires o.directorySensitive ==> file1.value.isDirectory == file2.value.isDirectory
    ensures OrderingAsWritten(o, file1, file2) == 0
  {
    Text.CompareToZero(FileText(o.field.value, file2), FileText(o.field.value, file2));
  }

  /** As written and as intended agree except in the descending
      case-sensitive text comparison. */
  lemma AsWrittenElsewhereIntended(o: Options, file1: Option<File>, file2: Option<File>)
    requires CanCompare(o, file1, file2) && (o.ascending || !o.caseSensitive)
    ensures OrderingAsWritten(o, file1, file2) == Ordering(o, file1, file2)
  {
  }

  /** Swapping the files negates the result as written too: the broken
      branch is 0 both ways. */
  lemma {:induction false} OrderingAsWrittenAntisymmetric(o: Options, file1: Option<File>, file2: Option<File>)
    requires CanCompare(o, file1, file2)
    ensures CanCompare(o, file2, file1)
    ensures OrderingAsWritten(o, file1, file2) == -OrderingAsWritten(o, file2, file1)
  {
    OrderingAntisymmetric(o, file1, file2);
    if o.field.Some? && o.caseSensitive && !o.ascending {
      Text.CompareToZero(FileText(o.field.value, file1), FileText(o.field.value, file1));
      Text.CompareToZero(FileText(o.field.value, file2), FileText(o.field.value, file2));
    }
  }

  /** Two files, "a.mp3" and "b.mp3", by name descending with the default
      flags: as written they tie; as intended "b.mp3" comes first. */
  lemma AsWrittenTiesDistinctNames()
    ensures var o := Options(Some(Name), true, true, false);
      var a, b := Some(File("a.mp3", false)), Some(File("b.mp3", false));
      OrderingAsWritten(o, a, b) == 0 && Ordering(o, a, b) > 0
  {
    var o := Options(Some(Name), true, true, false);
    var a, b := Some(File("a.mp3", false)), Some(File("b.mp3", false));
    assert FileText(Name, a) == "a.mp3" && FileText(Name, b) == "b.mp3";
    Text.CompareToZero("b.mp3", "b.mp3");
    assert Text.CompareTo("b.mp3", "a.mp3") == 'b' as int - 'a' as int;
  }

  class FileComparator {
    var field: Option<Field>
    var directorySensitive: bool
    var caseSensitive: bool
    var ascending: bool

    function Value(): Options
      reads this
    {
      Options(field, directorySensitive, caseSensitive, ascending)
    }

    /** A comparator with no field yet and every flag on. */
    constructor ()
      ensures Value() == Options(None, true, true, true)
    {
      field := None;
      directorySensitive := true;
      caseSensitive := true;
      ascending := true;
    }

    /** name(): a new comparator by whole file name. */
    static method Name() returns (c: FileComparator)
      ensures fresh(c) && c.Value() == Options(Some(Field.Name), true, true, true)
    {
      c := new FileComparator();
      c.field := Some(Field.Name);
    }

    /** type(): a new comparator by extension. */
    static method Type() returns (c: FileComparator)
      ensures fresh(c) && c.Value() == Options(Some(Field.Type), true, true, true)
    {
      c := new FileComparator();
      c.field := Some(Field.Type);
    }

    /** compare as written, on the comparator's current options: 0 without
      a field, antisymmetric, and the intended order except in the
      descending case-sensitive text comparison. */
    function Compare(file1: Option<File>, file2: Option<File>): (r: int)
      reads this
      requires CanCompare(Value(), file1, file2)
      ensures field.None? ==> r == 0
      ensures r == -OrderingAsWritten(Value(), file2, file1)
      ensures ascending || !caseSensitive ==> r == Ordering(Value(), file1, file2)
    {
      OrderingAsWrittenAntisymmetric(Value(), file1, file2);
      OrderingAsWritten(Value(), file1, file2)
    }

    method DirectorySensitive() returns (self: FileComparator)
      modifies this
      ensures self == this && Value() == old(Value()).(directorySensitive := true)
    {
      directorySensitive := true;
      self := this;
    }

    method DirectoryInsensitive() returns (self: FileComparator)
      modifies this
      ensures self == this && Value() == old(Value()).(directorySensitive := false)
    {
      directorySensitive := false;
      self := this;
    }

    method CaseSensitive() returns (self: FileComparator)
      modifies this
      ensures self == this && Value() == old(Value()).(caseSensitive := true)
    {
      caseSensitive := true;
      self := this;
    }

    method CaseInsensitive() returns (self: FileComparator)
      modifies this
      ensures self == this && Value() == old(Value()).(caseSensitive := false)
    {
      caseSensitive := false;
      self := this;
    }

    method Ascending() returns (self: FileComparator)
      modifies this
      ensures self == this && Value() == old(Value()).(ascending := true)
    {
      ascending := true;
      self := this;
    }

    method Descending() returns (self: FileComparator)
      modifies this
      ensures self == this && Value() == old(Value()).(ascending := false)
    {
      ascending := false;
      self := this;
    }
  }
}
