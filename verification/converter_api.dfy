/** The conversion API: it holds the three converters in an order it adapts
    to the extension of each file it loads, loads a playlist with the first
    converter that can read it, and converts between playlist classes,
    appending every diagnostic to one error log that only clearLog empties. */
module ConverterApi {
  import opened Outcomes
  import opened Playlists
  import Text
  import LegacyXbmcTools
  import Gmmp
  import XbmcV11
  import XbmcV12

  datatype Converter = XbmcV12Converter | XbmcV11Converter | GmmpConverter

  /** The FormattedSmartPlaylist classes. */
  datatype PlaylistClass = XbmcV11Class | XbmcV12Class | GmmpClass

  /** A FormattedSmartPlaylist: an XBMC playlist of either version, or a
      GMMP playlist. */
  datatype Formatted = XbmcPlaylist(xbmc: XbmcSmartPlaylist) | GmmpPlaylist(gmmp: GmmpSmartPlaylist)

  /** What a formatted playlist holds. */
  datatype FormattedValue = XbmcContent(x: XbmcValue) | GmmpContent(g: GmmpValue)

  /** getClass() of a formatted playlist. */
  function ClassOf(f: Formatted): PlaylistClass
  {
    match f
    case XbmcPlaylist(x) => if x.version == V11 then XbmcV11Class else XbmcV12Class
    case GmmpPlaylist(_) => GmmpClass
  }

  function Objects(f: Formatted): set<object>
  {
    match f
    case XbmcPlaylist(x) => {x}
    case GmmpPlaylist(g) => {g}
  }

  function ValueOf(f: Formatted): FormattedValue
    reads Objects(f)
  {
    match f
    case XbmcPlaylist(x) => XbmcContent(x.Value())
    case GmmpPlaylist(g) => GmmpContent(g.Value())
  }

  /** The class of playlist each converter reads and writes. */
  function ClassFor(c: Converter): PlaylistClass
  {
    match c
    case XbmcV12Converter => XbmcV12Class
    case XbmcV11Converter => XbmcV11Class
    case GmmpConverter => GmmpClass
  }

  /** DEFAULT_FILE_EXTENSION of the XBMC playlists (both versions) and of
      the GMMP playlists. */
  const XbmcExtension := "xsp"
  const GmmpExtension := "spl"

  // ----- The order of the converters

  /** Deque.remove(Object): the sequence without the first occurrence of c. */
  function RemoveFirst(cs: seq<Converter>, c: Converter): seq<Converter>
  {
    if cs == [] then []
    else if cs[0] == c then cs[1..]
    else [cs[0]] + RemoveFirst(cs[1..], c)
  }

  /** remove(c) followed by addFirst(c). */
  function MoveToFront(cs: seq<Converter>, c: Converter): seq<Converter>
  {
    [c] + RemoveFirst(cs, c)
  }

  /** The converters after reorderConverterList(extension): both XBMC
      converters in front, v12 first, for "xsp"; the GMMP converter in front
      for "spl"; the same order for any other extension or none. */
  function Reordered(cs: seq<Converter>, extension: Option<string>): seq<Converter>
  {
    if extension == Some(XbmcExtension) then MoveToFront(MoveToFront(cs, XbmcV11Converter), XbmcV12Converter)
    else if extension == Some(GmmpExtension) then MoveToFront(cs, GmmpConverter)
    else cs
  }

  /** Each of the three converters, once. */
  predicate IsArrangement(cs: seq<Converter>)
  {
    |cs| == 3 && XbmcV12Converter in cs && XbmcV11Converter in cs && GmmpConverter in cs
  }

  /** The converters of cs not in gone, in their order in cs. */
  function Others(cs: seq<Converter>, gone: set<Converter>): seq<Converter>
  {
    if cs == [] then [] else (if cs[0] in gone then [] else [cs[0]]) + Others(cs[1..], gone)
  }

  /** Removing from three converters, spelled out. */
  lemma {:induction false} RemoveFromThree(a: Converter, b: Converter, c: Converter, x: Converter)
    ensures RemoveFirst([a, b, c], x)
      == if a == x then [b, c] else if b == x then [a, c] else if c == x then [a, b] else [a, b, c]
  {
    assert [c][1..] == [];
    assert RemoveFirst([c], x) == if c == x then [] else [c];
    assert [b, c][1..] == [c];
    assert RemoveFirst([b, c], x) == if b == x then [c] else if c == x then [b] else [b, c];
    assert [a, b, c][1..] == [b, c];
  }

  /** Others of three converters, spelled out. */
  lemma {:induction false} OthersOfThree(a: Converter, b: Converter, c: Converter, gone: set<Converter>)
    ensures Others([a, b, c], gone)
      == (if a in gone then [] else [a]) + (if b in gone then [] else [b]) + (if c in gone then [] else [c])
  {
    assert [c][1..] == [];
    assert Others([c], gone) == (if c in gone then [] else [c]);
    assert [b, c][1..] == [c];
    assert Others([b, c], gone) == (if b in gone then [] else [b]) + (if c in gone then [] else [c]);
    assert [a, b, c][1..] == [b, c];
  }

  /** An arrangement holds each converter once. */
  lemma {:induction false} ArrangementMultiset(cs: seq<Converter>)
    requires IsArrangement(cs)
    ensures multiset(cs) == multiset{XbmcV12Converter, XbmcV11Converter, GmmpConverter}
  {
    assert cs == [cs[0], cs[1], cs[2]];
    assert multiset(cs) == multiset{cs[0], cs[1], cs[2]};
  }

  /** Reordering moves converters and never adds or loses one, so the deque
      stays an arrangement of the three converters. */
  lemma {:induction false} ReorderedPermutes(cs: seq<Converter>, extension: Option<string>)
    requires IsArrangement(cs)
    ensures multiset(Reordered(cs, extension)) == multiset(cs)
    ensures IsArrangement(Reordered(cs, extension))
  {
    assert cs == [cs[0], cs[1], cs[2]];
    if extension == Some(XbmcExtension) {
      XbmcFront(cs);
    } else if extension == Some(GmmpExtension) {
      RemoveFromThree(cs[0], cs[1], cs[2], GmmpConverter);
    }
    ArrangementMultiset(cs);
    ArrangementMultiset(Reordered(cs, extension));
  }

  /** "xsp" leaves v12, v11, GMMP whatever the order before. */
  lemma {:induction false} XbmcFront(cs: seq<Converter>)
    requires IsArrangement(cs)
    ensures MoveToFront(MoveToFront(cs, XbmcV11Converter), XbmcV12Converter)
      == [XbmcV12Converter, XbmcV11Converter, GmmpConverter]
  {
    assert cs == [cs[0], cs[1], cs[2]];
    RemoveFromThree(cs[0], cs[1], cs[2], XbmcV11Converter);
    var once := MoveToFront(cs, XbmcV11Converter);
    assert |once| == 3;
    assert once == [once[0], once[1], once[2]];
    RemoveFromThree(once[0], once[1], once[2], XbmcV12Converter);
  }

  /** reorderConverterList: "xsp" puts v12 then v11 in front, "spl" puts GMMP
      in front and keeps the other two in their order, and any other
      extension, or none, leaves the order alone. */
  lemma {:induction false} ReorderedFront(cs: seq<Converter>, extension: Option<string>)
    requires IsArrangement(cs)
    ensures extension == Some(XbmcExtension) ==>
      Reordered(cs, extension) == [XbmcV12Converter, XbmcV11Converter, GmmpConverter]
    ensures extension == Some(GmmpExtension) ==>
      Reordered(cs, extension) == [GmmpConverter] + Others(cs, {GmmpConverter})
    ensures extension !in {Some(XbmcExtension), Some(GmmpExtension)} ==> Reordered(cs, extension) == cs
  {
    assert cs == [cs[0], cs[1], cs[2]];
    if extension == Some(XbmcExtension) {
      XbmcFront(cs);
    } else if extension == Some(GmmpExtension) {
      RemoveFromThree(cs[0], cs[1], cs[2], GmmpConverter);
      OthersOfThree(cs[0], cs[1], cs[2], {GmmpConverter});
    }
  }

  /** The extension loadFromFile reorders by: the last dot-separated piece
      of the file name, lower-cased; none when the name is in one piece. */
  function ExtensionOf(fileName: string): Option<string>
  {
    match Text.LastSegment(fileName)
    case None => None
    case Some(piece) => Some(Text.Lower(piece))
  }

  /** A name with a dot has the lower-cased text after its last dot as its
      extension; a name without one has none. */
  lemma ExtensionOfName(stem: string, extension: string)
    requires extension != "" && Text.NoneOf(extension, {'.'})
    ensures ExtensionOf(stem + "." + extension) == Some(Text.Lower(extension))
    ensures Text.NoneOf(stem, {'.'}) ==> ExtensionOf(stem) == None
  {
    Text.LastSegmentAfterDot(stem, extension);
    if Text.NoneOf(stem, {'.'}) {
      Text.LastSegmentNoDot(stem);
    }
  }

  // ----- Reading

  function Unmarshalled(u: Option<Formatted>): set<object>
  {
    if u.Some? then Objects(u.value) else {}
  }

  /** Whether a converter's readFromFile returns the playlist its
      unmarshalling produced: the v12 converter also needs every rule to
      have its value; the other two take whatever unmarshalling gives. */
  predicate ReadSucceeds(c: Converter, unmarshalled: Option<Formatted>)
    reads Unmarshalled(unmarshalled)
  {
    unmarshalled.Some?
    && (c == XbmcV12Converter ==>
          unmarshalled.value.XbmcPlaylist? && XbmcV12.AllHaveOperands(unmarshalled.value.xbmc.rules))
  }

  // ----- Converting

  /** The playlists a conversion to the format-agnostic playlist accepts
      without a crash. */
  predicate Decodable(v: FormattedValue)
  {
    match v
    case XbmcContent(x) => x.matching.Some? && LegacyXbmcTools.Readable(x.rules)
    case GmmpContent(g) => g.ascending.Some? && Gmmp.AllConvertible(g.rules)
  }

  function DecodedValue(v: FormattedValue): AgnosticValue
    requires Decodable(v)
  {
    match v
    case XbmcContent(x) => LegacyXbmcTools.Decoded(x)
    case GmmpContent(g) => Gmmp.Decoded(g)
  }

  function DecodeNotes(v: FormattedValue): seq<Diagnostic>
    requires Decodable(v)
  {
    match v
    case XbmcContent(x) => Notes(LegacyXbmcTools.DecodeSteps(x.rules))
    case GmmpContent(g) => Gmmp.OrderCodeNotes(g.order) + Notes(Gmmp.DecodeSteps(g.rules))
  }

  /** The format-agnostic playlists a conversion to the class accepts
      without a crash. */
  predicate Encodable(outputType: PlaylistClass, p: AgnosticValue)
  {
    match outputType
    case GmmpClass => Gmmp.AllEncodable(p.rules)
    case _ => p.matchAll.Some? && p.order.Some? && LegacyXbmcTools.Writable(p.rules)
  }

  function EncodedValue(outputType: PlaylistClass, p: AgnosticValue): FormattedValue
    requires Encodable(outputType, p)
  {
    match outputType
    case XbmcV11Class => XbmcContent(LegacyXbmcTools.Encoded(p, V11))
    case XbmcV12Class => XbmcContent(LegacyXbmcTools.Encoded(p, V12))
    case GmmpClass => GmmpContent(Gmmp.Encoded(p))
  }

  function EncodeNotes(outputType: PlaylistClass, p: AgnosticValue): seq<Diagnostic>
    requires Encodable(outputType, p)
  {
    match outputType
    case GmmpClass => Gmmp.OrderKeyNotes(p.order) + Notes(Gmmp.EncodeSteps(p.rules))
    case _ => Notes(LegacyXbmcTools.EncodeSteps(p.rules))
  }

  /** classConverterMap as the constructor fills it. */
  const Registry: map<PlaylistClass, Converter> :=
    map[XbmcV11Class := XbmcV11Converter, XbmcV12Class := XbmcV12Converter, GmmpClass := GmmpConverter]

  /** Two appends to the log in a row append their concatenation. */
  lemma LogAppendedTwice(log: seq<Diagnostic>, first: seq<Diagnostic>, second: seq<Diagnostic>)
    ensures log + first + second == log + (first + second)
  {
  }

  /** The registry has a converter for every class, the one for that class. */
  lemma RegistryComplete(playlistClass: PlaylistClass)
    ensures playlistClass in Registry && ClassFor(Registry[playlistClass]) == playlistClass
  {
    match playlistClass
    case XbmcV11Class =>
    case XbmcV12Class =>
    case GmmpClass =>
  }

  class ConverterApi {
    var converters: seq<Converter>
    const classConverterMap: map<PlaylistClass, Converter>
    const errorLog: ErrorLog

    ghost predicate Valid()
      reads this
    {
      IsArrangement(converters) && classConverterMap == Registry
    }

    /** The deque holds v12, v11, GMMP in that order, each class is mapped
        to its converter, and the error log is empty. */
    constructor ()
      ensures Valid() && converters == [XbmcV12Converter, XbmcV11Converter, GmmpConverter]
      ensures fresh(errorLog) && errorLog.messages == []
    {
      converters := [XbmcV12Converter, XbmcV11Converter, GmmpConverter];
      classConverterMap := Registry;
      errorLog := new ErrorLog();
    }

    /** findConverter: the converter registered for a class, or None where
        the source throws IllegalArgumentException for an unregistered
        class. With the map the constructor fills, every class has a
        converter, and it is the one that reads and writes that class. */
    function FindConverter(playlistClass: PlaylistClass): (r: Option<Converter>)
      ensures r.None? <==> playlistClass !in classConverterMap
      ensures classConverterMap == Registry ==> r.Some? && ClassFor(r.value) == playlistClass
    {
      RegistryComplete(playlistClass);
      if playlistClass in classConverterMap then Some(classConverterMap[playlistClass]) else None
    }

    method ReorderConverterList(extension: Option<string>)
      modifies this
      ensures converters == Reordered(old(converters), extension)
    {
      if extension == Some(XbmcExtension) {
        converters := RemoveFirst(converters, XbmcV11Converter);
        converters := [XbmcV11Converter] + converters;
        converters := RemoveFirst(converters, XbmcV12Converter);
        converters := [XbmcV12Converter] + converters;
      } else if extension == Some(GmmpExtension) {
        converters := RemoveFirst(converters, GmmpConverter);
        converters := [GmmpConverter] + converters;
      }
    }

    /** loadFromFile: reorders the converters by the file's extension, then
        returns what the first converter, in the new order, reads
        successfully; None where the source throws because none can.
        unmarshal stands for each converter's XML unmarshalling of the file. */
    method LoadFromFile(fileName: string, unmarshal: Converter -> Option<Formatted>) returns (result: Option<Formatted>)
      requires Valid()
      modifies this
      ensures Valid() && converters == Reordered(old(converters), ExtensionOf(fileName))
      ensures result.None? <==>
        forall i :: 0 <= i < |converters| ==> !ReadSucceeds(converters[i], unmarshal(converters[i]))
      ensures result.Some? ==>
        exists i :: 0 <= i < |converters| && ReadSucceeds(converters[i], unmarshal(converters[i]))
          && result == unmarshal(converters[i])
          && forall j :: 0 <= j < i ==> !ReadSucceeds(converters[j], unmarshal(converters[j]))
    {
      ReorderedPermutes(converters, ExtensionOf(fileName));
      ReorderConverterList(ExtensionOf(fileName));
      var cs := converters;
      var i := 0;
      while i < |cs|
        invariant 0 <= i <= |cs| && converters == cs
        invariant forall j :: 0 <= j < i ==> !ReadSucceeds(cs[j], unmarshal(cs[j]))
      {
        var read := unmarshal(cs[i]);
        if cs[i] == XbmcV12Converter {
          var x := if read.Some? && read.value.XbmcPlaylist? then Some(read.value.xbmc) else None;
          x := XbmcV12.ReadFromFile(x);
          read := if x.Some? then Some(XbmcPlaylist(x.value)) else None;
        }
        if read.Some? {
          return read;
        }
        i := i + 1;
      }
      return None;
    }

    /** convert(FormattedSmartPlaylist): the conversion of the playlist's
        class, appending to the API's error log. */
    method ToAgnostic(f: Formatted) returns (result: AgnosticSmartPlaylist)
      requires Valid() && Decodable(ValueOf(f))
      modifies errorLog
      ensures fresh(result) && result.Value() == DecodedValue(ValueOf(f))
      ensures errorLog.messages == old(errorLog.messages) + DecodeNotes(ValueOf(f))
    {
      var converter := FindConverter(ClassOf(f)).value;
      match converter {
        case XbmcV12Converter =>
          result := XbmcV12.ToAgnostic(f.xbmc, errorLog);
        case XbmcV11Converter =>
          result := XbmcV11.ToAgnostic(f.xbmc, errorLog);
        case GmmpConverter =>
          ghost var before := errorLog.messages;
          result := Gmmp.ToAgnostic(f.gmmp, errorLog);
          LogAppendedTwice(before, Gmmp.OrderCodeNotes(f.gmmp.order), Notes(Gmmp.DecodeSteps(f.gmmp.rules)));
      }
    }

    /** convert(AgnosticSmartPlaylist, outputType): the conversion to the
        class, appending to the API's error log. */
    method FromAgnostic(p: AgnosticSmartPlaylist, outputType: PlaylistClass) returns (result: Formatted)
      requires Valid() && Encodable(outputType, p.Value())
      modifies errorLog
      ensures fresh(Objects(result)) && ClassOf(result) == outputType
      ensures ValueOf(result) == EncodedValue(outputType, p.Value())
      ensures errorLog.messages == old(errorLog.messages) + EncodeNotes(outputType, p.Value())
    {
      var converter := FindConverter(outputType).value;
      match converter {
        case XbmcV12Converter =>
          var x := XbmcV12.FromAgnostic(p, errorLog);
          result := XbmcPlaylist(x);
        case XbmcV11Converter =>
          var x := XbmcV11.FromAgnostic(p, errorLog);
          result := XbmcPlaylist(x);
        case GmmpConverter =>
          ghost var before := errorLog.messages;
          var g := Gmmp.FromAgnostic(p, errorLog);
          result := GmmpPlaylist(g);
          LogAppendedTwice(before, Gmmp.OrderKeyNotes(p.order), Notes(Gmmp.EncodeSteps(p.rules)));
      }
    }

    /** convert(FormattedSmartPlaylist, outputType): to the format-agnostic
        playlist and on to the class, both steps appending to the same log,
        in that order. */
    method Convert(f: Formatted, outputType: PlaylistClass) returns (result: Formatted)
      requires Valid() && Decodable(ValueOf(f)) && Encodable(outputType, DecodedValue(ValueOf(f)))
      modifies errorLog
      ensures ClassOf(result) == outputType
      ensures ValueOf(result) == EncodedValue(outputType, DecodedValue(ValueOf(f)))
      ensures errorLog.messages
        == old(errorLog.messages) + DecodeNotes(ValueOf(f)) + EncodeNotes(outputType, DecodedValue(ValueOf(f)))
    {
      ghost var decoded := DecodedValue(ValueOf(f));
      var intermediary := ToAgnostic(f);
      assert intermediary.Value() == decoded;
      result := FromAgnostic(intermediary, outputType);
    }

    /** getErrorLog: the API's own log, so later conversions show through it. */
    method GetErrorLog() returns (log: ErrorLog)
      ensures log == errorLog
    {
      log := errorLog;
    }

    /** clearLog: the only operation that removes messages. */
    method ClearLog()
      modifies errorLog
      ensures errorLog.messages == []
    {
      errorLog.Clear();
    }
  }
}
