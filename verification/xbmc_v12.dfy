/** The XBMC v12 playlist converter: reading checks that every rule has its
    value, and both conversions hand over to the older XBMC conversion
    tools, writing a v12 playlist. */
module XbmcV12 {
  import opened Outcomes
  import opened Playlists
  import LegacyXbmcTools

  /** Whether every rule carries its <value> element. */
  predicate AllHaveOperands(rules: seq<XbmcRule>)
  {
    forall i :: 0 <= i < |rules| ==> rules[i].operand.Some?
  }

  /** readFromFile once the XML has been unmarshalled (None when
      unmarshalling failed): the playlist is refused when any rule lacks its
      value, and otherwise returned as it was read. */
  method ReadFromFile(unmarshalled: Option<XbmcSmartPlaylist>) returns (result: Option<XbmcSmartPlaylist>)
    ensures result.Some? <==> unmarshalled.Some? && AllHaveOperands(unmarshalled.value.rules)
    ensures result.Some? ==> result == unmarshalled
  {
    if unmarshalled.None? {
      return None;
    }
    var x := unmarshalled.value;
    var i := 0;
    while i < |x.rules|
      invariant 0 <= i <= |x.rules|
      invariant forall k :: 0 <= k < i ==> x.rules[k].operand.Some?
    {
      if x.rules[i].operand.None? {
        return None;
      }
      i := i + 1;
    }
    return unmarshalled;
  }

  /** Rules that all have a value are readable by the conversion tools. */
  lemma {:induction false} ReadRulesAreReadable(rules: seq<XbmcRule>)
    requires AllHaveOperands(rules)
    ensures LegacyXbmcTools.Readable(rules)
  {
  }

  /** convert(FormattedSmartPlaylist, errorLog): the tools' conversion, on
      the same error log. */
  method ToAgnostic(x: XbmcSmartPlaylist, errorLog: ErrorLog) returns (result: AgnosticSmartPlaylist)
    requires x.matching.Some? && LegacyXbmcTools.Readable(x.rules)
    modifies errorLog
    ensures fresh(result)
    ensures result.Value() == LegacyXbmcTools.Decoded(x.Value())
    ensures errorLog.messages == old(errorLog.messages) + Notes(LegacyXbmcTools.DecodeSteps(x.rules))
  {
    result := LegacyXbmcTools.ToAgnostic(x, errorLog);
  }

  /** convert(AgnosticSmartPlaylist, errorLog): the tools' conversion to a
      v12 playlist, on the same error log. */
  method FromAgnostic(p: AgnosticSmartPlaylist, errorLog: ErrorLog) returns (result: XbmcSmartPlaylist)
    requires p.matchAll.Some? && p.order.Some? && LegacyXbmcTools.Writable(p.rules)
    modifies errorLog
    ensures fresh(result) && result.version == V12
    ensures result.Value() == LegacyXbmcTools.Encoded(p.Value(), V12)
    ensures errorLog.messages == old(errorLog.messages) + Notes(LegacyXbmcTools.EncodeSteps(p.rules))
  {
    result := LegacyXbmcTools.FromAgnostic(p, V12, errorLog);
  }
}
