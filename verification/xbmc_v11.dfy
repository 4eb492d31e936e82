/** The XBMC v11 playlist converter: reading is the XML unmarshalling alone,
    and both conversions hand over to the older XBMC conversion tools,
    writing a v11 playlist. */
module XbmcV11 {
  import opened Outcomes
  import opened Playlists
  import LegacyXbmcTools

  /** convert(FormattedSmartPlaylist, errorLog): the tools' conversion, on
      the same error log. */
  method ToAgnostic(x: XbmcSmartPlaylist, errorLog: ErrorLog) returns (result: AgnosticSmartPlaylist)
    requires x.matching.Some? && LegacyXbmcTools.Readable(x.rules)
    modifies errorLog
    ensures fresh(result)
    ensures result.Value() == LegacyXbmcTools.Decoded(x.Value())
    ensures errorLog.messages == old(errorLog.messages) + Notes(LegacyXbmcTools.DecodeSteps(x.rules))
  {
    result := LegacyXbmcTools.ToAgnostic(x, errorLog);
  }

  /** convert(AgnosticSmartPlaylist, errorLog): the tools' conversion to a
      v11 playlist, on the same error log. */
  method FromAgnostic(p: AgnosticSmartPlaylist, errorLog: ErrorLog) returns (result: XbmcSmartPlaylist)
    requires p.matchAll.Some? && p.order.Some? && LegacyXbmcTools.Writable(p.rules)
    modifies errorLog
    ensures fresh(result) && result.version == V11
    ensures result.Value() == LegacyXbmcTools.Encoded(p.Value(), V11)
    ensures errorLog.messages == old(errorLog.messages) + Notes(LegacyXbmcTools.EncodeSteps(p.rules))
  {
    result := LegacyXbmcTools.FromAgnostic(p, V11, errorLog);
  }
}
